/**
 * Course-week assignments: their windows (lib/assignments.ts) and the recompute that keeps them in step with the course
 * (lib/assignments-server.ts), over in-memory tables. Dates are day numbers; a date or time that can't be read is None.
 */
module CourseWeeks {
  import opened Options
  import opened EasternTime

  const MINUTE_MS := 60000
  const MAX_WEEK := 52
  const DEFAULT_DUE_DAY_OFFSET := 6
  const DEFAULT_DUE_MINUTES := 23 * 60 + 59

  /** A stored due time: none, minutes into the day, or text that is no time. */
  datatype DueTime = NoTime | Minutes(value: int) | NotATime

  function CourseWeekStart(startsOn: int, week: int): Option<int> {
    if 1 <= week <= MAX_WEEK then Some(startsOn + 7 * (week - 1)) else None
  }

  /** easternToUtc of a date and a time of day. */
  function DayTime(zone: Zone, date: int, minutes: int): int { UtcOf(zone, date * DAY_MS + minutes * MINUTE_MS) }

  datatype Window = Window(opensAt: int, dueAt: int, dueDayOffset: int)

  function Clamped(start: int, endsOn: Option<int>, offset: int): int {
    if endsOn.Some? && endsOn.value >= start && endsOn.value - start < offset then endsOn.value - start else offset
  }

  function MinutesOf(t: DueTime): Option<int> {
    match t
    case NoTime => Some(DEFAULT_DUE_MINUTES)
    case Minutes(m) => if 0 <= m < 24 * 60 then Some(m) else None
    case NotATime => None
  }

  function CourseWeekWindow(zone: Zone, startsOn: int, endsOn: Option<int>, week: int, dueDayOffset: Option<int>,
                            due: DueTime): Option<Window> {
    var start := CourseWeekStart(startsOn, week);
    var offset := if dueDayOffset.Some? then dueDayOffset.value else DEFAULT_DUE_DAY_OFFSET;
    if start.None? || offset < 0 || offset > 13 || MinutesOf(due).None? then None else
      var used := Clamped(start.value, endsOn, offset);
      var opensAt := DayTime(zone, start.value, 0);
      var dueAt := DayTime(zone, start.value + used, MinutesOf(due).value);
      if dueAt <= opensAt then None else Some(Window(opensAt, dueAt, used))
  }

  /** The window is a fixed point of the offset it stores. */
  lemma WindowIsStable(zone: Zone, startsOn: int, endsOn: Option<int>, week: int, dueDayOffset: Option<int>, due: DueTime)
    requires CourseWeekWindow(zone, startsOn, endsOn, week, dueDayOffset, due).Some?
    ensures var w := CourseWeekWindow(zone, startsOn, endsOn, week, dueDayOffset, due);
            CourseWeekWindow(zone, startsOn, endsOn, week, Some(w.value.dueDayOffset), due) == w
  {
    hide UtcOf;
  }

  /**
   * There is a window exactly for one of 52 weeks, a day up to 13 after its first, and a time of day, six days and a minute to
   * midnight when nothing is asked for, that comes after the opening. It opens at midnight of the week's first day, and the
   * work is due at that time that many days on; but on the cohort's last day if that is sooner and not before the week.
   */
  lemma WindowMeans(zone: Zone, startsOn: int, endsOn: Option<int>, week: int, dueDayOffset: Option<int>, due: DueTime,
                    opens: int, ends: int)
    requires IsEastern(zone)
    requires var start, days, minutes := startsOn + 7 * (week - 1), DaysAsked(dueDayOffset), MinutesAsked(due);
             IsUtc(zone, start * DAY_MS, opens)
             && IsUtc(zone, (start + DaysUsed(start, endsOn, days)) * DAY_MS + minutes * MINUTE_MS, ends)
    ensures var start, days, minutes := startsOn + 7 * (week - 1), DaysAsked(dueDayOffset), MinutesAsked(due);
            CourseWeekWindow(zone, startsOn, endsOn, week, dueDayOffset, due)
            == if 1 <= week <= 52 && 0 <= days <= 13 && 0 <= minutes < 1440 && opens < ends
               then Some(Window(opens, ends, DaysUsed(start, endsOn, days))) else None
  {
    var start, days, minutes := startsOn + 7 * (week - 1), DaysAsked(dueDayOffset), MinutesAsked(due);
    UtcIsIt(zone, start * DAY_MS, opens);
    UtcIsIt(zone, (start + DaysUsed(start, endsOn, days)) * DAY_MS + minutes * MINUTE_MS, ends);
    hide UtcOf, IsEastern, IsUtc, Exists, CourseWeekWindow, DaysUsed;
    WindowIs(zone, startsOn, endsOn, week, dueDayOffset, due);
  }

  lemma WindowIs(zone: Zone, startsOn: int, endsOn: Option<int>, week: int, dueDayOffset: Option<int>, due: DueTime)
    ensures var start, days, minutes := startsOn + 7 * (week - 1), DaysAsked(dueDayOffset), MinutesAsked(due);
            var used := DaysUsed(start, endsOn, days);
            var opens, ends := UtcOf(zone, start * DAY_MS), UtcOf(zone, (start + used) * DAY_MS + minutes * MINUTE_MS);
            CourseWeekWindow(zone, startsOn, endsOn, week, dueDayOffset, due)
            == if 1 <= week <= 52 && 0 <= days <= 13 && 0 <= minutes < 1440 && opens < ends
               then Some(Window(opens, ends, used)) else None
  {
    hide UtcOf;
  }

  /** How many days into the week work is to be due: the seventh day, unless another is asked for. */
  function DaysAsked(asked: Option<int>): int {
    match asked
    case Some(days) => days
    case None => 6
  }

  /** How many minutes into that day: 23:59, unless another time is asked for; -1 for what is no time. */
  function MinutesAsked(due: DueTime): int {
    match due
    case NoTime => 1439
    case Minutes(value) => value
    case NotATime => -1
  }

  /** The days asked for, cut off at the cohort's last day where that is in or after the week. */
  function DaysUsed(start: int, endsOn: Option<int>, days: int): int {
    match endsOn
    case Some(end) => if start <= end < start + days then end - start else days
    case None => days
  }

  /** Where midnight isn't skipped, all that can be wrong with the times is that work is due at the very opening. */
  lemma OpensBeforeDue(zone: Zone, startsOn: int, endsOn: Option<int>, week: int, dueDayOffset: Option<int>, due: DueTime)
    requires IsEastern(zone) && Exists(zone, (startsOn + 7 * (week - 1)) * DAY_MS)
    ensures var days, minutes := DaysAsked(dueDayOffset), MinutesAsked(due);
            CourseWeekWindow(zone, startsOn, endsOn, week, dueDayOffset, due).Some?
            <==> 1 <= week <= 52 && 0 <= days <= 13 && 0 <= minutes < 1440
                 && (DaysUsed(startsOn + 7 * (week - 1), endsOn, days) > 0 || minutes > 0)
  {
    var start, days, minutes := startsOn + 7 * (week - 1), DaysAsked(dueDayOffset), MinutesAsked(due);
    var used := DaysUsed(start, endsOn, days);
    var wall, later := start * DAY_MS, (start + used) * DAY_MS + minutes * MINUTE_MS;
    var opens, ends := UtcOf(zone, wall), UtcOf(zone, later);
    UtcIsIt(zone, wall, opens);
    UtcIsIt(zone, later, ends);
    WindowMeans(zone, startsOn, endsOn, week, dueDayOffset, due, opens, ends);
    hide CourseWeekWindow, UtcOf, IsEastern, IsUtc, Exists;
    if 0 <= days <= 13 && 0 <= minutes < 1440 {
      OnLater(start, used, minutes);
      LaterThatDay(zone, wall, later, opens, ends);
    }
  }

  lemma OnLater(start: int, used: int, minutes: int)
    requires 0 <= used && 0 <= minutes
    ensures start * DAY_MS <= (start + used) * DAY_MS + minutes * MINUTE_MS
    ensures start * DAY_MS < (start + used) * DAY_MS + minutes * MINUTE_MS <==> used > 0 || minutes > 0
  {}

  /** The week opens on its first day. */
  lemma OpensOnTheFirstDay(zone: Zone, startsOn: int, endsOn: Option<int>, week: int, dueDayOffset: Option<int>, due: DueTime)
    requires IsEastern(zone) && CourseWeekWindow(zone, startsOn, endsOn, week, dueDayOffset, due).Some?
    ensures var start := startsOn + 7 * (week - 1);
            var opens := CourseWeekWindow(zone, startsOn, endsOn, week, dueDayOffset, due).value.opensAt;
            && IsUtc(zone, start * DAY_MS, opens) && EasternDate(zone, opens) == start
            && Wall(zone, opens) == if Exists(zone, start * DAY_MS) then start * DAY_MS else start * DAY_MS + HOUR_MS
  {
    var start := startsOn + 7 * (week - 1);
    var opens := CourseWeekWindow(zone, startsOn, endsOn, week, dueDayOffset, due).value.opensAt;
    UtcIsIt(zone, start * DAY_MS, opens);
    hide UtcOf, IsEastern;
    DayAndTime(start, Wall(zone, opens) - start * DAY_MS);
  }

  /**
   * The day stored is by the cohort's last day exactly when the week starts by then; work is due on it at the time asked
   * for, or an hour later when the clocks skip that time. Where they skip no time after eleven at night, that is the same
   * day, and so work is due by the cohort's last day exactly when the week starts by then.
   */
  lemma DueByTheLastDay(zone: Zone, startsOn: int, endsOn: Option<int>, week: int, dueDayOffset: Option<int>, due: DueTime)
    requires IsEastern(zone) && CourseWeekWindow(zone, startsOn, endsOn, week, dueDayOffset, due).Some?
    ensures var w := CourseWeekWindow(zone, startsOn, endsOn, week, dueDayOffset, due).value;
            var start := startsOn + 7 * (week - 1);
            && 0 <= w.dueDayOffset <= 13 && w.opensAt < w.dueAt
            && (endsOn.Some? ==> (start + w.dueDayOffset <= endsOn.value <==> start <= endsOn.value))
            && var wall := (start + w.dueDayOffset) * DAY_MS + MinutesOf(due).value * MINUTE_MS;
               if Exists(zone, wall) then Wall(zone, w.dueAt) == wall && EasternDate(zone, w.dueAt) == start + w.dueDayOffset
               else Wall(zone, w.dueAt) == wall + HOUR_MS
    ensures var w := CourseWeekWindow(zone, startsOn, endsOn, week, dueDayOffset, due).value;
            var start := startsOn + 7 * (week - 1);
            SkipsBeforeEleven(zone) ==>
              && EasternDate(zone, w.dueAt) == start + w.dueDayOffset
              && (endsOn.Some? ==> (EasternDate(zone, w.dueAt) <= endsOn.value <==> start <= endsOn.value))
  {
    var start := startsOn + 7 * (week - 1);
    var w := CourseWeekWindow(zone, startsOn, endsOn, week, dueDayOffset, due).value;
    UtcIsRight(zone, (start + w.dueDayOffset) * DAY_MS + MinutesOf(due).value * MINUTE_MS);
    DayOf(start + w.dueDayOffset, MinutesOf(due).value);
    hide UtcOf, IsEastern;
    if SkipsBeforeEleven(zone) { SameDay(zone, start + w.dueDayOffset, MinutesOf(due).value, w.dueAt); }
  }

  /** The hour after a skipped time is still that day. */
  lemma SameDay(zone: Zone, day: int, minutes: int, dueAt: int)
    requires 0 <= minutes < 24 * 60 && SkipsBeforeEleven(zone)
    requires var wall := day * DAY_MS + minutes * MINUTE_MS;
             Wall(zone, dueAt) == if Exists(zone, wall) then wall else wall + HOUR_MS
    ensures EasternDate(zone, dueAt) == day
  {
    var wall, time := day * DAY_MS + minutes * MINUTE_MS, minutes * MINUTE_MS;
    DayOf(day, minutes);
    assert wall % DAY_MS == time;
    if !Exists(zone, wall) {
      assert time < 23 * HOUR_MS;
      DayAndTime(day, time + HOUR_MS);
    }
  }

  lemma DayAndTime(day: int, time: int)
    requires 0 <= time < DAY_MS
    ensures (day * DAY_MS + time) / DAY_MS == day
  {}

  /** Clocks that go forward at half past eleven on the seventh night. */
  function Midnight(instant: int): int { if instant < 6 * DAY_MS + 23 * HOUR_MS + HOUR_MS / 2 + EST then EST else EDT }

  /** There the week starts, and its work's day is, by the cohort's last day, but the work is due at one the next night. */
  lemma LateSkipIsDueTheNextDay()
    ensures var w := CourseWeekWindow(Midnight, 0, Some(6), 1, None, NoTime);
            && IsEastern(Midnight) && !SkipsBeforeEleven(Midnight)
            && w.Some? && w.value.dueDayOffset == 6 && EasternDate(Midnight, w.value.dueAt) == 7
  {
    MidnightSkips();
    MidnightTimes();
    hide UtcOf, Midnight, SkipsBeforeEleven, IsEastern;
  }

  lemma MidnightSkips()
    ensures IsEastern(Midnight) && !SkipsBeforeEleven(Midnight)
  {
    var due := 6 * DAY_MS + (23 * 60 + 59) * MINUTE_MS;
    assert !Exists(Midnight, due) && due % DAY_MS >= 23 * HOUR_MS;
  }

  lemma MidnightTimes()
    ensures UtcOf(Midnight, 0) == EST
    ensures var due := 6 * DAY_MS + (23 * 60 + 59) * MINUTE_MS;
            UtcOf(Midnight, due) == due + EST && EasternDate(Midnight, due + EST) == 7
  {
    var due := 6 * DAY_MS + (23 * 60 + 59) * MINUTE_MS;
    assert After(Midnight, due, 1) == due + EST && After(Midnight, due, 2) == due + EDT;
    assert After(Midnight, 0, 1) == After(Midnight, 0, 2) == EST;
  }

  /** Winter all year. */
  function Standard(instant: int): int { EST }

  /** A cohort that ends on its fourth day has its second week's work due ten days after that. */
  lemma DueAfterTheLastDay()
    ensures var w := CourseWeekWindow(Standard, 0, Some(3), 2, None, NoTime);
            IsEastern(Standard) && w.Some? && w.value.dueDayOffset == 6 && EasternDate(Standard, w.value.dueAt) == 13
  {
    assert forall n: nat :: n > 0 ==> After(Standard, 7 * DAY_MS, n) == 7 * DAY_MS + EST;
  }

  lemma DayOf(day: int, minutes: int)
    requires 0 <= minutes < 24 * 60
    ensures (day * DAY_MS + minutes * MINUTE_MS) / DAY_MS == day
  {
    assert 0 <= minutes * MINUTE_MS < DAY_MS;
  }

  // ---------------------------------------------------------------------------------------------
  // The tables
  // ---------------------------------------------------------------------------------------------

  /** A course_assignments row; `inScope` is what the query's filters say of it. */
  datatype Row = Row(id: nat, week: int, dueDayOffset: Option<int>, dueTime: DueTime, opensAt: Option<int>, dueAt: Option<int>)

  datatype Sub = Sub(id: nat, assignment: nat, submittedAt: Option<int>, excused: bool, late: bool)

  /** The course: its cohort's dates, and the module's week when the recompute is for one module. */
  datatype Course = Course(zone: Zone, startsOn: int, endsOn: Option<int>, moduleWeek: Option<int>)

  function WeekOf(c: Course, r: Row): int { if c.moduleWeek.Some? then c.moduleWeek.value else r.week }

  function WindowOf(c: Course, r: Row): Option<Window> {
    CourseWeekWindow(c.zone, c.startsOn, c.endsOn, WeekOf(c, r), r.dueDayOffset, r.dueTime)
  }

  /** Where the course puts a row: where it is, when its week has no window. */
  function Placed(c: Course, r: Row): Row {
    var w := WindowOf(c, r);
    if w.None? then r
    else r.(week := WeekOf(c, r), opensAt := Some(w.value.opensAt), dueAt := Some(w.value.dueAt),
            dueDayOffset := Some(w.value.dueDayOffset))
  }

  /** A row the course places opens and is due as its week says, and stores the days used; a row without a window is left. */
  lemma PlacedMeans(c: Course, r: Row, opens: int, ends: int)
    requires IsEastern(c.zone)
    requires var start, days, minutes := c.startsOn + 7 * (WeekOf(c, r) - 1), DaysAsked(r.dueDayOffset), MinutesAsked(r.dueTime);
             IsUtc(c.zone, start * DAY_MS, opens)
             && IsUtc(c.zone, (start + DaysUsed(start, c.endsOn, days)) * DAY_MS + minutes * MINUTE_MS, ends)
    ensures var week, days, minutes := if c.moduleWeek.None? then r.week else c.moduleWeek.value, DaysAsked(r.dueDayOffset),
                                       MinutesAsked(r.dueTime);
            var used := DaysUsed(c.startsOn + 7 * (week - 1), c.endsOn, days);
            Placed(c, r)
            == if 1 <= week <= 52 && 0 <= days <= 13 && 0 <= minutes < 1440 && opens < ends
               then Row(r.id, week, Some(used), r.dueTime, Some(opens), Some(ends)) else r
  {
    WindowMeans(c.zone, c.startsOn, c.endsOn, WeekOf(c, r), r.dueDayOffset, r.dueTime, opens, ends);
    hide CourseWeekWindow, IsUtc, IsEastern;
  }

  /** A row the course has placed is where the course puts it. */
  lemma PlacedStays(c: Course, r: Row)
    ensures Placed(c, Placed(c, r)) == Placed(c, r)
  {
    hide CourseWeekWindow;
    if WindowOf(c, r).Some? { WindowIsStable(c.zone, c.startsOn, c.endsOn, WeekOf(c, r), r.dueDayOffset, r.dueTime); }
  }

  /** Someone has handed work in for the row, and it is not excused. */
  predicate Locked(subs: seq<Sub>, id: nat) { exists k :: 0 <= k < |subs| && subs[k].assignment == id && !subs[k].excused }

  /** Nobody handed in work for it that is not excused. */
  ghost predicate NoneInHand(subs: seq<Sub>, id: nat) {
    forall k :: 0 <= k < |subs| && subs[k].assignment == id ==> subs[k].excused
  }

  lemma NoneLocks(subs: seq<Sub>, id: nat)
    ensures NoneInHand(subs, id) <==> !Locked(subs, id)
  {}

  lemma InHand(subs: seq<Sub>, id: nat, k: nat)
    requires k < |subs| && subs[k].assignment == id && !subs[k].excused
    ensures Locked(subs, id)
  {}

  /** What the recompute makes of a row: only the rows asked for, not the locked ones unless named, not where the write fails. */
  function Recomputed(c: Course, subs: seq<Sub>, asked: nat -> bool, named: bool, fails: nat -> bool, r: Row): Row {
    if !asked(r.id) || (!named && Locked(subs, r.id)) || fails(r.id) then r else Placed(c, r)
  }

  ghost predicate UniqueIds(rows: seq<Row>) { forall i, j :: 0 <= i < j < |rows| ==> rows[i].id != rows[j].id }

  /** Submitted after the work was due. */
  predicate SubmittedLate(due: Option<int>, s: Sub) { s.submittedAt.Some? && due.Some? && s.submittedAt.value > due.value }

  function DueAt(rows: seq<Row>, id: nat): Option<int> {
    if rows == [] then None else if rows[|rows| - 1].id == id then rows[|rows| - 1].dueAt else DueAt(rows[..|rows| - 1], id)
  }

  lemma {:induction false} DueAtRow(rows: seq<Row>, j: nat)
    requires UniqueIds(rows) && j < |rows|
    ensures DueAt(rows, rows[j].id) == rows[j].dueAt
  {
    var front := rows[..|rows| - 1];
    if j < |front| { DueAtRow(front, j); }
  }

  /** A second recompute, whatever fails in it, moves nothing that a first whose writes all worked has placed. */
  lemma SecondRecomputeMovesNothing(c: Course, subs: seq<Sub>, later: seq<Sub>, asked: nat -> bool, named: bool,
                                    fails: nat -> bool, r: Row)
    requires Locked(later, r.id) == Locked(subs, r.id)
    ensures var once := Recomputed(c, subs, asked, named, _ => false, r);
            Recomputed(c, later, asked, named, fails, once) == once
  {
    hide WindowOf, Locked;
    PlacedStays(c, r);
  }

  /** What a re-stamp makes of a submission. */
  function Stamped(rows: seq<Row>, moved: set<nat>, s: Sub): Sub {
    if s.assignment in moved && s.submittedAt.Some? then s.(late := SubmittedLate(DueAt(rows, s.assignment), s)) else s
  }

  class Tables {
    var rows: seq<Row>
    var subs: seq<Sub>

    /** restampLate: finds the submissions whose flag is wrong, and flips them. */
    method RestampLate(moved: set<nat>)
      modifies this`subs
      ensures |subs| == |old(subs)| && forall k :: 0 <= k < |subs| ==> subs[k] == Stamped(rows, moved, old(subs)[k])
    {
      var late: set<int>, onTime: set<int> := {}, {};
      var i := 0;
      while i < |subs|
        invariant 0 <= i <= |subs|
        invariant forall k :: k in late <==> 0 <= k < i && Flips(k, moved, true)
        invariant forall k :: k in onTime <==> 0 <= k < i && Flips(k, moved, false)
      {
        var s := subs[i];
        if s.assignment in moved && s.submittedAt.Some? {
          var isLate := SubmittedLate(DueAt(rows, s.assignment), s);
          if isLate != s.late {
            if isLate { late := late + {i}; } else { onTime := onTime + {i}; }
          }
        }
        i := i + 1;
      }
      subs := seq(|subs|, k requires 0 <= k < |subs| reads this =>
        if k in late then subs[k].(late := true) else if k in onTime then subs[k].(late := false) else subs[k]);
    }

    /** The submission's flag is wrong, and should be `late`. */
    ghost predicate Flips(k: int, moved: set<nat>, late: bool)
      reads this
      requires 0 <= k < |subs|
    {
      subs[k].assignment in moved && subs[k].submittedAt.Some?
      && SubmittedLate(DueAt(rows, subs[k].assignment), subs[k]) == late && subs[k].late != late
    }

    /**
     * recomputeCourseWeekDates, past its reads. `fails` are the rows whose update the database refuses. Named rows move
     * whatever was handed in, and their late flags are stamped again.
     */
    method Recompute(c: Course, asked: nat -> bool, named: bool, fails: nat -> bool) returns (moved: nat, kept: nat)
      requires UniqueIds(rows)
      modifies this
      ensures |rows| == |old(rows)| && UniqueIds(rows)
      ensures forall k :: 0 <= k < |rows| ==> rows[k] == Recomputed(c, old(subs), asked, named, fails, old(rows)[k])
      ensures !named ==>
                forall j, k :: 0 <= j < |rows| && 0 <= k < |subs| && subs[k].assignment == rows[j].id && !subs[k].excused ==>
                  rows[j] == old(rows)[j]
      ensures forall k :: 0 <= k < |rows| && (!asked(rows[k].id) || fails(rows[k].id)) ==> rows[k] == old(rows)[k]
      ensures forall k :: 0 <= k < |rows| && asked(rows[k].id) && !fails(rows[k].id) ==>
                named || NoneInHand(old(subs), rows[k].id) ==> rows[k] == Placed(c, old(rows)[k])
      ensures moved == Differ(old(rows), rows) && (moved == 0 <==> rows == old(rows))
      ensures kept == Kept(c, old(subs), asked, named, old(rows))
      ensures !named ==> subs == old(subs)
      ensures named ==> |subs| == |old(subs)| && forall k :: 0 <= k < |subs| ==>
                var late := SubmittedLate(DueAt(rows, subs[k].assignment), subs[k]);
                subs[k] == old(subs)[k] || (subs[k].submittedAt.Some? && subs[k] == old(subs)[k].(late := late))
      ensures named ==>
                forall j, k :: 0 <= j < |rows| && 0 <= k < |subs| && rows[j] != old(rows)[j] ==>
                  subs[k].assignment == rows[j].id && subs[k].submittedAt.Some? ==>
                    (subs[k].late <==> rows[j].dueAt.Some? && subs[k].submittedAt.value > rows[j].dueAt.value)
    {
      hide CourseWeekWindow, WindowOf, Locked, DueAt, UtcOf, Placed;
      ghost var before := rows;
      var changed;
      moved, kept, changed := MoveRows(c, asked, named, fails);
      if named && moved > 0 { RestampLate(changed); }
      forall j | 0 <= j < |rows| ensures NoneInHand(old(subs), rows[j].id) ==> !Locked(old(subs), rows[j].id) {
        NoneLocks(old(subs), rows[j].id);
      }
      hide NoneInHand;
      forall j | 0 <= j < |rows| ensures DueAt(rows, rows[j].id) == rows[j].dueAt { DueAtRow(rows, j); }
      forall j, k | 0 <= j < |rows| && 0 <= k < |subs| && subs[k].assignment == before[j].id && !subs[k].excused && !named
        ensures rows[j] == before[j]
      {
        assert Locked(subs, before[j].id) by { InHand(subs, before[j].id, k); }
      }
    }

    /** The loop over the rows read; `changed` are the ones it moved. */
    method MoveRows(c: Course, asked: nat -> bool, named: bool, fails: nat -> bool)
        returns (moved: nat, kept: nat, changed: set<nat>)
      requires UniqueIds(rows)
      modifies this`rows
      ensures |rows| == |old(rows)| && UniqueIds(rows)
      ensures forall k :: 0 <= k < |rows| ==>
                rows[k].id == old(rows)[k].id && rows[k] == Recomputed(c, subs, asked, named, fails, old(rows)[k])
      ensures moved == Differ(old(rows), rows) && (moved == 0 <==> rows == old(rows))
      ensures kept == Kept(c, subs, asked, named, old(rows))
      ensures forall k :: 0 <= k < |rows| ==> (rows[k].id in changed <==> rows[k] != old(rows)[k])
    {
      hide Recomputed, Keeps, WindowOf, Placed, Locked, Differ, Kept;
      NoneYet(c, subs, asked, named);
      moved, kept, changed := 0, 0, {};
      ghost var before := rows;
      for i := 0 to |rows|
        invariant |rows| == |before| && (forall k :: 0 <= k < |rows| ==> rows[k].id == before[k].id)
        invariant forall k :: 0 <= k < i ==> rows[k] == Recomputed(c, subs, asked, named, fails, before[k])
        invariant forall k :: i <= k < |rows| ==> rows[k] == before[k]
        invariant forall k :: 0 <= k < i ==> (before[k].id in changed <==> rows[k] != before[k])
        invariant forall k :: i <= k < |rows| ==> before[k].id !in changed
        invariant moved == Differ(before[..i], rows[..i]) && kept == Kept(c, subs, asked, named, before[..i])
      {
        var r := rows[i];
        RowStep(c, subs, asked, named, fails, r);
        ghost var done := rows[..i];
        if asked(r.id) {
          var w := WindowOf(c, r);
          if w.Some? && Placed(c, r) != r {
            if !named && Locked(subs, r.id) {
              kept := kept + 1;
            } else if !fails(r.id) {
              rows := rows[i := Placed(c, r)];
              moved := moved + 1;
              changed := changed + {r.id};
            }
          }
        }
        OneMore(c, subs, asked, named, before[..i], done, before[i], rows[i]);
        assert before[..i + 1] == before[..i] + [before[i]] && rows[..i + 1] == done + [rows[i]];
      }
      assert before[..|rows|] == before && rows[..|rows|] == rows;
      DifferAtAll(before, rows);
    }
  }

  /** How many rows differ. */
  function Differ(before: seq<Row>, after: seq<Row>): nat
    requires |before| == |after|
  {
    if before == [] then 0
    else
      Differ(before[..|before| - 1], after[..|after| - 1]) + if before[|before| - 1] != after[|after| - 1] then 1 else 0
  }

  /** How many rows would move, but for the work handed in. */
  function Kept(c: Course, subs: seq<Sub>, asked: nat -> bool, named: bool, rows: seq<Row>): nat {
    if rows == [] then 0
    else Kept(c, subs, asked, named, rows[..|rows| - 1]) + if Keeps(c, subs, asked, named, rows[|rows| - 1]) then 1 else 0
  }

  lemma NoneYet(c: Course, subs: seq<Sub>, asked: nat -> bool, named: bool)
    ensures Differ([], []) == 0 && Kept(c, subs, asked, named, []) == 0
  {}

  lemma {:induction false} DifferAtAll(before: seq<Row>, after: seq<Row>)
    requires |before| == |after|
    ensures Differ(before, after) == 0 <==> before == after
  {
    if before != [] {
      DifferAtAll(before[..|before| - 1], after[..|after| - 1]);
      assert before == before[..|before| - 1] + [before[|before| - 1]] && after == after[..|after| - 1] + [after[|after| - 1]];
    }
  }

  lemma OneMore(c: Course, subs: seq<Sub>, asked: nat -> bool, named: bool, before: seq<Row>, after: seq<Row>, x: Row, y: Row)
    requires |before| == |after|
    ensures Differ(before + [x], after + [y]) == Differ(before, after) + if x != y then 1 else 0
    ensures Kept(c, subs, asked, named, before + [x])
            == Kept(c, subs, asked, named, before) + if Keeps(c, subs, asked, named, x) then 1 else 0
  {
    hide Keeps;
    assert (before + [x])[..|before|] == before && (after + [y])[..|after|] == after;
  }

  /** A row that would move, but for the work handed in for it. */
  predicate Keeps(c: Course, subs: seq<Sub>, asked: nat -> bool, named: bool, r: Row) {
    asked(r.id) && !named && Locked(subs, r.id) && Placed(c, r) != r
  }

  lemma RowStep(c: Course, subs: seq<Sub>, asked: nat -> bool, named: bool, fails: nat -> bool, r: Row)
    ensures Recomputed(c, subs, asked, named, fails, r)
            == if asked(r.id) && (named || !Locked(subs, r.id)) && !fails(r.id) then Placed(c, r) else r
    ensures Keeps(c, subs, asked, named, r) <==> asked(r.id) && !named && Locked(subs, r.id) && Placed(c, r) != r
    ensures Placed(c, r).id == r.id && (WindowOf(c, r).None? ==> Placed(c, r) == r)
  {
    hide WindowOf, Locked;
  }
}
