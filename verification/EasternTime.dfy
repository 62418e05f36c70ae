/**
 * lib/assignments.ts: New York wall time, and the statuses that depend on it. Instants and wall times are milliseconds; the
 * zone is how far its clocks run behind UTC at each instant.
 */
module EasternTime {
  import opened Options

  const HOUR_MS := 3600000
  const DAY_MS := 24 * HOUR_MS
  const EDT := 4 * HOUR_MS
  const EST := 5 * HOUR_MS

  type Zone = int -> int

  function Wall(zone: Zone, instant: int): int { instant - zone(instant) }

  /** The calendar day of an instant, counted from the epoch. */
  function EasternDate(zone: Zone, instant: int): int { Wall(zone, instant) / DAY_MS }

  /** Four or five hours behind, and at most one change within any day. */
  ghost predicate IsEastern(zone: Zone) {
    && (forall i :: zone(i) == EDT || zone(i) == EST)
    && (forall a, b, c :: a <= b <= c <= a + DAY_MS && zone(a) == zone(c) ==> zone(b) == zone(a))
  }

  /** When the clocks go back, they show at least one in the morning before they do. */
  ghost predicate FallsBackAfterOne(zone: Zone) {
    forall s :: zone(s - 1) == EDT && zone(s) == EST ==> (s - EDT) % DAY_MS >= HOUR_MS
  }

  /** Some instant shows this wall time. */
  ghost predicate Exists(zone: Zone, wall: int) { exists i :: Wall(zone, i) == wall }

  /** A time the clocks skip is before eleven at night, so that an hour later is the same day. */
  ghost predicate SkipsBeforeEleven(zone: Zone) { forall wall :: !Exists(zone, wall) ==> wall % DAY_MS < 23 * HOUR_MS }

  /** Only two instants can show a wall time. */
  lemma ShownOnlyThen(zone: Zone, wall: int, i: int)
    requires IsEastern(zone) && Wall(zone, i) == wall
    ensures i == wall + EDT || i == wall + EST
  {}

  /**
   * easternToUtc, past its checks of the date and time: the first instant that shows the wall time asked for; for one the
   * clocks skip in spring, the instant that shows one hour later.
   */
  method ToUtc(zone: Zone, target: int) returns (instant: int)
    requires IsEastern(zone)
    ensures Wall(zone, instant) == target <==> Exists(zone, target)
    ensures Exists(zone, target) ==> forall i :: Wall(zone, i) == target ==> instant <= i
    ensures !Exists(zone, target) ==> Wall(zone, instant) == target + HOUR_MS && instant == target + EST
    ensures instant == UtcOf(zone, target)
  {
    instant := target;
    var i := 0;
    while i < 3
      invariant 0 <= i <= 3 && instant == After(zone, target, i)
    {
      var wall := Wall(zone, instant);
      var correction := target - wall;
      if correction == 0 {
        Settles(zone, target, i);
        break;
      }
      instant := instant + correction;
      i := i + 1;
    }
    assert instant == After(zone, target, 3);
    UtcIsRight(zone, target);
  }

  /** The guess after n corrections. */
  function After(zone: Zone, target: int, n: nat): int {
    if n == 0 then target else target + zone(After(zone, target, n - 1))
  }

  function UtcOf(zone: Zone, target: int): int { After(zone, target, 3) }

  /** Once a guess shows the right time, further corrections leave it. */
  lemma {:induction false} Settles(zone: Zone, target: int, n: nat)
    requires Wall(zone, After(zone, target, n)) == target && n <= 3
    ensures After(zone, target, 3) == After(zone, target, n)
    decreases 3 - n
  {
    if n < 3 {
      assert After(zone, target, n + 1) == target + zone(After(zone, target, n));
      Settles(zone, target, n + 1);
    }
  }

  /** The instant asked for by a wall time: the first that shows it, or for a skipped one the instant an hour past it. */
  ghost predicate IsUtc(zone: Zone, wall: int, instant: int) {
    if Exists(zone, wall) then Wall(zone, instant) == wall && forall i :: Wall(zone, i) == wall ==> instant <= i
    else Wall(zone, instant) == wall + HOUR_MS && instant == wall + EST
  }

  lemma UtcIsIt(zone: Zone, wall: int, instant: int)
    requires IsEastern(zone)
    ensures IsUtc(zone, wall, instant) <==> instant == UtcOf(zone, wall)
  {
    UtcIsRight(zone, wall);
    hide UtcOf, IsEastern;
  }

  /** A later time of a day whose midnight shows is asked for at a later instant. */
  lemma LaterThatDay(zone: Zone, wall: int, later: int, a: int, b: int)
    requires IsEastern(zone) && wall <= later && IsUtc(zone, wall, a) && IsUtc(zone, later, b) && Exists(zone, wall)
    ensures a < b <==> wall < later
  {
    ShownOnlyThen(zone, wall, a);
    if zone(wall + EDT) == EDT { assert Wall(zone, wall + EDT) == wall; }
    if Exists(zone, later) { ShownOnlyThen(zone, later, b); }
  }

  /** Three corrections are enough. */
  lemma UtcIsRight(zone: Zone, target: int)
    requires IsEastern(zone)
    ensures var r := UtcOf(zone, target);
            && (Wall(zone, r) == target <==> Exists(zone, target))
            && (Exists(zone, target) ==> forall i :: Wall(zone, i) == target ==> r <= i)
            && (!Exists(zone, target) ==> Wall(zone, r) == target + HOUR_MS && r == target + EST)
  {
    var first := target + zone(target);
    var second := target + zone(first);
    assert After(zone, target, 1) == first && After(zone, target, 2) == second;
    assert UtcOf(zone, target) == target + zone(second);
    assert zone(target) == zone(target + EST) ==> zone(target + EDT) == zone(target);
    forall i | Wall(zone, i) == target ensures i == target + EDT || i == target + EST { ShownOnlyThen(zone, target, i); }
    if zone(target + EDT) == EDT { assert Wall(zone, target + EDT) == target; }
    if zone(target + EST) == EST { assert Wall(zone, target + EST) == target; }
  }

  /** Later instants are never on an earlier day. */
  lemma {:induction false} DatesOnlyRise(zone: Zone, a: int, b: int)
    requires IsEastern(zone) && FallsBackAfterOne(zone) && a <= b
    ensures EasternDate(zone, a) <= EasternDate(zone, b)
    decreases b - a
  {
    if a < b {
      DatesOnlyRise(zone, a, b - 1);
      NextInstant(zone, b);
    }
  }

  lemma NextInstant(zone: Zone, s: int)
    requires IsEastern(zone) && FallsBackAfterOne(zone)
    ensures EasternDate(zone, s - 1) <= EasternDate(zone, s)
  {
    if zone(s - 1) == EDT && zone(s) == EST { FallBackDay(s - EDT); }
  }

  lemma FallBackDay(wall: int)
    requires wall % DAY_MS >= HOUR_MS
    ensures (wall - 1) / DAY_MS <= (wall - HOUR_MS) / DAY_MS
  {}

  // ---------------------------------------------------------------------------------------------
  // Statuses
  // ---------------------------------------------------------------------------------------------

  datatype SubmissionStatus = Handed | Checked | SentBack | Waived

  datatype Status = Upcoming | Open | DueToday | Missing | Submitted | Late | Returned | Reviewed | Excused

  datatype Submission = Submission(status: SubmissionStatus, late: bool)

  function DeriveStatus(zone: Zone, opensAt: Option<int>, dueAt: Option<int>, enrolledAt: Option<int>,
                        submission: Option<Submission>, now: int): Status {
    if submission.Some? then
      match submission.value.status
      case Waived => Excused
      case Checked => Reviewed
      case SentBack => Returned
      case Handed => if submission.value.late then Late else Submitted
    else if opensAt.Some? && opensAt.value > now then Upcoming
    else if dueAt.Some? then
      if enrolledAt.Some? && dueAt.value < enrolledAt.value then Excused
      else if now > dueAt.value then Missing
      else if EasternDate(zone, dueAt.value) == EasternDate(zone, now) then DueToday
      else Open
    else Open
  }

  /** When work has each status: what was handed in goes by its review, and the rest by the clock. */
  lemma StatusIs(zone: Zone, opensAt: Option<int>, dueAt: Option<int>, enrolledAt: Option<int>,
                 submission: Option<Submission>, now: int)
    ensures var status := DeriveStatus(zone, opensAt, dueAt, enrolledAt, submission, now);
            var waiting := submission.None? && opensAt.Some? && now < opensAt.value;
            var pending := submission.None? && !waiting;
            var joinedAfter := dueAt.Some? && enrolledAt.Some? && dueAt.value < enrolledAt.value;
            && (status.Reviewed? <==> submission.Some? && submission.value.status.Checked?)
            && (status.Returned? <==> submission.Some? && submission.value.status.SentBack?)
            && (status.Late? <==> submission.Some? && submission.value.status.Handed? && submission.value.late)
            && (status.Submitted? <==> submission.Some? && submission.value.status.Handed? && !submission.value.late)
            && (status.Excused? <==> (submission.Some? && submission.value.status.Waived?) || (pending && joinedAfter))
            && (status.Upcoming? <==> waiting)
            && (status.Missing? <==> pending && !joinedAfter && dueAt.Some? && dueAt.value < now)
            && (dueAt.None? ==> (status.Open? <==> pending) && !status.DueToday?)
            && (dueAt.Some? ==>
                  var inTime, dueToday := now <= dueAt.value, EasternDate(zone, now) == EasternDate(zone, dueAt.value);
                  && (status.DueToday? <==> pending && !joinedAfter && inTime && dueToday)
                  && (status.Open? <==> pending && !joinedAfter && inTime && !dueToday))
  {}

  /** How far along work not handed in is: upcoming, open, due today, missing. */
  function Stage(s: Status): nat {
    match s
    case Upcoming => 0
    case Open => 1
    case DueToday => 2
    case Missing => 3
    case _ => 4
  }

  /** Work nobody handed in or excused only moves from upcoming to open to due today to missing. */
  lemma UnsubmittedOnlyMovesOn(zone: Zone, opensAt: Option<int>, dueAt: Option<int>, enrolledAt: Option<int>, a: int, b: int)
    requires IsEastern(zone) && FallsBackAfterOne(zone) && a <= b
    ensures Stage(DeriveStatus(zone, opensAt, dueAt, enrolledAt, None, a))
            <= Stage(DeriveStatus(zone, opensAt, dueAt, enrolledAt, None, b))
    ensures DeriveStatus(zone, opensAt, dueAt, enrolledAt, None, b).Excused?
            <==> !(opensAt.Some? && opensAt.value > b) && dueAt.Some? && enrolledAt.Some? && dueAt.value < enrolledAt.value
  {
    if dueAt.Some? && b <= dueAt.value {
      DatesOnlyRise(zone, a, b);
      DatesOnlyRise(zone, b, dueAt.value);
    }
  }
}
