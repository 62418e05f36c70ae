/** lib/call-lifecycle.ts: where a booked call is in its life. Instants are milliseconds. */
module CallLifecycle {
  import opened Sorting

  const MINUTE := 60000
  const STAFF_OPENS := 60 * MINUTE
  const STUDENT_OPENS := 15 * MINUTE
  const HARD_CLOSE := 180 * MINUTE
  const LIST_GRACE := 30 * MINUTE
  const DAY := 24 * 60 * MINUTE
  const LOOKBACK := 7 * DAY
  const MIN_CALL_MINUTES := 5
  const MAX_CALL_MINUTES := 240

  datatype Status = Invited | Accepted | Declined | Cancelled | Completed | Unrecognised

  datatype Call = Call(id: nat, status: Status, startsAt: int, durationMinutes: int)

  datatype Side = ForStaff | ForStudent

  datatype Phase = NeedsAnswer | Upcoming | Joinable | Live | Ended | WasCompleted | WasDeclined | WasCancelled

  function OpensAt(c: Call, side: Side): int { c.startsAt - if side.ForStaff? then STAFF_OPENS else STUDENT_OPENS }

  function End(c: Call): int { c.startsAt + c.durationMinutes * MINUTE }

  function HardCloseAt(c: Call): int { End(c) + HARD_CLOSE }

  predicate IsBooked(c: Call) { c.status.Invited? || c.status.Accepted? }

  function CallPhase(c: Call, now: int, side: Side): Phase {
    if c.status.Cancelled? then WasCancelled
    else if c.status.Declined? then WasDeclined
    else if c.status.Completed? then WasCompleted
    else if !IsBooked(c) then WasCancelled
    else if now > HardCloseAt(c) then Ended
    else if now >= c.startsAt then Live
    else if now >= OpensAt(c, side) then Joinable
    else if c.status.Invited? then NeedsAnswer else Upcoming
  }

  function CallListPhase(c: Call, now: int, side: Side): Phase {
    var phase := CallPhase(c, now, side);
    if !phase.Live? then phase else if now > End(c) + LIST_GRACE then Ended else Live
  }

  predicate IsPastPhase(p: Phase) { p.Ended? || p.WasCompleted? || p.WasDeclined? || p.WasCancelled? }

  predicate IsActive(c: Call, now: int) {
    var p := CallListPhase(c, now, ForStaff);
    p.NeedsAnswer? || p.Upcoming? || p.Joinable? || p.Live?
  }

  predicate CanDeclineCall(c: Call, now: int) { IsBooked(c) && now < c.startsAt }

  predicate CanCancelCall(c: Call, now: int) { IsActive(c, now) }

  predicate CanMarkCallCompleted(c: Call, now: int) { IsBooked(c) && now >= c.startsAt }

  /** An invite that expired unanswered under the accept step; `removed` is when that step was dropped. */
  predicate ExpiredUnderAcceptStep(c: Call, removed: int) { c.status.Invited? && End(c) + LIST_GRACE < removed }

  predicate ShouldAutoComplete(c: Call, now: int, removed: int) {
    IsBooked(c) && !ExpiredUnderAcceptStep(c, removed) && CallPhase(c, now, ForStaff).Ended?
  }

  predicate InAutoCompleteRange(startsAt: int, now: int) {
    now - LOOKBACK <= startsAt <= now - (HARD_CLOSE + MIN_CALL_MINUTES * MINUTE)
  }

  /** How far along a booked call is; the phases of a call no longer booked never change. */
  function Stage(p: Phase): nat {
    match p
    case NeedsAnswer => 0
    case Upcoming => 0
    case Joinable => 1
    case Live => 2
    case Ended => 3
    case _ => 4
  }

  /** When a call is in each phase. */
  lemma PhaseIs(c: Call, side: Side, now: int)
    requires c.durationMinutes >= 0
    ensures var p, booked := CallPhase(c, now, side), c.status.Invited? || c.status.Accepted?;
            && (p.NeedsAnswer? <==> c.status.Invited? && now < OpensAt(c, side))
            && (p.Upcoming? <==> c.status.Accepted? && now < OpensAt(c, side))
            && (p.Joinable? <==> booked && OpensAt(c, side) <= now < c.startsAt)
            && (p.Live? <==> booked && c.startsAt <= now <= c.startsAt + c.durationMinutes * MINUTE + HARD_CLOSE)
            && (p.Ended? <==> booked && now > c.startsAt + c.durationMinutes * MINUTE + HARD_CLOSE)
            && (p.WasCompleted? <==> c.status.Completed?)
            && (p.WasDeclined? <==> c.status.Declined?)
            && (p.WasCancelled? <==> c.status.Cancelled? || c.status.Unrecognised?)
    // an hour early for the staff, a quarter of an hour for the student
    ensures c.startsAt - OpensAt(c, side) == (if side.ForStaff? then 60 else 15) * MINUTE
  {}

  /** With its status fixed, a call's phase only moves forward in time, at the door and in the lists, for either side. */
  lemma PhaseOnlyMovesForward(c: Call, side: Side, a: int, b: int)
    requires a <= b
    ensures Stage(CallPhase(c, a, side)) <= Stage(CallPhase(c, b, side))
    ensures Stage(CallListPhase(c, a, side)) <= Stage(CallListPhase(c, b, side))
    ensures !IsBooked(c) ==> CallPhase(c, a, side) == CallPhase(c, b, side)
  {}

  /** The lists are never ahead of the door, except that an overrun call reads as over half an hour after its end. */
  lemma ListsFollowTheDoor(c: Call, side: Side, now: int)
    requires c.durationMinutes >= 0
    ensures CallListPhase(c, now, side) != CallPhase(c, now, side)
            <==> IsBooked(c) && End(c) + LIST_GRACE < now <= HardCloseAt(c)
    ensures CallListPhase(c, now, side) != CallPhase(c, now, side) ==>
              CallListPhase(c, now, side).Ended? && CallPhase(c, now, side).Live?
    // the staff's room opens no later than the student's
    ensures Stage(CallPhase(c, now, ForStudent)) <= Stage(CallPhase(c, now, ForStaff))
  {}

  /** A booked call can be declined or marked completed at every moment, and never both; nothing else can be either. */
  lemma DeclineOrComplete(c: Call, now: int)
    requires c.durationMinutes >= 0
    ensures IsBooked(c) <==> CanDeclineCall(c, now) != CanMarkCallCompleted(c, now)
    ensures !(CanDeclineCall(c, now) && CanMarkCallCompleted(c, now))
    ensures CanDeclineCall(c, now) ==> CanCancelCall(c, now)
    ensures CanCancelCall(c, now) <==> IsBooked(c) && now <= End(c) + LIST_GRACE
  {}

  /** What is completed by itself: a booked call past its hard close, unless it is an old invite that expired unanswered. */
  lemma CompletesItself(c: Call, now: int, removed: int)
    requires c.durationMinutes >= 0
    ensures ShouldAutoComplete(c, now, removed)
            <==> now > End(c) + HARD_CLOSE
                 && (c.status.Accepted? || (c.status.Invited? && End(c) + LIST_GRACE >= removed))
  {}

  /** A call of legal length that started within the lookback and should be completed is in the range the sweep reads. */
  lemma SweepMissesNothing(c: Call, now: int, removed: int)
    requires MIN_CALL_MINUTES <= c.durationMinutes <= MAX_CALL_MINUTES
    requires ShouldAutoComplete(c, now, removed) && c.startsAt >= now - LOOKBACK
    ensures InAutoCompleteRange(c.startsAt, now)
    ensures CanMarkCallCompleted(c, now) && !CanCancelCall(c, now)
  {}

  /** And the bound is the last that does not: a call of the shortest length starting at it is one instant from complete. */
  lemma RangeIsTight(c: Call, now: int)
    requires c.durationMinutes == MIN_CALL_MINUTES && IsBooked(c)
    ensures c.startsAt == now - (HARD_CLOSE + MIN_CALL_MINUTES * MINUTE) ==>
              !CallPhase(c, now, ForStaff).Ended? && CallPhase(c, now + 1, ForStaff).Ended?
  {}

  // ---------------------------------------------------------------------------------------------
  // Lists
  // ---------------------------------------------------------------------------------------------

  predicate Sooner(a: Call, b: Call) { a.startsAt <= b.startsAt }

  predicate Newer(a: Call, b: Call) { b.startsAt <= a.startsAt }

  predicate IsPast(c: Call, now: int) { IsPastPhase(CallListPhase(c, now, ForStaff)) }

  /** Every call in exactly one list: what can still be acted on, soonest first, and what is over, newest first. */
  method SplitCalls(calls: seq<Call>, now: int) returns (upcoming: seq<Call>, past: seq<Call>)
    ensures multiset(upcoming) + multiset(past) == multiset(calls)
    ensures Sorted(Sooner, upcoming) && Sorted(Newer, past)
    ensures forall c :: c in upcoming ==> CanCancelCall(c, now)
    ensures forall c :: c in past ==> !CanCancelCall(c, now)
  {
    assert TotalPreorder(Sooner) && TotalPreorder(Newer);
    forall c: Call ensures CanCancelCall(c, now) <==> !IsPast(c, now) {}
    hide Sort, Sorted, TotalPreorder, CanCancelCall, IsPast;
    upcoming, past := [], [];
    var i := 0;
    while i < |calls|
      invariant 0 <= i <= |calls| && multiset(upcoming) + multiset(past) == multiset(calls[..i])
      invariant forall c :: c in upcoming ==> !IsPast(c, now)
      invariant forall c :: c in past ==> IsPast(c, now)
    {
      assert calls[..i + 1] == calls[..i] + [calls[i]];
      if IsPast(calls[i], now) { past := past + [calls[i]]; } else { upcoming := upcoming + [calls[i]]; }
      i := i + 1;
    }
    assert calls[..i] == calls;
    SortedBy(Sooner, upcoming);
    SortedBy(Newer, past);
    upcoming, past := Sort(Sooner, upcoming), Sort(Newer, past);
  }

  lemma SortedBy(le: (Call, Call) -> bool, calls: seq<Call>)
    requires TotalPreorder(le)
    ensures Sorted(le, Sort(le, calls)) && multiset(Sort(le, calls)) == multiset(calls)
    ensures forall c :: c in Sort(le, calls) ==> c in calls
  {
    SortSorts(le, calls);
    SortPermutes(le, calls);
    forall c | c in Sort(le, calls) ensures c in calls { assert c in multiset(Sort(le, calls)); }
  }
}
