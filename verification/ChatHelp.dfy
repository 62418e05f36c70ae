/**
 * lib/chat-help.ts: one thread's "Ask the team" as interleaved steps. Every call reads the thread's link, loads that
 * ticket, and then reopens it, notes on it, or makes a ticket and links it only if the thread still has what the call saw;
 * any number of calls, and the team's own work on the tickets, run between those steps.
 */
module ChatHelp {
  import opened Options

  datatype Status = Open | WaitingOnRequester | Resolved | Closed

  datatype Plan = Create | Link | Reopen

  /** lib/chat-threads-rules.ts helpRequestPlan. */
  function HelpRequestPlan(existing: Option<Status>): Plan {
    if existing.None? || existing.value.Closed? then Create else if existing.value.Open? then Link else Reopen
  }

  datatype Outcome = Created | Linked | Reopened

  /** `attempt` counts the passes of the loop; `seen` is the link the pass read. */
  datatype Phase =
    | Reading(attempt: nat)
    | Loading(attempt: nat, seen: Option<nat>)
    | Reopening(attempt: nat, ticket: nat, status: Status)
    | Noting(ticket: nat, outcome: Outcome)
    | Creating(attempt: nat, seen: Option<nat>)
    | Linking(attempt: nat, seen: Option<nat>, mine: nat)
    | Discarding(attempt: nat, mine: nat)
    | Erring(mine: nat)
    | Done(ticket: nat, outcome: Outcome)
    | Failed

  /** A call: `during` is every ticket the thread's link held while it ran, `left` the tickets it failed to take back. */
  datatype Call = Call(phase: Phase, during: set<nat>, left: set<nat>)

  datatype Ticket = Ticket(status: Status, maker: nat)

  /** support_tickets (`used` are the ids ever given out), chat_threads.help_ticket_id, and the calls. */
  datatype State = State(tickets: map<nat, Ticket>, used: set<nat>, link: Option<nat>, calls: seq<Call>)

  const ATTEMPTS := 3

  datatype Step =
    | Begin
    | ReadLink(call: nat)
    | Load(call: nat)
    | TryReopen(call: nat)
    | Note(call: nat, works: bool)
    | Make(call: nat, id: nat, heard: bool)
    | TryLink(call: nat)
    | LinkFails(call: nat, committed: bool)
    | Discard(call: nat, works: bool)
    | Break(call: nat)
    | TeamMoves(ticket: nat, status: Status)

  /** The call is past its last await and holds no ticket of its own. */
  predicate Ended(p: Phase) { p.Done? || p.Failed? }

  predicate Enabled(s: State, step: Step) {
    match step
    case Begin => true
    case ReadLink(c) => c < |s.calls| && s.calls[c].phase.Reading?
    case Load(c) => c < |s.calls| && s.calls[c].phase.Loading?
    case TryReopen(c) => c < |s.calls| && s.calls[c].phase.Reopening?
    case Note(c, _) => c < |s.calls| && s.calls[c].phase.Noting?
    case Make(c, id, _) => c < |s.calls| && s.calls[c].phase.Creating? && id !in s.used
    case TryLink(c) => c < |s.calls| && s.calls[c].phase.Linking?
    case LinkFails(c, _) => c < |s.calls| && s.calls[c].phase.Linking?
    case Discard(c, _) => c < |s.calls| && (s.calls[c].phase.Discarding? || s.calls[c].phase.Erring?)
    case Break(c) => c < |s.calls| && !Ended(s.calls[c].phase)
    case TeamMoves(t, status) => t in s.tickets && !s.tickets[t].status.Closed?
  }

  function Put(s: State, c: nat, phase: Phase): State
    requires c < |s.calls|
  {
    s.(calls := s.calls[c := s.calls[c].(phase := phase)])
  }

  /** The ticket a call has made and not yet linked or taken back. */
  function Holding(p: Phase): set<nat> {
    match p
    case Linking(_, _, mine) => {mine}
    case Discarding(_, mine) => {mine}
    case Erring(mine) => {mine}
    case _ => {}
  }

  /** The call dies, leaving what it holds. */
  function Abandon(s: State, c: nat, held: set<nat>): State
    requires c < |s.calls|
  {
    Put(s.(calls := s.calls[c := s.calls[c].(left := s.calls[c].left + held)]), c, Failed)
  }

  /** The thread's link becomes `link`: every call still running has now seen it. */
  function SetLink(s: State, link: Option<nat>): State {
    s.(link := link,
       calls := seq(|s.calls|, i requires 0 <= i < |s.calls| =>
         if Ended(s.calls[i].phase) || link.None? then s.calls[i] else s.calls[i].(during := s.calls[i].during + {link.value})))
  }

  function Retry(attempt: nat): Phase { if attempt + 1 < ATTEMPTS then Reading(attempt + 1) else Failed }

  function LoadStep(s: State, c: nat): State
    requires c < |s.calls| && s.calls[c].phase.Loading?
  {
    var p := s.calls[c].phase;
    var existing := if p.seen.Some? && p.seen.value in s.tickets then Some(s.tickets[p.seen.value].status) else None;
    match HelpRequestPlan(existing)
    case Create => Put(s, c, Creating(p.attempt, p.seen))
    case Link => Put(s, c, Noting(p.seen.value, Linked))
    case Reopen => Put(s, c, Reopening(p.attempt, p.seen.value, existing.value))
  }

  /** Deleting a ticket unlinks it: the foreign key sets the link to null. */
  function DiscardStep(s: State, c: nat, works: bool): State
    requires c < |s.calls| && (s.calls[c].phase.Discarding? || s.calls[c].phase.Erring?)
  {
    var p := s.calls[c].phase;
    var next := if p.Discarding? then Retry(p.attempt) else Failed;
    if works then
      var gone := s.(tickets := s.tickets - {p.mine});
      Put(if s.link == Some(p.mine) then SetLink(gone, None) else gone, c, next)
    else Put(s.(calls := s.calls[c := s.calls[c].(left := s.calls[c].left + {p.mine})]), c, next)
  }

  function Apply(s: State, step: Step): State
    requires Enabled(s, step)
  {
    match step
    case Begin => s.(calls := s.calls + [Call(Reading(0), if s.link.Some? then {s.link.value} else {}, {})])
    case ReadLink(c) => Put(s, c, Loading(s.calls[c].phase.attempt, s.link))
    case Load(c) => LoadStep(s, c)
    case TryReopen(c) =>
      var p := s.calls[c].phase;
      if p.ticket in s.tickets && s.tickets[p.ticket].status == p.status
      then Put(s.(tickets := s.tickets[p.ticket := s.tickets[p.ticket].(status := Open)]), c, Noting(p.ticket, Reopened))
      else Put(s, c, Retry(p.attempt))
    case Note(c, works) => Put(s, c, if works then Done(s.calls[c].phase.ticket, s.calls[c].phase.outcome) else Failed)
    case Make(c, id, heard) =>
      var made := s.(tickets := s.tickets[id := Ticket(Open, c)], used := s.used + {id});
      if heard then Put(made, c, Linking(s.calls[c].phase.attempt, s.calls[c].phase.seen, id)) else Abandon(made, c, {id})
    case TryLink(c) =>
      var p := s.calls[c].phase;
      if s.link == p.seen then Put(SetLink(s, Some(p.mine)), c, Done(p.mine, Created))
        else Put(s, c, Discarding(p.attempt, p.mine))
    case LinkFails(c, committed) =>
      var p := s.calls[c].phase;
      Put(if committed && s.link == p.seen then SetLink(s, Some(p.mine)) else s, c, Erring(p.mine))
    case Discard(c, works) => DiscardStep(s, c, works)
    case Break(c) => Abandon(s, c, Holding(s.calls[c].phase))
    case TeamMoves(t, status) => s.(tickets := s.tickets[t := s.tickets[t].(status := status)])
  }

  ghost function Run(steps: seq<Step>): Option<State> {
    if steps == [] then Some(State(map[], {}, None, [])) else
      var before := Run(steps[..|steps| - 1]);
      if before.Some? && Enabled(before.value, steps[|steps| - 1]) then Some(Apply(before.value, steps[|steps| - 1])) else None
  }

  // ---------------------------------------------------------------------------------------------
  // The invariant
  // ---------------------------------------------------------------------------------------------

  /** What a pass saw may be replaced: no ticket, one that is gone, or a closed one. */
  ghost predicate Replaceable(s: State, seen: Option<nat>) {
    seen.Some? ==> seen.value in s.used && (seen.value in s.tickets ==> s.tickets[seen.value].status.Closed?)
  }

  ghost predicate Holds(s: State, c: nat, t: nat) { t in s.used && t in s.tickets && s.tickets[t].maker == c }

  ghost predicate CallFits(s: State, c: nat, call: Call) {
    && (!Ended(call.phase) && s.link.Some? ==> s.link.value in call.during)
    && match call.phase
       case Reading(_) => true
       case Loading(_, seen) => seen.Some? ==> seen.value in call.during && seen.value in s.used
       case Reopening(_, t, status) => t in call.during && !status.Closed?
       case Noting(t, outcome) => t in call.during && !outcome.Created?
       case Creating(_, seen) => Replaceable(s, seen)
       case Linking(_, seen, mine) => Replaceable(s, seen) && Holds(s, c, mine) && s.link != Some(mine)
       case Discarding(_, mine) => Holds(s, c, mine) && s.link != Some(mine)
       case Erring(mine) => Holds(s, c, mine)
       case Done(t, outcome) =>
         t in call.during && (outcome.Created? ==> Holds(s, c, t) && (s.link == Some(t) || s.tickets[t].status.Closed?))
       case Failed => true
  }

  /** Every ticket is accounted for by the call that made it. */
  ghost predicate TicketFits(s: State, t: nat)
    requires t in s.tickets
  {
    var c := s.tickets[t].maker;
    && t in s.used && c < |s.calls|
    && (t in Holding(s.calls[c].phase) || s.calls[c].phase == Done(t, Created) || t in s.calls[c].left)
  }

  ghost predicate Inv(s: State) {
    && (s.link.Some? ==> s.link.value in s.tickets)
    && (forall c: nat :: c < |s.calls| ==> CallFits(s, c, s.calls[c]))
    && (forall t :: t in s.tickets ==> TicketFits(s, t))
  }

  /** A step of one call: the others stay as they are, but for having seen the new link. */
  ghost predicate OthersStay(s: State, next: State, c: nat) {
    && |s.calls| <= |next.calls|
    && forall d: nat :: d < |next.calls| && d != c ==>
         d < |s.calls| && next.calls[d].phase == s.calls[d].phase && next.calls[d].left == s.calls[d].left
             && s.calls[d].during <= next.calls[d].during
         && (!Ended(s.calls[d].phase) && next.link.Some? ==> next.link == s.link || next.link.value in next.calls[d].during)
  }

  /**
   * What a step may do to the shared rows: closed tickets stay closed, only its own call's tickets go, ids are not
   * given out twice.
   */
  ghost predicate RowsMove(s: State, next: State, c: nat) {
    && s.used <= next.used
    && (forall t :: t in s.tickets && t in next.tickets ==>
          next.tickets[t].maker == s.tickets[t].maker && (s.tickets[t].status.Closed? ==> next.tickets[t].status.Closed?))
    && (forall t :: t in s.tickets && t !in next.tickets ==> s.tickets[t].maker == c)
    && (forall t :: t in next.tickets && t !in s.tickets ==> t !in s.used)
  }

  /**
   * What a step may do to the link: nothing, point it at the call's own ticket where it may be replaced, or lose the
   * call's own ticket.
   */
  ghost predicate LinkMoves(s: State, next: State, c: nat) {
    || next.link == s.link
    || (next.link.Some? && next.link.value in s.tickets && s.tickets[next.link.value].maker == c && Replaceable(s, s.link))
    || (next.link.None? && s.link.Some? && s.link.value in s.tickets && s.tickets[s.link.value].maker == c && c < |s.calls|
        && s.calls[c].phase == Erring(s.link.value))
  }

  lemma OtherCallFits(s: State, next: State, c: nat, d: nat)
    requires Inv(s) && OthersStay(s, next, c) && RowsMove(s, next, c)
    requires LinkMoves(s, next, c) && d < |s.calls| && d < |next.calls| && d != c
    ensures CallFits(next, d, next.calls[d])
  {
    assert CallFits(s, d, s.calls[d]);
    if s.link.Some? { assert TicketFits(s, s.link.value); }
  }

  lemma StepFits(s: State, next: State, c: nat)
    requires Inv(s) && OthersStay(s, next, c) && RowsMove(s, next, c) && LinkMoves(s, next, c)
    requires c < |next.calls| ==> CallFits(next, c, next.calls[c])
    requires forall t :: t in next.tickets && (t !in s.tickets || s.tickets[t].maker == c) ==> TicketFits(next, t)
    requires next.link.Some? ==> next.link.value in next.tickets
    ensures Inv(next)
  {
    forall d: nat | d < |next.calls| ensures CallFits(next, d, next.calls[d]) {
      if d != c { var call := next.calls[d]; OtherCallFits(s, next, c, d); }
    }
    hide CallFits, LinkMoves;
    forall t | t in next.tickets ensures TicketFits(next, t) {
      if t in s.tickets && s.tickets[t].maker != c {
        assert TicketFits(s, t);
        var call := next.calls[s.tickets[t].maker];
      }
    }
  }

  /** The call that takes a step; none of them for the team's own. */
  function Actor(s: State, step: Step): nat {
    match step
    case Begin => |s.calls|
    case ReadLink(c) => c
    case Load(c) => c
    case TryReopen(c) => c
    case Note(c, _) => c
    case Make(c, _, _) => c
    case TryLink(c) => c
    case LinkFails(c, _) => c
    case Discard(c, _) => c
    case Break(c) => c
    case TeamMoves(_, _) => |s.calls|
  }

  ghost predicate Moves(s: State, next: State, c: nat) {
    Inv(next) && OthersStay(s, next, c) && RowsMove(s, next, c) && LinkMoves(s, next, c)
  }

  lemma OwnTickets(s: State, c: nat)
    requires Inv(s) && c < |s.calls|
    ensures CallFits(s, c, s.calls[c])
    ensures forall t :: t in s.tickets && s.tickets[t].maker == c ==>
              t in s.used && (t in Holding(s.calls[c].phase) || s.calls[c].phase == Done(t, Created) || t in s.calls[c].left)
    ensures s.link.Some? ==> s.link.value in s.tickets && s.link.value in s.used
  {
    hide CallFits;
    forall t | t in s.tickets && s.tickets[t].maker == c
      ensures t in s.used && (t in Holding(s.calls[c].phase) || s.calls[c].phase == Done(t, Created) || t in s.calls[c].left)
    { assert TicketFits(s, t); }
    if s.link.Some? { assert TicketFits(s, s.link.value); }
  }

  lemma BeginMoves(s: State)
    requires Inv(s)
    ensures Moves(s, Apply(s, Begin), |s.calls|)
  {
    var next := Apply(s, Begin);
    forall t | t in s.tickets ensures s.tickets[t].maker < |s.calls| { assert TicketFits(s, t); }
    StepFits(s, next, |s.calls|);
  }

  lemma TeamMovesMoves(s: State, t: nat, status: Status)
    requires Inv(s) && Enabled(s, TeamMoves(t, status))
    ensures Moves(s, Apply(s, TeamMoves(t, status)), |s.calls|)
  {
    var next := Apply(s, TeamMoves(t, status));
    forall u | u in s.tickets ensures s.tickets[u].maker < |s.calls| { assert TicketFits(s, u); }
    StepFits(s, next, |s.calls|);
  }

  /** A step that only moves its own call on. */
  lemma PutMoves(s: State, c: nat, phase: Phase)
    requires Inv(s) && c < |s.calls| && CallFits(s, c, s.calls[c].(phase := phase))
    requires !s.calls[c].phase.Done? && Holding(s.calls[c].phase) <= Holding(phase)
    ensures Moves(s, Put(s, c, phase), c)
  {
    var next := Put(s, c, phase);
    OwnTickets(s, c);
    assert CallFits(next, c, next.calls[c]);
    hide CallFits;
    StepFits(s, next, c);
  }

  lemma LoadMoves(s: State, c: nat)
    requires Inv(s) && Enabled(s, Load(c))
    ensures Moves(s, LoadStep(s, c), c)
  {
    OwnTickets(s, c);
    hide Inv, Moves;
    var next := LoadStep(s, c);
    PutMoves(s, c, next.calls[c].phase);
  }

  lemma ReopenMoves(s: State, c: nat)
    requires Inv(s) && Enabled(s, TryReopen(c))
    ensures Moves(s, Apply(s, TryReopen(c)), c)
  {
    OwnTickets(s, c);
    var p, next := s.calls[c].phase, Apply(s, TryReopen(c));
    if p.ticket in s.tickets && s.tickets[p.ticket].status == p.status {
      assert CallFits(next, c, next.calls[c]);
      forall t | t in next.tickets && s.tickets[t].maker == c ensures TicketFits(next, t) { assert TicketFits(s, t); }
      StepFits(s, next, c);
    } else {
      PutMoves(s, c, Retry(p.attempt));
    }
  }

  lemma TicketsAreUsed(s: State)
    requires Inv(s)
    ensures forall t :: t in s.tickets ==> t in s.used
  {
    forall t | t in s.tickets ensures t in s.used { assert TicketFits(s, t); }
  }

  lemma MakeMoves(s: State, c: nat, id: nat, heard: bool)
    requires Inv(s) && Enabled(s, Make(c, id, heard))
    ensures Moves(s, Apply(s, Make(c, id, heard)), c)
  {
    OwnTickets(s, c);
    var next := Apply(s, Make(c, id, heard));
    TicketsAreUsed(s);
    assert CallFits(next, c, next.calls[c]);
    assert RowsMove(s, next, c);
    hide CallFits, RowsMove;
    forall t | t in next.tickets && (t !in s.tickets || s.tickets[t].maker == c) ensures TicketFits(next, t) {}
    StepFits(s, next, c);
  }

  lemma AbandonMoves(s: State, c: nat)
    requires Inv(s) && Enabled(s, Break(c))
    ensures Moves(s, Apply(s, Break(c)), c)
  {
    OwnTickets(s, c);
    var next := Apply(s, Break(c));
    assert CallFits(next, c, next.calls[c]);
    hide CallFits;
    StepFits(s, next, c);
  }

  lemma LinkedMoves(s: State, c: nat, phase: Phase)
    requires Inv(s) && c < |s.calls| && s.calls[c].phase.Linking? && s.link == s.calls[c].phase.seen
    requires phase == Done(s.calls[c].phase.mine, Created) || phase == Erring(s.calls[c].phase.mine)
    ensures Moves(s, Put(SetLink(s, Some(s.calls[c].phase.mine)), c, phase), c)
  {
    OwnTickets(s, c);
    var mine := s.calls[c].phase.mine;
    var next := Put(SetLink(s, Some(mine)), c, phase);
    assert CallFits(next, c, next.calls[c]);
    hide CallFits;
    StepFits(s, next, c);
  }

  lemma DiscardMoves(s: State, c: nat, works: bool)
    requires Inv(s) && Enabled(s, Discard(c, works))
    ensures Moves(s, DiscardStep(s, c, works), c)
  {
    OwnTickets(s, c);
    var next := DiscardStep(s, c, works);
    assert CallFits(next, c, next.calls[c]);
    assert RowsMove(s, next, c);
    assert OthersStay(s, next, c);
    hide CallFits, RowsMove, OthersStay;
    StepFits(s, next, c);
  }

  lemma StepMoves(s: State, step: Step)
    requires Inv(s) && Enabled(s, step)
    ensures Moves(s, Apply(s, step), Actor(s, step))
  {
    if step.Begin? { BeginMoves(s); }
    else if step.TeamMoves? { TeamMovesMoves(s, step.ticket, step.status); }
    else {
      var c := step.call;
      OwnTickets(s, c);
      match step
      case ReadLink(_) => PutMoves(s, c, Loading(s.calls[c].phase.attempt, s.link));
      case Load(_) => LoadMoves(s, c);
      case TryReopen(_) => ReopenMoves(s, c);
      case Note(_, works) => PutMoves(s, c, if works then Done(s.calls[c].phase.ticket, s.calls[c].phase.outcome) else Failed);
      case Make(_, id, heard) => MakeMoves(s, c, id, heard);
      case TryLink(_) =>
        var p := s.calls[c].phase;
        if s.link == p.seen { LinkedMoves(s, c, Done(p.mine, Created)); } else { PutMoves(s, c, Discarding(p.attempt, p.mine)); }
      case LinkFails(_, committed) =>
        var p := s.calls[c].phase;
        if committed && s.link == p.seen { LinkedMoves(s, c, Erring(p.mine)); } else { PutMoves(s, c, Erring(p.mine)); }
      case Discard(_, works) => DiscardMoves(s, c, works);
      case Break(_) => AbandonMoves(s, c);
    }
  }

  // ---------------------------------------------------------------------------------------------
  // Over every run
  // ---------------------------------------------------------------------------------------------

  lemma {:induction false} RunKeeps(steps: seq<Step>)
    requires Run(steps).Some?
    ensures Inv(Run(steps).value)
    decreases |steps|
  {
    hide Inv, Apply, Enabled, OthersStay, RowsMove, LinkMoves;
    if steps == [] { assert Inv(State(map[], {}, None, [])) by { NobodyAsked(); } }
    else {
      RunKeeps(steps[..|steps| - 1]);
      StepMoves(Run(steps[..|steps| - 1]).value, steps[|steps| - 1]);
    }
  }

  lemma NobodyAsked()
    ensures Inv(State(map[], {}, None, []))
  {}

  /**
   * A linked ticket is replaced only when it is closed. The one other way a link goes is that its own call, told that
   * linking failed when it had not, takes the ticket back; and then it always goes.
   */
  lemma ReplacedOnlyWhenClosed(steps: seq<Step>, step: Step)
    requires Run(steps).Some? && Enabled(Run(steps).value, step) && Run(steps).value.link.Some?
    ensures var s := Run(steps).value;
            var t, next := s.link.value, Apply(s, step);
            && t in s.tickets
            && (next.link.Some? && next.link != s.link ==>
                  s.tickets[t].status.Closed? && next.link.value in s.tickets
                      && s.tickets[next.link.value].maker == Actor(s, step))
            && (next.link.None? <==> step.Discard? && step.works && s.calls[step.call].phase == Erring(t))
            && (next.link.None? ==> s.tickets[t].maker == step.call && t !in next.tickets)
  {
    RunKeeps(steps);
    hide Run;
    var s := Run(steps).value;
    StepMoves(s, step);
    LinkIsATicket(s);
    OnlyDiscardUnlinks(s, step);
    hide Inv, Apply, Enabled, OthersStay, RowsMove;
  }

  lemma LinkIsATicket(s: State)
    requires Inv(s)
    ensures s.link.Some? ==> s.link.value in s.tickets
  {}

  lemma OnlyDiscardUnlinks(s: State, step: Step)
    requires Inv(s) && Enabled(s, step) && s.link.Some?
    ensures Apply(s, step).link.None? <==> step.Discard? && step.works && s.calls[step.call].phase == Erring(s.link.value)
    ensures Apply(s, step).link.None? ==> Actor(s, step) == step.call && s.link.value !in Apply(s, step).tickets
  {
    if step.Discard? { assert CallFits(s, step.call, s.calls[step.call]); }
    hide Inv, CallFits;
  }

  // ---------------------------------------------------------------------------------------------
  // What a losing call leaves
  // ---------------------------------------------------------------------------------------------

  /** The tickets a call failed to take back are still there, its own, and neither in its hands nor linked by it. */
  ghost predicate LeftFits(s: State, c: nat)
    requires c < |s.calls|
  {
    forall t :: t in s.calls[c].left ==>
      t in s.tickets && s.tickets[t].maker == c && t !in Holding(s.calls[c].phase) && s.calls[c].phase != Done(t, Created)
  }

  lemma LeftStays(s: State, step: Step, c: nat)
    requires Inv(s) && Enabled(s, step) && c < |Apply(s, step).calls| && (c < |s.calls| ==> LeftFits(s, c))
    ensures LeftFits(Apply(s, step), c)
  {
    var next := Apply(s, step);
    StepMoves(s, step);
    TicketsAreUsed(s);
    if Actor(s, step) == c { ActorsLeft(s, step); }
    else { hide Apply, Inv, LinkMoves; }
  }

  lemma ActorsLeft(s: State, step: Step)
    requires Inv(s) && Enabled(s, step) && Actor(s, step) < |Apply(s, step).calls|
    requires forall t :: t in s.tickets ==> t in s.used
    requires Actor(s, step) < |s.calls| ==> LeftFits(s, Actor(s, step))
    ensures LeftFits(Apply(s, step), Actor(s, step))
  {
    var c := Actor(s, step);
    if c < |s.calls| { OwnTickets(s, c); }
    hide Inv, CallFits;
    match step {
      case Discard(_, works) => DiscardLeaves(s, c, works);
      case TryLink(_) => LinkLeaves(s, c, step);
      case LinkFails(_, _) => LinkLeaves(s, c, step);
      case _ => hide SetLink, DiscardStep, HelpRequestPlan;
    }
  }

  lemma LinkLeaves(s: State, c: nat, step: Step)
    requires Enabled(s, step) && (step.TryLink? || step.LinkFails?) && step.call == c && LeftFits(s, c)
    ensures LeftFits(Apply(s, step), c)
  {}

  lemma DiscardLeaves(s: State, c: nat, works: bool)
    requires Enabled(s, Discard(c, works)) && LeftFits(s, c)
    requires s.calls[c].phase.mine in s.tickets && s.tickets[s.calls[c].phase.mine].maker == c
    ensures LeftFits(DiscardStep(s, c, works), c)
  {}

  lemma {:induction false} RunLeaves(steps: seq<Step>, c: nat)
    requires Run(steps).Some? && c < |Run(steps).value.calls|
    ensures LeftFits(Run(steps).value, c)
    decreases |steps|
  {
    hide Inv, Apply, Enabled, LeftFits;
    if steps != [] {
      var shorter := steps[..|steps| - 1];
      var before := Run(shorter).value;
      RunKeeps(shorter);
      if c < |before.calls| { RunLeaves(shorter, c); }
      LeftStays(before, steps[|steps| - 1], c);
    }
  }

  /**
   * The tickets an ended call leaves beside the one it linked are exactly those it failed to take back: deleting one failed,
   * or the call died holding it. So it leaves none exactly when there is no such ticket.
   */
  lemma LoserLeavesNothing(steps: seq<Step>, c: nat)
    requires Run(steps).Some? && c < |Run(steps).value.calls| && Ended(Run(steps).value.calls[c].phase)
    ensures var s := Run(steps).value;
            && (forall t ::
                  t in s.calls[c].left
                  <==> t in s.tickets && s.tickets[t].maker == c && s.calls[c].phase != Done(t, Created))
            && (s.calls[c].left == {}
                <==> forall t :: t in s.tickets && s.tickets[t].maker == c ==> s.calls[c].phase == Done(t, Created))
  {
    RunKeeps(steps);
    RunLeaves(steps, c);
    OwnTickets(Run(steps).value, c);
    hide Run, Inv, CallFits;
    var s := Run(steps).value;
    if s.calls[c].left != {} { var t :| t in s.calls[c].left; assert t in s.tickets; }
  }

  /** What goes into `left`, and when: a delete that fails, a ticket made without the call hearing of it, a call that dies. */
  lemma LeftGrows(s: State, step: Step, c: nat)
    requires Enabled(s, step) && c < |s.calls|
    ensures c < |Apply(s, step).calls|
    ensures var more := match step
                        case Discard(d, works) => if d == c && !works then Holding(s.calls[c].phase) else {}
                        case Break(d) => if d == c then Holding(s.calls[c].phase) else {}
                        case Make(d, id, heard) => if d == c && !heard then {id} else {}
                        case _ => {};
            Apply(s, step).calls[c].left == s.calls[c].left + more
  {}

  /** A run so far. */
  datatype Cursor = Cursor(steps: seq<Step>, s: State)

  ghost predicate Reached(c: Cursor) { Run(c.steps) == Some(c.s) }

  lemma Takes(c: Cursor, step: Step) returns (d: Cursor)
    requires Reached(c) && Enabled(c.s, step)
    ensures Reached(d) && d == Cursor(c.steps + [step], Apply(c.s, step))
  {
    d := Cursor(c.steps + [step], Apply(c.s, step));
    assert d.steps[..|d.steps| - 1] == c.steps;
    hide Apply, Enabled;
  }

  lemma Begins(c: Cursor) returns (d: Cursor)
    requires Reached(c)
    ensures Reached(d) && d.steps == c.steps + [Begin]
    ensures d.s == c.s.(calls := c.s.calls + [Call(Reading(0), if c.s.link.Some? then {c.s.link.value} else {}, {})])
  {
    d := Takes(c, Begin) by { hide Reached; }
    hide Reached;
  }

  /** A pass reads the link and loads its ticket; a live one is noted on, and without one a ticket is made. */
  lemma ReadsAndLoads(c: Cursor, k: nat) returns (d: Cursor)
    requires Reached(c) && k < |c.s.calls| && c.s.calls[k].phase.Reading?
    requires c.s.link.Some? ==> c.s.link.value in c.s.tickets && c.s.tickets[c.s.link.value].status.Open?
    ensures Reached(d) && d.steps == c.steps + [ReadLink(k), Load(k)]
    ensures d.s == Put(c.s, k, if c.s.link.Some? then Noting(c.s.link.value, Linked)
                               else Creating(c.s.calls[k].phase.attempt, None))
  {
    hide Reached;
    d := Takes(c, ReadLink(k));
    d := Takes(d, Load(k));
  }

  lemma Makes(c: Cursor, k: nat, id: nat) returns (d: Cursor)
    requires Reached(c) && k < |c.s.calls| && c.s.calls[k].phase.Creating? && id !in c.s.used
    ensures Reached(d) && d.steps == c.steps + [Make(k, id, true)]
    ensures d.s == Put(c.s.(tickets := c.s.tickets[id := Ticket(Open, k)], used := c.s.used + {id}), k,
                       Linking(c.s.calls[k].phase.attempt, c.s.calls[k].phase.seen, id))
  {
    d := Takes(c, Make(k, id, true)) by { hide Reached; }
    hide Reached;
  }

  lemma Notes(c: Cursor, k: nat) returns (d: Cursor)
    requires Reached(c) && k < |c.s.calls| && c.s.calls[k].phase.Noting?
    ensures Reached(d) && d.steps == c.steps + [Note(k, true)]
    ensures d.s == Put(c.s, k, Done(c.s.calls[k].phase.ticket, c.s.calls[k].phase.outcome))
  {
    d := Takes(c, Note(k, true)) by { hide Reached; }
    hide Reached;
  }

  /** Two calls at once each make a ticket; the first links its own. */
  const RACE_LINKED := [
    Begin, Begin, ReadLink(0), Load(0), ReadLink(1), Load(1), Make(0, 7, true), Make(1, 8, true), TryLink(0)]

  /** The second then finds the link taken, and its ticket can't be deleted; it is answered with the first one's. */
  const RACE := RACE_LINKED + [TryLink(1), Discard(1, false), ReadLink(1), Load(1), Note(1, true)]

  const BOTH_MADE := map[7 := Ticket(Open, 0), 8 := Ticket(Open, 1)]

  lemma BothRead() returns (c: Cursor)
    ensures Reached(c) && c.steps == RACE_LINKED[..6]
    ensures var call := Call(Creating(0, None), {}, {}); c.s == State(map[], {}, None, [call, call])
  {
    c := Cursor([], State(map[], {}, None, []));
    assert Reached(c);
    hide Reached;
    c := Begins(c);
    c := Begins(c);
    c := ReadsAndLoads(c, 0);
    c := ReadsAndLoads(c, 1);
    var call := Call(Creating(0, None), {}, {});
    assert c.s.calls == [call, call];
  }

  lemma FirstWins() returns (c: Cursor)
    ensures Reached(c) && c.steps == RACE_LINKED && c.s.tickets == BOTH_MADE && c.s.link == Some(7)
    ensures |c.s.calls| == 2 && c.s.calls[1] == Call(Linking(0, None, 8), {7}, {})
  {
    c := BothRead();
    hide Reached;
    c := Makes(c, 0, 7);
    c := Makes(c, 1, 8);
    c := Takes(c, TryLink(0));
  }

  lemma TicketIsLeft()
    ensures var s := Run(RACE);
            && s.Some? && s.value.link == Some(7) && s.value.tickets == BOTH_MADE
            && |s.value.calls| == 2 && s.value.calls[1].phase == Done(7, Linked)
  {
    var c := FirstWins();
    hide Reached;
    c := Takes(c, TryLink(1));
    c := Takes(c, Discard(1, false));
    assert c.s.calls[1].phase == Reading(1);
    c := ReadsAndLoads(c, 1);
    c := Notes(c, 1);
    assert c.steps == RACE;
    ReachedRuns(c);
  }

  lemma ReachedRuns(c: Cursor)
    requires Reached(c)
    ensures Run(c.steps) == Some(c.s)
  {}

  /** A call links its ticket, and is told it did not; another call is then answered with that ticket. */
  const LINKED_UNHEARD := [Begin, ReadLink(0), Load(0), Make(0, 7, true), LinkFails(0, true), Begin, ReadLink(1), Load(1),
                           Note(1, true)]

  lemma SecondIsAnswered() returns (c: Cursor)
    ensures Reached(c) && c.steps == LINKED_UNHEARD && c.s.tickets == map[7 := Ticket(Open, 0)] && c.s.link == Some(7)
    ensures |c.s.calls| == 2 && c.s.calls[0].phase == Erring(7) && c.s.calls[1].phase == Done(7, Linked)
  {
    c := Cursor([], State(map[], {}, None, []));
    assert Reached(c);
    hide Reached;
    c := Begins(c);
    c := ReadsAndLoads(c, 0);
    c := Makes(c, 0, 7);
    c := Takes(c, LinkFails(0, true));
    c := Begins(c);
    c := ReadsAndLoads(c, 1);
    c := Notes(c, 1);
  }

  /** The first call takes the ticket back, and with it the live request the second was answered with. */
  lemma LiveTicketIsUnlinked()
    ensures var s := Run(LINKED_UNHEARD + [Discard(0, true)]);
            && s.Some? && s.value.link == None && s.value.tickets == map[]
            && |s.value.calls| == 2 && s.value.calls[1].phase == Done(7, Linked)
  {
    var c := SecondIsAnswered();
    hide Reached;
    c := Takes(c, Discard(0, true));
    ReachedRuns(c);
  }

  /** Of the tickets calls report having created, at most one is not closed: the one linked. */
  lemma OneLiveRequest(steps: seq<Step>, c: nat, t: nat)
    requires Run(steps).Some? && c < |Run(steps).value.calls| && Run(steps).value.calls[c].phase == Done(t, Created)
    ensures var s := Run(steps).value; t in s.tickets && (s.link == Some(t) || s.tickets[t].status.Closed?)
  {
    RunKeeps(steps);
    OwnTickets(Run(steps).value, c);
  }

  /** The ticket a completed call names was the thread's while the call ran. */
  lemma {:induction false} AnswerWasLinked(steps: seq<Step>, c: nat, t: nat)
    requires Run(steps).Some? && c < |Run(steps).value.calls| && t in Run(steps).value.calls[c].during
    ensures exists k: nat :: k <= |steps| && LinkedIn(steps, k, c, t)
    decreases |steps|
  {
    hide Inv;
    if steps != [] {
      var shorter := steps[..|steps| - 1];
      var before, now := Run(shorter).value, Run(steps).value;
      if c < |before.calls| && t in before.calls[c].during {
        AnswerWasLinked(shorter, c, t);
        var k: nat :| k <= |shorter| && LinkedIn(shorter, k, c, t);
        assert shorter[..k] == steps[..k];
        assert LinkedIn(steps, k, c, t);
      } else {
        DuringGrows(before, steps[|steps| - 1], c, t);
        assert steps[..|steps|] == steps;
        assert LinkedIn(steps, |steps|, c, t);
      }
    }
  }

  /** After k steps the thread's ticket is t, and call c has begun and has not answered, or answers just then, with it. */
  ghost predicate LinkedIn(steps: seq<Step>, k: nat, c: nat, t: nat)
    requires k <= |steps|
  {
    var s := Run(steps[..k]);
    && s.Some? && s.value.link == Some(t) && c < |s.value.calls|
    && (!Ended(s.value.calls[c].phase) || s.value.calls[c].phase == Done(t, Created))
  }

  lemma DuringGrows(s: State, step: Step, c: nat, t: nat)
    requires Enabled(s, step)
    requires var next := Apply(s, step);
             c < |next.calls| && t in next.calls[c].during && !(c < |s.calls| && t in s.calls[c].during)
    ensures var next := Apply(s, step);
            next.link == Some(t) && (!Ended(next.calls[c].phase) || next.calls[c].phase == Done(t, Created))
  {}

  lemma CompletedCallNamesALinkedTicket(steps: seq<Step>, c: nat)
    requires Run(steps).Some? && c < |Run(steps).value.calls| && Run(steps).value.calls[c].phase.Done?
    ensures exists k: nat :: k <= |steps| && LinkedIn(steps, k, c, Run(steps).value.calls[c].phase.ticket)
  {
    RunKeeps(steps);
    OwnTickets(Run(steps).value, c);
    AnswerWasLinked(steps, c, Run(steps).value.calls[c].phase.ticket);
  }

  // ---------------------------------------------------------------------------------------------
  // What an answer says of its ticket
  // ---------------------------------------------------------------------------------------------

  ghost predicate IsOpen(s: State, t: nat) { t in s.tickets && s.tickets[t].status == Open }

  ghost predicate Runs(s: State, c: nat) { c < |s.calls| && !Ended(s.calls[c].phase) }

  /** The k-th step is the call's, and loads the ticket it read as the thread's, which is open. */
  ghost predicate LoadsOpen(steps: seq<Step>, k: nat, c: nat, t: nat)
    requires k < |steps|
  {
    && steps[k] == Load(c) && Run(steps[..k]).Some?
    && var s := Run(steps[..k]).value;
       && c < |s.calls| && s.calls[c].phase.Loading? && s.calls[c].phase.seen == Some(t)
       && IsOpen(s, t)
  }

  /** The k-th step is the call's, and turns the resolved or waiting ticket into an open one. */
  ghost predicate Reopens(steps: seq<Step>, k: nat, c: nat, t: nat)
    requires k < |steps|
  {
    && steps[k] == TryReopen(c) && Run(steps[..k]).Some? && Run(steps[..k + 1]).Some?
    && var s, next := Run(steps[..k]).value, Run(steps[..k + 1]).value;
       && t in s.tickets && (s.tickets[t].status == Resolved || s.tickets[t].status == WaitingOnRequester)
       && IsOpen(next, t) && Runs(next, c)
  }

  /** The k-th step is the call's, and makes the ticket, open. */
  ghost predicate MakesOpen(steps: seq<Step>, k: nat, c: nat, t: nat)
    requires k < |steps|
  {
    && steps[k] == Make(c, t, true) && Run(steps[..k]).Some? && Run(steps[..k + 1]).Some?
    && var s, next := Run(steps[..k]).value, Run(steps[..k + 1]).value;
       t !in s.tickets && IsOpen(next, t) && Runs(next, c)
  }

  /** The k-th step is the call's, and makes the ticket the thread's. */
  ghost predicate Links(steps: seq<Step>, k: nat, c: nat, t: nat)
    requires k < |steps|
  {
    steps[k] == TryLink(c) && Run(steps[..k + 1]).Some? && Run(steps[..k + 1]).value.link == Some(t)
  }

  ghost predicate FoundOpen(steps: seq<Step>, c: nat, t: nat) { exists k: nat :: k < |steps| && LoadsOpen(steps, k, c, t) }

  ghost predicate HasReopened(steps: seq<Step>, c: nat, t: nat) { exists k: nat :: k < |steps| && Reopens(steps, k, c, t) }

  ghost predicate HasMade(steps: seq<Step>, c: nat, t: nat) { exists k: nat :: k < |steps| && MakesOpen(steps, k, c, t) }

  ghost predicate HasMadeAndLinked(steps: seq<Step>, c: nat, t: nat) {
    exists k: nat, l: nat :: k < l < |steps| && MakesOpen(steps, k, c, t) && Links(steps, l, c, t)
  }

  /** The steps a call has taken to be where it is. */
  ghost predicate CameBy(steps: seq<Step>, c: nat, phase: Phase) {
    match phase
    case Reopening(_, _, status) => status == Resolved || status == WaitingOnRequester
    case Linking(_, _, t) => HasMade(steps, c, t)
    case Noting(t, outcome) =>
      if outcome.Linked? then FoundOpen(steps, c, t) else outcome.Reopened? && HasReopened(steps, c, t)
    case Done(t, outcome) =>
      (match outcome
       case Linked => FoundOpen(steps, c, t)
       case Reopened => HasReopened(steps, c, t)
       case Created => HasMadeAndLinked(steps, c, t))
    case _ => true
  }

  lemma CameByLater(shorter: seq<Step>, step: Step, c: nat, phase: Phase)
    requires CameBy(shorter, c, phase)
    ensures CameBy(shorter + [step], c, phase)
  {
    var steps := shorter + [step];
    forall k: nat, d: nat, t: nat | k < |shorter|
      ensures LoadsOpen(shorter, k, d, t) ==> LoadsOpen(steps, k, d, t)
      ensures Reopens(shorter, k, d, t) ==> Reopens(steps, k, d, t)
      ensures MakesOpen(shorter, k, d, t) ==> MakesOpen(steps, k, d, t)
      ensures Links(shorter, k, d, t) ==> Links(steps, k, d, t)
    {
      assert steps[..k] == shorter[..k] && steps[..k + 1] == shorter[..k + 1];
    }
    hide LoadsOpen, Reopens, MakesOpen, Links;
  }

  /** A step that changes its call's phase to one that says something of the ticket. */
  lemma PhaseChanges(s: State, step: Step, c: nat)
    requires Enabled(s, step) && c < |s.calls| && Apply(s, step).calls[c].phase != s.calls[c].phase
    ensures var p, q, next := s.calls[c].phase, Apply(s, step).calls[c].phase, Apply(s, step);
            match q
            case Noting(t, outcome) =>
              if outcome.Linked? then step == Load(c) && p.Loading? && p.seen == Some(t) && IsOpen(s, t)
              else outcome.Reopened? && step == TryReopen(c) && p.Reopening? && IsOpen(next, t)
                   && t in s.tickets && s.tickets[t].status == p.status
            case Reopening(_, _, status) => status == Resolved || status == WaitingOnRequester
            case Linking(_, _, t) => step == Make(c, t, true) && t !in s.used && IsOpen(next, t)
            case Done(t, outcome) =>
              if p.Noting? then p == Noting(t, outcome)
              else step == TryLink(c) && p.Linking? && p.mine == t && outcome.Created? && next.link == Some(t)
            case _ => true
  {}

  /** The run so far, a step of call c, and where it leads. */
  ghost predicate Last(steps: seq<Step>, step: Step, s: State, next: State) {
    Run(steps) == Some(s) && Run(steps + [step]) == Some(next)
  }

  lemma LastLoads(steps: seq<Step>, c: nat, t: nat, s: State, next: State)
    requires Last(steps, Load(c), s, next) && IsOpen(s, t)
    requires c < |s.calls| && s.calls[c].phase.Loading? && s.calls[c].phase.seen == Some(t)
    ensures FoundOpen(steps + [Load(c)], c, t)
  {
    var now := steps + [Load(c)];
    assert now[..|steps|] == steps;
    hide Run, IsOpen;
    assert LoadsOpen(now, |steps|, c, t);
  }

  lemma LastReopens(steps: seq<Step>, c: nat, t: nat, s: State, next: State)
    requires Last(steps, TryReopen(c), s, next) && IsOpen(next, t) && Runs(next, c)
    requires t in s.tickets && (s.tickets[t].status == Resolved || s.tickets[t].status == WaitingOnRequester)
    ensures HasReopened(steps + [TryReopen(c)], c, t)
  {
    var now := steps + [TryReopen(c)];
    assert now[..|steps|] == steps && now[..|steps| + 1] == now;
    hide Run, IsOpen, Runs;
    assert Reopens(now, |steps|, c, t);
  }

  lemma LastMakes(steps: seq<Step>, c: nat, t: nat, s: State, next: State)
    requires Last(steps, Make(c, t, true), s, next) && IsOpen(next, t) && Runs(next, c) && t !in s.tickets
    ensures HasMade(steps + [Make(c, t, true)], c, t)
  {
    var now := steps + [Make(c, t, true)];
    assert now[..|steps|] == steps && now[..|steps| + 1] == now;
    hide Run, IsOpen, Runs;
    assert MakesOpen(now, |steps|, c, t);
  }

  lemma LastLinks(steps: seq<Step>, c: nat, t: nat, s: State, next: State)
    requires Last(steps, TryLink(c), s, next) && next.link == Some(t) && HasMade(steps, c, t)
    ensures HasMadeAndLinked(steps + [TryLink(c)], c, t)
  {
    var now := steps + [TryLink(c)];
    var k: nat :| k < |steps| && MakesOpen(steps, k, c, t);
    assert now[..k] == steps[..k] && now[..k + 1] == steps[..k + 1] && now[..|steps| + 1] == now;
    hide Run;
    assert MakesOpen(now, k, c, t) && Links(now, |steps|, c, t);
  }

  /** A call's phase after a step, by the phase before and the step. */
  lemma PhaseCameBy(steps: seq<Step>, step: Step, c: nat, s: State, next: State)
    requires Last(steps, step, s, next) && Enabled(s, step) && next == Apply(s, step)
    requires forall t :: t in s.tickets ==> t in s.used
    requires c < |s.calls| && CameBy(steps, c, s.calls[c].phase)
    ensures c < |next.calls| && CameBy(steps + [step], c, next.calls[c].phase)
  {
    hide Apply, Enabled, Last, FoundOpen, HasReopened, HasMade, HasMadeAndLinked;
    LeftGrows(s, step, c);
    var p, q := s.calls[c].phase, next.calls[c].phase;
    if q == p {
      hide *;
      CameByLater(steps, step, c, p);
    } else {
      PhaseChanges(s, step, c);
      match q {
        case Noting(t, Linked) => LastLoads(steps, c, t, s, next);
        case Noting(t, _) => LastReopens(steps, c, t, s, next);
        case Linking(_, _, t) => LastMakes(steps, c, t, s, next);
        case Done(t, _) =>
          if p.Noting? { CameByLater(steps, step, c, p); } else { LastLinks(steps, c, t, s, next); }
        case _ =>
      }
    }
  }

  /** However calls interleave, an answer is true of its ticket. */
  lemma {:induction false} AnswersAreTrue(steps: seq<Step>, c: nat)
    requires Run(steps).Some? && c < |Run(steps).value.calls|
    ensures CameBy(steps, c, Run(steps).value.calls[c].phase)
    decreases |steps|
  {
    if steps != [] {
      var shorter := steps[..|steps| - 1];
      assert steps == shorter + [steps[|steps| - 1]];
      RunKeeps(shorter);
      TicketsAreUsed(Run(shorter).value);
      hide Inv, Apply;
      if c < |Run(shorter).value.calls| {
        AnswersAreTrue(shorter, c);
        hide CameBy;
        PhaseCameBy(shorter, steps[|steps| - 1], c, Run(shorter).value, Run(steps).value);
      }
    }
  }

  /** After k steps the ticket is open and the call has begun and not answered. */
  ghost predicate OpenIn(steps: seq<Step>, k: nat, c: nat, t: nat)
    requires k <= |steps|
  {
    Run(steps[..k]).Some? && IsOpen(Run(steps[..k]).value, t) && Runs(Run(steps[..k]).value, c)
  }

  /** Whoever is answered with a ticket had a request before the team while the call ran. */
  lemma CompletedCallNamesAnOpenTicket(steps: seq<Step>, c: nat)
    requires Run(steps).Some? && c < |Run(steps).value.calls| && Run(steps).value.calls[c].phase.Done?
    ensures exists k: nat :: k <= |steps| && OpenIn(steps, k, c, Run(steps).value.calls[c].phase.ticket)
  {
    AnswersAreTrue(steps, c);
    var t, outcome := Run(steps).value.calls[c].phase.ticket, Run(steps).value.calls[c].phase.outcome;
    match outcome {
      case Linked =>
        var k: nat :| k < |steps| && LoadsOpen(steps, k, c, t);
        assert OpenIn(steps, k, c, t);
      case Reopened =>
        var k: nat :| k < |steps| && Reopens(steps, k, c, t);
        assert OpenIn(steps, k + 1, c, t);
      case Created =>
        var k: nat, l: nat :| k < l < |steps| && MakesOpen(steps, k, c, t) && Links(steps, l, c, t);
        assert OpenIn(steps, k + 1, c, t);
    }
  }

  /** A call that has made no ticket fails only when a query does, or its third pass finds things moved under it. */
  lemma GivesUp(s: State, step: Step, c: nat)
    requires Enabled(s, step) && c < |s.calls| && c < |Apply(s, step).calls|
    requires !s.calls[c].phase.Failed? && Apply(s, step).calls[c].phase.Failed?
    ensures || step == Break(c) || step == Note(c, false) || (step.Make? && step.call == c && !step.heard)
            || (step.Discard? && step.call == c && s.calls[c].phase.Erring?)
            || (step == TryReopen(c) && s.calls[c].phase.attempt >= 2)
            || (step.Discard? && step.call == c && s.calls[c].phase.Discarding? && s.calls[c].phase.attempt >= 2)
  {
    hide HelpRequestPlan;
  }
}
