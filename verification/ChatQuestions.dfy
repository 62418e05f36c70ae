/**
 * A thread's question (lib/chat-threads-rules.ts, lib/chat-threads.ts): its transitions, and calls that read it, decide, and
 * change it only if nobody moved it in between; and the live count of a thread's replies.
 */
module ChatQuestions {
  import opened Options
  import opened ChatView

  datatype Question = NotAsked | Open | Answered

  datatype Now = Now(question: Question, answer: Option<nat>)

  datatype Action = Ask | Accept | MarkAnswered | Reopen | Unmark

  /** None where the rules refuse. */
  function QuestionTransition(now: Now, action: Action, answer: Option<nat>): Option<Now> {
    match action
    case Ask => if now.question.NotAsked? then Some(Now(Open, None)) else None
    case Accept => if now.question.NotAsked? || answer.None? || now.answer == answer then None else Some(Now(Answered, answer))
    case MarkAnswered => if now.question.Open? then Some(Now(Answered, None)) else None
    case Reopen => if now.question.Answered? then Some(Now(Open, None)) else None
    case Unmark => if now.question.NotAsked? then None else Some(Now(NotAsked, None))
  }

  /** Where each action leads, whatever it starts from, and when there is nothing for it to do. */
  lemma TransitionsLead(now: Now, action: Action, answer: Option<nat>)
    ensures var next := QuestionTransition(now, action, answer);
            && (next.Some? ==>
                  && (next.value.question.Open? <==> action.Ask? || action.Reopen?)
                  && (next.value.question.Answered? <==> action.Accept? || action.MarkAnswered?)
                  && (next.value.question.NotAsked? <==> action.Unmark?)
                  && next.value.answer == if action.Accept? then answer else None)
            && (next.None? <==>
                  || (action.Ask? && !now.question.NotAsked?)
                  || (!action.Ask? && now.question.NotAsked?)
                  || (action.Accept? && (answer.None? || now.answer == answer))
                  || (action.MarkAnswered? && now.question.Answered?)
                  || (action.Reopen? && now.question.Open?))
  {}

  /** A transition always changes the state, and keeps "an accepted answer means answered". */
  lemma TransitionsMove(now: Now, action: Action, answer: Option<nat>)
    requires now.answer.Some? ==> now.question.Answered?
    ensures var next := QuestionTransition(now, action, answer);
            next.Some? ==>
              && next.value != now
              && (next.value.answer.Some? ==> next.value.question.Answered? && next.value.answer == answer)
  {}

  // ---------------------------------------------------------------------------------------------
  // Calls and deletions, interleaved
  // ---------------------------------------------------------------------------------------------

  datatype Phase = Reading | Deciding(seen: Now) | Changed | Refused

  datatype Call = Call(action: Action, answer: Option<nat>, phase: Phase)

  /** One line of chat_thread_events; the system's own have no call. */
  datatype Event = Event(before: Now, after: Now, call: Option<nat>)

  datatype State = State(now: Now, live: set<nat>, log: seq<Event>, calls: seq<Call>)

  const START := State(Now(NotAsked, None), {}, [], [])

  datatype Step =
    | Begin(action: Action, answer: Option<nat>)
    | Read(call: nat)
    | Change(call: nat)
    | PostReply(reply: nat)
    | DeleteReply(reply: nat)
    | DeleteRoot

  predicate Enabled(s: State, step: Step) {
    match step
    case Begin(_, _) => true
    case Read(c) => c < |s.calls| && s.calls[c].phase.Reading?
    case Change(c) => c < |s.calls| && s.calls[c].phase.Deciding?
    case PostReply(_) => true
    case DeleteReply(_) => true
    case DeleteRoot => true
  }

  function Put(s: State, c: nat, phase: Phase): State
    requires c < |s.calls|
  {
    s.(calls := s.calls[c := s.calls[c].(phase := phase)])
  }

  /** The row is written, and the change logged with it. */
  function Write(s: State, next: Now, call: Option<nat>): State {
    if next == s.now then s else s.(now := next, log := s.log + [Event(s.now, next, call)])
  }

  /** The database's check: a new accepted answer is a live reply. */
  predicate Allowed(s: State, next: Now) { next.answer.Some? && next.answer != s.now.answer ==> next.answer.value in s.live }

  function Apply(s: State, step: Step): State
    requires Enabled(s, step)
  {
    match step
    case Begin(action, answer) => s.(calls := s.calls + [Call(action, if action.Accept? then answer else None, Reading)])
    case Read(c) => Put(s, c, Deciding(s.now))
    case Change(c) =>
      var call := s.calls[c];
      var next := QuestionTransition(call.phase.seen, call.action, call.answer);
      if next.None? || s.now != call.phase.seen || !Allowed(s, next.value) then Put(s, c, Refused)
      else Put(Write(s, next.value, Some(c)), c, Changed)
    case PostReply(r) => s.(live := s.live + {r})
    case DeleteReply(r) =>
      var gone := s.(live := s.live - {r});
      if s.now.answer == Some(r) then Write(gone, Now(Open, None), None) else gone
    case DeleteRoot => Write(s, Now(NotAsked, None), None)
  }

  ghost function Run(steps: seq<Step>): Option<State> {
    if steps == [] then Some(START) else
      var before := Run(steps[..|steps| - 1]);
      if before.Some? && Enabled(before.value, steps[|steps| - 1]) then Some(Apply(before.value, steps[|steps| - 1])) else None
  }

  /** The log runs from the start to now without a gap, and every line is a change. */
  ghost predicate Chained(s: State) {
    && (s.log == [] ==> s.now == START.now)
    && (s.log != [] ==> s.log[0].before == START.now && s.log[|s.log| - 1].after == s.now)
    && (forall i :: 0 < i < |s.log| ==> s.log[i].before == s.log[i - 1].after)
    && (forall i :: 0 <= i < |s.log| ==> s.log[i].before != s.log[i].after)
  }

  /** A call's line is the transition it asked for, from the state as it was just then. */
  ghost predicate LineFits(s: State, e: Event) {
    e.call.Some? ==>
      && e.call.value < |s.calls| && s.calls[e.call.value].phase.Changed?
      && QuestionTransition(e.before, s.calls[e.call.value].action, s.calls[e.call.value].answer) == Some(e.after)
  }

  ghost predicate CallFits(s: State, c: nat) {
    c < |s.calls| && s.calls[c].phase.Changed? ==> exists i :: 0 <= i < |s.log| && s.log[i].call == Some(c)
  }

  ghost predicate Inv(s: State) {
    && Chained(s)
    && (s.now.answer.Some? ==> s.now.question.Answered? && s.now.answer.value in s.live)
    && (forall i :: 0 <= i < |s.log| ==> LineFits(s, s.log[i]))
    && (forall i, j :: 0 <= i < j < |s.log| && s.log[i].call.Some? ==> s.log[i].call != s.log[j].call)
    && (forall c: nat :: CallFits(s, c))
  }

  lemma Kept(s: State, next: State)
    requires Inv(s) && s.log <= next.log && |s.calls| <= |next.calls|
    requires forall c: nat :: c < |s.calls| && s.calls[c].phase.Changed? ==> next.calls[c] == s.calls[c]
    requires forall c: nat :: c < |next.calls| && next.calls[c].phase.Changed? ==>
               || (c < |s.calls| && s.calls[c].phase.Changed?)
               || exists i :: |s.log| <= i < |next.log| && next.log[i].call == Some(c)
    requires forall i :: |s.log| <= i < |next.log| ==> LineFits(next, next.log[i])
    ensures forall i :: 0 <= i < |next.log| ==> LineFits(next, next.log[i])
    ensures forall c: nat :: CallFits(next, c)
  {
    forall i | 0 <= i < |next.log| ensures LineFits(next, next.log[i]) {
      if i < |s.log| { assert LineFits(s, s.log[i]); }
    }
    forall c: nat ensures CallFits(next, c) {
      if c < |next.calls| && next.calls[c].phase.Changed? && c < |s.calls| && s.calls[c].phase.Changed? {
        assert CallFits(s, c);
        var i :| 0 <= i < |s.log| && s.log[i].call == Some(c);
        assert next.log[i] == s.log[i];
      }
    }
  }

  lemma StepKeeps(s: State, step: Step)
    requires Inv(s) && Enabled(s, step)
    ensures Inv(Apply(s, step))
  {
    var next := Apply(s, step);
    if step.Change? { ChangeKeeps(s, step.call); }
    else {
      Kept(s, next);
      hide QuestionTransition;
    }
  }

  lemma ChangeKeeps(s: State, c: nat)
    requires Inv(s) && Enabled(s, Change(c))
    ensures Inv(Apply(s, Change(c)))
  {
    var next := Apply(s, Change(c));
    TransitionsMove(s.now, s.calls[c].action, s.calls[c].answer);
    if next.calls[c].phase.Changed? {
      assert next.log[|s.log|].call == Some(c);
      forall i | 0 <= i < |s.log| ensures s.log[i].call != Some(c) { assert LineFits(s, s.log[i]); }
    }
    hide QuestionTransition;
    Kept(s, next);
  }

  lemma {:induction false} RunKeeps(steps: seq<Step>)
    requires Run(steps).Some?
    ensures Inv(Run(steps).value)
    decreases |steps|
  {
    hide Inv, Apply, Enabled;
    if steps == [] { assert Inv(START) by { NothingYet(); } }
    else {
      RunKeeps(steps[..|steps| - 1]);
      StepKeeps(Run(steps[..|steps| - 1]).value, steps[|steps| - 1]);
    }
  }

  lemma NothingYet()
    ensures Inv(START)
  {}

  /** However calls and deletions interleave, an accepted answer is a live reply of an answered question. */
  lemma AcceptedAnswerIsLive(steps: seq<Step>)
    requires Run(steps).Some?
    ensures var s := Run(steps).value; s.now.answer.Some? ==> s.now.question.Answered? && s.now.answer.value in s.live
  {
    RunKeeps(steps);
  }

  /**
   * The changes are as if calls had run one at a time: the log runs without a gap from "not a question" to now, each call
   * told that it changed the question wrote exactly one line, and that line is the transition it asked for from the state
   * just before it.
   */
  lemma ChangesAreOneAtATime(steps: seq<Step>, c: nat)
    requires Run(steps).Some? && c < |Run(steps).value.calls|
    ensures var s := Run(steps).value;
            && Chained(s)
            && (s.calls[c].phase.Changed? <==> exists i :: 0 <= i < |s.log| && s.log[i].call == Some(c))
            && (forall i, j :: 0 <= i < |s.log| && 0 <= j < |s.log| && s.log[i].call == Some(c) == s.log[j].call ==> i == j)
            && (forall i :: 0 <= i < |s.log| && s.log[i].call == Some(c) ==>
                  QuestionTransition(s.log[i].before, s.calls[c].action, s.calls[c].answer) == Some(s.log[i].after))
  {
    RunKeeps(steps);
    var s := Run(steps).value;
    assert CallFits(s, c);
    hide QuestionTransition;
    forall i | 0 <= i < |s.log| && s.log[i].call == Some(c)
      ensures QuestionTransition(s.log[i].before, s.calls[c].action, s.calls[c].answer) == Some(s.log[i].after)
      ensures s.calls[c].phase.Changed?
    {
      assert LineFits(s, s.log[i]);
    }
  }

  // ---------------------------------------------------------------------------------------------
  // The live reply count
  // ---------------------------------------------------------------------------------------------

  datatype Summary = Summary(replyCount: nat, lastReplyAt: Option<Stamp>)

  function BumpThread(summary: Summary, createdAt: Stamp): Summary {
    if summary.lastReplyAt.Some? && !IsAfter(createdAt, summary.lastReplyAt.value) then summary
    else Summary(summary.replyCount + 1, Some(createdAt))
  }

  function BumpAll(summary: Summary, arrivals: seq<Stamp>): Summary {
    if arrivals == [] then summary else BumpThread(BumpAll(summary, arrivals[..|arrivals| - 1]), arrivals[|arrivals| - 1])
  }

  /** After a reply has arrived, or a newer one, it is never counted again. */
  lemma {:induction false} SeenTwiceCountedOnce(summary: Summary, arrivals: seq<Stamp>, again: Stamp)
    requires again in arrivals
    ensures BumpThread(BumpAll(summary, arrivals), again) == BumpAll(summary, arrivals)
  {
    var front, last := arrivals[..|arrivals| - 1], arrivals[|arrivals| - 1];
    assert arrivals == front + [last];
    if again != last { SeenTwiceCountedOnce(summary, front, again); }
  }

  /** Replies that arrive in order are each counted, whatever is seen again in between. */
  lemma {:induction false} InOrderEachCounted(summary: Summary, arrivals: seq<Stamp>)
    requires forall i, j :: 0 <= i < j < |arrivals| ==> IsAfter(arrivals[j], arrivals[i])
    requires summary.lastReplyAt.Some? ==> forall i :: 0 <= i < |arrivals| ==> IsAfter(arrivals[i], summary.lastReplyAt.value)
    ensures BumpAll(summary, arrivals).replyCount == summary.replyCount + |arrivals|
    ensures BumpAll(summary, arrivals).lastReplyAt == if arrivals == [] then summary.lastReplyAt
            else Some(arrivals[|arrivals| - 1])
  {
    if arrivals != [] { InOrderEachCounted(summary, arrivals[..|arrivals| - 1]); }
  }

  /** However replies arrive, and however often, the count rises by no more than the replies there are. */
  lemma {:induction false} NeverOvercounts(summary: Summary, arrivals: seq<Stamp>)
    ensures BumpAll(summary, arrivals).replyCount <= summary.replyCount + |set x | x in arrivals|
  {
    if arrivals != [] {
      var front, last := arrivals[..|arrivals| - 1], arrivals[|arrivals| - 1];
      assert arrivals == front + [last];
      NeverOvercounts(summary, front);
      var seen := set x | x in front;
      assert (set x | x in arrivals) == seen + {last};
      if last in front {
        SeenTwiceCountedOnce(summary, front, last);
        assert seen + {last} == seen;
      } else {
        assert last !in seen && |seen + {last}| == |seen| + 1;
      }
    }
  }
}
