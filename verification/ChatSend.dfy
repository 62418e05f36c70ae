/**
 * lib/chat-send.ts and its caller: sending a chat message once. Every send and retry looks the message up, inserts it, and
 * looks again when the unique key or a check refused it; between any two of those queries anything may happen. The column
 * for client ids is there, and the readiness probe answers.
 */
module ChatSend {
  import opened Options
  import ChatView

  /** A row of chat_messages; `writer` is the request that inserted it, when it is one of ours. */
  datatype Row = Row(id: nat, sender: nat, client: Option<nat>, deleted: bool, writer: Option<nat>)

  datatype Answer = Inserted(id: nat) | Replayed(id: nat) | Failed

  /**
   * Where a request is: about to look the message up, to insert it, to look after the unique key refused, or after
   * anything else did.
   */
  datatype Phase = Asking | Inserting | Raced | Settling | Answered(answer: Answer)

  datatype Request = Request(sender: nat, client: nat, phase: Phase)

  datatype State = State(rows: seq<Row>, requests: seq<Request>)

  predicate HasKey(row: Row, sender: nat, client: nat) { row.sender == sender && row.client == Some(client) }

  /** unique (sender_id, client_id): no row, deleted or not, has it already. */
  predicate KeyFree(rows: seq<Row>, sender: nat, client: nat) {
    forall k :: 0 <= k < |rows| ==> !HasKey(rows[k], sender, client)
  }

  function FindSent(rows: seq<Row>, sender: nat, client: nat): Option<nat> {
    if rows == [] then None
    else if HasKey(rows[|rows| - 1], sender, client) then Some(rows[|rows| - 1].id)
    else FindSent(rows[..|rows| - 1], sender, client)
  }

  predicate FreshId(rows: seq<Row>, id: nat) { forall k :: 0 <= k < |rows| ==> rows[k].id != id }

  datatype Step =
    | Begin(sender: nat, client: nat)
    | LookUp(request: nat)
    | Insert(request: nat, id: nat, heard: bool)
    | Refuse(request: nat)
    | LookAgain(request: nat)
    | LookUpFails(request: nat)
    | OtherRow(row: Row)
    | Delete(at: nat)

  predicate Enabled(s: State, step: Step) {
    match step
    case Begin(_, _) => true
    case LookUp(i) => i < |s.requests| && s.requests[i].phase.Asking?
    case Insert(i, id, _) => i < |s.requests| && s.requests[i].phase.Inserting? && FreshId(s.rows, id)
    case Refuse(i) => i < |s.requests| && s.requests[i].phase.Inserting?
    case LookAgain(i) => i < |s.requests| && (s.requests[i].phase.Raced? || s.requests[i].phase.Settling?)
    case LookUpFails(i) => i < |s.requests| && !s.requests[i].phase.Inserting? && !s.requests[i].phase.Answered?
    case OtherRow(row) =>
      FreshId(s.rows, row.id) && row.writer.None? && (row.client.Some? ==> KeyFree(s.rows, row.sender, row.client.value))
    case Delete(k) => k < |s.rows|
  }

  function Put(s: State, i: nat, phase: Phase): State
    requires i < |s.requests|
  {
    s.(requests := s.requests[i := s.requests[i].(phase := phase)])
  }

  function Apply(s: State, step: Step): State
    requires Enabled(s, step)
  {
    match step
    case Begin(sender, client) => s.(requests := s.requests + [Request(sender, client, Asking)])
    case LookUp(i) =>
      var found := FindSent(s.rows, s.requests[i].sender, s.requests[i].client);
      Put(s, i, if found.Some? then Answered(Replayed(found.value)) else Inserting)
    case Insert(i, id, heard) =>
      var r := s.requests[i];
      if !KeyFree(s.rows, r.sender, r.client) then Put(s, i, Raced)
      else Put(s.(rows := s.rows + [Row(id, r.sender, Some(r.client), false, Some(i))]), i,
               if heard then Answered(Inserted(id)) else Settling)
    case Refuse(i) => Put(s, i, Settling)
    case LookAgain(i) =>
      var found := FindSent(s.rows, s.requests[i].sender, s.requests[i].client);
      Put(s, i, if found.Some? then Answered(Replayed(found.value)) else if s.requests[i].phase.Raced? then Settling
        else Answered(Failed))
    case LookUpFails(i) => Put(s, i, if s.requests[i].phase.Raced? then Settling else Answered(Failed))
    case OtherRow(row) => s.(rows := s.rows + [row])
    case Delete(k) => s.(rows := s.rows[k := s.rows[k].(deleted := true)])
  }

  ghost function Run(steps: seq<Step>): Option<State> {
    if steps == [] then Some(State([], [])) else
      var before := Run(steps[..|steps| - 1]);
      if before.Some? && Enabled(before.value, steps[|steps| - 1]) then Some(Apply(before.value, steps[|steps| - 1])) else None
  }

  // ---------------------------------------------------------------------------------------------

  /** No two rows have one key, or one id. */
  ghost predicate RowsFit(rows: seq<Row>) {
    forall i, j :: 0 <= i < j < |rows| ==>
      rows[i].id != rows[j].id && (rows[i].client.Some? ==> !HasKey(rows[j], rows[i].sender, rows[i].client.value))
  }

  ghost predicate Names(rows: seq<Row>, r: Request, id: nat) {
    exists k :: 0 <= k < |rows| && rows[k].id == id && HasKey(rows[k], r.sender, r.client)
  }

  ghost predicate Wrote(rows: seq<Row>, i: nat, id: nat) {
    exists k :: 0 <= k < |rows| && rows[k].id == id && rows[k].writer == Some(i)
  }

  ghost predicate RequestFits(rows: seq<Row>, i: nat, r: Request) {
    match r.phase
    case Raced => !KeyFree(rows, r.sender, r.client)
    case Answered(Inserted(id)) => Names(rows, r, id) && Wrote(rows, i, id)
    case Answered(Replayed(id)) => Names(rows, r, id)
    case _ => true
  }

  ghost predicate Inv(s: State) {
    RowsFit(s.rows) && forall i: nat :: i < |s.requests| ==> RequestFits(s.rows, i, s.requests[i])
  }

  /** Rows are added, and marked deleted, but stay. */
  ghost predicate Keeps(rows: seq<Row>, later: seq<Row>) {
    |rows| <= |later| && forall k :: 0 <= k < |rows| ==> later[k] == rows[k] || later[k] == rows[k].(deleted := true)
  }

  lemma FitsLater(rows: seq<Row>, later: seq<Row>, i: nat, r: Request)
    requires Keeps(rows, later) && RequestFits(rows, i, r)
    ensures RequestFits(later, i, r)
  {
    match r.phase
    case Raced =>
      var k :| 0 <= k < |rows| && HasKey(rows[k], r.sender, r.client);
      assert HasKey(later[k], r.sender, r.client);
    case Answered(Inserted(id)) =>
      var k :| 0 <= k < |rows| && rows[k].id == id && HasKey(rows[k], r.sender, r.client);
      assert later[k].id == id && HasKey(later[k], r.sender, r.client);
      var w :| 0 <= w < |rows| && rows[w].id == id && rows[w].writer == Some(i);
      assert later[w].id == id && later[w].writer == Some(i);
    case Answered(Replayed(id)) =>
      var k :| 0 <= k < |rows| && rows[k].id == id && HasKey(rows[k], r.sender, r.client);
      assert later[k].id == id && HasKey(later[k], r.sender, r.client);
    case _ =>
  }

  /** The lookup finds the row exactly when the key is taken. */
  lemma {:induction false} FindSentFinds(rows: seq<Row>, sender: nat, client: nat)
    ensures FindSent(rows, sender, client).None? <==> KeyFree(rows, sender, client)
    ensures FindSent(rows, sender, client).Some? ==>
              exists k :: 0 <= k < |rows| && rows[k].id == FindSent(rows, sender, client).value && HasKey(rows[k], sender, client)
  {
    if rows != [] {
      var front, last := rows[..|rows| - 1], rows[|rows| - 1];
      FindSentFinds(front, sender, client);
      if HasKey(last, sender, client) {
        assert rows[|rows| - 1].id == last.id;
      } else {
        forall k | 0 <= k < |front| ensures front[k] == rows[k] {}
        if !KeyFree(rows, sender, client) {
          var k :| 0 <= k < |rows| && HasKey(rows[k], sender, client);
          assert HasKey(front[k], sender, client);
        }
      }
    }
  }

  lemma OneRequestMoves(s: State, next: State, i: nat)
    requires Inv(s) && RowsFit(next.rows) && Keeps(s.rows, next.rows) && |s.requests| <= |next.requests|
    requires forall j: nat :: j < |next.requests| && j != i ==> j < |s.requests| && next.requests[j] == s.requests[j]
    requires i < |next.requests| ==> RequestFits(next.rows, i, next.requests[i])
    ensures Inv(next)
  {
    forall j: nat | j < |next.requests| ensures RequestFits(next.rows, j, next.requests[j]) {
      var r := next.requests[j];
      if j != i { FitsLater(s.rows, next.rows, j, r); }
    }
  }

  lemma StepKeeps(s: State, step: Step)
    requires Inv(s) && Enabled(s, step)
    ensures Inv(Apply(s, step)) && Keeps(s.rows, Apply(s, step).rows)
  {
    var next := Apply(s, step);
    match step
    case Begin(_, _) => OneRequestMoves(s, next, |s.requests|);
    case LookUp(i) => FindSentFinds(s.rows, s.requests[i].sender, s.requests[i].client); OneRequestMoves(s, next, i);
    case Insert(i, id, _) =>
      if |next.rows| > |s.rows| { assert next.rows[|s.rows|].id == id && next.rows[|s.rows|].writer == Some(i); }
      OneRequestMoves(s, next, i);
    case Refuse(i) => OneRequestMoves(s, next, i);
    case LookAgain(i) => FindSentFinds(s.rows, s.requests[i].sender, s.requests[i].client); OneRequestMoves(s, next, i);
    case LookUpFails(i) => OneRequestMoves(s, next, i);
    case OtherRow(_) => OneRequestMoves(s, next, |s.requests|);
    case Delete(_) => OneRequestMoves(s, next, |s.requests|);
  }

  lemma {:induction false} RunKeeps(steps: seq<Step>)
    requires Run(steps).Some?
    ensures Inv(Run(steps).value)
    decreases |steps|
  {
    hide Inv, Apply, Enabled;
    if steps == [] { assert Inv(State([], [])) by { NothingSent(); } }
    else {
      RunKeeps(steps[..|steps| - 1]);
      StepKeeps(Run(steps[..|steps| - 1]).value, steps[|steps| - 1]);
    }
  }

  lemma NothingSent()
    ensures Inv(State([], []))
  {}

  // ---------------------------------------------------------------------------------------------
  // Over every run
  // ---------------------------------------------------------------------------------------------

  predicate Succeeded(r: Request) { r.phase.Answered? && !r.phase.answer.Failed? }

  /** One sender and client id: at most one row, and every success names it. */
  lemma EverySuccessNamesOneRow(steps: seq<Step>, i: nat, j: nat)
    requires Run(steps).Some?
    requires var s := Run(steps).value;
             && i < |s.requests| && j < |s.requests| && Succeeded(s.requests[i]) && Succeeded(s.requests[j])
             && s.requests[i].sender == s.requests[j].sender && s.requests[i].client == s.requests[j].client
    ensures var s := Run(steps).value; s.requests[i].phase.answer.id == s.requests[j].phase.answer.id
    ensures var s := Run(steps).value;
            exists k :: 0 <= k < |s.rows| && s.rows[k].id == s.requests[i].phase.answer.id
              && forall l :: 0 <= l < |s.rows| && HasKey(s.rows[l], s.requests[i].sender, s.requests[i].client) ==> l == k
  {
    RunKeeps(steps);
    var s := Run(steps).value;
    var r, q := s.requests[i], s.requests[j];
    assert RequestFits(s.rows, i, r) && RequestFits(s.rows, j, q);
    assert Names(s.rows, r, r.phase.answer.id) && Names(s.rows, q, q.phase.answer.id);
    var k :| 0 <= k < |s.rows| && s.rows[k].id == r.phase.answer.id && HasKey(s.rows[k], r.sender, r.client);
    var l :| 0 <= l < |s.rows| && s.rows[l].id == q.phase.answer.id && HasKey(s.rows[l], r.sender, r.client);
    assert k == l;
  }

  /** At most one request is told it inserted the message. */
  lemma OneInserts(steps: seq<Step>, i: nat, j: nat)
    requires Run(steps).Some?
    requires var s := Run(steps).value;
             && i < |s.requests| && j < |s.requests|
             && s.requests[i].phase.Answered? && s.requests[i].phase.answer.Inserted?
             && s.requests[j].phase.Answered? && s.requests[j].phase.answer.Inserted?
             && s.requests[i].sender == s.requests[j].sender && s.requests[i].client == s.requests[j].client
    ensures i == j
  {
    RunKeeps(steps);
    EverySuccessNamesOneRow(steps, i, j);
    var s := Run(steps).value;
    assert RequestFits(s.rows, i, s.requests[i]) && RequestFits(s.rows, j, s.requests[j]);
    var id := s.requests[i].phase.answer.id;
    var k :| 0 <= k < |s.rows| && s.rows[k].id == id && s.rows[k].writer == Some(i);
    var l :| 0 <= l < |s.rows| && s.rows[l].id == id && s.rows[l].writer == Some(j);
    assert k == l;
  }

  /** A refusal by the unique key is never a failure while lookups answer: the row it lost to is found. */
  lemma RaceFindsTheRow(steps: seq<Step>, i: nat)
    requires Run(steps).Some? && Enabled(Run(steps).value, LookAgain(i)) && Run(steps).value.requests[i].phase.Raced?
    ensures var next := Apply(Run(steps).value, LookAgain(i));
            Succeeded(next.requests[i]) && next.requests[i].phase.answer.Replayed?
  {
    RunKeeps(steps);
    var s := Run(steps).value;
    assert RequestFits(s.rows, i, s.requests[i]);
    FindSentFinds(s.rows, s.requests[i].sender, s.requests[i].client);
  }

  /** A request whose insert committed with its answer lost is told of its own row when it looks again. */
  lemma LostAnswerIsFound(steps: seq<Step>, i: nat, id: nat)
    requires Run(steps).Some? && Enabled(Run(steps).value, Insert(i, id, false))
    requires var r := Run(steps).value.requests[i]; KeyFree(Run(steps).value.rows, r.sender, r.client)
    ensures var lost := Apply(Run(steps).value, Insert(i, id, false));
            Enabled(lost, LookAgain(i)) && Apply(lost, LookAgain(i)).requests[i].phase == Answered(Replayed(id))
  {
    var s := Run(steps).value;
    var lost := Apply(s, Insert(i, id, false));
    assert lost.rows[|lost.rows| - 1].id == id;
  }

  /** Once the screen holds the message from the server, its bubble is gone, whoever's answer was lost. */
  lemma BubbleGoes(list: seq<ChatView.Message>, incoming: seq<ChatView.Message>, deleted: set<nat>, out: seq<ChatView.Message>,
                   row: Row, copy: ChatView.Message, bubble: ChatView.Message)
    requires ChatView.Tidy(list) && ChatView.IsMerge(list, incoming, deleted, out)
    requires row.client.Some? && copy in out && !ChatView.Local(copy)
    requires copy.sender == Some(row.sender) && copy.clientId == row.client
    requires ChatView.Local(bubble) && bubble.sender == Some(row.sender) && bubble.clientId == row.client
    ensures bubble !in out
  {
    ChatView.MergeIsTidy(list, incoming, deleted, out);
    if bubble in out { ChatView.SettledInList(out, bubble); }
  }
}
