/**
 * The autosave protocol of lib/assignment-drafts.ts as a step system: the draft row and the submissions of one student
 * and one assignment, any number of tabs (components/assignments/submit-form.tsx), and the requests between them, whose
 * answers can be lost or late. A read may show any earlier state of the row beside any earlier state of the submission:
 * a page out of the router cache, or two queries answered at different moments.
 */
module DraftProtocol {
  import opened Options
  import opened Texts
  import opened DraftRules

  // ---------------------------------------------------------------------------------------------
  // State
  // ---------------------------------------------------------------------------------------------

  /** What one write left in the draft row; the n-th write gives it version n. `writer` is the request. */
  datatype Entry = Wrote(work: Work, at: Instant, writer: nat) | Emptied(at: Instant, writer: nat)

  /** A submission stored by the request `writer`. */
  datatype Filing = Filing(work: Work, at: Instant, writer: nat)

  datatype Kind = Saves | HandsIn(force: bool)

  /**
   * A request: the version it names and the text it carries, with what its tab had held by then and how many
   * submissions had been stored.
   */
  datatype Message = Message(kind: Kind, tab: nat, base: int, work: Work, held: set<Work>, seen: nat)

  datatype Answer = Saved(version: int) | Stale | Refused(final: bool) | HandedIn(version: int)

  datatype Reply = Reply(id: nat, answer: Answer)

  datatype Stage = Checked | InPlace | Finished

  /** A submit the server is running: `upTo` is how far it may clear, `after` the version that was newest when it checked. */
  datatype Job = Job(of: nat, upTo: int, clears: bool, stage: Stage, after: nat)

  datatype Phase = Idle | Saving(id: nat) | Submitting(id: nat, rechecked: bool)

  datatype Stopped = Running | StoppedStale | StoppedFinal

  /** A tab; `held` is every text it has shown. */
  datatype Tab = Tab(version: int, base: Work, work: Work, unconfirmed: seq<Work>, pendingSubmit: Option<Work>,
                     phase: Phase, stopped: Stopped, held: set<Work>)

  datatype State = State(row: Option<Row>, history: seq<Entry>, filed: seq<Filing>, tabs: seq<Tab>,
                         sent: seq<Message>, replies: seq<Reply>, jobs: seq<Job>)

  const INIT := State(None, [], [], [], [], [], [])

  function RowAt(history: seq<Entry>, version: nat): Option<Row>
    requires version <= |history|
  {
    if version == 0 then None else
      match history[version - 1]
      case Wrote(work, at, _) => Some(Row(work, version, at, false))
      case Emptied(at, _) => Some(Row(NOTHING, version, at, true))
  }

  function SubmissionAt(filed: seq<Filing>, count: nat): Option<Submission>
    requires count <= |filed|
  {
    if count == 0 then None else Some(Submission(filed[count - 1].work, filed[count - 1].at))
  }

  // ---------------------------------------------------------------------------------------------
  // What a tab does
  // ---------------------------------------------------------------------------------------------

  function Opened(norm: Normalizer, d: Option<Row>, s: Option<Submission>): Tab {
    var start := StartingWork(norm, s, d);
    Tab(start.version, start.work, start.work, [], None, Idle, Running, {start.work})
  }

  /** The tab takes what a read told it. */
  function Take(tab: Tab, r: Reconciled): Tab {
    match r
    case Landed(version, text) => tab.(version := version, base := text, unconfirmed := [])
    case Submitted(version) =>
      if tab.pendingSubmit.None? then tab else
        tab.(version := version, base := tab.pendingSubmit.value, unconfirmed := [], pendingSubmit := None,
             stopped := if tab.stopped == StoppedStale then Running else tab.stopped)
    case Adopt(start) =>
      tab.(version := start.version, base := start.work, work := start.work, unconfirmed := [],
           held := tab.held + {start.work})
    case Current => tab
    case Conflict(_) => tab
  }

  function Reread(norm: Normalizer, tab: Tab, d: Option<Row>, s: Option<Submission>): Reconciled {
    ReconcileDraft(norm, Local(tab.version, tab.base, tab.work, tab.unconfirmed, tab.pendingSubmit), d, s)
  }

  /** The first read of a page, which passes no pending submit. */
  function FirstRead(norm: Normalizer, tab: Tab, d: Option<Row>, s: Option<Submission>): Reconciled {
    ReconcileDraft(norm, Local(tab.version, tab.base, tab.work, tab.unconfirmed, None), d, s)
  }

  datatype Read = NoRead | Read(draft: nat, submission: nat)

  predicate Readable(s: State, read: Read) {
    read.Read? ==> read.draft <= |s.history| && read.submission <= |s.filed|
  }

  function CatchUp(norm: Normalizer, s: State, tab: Tab, read: Read, afterSubmit: bool): (Tab, Verdict)
    requires Readable(s, read)
  {
    if read.NoRead? then (tab, StaleVerdict(None, afterSubmit)) else
      var r := Reread(norm, tab, RowAt(s.history, read.draft), SubmissionAt(s.filed, read.submission));
      var verdict := StaleVerdict(Some(r), afterSubmit);
      (if verdict == Synced then Take(tab, r) else tab, verdict)
  }

  // ---------------------------------------------------------------------------------------------
  // Steps
  // ---------------------------------------------------------------------------------------------

  datatype Step =
    | Open(draft: nat, submission: nat)
    | Type(tab: nat, work: Work)
    | SendSave(tab: nat)
    | RunSave(id: nat, at: Instant)
    | RefuseSave(id: nat, final: bool)
    | SaveAnswered(tab: nat, reply: nat, read: Read)
    | SaveLost(tab: nat)
    | SendSubmit(tab: nat)
    | CheckSubmit(id: nat, drafts: bool, draft: nat, submission: nat)
    | FileSubmit(job: nat, at: Instant)
    | ClearSubmit(job: nat, at: Instant, heard: bool)
    | SkipClear(job: nat)
    | SubmitAnswered(tab: nat, reply: nat, read: Read, confirmed: bool)
    | SubmitRefused(tab: nat)
    | SubmitLost(tab: nat, read: Read)
    | PageRead(tab: nat, draft: nat, submission: nat)

  predicate Enabled(s: State, step: Step) {
    match step
    case Open(draft, submission) => draft <= |s.history| && submission <= |s.filed|
    case Type(t, _) => t < |s.tabs|
    case SendSave(t) => t < |s.tabs| && s.tabs[t].phase.Idle? && s.tabs[t].stopped.Running? && s.tabs[t].work != s.tabs[t].base
    case RunSave(id, _) => id < |s.sent| && s.sent[id].kind.Saves?
    case RefuseSave(id, _) => id < |s.sent| && s.sent[id].kind.Saves?
    case SaveAnswered(t, reply, read) =>
      t < |s.tabs| && s.tabs[t].phase.Saving? && reply < |s.replies| && s.replies[reply].id == s.tabs[t].phase.id
      && Readable(s, read)
    case SaveLost(t) => t < |s.tabs| && s.tabs[t].phase.Saving? && s.tabs[t].phase.id < |s.sent|
    case SendSubmit(t) => t < |s.tabs| && s.tabs[t].phase.Idle?
    case CheckSubmit(id, _, draft, submission) =>
      id < |s.sent| && s.sent[id].kind.HandsIn? && draft <= |s.history| && submission <= |s.filed|
    case FileSubmit(j, _) => j < |s.jobs| && s.jobs[j].stage.Checked? && s.jobs[j].of < |s.sent|
    case ClearSubmit(j, _, _) => j < |s.jobs| && s.jobs[j].stage.InPlace? && s.jobs[j].clears && s.jobs[j].of < |s.sent|
    case SkipClear(j) => j < |s.jobs| && s.jobs[j].stage.InPlace? && s.jobs[j].of < |s.sent|
    case SubmitAnswered(t, reply, read, _) =>
      t < |s.tabs| && s.tabs[t].phase.Submitting? && reply < |s.replies| && s.replies[reply].id == s.tabs[t].phase.id
      && s.tabs[t].phase.id < |s.sent| && Readable(s, read)
    case SubmitRefused(t) => t < |s.tabs| && s.tabs[t].phase.Submitting?
    case SubmitLost(t, read) => t < |s.tabs| && s.tabs[t].phase.Submitting? && s.tabs[t].phase.id < |s.sent| && Readable(s, read)
    case PageRead(t, draft, submission) =>
      t < |s.tabs| && s.tabs[t].phase.Idle? && s.tabs[t].stopped.Running? && draft <= |s.history| && submission <= |s.filed|
  }

  function WithTab(s: State, t: nat, tab: Tab): State
    requires t < |s.tabs|
  {
    s.(tabs := s.tabs[t := tab])
  }

  /** The tab sends its text: a save, or a submit. */
  function Send(s: State, t: nat, tab: Tab, kind: Kind, rechecked: bool): State
    requires t < |s.tabs|
  {
    var id := |s.sent|;
    var phase := if kind.Saves? then Saving(id) else Submitting(id, rechecked);
    s.(tabs := s.tabs[t := tab.(phase := phase)],
       sent := s.sent + [Message(kind, t, tab.version, tab.work, tab.held, |s.filed|)])
  }

  function Answering(s: State, id: nat, answer: Answer): State {
    s.(replies := s.replies + [Reply(id, answer)])
  }

  function RunSaveStep(s: State, id: nat, at: Instant): State
    requires id < |s.sent|
  {
    var m := s.sent[id];
    var written := SaveWrites(s.row, m.base, m.work, at);
    var answer := SaveAnswer(s.row, m.base, m.work, at);
    var s1 := if written.Some? then s.(row := written, history := s.history + [Wrote(m.work, at, id)]) else s;
    Answering(s1, id, if answer.Some? then Saved(answer.value) else Stale)
  }

  function SaveAnsweredStep(norm: Normalizer, s: State, t: nat, answer: Answer, read: Read): State
    requires t < |s.tabs| && s.tabs[t].phase.Saving? && Readable(s, read)
  {
    var tab := s.tabs[t].(phase := Idle);
    var id := s.tabs[t].phase.id;
    match answer
    case Saved(version) =>
      WithTab(s, t, tab.(version := version, base := if id < |s.sent| then s.sent[id].work else tab.base, unconfirmed := []))
    case Stale =>
      var (next, verdict) := CatchUp(norm, s, tab, read, false);
      WithTab(s, t, if verdict == Conflicting then next.(stopped := StoppedStale) else next)
    case Refused(final) => WithTab(s, t, if final then tab.(stopped := StoppedFinal) else tab)
    case HandedIn(_) => WithTab(s, t, tab)
  }

  function CheckSubmitStep(norm: Normalizer, s: State, id: nat, drafts: bool, draft: nat, submission: nat): State
    requires id < |s.sent| && s.sent[id].kind.HandsIn? && draft <= |s.history| && submission <= |s.filed|
  {
    var m := s.sent[id];
    var d := RowAt(s.history, draft);
    var check := SubmitConflict(norm, if drafts then Some(m.base) else None, d, SubmissionAt(s.filed, submission),
                                Stored(norm, m.work), m.kind.force);
    if check.stale then Answering(s, id, Stale)
    else s.(jobs := s.jobs + [Job(id, check.upTo, drafts && d.Some?, Checked, |s.history|)])
  }

  function FileSubmitStep(norm: Normalizer, s: State, j: nat, at: Instant): State
    requires j < |s.jobs| && s.jobs[j].of < |s.sent|
  {
    s.(filed := s.filed + [Filing(Stored(norm, s.sent[s.jobs[j].of].work), at, s.jobs[j].of)],
       jobs := s.jobs[j := s.jobs[j].(stage := InPlace)])
  }

  /** The submit clears the draft and answers; `heard` is false when the clear ran but its own answer was lost. */
  function ClearSubmitStep(s: State, j: nat, at: Instant, heard: bool): State
    requires j < |s.jobs| && s.jobs[j].of < |s.sent|
  {
    var id := s.jobs[j].of;
    var written := ClearWrites(s.row, s.jobs[j].upTo, at);
    var answer := ClearAnswer(s.row, s.jobs[j].upTo, at);
    var s1 := if written.Some? then s.(row := written, history := s.history + [Emptied(at, id)]) else s;
    var s2 := s1.(jobs := s.jobs[j := s.jobs[j].(stage := Finished)]);
    Answering(s2, id, HandedIn(if heard && answer.Some? then answer.value else s.sent[id].base))
  }

  function SkipClearStep(s: State, j: nat): State
    requires j < |s.jobs| && s.jobs[j].of < |s.sent|
  {
    var id := s.jobs[j].of;
    Answering(s.(jobs := s.jobs[j := s.jobs[j].(stage := Finished)]), id, HandedIn(s.sent[id].base))
  }

  function SubmitAnsweredStep(norm: Normalizer, s: State, t: nat, answer: Answer, read: Read, confirmed: bool): State
    requires t < |s.tabs| && s.tabs[t].phase.Submitting? && s.tabs[t].phase.id < |s.sent| && Readable(s, read)
  {
    var tab := s.tabs[t].(phase := Idle);
    var m := s.sent[s.tabs[t].phase.id];
    var rechecked := s.tabs[t].phase.rechecked;
    var forced := m.kind.HandsIn? && m.kind.force;
    match answer
    case HandedIn(version) =>
      WithTab(s, t, tab.(version := version, base := m.work, unconfirmed := [], pendingSubmit := None,
                         stopped := if tab.stopped == StoppedStale then Running else tab.stopped))
    case Stale =>
      var (next, verdict) := if forced || rechecked then (tab, Conflicting) else CatchUp(norm, s, tab, read, true);
      if verdict == Synced then Send(s, t, next, HandsIn(false), true)
      else if !forced && confirmed then Send(s, t, next, HandsIn(true), true)
      else WithTab(s, t, next.(stopped := StoppedStale))
    case Saved(_) => WithTab(s, t, tab)
    case Refused(_) => WithTab(s, t, tab)
  }

  function SubmitLostStep(norm: Normalizer, s: State, t: nat, read: Read): State
    requires t < |s.tabs| && s.tabs[t].phase.Submitting? && s.tabs[t].phase.id < |s.sent| && Readable(s, read)
  {
    var tab := s.tabs[t].(phase := Idle, pendingSubmit := Some(s.sent[s.tabs[t].phase.id].work));
    WithTab(s, t, CatchUp(norm, s, tab, read, true).0)
  }

  function PageReadStep(norm: Normalizer, s: State, t: nat, draft: nat, submission: nat): State
    requires t < |s.tabs| && draft <= |s.history| && submission <= |s.filed|
  {
    var r := FirstRead(norm, s.tabs[t], RowAt(s.history, draft), SubmissionAt(s.filed, submission));
    if r.Adopt? || r.Landed? then WithTab(s, t, Take(s.tabs[t], r)) else s
  }

  function Apply(norm: Normalizer, s: State, step: Step): State
    requires Enabled(s, step)
  {
    match step
    case Open(draft, submission) =>
      s.(tabs := s.tabs + [Opened(norm, RowAt(s.history, draft), SubmissionAt(s.filed, submission))])
    case Type(t, work) => WithTab(s, t, s.tabs[t].(work := work, held := s.tabs[t].held + {work}))
    case SendSave(t) => Send(s, t, s.tabs[t], Saves, false)
    case RunSave(id, at) => RunSaveStep(s, id, at)
    case RefuseSave(id, final) => Answering(s, id, Refused(final))
    case SaveAnswered(t, reply, read) => SaveAnsweredStep(norm, s, t, s.replies[reply].answer, read)
    case SaveLost(t) =>
      var tab := s.tabs[t];
      WithTab(s, t, tab.(phase := Idle, unconfirmed := WithUnconfirmed(tab.unconfirmed, s.sent[tab.phase.id].work)))
    case SendSubmit(t) => Send(s, t, s.tabs[t], HandsIn(s.tabs[t].stopped == StoppedStale), false)
    case CheckSubmit(id, drafts, draft, submission) => CheckSubmitStep(norm, s, id, drafts, draft, submission)
    case FileSubmit(j, at) => FileSubmitStep(norm, s, j, at)
    case ClearSubmit(j, at, heard) => ClearSubmitStep(s, j, at, heard)
    case SkipClear(j) => SkipClearStep(s, j)
    case SubmitAnswered(t, reply, read, confirmed) =>
      SubmitAnsweredStep(norm, s, t, s.replies[reply].answer, read, confirmed)
    case SubmitRefused(t) => WithTab(s, t, s.tabs[t].(phase := Idle))
    case SubmitLost(t, read) => SubmitLostStep(norm, s, t, read)
    case PageRead(t, draft, submission) => PageReadStep(norm, s, t, draft, submission)
  }

  /** The state after a run from the start; None when some step of it could not be taken. */
  ghost function Run(norm: Normalizer, steps: seq<Step>): Option<State> {
    if steps == [] then Some(INIT) else
      var before := Run(norm, steps[..|steps| - 1]);
      if before.Some? && Enabled(before.value, steps[|steps| - 1])
      then Some(Apply(norm, before.value, steps[|steps| - 1]))
      else None
  }

  // ---------------------------------------------------------------------------------------------
  // The invariant
  // ---------------------------------------------------------------------------------------------

  /** Some stored submission is no older than `at`. */
  ghost predicate Overtaken(filed: seq<Filing>, at: Instant) {
    exists k: nat :: k < |filed| && OvertakenBy(at, filed[k].at)
  }

  /** Whoever builds on this entry loses no text it does not know: it is empty, held already, or overtaken. */
  ghost predicate EntryKnown(e: Entry, filed: seq<Filing>, held: set<Work>) {
    e.Wrote? ==> e.work in held || Overtaken(filed, e.at)
  }

  ghost predicate Known(history: seq<Entry>, filed: seq<Filing>, held: set<Work>, version: int) {
    0 <= version <= |history| && (version > 0 ==> EntryKnown(history[version - 1], filed, held))
  }

  /** The tab sent it over the version it still holds. */
  ghost predicate SentBy(m: Message, t: nat, tab: Tab) { m.tab == t && m.base == tab.version && m.work in tab.held }

  ghost predicate PhaseFits(sent: seq<Message>, t: nat, tab: Tab) {
    match tab.phase
    case Idle => true
    case Saving(id) => id < |sent| && sent[id].kind.Saves? && SentBy(sent[id], t, tab)
    case Submitting(id, _) => id < |sent| && sent[id].kind.HandsIn? && SentBy(sent[id], t, tab)
  }

  ghost predicate TabFits(s: State, t: nat, tab: Tab) {
    && Known(s.history, s.filed, tab.held, tab.version)
    && tab.base in tab.held && tab.work in tab.held
    && (forall w :: w in tab.unconfirmed ==> w in tab.held)
    && (tab.pendingSubmit.Some? ==> tab.pendingSubmit.value in tab.held)
    && PhaseFits(s.sent, t, tab)
  }

  ghost predicate MessageFits(s: State, m: Message) {
    && m.tab < |s.tabs| && m.seen <= |s.filed|
    && Known(s.history, s.filed[..m.seen], m.held, m.base)
  }

  ghost predicate ReplyFits(s: State, r: Reply) {
    && r.id < |s.sent|
    && (r.answer.Refused? ==> s.sent[r.id].kind.Saves?)
    && (r.answer.Saved? ==>
          && s.sent[r.id].kind.Saves? && 0 < r.answer.version <= |s.history| && s.sent[r.id].base < r.answer.version
          && s.history[r.answer.version - 1].Wrote? && s.history[r.answer.version - 1].work == s.sent[r.id].work)
    && (r.answer.HandedIn? ==>
          && s.sent[r.id].kind.HandsIn?
          && (|| r.answer.version == s.sent[r.id].base
              || (s.sent[r.id].base <= r.answer.version && 0 < r.answer.version <= |s.history|
                  && s.history[r.answer.version - 1].Emptied?)))
  }

  /** What an unforced submit may clear: the version its tab named, or one that says what it hands in. */
  ghost predicate Accounted(norm: Normalizer, history: seq<Entry>, m: Message, upTo: int) {
    || upTo <= m.base
    || (0 < upTo <= |history|
        && (history[upTo - 1].Wrote? ==> SameWork(norm, Stored(norm, m.work), Some(history[upTo - 1].work))))
  }

  ghost predicate JobFits(norm: Normalizer, s: State, j: Job) {
    && j.of < |s.sent| && s.sent[j.of].kind.HandsIn?
    && j.after <= |s.history| && j.upTo <= j.after
    && (s.sent[j.of].kind.force || Accounted(norm, s.history, s.sent[j.of], j.upTo))
  }

  /** An entry was written by a request of the right kind; a save's is the one after the version it named. */
  ghost predicate EntryFits(sent: seq<Message>, v: nat, e: Entry) {
    && e.writer < |sent|
    && (if e.Wrote? then sent[e.writer].kind.Saves? && sent[e.writer].base == v && sent[e.writer].work == e.work
        else sent[e.writer].kind.HandsIn?)
  }

  /** Some submit the server ran was this request. */
  ghost predicate HasJob(jobs: seq<Job>, id: nat) { exists j: nat :: j < |jobs| && jobs[j].of == id }

  ghost predicate FilingFits(norm: Normalizer, s: State, f: Filing) {
    f.writer < |s.sent| && f.work == Stored(norm, s.sent[f.writer].work) && HasJob(s.jobs, f.writer)
  }

  ghost predicate RowFits(s: State) {
    && s.row == RowAt(s.history, |s.history|)
    && (forall v: nat :: v < |s.history| ==> EntryFits(s.sent, v, s.history[v]))
  }

  ghost predicate TabsFit(s: State) { forall t: nat :: t < |s.tabs| ==> TabFits(s, t, s.tabs[t]) }

  ghost predicate MessagesFit(s: State) { forall i: nat :: i < |s.sent| ==> MessageFits(s, s.sent[i]) }

  ghost predicate RepliesFit(s: State) { forall i: nat :: i < |s.replies| ==> ReplyFits(s, s.replies[i]) }

  ghost predicate JobsFit(norm: Normalizer, s: State) { forall j: nat :: j < |s.jobs| ==> JobFits(norm, s, s.jobs[j]) }

  ghost predicate FilingsFit(norm: Normalizer, s: State) { forall k: nat :: k < |s.filed| ==> FilingFits(norm, s, s.filed[k]) }

  /** No answer to this request has been given yet. */
  ghost predicate Unanswered(replies: seq<Reply>, id: nat) { forall r: nat :: r < |replies| ==> replies[r].id != id }

  /** A save that wrote was answered. */
  ghost predicate WritesAnswered(s: State) {
    forall v: nat :: v < |s.history| && s.history[v].Wrote? ==> !Unanswered(s.replies, s.history[v].writer)
  }

  ghost predicate Inv(norm: Normalizer, s: State) {
    && RowFits(s) && TabsFit(s) && MessagesFit(s) && RepliesFit(s) && JobsFit(norm, s) && FilingsFit(norm, s)
    && WritesAnswered(s)
  }

  // ---------------------------------------------------------------------------------------------
  // Everything the invariant says stays true as the logs grow
  // ---------------------------------------------------------------------------------------------

  ghost predicate Grows(s: State, next: State) {
    && s.history <= next.history && s.filed <= next.filed && s.sent <= next.sent && s.replies <= next.replies
    && |s.tabs| <= |next.tabs| && |s.jobs| <= |next.jobs|
    && forall j: nat :: j < |s.jobs| ==> next.jobs[j].of == s.jobs[j].of
  }

  lemma KnownGrows(history: seq<Entry>, more: seq<Entry>, filed: seq<Filing>, later: seq<Filing>, held: set<Work>, v: int)
    requires history <= more && filed <= later && Known(history, filed, held, v)
    ensures Known(more, later, held, v)
  {
    if v > 0 && history[v - 1].Wrote? && history[v - 1].work !in held {
      var k: nat :| k < |filed| && OvertakenBy(history[v - 1].at, filed[k].at);
      assert k < |later| && OvertakenBy(history[v - 1].at, later[k].at);
    }
  }

  lemma TabGrows(s: State, next: State, t: nat, tab: Tab)
    requires Grows(s, next) && TabFits(s, t, tab)
    ensures TabFits(next, t, tab)
  {
    KnownGrows(s.history, next.history, s.filed, next.filed, tab.held, tab.version);
  }

  lemma MessageGrows(s: State, next: State, m: Message)
    requires Grows(s, next) && MessageFits(s, m)
    ensures MessageFits(next, m)
  {
    assert s.filed[..m.seen] == next.filed[..m.seen];
    KnownGrows(s.history, next.history, s.filed[..m.seen], next.filed[..m.seen], m.held, m.base);
  }

  lemma ReplyGrows(s: State, next: State, r: Reply)
    requires Grows(s, next) && ReplyFits(s, r)
    ensures ReplyFits(next, r)
  {}

  lemma JobGrows(norm: Normalizer, s: State, next: State, j: Job)
    requires Grows(s, next) && JobFits(norm, s, j)
    ensures JobFits(norm, next, j)
  {}

  lemma FilingGrows(norm: Normalizer, s: State, next: State, f: Filing)
    requires Grows(s, next) && FilingFits(norm, s, f)
    ensures FilingFits(norm, next, f)
  {
    var j: nat :| j < |s.jobs| && s.jobs[j].of == f.writer;
    assert next.jobs[j].of == f.writer;
  }

  lemma AnswersStay(s: State, next: State)
    requires WritesAnswered(s) && Grows(s, next)
    requires forall v: nat :: |s.history| <= v < |next.history| && next.history[v].Wrote? ==>
               !Unanswered(next.replies, next.history[v].writer)
    ensures WritesAnswered(next)
  {
    forall v: nat | v < |next.history| && next.history[v].Wrote? ensures !Unanswered(next.replies, next.history[v].writer) {
      if v < |s.history| {
        var r: nat :| r < |s.replies| && s.replies[r].id == s.history[v].writer;
        assert next.replies[r].id == s.history[v].writer;
      }
    }
  }

  /** A step keeps the invariant when the logs only grow and whatever it changed or added fits. */
  lemma InvExtends(norm: Normalizer, s: State, next: State)
    requires Inv(norm, s) && Grows(s, next) && RowFits(next)
    requires forall t: nat :: t < |next.tabs| ==> (t < |s.tabs| && next.tabs[t] == s.tabs[t]) || TabFits(next, t, next.tabs[t])
    requires forall i: nat :: i < |next.sent| ==> i < |s.sent| || MessageFits(next, next.sent[i])
    requires forall i: nat :: i < |next.replies| ==>
               (i < |s.replies| && next.replies[i] == s.replies[i]) || ReplyFits(next, next.replies[i])
    requires forall j: nat :: j < |next.jobs| ==> (j < |s.jobs| && next.jobs[j] == s.jobs[j]) || JobFits(norm, next, next.jobs[j])
    requires forall k: nat :: k < |next.filed| ==> k < |s.filed| || FilingFits(norm, next, next.filed[k])
    requires forall v: nat :: |s.history| <= v < |next.history| && next.history[v].Wrote? ==>
               !Unanswered(next.replies, next.history[v].writer)
    ensures Inv(norm, next)
  {
    AnswersStay(s, next);
    hide RowFits, TabFits, MessageFits, ReplyFits, JobFits, FilingFits, WritesAnswered;
    forall k: nat | k < |next.filed| ensures FilingFits(norm, next, next.filed[k]) {
      if k < |s.filed| { FilingGrows(norm, s, next, s.filed[k]); }
    }
    forall t: nat | t < |next.tabs| ensures TabFits(next, t, next.tabs[t]) {
      if t < |s.tabs| && next.tabs[t] == s.tabs[t] { TabGrows(s, next, t, s.tabs[t]); }
    }
    forall i: nat | i < |next.sent| ensures MessageFits(next, next.sent[i]) {
      if i < |s.sent| { MessageGrows(s, next, s.sent[i]); }
    }
    forall i: nat | i < |next.replies| ensures ReplyFits(next, next.replies[i]) {
      if i < |s.replies| && next.replies[i] == s.replies[i] { ReplyGrows(s, next, s.replies[i]); }
    }
    forall j: nat | j < |next.jobs| ensures JobFits(norm, next, next.jobs[j]) {
      if j < |s.jobs| && next.jobs[j] == s.jobs[j] { JobGrows(norm, s, next, s.jobs[j]); }
    }
  }

  lemma RowStays(s: State, next: State)
    requires RowFits(s) && next.row == s.row && next.history == s.history && s.sent <= next.sent
    ensures RowFits(next)
  {}

  lemma TabChanges(norm: Normalizer, s: State, t: nat, tab: Tab)
    requires Inv(norm, s) && t < |s.tabs| && TabFits(s, t, tab)
    ensures Inv(norm, WithTab(s, t, tab))
  {
    hide RowFits, TabFits, MessageFits, ReplyFits, JobFits, FilingFits, WritesAnswered;
    var next := WithTab(s, t, tab);
    RowStays(s, next);
    TabGrows(s, next, t, tab);
    InvExtends(norm, s, next);
  }

  lemma SentFits(s: State, t: nat, tab: Tab, kind: Kind, rechecked: bool)
    requires t < |s.tabs| && TabFits(s, t, tab)
    ensures var next := Send(s, t, tab, kind, rechecked);
            TabFits(next, t, next.tabs[t]) && MessageFits(next, next.sent[|s.sent|])
  {
    var next := Send(s, t, tab, kind, rechecked);
    TabGrows(s, next, t, tab);
    assert next.filed[..|s.filed|] == s.filed;
  }

  lemma SendKeeps(norm: Normalizer, s: State, t: nat, tab: Tab, kind: Kind, rechecked: bool)
    requires Inv(norm, s) && t < |s.tabs| && TabFits(s, t, tab)
    ensures Inv(norm, Send(s, t, tab, kind, rechecked))
  {
    var next := Send(s, t, tab, kind, rechecked);
    SentFits(s, t, tab, kind, rechecked);
    hide RowFits, TabFits, MessageFits, ReplyFits, JobFits, FilingFits, WritesAnswered;
    RowStays(s, next);
    InvExtends(norm, s, next);
  }

  lemma RefusedKeeps(norm: Normalizer, s: State, id: nat, final: bool)
    requires Inv(norm, s) && id < |s.sent| && s.sent[id].kind.Saves?
    ensures Inv(norm, Answering(s, id, Refused(final)))
  {
    var next := Answering(s, id, Refused(final));
    assert ReplyFits(next, next.replies[|s.replies|]);
    hide RowFits, TabFits, MessageFits, ReplyFits, JobFits, FilingFits, WritesAnswered;
    RowStays(s, next);
    InvExtends(norm, s, next);
  }

  // ---------------------------------------------------------------------------------------------
  // Each step keeps it
  // ---------------------------------------------------------------------------------------------

  lemma OpenedFits(norm: Normalizer, s: State, draft: nat, submission: nat, t: nat)
    requires draft <= |s.history| && submission <= |s.filed|
    ensures TabFits(s, t, Opened(norm, RowAt(s.history, draft), SubmissionAt(s.filed, submission)))
  {
    StartKnown(norm, s.history, s.filed, draft, submission, {});
  }

  /** What a form opens with accounts for the row it was opened on. */
  lemma StartKnown(norm: Normalizer, history: seq<Entry>, filed: seq<Filing>, draft: nat, submission: nat, held: set<Work>)
    requires draft <= |history| && submission <= |filed|
    ensures var start := StartingWork(norm, SubmissionAt(filed, submission), RowAt(history, draft));
            start.version == draft && Known(history, filed, held + {start.work}, draft)
  {
    hide SameWork;
    if draft > 0 && history[draft - 1].Wrote? && submission > 0 && OvertakenBy(history[draft - 1].at, filed[submission - 1].at) {
      assert Overtaken(filed, history[draft - 1].at);
    }
  }

  /** Whatever a read tells a tab, taking it leaves the tab knowing the version it names. */
  lemma TakeFits(norm: Normalizer, s: State, t: nat, tab: Tab, pending: bool, draft: nat, submission: nat)
    requires TabFits(s, t, tab) && draft <= |s.history| && submission <= |s.filed| && tab.phase.Idle?
    ensures var d, sub := RowAt(s.history, draft), SubmissionAt(s.filed, submission);
            TabFits(s, t, Take(tab, if pending then Reread(norm, tab, d, sub) else FirstRead(norm, tab, d, sub)))
  {
    hide SameWork, StartingWork;
    var d, sub := RowAt(s.history, draft), SubmissionAt(s.filed, submission);
    var r := if pending then Reread(norm, tab, d, sub) else FirstRead(norm, tab, d, sub);
    StartKnown(norm, s.history, s.filed, draft, submission, tab.held);
    if r.Adopt? {
      var start := r.start;
      assert start == StartingWork(norm, sub, d);
      assert start.version == draft;
    }
  }

  lemma CatchUpFits(norm: Normalizer, s: State, t: nat, tab: Tab, read: Read, afterSubmit: bool)
    requires TabFits(s, t, tab) && Readable(s, read) && tab.phase.Idle?
    ensures TabFits(s, t, CatchUp(norm, s, tab, read, afterSubmit).0)
  {
    hide TabFits, StaleVerdict, Take, Reread;
    if read.Read? { TakeFits(norm, s, t, tab, true, read.draft, read.submission); }
  }

  lemma RunSaveKeeps(norm: Normalizer, s: State, id: nat, at: Instant)
    requires Inv(norm, s) && id < |s.sent| && s.sent[id].kind.Saves?
    ensures Inv(norm, RunSaveStep(s, id, at))
  {
    var next := RunSaveStep(s, id, at);
    assert MessageFits(s, s.sent[id]);
    assert RowFits(next) && ReplyFits(next, next.replies[|s.replies|]) by { SaveRow(s, id, at); }
    assert next.replies[|s.replies|].id == id;
    hide RowFits, TabFits, MessageFits, ReplyFits, JobFits, FilingFits, WritesAnswered;
    InvExtends(norm, s, next);
  }

  /** A save writes exactly when its version is the newest one; either way its answer names a version holding its text. */
  lemma SaveRow(s: State, id: nat, at: Instant)
    requires RowFits(s) && id < |s.sent| && s.sent[id].kind.Saves? && 0 <= s.sent[id].base <= |s.history|
    ensures var next := RunSaveStep(s, id, at);
            && RowFits(next) && ReplyFits(next, next.replies[|s.replies|])
            && next.history
               == (if s.sent[id].base == |s.history| then s.history + [Wrote(s.sent[id].work, at, id)] else s.history)
  {
    var next := RunSaveStep(s, id, at);
    assert RowFits(next);
  }

  /** What a submit that is let through may clear: a version it named, or one it found that says what it hands in. */
  lemma CheckAccounts(norm: Normalizer, history: seq<Entry>, m: Message, drafts: bool, draft: nat,
                      sub: Option<Submission>, force: bool)
    requires 0 <= m.base <= |history| && draft <= |history|
    ensures var d := RowAt(history, draft);
            var check := SubmitConflict(norm, if drafts then Some(m.base) else None, d, sub, Stored(norm, m.work), force);
            !check.stale ==> check.upTo <= |history| && (force || Accounted(norm, history, m, check.upTo))
  {
    hide SameWork, Stored;
    var d := RowAt(history, draft);
    assert d.Some? ==> d.value.version == draft;
    if draft > 0 && history[draft - 1].Wrote? { assert d.value.work == history[draft - 1].work && !d.value.cleared; }
  }

  lemma CheckedFits(norm: Normalizer, s: State, id: nat, drafts: bool, draft: nat, submission: nat)
    requires MessagesFit(s) && id < |s.sent| && s.sent[id].kind.HandsIn? && draft <= |s.history| && submission <= |s.filed|
    ensures var next := CheckSubmitStep(norm, s, id, drafts, draft, submission);
            && (|next.replies| > |s.replies| ==> ReplyFits(next, next.replies[|s.replies|]))
            && (|next.jobs| > |s.jobs| ==> JobFits(norm, next, next.jobs[|s.jobs|]))
  {
    var m := s.sent[id];
    assert 0 <= m.base <= |s.history| by { assert MessageFits(s, m); }
    hide MessagesFit, MessageFits, SameWork, Stored, SubmitConflict, RowAt, SubmissionAt, Accounted;
    CheckAccounts(norm, s.history, m, drafts, draft, SubmissionAt(s.filed, submission), m.kind.force);
  }

  lemma CheckSubmitKeeps(norm: Normalizer, s: State, id: nat, drafts: bool, draft: nat, submission: nat)
    requires Inv(norm, s) && id < |s.sent| && s.sent[id].kind.HandsIn? && draft <= |s.history| && submission <= |s.filed|
    ensures Inv(norm, CheckSubmitStep(norm, s, id, drafts, draft, submission))
  {
    var next := CheckSubmitStep(norm, s, id, drafts, draft, submission);
    CheckedFits(norm, s, id, drafts, draft, submission);
    hide RowFits, TabFits, MessageFits, ReplyFits, JobFits, FilingFits, WritesAnswered;
    RowStays(s, next);
    InvExtends(norm, s, next);
  }

  lemma FileSubmitKeeps(norm: Normalizer, s: State, j: nat, at: Instant)
    requires Inv(norm, s) && j < |s.jobs| && s.jobs[j].of < |s.sent|
    ensures Inv(norm, FileSubmitStep(norm, s, j, at))
  {
    hide Accounted;
    var next := FileSubmitStep(norm, s, j, at);
    JobGrows(norm, s, next, s.jobs[j]);
    assert JobFits(norm, next, next.jobs[j]);
    assert next.jobs[j].of == next.filed[|s.filed|].writer;
    assert FilingFits(norm, next, next.filed[|s.filed|]);
    hide RowFits, TabFits, MessageFits, ReplyFits, JobFits, FilingFits, WritesAnswered;
    RowStays(s, next);
    InvExtends(norm, s, next);
  }

  lemma ClearSubmitKeeps(norm: Normalizer, s: State, j: nat, at: Instant, heard: bool)
    requires Inv(norm, s) && j < |s.jobs| && s.jobs[j].of < |s.sent|
    ensures Inv(norm, ClearSubmitStep(s, j, at, heard))
  {
    hide Accounted;
    var next := ClearSubmitStep(s, j, at, heard);
    assert JobFits(norm, s, s.jobs[j]) && MessageFits(s, s.sent[s.jobs[j].of]);
    ClearRow(s, j, at, heard);
    JobGrows(norm, s, next, s.jobs[j]);
    assert JobFits(norm, next, next.jobs[j]);
    hide RowFits, TabFits, MessageFits, ReplyFits, JobFits, FilingFits, WritesAnswered;
    InvExtends(norm, s, next);
  }

  /** A clear empties the row exactly when it holds a draft no newer than it may clear. */
  lemma ClearRow(s: State, j: nat, at: Instant, heard: bool)
    requires RowFits(s) && j < |s.jobs| && s.jobs[j].of < |s.sent|
    requires s.sent[s.jobs[j].of].kind.HandsIn? && 0 <= s.sent[s.jobs[j].of].base <= |s.history|
    ensures var next := ClearSubmitStep(s, j, at, heard);
            && RowFits(next) && ReplyFits(next, next.replies[|s.replies|])
            && next.history == (if s.history != [] && s.history[|s.history| - 1].Wrote? && |s.history| <= s.jobs[j].upTo
                                then s.history + [Emptied(at, s.jobs[j].of)] else s.history)
  {
    var next := ClearSubmitStep(s, j, at, heard);
    assert RowFits(next);
    assert ReplyFits(next, next.replies[|s.replies|]);
  }

  lemma SkipClearKeeps(norm: Normalizer, s: State, j: nat)
    requires Inv(norm, s) && j < |s.jobs| && s.jobs[j].of < |s.sent|
    ensures Inv(norm, SkipClearStep(s, j))
  {
    hide Accounted;
    var next := SkipClearStep(s, j);
    assert JobFits(norm, s, s.jobs[j]);
    JobGrows(norm, s, next, s.jobs[j]);
    assert JobFits(norm, next, next.jobs[j]) && ReplyFits(next, next.replies[|s.replies|]);
    hide RowFits, TabFits, MessageFits, ReplyFits, JobFits, FilingFits, WritesAnswered;
    RowStays(s, next);
    InvExtends(norm, s, next);
  }

  /** An answer's version is one its tab knows: the save's own text, an emptied row, or the version the submit named. */
  lemma AnswerFits(s: State, t: nat, tab: Tab, r: Reply, stopped: Stopped, pending: Option<Work>)
    requires TabFits(s, t, tab) && !tab.phase.Idle? && ReplyFits(s, r) && r.id == tab.phase.id
    requires r.answer.Saved? || r.answer.HandedIn?
    requires pending == None || pending == tab.pendingSubmit
    ensures r.id < |s.sent|
    ensures TabFits(s, t, tab.(version := r.answer.version, base := s.sent[r.id].work, unconfirmed := [],
                               pendingSubmit := pending,
                               stopped := stopped, phase := Idle))
  {
    hide Overtaken;
  }

  lemma IdleFits(s: State, t: nat, tab: Tab, stopped: Stopped)
    requires TabFits(s, t, tab)
    ensures TabFits(s, t, tab.(phase := Idle)) && TabFits(s, t, tab.(phase := Idle, stopped := stopped))
  {}

  lemma SaveAnsweredKeeps(norm: Normalizer, s: State, t: nat, reply: nat, read: Read)
    requires Inv(norm, s) && Enabled(s, SaveAnswered(t, reply, read))
    ensures Inv(norm, SaveAnsweredStep(norm, s, t, s.replies[reply].answer, read))
  {
    assert TabFits(s, t, s.tabs[t]) && ReplyFits(s, s.replies[reply]);
    hide Inv, TabFits, ReplyFits, CatchUp;
    var tab, answer := s.tabs[t].(phase := Idle), s.replies[reply].answer;
    IdleFits(s, t, s.tabs[t], StoppedFinal);
    CatchUpFits(norm, s, t, tab, read, false);
    var caught := CatchUp(norm, s, tab, read, false).0;
    StopFits(s, t, caught);
    if answer.Saved? { AnswerFits(s, t, s.tabs[t], s.replies[reply], tab.stopped, tab.pendingSubmit); }
    TabChanges(norm, s, t, SaveAnsweredStep(norm, s, t, answer, read).tabs[t]);
  }

  lemma HandedInKeeps(norm: Normalizer, s: State, t: nat, reply: nat, read: Read, confirmed: bool)
    requires Inv(norm, s) && Enabled(s, SubmitAnswered(t, reply, read, confirmed)) && s.replies[reply].answer.HandedIn?
    ensures Inv(norm, SubmitAnsweredStep(norm, s, t, s.replies[reply].answer, read, confirmed))
  {
    assert TabFits(s, t, s.tabs[t]) && ReplyFits(s, s.replies[reply]);
    hide Inv, TabFits, ReplyFits;
    var tab, answer := s.tabs[t], s.replies[reply].answer;
    AnswerFits(s, t, tab, s.replies[reply], if tab.stopped == StoppedStale then Running else tab.stopped, None);
    TabChanges(norm, s, t, SubmitAnsweredStep(norm, s, t, answer, read, confirmed).tabs[t]);
  }

  /** Told "stale", a submit is sent again, or the tab stops. */
  lemma StaleSubmitGoes(norm: Normalizer, s: State, t: nat, read: Read, confirmed: bool)
    requires t < |s.tabs| && s.tabs[t].phase.Submitting? && s.tabs[t].phase.id < |s.sent| && Readable(s, read)
    ensures var tab := s.tabs[t].(phase := Idle);
            var caught := CatchUp(norm, s, tab, read, true).0;
            var next := SubmitAnsweredStep(norm, s, t, Stale, read, confirmed);
            || next == Send(s, t, caught, HandsIn(false), true) || next == Send(s, t, caught, HandsIn(true), true)
            || next == Send(s, t, tab, HandsIn(true), true)
            || next == WithTab(s, t, tab.(stopped := StoppedStale)) || next == WithTab(s, t, caught.(stopped := StoppedStale))
  {
    hide CatchUp, Send, WithTab;
  }

  lemma SubmitAnsweredKeeps(norm: Normalizer, s: State, t: nat, reply: nat, read: Read, confirmed: bool)
    requires Inv(norm, s) && Enabled(s, SubmitAnswered(t, reply, read, confirmed))
    ensures Inv(norm, SubmitAnsweredStep(norm, s, t, s.replies[reply].answer, read, confirmed))
  {
    assert TabFits(s, t, s.tabs[t]);
    hide Inv, TabFits, CatchUp, Send;
    var tab := s.tabs[t].(phase := Idle);
    IdleFits(s, t, s.tabs[t], StoppedStale);
    if s.replies[reply].answer.HandedIn? {
      HandedInKeeps(norm, s, t, reply, read, confirmed);
    } else if s.replies[reply].answer.Stale? {
      CatchUpFits(norm, s, t, tab, read, true);
      StaleSubmitGoes(norm, s, t, read, confirmed);
      hide SubmitAnsweredStep;
      var caught := CatchUp(norm, s, tab, read, true).0;
      StopFits(s, t, caught);
      StaleSubmitKeeps(norm, s, t, tab, caught);
    } else {
      TabChanges(norm, s, t, tab);
    }
  }

  /** Whichever way a stale submit goes on, the invariant holds. */
  lemma StaleSubmitKeeps(norm: Normalizer, s: State, t: nat, tab: Tab, caught: Tab)
    requires Inv(norm, s) && t < |s.tabs| && TabFits(s, t, tab) && TabFits(s, t, caught)
    requires TabFits(s, t, tab.(stopped := StoppedStale)) && TabFits(s, t, caught.(stopped := StoppedStale))
    ensures Inv(norm, Send(s, t, caught, HandsIn(false), true)) && Inv(norm, Send(s, t, caught, HandsIn(true), true))
    ensures Inv(norm, Send(s, t, tab, HandsIn(true), true))
    ensures Inv(norm, WithTab(s, t, tab.(stopped := StoppedStale))) && Inv(norm, WithTab(s, t, caught.(stopped := StoppedStale)))
  {
    hide Inv, TabFits, Send, WithTab;
    SendKeeps(norm, s, t, caught, HandsIn(false), true);
    SendKeeps(norm, s, t, caught, HandsIn(true), true);
    SendKeeps(norm, s, t, tab, HandsIn(true), true);
    TabChanges(norm, s, t, tab.(stopped := StoppedStale));
    TabChanges(norm, s, t, caught.(stopped := StoppedStale));
  }

  lemma StopFits(s: State, t: nat, tab: Tab)
    requires TabFits(s, t, tab)
    ensures TabFits(s, t, tab.(stopped := StoppedStale))
  {}

  lemma SubmitLostKeeps(norm: Normalizer, s: State, t: nat, read: Read)
    requires Inv(norm, s) && Enabled(s, SubmitLost(t, read))
    ensures Inv(norm, SubmitLostStep(norm, s, t, read))
  {
    assert TabFits(s, t, s.tabs[t]);
    var tab := s.tabs[t].(phase := Idle, pendingSubmit := Some(s.sent[s.tabs[t].phase.id].work));
    assert TabFits(s, t, tab);
    hide RowFits, TabFits, MessageFits, ReplyFits, JobFits, FilingFits, WritesAnswered, CatchUp;
    CatchUpFits(norm, s, t, tab, read, true);
    TabChanges(norm, s, t, CatchUp(norm, s, tab, read, true).0);
  }

  lemma TabOnlyKeeps(norm: Normalizer, s: State, step: Step)
    requires Inv(norm, s) && Enabled(s, step) && (step.Type? || step.SaveLost? || step.SubmitRefused?)
    ensures Inv(norm, Apply(norm, s, step))
  {
    var t := step.tab;
    assert TabFits(s, t, s.tabs[t]);
    var tab := Apply(norm, s, step).tabs[t];
    HoldingMore(s.history, s.filed, s.tabs[t].held, tab.held, tab.version);
    assert TabFits(s, t, tab);
    hide RowFits, TabFits, MessageFits, ReplyFits, JobFits, FilingFits, WritesAnswered;
    TabChanges(norm, s, t, tab);
  }

  lemma PageReadKeeps(norm: Normalizer, s: State, t: nat, draft: nat, submission: nat)
    requires Inv(norm, s) && Enabled(s, PageRead(t, draft, submission))
    ensures Inv(norm, PageReadStep(norm, s, t, draft, submission))
  {
    hide RowFits, TabFits, MessageFits, ReplyFits, JobFits, FilingFits, WritesAnswered, Take, FirstRead;
    assert TabFits(s, t, s.tabs[t]);
    TakeFits(norm, s, t, s.tabs[t], false, draft, submission);
    TabChanges(norm, s, t,
               Take(s.tabs[t], FirstRead(norm, s.tabs[t], RowAt(s.history, draft), SubmissionAt(s.filed, submission))));
  }

  lemma HoldingMore(history: seq<Entry>, filed: seq<Filing>, held: set<Work>, more: set<Work>, v: int)
    requires Known(history, filed, held, v) && held <= more
    ensures Known(history, filed, more, v)
  {}

  lemma StepKeeps(norm: Normalizer, s: State, step: Step)
    requires Inv(norm, s) && Enabled(s, step)
    ensures Inv(norm, Apply(norm, s, step))
  {
    hide RowFits, TabFits, MessageFits, ReplyFits, JobFits, FilingFits, WritesAnswered;
    hide Opened, Send, RunSaveStep, SaveAnsweredStep, CheckSubmitStep, FileSubmitStep, ClearSubmitStep, SkipClearStep,
      SubmitAnsweredStep, SubmitLostStep, PageReadStep;
    match step {
      case Open(draft, submission) =>
        var next := Apply(norm, s, step);
        RowStays(s, next);
        OpenedFits(norm, next, draft, submission, |s.tabs|);
        InvExtends(norm, s, next);
      case Type(_, _) => TabOnlyKeeps(norm, s, step);
      case SendSave(t) => SendKeeps(norm, s, t, s.tabs[t], Saves, false);
      case RunSave(id, at) => RunSaveKeeps(norm, s, id, at);
      case RefuseSave(id, final) => RefusedKeeps(norm, s, id, final);
      case SaveAnswered(t, reply, read) => SaveAnsweredKeeps(norm, s, t, reply, read);
      case SaveLost(_) => TabOnlyKeeps(norm, s, step);
      case SendSubmit(t) => SendKeeps(norm, s, t, s.tabs[t], HandsIn(s.tabs[t].stopped == StoppedStale), false);
      case CheckSubmit(id, drafts, draft, submission) => CheckSubmitKeeps(norm, s, id, drafts, draft, submission);
      case FileSubmit(j, at) => FileSubmitKeeps(norm, s, j, at);
      case ClearSubmit(j, at, heard) => ClearSubmitKeeps(norm, s, j, at, heard);
      case SkipClear(j) => SkipClearKeeps(norm, s, j);
      case SubmitAnswered(t, reply, read, confirmed) => SubmitAnsweredKeeps(norm, s, t, reply, read, confirmed);
      case SubmitRefused(_) => TabOnlyKeeps(norm, s, step);
      case SubmitLost(t, read) => SubmitLostKeeps(norm, s, t, read);
      case PageRead(t, draft, submission) => PageReadKeeps(norm, s, t, draft, submission);
    }
  }

  // ---------------------------------------------------------------------------------------------
  // Over every run
  // ---------------------------------------------------------------------------------------------

  lemma {:induction false} RunKeeps(norm: Normalizer, steps: seq<Step>)
    requires Run(norm, steps).Some?
    ensures Inv(norm, Run(norm, steps).value)
    decreases |steps|
  {
    hide Inv, Apply, Enabled;
    if steps == [] {
      assert Inv(norm, INIT) by { InitFits(norm); }
    } else {
      var before := steps[..|steps| - 1];
      RunKeeps(norm, before);
      StepKeeps(norm, Run(norm, before).value, steps[|steps| - 1]);
    }
  }

  lemma InitFits(norm: Normalizer)
    ensures Inv(norm, INIT)
  {}

  /** The row holds a draft. */
  predicate Live(row: Option<Row>) { row.Some? && !row.value.cleared }

  /** A draft whose text the sender had held, or which a submission it could know of had overtaken. */
  ghost predicate KnownTo(s: State, m: Message, row: Row)
    requires m.seen <= |s.filed|
  {
    row.work in m.held || Overtaken(s.filed[..m.seen], row.updatedAt)
  }

  /** What a submit read says what it hands in: the draft or, for a cleared one, the submission beside it. */
  ghost predicate ReadSaysIt(norm: Normalizer, s: State, m: Message, draft: nat, submission: nat)
    requires draft <= |s.history| && submission <= |s.filed|
  {
    && draft > 0
    && match s.history[draft - 1]
       case Wrote(work, _, _) => SameWork(norm, Stored(norm, m.work), Some(work))
       case Emptied(_, _) => submission > 0 && SameWork(norm, Stored(norm, m.work), Some(s.filed[submission - 1].work))
  }

  /**
   * The student has to be asked first: autosave is on, nobody has asked yet, and the draft read is past the version the
   * submit names without saying what it hands in.
   */
  ghost predicate MustAsk(norm: Normalizer, s: State, id: nat, drafts: bool, draft: nat, submission: nat)
    requires id < |s.sent| && s.sent[id].kind.HandsIn? && draft <= |s.history| && submission <= |s.filed|
  {
    drafts && !s.sent[id].kind.force && s.sent[id].base < draft && !ReadSaysIt(norm, s, s.sent[id], draft, submission)
  }

  /** What a check leads to: the answer "stale", or a submit that may clear what it named or read, whichever is newer. */
  ghost predicate ChecksOut(norm: Normalizer, s: State, next: State, id: nat, drafts: bool, draft: nat, submission: nat)
    requires id < |s.sent| && s.sent[id].kind.HandsIn? && draft <= |s.history| && submission <= |s.filed|
  {
    var upTo := if !drafts then 0 else if draft <= s.sent[id].base then s.sent[id].base else draft;
    next == if MustAsk(norm, s, id, drafts, draft, submission) then Answering(s, id, Stale)
            else s.(jobs := s.jobs + [Job(id, upTo, drafts && draft > 0, Checked, |s.history|)])
  }

  /**
   * What a step may do. A save that is written over a draft, or an unforced submit that clears one, knew that draft (for
   * the submit, the draft may instead say what it hands in); a clear, forced or not, only ever empties the version that
   * was the newest when the submit was checked; no other step writes the row. A submit goes on unless it must ask, and
   * puts what it hands in after every earlier submission; no other step hands anything in.
   */
  ghost predicate Harmless(norm: Normalizer, s: State, step: Step)
    requires Inv(norm, s) && Enabled(s, step)
  {
    var next := Apply(norm, s, step);
    match step
    case RunSave(id, _) =>
      && MessageFits(s, s.sent[id]) && next.filed == s.filed
      && (next.row != s.row && Live(s.row) ==> KnownTo(s, s.sent[id], s.row.value))
    case ClearSubmit(j, _, _) =>
      var m := s.sent[s.jobs[j].of];
      && MessageFits(s, m)
      && (next.row != s.row ==>
            && Live(s.row) && VersionOf(s.row) == s.jobs[j].after
            && (m.kind == HandsIn(true) || KnownTo(s, m, s.row.value)
                || SameWork(norm, Stored(norm, m.work), Some(s.row.value.work))))
      && next.filed == s.filed
    case CheckSubmit(id, drafts, draft, submission) => ChecksOut(norm, s, next, id, drafts, draft, submission)
    case FileSubmit(j, at) =>
      var id := s.jobs[j].of;
      && next.row == s.row && next.history == s.history
      && next.filed == s.filed + [Filing(Stored(norm, s.sent[id].work), at, id)]
    case _ => next.row == s.row && next.history == s.history && next.filed == s.filed
  }

  lemma SaveIsHarmless(norm: Normalizer, s: State, id: nat, at: Instant)
    requires Inv(norm, s) && Enabled(s, RunSave(id, at))
    ensures Harmless(norm, s, RunSave(id, at))
  {
    assert MessageFits(s, s.sent[id]);
  }

  lemma CheckIsHarmless(norm: Normalizer, s: State, id: nat, drafts: bool, draft: nat, submission: nat)
    requires Inv(norm, s) && Enabled(s, CheckSubmit(id, drafts, draft, submission))
    ensures Harmless(norm, s, CheckSubmit(id, drafts, draft, submission))
  {
    assert MessageFits(s, s.sent[id]);
    CheckIs(norm, s, s.sent[id], drafts, draft, submission);
    assert Apply(norm, s, CheckSubmit(id, drafts, draft, submission)) == CheckSubmitStep(norm, s, id, drafts, draft, submission);
    assert RowAt(s.history, draft).Some? <==> draft > 0;
    hide Inv, Stored, SubmitConflict, ReadSaysIt, RowAt, SubmissionAt, Apply, Enabled;
  }

  lemma CheckIs(norm: Normalizer, s: State, m: Message, drafts: bool, draft: nat, submission: nat)
    requires draft <= |s.history| && submission <= |s.filed| && 0 <= m.base && m.kind.HandsIn?
    ensures var ask := drafts && !m.kind.force && m.base < draft && !ReadSaysIt(norm, s, m, draft, submission);
            SubmitConflict(norm, if drafts then Some(m.base) else None, RowAt(s.history, draft),
                           SubmissionAt(s.filed, submission),
                           Stored(norm, m.work), m.kind.force)
            == Check(ask, if !drafts then 0 else if ask || draft <= m.base then m.base else draft)
  {
    hide SameWork, Stored;
    var d := RowAt(s.history, draft);
    assert d.Some? ==> d.value.version == draft;
  }

  lemma ClearTakesKnown(norm: Normalizer, s: State, m: Message, job: Job, at: Instant)
    requires VersionOf(s.row) == |s.history| && s.row == RowAt(s.history, |s.history|)
    requires job.of < |s.sent| && m == s.sent[job.of] && m.kind.HandsIn? && MessageFits(s, m) && JobFits(norm, s, job)
    requires ClearWrites(s.row, job.upTo, at).Some?
    ensures Live(s.row) && VersionOf(s.row) == job.after
    ensures m.kind.force || KnownTo(s, m, s.row.value) || SameWork(norm, Stored(norm, m.work), Some(s.row.value.work))
  {
    hide SameWork, Stored, Overtaken;
    var n := |s.history|;
    assert n == job.upTo == job.after;
    assert s.history[n - 1].work == s.row.value.work && s.history[n - 1].at == s.row.value.updatedAt;
  }

  lemma ClearIsHarmless(norm: Normalizer, s: State, j: nat, at: Instant, heard: bool)
    requires Inv(norm, s) && Enabled(s, ClearSubmit(j, at, heard))
    ensures Harmless(norm, s, ClearSubmit(j, at, heard))
  {
    var job, m := s.jobs[j], s.sent[s.jobs[j].of];
    assert JobFits(norm, s, job) && MessageFits(s, m);
    RowIsNewest(norm, s);
    var step := ClearSubmit(j, at, heard);
    ClearStepRow(norm, s, j, at, heard);
    hide Inv, JobFits, MessageFits, SameWork, Stored, KnownTo, Live, VersionOf, Accounted, ClearWrites, ClearAnswer, RowAt,
      ClearSubmitStep, Apply, Enabled;
    if ClearWrites(s.row, job.upTo, at).Some? { ClearTakesKnown(norm, s, m, job, at); }
  }

  lemma ClearStepRow(norm: Normalizer, s: State, j: nat, at: Instant, heard: bool)
    requires Enabled(s, ClearSubmit(j, at, heard))
    ensures Apply(norm, s, ClearSubmit(j, at, heard)).filed == s.filed
    ensures Apply(norm, s, ClearSubmit(j, at, heard)).row
            == (if ClearWrites(s.row, s.jobs[j].upTo, at).Some? then ClearWrites(s.row, s.jobs[j].upTo, at) else s.row)
  {
    hide ClearWrites, ClearAnswer;
  }

  lemma OtherStepsLeaveRow(norm: Normalizer, s: State, step: Step)
    requires Enabled(s, step) && !step.RunSave? && !step.ClearSubmit?
    ensures var next := Apply(norm, s, step);
            next.row == s.row && next.history == s.history && (step.FileSubmit? || next.filed == s.filed)
  {
    hide Opened, CatchUp, Take, FirstRead, SubmitConflict, StoredLink, WithUnconfirmed;
  }

  lemma StepIsHarmless(norm: Normalizer, s: State, step: Step)
    requires Inv(norm, s) && Enabled(s, step)
    ensures Harmless(norm, s, step)
  {
    match step
    case RunSave(id, at) => SaveIsHarmless(norm, s, id, at);
    case ClearSubmit(j, at, heard) => ClearIsHarmless(norm, s, j, at, heard);
    case CheckSubmit(id, drafts, draft, submission) => CheckIsHarmless(norm, s, id, drafts, draft, submission);
    case FileSubmit(j, at) => hide Inv;
    case _ =>
      OtherStepsLeaveRow(norm, s, step);
      hide Inv, Apply, Enabled;
  }

  /** No step of any run loses draft text its sender did not know. */
  lemma {:induction false} EveryRunIsHarmless(norm: Normalizer, steps: seq<Step>, k: nat)
    requires Run(norm, steps).Some? && k < |steps|
    ensures var before := Run(norm, steps[..k]);
            before.Some? && Inv(norm, before.value) && Enabled(before.value, steps[k]) && Harmless(norm, before.value, steps[k])
    decreases |steps|
  {
    hide Inv, Apply, Enabled, Harmless;
    var shorter := steps[..|steps| - 1];
    if k == |shorter| {
      RunKeeps(norm, shorter);
      StepIsHarmless(norm, Run(norm, shorter).value, steps[k]);
    } else {
      EveryRunIsHarmless(norm, shorter, k);
      assert shorter[..k] == steps[..k];
    }
  }

  /** The k-th step of the run is a check of this request, and the student has to be asked (or need not be). */
  ghost predicate CheckedAt(norm: Normalizer, steps: seq<Step>, k: nat, id: nat, ask: bool) {
    && k < |steps| && Run(norm, steps[..k]).Some? && Enabled(Run(norm, steps[..k]).value, steps[k])
    && match steps[k]
       case CheckSubmit(of, drafts, draft, submission) =>
         of == id && MustAsk(norm, Run(norm, steps[..k]).value, id, drafts, draft, submission) == ask
       case _ => false
  }

  ghost predicate WasChecked(norm: Normalizer, steps: seq<Step>, id: nat, ask: bool) {
    exists k: nat :: CheckedAt(norm, steps, k, id, ask)
  }

  /** Every submit under way was let through by a check, and every submit told "stale" by one that has to ask. */
  ghost predicate AllChecked(norm: Normalizer, steps: seq<Step>, s: State) {
    && (forall j: nat :: j < |s.jobs| ==> WasChecked(norm, steps, s.jobs[j].of, false))
    && (forall r: nat :: r < |s.replies| && TellsSubmitStale(s, s.replies[r]) ==>
          WasChecked(norm, steps, s.replies[r].id, true))
  }

  ghost predicate TellsSubmitStale(s: State, r: Reply) { r.id < |s.sent| && s.sent[r.id].kind.HandsIn? && r.answer == Stale }

  lemma CheckedLater(norm: Normalizer, shorter: seq<Step>, step: Step, id: nat, ask: bool)
    requires WasChecked(norm, shorter, id, ask)
    ensures WasChecked(norm, shorter + [step], id, ask)
  {
    var k: nat :| CheckedAt(norm, shorter, k, id, ask);
    assert (shorter + [step])[..k] == shorter[..k] && (shorter + [step])[k] == shorter[k];
    assert CheckedAt(norm, shorter + [step], k, id, ask);
  }

  lemma CheckedLast(norm: Normalizer, shorter: seq<Step>, step: Step, s: State)
    requires Run(norm, shorter) == Some(s) && Enabled(s, step) && step.CheckSubmit?
    ensures WasChecked(norm, shorter + [step], step.id, MustAsk(norm, s, step.id, step.drafts, step.draft, step.submission))
  {
    hide Run, MustAsk;
    assert (shorter + [step])[..|shorter|] == shorter;
    assert CheckedAt(norm, shorter + [step], |shorter|, step.id,
                     MustAsk(norm, s, step.id, step.drafts, step.draft, step.submission));
  }

  /** Only a check adds a submit under way or tells one "stale". */
  lemma OnlyChecksCheck(norm: Normalizer, s: State, step: Step)
    requires Enabled(s, step) && !step.CheckSubmit?
    ensures var next := Apply(norm, s, step);
            && |next.jobs| == |s.jobs| && (forall j: nat :: j < |s.jobs| ==> next.jobs[j].of == s.jobs[j].of)
            && s.sent <= next.sent && |s.replies| <= |next.replies| <= |s.replies| + 1
            && next.replies[..|s.replies|] == s.replies
            && forall r: nat :: |s.replies| <= r < |next.replies| ==>
                 next.replies[r].id < |s.sent| && (s.sent[next.replies[r].id].kind.Saves? || next.replies[r].answer.HandedIn?)
  {
    hide Opened, CatchUp, Take, FirstRead, SubmitConflict, StoredLink, WithUnconfirmed, SaveWrites, SaveAnswer, ClearWrites,
      ClearAnswer;
  }

  lemma StepChecks(norm: Normalizer, shorter: seq<Step>, step: Step, s: State, next: State)
    requires Run(norm, shorter) == Some(s) && Inv(norm, s) && Enabled(s, step) && next == Apply(norm, s, step)
    requires AllChecked(norm, shorter, s)
    ensures AllChecked(norm, shorter + [step], next)
  {
    var steps := shorter + [step];
    if step.CheckSubmit? {
      StepIsHarmless(norm, s, step);
      CheckedLast(norm, shorter, step, s);
    } else {
      OnlyChecksCheck(norm, s, step);
    }
    forall r: nat | r < |s.replies| ensures s.replies[r].id < |s.sent| { assert ReplyFits(s, s.replies[r]); }
    hide Inv, Apply, Enabled, Run, MustAsk, WasChecked;
    forall j: nat | j < |next.jobs| ensures WasChecked(norm, steps, next.jobs[j].of, false) {
      if j < |s.jobs| { CheckedLater(norm, shorter, step, s.jobs[j].of, false); }
    }
    forall r: nat | r < |next.replies| && TellsSubmitStale(next, next.replies[r])
      ensures WasChecked(norm, steps, next.replies[r].id, true)
    {
      if r < |s.replies| { CheckedLater(norm, shorter, step, s.replies[r].id, true); }
    }
  }

  lemma {:induction false} RunChecks(norm: Normalizer, steps: seq<Step>)
    requires Run(norm, steps).Some?
    ensures AllChecked(norm, steps, Run(norm, steps).value)
    decreases |steps|
  {
    hide Inv, Apply, Enabled;
    if steps != [] {
      var shorter := steps[..|steps| - 1];
      assert steps == shorter + [steps[|steps| - 1]];
      RunKeeps(norm, shorter);
      RunChecks(norm, shorter);
      hide AllChecked;
      StepChecks(norm, shorter, steps[|steps| - 1], Run(norm, shorter).value, Run(norm, steps).value);
    }
  }

  /**
   * Whatever is handed in says what its tab sent, and was let through: a check of it found nothing to ask. And a submit is
   * only told "stale" by a check that has to ask.
   */
  lemma EveryFilingWasLetThrough(norm: Normalizer, steps: seq<Step>)
    requires Run(norm, steps).Some?
    ensures var s := Run(norm, steps).value;
            && (forall k: nat :: k < |s.filed| ==>
                  && s.filed[k].writer < |s.sent| && s.filed[k].work == Stored(norm, s.sent[s.filed[k].writer].work)
                  && WasChecked(norm, steps, s.filed[k].writer, false))
            && (forall r: nat :: r < |s.replies| && TellsSubmitStale(s, s.replies[r]) ==>
                  WasChecked(norm, steps, s.replies[r].id, true))
  {
    RunKeeps(norm, steps);
    RunChecks(norm, steps);
    var s := Run(norm, steps).value;
    hide Run, WasChecked, RowFits, TabsFit, MessagesFit, RepliesFit, JobsFit, WritesAnswered;
    forall k: nat | k < |s.filed|
      ensures s.filed[k].writer < |s.sent| && s.filed[k].work == Stored(norm, s.sent[s.filed[k].writer].work)
      ensures WasChecked(norm, steps, s.filed[k].writer, false)
    {
      assert FilingFits(norm, s, s.filed[k]);
    }
  }

  /**
   * A draft newer than the version a submit accounts for, which is one it named or found when it was checked, is still there
   * after its clear; and the clear takes any other.
   */
  lemma LaterDraftSurvives(norm: Normalizer, steps: seq<Step>, j: nat, at: Instant, heard: bool)
    requires Run(norm, steps).Some? && Enabled(Run(norm, steps).value, ClearSubmit(j, at, heard))
    ensures var s := Run(norm, steps).value;
            var next := Apply(norm, s, ClearSubmit(j, at, heard));
            && (Live(s.row) ==> (next.row == s.row <==> s.jobs[j].upTo < VersionOf(s.row)))
            && (!Live(s.row) ==> next.row == s.row)
            && s.jobs[j].upTo <= s.jobs[j].after <= |s.history|
  {
    hide Inv, Enabled, Apply;
    RunKeeps(norm, steps);
    ClearTakesUpTo(norm, Run(norm, steps).value, j, at, heard);
  }

  lemma ClearTakesUpTo(norm: Normalizer, s: State, j: nat, at: Instant, heard: bool)
    requires Inv(norm, s) && Enabled(s, ClearSubmit(j, at, heard))
    ensures var next := Apply(norm, s, ClearSubmit(j, at, heard));
            && (Live(s.row) ==> (next.row == s.row <==> s.jobs[j].upTo < VersionOf(s.row)))
            && (!Live(s.row) ==> next.row == s.row)
            && s.jobs[j].upTo <= s.jobs[j].after <= |s.history|
  {
    assert JobFits(norm, s, s.jobs[j]);
    RowIsNewest(norm, s);
    ClearStepRow(norm, s, j, at, heard);
    hide Inv, Apply, JobFits, ClearAnswer;
  }

  lemma StepGrows(norm: Normalizer, s: State, step: Step)
    requires Enabled(s, step)
    ensures s.history <= Apply(norm, s, step).history
  {
    hide Opened, CatchUp, Take, FirstRead, SubmitConflict, StoredLink;
  }

  /** The version only rises, and a number never stands for two texts. */
  lemma VersionsOnlyRise(norm: Normalizer, steps: seq<Step>, more: seq<Step>)
    requires Run(norm, steps + more).Some?
    ensures Run(norm, steps).Some?
    ensures var s, later := Run(norm, steps).value, Run(norm, steps + more).value;
            && s.history <= later.history
            && VersionOf(s.row) <= VersionOf(later.row)
            && (VersionOf(s.row) == VersionOf(later.row) ==> s.row == later.row)
  {
    hide Inv, Run, VersionOf;
    LogOnlyGrows(norm, steps, more);
    RunKeeps(norm, steps);
    RunKeeps(norm, steps + more);
    RowIsNewest(norm, Run(norm, steps).value);
    RowIsNewest(norm, Run(norm, steps + more).value);
  }

  lemma RowIsNewest(norm: Normalizer, s: State)
    requires Inv(norm, s)
    ensures VersionOf(s.row) == |s.history| && s.row == RowAt(s.history, |s.history|)
  {}

  lemma {:induction false} LogOnlyGrows(norm: Normalizer, steps: seq<Step>, more: seq<Step>)
    requires Run(norm, steps + more).Some?
    ensures Run(norm, steps).Some? && Run(norm, steps).value.history <= Run(norm, steps + more).value.history
    decreases |more|
  {
    hide Apply, Enabled;
    if more == [] {
      assert steps + more == steps;
    } else {
      var shorter := more[..|more| - 1];
      var all := steps + more;
      assert all[..|all| - 1] == steps + shorter;
      LogOnlyGrows(norm, steps, shorter);
      StepGrows(norm, Run(norm, steps + shorter).value, all[|all| - 1]);
    }
  }

  /** Of all the saves that named one version, at most one was ever written; it is the next entry. */
  lemma AtMostOneLands(norm: Normalizer, steps: seq<Step>, v: nat, w: nat)
    requires Run(norm, steps).Some?
    requires var s := Run(norm, steps).value;
             && v < |s.history| && w < |s.history| && s.history[v].Wrote? && s.history[w].Wrote?
             && s.history[v].writer < |s.sent| && s.history[w].writer < |s.sent|
             && s.sent[s.history[v].writer].base == s.sent[s.history[w].writer].base
    ensures v == w
    ensures var s := Run(norm, steps).value; s.sent[s.history[v].writer].base == v
  {
    RunKeeps(norm, steps);
    var s := Run(norm, steps).value;
    assert EntryFits(s.sent, v, s.history[v]) && EntryFits(s.sent, w, s.history[w]);
  }

  // ---------------------------------------------------------------------------------------------
  // What is on the screen
  // ---------------------------------------------------------------------------------------------

  /**
   * What a form opens with: the draft, where there is one that was not cleared nor overtaken by the last submit, else
   * what was last handed in; and it says so when the draft it shows is not what was handed in.
   */
  lemma OpensWith(norm: Normalizer, s: Option<Submission>, d: Option<Row>)
    ensures var start := StartingWork(norm, s, d);
            var handedIn := if s.Some? then s.value.work else NOTHING;
            var shown := Live(d) && !(s.Some? && OvertakenBy(d.value.updatedAt, s.value.submittedAt));
            && start.work == (if shown then d.value.work else handedIn)
            && (start.unsubmitted <==> shown && Stored(norm, d.value.work) != if s.Some? then Stored(norm, handedIn) else NOTHING)
            && (start.restoredAt == if start.unsubmitted then Some(d.value.updatedAt) else None)
  {
    hide Stored;
  }

  /** No step but typing changes the text in a tab that holds text it has not saved. */
  lemma TypedTextStays(norm: Normalizer, s: State, step: Step, t: nat)
    requires Enabled(s, step) && t < |s.tabs| && s.tabs[t].work != s.tabs[t].base
    requires !(step.Type? && step.tab == t)
    ensures t < |Apply(norm, s, step).tabs| && Apply(norm, s, step).tabs[t].work == s.tabs[t].work
  {
    hide SameWork, Stored, StartingWork, SubmitConflict, WithUnconfirmed, SaveWrites, SaveAnswer, ClearWrites, ClearAnswer,
      RowAt, SubmissionAt, VersionOf, Opened;
  }

  // ---------------------------------------------------------------------------------------------
  // Being told of a conflict, and asking
  // ---------------------------------------------------------------------------------------------

  /** What the tab's own read says, as a tab that waits for no answer. */
  ghost function ReadSays(norm: Normalizer, s: State, t: nat, read: Read): Option<Reconciled>
    requires t < |s.tabs| && Readable(s, read)
  {
    if read.NoRead? then None
    else Some(Reread(norm, s.tabs[t], RowAt(s.history, read.draft), SubmissionAt(s.filed, read.submission)))
  }

  /** A tab whose save is answered "stale" stops exactly when its read is a conflict, and takes what any other read says. */
  lemma StaleSaveStops(norm: Normalizer, s: State, t: nat, reply: nat, read: Read)
    requires Enabled(s, SaveAnswered(t, reply, read)) && s.replies[reply].answer.Stale? && s.tabs[t].stopped.Running?
    ensures var next, r := Apply(norm, s, SaveAnswered(t, reply, read)).tabs[t], ReadSays(norm, s, t, read);
            && (next.stopped.StoppedStale? <==> r.Some? && r.value.Conflict?)
            && (next.stopped.Running? ==>
                  var tab := s.tabs[t].(phase := Idle); next == if r.Some? then Take(tab, r.value) else tab)
  {
    hide ReconcileDraft;
  }

  /**
   * A submit answered "stale" that was not forced and is the first try goes again, unforced, when the read shows the newer
   * draft or submission to be the tab's own. Otherwise it goes again only if the student says so, forced, and never twice so.
   */
  lemma StaleSubmitAsks(norm: Normalizer, s: State, t: nat, reply: nat, read: Read, confirmed: bool)
    requires Enabled(s, SubmitAnswered(t, reply, read, confirmed)) && s.replies[reply].answer.Stale?
    ensures var next, r := Apply(norm, s, SubmitAnswered(t, reply, read, confirmed)), ReadSays(norm, s, t, read);
            var kind := s.sent[s.tabs[t].phase.id].kind;
            var forced := kind.HandsIn? && kind.force;
            var own := !forced && !s.tabs[t].phase.rechecked && r.Some? && (r.value.Landed? || r.value.Submitted?);
            if own || (!forced && confirmed) then
              && |next.sent| == |s.sent| + 1 && next.sent[|s.sent|].kind == HandsIn(!own)
              && next.tabs[t].phase == Submitting(|s.sent|, true)
            else next.sent == s.sent && next.tabs[t].stopped.StoppedStale? && next.tabs[t].phase.Idle?
  {
    hide ReconcileDraft;
  }

  /** A submit is only forced from a tab that was told of a conflict, or by the student's word on a "stale" answer. */
  lemma ForcedOnlyWhenAsked(norm: Normalizer, s: State, step: Step, id: nat)
    requires Enabled(s, step) && |s.sent| <= id < |Apply(norm, s, step).sent|
    requires Apply(norm, s, step).sent[id].kind == HandsIn(true)
    ensures || (step.SendSubmit? && s.tabs[step.tab].stopped.StoppedStale?)
            || (step.SubmitAnswered? && s.replies[step.reply].answer.Stale? && step.confirmed)
  {
    hide Opened, CatchUp, Take, FirstRead, SubmitConflict, StoredLink, WithUnconfirmed, SaveWrites, SaveAnswer, ClearWrites,
      ClearAnswer, RowAt, SubmissionAt;
  }
}
