/**
 * One tab alone with its draft. reconcileDraft (lib/assignment-drafts.ts:278-372) should take whatever newer version such a
 * tab finds for its own work. It does, except for what was there before the tab and not on the page it was opened on, and
 * for what the tab was made to forget. The events that do so are named here; a fresh read is a conflict exactly when the
 * newest version is either, and each event, and an old page, has a run in DraftLoneTabRuns that ends in one.
 */
module DraftLoneTab {
  import opened Options
  import opened DraftRules
  import opened DraftProtocol

  /** Storing stored work again changes nothing. */
  ghost predicate Settled(norm: Normalizer) {
    forall w: Work {:trigger Stored(norm, Stored(norm, w))} :: Stored(norm, Stored(norm, w)) == Stored(norm, w)
  }

  ghost predicate OwnSave(s: State, t: nat, id: nat) { id < |s.sent| && s.sent[id].tab == t && s.sent[id].kind.Saves? }

  ghost predicate OwnSubmit(s: State, t: nat, id: nat) { id < |s.sent| && s.sent[id].tab == t && s.sent[id].kind.HandsIn? }

  // ---------------------------------------------------------------------------------------------
  // A lone run
  // ---------------------------------------------------------------------------------------------

  /** A read by a tab is no older than the version the tab holds: it knew that version before it asked. */
  predicate Recent(tab: Tab, read: Read) { read.Read? ==> read.draft >= tab.version }

  /** The request was not run before. */
  ghost predicate NotRun(s: State, id: nat) { Unanswered(s.replies, id) && !HasJob(s.jobs, id) }

  /**
   * No save, submission or clear of another tab is run, each request of tab `t` is run once, and the tab's reads are recent.
   * Other tabs may be open; every answer may be lost, requests may be run long after the tab gave them up, and reads may lag.
   */
  ghost predicate Lone(s: State, t: nat, step: Step)
    requires t < |s.tabs| && Enabled(s, step)
  {
    match step
    case RunSave(id, _) => s.sent[id].tab == t && NotRun(s, id)
    case RefuseSave(id, _) => s.sent[id].tab == t ==> NotRun(s, id)
    case CheckSubmit(id, _, _, _) => s.sent[id].tab == t ==> NotRun(s, id)
    case FileSubmit(j, _) => s.sent[s.jobs[j].of].tab == t
    case ClearSubmit(j, _, _) => s.sent[s.jobs[j].of].tab == t
    case SaveAnswered(u, _, read) => u == t ==> Recent(s.tabs[t], read)
    case SubmitAnswered(u, _, read, _) => u == t ==> Recent(s.tabs[t], read)
    case SubmitLost(u, read) => u == t ==> Recent(s.tabs[t], read)
    case _ => true
  }

  /** The state after lone steps from `s`; None when some step could not be taken or was not a lone one. */
  ghost function LoneRun(norm: Normalizer, s: State, t: nat, steps: seq<Step>): Option<State>
    requires t < |s.tabs|
    ensures var r := LoneRun(norm, s, t, steps); r.Some? ==> t < |r.value.tabs|
  {
    if steps == [] then Some(s) else
      var before := LoneRun(norm, s, t, steps[..|steps| - 1]);
      var step := steps[|steps| - 1];
      if before.Some? && Enabled(before.value, step) && Lone(before.value, t, step)
      then TabsStay(norm, before.value, step); Some(Apply(norm, before.value, step))
      else None
  }

  lemma TabsStay(norm: Normalizer, s: State, step: Step)
    requires Enabled(s, step)
    ensures |s.tabs| <= |Apply(norm, s, step).tabs|
  {
    hide Opened, CatchUp, Take, FirstRead, SubmitConflict, StoredLink, WithUnconfirmed;
  }

  // ---------------------------------------------------------------------------------------------
  // What may still show
  // ---------------------------------------------------------------------------------------------

  /** The save wrote its entry, or still may. */
  ghost predicate MayShow(s: State, id: nat)
    requires id < |s.sent|
  {
    var base := s.sent[id].base;
    || (0 <= base < |s.history| && s.history[base].Wrote? && s.history[base].writer == id)
    || (base == |s.history| && Unanswered(s.replies, id))
  }

  /** A part of this submit is still to come. */
  ghost predicate HalfDone(jobs: seq<Job>, id: nat) {
    exists j: nat :: j < |jobs| && jobs[j].of == id && !jobs[j].stage.Finished?
  }

  /** A submit of the tab is stored and not finished: it may yet clear the draft. */
  ghost predicate Clearing(s: State, t: nat) {
    exists j: nat :: j < |s.jobs| && s.jobs[j].stage.InPlace? && s.jobs[j].of < |s.sent| && s.sent[s.jobs[j].of].tab == t
  }

  /** The newest version is a clear, and newer than `version`. */
  predicate ClearedAfter(history: seq<Entry>, version: int) {
    |history| > version && |history| > 0 && history[|history| - 1].Emptied?
  }

  /** The submit may still be run, is half done, or made the newest submission while a clear past `version` shows or may yet. */
  ghost predicate Coming(s: State, t: nat, version: int, id: nat) {
    || NotRun(s, id)
    || HalfDone(s.jobs, id)
    || (s.filed != [] && s.filed[|s.filed| - 1].writer == id && (Clearing(s, t) || ClearedAfter(s.history, version)))
  }

  // ---------------------------------------------------------------------------------------------
  // The events that make a tab forget
  // ---------------------------------------------------------------------------------------------

  /** The tab as it compares itself with what it read. */
  datatype Reading = Reading(tab: Tab, draft: nat, submission: nat)

  /** What the tab reads in this step: told "stale", or left without an answer to its submit. */
  ghost function ReadingOf(s: State, t: nat, step: Step): (r: Option<Reading>)
    requires t < |s.tabs| && Enabled(s, step)
    ensures r.Some? ==> r.value.draft <= |s.history| && r.value.submission <= |s.filed|
  {
    var idle := s.tabs[t].(phase := Idle);
    match step
    case SaveAnswered(u, reply, Read(d, sub)) =>
      if u == t && s.replies[reply].answer.Stale? then Some(Reading(idle, d, sub)) else None
    case SubmitAnswered(u, reply, Read(d, sub), _) =>
      if u == t && s.replies[reply].answer.Stale? && !s.tabs[t].phase.rechecked
          && s.sent[s.tabs[t].phase.id].kind != HandsIn(true)
      then Some(Reading(idle, d, sub)) else None
    case SubmitLost(u, Read(d, sub)) =>
      if u == t then Some(Reading(idle.(pendingSubmit := Some(s.sent[s.tabs[t].phase.id].work)), d, sub)) else None
    case _ => None
  }

  /**
   * The tab reads that a submission with the text of its unanswered submit is stored, beside a draft that is emptied or no
   * newer than its own: the version it goes on from.
   */
  ghost function DoneBy(norm: Normalizer, s: State, r: Reading): Option<int>
    requires r.draft <= |s.history| && r.submission <= |s.filed|
  {
    var d, sub := RowAt(s.history, r.draft), SubmissionAt(s.filed, r.submission);
    if r.tab.pendingSubmit.Some? && sub.Some? && SameWork(norm, r.tab.pendingSubmit.value, Some(sub.value.work))
       && (d.None? || d.value.cleared || VersionOf(d) <= r.tab.version)
    then Some(if d.Some? && d.value.cleared then VersionOf(d) else r.tab.version)
    else None
  }

  /** The tab is told that its submit is done, or reads it: the version it goes on from. */
  ghost function DoneAt(norm: Normalizer, s: State, t: nat, step: Step): Option<int>
    requires t < |s.tabs| && Enabled(s, step)
  {
    var reading := ReadingOf(s, t, step);
    if step.SubmitAnswered? && step.tab == t && s.replies[step.reply].answer.HandedIn?
    then Some(s.replies[step.reply].answer.version)
    else if reading.None? then None
    else DoneBy(norm, s, reading.value)
  }

  /** One unanswered save too many: the second text in the list makes room. */
  ghost predicate Overflows(s: State, t: nat, step: Step, w: Work)
    requires t < |s.tabs| && Enabled(s, step)
  {
    var list := s.tabs[t].unconfirmed;
    && step == SaveLost(t) && s.sent[s.tabs[t].phase.id].work !in list
    && |list| >= UNCONFIRMED_MAX && w == list[1]
  }

  /**
   * The tab forgets the text of a save that wrote a version newer than its own, or still may: its list overflows, or it is
   * done with a submit and the version it goes on from is still the one that save named.
   */
  ghost predicate ForgetsSave(norm: Normalizer, s: State, t: nat, step: Step, w: Work)
    requires t < |s.tabs| && Enabled(s, step)
  {
    && (Overflows(s, t, step, w) || DoneAt(norm, s, t, step) == Some(s.tabs[t].version))
    && exists id: nat :: OwnSave(s, t, id) && s.sent[id].work == w && s.sent[id].base >= s.tabs[t].version && MayShow(s, id)
  }

  /** The tab puts the text of a save left without an answer in its list. */
  ghost predicate RecallsSave(s: State, t: nat, step: Step, w: Work)
    requires t < |s.tabs| && Enabled(s, step)
  {
    step == SaveLost(t) && s.sent[s.tabs[t].phase.id].work == w
  }

  ghost predicate Pending(norm: Normalizer, tab: Tab, x: Work) {
    tab.pendingSubmit.Some? && Stored(norm, tab.pendingSubmit.value) == x
  }

  /** The tab is done with a submit, is refused one, or is left without an answer to one of other text. */
  ghost predicate LetsGoOfSubmit(norm: Normalizer, s: State, t: nat, step: Step, x: Work)
    requires t < |s.tabs| && Enabled(s, step)
  {
    || DoneAt(norm, s, t, step).Some?
    || (step == SubmitRefused(t) && s.tabs[t].phase.id < |s.sent| && Stored(norm, s.sent[s.tabs[t].phase.id].work) == x
        && !Pending(norm, s.tabs[t], x))
    || (step.SubmitLost? && step.tab == t && Stored(norm, s.sent[s.tabs[t].phase.id].work) != x && Pending(norm, s.tabs[t], x))
  }

  /**
   * The tab lets go of a submit that may still be run, is half done, or whose clear is newer than the version it goes
   * on from.
   */
  ghost predicate ForgetsSubmit(norm: Normalizer, s: State, t: nat, step: Step, x: Work)
    requires t < |s.tabs| && Enabled(s, step)
  {
    && LetsGoOfSubmit(norm, s, t, step, x)
    && t < |Apply(norm, s, step).tabs|
    && exists id: nat :: OwnSubmit(s, t, id) && Stored(norm, s.sent[id].work) == x
        && Coming(s, t, Apply(norm, s, step).tabs[t].version, id)
  }

  /** The tab keeps the text of the submit left without an answer. */
  ghost predicate RecallsSubmit(norm: Normalizer, s: State, t: nat, step: Step, x: Work)
    requires t < |s.tabs| && Enabled(s, step)
  {
    step.SubmitLost? && step.tab == t && Stored(norm, s.sent[s.tabs[t].phase.id].work) == x
  }

  /** Some step of the run made the tab forget the save's text, and none since brought it back. */
  ghost predicate ForgotSave(norm: Normalizer, s: State, t: nat, steps: seq<Step>, w: Work)
    requires t < |s.tabs| && LoneRun(norm, s, t, steps).Some?
    decreases |steps|
  {
    steps != [] &&
      var before, step := steps[..|steps| - 1], steps[|steps| - 1];
      var now := LoneRun(norm, s, t, before).value;
      ForgetsSave(norm, now, t, step, w) || (ForgotSave(norm, s, t, before, w) && !RecallsSave(now, t, step, w))
  }

  /** Some step of the run made the tab forget the submit's text, and none since brought it back. */
  ghost predicate ForgotSubmit(norm: Normalizer, s: State, t: nat, steps: seq<Step>, x: Work)
    requires t < |s.tabs| && LoneRun(norm, s, t, steps).Some?
    decreases |steps|
  {
    steps != [] &&
      var before, step := steps[..|steps| - 1], steps[|steps| - 1];
      var now := LoneRun(norm, s, t, before).value;
      ForgetsSubmit(norm, now, t, step, x) || (ForgotSubmit(norm, s, t, before, x) && !RecallsSubmit(norm, now, t, step, x))
  }

  // ---------------------------------------------------------------------------------------------
  // What a lone tab keeps
  // ---------------------------------------------------------------------------------------------

  /** The tab waits for the save's answer, or lists its text. */
  ghost predicate Listed(s: State, t: nat, id: nat)
    requires t < |s.tabs| && id < |s.sent|
  {
    (s.tabs[t].phase.Saving? && s.tabs[t].phase.id == id) || s.sent[id].work in s.tabs[t].unconfirmed
  }

  /** The tab waits for the submit's answer, or keeps its text as unanswered. */
  ghost predicate Remembered(norm: Normalizer, s: State, t: nat, id: nat)
    requires t < |s.tabs| && id < |s.sent|
  {
    (s.tabs[t].phase.Submitting? && s.tabs[t].phase.id == id) || Pending(norm, s.tabs[t], Stored(norm, s.sent[id].work))
  }

  /** A request told no changed nothing: no entry is its save, and no submit of it was run. */
  ghost predicate NoWroteNothing(s: State, t: nat) {
    forall r: nat ::
      r < |s.replies| && s.replies[r].id < |s.sent| && s.sent[s.replies[r].id].tab == t && !s.replies[r].answer.Saved? ==>
      && (forall v: nat :: v < |s.history| && s.history[v].Wrote? ==> s.history[v].writer != s.replies[r].id)
      && (s.replies[r].answer.Stale? ==> !HasJob(s.jobs, s.replies[r].id))
  }

  /** No request of the tab names a version later than its own. */
  ghost predicate NoneAhead(s: State, t: nat)
    requires t < |s.tabs|
  {
    forall id: nat :: id < |s.sent| && s.sent[id].tab == t ==> s.sent[id].base <= s.tabs[t].version
  }

  ghost predicate LastIsOwn(s: State, t: nat) { s.filed != [] && OwnSubmit(s, t, s.filed[|s.filed| - 1].writer) }

  /**
   * Entries past the tab's version, but for the first `since`, which were there before the tab, are its own; once a submit
   * of it is stored, so is the newest submission.
   */
  ghost predicate NewerIsOwn(s: State, t: nat, since: nat)
    requires t < |s.tabs|
  {
    && (forall v: nat :: s.tabs[t].version <= v < |s.history| && since <= v ==>
          s.history[v].writer < |s.sent| && s.sent[s.history[v].writer].tab == t)
    && (Clearing(s, t) || (|s.history| > since && ClearedAfter(s.history, s.tabs[t].version)) ==> LastIsOwn(s, t))
  }

  ghost predicate ListFits(list: seq<Work>) {
    |list| <= UNCONFIRMED_MAX && forall i: nat, j: nat :: i < j < |list| ==> list[i] != list[j]
  }

  /** What was forgotten is not in the tab's memory. */
  ghost predicate Gone(norm: Normalizer, tab: Tab, saves: iset<Work>, submits: iset<Work>) {
    && (forall w :: w in saves ==> w !in tab.unconfirmed)
    && (forall x :: x in submits ==> !Pending(norm, tab, x))
  }

  /** A save that may show past the tab's version is listed or was forgotten. */
  ghost predicate SavesKnown(s: State, t: nat, saves: iset<Work>)
    requires t < |s.tabs|
  {
    forall id: nat :: OwnSave(s, t, id) && s.sent[id].base >= s.tabs[t].version && MayShow(s, id) ==>
      Listed(s, t, id) || s.sent[id].work in saves
  }

  /** A submit that may show past the tab's version is remembered or was forgotten. */
  ghost predicate SubmitsKnown(norm: Normalizer, s: State, t: nat, submits: iset<Work>)
    requires t < |s.tabs|
  {
    forall id: nat :: OwnSubmit(s, t, id) && Coming(s, t, s.tabs[t].version, id) ==>
      Remembered(norm, s, t, id) || Stored(norm, s.sent[id].work) in submits
  }

  /** All of it, with the texts of saves and submits that have been forgotten. */
  ghost predicate Own(norm: Normalizer, s: State, t: nat, saves: iset<Work>, submits: iset<Work>, since: nat) {
    && Inv(norm, s) && t < |s.tabs|
    && NoWroteNothing(s, t) && NoneAhead(s, t) && NewerIsOwn(s, t, since) && ListFits(s.tabs[t].unconfirmed)
    && Gone(norm, s.tabs[t], saves, submits) && SavesKnown(s, t, saves) && SubmitsKnown(norm, s, t, submits)
  }

  ghost function SavesAfter(norm: Normalizer, s: State, t: nat, step: Step, saves: iset<Work>): iset<Work>
    requires t < |s.tabs| && Enabled(s, step)
  {
    iset w | ForgetsSave(norm, s, t, step, w) || (w in saves && !RecallsSave(s, t, step, w))
  }

  ghost function SubmitsAfter(norm: Normalizer, s: State, t: nat, step: Step, submits: iset<Work>): iset<Work>
    requires t < |s.tabs| && Enabled(s, step)
  {
    iset x | ForgetsSubmit(norm, s, t, step, x) || (x in submits && !RecallsSubmit(norm, s, t, step, x))
  }

  lemma InvParts(norm: Normalizer, s: State)
    requires Inv(norm, s)
    ensures RowFits(s) && TabsFit(s) && MessagesFit(s) && RepliesFit(s) && JobsFit(norm, s) && FilingsFit(norm, s)
    ensures WritesAnswered(s)
  {}

  lemma TabVersion(norm: Normalizer, s: State, t: nat)
    requires Inv(norm, s) && t < |s.tabs|
    ensures 0 <= s.tabs[t].version <= |s.history|
  {
    assert TabFits(s, t, s.tabs[t]);
  }

  // ---------------------------------------------------------------------------------------------
  // What a read as things stand says
  // ---------------------------------------------------------------------------------------------

  /**
   * The newest version is past the tab's: a save of a forgotten text that is not on screen, or a clear after a
   * forgotten submit.
   */
  ghost predicate ForgottenNews(s: State, tab: Tab, saves: iset<Work>, submits: iset<Work>) {
    && |s.history| > tab.version && |s.history| > 0
    && var newest := s.history[|s.history| - 1];
       if newest.Wrote? then newest.work != tab.work && newest.work in saves
       else s.filed != [] && s.filed[|s.filed| - 1].work in submits
  }

  /** The newest version was there before the tab, and says nothing the tab shows, lists or waits for. */
  ghost predicate UnseenNews(norm: Normalizer, s: State, tab: Tab) {
    && |s.history| > tab.version && |s.history| > 0
    && var newest := s.history[|s.history| - 1];
       if newest.Wrote? then newest.work != tab.work && newest.work !in tab.unconfirmed
       else s.filed == [] || !(tab.pendingSubmit.Some?
                               && SameWork(norm, tab.pendingSubmit.value, Some(s.filed[|s.filed| - 1].work)))
  }

  /** What is news to a tab: of the first `since` versions, what it hasn't seen; of the later ones, what it has forgotten. */
  ghost predicate News(norm: Normalizer, s: State, tab: Tab, saves: iset<Work>, submits: iset<Work>, since: nat) {
    if |s.history| > since then ForgottenNews(s, tab, saves, submits) else UnseenNews(norm, s, tab)
  }

  ghost predicate ConflictExactly(tab: Tab, r: Reconciled, news: bool) {
    && (r.Conflict? <==> news && tab.work != tab.base)
    && (r.Adopt? <==> news && tab.work == tab.base)
  }

  /**
   * An idle lone tab that reads the draft and the submission as they stand is shown other work exactly when it has
   * forgotten its own, or not seen what was there before it.
   */
  lemma ReadsAsRemembered(norm: Normalizer, s: State, t: nat, saves: iset<Work>, submits: iset<Work>, since: nat)
    requires Settled(norm) && Own(norm, s, t, saves, submits, since) && s.tabs[t].phase.Idle?
    ensures ConflictExactly(s.tabs[t], Reread(norm, s.tabs[t], s.row, SubmissionAt(s.filed, |s.filed|)),
                            News(norm, s, s.tabs[t], saves, submits, since))
  {
    var tab, d, sub := s.tabs[t], s.row, SubmissionAt(s.filed, |s.filed|);
    var news := News(norm, s, tab, saves, submits, since);
    assert NewsIs(norm, tab, d, sub, news) by { NewsFits(norm, s, t, saves, submits, since); }
    hide Own, NewsIs, Reread, Settled, News, SubmissionAt, ConflictExactly;
    ReadingSays(norm, tab, d, sub, news);
  }

  /** What the row and the submission must show for the news to be forgotten work. */
  ghost predicate NewsIs(norm: Normalizer, tab: Tab, d: Option<Row>, sub: Option<Submission>, news: bool) {
    if VersionOf(d) <= tab.version then !news
    else
      && d.Some?
      && (news <==> if d.value.cleared then !(tab.pendingSubmit.Some? && sub.Some?
                                              && SameWork(norm, tab.pendingSubmit.value, Some(sub.value.work)))
                    else d.value.work != tab.work && d.value.work !in tab.unconfirmed)
  }

  lemma ReadingSays(norm: Normalizer, tab: Tab, d: Option<Row>, sub: Option<Submission>, news: bool)
    requires NewsIs(norm, tab, d, sub, news)
    ensures ConflictExactly(tab, Reread(norm, tab, d, sub), news)
  {
    hide SameWork, StartingWork;
  }

  lemma NewsFits(norm: Normalizer, s: State, t: nat, saves: iset<Work>, submits: iset<Work>, since: nat)
    requires Settled(norm) && Own(norm, s, t, saves, submits, since) && s.tabs[t].phase.Idle?
    ensures NewsIs(norm, s.tabs[t], s.row, SubmissionAt(s.filed, |s.filed|),
                   News(norm, s, s.tabs[t], saves, submits, since))
  {
    TabVersion(norm, s, t);
    RowIsNewest(norm, s);
    if |s.history| > s.tabs[t].version && |s.history| > since { NewestKnown(norm, s, t, saves, submits, since); }
    hide Own, Inv, Settled, NewsIs, News;
    NewsOfNewest(norm, s, s.tabs[t], saves, submits, since);
  }

  /** The newest version, past the tab's and the first `since`: a text listed or forgotten, or a clear after such a submit. */
  ghost predicate NewestIsKnown(norm: Normalizer, s: State, tab: Tab, saves: iset<Work>, submits: iset<Work>)
    requires s.history != []
  {
    var newest := s.history[|s.history| - 1];
    if newest.Wrote? then newest.work in tab.unconfirmed <==> newest.work !in saves
    else
      && s.filed != []
      && var x := s.filed[|s.filed| - 1].work; Stored(norm, x) == x && (Pending(norm, tab, x) <==> x !in submits)
  }

  lemma NewestKnown(norm: Normalizer, s: State, t: nat, saves: iset<Work>, submits: iset<Work>, since: nat)
    requires Settled(norm) && Own(norm, s, t, saves, submits, since) && s.tabs[t].phase.Idle?
    requires 0 <= s.tabs[t].version < |s.history| && since < |s.history|
    ensures NewestIsKnown(norm, s, s.tabs[t], saves, submits)
  {
    hide *;
    OwnParts(norm, s, t, saves, submits, since);
    InvParts(norm, s);
    if s.history[|s.history| - 1].Wrote? {
      NewestSaveKnown(norm, s, t, saves, submits, since);
    } else {
      NewestClearKnown(norm, s, t, saves, submits, since);
    }
  }

  lemma OwnParts(norm: Normalizer, s: State, t: nat, saves: iset<Work>, submits: iset<Work>, since: nat)
    requires Own(norm, s, t, saves, submits, since)
    ensures Inv(norm, s) && t < |s.tabs| && NewerIsOwn(s, t, since) && Gone(norm, s.tabs[t], saves, submits)
    ensures SavesKnown(s, t, saves) && SubmitsKnown(norm, s, t, submits)
  {
    hide Inv, NewerIsOwn, Gone, SavesKnown, SubmitsKnown, NoWroteNothing, NoneAhead, ListFits;
  }

  lemma NewestSaveKnown(norm: Normalizer, s: State, t: nat, saves: iset<Work>, submits: iset<Work>, since: nat)
    requires t < |s.tabs| && s.tabs[t].phase.Idle? && SavesKnown(s, t, saves) && NewerIsOwn(s, t, since)
    requires RowFits(s) && Gone(norm, s.tabs[t], saves, submits)
    requires 0 <= s.tabs[t].version < |s.history| && since < |s.history| && s.history[|s.history| - 1].Wrote?
    ensures NewestIsKnown(norm, s, s.tabs[t], saves, submits)
  {
    assert EntryFits(s.sent, |s.history| - 1, s.history[|s.history| - 1]);
    hide SavesKnown, NewerIsOwn, RowFits, EntryFits, Pending;
    NewestSave(s, t, saves, since);
  }

  lemma NewestClearKnown(norm: Normalizer, s: State, t: nat, saves: iset<Work>, submits: iset<Work>, since: nat)
    requires Settled(norm) && t < |s.tabs| && s.tabs[t].phase.Idle?
    requires SubmitsKnown(norm, s, t, submits) && NewerIsOwn(s, t, since) && FilingsFit(norm, s)
    requires Gone(norm, s.tabs[t], saves, submits)
    requires 0 <= s.tabs[t].version < |s.history| && since < |s.history| && s.history[|s.history| - 1].Emptied?
    ensures NewestIsKnown(norm, s, s.tabs[t], saves, submits)
  {
    hide Settled, SubmitsKnown, NewerIsOwn, FilingsFit, Pending, Stored;
    NewestClear(norm, s, t, submits, since);
  }

  lemma NewsOfNewest(norm: Normalizer, s: State, tab: Tab, saves: iset<Work>, submits: iset<Work>, since: nat)
    requires VersionOf(s.row) == |s.history| && s.row == RowAt(s.history, |s.history|) && 0 <= tab.version
    requires |s.history| > tab.version && |s.history| > since ==> NewestIsKnown(norm, s, tab, saves, submits)
    ensures NewsIs(norm, tab, s.row, SubmissionAt(s.filed, |s.filed|), News(norm, s, tab, saves, submits, since))
  {
    hide Stored;
  }

  lemma NewestSave(s: State, t: nat, saves: iset<Work>, since: nat)
    requires t < |s.tabs| && s.tabs[t].phase.Idle? && SavesKnown(s, t, saves) && NewerIsOwn(s, t, since)
    requires 0 <= s.tabs[t].version < |s.history| && since < |s.history| && s.history[|s.history| - 1].Wrote?
    requires EntryFits(s.sent, |s.history| - 1, s.history[|s.history| - 1])
    ensures var w := s.history[|s.history| - 1].work; w in s.tabs[t].unconfirmed || w in saves
  {
    var id := s.history[|s.history| - 1].writer;
    assert OwnSave(s, t, id) && MayShow(s, id);
  }

  lemma NewestClear(norm: Normalizer, s: State, t: nat, submits: iset<Work>, since: nat)
    requires Settled(norm) && t < |s.tabs| && s.tabs[t].phase.Idle?
    requires SubmitsKnown(norm, s, t, submits) && NewerIsOwn(s, t, since) && FilingsFit(norm, s)
    requires 0 <= s.tabs[t].version < |s.history| && since < |s.history| && s.history[|s.history| - 1].Emptied?
    ensures s.filed != []
    ensures var x := s.filed[|s.filed| - 1].work;
            Stored(norm, x) == x && (Pending(norm, s.tabs[t], x) || x in submits)
  {
    var last := s.filed[|s.filed| - 1];
    assert FilingFits(norm, s, last);
    assert Coming(s, t, s.tabs[t].version, last.writer);
    var w := s.sent[last.writer].work;
    assert Stored(norm, Stored(norm, w)) == Stored(norm, w);
    hide Stored;
  }

  // ---------------------------------------------------------------------------------------------
  // Steps of the server
  // ---------------------------------------------------------------------------------------------

  /** Nothing the tab must remember is added by a step that leaves the tab alone. */
  ghost predicate NoneAdded(s: State, next: State, t: nat)
    requires t < |s.tabs|
  {
    && (forall id: nat :: OwnSave(s, t, id) && id < |next.sent| && MayShow(next, id) ==> MayShow(s, id))
    && (forall id: nat :: OwnSubmit(s, t, id) && Coming(next, t, s.tabs[t].version, id) ==> Coming(s, t, s.tabs[t].version, id))
  }

  lemma ServerOwns(norm: Normalizer, s: State, next: State, t: nat, saves: iset<Work>, submits: iset<Work>, since: nat)
    requires Own(norm, s, t, saves, submits, since) && Inv(norm, next)
    requires t < |next.tabs| && next.tabs[t] == s.tabs[t] && s.sent <= next.sent
    requires forall id: nat :: |s.sent| <= id < |next.sent| ==> next.sent[id].tab != t
    requires NoneAdded(s, next, t) && NoWroteNothing(next, t) && NewerIsOwn(next, t, since)
    ensures Own(norm, next, t, saves, submits, since)
  {
    hide Inv, NoWroteNothing, NewerIsOwn, ListFits, MayShow, Coming, Stored, Gone;
    assert SavesKnown(next, t, saves) by {
      forall id: nat | OwnSave(next, t, id) ensures OwnSave(s, t, id) && next.sent[id] == s.sent[id] {}
    }
    assert SubmitsKnown(norm, next, t, submits) by {
      forall id: nat | OwnSubmit(next, t, id) ensures OwnSubmit(s, t, id) && next.sent[id] == s.sent[id] {}
    }
  }

  lemma LessAnswered(replies: seq<Reply>, r: Reply, id: nat)
    requires Unanswered(replies + [r], id)
    ensures Unanswered(replies, id) && r.id != id
  {
    var all := replies + [r];
    assert all[|replies|] == r;
    forall k: nat | k < |replies| ensures replies[k].id != id { assert all[k] == replies[k]; }
  }

  /** A request that writes nothing is answered. */
  lemma AnsweredOwns(norm: Normalizer, s: State, t: nat, id: nat, answer: Answer, saves: iset<Work>, submits: iset<Work>,
                     since: nat)
    requires Own(norm, s, t, saves, submits, since) && Inv(norm, Answering(s, id, answer)) && id < |s.sent|
    requires s.sent[id].tab == t && !answer.Saved? ==>
               && (forall v: nat :: v < |s.history| && s.history[v].Wrote? ==> s.history[v].writer != id)
               && (answer.Stale? ==> !HasJob(s.jobs, id))
    ensures Own(norm, Answering(s, id, answer), t, saves, submits, since)
  {
    hide Inv, SavesKnown, SubmitsKnown, Gone, ListFits, Unanswered, HasJob, HalfDone, NoneAhead;
    var next := Answering(s, id, answer);
    forall i: nat | Unanswered(next.replies, i) ensures Unanswered(s.replies, i) {
      LessAnswered(s.replies, Reply(id, answer), i);
    }
    assert Clearing(next, t) == Clearing(s, t);
    hide Clearing;
    assert NoWroteNothing(next, t) by { hide NewerIsOwn; }
    hide NoWroteNothing;
    assert NewerIsOwn(next, t, since);
    assert NoneAdded(s, next, t);
    hide Own;
    ServerOwns(norm, s, next, t, saves, submits, since);
  }

  /** A request not answered yet has written nothing. */
  lemma UnansweredWrote(norm: Normalizer, s: State, id: nat)
    requires Inv(norm, s) && Unanswered(s.replies, id)
    ensures forall v: nat :: v < |s.history| && s.history[v].Wrote? ==> s.history[v].writer != id
  {
    hide RowFits, TabsFit, MessagesFit, RepliesFit, JobsFit, FilingsFit;
  }

  lemma SubmitsWriteNoDraft(norm: Normalizer, s: State, id: nat)
    requires Inv(norm, s) && id < |s.sent| && s.sent[id].kind.HandsIn?
    ensures forall v: nat :: v < |s.history| && s.history[v].Wrote? ==> s.history[v].writer != id
  {
    forall v: nat | v < |s.history| && s.history[v].Wrote? ensures s.history[v].writer != id {
      assert EntryFits(s.sent, v, s.history[v]);
    }
  }

  lemma SavesHaveNoJob(norm: Normalizer, s: State, id: nat)
    requires Inv(norm, s) && id < |s.sent| && s.sent[id].kind.Saves?
    ensures !HasJob(s.jobs, id)
  {
    forall j: nat | j < |s.jobs| ensures s.jobs[j].of != id { assert JobFits(norm, s, s.jobs[j]); }
  }

  lemma SaveRunOwns(norm: Normalizer, s: State, t: nat, id: nat, at: Instant, saves: iset<Work>, submits: iset<Work>, since: nat)
    requires Own(norm, s, t, saves, submits, since) && Enabled(s, RunSave(id, at)) && Lone(s, t, RunSave(id, at))
    ensures Own(norm, RunSaveStep(s, id, at), t, saves, submits, since)
  {
    var next := RunSaveStep(s, id, at);
    RunSaveKeeps(norm, s, id, at);
    UnansweredWrote(norm, s, id);
    SavesHaveNoJob(norm, s, id);
    TabVersion(norm, s, t);
    assert MessageFits(s, s.sent[id]) by { InvParts(norm, s); }
    SaveRow(s, id, at);
    RowIsNewest(norm, s);
    var last := next.replies[|s.replies|];
    assert next.replies == s.replies + [last] && last.id == id;
    if s.sent[id].base == |s.history| {
      assert last.answer.Saved?;
      hide Inv, RunSaveStep, MessageFits;
      SaveLandsOwns(norm, s, next, t, id, at, last, saves, submits, since);
    } else {
      assert next == Answering(s, id, last.answer);
      hide Inv, RunSaveStep, Own, MessageFits;
      AnsweredOwns(norm, s, t, id, last.answer, saves, submits, since);
    }
  }

  lemma SaveLandsOwns(norm: Normalizer, s: State, next: State, t: nat, id: nat, at: Instant, last: Reply, saves: iset<Work>,
                      submits: iset<Work>, since: nat)
    requires Own(norm, s, t, saves, submits, since) && Inv(norm, next) && id < |s.sent| && s.sent[id].tab == t
    requires Unanswered(s.replies, id) && s.sent[id].base == |s.history| && 0 <= s.tabs[t].version <= |s.history|
    requires last.id == id && last.answer.Saved? && next.replies == s.replies + [last]
    requires next.history == s.history + [Wrote(s.sent[id].work, at, id)]
    requires next.tabs == s.tabs && next.sent == s.sent && next.filed == s.filed && next.jobs == s.jobs
    ensures Own(norm, next, t, saves, submits, since)
  {
    hide Inv, SavesKnown, SubmitsKnown, Gone, ListFits, NoneAhead, NoWroteNothing, NewerIsOwn;
    SaveLandsParts(s, next, t, id, at, last, since);
    hide Own;
    ServerOwns(norm, s, next, t, saves, submits, since);
  }

  lemma SaveLandsParts(s: State, next: State, t: nat, id: nat, at: Instant, last: Reply, since: nat)
    requires t < |s.tabs| && NoWroteNothing(s, t) && NewerIsOwn(s, t, since)
    requires NoneAhead(s, t) && id < |s.sent| && s.sent[id].tab == t
    requires Unanswered(s.replies, id) && s.sent[id].base == |s.history| && 0 <= s.tabs[t].version <= |s.history|
    requires last.id == id && last.answer.Saved? && next.replies == s.replies + [last]
    requires next.history == s.history + [Wrote(s.sent[id].work, at, id)]
    requires next.tabs == s.tabs && next.sent == s.sent && next.filed == s.filed && next.jobs == s.jobs
    ensures NoneAdded(s, next, t) && NoWroteNothing(next, t) && NewerIsOwn(next, t, since)
  {
    forall i: nat | Unanswered(next.replies, i) ensures Unanswered(s.replies, i) { LessAnswered(s.replies, last, i); }
    hide HasJob, HalfDone;
    assert Clearing(next, t) == Clearing(s, t);
    hide Clearing;
    assert NoWroteNothing(next, t) by { hide NewerIsOwn, NoneAhead; }
    hide NoWroteNothing, Unanswered;
    assert NewerIsOwn(next, t, since) by { hide NoneAhead; }
    hide NewerIsOwn;
  }

  lemma RefusedOwns(norm: Normalizer, s: State, t: nat, id: nat, final: bool, saves: iset<Work>, submits: iset<Work>, since: nat)
    requires Own(norm, s, t, saves, submits, since) && Enabled(s, RefuseSave(id, final)) && Lone(s, t, RefuseSave(id, final))
    ensures Own(norm, Answering(s, id, Refused(final)), t, saves, submits, since)
  {
    RefusedKeeps(norm, s, id, final);
    if s.sent[id].tab == t { UnansweredWrote(norm, s, id); }
    hide Own, Inv;
    AnsweredOwns(norm, s, t, id, Refused(final), saves, submits, since);
  }

  lemma CheckedOwns(norm: Normalizer, s: State, t: nat, step: Step, saves: iset<Work>, submits: iset<Work>, since: nat)
    requires Own(norm, s, t, saves, submits, since) && step.CheckSubmit? && Enabled(s, step) && Lone(s, t, step)
    ensures Own(norm, CheckSubmitStep(norm, s, step.id, step.drafts, step.draft, step.submission), t, saves, submits, since)
  {
    var id, next := step.id, CheckSubmitStep(norm, s, step.id, step.drafts, step.draft, step.submission);
    CheckSubmitKeeps(norm, s, id, step.drafts, step.draft, step.submission);
    SubmitsWriteNoDraft(norm, s, id);
    assert next == Answering(s, id, Stale)
        || (|next.jobs| == |s.jobs| + 1 && next == s.(jobs := s.jobs + [next.jobs[|s.jobs|]])
            && next.jobs[|s.jobs|].of == id && next.jobs[|s.jobs|].stage.Checked?) by {
              hide SubmitConflict, RowAt, SubmissionAt;
            }
    hide Own, Inv, CheckSubmitStep;
    if next == Answering(s, id, Stale) {
      AnsweredOwns(norm, s, t, id, Stale, saves, submits, since);
    } else {
      NewJobOwns(norm, s, next, t, id, next.jobs[|s.jobs|], saves, submits, since);
    }
  }

  lemma NewJobOwns(norm: Normalizer, s: State, next: State, t: nat, id: nat, job: Job, saves: iset<Work>, submits: iset<Work>,
                   since: nat)
    requires Own(norm, s, t, saves, submits, since) && Inv(norm, next) && id < |s.sent| && (s.sent[id].tab == t ==> NotRun(s, id))
    requires next == s.(jobs := s.jobs + [job]) && job.of == id && job.stage.Checked?
    ensures Own(norm, next, t, saves, submits, since)
  {
    hide Inv, SavesKnown, SubmitsKnown, Gone, ListFits, NoneAhead, NoWroteNothing, NewerIsOwn, NotRun;
    NewJobParts(s, next, t, id, job, since);
    hide Own;
    ServerOwns(norm, s, next, t, saves, submits, since);
  }

  lemma NewJobParts(s: State, next: State, t: nat, id: nat, job: Job, since: nat)
    requires t < |s.tabs| && NoWroteNothing(s, t) && NewerIsOwn(s, t, since)
    requires id < |s.sent| && (s.sent[id].tab == t ==> NotRun(s, id))
    requires next == s.(jobs := s.jobs + [job]) && job.of == id && job.stage.Checked?
    ensures NoneAdded(s, next, t) && NoWroteNothing(next, t) && NewerIsOwn(next, t, since)
  {
    forall i: nat | i != id ensures HasJob(next.jobs, i) == HasJob(s.jobs, i) && HalfDone(next.jobs, i) == HalfDone(s.jobs, i) {
      OtherJob(s.jobs, job, i);
    }
    assert HasJob(next.jobs, id) by { assert next.jobs[|s.jobs|].of == id; }
    hide HasJob, HalfDone;
    assert Clearing(next, t) ==> Clearing(s, t);
    hide Clearing;
    assert NoWroteNothing(next, t) by { hide NewerIsOwn; }
    hide NoWroteNothing, Unanswered;
    assert NewerIsOwn(next, t, since);
    hide NewerIsOwn;
  }

  lemma OtherJob(jobs: seq<Job>, job: Job, id: nat)
    requires job.of != id
    ensures HasJob(jobs + [job], id) == HasJob(jobs, id) && HalfDone(jobs + [job], id) == HalfDone(jobs, id)
  {
    var all := jobs + [job];
    forall j: nat | j < |jobs| ensures all[j] == jobs[j] {}
    if HasJob(jobs, id) { var j: nat :| j < |jobs| && jobs[j].of == id; assert all[j].of == id; }
    if HalfDone(jobs, id) { var j: nat :| j < |jobs| && jobs[j].of == id && !jobs[j].stage.Finished?; assert all[j].of == id; }
  }

  /** A job moves on a stage. */
  ghost predicate MovesOn(s: State, next: State, j: nat) {
    && j < |s.jobs| && |next.jobs| == |s.jobs| && (forall i: nat :: i < |s.jobs| ==> next.jobs[i].of == s.jobs[i].of)
    && (forall i: nat :: i < |s.jobs| && i != j ==> next.jobs[i] == s.jobs[i])
    && !s.jobs[j].stage.Finished?
  }

  lemma SameJobs(s: State, next: State, j: nat, id: nat)
    requires MovesOn(s, next, j)
    ensures HasJob(next.jobs, id) == HasJob(s.jobs, id) && (HalfDone(next.jobs, id) ==> HalfDone(s.jobs, id))
  {
    if HasJob(s.jobs, id) { var i: nat :| i < |s.jobs| && s.jobs[i].of == id; assert next.jobs[i].of == id; }
    if HasJob(next.jobs, id) { var i: nat :| i < |s.jobs| && next.jobs[i].of == id; assert s.jobs[i].of == id; }
    if HalfDone(next.jobs, id) {
      var i: nat :| i < |s.jobs| && next.jobs[i].of == id && !next.jobs[i].stage.Finished?;
      assert s.jobs[i].of == id && !s.jobs[i].stage.Finished?;
    }
  }

  lemma FiledOwns(norm: Normalizer, s: State, t: nat, j: nat, at: Instant, saves: iset<Work>, submits: iset<Work>, since: nat)
    requires Own(norm, s, t, saves, submits, since) && Enabled(s, FileSubmit(j, at)) && Lone(s, t, FileSubmit(j, at))
    ensures Own(norm, FileSubmitStep(norm, s, j, at), t, saves, submits, since)
  {
    hide FileSubmitStep, Inv, NoWroteNothing, NoneAhead, NewerIsOwn, ListFits, Gone, SavesKnown, SubmitsKnown;
    var next, id := FileSubmitStep(norm, s, j, at), s.jobs[j].of;
    FileSubmitKeeps(norm, s, j, at);
    InvParts(norm, s);
    assert JobFits(norm, s, s.jobs[j]);
    assert OwnSubmit(s, t, id);
    hide Own, JobFits, JobsFit, RowFits, TabsFit, MessagesFit, RepliesFit, FilingsFit, WritesAnswered;
    FilesOwns(norm, s, next, t, j, saves, submits, since) by { StoredShape(norm, s, j, at); }
  }

  lemma StoredShape(norm: Normalizer, s: State, j: nat, at: Instant)
    requires Enabled(s, FileSubmit(j, at))
    ensures var next := FileSubmitStep(norm, s, j, at);
            && MovesOn(s, next, j) && next == s.(filed := next.filed, jobs := next.jobs)
            && next.filed != [] && next.filed[|next.filed| - 1].writer == s.jobs[j].of
  {
    hide Stored;
  }

  lemma FilesOwns(norm: Normalizer, s: State, next: State, t: nat, j: nat, saves: iset<Work>, submits: iset<Work>, since: nat)
    requires Own(norm, s, t, saves, submits, since) && Inv(norm, next) && MovesOn(s, next, j) && OwnSubmit(s, t, s.jobs[j].of)
    requires next == s.(filed := next.filed, jobs := next.jobs) && next.filed != []
    requires next.filed[|next.filed| - 1].writer == s.jobs[j].of
    ensures Own(norm, next, t, saves, submits, since)
  {
    hide Inv, SavesKnown, SubmitsKnown, Gone, ListFits, NoneAhead, NoWroteNothing, NewerIsOwn, MovesOn;
    FilesParts(s, next, t, j, since);
    hide Own;
    ServerOwns(norm, s, next, t, saves, submits, since);
  }

  lemma FilesParts(s: State, next: State, t: nat, j: nat, since: nat)
    requires t < |s.tabs| && NoWroteNothing(s, t) && NewerIsOwn(s, t, since)
    requires MovesOn(s, next, j) && OwnSubmit(s, t, s.jobs[j].of)
    requires next == s.(filed := next.filed, jobs := next.jobs) && next.filed != []
    requires next.filed[|next.filed| - 1].writer == s.jobs[j].of
    ensures NoneAdded(s, next, t) && NoWroteNothing(next, t) && NewerIsOwn(next, t, since)
  {
    forall i: nat ensures HasJob(next.jobs, i) == HasJob(s.jobs, i) && (HalfDone(next.jobs, i) ==> HalfDone(s.jobs, i)) {
      SameJobs(s, next, j, i);
    }
    assert HalfDone(s.jobs, s.jobs[j].of);
    hide Unanswered, HasJob, HalfDone, Clearing, MovesOn;
    assert NoWroteNothing(next, t) by { hide NewerIsOwn; }
    hide NoWroteNothing;
    assert NewerIsOwn(next, t, since);
    hide NewerIsOwn;
  }

  lemma ClearShape(s: State, j: nat, at: Instant, heard: bool)
    requires Enabled(s, ClearSubmit(j, at, heard))
    ensures var next := ClearSubmitStep(s, j, at, heard);
            && (next.history == s.history || exists at :: next.history == s.history + [Emptied(at, s.jobs[j].of)])
            && (exists version :: next.replies == s.replies + [Reply(s.jobs[j].of, HandedIn(version))])
            && next.jobs == s.jobs[j := s.jobs[j].(stage := Finished)]
            && next.tabs == s.tabs && next.sent == s.sent && next.filed == s.filed
  {
    hide ClearWrites, ClearAnswer;
    var next := ClearSubmitStep(s, j, at, heard);
    var answer := next.replies[|s.replies|].answer;
    assert next.replies == s.replies + [Reply(s.jobs[j].of, HandedIn(answer.version))];
  }

  /** The server finishes a submit: it may have emptied the row, and it answers. */
  lemma FinishOwns(norm: Normalizer, s: State, next: State, t: nat, j: nat, saves: iset<Work>, submits: iset<Work>, since: nat)
    requires Own(norm, s, t, saves, submits, since) && Inv(norm, next)
    requires j < |s.jobs| && s.jobs[j].stage.InPlace? && s.jobs[j].of < |s.sent|
    requires next.tabs == s.tabs && next.sent == s.sent && next.filed == s.filed
    requires next.jobs == s.jobs[j := s.jobs[j].(stage := Finished)]
    requires exists version :: next.replies == s.replies + [Reply(s.jobs[j].of, HandedIn(version))]
    requires next.history == s.history
             || (s.sent[s.jobs[j].of].tab == t && exists at :: next.history == s.history + [Emptied(at, s.jobs[j].of)])
    ensures Own(norm, next, t, saves, submits, since)
  {
    var id := s.jobs[j].of;
    var version :| next.replies == s.replies + [Reply(id, HandedIn(version))];
    assert JobFits(norm, s, s.jobs[j]) by { InvParts(norm, s); }
    SubmitsWriteNoDraft(norm, s, id);
    TabVersion(norm, s, t);
    hide Inv, JobFits;
    EndsOwns(norm, s, next, t, j, version, saves, submits, since);
  }

  lemma EndsOwns(norm: Normalizer, s: State, next: State, t: nat, j: nat, version: int, saves: iset<Work>, submits: iset<Work>,
                 since: nat)
    requires Own(norm, s, t, saves, submits, since) && Inv(norm, next) && s.tabs[t].version <= |s.history|
    requires j < |s.jobs| && s.jobs[j].stage.InPlace? && s.jobs[j].of < |s.sent|
    requires next.tabs == s.tabs && next.sent == s.sent && next.filed == s.filed
    requires next.jobs == s.jobs[j := s.jobs[j].(stage := Finished)]
    requires next.replies == s.replies + [Reply(s.jobs[j].of, HandedIn(version))]
    requires next.history == s.history
             || (s.sent[s.jobs[j].of].tab == t && exists at :: next.history == s.history + [Emptied(at, s.jobs[j].of)])
    requires forall v: nat :: v < |s.history| && s.history[v].Wrote? ==> s.history[v].writer != s.jobs[j].of
    ensures Own(norm, next, t, saves, submits, since)
  {
    hide Inv, SavesKnown, SubmitsKnown, Gone, ListFits, NoWroteNothing, NewerIsOwn, NoneAhead;
    EndsParts(s, next, t, j, version, since);
    hide Own;
    ServerOwns(norm, s, next, t, saves, submits, since);
  }

  lemma EndsParts(s: State, next: State, t: nat, j: nat, version: int, since: nat)
    requires t < |s.tabs| && NoWroteNothing(s, t) && NewerIsOwn(s, t, since)
    requires NoneAhead(s, t) && s.tabs[t].version <= |s.history|
    requires j < |s.jobs| && s.jobs[j].stage.InPlace? && s.jobs[j].of < |s.sent|
    requires next.tabs == s.tabs && next.sent == s.sent && next.filed == s.filed
    requires next.jobs == s.jobs[j := s.jobs[j].(stage := Finished)]
    requires next.replies == s.replies + [Reply(s.jobs[j].of, HandedIn(version))]
    requires next.history == s.history
             || (s.sent[s.jobs[j].of].tab == t && exists at :: next.history == s.history + [Emptied(at, s.jobs[j].of)])
    requires forall v: nat :: v < |s.history| && s.history[v].Wrote? ==> s.history[v].writer != s.jobs[j].of
    ensures NoneAdded(s, next, t) && NoWroteNothing(next, t) && NewerIsOwn(next, t, since)
  {
    var id := s.jobs[j].of;
    hide Unanswered, HasJob, HalfDone;
    forall i: nat ensures HasJob(next.jobs, i) == HasJob(s.jobs, i) && (HalfDone(next.jobs, i) ==> HalfDone(s.jobs, i)) {
      SameJobs(s, next, j, i);
    }
    forall i: nat | Unanswered(next.replies, i) ensures Unanswered(s.replies, i) {
      LessAnswered(s.replies, Reply(id, HandedIn(version)), i);
    }
    assert Clearing(next, t) ==> Clearing(s, t);
    assert s.sent[id].tab == t ==> Clearing(s, t);
    hide Clearing;
    assert NoWroteNothing(next, t) by { hide NewerIsOwn, NoneAhead; }
    hide NoWroteNothing;
    assert NewerIsOwn(next, t, since) by { hide NoneAhead; }
    assert NoneAdded(s, next, t) by { hide NewerIsOwn; }
  }

  // ---------------------------------------------------------------------------------------------
  // Steps of the tab
  // ---------------------------------------------------------------------------------------------

  /** A save the tab had in mind is still listed, or has been forgotten. */
  ghost predicate SavesPass(s: State, next: State, t: nat, saves: iset<Work>, after: iset<Work>)
    requires t < |s.tabs| && t < |next.tabs| && s.sent <= next.sent
  {
    && ListFits(next.tabs[t].unconfirmed) && (forall w :: w in after ==> w !in next.tabs[t].unconfirmed)
    && (forall id: nat ::
          OwnSave(s, t, id) && s.sent[id].base >= next.tabs[t].version && MayShow(s, id)
              && (Listed(s, t, id) || s.sent[id].work in saves) ==>
            Listed(next, t, id) || s.sent[id].work in after)
  }

  /** A submit the tab had in mind is still remembered, or has been forgotten. */
  ghost predicate SubmitsPass(norm: Normalizer, s: State, next: State, t: nat, submits: iset<Work>, after: iset<Work>)
    requires t < |s.tabs| && t < |next.tabs| && s.sent <= next.sent
  {
    && (forall x :: x in after ==> !Pending(norm, next.tabs[t], x))
    && (forall id: nat ::
          OwnSubmit(s, t, id) && Coming(s, t, next.tabs[t].version, id)
          && (Remembered(norm, s, t, id) || Stored(norm, s.sent[id].work) in submits) ==>
            Remembered(norm, next, t, id) || Stored(norm, s.sent[id].work) in after)
  }

  /** The tab moves, and may send: what it no longer has in mind was forgotten. */
  ghost predicate Moved(norm: Normalizer, s: State, next: State, t: nat, saves: iset<Work>, submits: iset<Work>,
                        saves2: iset<Work>, submits2: iset<Work>)
    requires t < |s.tabs| && t < |next.tabs|
  {
    && next.history == s.history && next.filed == s.filed && next.replies == s.replies && next.jobs == s.jobs
    && s.sent <= next.sent && s.tabs[t].version <= next.tabs[t].version
    && SavesPass(s, next, t, saves, saves2)
    && SubmitsPass(norm, s, next, t, submits, submits2)
    && (forall id: nat :: |s.sent| <= id < |next.sent| ==>
          next.sent[id].tab == t && next.sent[id].base == next.tabs[t].version
          && (if next.sent[id].kind.Saves? then Listed(next, t, id) else Remembered(norm, next, t, id)))
  }

  lemma MovedOwns(norm: Normalizer, s: State, next: State, t: nat,
                  saves: iset<Work>, submits: iset<Work>, saves2: iset<Work>, submits2: iset<Work>, since: nat)
    requires Own(norm, s, t, saves, submits, since) && Inv(norm, next) && t < |next.tabs|
    requires Moved(norm, s, next, t, saves, submits, saves2, submits2)
    ensures Own(norm, next, t, saves2, submits2, since)
  {
    InvParts(norm, s);
    JobsOfSent(norm, s);
    hide Inv, RowFits, TabsFit, MessagesFit, RepliesFit, JobsFit, FilingsFit, WritesAnswered;
    MovedParts(norm, s, next, t, saves, submits, saves2, submits2, since);
  }

  lemma JobsOfSent(norm: Normalizer, s: State)
    requires JobsFit(norm, s) && RepliesFit(s) && FilingsFit(norm, s)
    ensures forall j: nat :: j < |s.jobs| ==> s.jobs[j].of < |s.sent|
    ensures forall r: nat :: r < |s.replies| ==> s.replies[r].id < |s.sent|
    ensures forall k: nat :: k < |s.filed| ==> s.filed[k].writer < |s.sent|
  {
    forall j: nat | j < |s.jobs| ensures s.jobs[j].of < |s.sent| { assert JobFits(norm, s, s.jobs[j]); }
    forall r: nat | r < |s.replies| ensures s.replies[r].id < |s.sent| { assert ReplyFits(s, s.replies[r]); }
    forall k: nat | k < |s.filed| ensures s.filed[k].writer < |s.sent| { assert FilingFits(norm, s, s.filed[k]); }
  }

  lemma MovedParts(norm: Normalizer, s: State, next: State, t: nat,
                   saves: iset<Work>, submits: iset<Work>, saves2: iset<Work>, submits2: iset<Work>, since: nat)
    requires t < |s.tabs| && t < |next.tabs| && Moved(norm, s, next, t, saves, submits, saves2, submits2)
    requires NoWroteNothing(s, t) && NoneAhead(s, t) && NewerIsOwn(s, t, since)
    requires SavesKnown(s, t, saves) && SubmitsKnown(norm, s, t, submits)
    requires forall j: nat :: j < |s.jobs| ==> s.jobs[j].of < |s.sent|
    requires forall r: nat :: r < |s.replies| ==> s.replies[r].id < |s.sent|
    requires forall k: nat :: k < |s.filed| ==> s.filed[k].writer < |s.sent|
    ensures NoWroteNothing(next, t) && NoneAhead(next, t) && NewerIsOwn(next, t, since)
    ensures SavesKnown(next, t, saves2) && SubmitsKnown(norm, next, t, submits2)
    ensures ListFits(next.tabs[t].unconfirmed) && Gone(norm, next.tabs[t], saves2, submits2)
  {
    hide Unanswered, HasJob, HalfDone, Stored, ListFits, Listed, Remembered, Pending;
    assert Clearing(next, t) == Clearing(s, t);
    hide Clearing;
    assert NoWroteNothing(next, t) && NoneAhead(next, t) && NewerIsOwn(next, t, since) by {
      hide SavesKnown, SubmitsKnown, MayShow;
    }
    assert SavesKnown(next, t, saves2) by { hide NoWroteNothing, NewerIsOwn, SubmitsKnown, Coming; }
    assert SubmitsKnown(norm, next, t, submits2) by { hide NoWroteNothing, NewerIsOwn, SavesKnown, MayShow; }
  }

  /** The tab's version never falls, and its list is emptied only when the version rises or a submit is done. */
  ghost predicate ListDid(norm: Normalizer, s: State, next: State, t: nat, step: Step)
    requires t < |s.tabs| && t < |next.tabs| && Enabled(s, step)
  {
    var tab, after, done := s.tabs[t], next.tabs[t], DoneAt(norm, s, t, step);
    if done.Some? then after.version == done.value >= tab.version && after.unconfirmed == []
    else if after.version == tab.version then after.unconfirmed == tab.unconfirmed
    else after.version > tab.version && after.unconfirmed == []
  }

  /** The tab drops the submit it keeps only when one is done, and takes another only when that is left without an answer. */
  ghost predicate PendingDid(norm: Normalizer, s: State, next: State, t: nat, step: Step)
    requires t < |s.tabs| && t < |next.tabs| && Enabled(s, step)
  {
    next.tabs[t].pendingSubmit ==
      if DoneAt(norm, s, t, step).Some? then None
      else if step.SubmitLost? && step.tab == t then Some(s.sent[s.tabs[t].phase.id].work)
      else s.tabs[t].pendingSubmit
  }

  lemma SavesMove(norm: Normalizer, s: State, next: State, t: nat, step: Step, saves: iset<Work>)
    requires t < |s.tabs| && t < |next.tabs| && Enabled(s, step) && s.sent <= next.sent && ListDid(norm, s, next, t, step)
    requires step != SaveLost(t) && ListFits(s.tabs[t].unconfirmed) && forall w :: w in saves ==> w !in s.tabs[t].unconfirmed
    requires s.tabs[t].phase.Saving? && s.tabs[t].phase.id < |s.sent| ==>
               || next.tabs[t].phase == s.tabs[t].phase || next.tabs[t].version > s.tabs[t].version
               || !MayShow(s, s.tabs[t].phase.id)
    requires forall id: nat :: OwnSave(s, t, id) ==> s.sent[id].base <= s.tabs[t].version
    ensures SavesPass(s, next, t, saves, SavesAfter(norm, s, t, step, saves))
  {
    hide MayShow, DoneAt, Enabled;
    var after := SavesAfter(norm, s, t, step, saves);
    forall id: nat | OwnSave(s, t, id) && s.sent[id].base >= next.tabs[t].version && MayShow(s, id)
                     && (Listed(s, t, id) || s.sent[id].work in saves)
      ensures Listed(next, t, id) || s.sent[id].work in after
    {
      assert next.tabs[t].version == s.tabs[t].version;
      if DoneAt(norm, s, t, step).Some? { assert ForgetsSave(norm, s, t, step, s.sent[id].work); }
    }
  }

  lemma SubmitsMove(norm: Normalizer, s: State, next: State, t: nat, step: Step, submits: iset<Work>)
    requires t < |s.tabs| && t < |next.tabs| && Enabled(s, step) && s.sent <= next.sent && PendingDid(norm, s, next, t, step)
    requires next == Apply(norm, s, step) && forall x :: x in submits ==> !Pending(norm, s.tabs[t], x)
    requires s.tabs[t].phase.Submitting? && s.tabs[t].phase.id < |s.sent| ==>
               || next.tabs[t].phase == s.tabs[t].phase || step == SubmitRefused(t) || (step.SubmitLost? && step.tab == t)
               || DoneAt(norm, s, t, step).Some? || !Coming(s, t, next.tabs[t].version, s.tabs[t].phase.id)
    ensures SubmitsPass(norm, s, next, t, submits, SubmitsAfter(norm, s, t, step, submits))
  {
    hide Coming, DoneAt, Enabled, Apply, Stored;
    var after := SubmitsAfter(norm, s, t, step, submits);
    forall id: nat | OwnSubmit(s, t, id) && Coming(s, t, next.tabs[t].version, id)
                     && (Remembered(norm, s, t, id) || Stored(norm, s.sent[id].work) in submits)
      ensures Remembered(norm, next, t, id) || Stored(norm, s.sent[id].work) in after
    {
      var x := Stored(norm, s.sent[id].work);
      if LetsGoOfSubmit(norm, s, t, step, x) { assert ForgetsSubmit(norm, s, t, step, x); }
    }
  }

  /** A save left without an answer joins the list; where that is full, the second text in it makes room. */
  lemma LostSaveMoves(norm: Normalizer, s: State, next: State, t: nat, saves: iset<Work>)
    requires t < |s.tabs| && Enabled(s, SaveLost(t)) && next == Apply(norm, s, SaveLost(t))
    requires ListFits(s.tabs[t].unconfirmed) && forall w :: w in saves ==> w !in s.tabs[t].unconfirmed
    ensures SavesPass(s, next, t, saves, SavesAfter(norm, s, t, SaveLost(t), saves))
  {
    hide MayShow;
    var list, sent, step := s.tabs[t].unconfirmed, s.sent[s.tabs[t].phase.id].work, SaveLost(t);
    var after := SavesAfter(norm, s, t, step, saves);
    Joins(list, sent);
    hide WithUnconfirmed;
    forall id: nat | OwnSave(s, t, id) && s.sent[id].base >= next.tabs[t].version && MayShow(s, id)
                     && (Listed(s, t, id) || s.sent[id].work in saves)
      ensures Listed(next, t, id) || s.sent[id].work in after
    {
      if Overflows(s, t, step, s.sent[id].work) { assert ForgetsSave(norm, s, t, step, s.sent[id].work); }
    }
  }

  lemma Joins(list: seq<Work>, sent: Work)
    requires ListFits(list)
    ensures var next := WithUnconfirmed(list, sent);
            && ListFits(next) && sent in next
            && (forall w :: w in next ==> w in list || w == sent)
            && (forall w :: w in list ==> w in next || (sent !in list && |list| >= UNCONFIRMED_MAX && w == list[1]))
            && (sent !in list && |list| >= UNCONFIRMED_MAX ==> list[1] !in next)
  {
    if sent !in list && |list| + 1 > UNCONFIRMED_MAX {
      var all, next := list + [sent], WithUnconfirmed(list, sent);
      assert forall i: nat :: i < |next| ==> next[i] == if i == 0 then list[0] else all[i + 1];
      forall i: nat | i < |list| && i != 1 ensures list[i] in next {
        if i > 1 { assert next[i - 1] == list[i]; }
      }
      assert next[|next| - 1] == sent;
    }
  }

  // ---------------------------------------------------------------------------------------------
  // What each step of the tab does
  // ---------------------------------------------------------------------------------------------

  /** What a read leaves the tab with. */
  ghost predicate CaughtUp(tab: Tab, after: Tab, done: Option<int>) {
    && after.phase == tab.phase && after.stopped in {tab.stopped, Running}
    && after.pendingSubmit == (if done.Some? then None else tab.pendingSubmit)
    && (if done.Some? then after.version == done.value >= tab.version && after.unconfirmed == []
        else if after.version == tab.version then after.unconfirmed == tab.unconfirmed
        else after.version > tab.version && after.unconfirmed == [])
  }

  lemma CatchUpDoes(norm: Normalizer, s: State, tab: Tab, read: Read, afterSubmit: bool)
    requires Readable(s, read) && Recent(tab, read) && 0 <= tab.version
    ensures CaughtUp(tab, CatchUp(norm, s, tab, read, afterSubmit).0,
                     if read.Read? then DoneBy(norm, s, Reading(tab, read.draft, read.submission)) else None)
  {
    hide SameWork;
    if read.Read? {
      var d, sub := RowAt(s.history, read.draft), SubmissionAt(s.filed, read.submission);
      assert VersionOf(d) == read.draft;
      hide RowAt, SubmissionAt, VersionOf;
      if Reread(norm, tab, d, sub).Adopt? { AdoptsVersion(norm, sub, d); }
    }
  }

  lemma AdoptsVersion(norm: Normalizer, sub: Option<Submission>, d: Option<Row>)
    ensures StartingWork(norm, sub, d).version == VersionOf(d)
  {
    hide SameWork;
  }

  /** A step of the tab itself. */
  predicate ByTab(t: nat, step: Step) {
    match step
    case Type(u, _) => u == t
    case SendSave(u) => u == t
    case SaveAnswered(u, _, _) => u == t
    case SaveLost(u) => u == t
    case SendSubmit(u) => u == t
    case SubmitAnswered(u, _, _, _) => u == t
    case SubmitRefused(u) => u == t
    case SubmitLost(u, _) => u == t
    case PageRead(u, _, _) => u == t
    case _ => false
  }

  /** Only the tab changes, and at most one request goes out, which the tab waits for. */
  ghost predicate OnlyTab(s: State, next: State, t: nat)
    requires t < |s.tabs|
  {
    && next.history == s.history && next.filed == s.filed && next.replies == s.replies && next.jobs == s.jobs
    && |next.tabs| == |s.tabs|
    && (next.sent == s.sent
        || (|next.sent| == |s.sent| + 1 && s.sent <= next.sent
            && var m := next.sent[|s.sent|];
               && m.tab == t && m.base == next.tabs[t].version
               && (if m.kind.Saves? then next.tabs[t].phase == Saving(|s.sent|)
                   else next.tabs[t].phase.Submitting? && next.tabs[t].phase.id == |s.sent|)))
  }

  lemma TabShape(norm: Normalizer, s: State, t: nat, step: Step)
    requires t < |s.tabs| && Enabled(s, step) && ByTab(t, step)
    ensures OnlyTab(s, Apply(norm, s, step), t)
  {
    hide Opened, CatchUp, Take, FirstRead, WithUnconfirmed;
  }

  lemma OnlyTabMoved(norm: Normalizer, s: State, next: State, t: nat,
                     saves: iset<Work>, submits: iset<Work>, saves2: iset<Work>, submits2: iset<Work>)
    requires t < |s.tabs| && t < |next.tabs| && OnlyTab(s, next, t)
    requires s.sent <= next.sent && s.tabs[t].version <= next.tabs[t].version
    requires SavesPass(s, next, t, saves, saves2) && SubmitsPass(norm, s, next, t, submits, submits2)
    ensures Moved(norm, s, next, t, saves, submits, saves2, submits2)
  {
    hide SavesPass, SubmitsPass, Pending;
  }

  lemma TabStep(norm: Normalizer, s: State, t: nat, step: Step, saves: iset<Work>, submits: iset<Work>, since: nat)
    requires Own(norm, s, t, saves, submits, since) && Enabled(s, step) && ByTab(t, step)
    requires t < |Apply(norm, s, step).tabs| && s.sent <= Apply(norm, s, step).sent
    requires s.tabs[t].version <= Apply(norm, s, step).tabs[t].version
    requires SavesPass(s, Apply(norm, s, step), t, saves, SavesAfter(norm, s, t, step, saves))
    requires SubmitsPass(norm, s, Apply(norm, s, step), t, submits, SubmitsAfter(norm, s, t, step, submits))
    ensures Own(norm, Apply(norm, s, step), t, SavesAfter(norm, s, t, step, saves), SubmitsAfter(norm, s, t, step, submits),
                since)
  {
    var next := Apply(norm, s, step);
    StepKeeps(norm, s, step);
    TabShape(norm, s, t, step);
    var saves2, submits2 := SavesAfter(norm, s, t, step, saves), SubmitsAfter(norm, s, t, step, submits);
    hide Inv, Own, Apply, Enabled, ByTab, SavesPass, SubmitsPass, SavesAfter, SubmitsAfter, OnlyTab, Moved;
    OnlyTabMoved(norm, s, next, t, saves, submits, saves2, submits2);
    MovedOwns(norm, s, next, t, saves, submits, saves2, submits2, since);
  }

  /** Any step of the tab but losing a save's answer. */
  lemma PlainTabStep(norm: Normalizer, s: State, t: nat, step: Step, saves: iset<Work>, submits: iset<Work>, since: nat)
    requires Own(norm, s, t, saves, submits, since) && Enabled(s, step) && ByTab(t, step) && Lone(s, t, step)
    requires step != SaveLost(t) && t < |Apply(norm, s, step).tabs|
    requires ListDid(norm, s, Apply(norm, s, step), t, step) && PendingDid(norm, s, Apply(norm, s, step), t, step)
    requires var tab, after := s.tabs[t], Apply(norm, s, step).tabs[t];
             && (tab.phase.Saving? && tab.phase.id < |s.sent| ==>
                   after.phase == tab.phase || after.version > tab.version || !MayShow(s, tab.phase.id))
             && (tab.phase.Submitting? && tab.phase.id < |s.sent| ==>
                   || after.phase == tab.phase || step == SubmitRefused(t) || (step.SubmitLost? && step.tab == t)
                   || DoneAt(norm, s, t, step).Some? || !Coming(s, t, after.version, tab.phase.id))
    ensures Own(norm, Apply(norm, s, step), t, SavesAfter(norm, s, t, step, saves), SubmitsAfter(norm, s, t, step, submits),
                since)
  {
    var next := Apply(norm, s, step);
    TabShape(norm, s, t, step);
    assert s.sent <= next.sent && s.tabs[t].version <= next.tabs[t].version by { hide Apply, Own; }
    hide Apply, Enabled, ByTab, Lone, MayShow, Coming, SavesKnown, SubmitsKnown, NoWroteNothing, NewerIsOwn, DoneAt, Inv,
      OnlyTab, ListFits,
      SavesAfter, SubmitsAfter, SavesPass, SubmitsPass, ListDid, PendingDid;
    SavesMove(norm, s, next, t, step, saves);
    SubmitsMove(norm, s, next, t, step, submits);
    hide Own;
    TabStep(norm, s, t, step, saves, submits, since);
  }

  lemma SaveLostOwns(norm: Normalizer, s: State, t: nat, saves: iset<Work>, submits: iset<Work>, since: nat)
    requires Own(norm, s, t, saves, submits, since) && Enabled(s, SaveLost(t))
    ensures var step := SaveLost(t);
            Own(norm, Apply(norm, s, step), t, SavesAfter(norm, s, t, step, saves), SubmitsAfter(norm, s, t, step, submits),
                since)
  {
    var step := SaveLost(t);
    var next := Apply(norm, s, step);
    assert s.sent == next.sent && s.tabs[t].version == next.tabs[t].version && PendingDid(norm, s, next, t, step) by {
      hide WithUnconfirmed, Own;
    }
    hide Apply, Enabled, ByTab, MayShow, Coming, SavesKnown, SubmitsKnown, NoWroteNothing, NewerIsOwn, DoneAt, Inv, ListFits,
      SavesAfter, SubmitsAfter, SavesPass, SubmitsPass, PendingDid;
    LostSaveMoves(norm, s, next, t, saves);
    SubmitsMove(norm, s, next, t, step, submits);
    hide Own;
    TabStep(norm, s, t, step, saves, submits, since);
  }

  lemma QuietOwns(norm: Normalizer, s: State, t: nat, step: Step, saves: iset<Work>, submits: iset<Work>, since: nat)
    requires Own(norm, s, t, saves, submits, since) && Enabled(s, step) && ByTab(t, step) && Lone(s, t, step)
    requires step.Type? || step.SendSave? || step.SendSubmit? || step.PageRead? || step.SubmitRefused?
    ensures Own(norm, Apply(norm, s, step), t, SavesAfter(norm, s, t, step, saves), SubmitsAfter(norm, s, t, step, submits),
                since)
  {
    assert Inv(norm, s);
    hide Own, Inv, MayShow, Coming, Take, FirstRead, Lone;
    TabVersion(norm, s, t);
    if step.PageRead? { FirstReadTakes(norm, s, s.tabs[t], step.draft, step.submission); }
    assert t < |Apply(norm, s, step).tabs|;
    PlainTabStep(norm, s, t, step, saves, submits, since);
  }

  lemma FirstReadTakes(norm: Normalizer, s: State, tab: Tab, draft: nat, submission: nat)
    requires draft <= |s.history| && submission <= |s.filed|
    ensures var r := FirstRead(norm, tab, RowAt(s.history, draft), SubmissionAt(s.filed, submission));
            r.Adopt? || r.Landed? ==>
              var after := Take(tab, r);
              after.version > tab.version && after.unconfirmed == [] && after.pendingSubmit == tab.pendingSubmit
                  && after.phase == tab.phase
  {
    hide SameWork;
    var d, sub := RowAt(s.history, draft), SubmissionAt(s.filed, submission);
    hide RowAt, SubmissionAt;
    AdoptsVersion(norm, sub, d);
    hide StartingWork;
  }

  /** A save told no neither wrote nor can write. */
  lemma ToldNo(norm: Normalizer, s: State, t: nat, reply: nat)
    requires RowFits(s) && NoWroteNothing(s, t) && reply < |s.replies| && !s.replies[reply].answer.Saved?
    requires s.replies[reply].id < |s.sent| && s.sent[s.replies[reply].id].tab == t
    ensures !MayShow(s, s.replies[reply].id)
  {}

  /** A submit told "stale" was not run and won't be. */
  lemma ToldStale(norm: Normalizer, s: State, t: nat, reply: nat, version: int)
    requires FilingsFit(norm, s) && NoWroteNothing(s, t) && reply < |s.replies| && s.replies[reply].answer.Stale?
    requires s.replies[reply].id < |s.sent| && s.sent[s.replies[reply].id].tab == t
    ensures !Coming(s, t, version, s.replies[reply].id)
  {
    var id := s.replies[reply].id;
    assert !HasJob(s.jobs, id) && !Unanswered(s.replies, id);
    if s.filed != [] { assert FilingFits(norm, s, s.filed[|s.filed| - 1]); }
  }

  lemma SaveAnswerDoes(norm: Normalizer, s: State, t: nat, step: Step)
    requires t < |s.tabs| && step.SaveAnswered? && step.tab == t && Enabled(s, step) && Lone(s, t, step) && 0 <= s.tabs[t].version
    requires var answer := s.replies[step.reply].answer;
             !answer.HandedIn? && (answer.Saved? ==> answer.version > s.tabs[t].version)
    ensures var next := Apply(norm, s, step);
            && t < |next.tabs| && ListDid(norm, s, next, t, step) && PendingDid(norm, s, next, t, step)
            && (s.replies[step.reply].answer.Saved? ==> next.tabs[t].version > s.tabs[t].version)
  {
    var idle := s.tabs[t].(phase := Idle);
    CatchUpDoes(norm, s, idle, step.read, false);
    hide CatchUp, DoneBy;
  }

  lemma SaveAnsweredOwns(norm: Normalizer, s: State, t: nat, step: Step, saves: iset<Work>, submits: iset<Work>, since: nat)
    requires Own(norm, s, t, saves, submits, since) && step.SaveAnswered? && step.tab == t && Enabled(s, step) && Lone(s, t, step)
    ensures Own(norm, Apply(norm, s, step), t, SavesAfter(norm, s, t, step, saves), SubmitsAfter(norm, s, t, step, submits),
                since)
  {
    InvParts(norm, s);
    assert TabFits(s, t, s.tabs[t]) && ReplyFits(s, s.replies[step.reply]);
    hide Inv, MayShow, Coming, TabsFit, MessagesFit, RepliesFit, JobsFit, FilingsFit, WritesAnswered, RowFits, Known;
    SaveAnswerDoes(norm, s, t, step);
    if !s.replies[step.reply].answer.Saved? { ToldNo(norm, s, t, step.reply); }
    hide Own, Apply, TabFits, ReplyFits, ListDid, PendingDid;
    PlainTabStep(norm, s, t, step, saves, submits, since);
  }

  lemma SubmitAnswerDoes(norm: Normalizer, s: State, t: nat, step: Step)
    requires t < |s.tabs| && step.SubmitAnswered? && step.tab == t
    requires Enabled(s, step) && Lone(s, t, step) && 0 <= s.tabs[t].version
    requires s.sent[s.tabs[t].phase.id].kind.HandsIn?
    requires var answer := s.replies[step.reply].answer; answer.HandedIn? ==> answer.version >= s.tabs[t].version
    ensures var next := Apply(norm, s, step);
            t < |next.tabs| && ListDid(norm, s, next, t, step) && PendingDid(norm, s, next, t, step)
  {
    var idle := s.tabs[t].(phase := Idle);
    CatchUpDoes(norm, s, idle, step.read, true);
    hide CatchUp, DoneBy;
  }

  lemma SubmitAnsweredOwns(norm: Normalizer, s: State, t: nat, step: Step, saves: iset<Work>, submits: iset<Work>, since: nat)
    requires Own(norm, s, t, saves, submits, since) && step.SubmitAnswered?
    requires step.tab == t && Enabled(s, step) && Lone(s, t, step)
    ensures Own(norm, Apply(norm, s, step), t, SavesAfter(norm, s, t, step, saves), SubmitsAfter(norm, s, t, step, submits),
                since)
  {
    InvParts(norm, s);
    assert TabFits(s, t, s.tabs[t]) && ReplyFits(s, s.replies[step.reply]);
    hide Inv, MayShow, Coming, TabsFit, MessagesFit, RepliesFit, JobsFit, FilingsFit, WritesAnswered, RowFits, Known;
    SubmitAnswerDoes(norm, s, t, step);
    if s.replies[step.reply].answer.Stale? { ToldStale(norm, s, t, step.reply, Apply(norm, s, step).tabs[t].version); }
    assert s.replies[step.reply].answer.HandedIn? ==> DoneAt(norm, s, t, step).Some?;
    hide Own, Apply, TabFits, ReplyFits, ListDid, PendingDid, DoneAt;
    PlainTabStep(norm, s, t, step, saves, submits, since);
  }

  lemma LostSubmitDoes(norm: Normalizer, s: State, t: nat, step: Step)
    requires t < |s.tabs| && step.SubmitLost? && step.tab == t && Enabled(s, step) && Lone(s, t, step) && 0 <= s.tabs[t].version
    ensures var next := Apply(norm, s, step);
            t < |next.tabs| && ListDid(norm, s, next, t, step) && PendingDid(norm, s, next, t, step)
  {
    var lost := s.tabs[t].(phase := Idle, pendingSubmit := Some(s.sent[s.tabs[t].phase.id].work));
    CatchUpDoes(norm, s, lost, step.read, true);
    hide CatchUp, DoneBy;
  }

  lemma SubmitLostOwns(norm: Normalizer, s: State, t: nat, step: Step, saves: iset<Work>, submits: iset<Work>, since: nat)
    requires Own(norm, s, t, saves, submits, since) && step.SubmitLost? && step.tab == t && Enabled(s, step) && Lone(s, t, step)
    ensures Own(norm, Apply(norm, s, step), t, SavesAfter(norm, s, t, step, saves), SubmitsAfter(norm, s, t, step, submits),
                since)
  {
    assert Inv(norm, s) && t < |s.tabs| && s.tabs[t].phase.Submitting?;
    hide Own, Inv, Apply, Lone, MayShow, Coming, ListDid, PendingDid, DoneAt;
    TabVersion(norm, s, t);
    LostSubmitDoes(norm, s, t, step);
    PlainTabStep(norm, s, t, step, saves, submits, since);
  }

  // ---------------------------------------------------------------------------------------------
  // Over every lone run
  // ---------------------------------------------------------------------------------------------

  /** A step of another tab, which the server is not asked to do anything for. */
  predicate Elsewhere(t: nat, step: Step) {
    match step
    case Open(_, _) => true
    case Type(u, _) => u != t
    case SendSave(u) => u != t
    case SaveAnswered(u, _, _) => u != t
    case SaveLost(u) => u != t
    case SendSubmit(u) => u != t
    case SubmitAnswered(u, _, _, _) => u != t
    case SubmitRefused(u) => u != t
    case SubmitLost(u, _) => u != t
    case PageRead(u, _, _) => u != t
    case _ => false
  }

  lemma ElsewhereShape(norm: Normalizer, s: State, t: nat, step: Step)
    requires t < |s.tabs| && Enabled(s, step) && Elsewhere(t, step)
    ensures var next := Apply(norm, s, step);
            && t < |next.tabs| && next.tabs[t] == s.tabs[t] && s.sent <= next.sent
            && (forall id: nat :: |s.sent| <= id < |next.sent| ==> next.sent[id].tab != t)
            && next.history == s.history && next.filed == s.filed && next.replies == s.replies && next.jobs == s.jobs
  {
    hide Opened, CatchUp, Take, FirstRead, WithUnconfirmed;
  }

  lemma ElsewhereOwns(norm: Normalizer, s: State, t: nat, step: Step, saves: iset<Work>, submits: iset<Work>, since: nat)
    requires Own(norm, s, t, saves, submits, since) && Enabled(s, step) && Elsewhere(t, step)
    ensures Own(norm, Apply(norm, s, step), t, saves, submits, since)
  {
    var next := Apply(norm, s, step);
    StepKeeps(norm, s, step);
    ElsewhereShape(norm, s, t, step);
    InvParts(norm, s);
    JobsOfSent(norm, s);
    hide Inv, RowFits, TabsFit, MessagesFit, RepliesFit, JobsFit, FilingsFit, WritesAnswered, Apply, Enabled, Elsewhere;
    ElsewhereParts(s, next, t, since);
    hide Own;
    ServerOwns(norm, s, next, t, saves, submits, since);
  }

  lemma ElsewhereParts(s: State, next: State, t: nat, since: nat)
    requires t < |s.tabs| && NoWroteNothing(s, t) && NewerIsOwn(s, t, since) && s.sent <= next.sent
    requires t < |next.tabs| && next.tabs[t] == s.tabs[t]
    requires next.history == s.history && next.filed == s.filed && next.replies == s.replies && next.jobs == s.jobs
    requires forall j: nat :: j < |s.jobs| ==> s.jobs[j].of < |s.sent|
    requires forall r: nat :: r < |s.replies| ==> s.replies[r].id < |s.sent|
    ensures NoneAdded(s, next, t) && NoWroteNothing(next, t) && NewerIsOwn(next, t, since)
  {
    hide Unanswered, HasJob, HalfDone;
    assert Clearing(next, t) == Clearing(s, t);
    hide Clearing;
    assert NoWroteNothing(next, t) by { hide NewerIsOwn; }
    hide NoWroteNothing;
  }

  /** A step of the server for the tab. */
  lemma ServedOwns(norm: Normalizer, s: State, t: nat, step: Step, saves: iset<Work>, submits: iset<Work>, since: nat)
    requires Own(norm, s, t, saves, submits, since) && Enabled(s, step)
    requires Lone(s, t, step) && !ByTab(t, step) && !Elsewhere(t, step)
    ensures Own(norm, Apply(norm, s, step), t, saves, submits, since)
  {
    hide Own, Inv, RunSaveStep, CheckSubmitStep, FileSubmitStep, ClearSubmitStep, SkipClearStep;
    match step {
      case RunSave(id, at) => SaveRunOwns(norm, s, t, id, at, saves, submits, since);
      case RefuseSave(id, final) => RefusedOwns(norm, s, t, id, final, saves, submits, since);
      case CheckSubmit(_, _, _, _) => CheckedOwns(norm, s, t, step, saves, submits, since);
      case FileSubmit(j, at) => FiledOwns(norm, s, t, j, at, saves, submits, since);
      case ClearSubmit(j, at, heard) => FinishedOwns(norm, s, t, step, saves, submits, since);
      case SkipClear(j) => FinishedOwns(norm, s, t, step, saves, submits, since);
      case _ => assert false;
    }
  }

  lemma FinishedOwns(norm: Normalizer, s: State, t: nat, step: Step, saves: iset<Work>, submits: iset<Work>, since: nat)
    requires Own(norm, s, t, saves, submits, since) && Enabled(s, step)
    requires Lone(s, t, step) && (step.ClearSubmit? || step.SkipClear?)
    ensures Own(norm, Apply(norm, s, step), t, saves, submits, since)
  {
    var next := Apply(norm, s, step);
    StepKeeps(norm, s, step);
    hide Own, Inv, ClearSubmitStep;
    if step.ClearSubmit? { ClearShape(s, step.job, step.at, step.heard); }
    FinishOwns(norm, s, next, t, step.job, saves, submits, since);
  }

  /** Every step of a lone run, with what it makes the tab forget. */
  lemma StepOwns(norm: Normalizer, s: State, t: nat, step: Step, saves: iset<Work>, submits: iset<Work>, since: nat)
    requires Own(norm, s, t, saves, submits, since) && Enabled(s, step) && Lone(s, t, step)
    ensures Own(norm, Apply(norm, s, step), t, SavesAfter(norm, s, t, step, saves), SubmitsAfter(norm, s, t, step, submits),
                since)
  {
    assert t < |s.tabs|;
    hide Own, Enabled, Lone, Apply, SavesAfter, SubmitsAfter;
    if ByTab(t, step) {
      match step {
        case SaveAnswered(_, _, _) => SaveAnsweredOwns(norm, s, t, step, saves, submits, since);
        case SaveLost(_) => SaveLostOwns(norm, s, t, saves, submits, since);
        case SubmitAnswered(_, _, _, _) => SubmitAnsweredOwns(norm, s, t, step, saves, submits, since);
        case SubmitLost(_, _) => SubmitLostOwns(norm, s, t, step, saves, submits, since);
        case _ => QuietOwns(norm, s, t, step, saves, submits, since);
      }
    } else {
      NothingToForget(norm, s, t, step, saves, submits);
      if Elsewhere(t, step) { ElsewhereOwns(norm, s, t, step, saves, submits, since); }
      else { ServedOwns(norm, s, t, step, saves, submits, since); }
    }
  }

  /** What isn't the tab's own step makes it forget nothing. */
  lemma NothingToForget(norm: Normalizer, s: State, t: nat, step: Step, saves: iset<Work>, submits: iset<Work>)
    requires t < |s.tabs| && Enabled(s, step) && !ByTab(t, step)
    ensures SavesAfter(norm, s, t, step, saves) == saves && SubmitsAfter(norm, s, t, step, submits) == submits
  {
    hide Enabled, Apply, MayShow, Coming;
    assert DoneAt(norm, s, t, step).None?;
  }

  /** A tab just opened, on a page of any age: what is there counts as before it, unless the page shows all of it. */
  lemma OpenedOwns(norm: Normalizer, s: State, draft: nat, submission: nat, since: nat)
    requires Inv(norm, s) && draft <= |s.history| && submission <= |s.filed| && (since == |s.history| || draft == |s.history|)
    ensures |s.tabs| < |Apply(norm, s, Open(draft, submission)).tabs|
    ensures Own(norm, Apply(norm, s, Open(draft, submission)), |s.tabs|, iset{}, iset{}, since)
  {
    var t, step := |s.tabs|, Open(draft, submission);
    var next := Apply(norm, s, step);
    assert Enabled(s, step);
    StepKeeps(norm, s, step);
    InvParts(norm, s);
    StartKnown(norm, s.history, s.filed, draft, submission, {});
    assert next.tabs[t].version == draft && next.tabs[t].unconfirmed == [];
    hide Inv, StartingWork, TabsFit, RowFits, JobsFit, FilingsFit, WritesAnswered, Opened;
    assert next == s.(tabs := next.tabs);
    hide Apply;
    NobodySentFor(s, t);
    hide RepliesFit, MessagesFit, NoWroteNothing, NoneAhead, NewerIsOwn, ListFits, Gone, SavesKnown, SubmitsKnown;
    BlankOwns(norm, next, t, since);
  }

  /** A tab that has sent nothing and lists nothing. */
  lemma BlankOwns(norm: Normalizer, s: State, t: nat, since: nat)
    requires t < |s.tabs| && s.tabs[t].unconfirmed == [] && (since == |s.history| || s.tabs[t].version == |s.history|)
    requires forall id: nat :: id < |s.sent| ==> s.sent[id].tab != t
    ensures NoWroteNothing(s, t) && NoneAhead(s, t) && NewerIsOwn(s, t, since) && ListFits(s.tabs[t].unconfirmed)
    ensures Gone(norm, s.tabs[t], iset{}, iset{}) && SavesKnown(s, t, iset{}) && SubmitsKnown(norm, s, t, iset{})
  {
    hide Unanswered, HasJob, HalfDone, Stored, MayShow, Coming;
  }

  /** Nothing has been sent for a tab not opened yet. */
  lemma NobodySentFor(s: State, t: nat)
    requires MessagesFit(s) && t >= |s.tabs|
    ensures forall id: nat :: id < |s.sent| ==> s.sent[id].tab != t
  {
    forall id: nat | id < |s.sent| ensures s.sent[id].tab != t { assert MessageFits(s, s.sent[id]); }
  }

  ghost function ForgottenSaves(norm: Normalizer, s: State, t: nat, steps: seq<Step>): iset<Work>
    requires t < |s.tabs| && LoneRun(norm, s, t, steps).Some?
  {
    iset w | ForgotSave(norm, s, t, steps, w)
  }

  ghost function ForgottenSubmits(norm: Normalizer, s: State, t: nat, steps: seq<Step>): iset<Work>
    requires t < |s.tabs| && LoneRun(norm, s, t, steps).Some?
  {
    iset x | ForgotSubmit(norm, s, t, steps, x)
  }

  lemma {:induction false} LoneRunOwns(norm: Normalizer, s: State, t: nat, steps: seq<Step>, since: nat)
    requires t < |s.tabs| && Own(norm, s, t, iset{}, iset{}, since) && LoneRun(norm, s, t, steps).Some?
    ensures Own(norm, LoneRun(norm, s, t, steps).value, t, ForgottenSaves(norm, s, t, steps),
                ForgottenSubmits(norm, s, t, steps), since)
    decreases |steps|
  {
    hide Own, Apply, Enabled, Lone, ForgetsSave, ForgetsSubmit, RecallsSave, RecallsSubmit;
    if steps == [] {
      assert ForgottenSaves(norm, s, t, steps) == iset{} && ForgottenSubmits(norm, s, t, steps) == iset{};
    } else {
      var before, step := steps[..|steps| - 1], steps[|steps| - 1];
      LoneRunOwns(norm, s, t, before, since);
      var now := LoneRun(norm, s, t, before).value;
      StepOwns(norm, now, t, step, ForgottenSaves(norm, s, t, before), ForgottenSubmits(norm, s, t, before), since);
      assert ForgottenSaves(norm, s, t, steps) == SavesAfter(norm, now, t, step, ForgottenSaves(norm, s, t, before));
      assert ForgottenSubmits(norm, s, t, steps) == SubmitsAfter(norm, now, t, step, ForgottenSubmits(norm, s, t, before));
    }
  }

  /** A tab opened, after any earlier run, on a page that shows the draft and the submission as they were at any time. */
  ghost function OpenedAfter(norm: Normalizer, earlier: seq<Step>, draft: nat, submission: nat): (start: State)
    requires Run(norm, earlier).Some? && Enabled(Run(norm, earlier).value, Open(draft, submission))
    ensures |Run(norm, earlier).value.tabs| < |start.tabs|
  {
    Apply(norm, Run(norm, earlier).value, Open(draft, submission))
  }

  /** The tab was opened so, and then alone. */
  ghost predicate AloneAfter(norm: Normalizer, earlier: seq<Step>, draft: nat, submission: nat, steps: seq<Step>) {
    && Run(norm, earlier).Some? && Enabled(Run(norm, earlier).value, Open(draft, submission))
    && LoneRun(norm, OpenedAfter(norm, earlier, draft, submission), |Run(norm, earlier).value.tabs|, steps).Some?
  }

  /**
   * However old the page a lone tab was opened on, however long it works, whatever it types, and whichever answers it loses:
   * each time it reads the draft as it stands with nothing of its own in flight, and with edits of its own, it is told of a
   * conflict exactly when the newest version is past its own and is news. Of the versions from before the tab that is any
   * text the tab neither shows nor lists, and a clear after a submission it does not wait for; of later ones, a save of
   * text not on screen, or a clear, that some step of the run made it forget. Without edits it then takes the row's text for
   * its own; in every other case it learns that its own work landed.
   */
  lemma LoneTabConflicts(norm: Normalizer, earlier: seq<Step>, draft: nat, submission: nat, steps: seq<Step>)
    requires Settled(norm) && AloneAfter(norm, earlier, draft, submission, steps)
    ensures var start, t := OpenedAfter(norm, earlier, draft, submission), |Run(norm, earlier).value.tabs|;
            var s, saves, submits := LoneRun(norm, start, t, steps).value, ForgottenSaves(norm, start, t, steps),
                                     ForgottenSubmits(norm, start, t, steps);
            s.tabs[t].phase.Idle? ==>
              ConflictExactly(s.tabs[t], Reread(norm, s.tabs[t], s.row, SubmissionAt(s.filed, |s.filed|)),
                              News(norm, s, s.tabs[t], saves, submits, |Run(norm, earlier).value.history|))
  {
    hide Settled, Run, LoneRun, Reread, ConflictExactly, News, ForgottenSaves, ForgottenSubmits, Apply;
    LoneTabReads(norm, earlier, draft, submission, steps, |Run(norm, earlier).value.history|);
  }

  lemma LoneTabReads(norm: Normalizer, earlier: seq<Step>, draft: nat, submission: nat, steps: seq<Step>, since: nat)
    requires Settled(norm) && AloneAfter(norm, earlier, draft, submission, steps)
    requires var n := |Run(norm, earlier).value.history|; since == n || draft == n
    ensures var start, t := OpenedAfter(norm, earlier, draft, submission), |Run(norm, earlier).value.tabs|;
            var s, saves, submits := LoneRun(norm, start, t, steps).value, ForgottenSaves(norm, start, t, steps),
                                     ForgottenSubmits(norm, start, t, steps);
            s.tabs[t].phase.Idle? ==>
              ConflictExactly(s.tabs[t], Reread(norm, s.tabs[t], s.row, SubmissionAt(s.filed, |s.filed|)),
                              News(norm, s, s.tabs[t], saves, submits, since))
  {
    var s := Run(norm, earlier).value;
    RunKeeps(norm, earlier);
    OpenedOwns(norm, s, draft, submission, since);
    hide Inv, Own, Settled, Apply, Reread, ConflictExactly, News;
    var start, t := OpenedAfter(norm, earlier, draft, submission), |s.tabs|;
    LoneRunOwns(norm, start, t, steps, since);
    var later := LoneRun(norm, start, t, steps).value;
    if later.tabs[t].phase.Idle? {
      ReadsAsRemembered(norm, later, t, ForgottenSaves(norm, start, t, steps), ForgottenSubmits(norm, start, t, steps), since);
    }
  }

  /** Opened on the draft as it stands, a tab is only ever told of what it forgot. */
  lemma FreshTabConflicts(norm: Normalizer, earlier: seq<Step>, submission: nat, steps: seq<Step>)
    requires Settled(norm) && Run(norm, earlier).Some?
    requires AloneAfter(norm, earlier, |Run(norm, earlier).value.history|, submission, steps)
    ensures var before := Run(norm, earlier).value;
            var start, t := OpenedAfter(norm, earlier, |before.history|, submission), |before.tabs|;
            var s, saves, submits := LoneRun(norm, start, t, steps).value, ForgottenSaves(norm, start, t, steps),
                                     ForgottenSubmits(norm, start, t, steps);
            s.tabs[t].phase.Idle? ==>
              ConflictExactly(s.tabs[t], Reread(norm, s.tabs[t], s.row, SubmissionAt(s.filed, |s.filed|)),
                              ForgottenNews(s, s.tabs[t], saves, submits))
  {
    hide Settled, Run, LoneRun, Reread, ConflictExactly, ForgottenSaves, ForgottenSubmits, Apply;
    LoneTabReads(norm, earlier, |Run(norm, earlier).value.history|, submission, steps, 0);
  }

  /** No step of the run makes the tab forget anything. */
  ghost predicate ForgetsNothing(norm: Normalizer, s: State, t: nat, steps: seq<Step>)
    requires t < |s.tabs| && LoneRun(norm, s, t, steps).Some?
    decreases |steps|
  {
    steps == [] ||
      var before, step := steps[..|steps| - 1], steps[|steps| - 1];
      var now := LoneRun(norm, s, t, before).value;
      && ForgetsNothing(norm, s, t, before)
      && (forall w :: !ForgetsSave(norm, now, t, step, w)) && (forall x :: !ForgetsSubmit(norm, now, t, step, x))
  }

  lemma {:induction false} NothingForgotten(norm: Normalizer, s: State, t: nat, steps: seq<Step>)
    requires t < |s.tabs| && LoneRun(norm, s, t, steps).Some? && ForgetsNothing(norm, s, t, steps)
    ensures ForgottenSaves(norm, s, t, steps) == iset{} && ForgottenSubmits(norm, s, t, steps) == iset{}
    decreases |steps|
  {
    hide Apply, Enabled, Lone, ForgetsSave, ForgetsSubmit, RecallsSave, RecallsSubmit;
    if steps != [] {
      var before := steps[..|steps| - 1];
      NothingForgotten(norm, s, t, before);
      forall w ensures !ForgotSave(norm, s, t, steps, w) && !ForgotSubmit(norm, s, t, steps, w) {
        assert w !in ForgottenSaves(norm, s, t, before) && w !in ForgottenSubmits(norm, s, t, before);
      }
    }
  }

  /**
   * While no event makes it forget, and it was opened on the draft as it stood, has caught up with that, or wrote since, a
   * lone tab's reads are "current", "landed" or "submitted", and never "conflict".
   */
  lemma LoneTabNeverConflicts(norm: Normalizer, earlier: seq<Step>, draft: nat, submission: nat, steps: seq<Step>)
    requires Settled(norm) && AloneAfter(norm, earlier, draft, submission, steps)
    requires ForgetsNothing(norm, OpenedAfter(norm, earlier, draft, submission), |Run(norm, earlier).value.tabs|, steps)
    ensures var start, t := OpenedAfter(norm, earlier, draft, submission), |Run(norm, earlier).value.tabs|;
            var s, n := LoneRun(norm, start, t, steps).value, |Run(norm, earlier).value.history|;
            s.tabs[t].phase.Idle? && (draft == n || s.tabs[t].version >= n || |s.history| > n) ==>
              var r := Reread(norm, s.tabs[t], s.row, SubmissionAt(s.filed, |s.filed|));
              r.Current? || r.Landed? || r.Submitted?
  {
    hide Settled, Run, LoneRun, Reread, ForgetsNothing, ForgottenSaves, ForgottenSubmits, Apply;
    var start, t := OpenedAfter(norm, earlier, draft, submission), |Run(norm, earlier).value.tabs|;
    NothingForgotten(norm, start, t, steps);
    if draft == |Run(norm, earlier).value.history| {
      LoneTabReads(norm, earlier, draft, submission, steps, 0);
    } else {
      LoneTabReads(norm, earlier, draft, submission, steps, |Run(norm, earlier).value.history|);
    }
  }
}
