/**
 * One run for each event that makes a lone tab forget its own work (DraftLoneTab.ForgetsSave and ForgetsSubmit), and one for
 * an old page, each of which ends in a conflict; and one for each thing a lone run rules out, without which nothing need be
 * forgotten.
 */
module DraftLoneTabRuns {
  import opened Options
  import opened Texts
  import opened DraftRules
  import opened DraftProtocol
  import opened DraftLoneTab

  /** A link normaliser that takes no link for one. */
  function NoLinks(raw: Text): Option<Text> { None }

  const FIRST := Work([65], [])
  const SECOND := Work([66], [])
  const THIRD := Work([67], [])

  /** A tab just opened on nothing. */
  const BLANK := Tab(0, NOTHING, NOTHING, [], None, Idle, Running, {NOTHING})

  const START := State(None, [], [], [BLANK], [], [], [])

  /** What tab `u` learns from the draft and the submission as they stand. */
  ghost predicate TellsConflict(s: State, u: nat, version: int) {
    && u < |s.tabs| && s.tabs[u].phase.Idle?
    && Reread(NoLinks, s.tabs[u], s.row, SubmissionAt(s.filed, |s.filed|)) == Conflict(version)
  }

  /** A lone run of the tab that ends with its own work taken for another's. */
  ghost predicate LoneConflict(steps: seq<Step>, version: int) {
    var end := LoneRun(NoLinks, START, 0, steps);
    end.Some? && TellsConflict(end.value, 0, version)
  }

  /** A run in which a step that no lone run of tab `u` has is taken. */
  ghost predicate RunConflict(steps: seq<Step>, u: nat, version: int) {
    var end := Run(NoLinks, [Open(0, 0)] + steps);
    end.Some? && TellsConflict(end.value, u, version)
  }

  lemma StartIsOpened()
    ensures Run(NoLinks, []).Some? && OpenedAfter(NoLinks, [], 0, 0) == START && Run(NoLinks, [Open(0, 0)]) == Some(START)
  {
    assert Stored(NoLinks, NOTHING) == NOTHING;
    assert [Open(0, 0)][..0] == [];
  }

  lemma TextsAreStored()
    ensures Stored(NoLinks, FIRST) == FIRST && Stored(NoLinks, SECOND) == SECOND && Stored(NoLinks, THIRD) == THIRD
  {
    assert Trim([]) == [];
    assert Trim(FIRST.body) == FIRST.body && Trim(SECOND.body) == SECOND.body && Trim(THIRD.body) == THIRD.body;
  }

  // ---------------------------------------------------------------------------------------------
  // One step at a time
  // ---------------------------------------------------------------------------------------------

  /** The steps taken so far and the state they led to; `lone` while all of them were. */
  datatype Cursor = Cursor(steps: seq<Step>, s: State, lone: bool)

  ghost predicate Reached(c: Cursor) {
    && Run(NoLinks, [Open(0, 0)] + c.steps) == Some(c.s) && c.s.tabs != []
    && (c.lone ==> LoneRun(NoLinks, START, 0, c.steps) == Some(c.s))
  }

  lemma Begin() returns (c: Cursor)
    ensures Reached(c) && c == Cursor([], START, true)
  {
    c := Cursor([], START, true);
    StartIsOpened();
    assert [Open(0, 0)] + [] == [Open(0, 0)];
  }

  lemma Takes(c: Cursor, step: Step) returns (d: Cursor)
    requires Reached(c) && Enabled(c.s, step)
    ensures Reached(d) && d == Cursor(c.steps + [step], Apply(NoLinks, c.s, step), c.lone && Lone(c.s, 0, step))
  {
    hide Apply, Enabled, Lone;
    d := Cursor(c.steps + [step], Apply(NoLinks, c.s, step), c.lone && Lone(c.s, 0, step));
    TabsStay(NoLinks, c.s, step);
    assert d.steps[..|d.steps| - 1] == c.steps;
    var all := [Open(0, 0)] + d.steps;
    assert all[..|all| - 1] == [Open(0, 0)] + c.steps;
  }

  lemma Types(c: Cursor, u: nat, w: Work) returns (d: Cursor)
    requires Reached(c) && u < |c.s.tabs|
    ensures Reached(d) && d.steps == c.steps + [Type(u, w)] && d.lone == c.lone
    ensures var tab := c.s.tabs[u]; d.s == WithTab(c.s, u, tab.(work := w, held := tab.held + {w}))
  {
    d := Takes(c, Type(u, w)) by { hide Reached; }
    hide Reached;
  }

  lemma SendsSave(c: Cursor, u: nat) returns (d: Cursor)
    requires Reached(c) && u < |c.s.tabs| && c.s.tabs[u].phase.Idle?
    requires c.s.tabs[u].stopped.Running? && c.s.tabs[u].work != c.s.tabs[u].base
    ensures Reached(d) && d.steps == c.steps + [SendSave(u)] && d.lone == c.lone && d.s == Send(c.s, u, c.s.tabs[u], Saves, false)
  {
    d := Takes(c, SendSave(u)) by { hide Reached; }
    hide Reached;
  }

  lemma SendsSubmit(c: Cursor, u: nat) returns (d: Cursor)
    requires Reached(c) && u < |c.s.tabs| && c.s.tabs[u].phase.Idle? && c.s.tabs[u].stopped.Running?
    ensures Reached(d) && d.steps == c.steps + [SendSubmit(u)] && d.lone == c.lone
    ensures d.s == Send(c.s, u, c.s.tabs[u], HandsIn(false), false)
  {
    d := Takes(c, SendSubmit(u)) by { hide Reached; }
    hide Reached;
  }

  /** A save over the newest version is written. */
  lemma Writes(c: Cursor, id: nat, at: Instant) returns (d: Cursor)
    requires Reached(c) && id < |c.s.sent| && c.s.sent[id].kind.Saves? && c.s.row == RowAt(c.s.history, |c.s.history|)
    requires c.s.sent[id].base == |c.s.history|
    ensures var m, n := c.s.sent[id], |c.s.history|;
            && Reached(d) && d.steps == c.steps + [RunSave(id, at)] && d.lone == (c.lone && m.tab == 0 && NotRun(c.s, id))
            && d.s == c.s.(row := Some(Row(m.work, n + 1, at, false)), history := c.s.history + [Wrote(m.work, at, id)],
                           replies := c.s.replies + [Reply(id, Saved(n + 1))])
  {
    d := Takes(c, RunSave(id, at)) by { hide Reached; }
    hide Reached;
  }

  lemma LosesSave(c: Cursor) returns (d: Cursor)
    requires Reached(c) && c.s.tabs[0].phase.Saving? && c.s.tabs[0].phase.id < |c.s.sent|
    ensures var tab := c.s.tabs[0];
            && Reached(d) && d.steps == c.steps + [SaveLost(0)] && d.lone == c.lone
            && d.s == WithTab(c.s, 0,
                              tab.(phase := Idle, unconfirmed := WithUnconfirmed(tab.unconfirmed, c.s.sent[tab.phase.id].work)))
  {
    assert c.s.tabs != [];
    d := Takes(c, SaveLost(0)) by { hide Reached; }
    hide Reached;
  }

  lemma HearsSave(c: Cursor, reply: nat) returns (d: Cursor)
    requires Reached(c) && c.s.tabs[0].phase.Saving? && c.s.tabs[0].phase.id < |c.s.sent|
    requires reply < |c.s.replies| && c.s.replies[reply].id == c.s.tabs[0].phase.id
    requires c.s.replies[reply].answer.Saved? || c.s.replies[reply].answer == Refused(false)
    ensures var tab, answer := c.s.tabs[0], c.s.replies[reply].answer;
            && Reached(d) && d.steps == c.steps + [SaveAnswered(0, reply, NoRead)] && d.lone == c.lone
            && d.s == WithTab(c.s, 0, if answer.Saved?
                                      then tab.(phase := Idle, version := answer.version, base := c.s.sent[tab.phase.id].work,
                                                unconfirmed := [])
                                      else tab.(phase := Idle))
  {
    assert c.s.tabs != [];
    d := Takes(c, SaveAnswered(0, reply, NoRead)) by { hide Reached; }
    hide Reached;
  }

  /** A submit over the newest version is not stale. */
  lemma Passes(c: Cursor, id: nat) returns (d: Cursor)
    requires Reached(c) && id < |c.s.sent| && c.s.sent[id].kind.HandsIn? && c.s.sent[id].base == |c.s.history|
    ensures var n := |c.s.history|;
            && Reached(d) && d.steps == c.steps + [CheckSubmit(id, true, n, |c.s.filed|)]
            && d.lone == (c.lone && (c.s.sent[id].tab == 0 ==> NotRun(c.s, id)))
            && d.s == c.s.(jobs := c.s.jobs + [Job(id, n, n > 0, Checked, n)])
  {
    d := Takes(c, CheckSubmit(id, true, |c.s.history|, |c.s.filed|)) by { hide Reached; }
    hide Reached, SameWork, Stored, Unanswered, HasJob;
  }

  lemma Files(c: Cursor, j: nat, at: Instant) returns (d: Cursor)
    requires Reached(c) && j < |c.s.jobs| && c.s.jobs[j].stage.Checked? && c.s.jobs[j].of < |c.s.sent|
    ensures var id := c.s.jobs[j].of;
            && Reached(d) && d.steps == c.steps + [FileSubmit(j, at)] && d.lone == (c.lone && c.s.sent[id].tab == 0)
            && d.s == c.s.(filed := c.s.filed + [Filing(Stored(NoLinks, c.s.sent[id].work), at, id)],
                           jobs := c.s.jobs[j := c.s.jobs[j].(stage := InPlace)])
  {
    d := Takes(c, FileSubmit(j, at)) by { hide Reached; }
    hide Reached, Stored;
  }

  /** A clear of a draft no newer than it may clear. */
  lemma Clears(c: Cursor, j: nat, at: Instant, heard: bool) returns (d: Cursor)
    requires Reached(c) && j < |c.s.jobs| && c.s.jobs[j].stage.InPlace? && c.s.jobs[j].clears && c.s.jobs[j].of < |c.s.sent|
    requires c.s.row.Some? && !c.s.row.value.cleared && c.s.row.value.version == |c.s.history| <= c.s.jobs[j].upTo
    ensures var id, n := c.s.jobs[j].of, |c.s.history|;
            && Reached(d) && d.steps == c.steps + [ClearSubmit(j, at, heard)] && d.lone == (c.lone && c.s.sent[id].tab == 0)
            && d.s == c.s.(row := Some(Row(NOTHING, n + 1, at, true)), history := c.s.history + [Emptied(at, id)],
                           jobs := c.s.jobs[j := c.s.jobs[j].(stage := Finished)],
                           replies := c.s.replies + [Reply(id, HandedIn(if heard then n + 1 else c.s.sent[id].base))])
  {
    d := Takes(c, ClearSubmit(j, at, heard)) by { hide Reached; }
    hide Reached;
  }

  lemma Skips(c: Cursor, j: nat) returns (d: Cursor)
    requires Reached(c) && j < |c.s.jobs| && c.s.jobs[j].stage.InPlace? && c.s.jobs[j].of < |c.s.sent|
    ensures var id := c.s.jobs[j].of;
            && Reached(d) && d.steps == c.steps + [SkipClear(j)] && d.lone == c.lone
            && d.s == c.s.(jobs := c.s.jobs[j := c.s.jobs[j].(stage := Finished)],
                           replies := c.s.replies + [Reply(id, HandedIn(c.s.sent[id].base))])
  {
    d := Takes(c, SkipClear(j)) by { hide Reached; }
    hide Reached;
  }

  lemma HearsSubmit(c: Cursor, reply: nat) returns (d: Cursor)
    requires Reached(c) && c.s.tabs[0].phase.Submitting? && c.s.tabs[0].stopped.Running? && c.s.tabs[0].phase.id < |c.s.sent|
    requires reply < |c.s.replies| && c.s.replies[reply].id == c.s.tabs[0].phase.id && c.s.replies[reply].answer.HandedIn?
    ensures var tab := c.s.tabs[0];
            && Reached(d) && d.steps == c.steps + [SubmitAnswered(0, reply, NoRead, false)] && d.lone == c.lone
            && d.s == WithTab(c.s, 0,
                              tab.(phase := Idle, version := c.s.replies[reply].answer.version,
                                   base := c.s.sent[tab.phase.id].work,
                                           unconfirmed := [], pendingSubmit := None))
  {
    assert c.s.tabs != [];
    d := Takes(c, SubmitAnswered(0, reply, NoRead, false)) by { hide Reached; }
    hide Reached, CatchUp;
  }

  lemma LosesSubmit(c: Cursor) returns (d: Cursor)
    requires Reached(c) && c.s.tabs[0].phase.Submitting? && c.s.tabs[0].phase.id < |c.s.sent|
    ensures var tab := c.s.tabs[0];
            && Reached(d) && d.steps == c.steps + [SubmitLost(0, NoRead)] && d.lone == c.lone
            && d.s == WithTab(c.s, 0, tab.(phase := Idle, pendingSubmit := Some(c.s.sent[tab.phase.id].work)))
  {
    assert c.s.tabs != [];
    d := Takes(c, SubmitLost(0, NoRead)) by { hide Reached; }
    hide Reached;
  }

  /** A submit without an answer, which the tab at once reads to be done. */
  lemma ReadsSubmit(c: Cursor, draft: nat, submission: nat) returns (d: Cursor)
    requires Reached(c) && c.s.tabs[0].phase.Submitting? && c.s.tabs[0].stopped.Running? && c.s.tabs[0].phase.id < |c.s.sent|
    requires draft <= |c.s.history| && 0 < submission <= |c.s.filed|
    requires SameWork(NoLinks, c.s.sent[c.s.tabs[0].phase.id].work, Some(c.s.filed[submission - 1].work))
    requires draft > 0 && draft > c.s.tabs[0].version ==> c.s.history[draft - 1].Emptied?
    ensures var tab := c.s.tabs[0];
            && Reached(d) && d.steps == c.steps + [SubmitLost(0, Read(draft, submission))]
            && d.lone == (c.lone && draft >= tab.version)
            && d.s == WithTab(c.s, 0,
                              tab.(phase := Idle, pendingSubmit := None, unconfirmed := [], base := c.s.sent[tab.phase.id].work,
                                           version := if draft > 0 && c.s.history[draft - 1].Emptied? then draft
                                             else tab.version))
  {
    assert c.s.tabs != [];
    d := Takes(c, SubmitLost(0, Read(draft, submission))) by { hide Reached; }
    hide Reached, SameWork, StartingWork;
  }

  /** A row that holds a text the tab neither lists nor shows. */
  lemma SaveConflicts(s: State, u: nat)
    requires u < |s.tabs| && s.tabs[u].phase.Idle? && s.tabs[u].work != s.tabs[u].base
    requires s.row.Some? && !s.row.value.cleared && s.row.value.version > s.tabs[u].version && s.row.value.version > 0
    requires s.row.value.work != s.tabs[u].work && s.row.value.work !in s.tabs[u].unconfirmed
    ensures TellsConflict(s, u, s.row.value.version)
  {
    hide SameWork, StartingWork;
  }

  /** An emptied row, while the tab keeps no submit, or not the one that is stored. */
  lemma ClearConflicts(s: State, u: nat)
    requires u < |s.tabs| && s.tabs[u].phase.Idle? && s.tabs[u].work != s.tabs[u].base && s.filed != []
    requires s.row.Some? && s.row.value.cleared && s.row.value.version > s.tabs[u].version && s.row.value.version > 0
    requires var kept := s.tabs[u].pendingSubmit; kept.Some? ==> !SameWork(NoLinks, kept.value, Some(s.filed[|s.filed| - 1].work))
    ensures TellsConflict(s, u, s.row.value.version)
  {
    hide SameWork, StartingWork;
  }

  lemma Ends(c: Cursor, u: nat, version: int)
    requires Reached(c) && TellsConflict(c.s, u, version)
    ensures RunConflict(c.steps, u, version) && (c.lone && u == 0 ==> LoneConflict(c.steps, version))
  {
    hide TellsConflict;
  }

  // ---------------------------------------------------------------------------------------------
  // Where the runs begin
  // ---------------------------------------------------------------------------------------------

  const SHOWN := {NOTHING, FIRST}
  const SAVE0 := Message(Saves, 0, 0, FIRST, SHOWN, 0)

  /** A save with no answer, and a submit that is stored, with no draft to clear. */
  const EARLY_SUBMIT := [
    Type(0, FIRST), SendSave(0), SaveLost(0), SendSubmit(0), CheckSubmit(1, true, 0, 0), FileSubmit(0, Some(2))]

  const EARLY := State(
    None, [], [Filing(FIRST, Some(2), 1)],
    [Tab(0, NOTHING, FIRST, [FIRST], None, Submitting(1, false), Running, SHOWN)],
    [SAVE0, Message(HandsIn(false), 0, 0, FIRST, SHOWN, 0)], [], [Job(1, 0, false, InPlace, 0)])

  lemma SubmitsEarly() returns (c: Cursor)
    ensures Reached(c) && c == Cursor(EARLY_SUBMIT, EARLY, true)
  {
    TextsAreStored();
    c := Begin();
    hide Reached, Stored;
    c := Types(c, 0, FIRST);
    assert {NOTHING} + {FIRST} == SHOWN;
    c := SendsSave(c, 0);
    c := LosesSave(c);
    assert WithUnconfirmed([], FIRST) == [FIRST];
    c := SendsSubmit(c, 0);
    c := Passes(c, 1);
    c := Files(c, 0, Some(2));
    assert c.s.tabs == EARLY.tabs;
    assert c.s.sent == EARLY.sent;
  }

  /** A save that was answered, and a submit that is stored and not yet answered. */
  const SAVED_SUBMIT := [
    Type(0, FIRST), SendSave(0), RunSave(0, Some(1)), SaveAnswered(0, 0, NoRead),
    SendSubmit(0), CheckSubmit(1, true, 1, 0), FileSubmit(0, Some(2))]

  const IN_PLACE := State(
    Some(Row(FIRST, 1, Some(1), false)), [Wrote(FIRST, Some(1), 0)], [Filing(FIRST, Some(2), 1)],
    [Tab(1, FIRST, FIRST, [], None, Submitting(1, false), Running, SHOWN)],
    [SAVE0, Message(HandsIn(false), 0, 1, FIRST, SHOWN, 0)], [Reply(0, Saved(1))], [Job(1, 1, true, InPlace, 1)])

  lemma SavesAndSubmits() returns (c: Cursor)
    ensures Reached(c) && c == Cursor(SAVED_SUBMIT, IN_PLACE, true)
  {
    TextsAreStored();
    c := Begin();
    hide Reached, Stored;
    c := Types(c, 0, FIRST);
    assert {NOTHING} + {FIRST} == SHOWN;
    c := SendsSave(c, 0);
    c := Writes(c, 0, Some(1));
    c := HearsSave(c, 0);
    c := SendsSubmit(c, 0);
    c := Passes(c, 1);
    c := Files(c, 0, Some(2));
    assert c.s.tabs == IN_PLACE.tabs;
    assert c.s.sent == IN_PLACE.sent;
  }

  // ---------------------------------------------------------------------------------------------
  // Forgotten saves
  // ---------------------------------------------------------------------------------------------

  /** The submit is answered, which empties the list, and only then does the save arrive. */
  const LATE_SAVE := EARLY_SUBMIT + [SkipClear(0), SubmitAnswered(0, 0, NoRead, false), RunSave(0, Some(5)), Type(0, SECOND)]

  lemma LateSaveIsForgotten()
    ensures LoneConflict(LATE_SAVE, 1)
  {
    var c := SubmitsEarly();
    hide Reached;
    c := Skips(c, 0);
    c := HearsSubmit(c, 0);
    c := Writes(c, 0, Some(5));
    c := Types(c, 0, SECOND);
    assert c.steps == LATE_SAVE;
    SaveConflicts(c.s, 0);
    Ends(c, 0, 1);
  }

  /** The submit's answer is lost and the submission read instead, which empties the list too. */
  const LATE_SAVE_READ := EARLY_SUBMIT + [SubmitLost(0, Read(0, 1)), RunSave(0, Some(5)), Type(0, SECOND)]

  lemma LateSaveIsForgottenByReading()
    ensures LoneConflict(LATE_SAVE_READ, 1)
  {
    TextsAreStored();
    var c := SubmitsEarly();
    hide Reached, Stored;
    c := ReadsSubmit(c, 0, 1);
    c := Writes(c, 0, Some(5));
    c := Types(c, 0, SECOND);
    assert c.steps == LATE_SAVE_READ;
    SaveConflicts(c.s, 0);
    Ends(c, 0, 1);
  }

  /** The k-th text typed. */
  function Nth(k: nat): Work
    requires k < 1000
  {
    Work([65 + k], [])
  }

  /** Saves of `k` texts, each left without an answer. */
  function Unheard(k: nat): seq<Step>
    requires k < 1000
  {
    if k == 0 then [] else Unheard(k - 1) + [Type(0, Nth(k - 1)), SendSave(0), SaveLost(0)]
  }

  /** One save more than the list holds; the second of them arrives. */
  const OVERFLOW := Unheard(UNCONFIRMED_MAX + 1) + [RunSave(1, Some(1))]

  /** The tab lists all it has sent. */
  ghost predicate Lists(c: Cursor, k: nat)
    requires k < 1000
  {
    && Reached(c) && c.lone && c.steps == Unheard(k) && |c.s.tabs| == 1
    && c.s.row.None? && c.s.history == [] && c.s.replies == [] && c.s.jobs == [] && |c.s.sent| == k
    && (forall i: nat :: i < k ==> var m := c.s.sent[i]; m.kind.Saves? && m.tab == 0 && m.base == 0 && m.work == Nth(i))
    && var tab := c.s.tabs[0];
       tab.version == 0 && tab.base == NOTHING && tab.phase.Idle? && tab.stopped.Running? && (k > 0 ==> tab.work == Nth(k - 1))
  }

  lemma SavesUnheard(c: Cursor, k: nat) returns (d: Cursor)
    requires k + 1 < 1000 && Lists(c, k)
    ensures Lists(d, k + 1) && d.s.tabs[0].unconfirmed == WithUnconfirmed(c.s.tabs[0].unconfirmed, Nth(k))
  {
    hide Reached, WithUnconfirmed;
    d := Types(c, 0, Nth(k));
    d := SendsSave(d, 0);
    d := LosesSave(d);
    assert d.steps == Unheard(k + 1);
  }

  function NthTexts(k: nat): (r: seq<Work>)
    requires k < 1000
  {
    if k == 0 then [] else NthTexts(k - 1) + [Nth(k - 1)]
  }

  lemma {:induction false} TextsMean(k: nat)
    requires k < 1000
    ensures |NthTexts(k)| == k && forall i: nat :: i < k ==> NthTexts(k)[i] == Nth(i)
  {
    if k > 0 { TextsMean(k - 1); }
  }

  lemma NextText(k: nat)
    requires k < UNCONFIRMED_MAX
    ensures WithUnconfirmed(NthTexts(k), Nth(k)) == NthTexts(k + 1)
  {
    TextsMean(k);
    assert Nth(k) !in NthTexts(k);
  }

  lemma {:induction false} ListGrows(k: nat) returns (c: Cursor)
    requires k <= UNCONFIRMED_MAX
    ensures Lists(c, k) && c.s.tabs[0].unconfirmed == NthTexts(k)
  {
    if k == 0 {
      c := Begin();
    } else {
      c := ListGrows(k - 1);
      NextText(k - 1);
      hide WithUnconfirmed, NthTexts, Lists;
      c := SavesUnheard(c, k - 1);
    }
  }

  /** The list is full, and the second text has gone. */
  lemma ListOverflows()
    ensures Nth(1) !in WithUnconfirmed(NthTexts(UNCONFIRMED_MAX), Nth(UNCONFIRMED_MAX))
  {
    TextsMean(UNCONFIRMED_MAX);
    var list := NthTexts(UNCONFIRMED_MAX);
    hide NthTexts;
    assert Nth(UNCONFIRMED_MAX) !in list;
    var after := WithUnconfirmed(list, Nth(UNCONFIRMED_MAX));
    assert forall i: nat :: i < |after| ==> after[i] == Nth(if i == 0 then 0 else i + 1);
  }

  lemma OverflowForgets()
    ensures LoneConflict(OVERFLOW, 1)
  {
    hide Lists, WithUnconfirmed, Unheard, NthTexts, LoneConflict, TellsConflict, Reached, Run, LoneRun;
    var c := ListGrows(UNCONFIRMED_MAX);
    ListOverflows();
    c := SavesUnheard(c, UNCONFIRMED_MAX);
    SecondArrives(c, UNCONFIRMED_MAX + 1);
  }

  lemma SecondArrives(c: Cursor, k: nat)
    requires 2 < k < 1000 && Lists(c, k) && Nth(1) !in c.s.tabs[0].unconfirmed
    ensures LoneConflict(Unheard(k) + [RunSave(1, Some(1))], 1)
  {
    hide Reached, Unheard;
    var d := Writes(c, 1, Some(1));
    SaveConflicts(d.s, 0);
    Ends(d, 0, 1);
  }

  // ---------------------------------------------------------------------------------------------
  // Forgotten submits
  // ---------------------------------------------------------------------------------------------

  /** The clear ran and its own answer was lost: the submit answers with the version it named, not the one it left. */
  const UNHEARD_CLEAR := SAVED_SUBMIT + [ClearSubmit(0, Some(3), false), SubmitAnswered(0, 1, NoRead, false), Type(0, SECOND)]

  lemma UnheardClearIsForgotten()
    ensures LoneConflict(UNHEARD_CLEAR, 2)
  {
    var c := SavesAndSubmits();
    hide Reached;
    c := Clears(c, 0, Some(3), false);
    c := HearsSubmit(c, 1);
    c := Types(c, 0, SECOND);
    assert c.steps == UNHEARD_CLEAR;
    ClearConflicts(c.s, 0);
    Ends(c, 0, 2);
  }

  /** The submit is refused after it was stored and the draft cleared. */
  const REFUSED_LATE := SAVED_SUBMIT + [ClearSubmit(0, Some(3), true), SubmitRefused(0), Type(0, SECOND)]

  lemma RefusedSubmitIsForgotten()
    ensures LoneConflict(REFUSED_LATE, 2)
  {
    var c := SavesAndSubmits();
    hide Reached;
    c := Clears(c, 0, Some(3), true);
    c := Takes(c, SubmitRefused(0));
    c := Types(c, 0, SECOND);
    assert c.steps == REFUSED_LATE;
    ClearConflicts(c.s, 0);
    Ends(c, 0, 2);
  }

  /** The submit's answer is lost, and so is that of a second one, of other text, which never arrives. */
  const SECOND_SUBMIT := SAVED_SUBMIT + [
    ClearSubmit(0, Some(3), true), SubmitLost(0, NoRead), Type(0, SECOND), SendSubmit(0), SubmitLost(0, NoRead)]

  lemma SecondSubmitForgets()
    ensures LoneConflict(SECOND_SUBMIT, 2)
  {
    TextsAreStored();
    var c := SavesAndSubmits();
    hide Reached, Stored;
    c := Clears(c, 0, Some(3), true);
    c := LosesSubmit(c);
    c := Types(c, 0, SECOND);
    c := SendsSubmit(c, 0);
    c := LosesSubmit(c);
    assert c.steps == SECOND_SUBMIT;
    ClearConflicts(c.s, 0);
    Ends(c, 0, 2);
  }

  /**
   * The same text is submitted again after other drafts. That submit's answer is lost before it is run, and the older
   * submission, of the same text, is taken for it.
   */
  const READ_TOO_SOON := [
    Type(0, FIRST), SendSubmit(0), CheckSubmit(0, true, 0, 0), FileSubmit(0, Some(1)), SkipClear(0),
    SubmitAnswered(0, 0, NoRead, false),
    Type(0, SECOND), SendSave(0), RunSave(1, Some(3)), SaveAnswered(0, 1, NoRead),
    Type(0, FIRST), SendSubmit(0), SubmitLost(0, Read(1, 1)), CheckSubmit(2, true, 1, 1), FileSubmit(1, Some(4)),
    ClearSubmit(1, Some(5), true), Type(0, SECOND)]

  const SHOWN2 := {NOTHING, FIRST, SECOND}

  const SUBMITTED_AND_SAVED := State(
    Some(Row(SECOND, 1, Some(3), false)), [Wrote(SECOND, Some(3), 1)], [Filing(FIRST, Some(1), 0)],
    [Tab(1, SECOND, SECOND, [], None, Idle, Running, SHOWN2)],
    [Message(HandsIn(false), 0, 0, FIRST, SHOWN, 0), Message(Saves, 0, 0, SECOND, SHOWN2, 1)],
    [Reply(0, HandedIn(0)), Reply(1, Saved(1))], [Job(0, 0, false, Finished, 0)])

  const SUBMITTED := State(
    None, [], [Filing(FIRST, Some(1), 0)], [Tab(0, FIRST, FIRST, [], None, Idle, Running, SHOWN)],
    [Message(HandsIn(false), 0, 0, FIRST, SHOWN, 0)], [Reply(0, HandedIn(0))], [Job(0, 0, false, Finished, 0)])

  lemma SubmitsOnce() returns (c: Cursor)
    ensures Reached(c) && c == Cursor(READ_TOO_SOON[..6], SUBMITTED, true)
  {
    TextsAreStored();
    c := Begin();
    hide Reached, Stored;
    c := Types(c, 0, FIRST);
    assert {NOTHING} + {FIRST} == SHOWN;
    c := SendsSubmit(c, 0);
    c := Passes(c, 0);
    c := Files(c, 0, Some(1));
    c := Skips(c, 0);
    c := HearsSubmit(c, 0);
    assert c.steps == READ_TOO_SOON[..6];
    assert c.s.tabs == SUBMITTED.tabs;
  }

  lemma SubmitsAndSaves() returns (c: Cursor)
    ensures Reached(c) && c == Cursor(READ_TOO_SOON[..10], SUBMITTED_AND_SAVED, true)
  {
    c := SubmitsOnce();
    hide Reached;
    c := Types(c, 0, SECOND);
    assert SHOWN + {SECOND} == SHOWN2;
    c := SendsSave(c, 0);
    c := Writes(c, 1, Some(3));
    c := HearsSave(c, 1);
    assert c.steps == READ_TOO_SOON[..10];
    assert c.s.tabs == SUBMITTED_AND_SAVED.tabs;
    assert c.s.sent == SUBMITTED_AND_SAVED.sent;
    assert c.s.replies == SUBMITTED_AND_SAVED.replies;
  }

  lemma ReadTooSoonIsForgotten()
    ensures LoneConflict(READ_TOO_SOON, 2)
  {
    TextsAreStored();
    var c := SubmitsAndSaves();
    hide Reached, Stored;
    c := Types(c, 0, FIRST);
    c := SendsSubmit(c, 0);
    c := ReadsSubmit(c, 1, 1);
    c := Passes(c, 2);
    c := Files(c, 1, Some(4));
    c := Clears(c, 1, Some(5), true);
    c := Types(c, 0, SECOND);
    assert c.steps == READ_TOO_SOON;
    ClearConflicts(c.s, 0);
    Ends(c, 0, 2);
  }

  // ---------------------------------------------------------------------------------------------
  // An old page
  // ---------------------------------------------------------------------------------------------

  /** A tab saves a draft, and is left. */
  const LEFT := [Open(0, 0), Type(0, FIRST), SendSave(0), RunSave(0, Some(1)), SaveAnswered(0, 0, NoRead)]

  const LEFT_AT := State(
    Some(Row(FIRST, 1, Some(1), false)), [Wrote(FIRST, Some(1), 0)], [],
    [Tab(1, FIRST, FIRST, [], None, Idle, Running, SHOWN)], [SAVE0], [Reply(0, Saved(1))], [])

  lemma SavesAndLeaves()
    ensures Run(NoLinks, LEFT) == Some(LEFT_AT)
  {
    var c := Begin();
    hide Reached;
    c := Types(c, 0, FIRST);
    assert {NOTHING} + {FIRST} == SHOWN;
    c := SendsSave(c, 0);
    c := Writes(c, 0, Some(1));
    c := HearsSave(c, 0);
    assert c.s.tabs == LEFT_AT.tabs && c.s.sent == LEFT_AT.sent && c.s.history == LEFT_AT.history;
    assert c.s == LEFT_AT && [Open(0, 0)] + c.steps == LEFT;
    ReachedRuns(c);
  }

  lemma ReachedRuns(c: Cursor)
    requires Reached(c)
    ensures Run(NoLinks, [Open(0, 0)] + c.steps) == Some(c.s)
  {}

  lemma OpensBlank()
    ensures Opened(NoLinks, None, None) == BLANK
  {
    var start := StartingWork(NoLinks, None, None);
    assert start.work == NOTHING && start.version == 0;
    hide StartingWork;
  }

  /** Text typed in a tab is a lone run of one step, and makes it forget nothing. */
  lemma JustTypes(s: State, u: nat, w: Work)
    requires u < |s.tabs|
    ensures var tab := s.tabs[u];
            LoneRun(NoLinks, s, u, [Type(u, w)]) == Some(WithTab(s, u, tab.(work := w, held := tab.held + {w})))
    ensures ForgetsNothing(NoLinks, s, u, [Type(u, w)])
  {
    var steps := [Type(u, w)];
    assert steps[..0] == [];
    assert LoneRun(NoLinks, s, u, []) == Some(s) && ForgetsNothing(NoLinks, s, u, []);
    assert Enabled(s, steps[0]) && Lone(s, u, steps[0]) && DoneAt(NoLinks, s, u, steps[0]).None?;
    hide MayShow, Coming, Stored;
  }

  /**
   * Going back shows the page as it was before the draft. Typed on before its own read is answered, the new tab is told of a
   * conflict, with nothing of its own forgotten and no other tab at work.
   */
  lemma OldPageConflicts()
    ensures AloneAfter(NoLinks, LEFT, 0, 0, [Type(1, SECOND)]) && |Run(NoLinks, LEFT).value.tabs| == 1
    ensures var start := OpenedAfter(NoLinks, LEFT, 0, 0);
            && ForgetsNothing(NoLinks, start, 1, [Type(1, SECOND)])
            && TellsConflict(LoneRun(NoLinks, start, 1, [Type(1, SECOND)]).value, 1, 1)
  {
    SavesAndLeaves();
    OpensBlank();
    hide Run, Opened, LoneRun, ForgetsNothing, TellsConflict;
    var start := OpenedAfter(NoLinks, LEFT, 0, 0);
    assert start.tabs == LEFT_AT.tabs + START.tabs;
    JustTypes(start, 1, SECOND);
    SaveConflicts(LoneRun(NoLinks, start, 1, [Type(1, SECOND)]).value, 1);
  }

  // ---------------------------------------------------------------------------------------------
  // What a lone run rules out
  // ---------------------------------------------------------------------------------------------

  /** Another tab is opened on a page that shows nothing yet. */
  lemma Opens(c: Cursor) returns (d: Cursor)
    requires Reached(c)
    ensures Reached(d) && d.steps == c.steps + [Open(0, 0)] && d.lone == c.lone && d.s == c.s.(tabs := c.s.tabs + START.tabs)
  {
    OpensBlank();
    d := Takes(c, Open(0, 0)) by { hide Reached; }
    hide Reached, Opened;
  }

  /** A submit of a tab without autosave, which compares nothing. */
  lemma PassesUnchecked(c: Cursor, id: nat, draft: nat, submission: nat) returns (d: Cursor)
    requires Reached(c) && id < |c.s.sent| && c.s.sent[id].kind.HandsIn? && draft <= |c.s.history| && submission <= |c.s.filed|
    ensures Reached(d) && d.steps == c.steps + [CheckSubmit(id, false, draft, submission)]
    ensures d.s == c.s.(jobs := c.s.jobs + [Job(id, 0, false, Checked, |c.s.history|)])
  {
    d := Takes(c, CheckSubmit(id, false, draft, submission)) by { hide Reached; }
    hide Reached, SameWork, Stored, Unanswered, HasJob;
  }

  /** A submit of the text the newest draft holds. */
  lemma PassesAsSame(c: Cursor, id: nat) returns (d: Cursor)
    requires Reached(c) && id < |c.s.sent| && c.s.sent[id].kind.HandsIn? && 0 <= c.s.sent[id].base < |c.s.history|
    requires var newest := c.s.history[|c.s.history| - 1];
             newest.Wrote? && SameWork(NoLinks, Stored(NoLinks, c.s.sent[id].work), Some(newest.work))
    ensures var n := |c.s.history|;
            && Reached(d) && d.steps == c.steps + [CheckSubmit(id, true, n, |c.s.filed|)]
            && d.s == c.s.(jobs := c.s.jobs + [Job(id, n, true, Checked, n)])
  {
    d := Takes(c, CheckSubmit(id, true, |c.s.history|, |c.s.filed|)) by { hide Reached; }
    hide Reached, SameWork, Stored, Unanswered, HasJob;
  }

  lemma Refuses(c: Cursor, id: nat) returns (d: Cursor)
    requires Reached(c) && id < |c.s.sent| && c.s.sent[id].kind.Saves?
    ensures Reached(d) && d.steps == c.steps + [RefuseSave(id, false)]
    ensures d.s == c.s.(replies := c.s.replies + [Reply(id, Refused(false))])
  {
    d := Takes(c, RefuseSave(id, false)) by { hide Reached; }
    hide Reached;
  }

  /** Another tab saves. */
  const SAVE_OF_ANOTHER := [Open(0, 0), Type(1, FIRST), SendSave(1), RunSave(0, Some(1)), Type(0, SECOND)]

  lemma SaveOfAnotherConflicts()
    ensures RunConflict(SAVE_OF_ANOTHER, 0, 1)
  {
    var c := Begin();
    hide Reached;
    c := Opens(c);
    c := Types(c, 1, FIRST);
    c := SendsSave(c, 1);
    c := Writes(c, 0, Some(1));
    c := Types(c, 0, SECOND);
    assert c.steps == SAVE_OF_ANOTHER;
    SaveConflicts(c.s, 0);
    Ends(c, 0, 1);
  }

  /** Another tab's submit is stored after the tab's own. */
  const SUBMIT_OF_ANOTHER := SAVED_SUBMIT + [
    ClearSubmit(0, Some(3), true), SubmitLost(0, NoRead), Open(0, 0), Type(1, SECOND), SendSubmit(1),
    CheckSubmit(2, false, 2, 1), FileSubmit(1, Some(4)), Type(0, THIRD)]

  lemma SubmitOfAnotherConflicts()
    ensures RunConflict(SUBMIT_OF_ANOTHER, 0, 2)
  {
    TextsAreStored();
    var c := SavesAndSubmits();
    hide Reached, Stored;
    c := Clears(c, 0, Some(3), true);
    c := LosesSubmit(c);
    c := Opens(c);
    c := Types(c, 1, SECOND);
    c := SendsSubmit(c, 1);
    c := PassesUnchecked(c, 2, 2, 1);
    c := Files(c, 1, Some(4));
    c := Types(c, 0, THIRD);
    assert c.steps == SUBMIT_OF_ANOTHER;
    ClearConflicts(c.s, 0);
    Ends(c, 0, 2);
  }

  /** Another tab's submit, stored before tab 1 was opened, clears the draft that tab opened with. */
  const CLEAR_OF_ANOTHER := SAVED_SUBMIT + [Open(1, 1), Type(1, SECOND), ClearSubmit(0, Some(3), true)]

  lemma ClearOfAnotherConflicts()
    ensures RunConflict(CLEAR_OF_ANOTHER, 1, 2)
  {
    TextsAreStored();
    var c := SavesAndSubmits();
    hide Reached, Stored;
    c := Takes(c, Open(1, 1));
    c := Types(c, 1, SECOND);
    c := Clears(c, 0, Some(3), true);
    assert c.steps == CLEAR_OF_ANOTHER;
    ClearConflicts(c.s, 1);
    Ends(c, 1, 2);
  }

  /** A save is refused, and then run. */
  const REFUSED_THEN_RUN := [
    Type(0, FIRST), SendSave(0), RefuseSave(0, false), SaveAnswered(0, 0, NoRead), RunSave(0, Some(1)), Type(0, SECOND)]

  lemma RefusedThenRunConflicts()
    ensures RunConflict(REFUSED_THEN_RUN, 0, 1)
  {
    var c := Begin();
    hide Reached;
    c := Types(c, 0, FIRST);
    c := SendsSave(c, 0);
    c := Refuses(c, 0);
    c := HearsSave(c, 0);
    c := Writes(c, 0, Some(1));
    c := Types(c, 0, SECOND);
    assert c.steps == REFUSED_THEN_RUN;
    SaveConflicts(c.s, 0);
    Ends(c, 0, 1);
  }

  /** A save is run, and then refused. */
  const RUN_THEN_REFUSED := [
    Type(0, FIRST), SendSave(0), RunSave(0, Some(1)), RefuseSave(0, false), SaveAnswered(0, 1, NoRead), Type(0, SECOND)]

  lemma RunThenRefusedConflicts()
    ensures RunConflict(RUN_THEN_REFUSED, 0, 1)
  {
    var c := Begin();
    hide Reached;
    c := Types(c, 0, FIRST);
    c := SendsSave(c, 0);
    c := Writes(c, 0, Some(1));
    c := Refuses(c, 0);
    c := HearsSave(c, 1);
    c := Types(c, 0, SECOND);
    assert c.steps == RUN_THEN_REFUSED;
    SaveConflicts(c.s, 0);
    Ends(c, 0, 1);
  }

  /** A submit that is answered, and another text saved. */
  const SAVED_AGAIN := SAVED_SUBMIT + [
    ClearSubmit(0, Some(3), true), SubmitAnswered(0, 1, NoRead, false),
    Type(0, SECOND), SendSave(0), RunSave(2, Some(4)), SaveAnswered(0, 2, NoRead), Type(0, FIRST)]

  const AGAIN := State(
    Some(Row(SECOND, 3, Some(4), false)), [Wrote(FIRST, Some(1), 0), Emptied(Some(3), 1), Wrote(SECOND, Some(4), 2)],
    [Filing(FIRST, Some(2), 1)],
    [Tab(3, SECOND, FIRST, [], None, Idle, Running, SHOWN2)],
    IN_PLACE.sent + [Message(Saves, 0, 2, SECOND, SHOWN2, 1)],
    [Reply(0, Saved(1)), Reply(1, HandedIn(2)), Reply(2, Saved(3))], [Job(1, 1, true, Finished, 1)])

  lemma SavesAgain() returns (c: Cursor)
    ensures Reached(c) && c == Cursor(SAVED_AGAIN, AGAIN, true)
  {
    c := SavesAndSubmits();
    hide Reached;
    c := Clears(c, 0, Some(3), true);
    c := HearsSubmit(c, 1);
    c := Types(c, 0, SECOND);
    assert SHOWN + {SECOND} == SHOWN2;
    c := SendsSave(c, 0);
    c := Writes(c, 2, Some(4));
    c := HearsSave(c, 2);
    c := Types(c, 0, FIRST);
    assert SHOWN2 + {FIRST} == SHOWN2;
    assert c.steps == SAVED_AGAIN;
    assert c.s.tabs == AGAIN.tabs;
    assert c.s.sent == AGAIN.sent;
    assert c.s.replies == AGAIN.replies;
  }

  /** The first text is saved once more, and the submit of it, answered long ago, run once more. */
  const RUN_TWICE := SAVED_AGAIN + [
    SendSave(0), RunSave(3, Some(5)), SaveAnswered(0, 3, NoRead), CheckSubmit(1, true, 4, 1), FileSubmit(1, Some(6)),
    ClearSubmit(1, Some(7), true), Type(0, SECOND)]

  lemma RunTwiceConflicts()
    ensures RunConflict(RUN_TWICE, 0, 5)
  {
    TextsAreStored();
    var c := SavesAgain();
    hide Reached, Stored;
    c := SendsSave(c, 0);
    c := Writes(c, 3, Some(5));
    c := HearsSave(c, 3);
    c := PassesAsSame(c, 1);
    c := Files(c, 1, Some(6));
    c := Clears(c, 1, Some(7), true);
    c := Types(c, 0, SECOND);
    assert c.steps == RUN_TWICE;
    ClearConflicts(c.s, 0);
    Ends(c, 0, 5);
  }

  /** The first text is submitted again, and the read for the lost answer shows a draft older than the tab's own. */
  const OLD_READ := SAVED_AGAIN + [SendSubmit(0), SubmitLost(0, Read(2, 1)), Type(0, THIRD)]

  lemma OldReadConflicts()
    ensures RunConflict(OLD_READ, 0, 3)
  {
    TextsAreStored();
    var c := SavesAgain();
    hide Reached, Stored;
    c := SendsSubmit(c, 0);
    c := ReadsSubmit(c, 2, 1);
    c := Types(c, 0, THIRD);
    assert c.steps == OLD_READ;
    SaveConflicts(c.s, 0);
    Ends(c, 0, 3);
  }
}
