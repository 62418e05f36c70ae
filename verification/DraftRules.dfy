/** lib/assignment-drafts.ts: the pure rules of autosaved drafts, and the two database functions they rely on. */
module DraftRules {
  import opened Options
  import opened Texts

  /** A form's text: the answer and the link, empty where the source has null. */
  datatype Work = Work(body: Text, link: Text)

  const NOTHING := Work([], [])

  /** An instant as Date.parse reads it; None when it doesn't parse. */
  type Instant = Option<int>

  datatype Row = Row(work: Work, version: int, updatedAt: Instant, cleared: bool)

  datatype Submission = Submission(work: Work, submittedAt: Instant)

  /** How a link is normalised: its stored form, or None for one that isn't a link. */
  type Normalizer = Text -> Option<Text>

  function StoredLink(norm: Normalizer, raw: Text): Text {
    var v := Trim(raw);
    if v == [] then [] else if norm(v).Some? then norm(v).value else v
  }

  /** The work as submitAssignment would store it. */
  function Stored(norm: Normalizer, w: Work): Work { Work(Trim(w.body), StoredLink(norm, w.link)) }

  /** The two say the same thing once stored; with nothing handed in, only empty work does. */
  predicate SameWork(norm: Normalizer, a: Work, b: Option<Work>) {
    Stored(norm, a) == if b.None? then NOTHING else Stored(norm, b.value)
  }

  function VersionOf(d: Option<Row>): int { if d.Some? && d.value.version > 0 then d.value.version else 0 }

  datatype Start = Start(work: Work, version: int, restoredAt: Option<Instant>, unsubmitted: bool)

  /** The draft was saved no later than the last submit. */
  predicate OvertakenBy(updatedAt: Instant, submittedAt: Instant) {
    submittedAt.Some? && !(updatedAt.Some? && updatedAt.value > submittedAt.value)
  }

  function StartingWork(norm: Normalizer, s: Option<Submission>, d: Option<Row>): Start {
    var fromSubmission := Start(if s.Some? then s.value.work else NOTHING, VersionOf(d), None, false);
    if d.None? || d.value.cleared then fromSubmission
    else if s.Some? && OvertakenBy(d.value.updatedAt, s.value.submittedAt) then fromSubmission
    else if SameWork(norm, d.value.work, if s.Some? then Some(s.value.work) else None) then
      Start(d.value.work, VersionOf(d), None, false)
    else Start(d.value.work, VersionOf(d), Some(d.value.updatedAt), true)
  }

  const UNCONFIRMED_MAX := 50

  function WithUnconfirmed(list: seq<Work>, sent: Work): seq<Work> {
    if sent in list then list
    else
      var next := list + [sent];
      if |next| > UNCONFIRMED_MAX then [next[0]] + next[|next| - (UNCONFIRMED_MAX - 1)..] else next
  }

  datatype Local = Local(version: int, base: Work, work: Work, unconfirmed: seq<Work>, pendingSubmit: Option<Work>)

  datatype Reconciled =
    | Current
    | Landed(version: int, text: Work)
    | Submitted(version: int)
    | Adopt(start: Start)
    | Conflict(version: int)

  function ReconcileDraft(norm: Normalizer, local: Local, d: Option<Row>, s: Option<Submission>): Reconciled {
    var version := VersionOf(d);
    if local.pendingSubmit.Some? && s.Some? && SameWork(norm, local.pendingSubmit.value, Some(s.value.work))
       && (d.None? || d.value.cleared || version <= local.version) then
      Submitted(if d.Some? && d.value.cleared then version else local.version)
    else if version <= local.version then Current
    else if d.Some? && !d.value.cleared && (d.value.work == local.work || d.value.work in local.unconfirmed) then
      Landed(version, d.value.work)
    else if local.work == local.base then Adopt(StartingWork(norm, s, d))
    else Conflict(version)
  }

  datatype Verdict = Synced | Conflicting | Unread

  function StaleVerdict(r: Option<Reconciled>, afterSubmit: bool): Verdict {
    if r.None? then Unread else
      match r.value
      case Landed(_, _) => Synced
      case Submitted(_) => Synced
      case Adopt(_) => if afterSubmit then Conflicting else Synced
      case Current => Unread
      case Conflict(_) => Conflicting
  }

  datatype Check = Check(stale: bool, upTo: int)

  function SubmitConflict(norm: Normalizer, known: Option<int>, d: Option<Row>, s: Option<Submission>, input: Work,
                          force: bool): Check {
    if known.None? then Check(false, 0) else
      var k := if known.value > 0 then known.value else 0;
      var current := VersionOf(d);
      if current <= k then Check(false, k) else
        var same := if d.value.cleared
                    then s.Some? && SameWork(norm, input, Some(s.value.work))
                    else SameWork(norm, input, Some(d.value.work));
        if force || same then Check(false, current) else Check(true, k)
  }

  // ---------------------------------------------------------------------------------------------
  // The database functions: save_course_assignment_draft and clear_course_assignment_draft
  // ---------------------------------------------------------------------------------------------

  /** A save of `work` over version `base`: the row it writes, or None when it writes nothing. */
  function SaveWrites(row: Option<Row>, base: int, work: Work, at: Instant): Option<Row> {
    if base <= 0 then (if row.None? then Some(Row(work, 1, at, false)) else None)
    else if row.Some? && row.value.version == base then Some(Row(work, base + 1, at, false))
    else None
  }

  /** The version a save answers with: the row it wrote, or one that already holds exactly this text; None is "stale". */
  function SaveAnswer(row: Option<Row>, base: int, work: Work, at: Instant): Option<int> {
    var written := SaveWrites(row, base, work, at);
    if written.Some? then Some(written.value.version)
    else if row.Some? && !row.value.cleared && row.value.work == work then Some(row.value.version)
    else None
  }

  /** Clearing up to `upTo`: the row it writes, or None when there is nothing to clear or the draft is newer. */
  function ClearWrites(row: Option<Row>, upTo: int, at: Instant): Option<Row> {
    if row.Some? && row.value.version <= upTo && !row.value.cleared
    then Some(Row(NOTHING, row.value.version + 1, at, true))
    else None
  }

  /** The version a clear answers with, when it says the draft is cleared. */
  function ClearAnswer(row: Option<Row>, upTo: int, at: Instant): Option<int> {
    var written := ClearWrites(row, upTo, at);
    if written.Some? then Some(written.value.version)
    else if row.None? then Some(0)
    else if row.value.cleared && row.value.version <= upTo then Some(row.value.version)
    else None
  }
}
