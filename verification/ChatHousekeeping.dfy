/**
 * lib/chat-housekeeping.ts: the daily sweep of chat uploads nobody sent, against a bucket and a database that may answer
 * anything at all. The helpers it takes from lib/support-housekeeping.ts are here too.
 */
module ChatHousekeeping {
  import opened Options
  import opened Texts
  import opened Sorting

  type Path = Text

  const DAY_MS := 24 * 60 * 60 * 1000
  const ORPHAN_MIN_AGE_MS := DAY_MS
  const LOOKUP_MAX_PATHS := 100
  const LOOKUP_MAX_CHARS := 4000
  const FOLDER_PAGE := 1000
  const FILE_PAGE := 100
  const MAX_CHANNEL_FOLDERS := 50000

  /** An entry of a listing; a folder has no id. Timestamps are as Date.parse reads them. */
  datatype Entry = Entry(name: Text, id: Option<Text>, createdAt: Option<int>, updatedAt: Option<int>)

  datatype StoredFile = StoredFile(path: Path, createdAt: Option<int>, updatedAt: Option<int>)

  /** The later of the two timestamps, of those that can be read. */
  function LastWrittenAt(file: StoredFile): Option<int> {
    if file.createdAt.None? then file.updatedAt
    else if file.updatedAt.Some? && file.updatedAt.value > file.createdAt.value then file.updatedAt
    else file.createdAt
  }

  predicate IsPastStagingWindow(file: StoredFile, now: int) {
    var at := LastWrittenAt(file);
    at.Some? && now - at.value > ORPHAN_MIN_AGE_MS
  }

  function FileAt(folder: Text, entry: Entry): StoredFile {
    StoredFile(folder + [SLASH] + entry.name, entry.createdAt, entry.updatedAt)
  }

  predicate IsHexDigit(c: Unit) { IsDigit(c) || 97 <= c <= 102 }

  /** isChatFolderName: a lower-case uuid, a channel at the top or an uploader inside it. */
  predicate IsChatFolderName(s: Text) {
    |s| == 36
    && forall k :: 0 <= k < 36 ==> if k == 8 || k == 13 || k == 18 || k == 23 then s[k] == DASH else IsHexDigit(s[k])
  }

  predicate IsNameUnit(c: Unit) { IsDigit(c) || 97 <= c <= 122 }

  /** isChatUploadPath: `<channel>/<uploader>/<uuid>-<name>`, the name one to a hundred characters. */
  predicate IsChatUploadPath(p: Path) {
    && 112 <= |p| <= 211
    && IsChatFolderName(p[..36]) && p[36] == SLASH && IsChatFolderName(p[37..73]) && p[73] == SLASH
    && IsChatFolderName(p[74..110]) && p[110] == DASH && IsNameUnit(p[111])
    && forall k :: 112 <= k < |p| ==> IsNameUnit(p[k]) || p[k] == DOT || p[k] == UNDERSCORE || p[k] == DASH
  }

  datatype Limits = Limits(channels: int, objects: int, removals: int)

  datatype Guard = Guard(minOrphans: int, maxShare: real)

  predicate LooksLikeLostRows(orphans: nat, checked: nat, guard: Guard) {
    orphans >= guard.minOrphans && orphans as real > checked as real * guard.maxShare
  }

  // ---------------------------------------------------------------------------------------------
  // What happened, and what a removal needs to have before it
  // ---------------------------------------------------------------------------------------------

  datatype Event =
    | Listing(folder: Text, offset: nat, limit: nat, entries: seq<Entry>)
    | Asked(about: seq<Path>, answer: Option<seq<Path>>)
    | Removed(paths: seq<Path>, said: Option<nat>)

  /** The bucket showed a file at this path, last written more than a day before `now`. */
  ghost predicate SeenOld(log: seq<Event>, p: Path, now: int) { exists i :: 0 <= i < |log| && ShowsOld(log[i], p, now) }

  ghost predicate ShowsOld(e: Event, p: Path, now: int) {
    e.Listing? && exists k :: 0 <= k < |e.entries| && OldFile(e.folder, e.entries[k], p, now)
  }

  predicate OldFile(folder: Text, entry: Entry, p: Path, now: int) {
    entry.id.Some? && FileAt(folder, entry).path == p && IsPastStagingWindow(FileAt(folder, entry), now)
  }

  /** The database was asked about this path, answered, and did not name it. */
  predicate Absent(e: Event, p: Path) { e.Asked? && e.answer.Some? && p in e.about && p !in e.answer.value }

  ghost predicate AbsentBefore(log: seq<Event>, p: Path) { exists i :: 0 <= i < |log| && Absent(log[i], p) }

  /** The removal is of uploads seen old, that one successful read did not name, and the read right before it did not either. */
  ghost predicate RemovalFits(now: int, before: seq<Event>, paths: seq<Path>) {
    before != [] && forall p :: p in paths ==>
      IsChatUploadPath(p) && SeenOld(before, p, now)
      && Absent(before[|before| - 1], p) && AbsentBefore(before[..|before| - 1], p)
  }

  ghost predicate LogFits(now: int, log: seq<Event>) {
    forall e :: 0 <= e < |log| && log[e].Removed? ==> RemovalFits(now, log[..e], log[e].paths)
  }

  function PathSet(paths: seq<Path>): set<Path> { set p | p in paths }

  function RemovedPaths(log: seq<Event>): set<Path> {
    if log == [] then {} else
      RemovedPaths(log[..|log| - 1]) + (if log[|log| - 1].Removed? then PathSet(log[|log| - 1].paths) else {})
  }

  function RemovedCount(log: seq<Event>): nat {
    if log == [] then 0 else
      RemovedCount(log[..|log| - 1]) + (if log[|log| - 1].Removed? then |log[|log| - 1].paths| else 0)
  }

  /** How many of these storage says it removed, as far as it can be believed. */
  function ToldOf(paths: seq<Path>, said: Option<nat>): nat {
    if said.None? then 0 else if said.value < |paths| then said.value else |paths|
  }

  function Told(log: seq<Event>): nat {
    if log == [] then 0 else
      Told(log[..|log| - 1])
      + (if log[|log| - 1].Removed? then ToldOf(log[|log| - 1].paths, log[|log| - 1].said) else 0)
  }

  /** Between these two moments the sweep removed nothing. */
  ghost predicate OnlyReads(log: seq<Event>, later: seq<Event>) {
    log <= later && forall e :: |log| <= e < |later| ==> !later[e].Removed?
  }

  lemma {:induction false} ReadsKeep(now: int, log: seq<Event>, later: seq<Event>)
    requires OnlyReads(log, later)
    ensures LogFits(now, log) ==> LogFits(now, later)
    ensures RemovedPaths(later) == RemovedPaths(log) && RemovedCount(later) == RemovedCount(log) && Told(later) == Told(log)
    decreases |later|
  {
    if |log| < |later| {
      var front := later[..|later| - 1];
      ReadsKeep(now, log, front);
      if LogFits(now, log) {
        forall i | 0 <= i < |later| && later[i].Removed? ensures RemovalFits(now, later[..i], later[i].paths) {
          assert front[i] == later[i] && front[..i] == later[..i];
        }
      }
    } else {
      assert later == log;
    }
  }

  lemma RemovalLogged(now: int, log: seq<Event>, paths: seq<Path>, said: Option<nat>)
    requires LogFits(now, log) && RemovalFits(now, log, paths)
    ensures var next := log + [Removed(paths, said)];
            && LogFits(now, next)
            && RemovedPaths(next) == RemovedPaths(log) + PathSet(paths) && RemovedCount(next) == RemovedCount(log) + |paths|
            && Told(next) == Told(log) + ToldOf(paths, said)
  {
    var next := log + [Removed(paths, said)];
    assert next[..|log|] == log;
    forall i | 0 <= i < |next| && next[i].Removed? ensures RemovalFits(now, next[..i], next[i].paths) {
      assert next[..i] == log[..i];
    }
  }

  lemma SeenOldLater(log: seq<Event>, later: seq<Event>, p: Path, now: int)
    requires log <= later && SeenOld(log, p, now)
    ensures SeenOld(later, p, now)
  {
    var i :| 0 <= i < |log| && ShowsOld(log[i], p, now);
    assert later[i] == log[i];
  }

  lemma AbsentLater(log: seq<Event>, later: seq<Event>, p: Path)
    requires log <= later && AbsentBefore(log, p)
    ensures AbsentBefore(later, p)
  {
    var i :| 0 <= i < |log| && Absent(log[i], p);
    assert later[i] == log[i];
  }

  // ---------------------------------------------------------------------------------------------
  // The world
  // ---------------------------------------------------------------------------------------------

  /**
   * Storage, database and clock. Any answer is possible; `patience` runs out at the deadline. `errors` counts the calls
   * that failed, and `late` says whether the clock was ever found past the deadline.
   */
  class World {
    ghost var log: seq<Event>
    ghost var errors: nat
    ghost var late: bool
    var patience: nat

    method OutOfTime() returns (out: bool)
      modifies this`patience, this`late
      ensures patience <= old(patience) && (out || patience < old(patience)) && late == (old(late) || out)
    {
      out := *;
      if patience == 0 { out := true; }
      if !out { patience := patience - 1; }
      late := late || out;
    }

    method List(folder: Text, limit: nat, offset: nat) returns (page: Option<seq<Entry>>)
      modifies this`log, this`errors
      ensures log == if page.Some? then old(log) + [Listing(folder, offset, limit, page.value)] else old(log)
      ensures errors == old(errors) + Failure(page)
    {
      page := *;
      if page.Some? { log := log + [Listing(folder, offset, limit, page.value)]; }
      errors := errors + Failure(page);
    }

    method FindInUse(paths: seq<Path>) returns (answer: Option<seq<Path>>)
      modifies this`log, this`errors
      ensures log == old(log) + [Asked(paths, answer)]
      ensures errors == old(errors) + Failure(answer)
    {
      answer := *;
      log := log + [Asked(paths, answer)];
      errors := errors + Failure(answer);
    }

    /** How many objects storage says it removed; None when it says it could not (it may have all the same). */
    method Remove(paths: seq<Path>) returns (removed: Option<nat>)
      modifies this`log, this`errors
      ensures log == old(log) + [Removed(paths, removed)]
      ensures errors == old(errors) + Failure(removed)
    {
      removed := *;
      log := log + [Removed(paths, removed)];
      errors := errors + Failure(removed);
    }
  }

  function Failure<T>(answer: Option<T>): nat { if answer.None? then 1 else 0 }

  // ---------------------------------------------------------------------------------------------
  // What a log says of the bucket
  // ---------------------------------------------------------------------------------------------

  /**
   * The entries of the folder being listed, each name once; the files of uploaders' folders, in the order listed; the
   * folders any page of which was listed; the uploaders' folders seen in a channel's; the channels at the top; and what
   * the database named.
   */
  datatype Picture = Picture(kept: seq<Entry>, found: seq<StoredFile>, visited: set<Text>, uploaders: set<Text>,
                             tops: seq<Text>, named: set<Path>)

  predicate HasName(entries: seq<Entry>, name: Text) { exists i :: 0 <= i < |entries| && entries[i].name == name }

  /** The entries and then those of the page whose names are new. */
  function KeepNew(entries: seq<Entry>, page: seq<Entry>): (r: seq<Entry>)
    ensures |entries| <= |r| <= |entries| + |page|
  {
    if page == [] then entries else
      var r, last := KeepNew(entries, page[..|page| - 1]), page[|page| - 1];
      if HasName(r, last.name) then r else r + [last]
  }

  function FirstOf<T>(xs: seq<T>, n: nat): seq<T> { if |xs| <= n then xs else xs[..n] }

  function FilesOf(folder: Text, entries: seq<Entry>): seq<StoredFile> {
    if entries == [] then [] else
      FilesOf(folder, entries[..|entries| - 1])
      + (if entries[|entries| - 1].id.Some? then [FileAt(folder, entries[|entries| - 1])] else [])
  }

  predicate IsFolder(e: Entry) { e.id.None? && IsChatFolderName(e.name) }

  function FolderNames(entries: seq<Entry>): seq<Text> {
    if entries == [] then [] else
      FolderNames(entries[..|entries| - 1])
      + (if IsFolder(entries[|entries| - 1]) then [entries[|entries| - 1].name] else [])
  }

  function UploadersIn(channel: Text, entries: seq<Entry>): set<Text> {
    set e | e in entries && IsFolder(e) :: channel + [SLASH] + e.name
  }

  /** These are the folder's entries so far. */
  function Listed(v: Picture, folder: Text, entries: seq<Entry>): Picture {
    v.(kept := entries, visited := v.visited + {folder},
       found := v.found + (if SLASH in folder then FilesOf(folder, entries) else []),
       uploaders := v.uploaders + (if SLASH in folder || folder == [] then {} else UploadersIn(folder, entries)))
  }

  /** A page adds the names it shows first, of the entries that were asked for; one at offset 0 begins a listing. */
  function After(v: Picture, e: Event): Picture {
    match e
    case Listing(folder, offset, limit, entries) =>
      var before := if offset == 0 then [] else v.kept;
      var kept := KeepNew(before, FirstOf(entries, limit));
      v.(kept := kept, visited := v.visited + {folder},
         found := v.found + (if SLASH in folder then FilesOf(folder, kept[|before|..]) else []),
         uploaders := v.uploaders + (if SLASH in folder || folder == [] then {} else UploadersIn(folder, kept)),
         tops := v.tops + if folder == [] then FolderNames(entries) else [])
    case Asked(_, answer) => if answer.None? then v else v.(named := v.named + PathSet(answer.value))
    case Removed(_, _) => v
  }

  function View(log: seq<Event>): Picture {
    if log == [] then Picture([], [], {}, {}, [], {}) else After(View(log[..|log| - 1]), log[|log| - 1])
  }

  lemma ViewMore(log: seq<Event>, e: Event)
    ensures View(log + [e]) == After(View(log), e)
  {
    assert (log + [e])[..|log|] == log;
    hide After;
  }

  /** What is kept of a page: the entries there were, every name on the page, and of each new name its first entry. */
  lemma KeepNewMeans(entries: seq<Entry>, page: seq<Entry>)
    requires DistinctNames(entries)
    ensures var r := KeepNew(entries, page);
      && entries <= r && DistinctNames(r)
      && (forall i :: |entries| <= i < |r| ==> r[i] in page)
      && (forall k :: 0 <= k < |page| ==> HasName(r, page[k].name))
      && (forall k :: 0 <= k < |page| && !HasName(entries, page[k].name) && !HasName(page[..k], page[k].name) ==> page[k] in r)
  {
    KeepNewOnce(entries, page);
    KeepNewHolds(entries, page);
    KeepNewFirsts(entries, page);
  }

  lemma {:induction false} KeepNewOnce(entries: seq<Entry>, page: seq<Entry>)
    ensures var r := KeepNew(entries, page);
            && entries <= r && (forall i :: |entries| <= i < |r| ==> r[i] in page)
            && (DistinctNames(entries) ==> DistinctNames(r))
  {
    if page != [] { KeepNewOnce(entries, page[..|page| - 1]); }
  }

  lemma {:induction false} KeepNewHolds(entries: seq<Entry>, page: seq<Entry>)
    ensures var r := KeepNew(entries, page); forall k :: 0 <= k < |page| ==> HasName(r, page[k].name)
  {
    if page != [] {
      var front, last := page[..|page| - 1], page[|page| - 1];
      KeepNewHolds(entries, front);
      var before, r := KeepNew(entries, front), KeepNew(entries, page);
      forall k | 0 <= k < |page| ensures HasName(r, page[k].name) {
        if k < |front| {
          assert front[k] == page[k];
          var i :| 0 <= i < |before| && before[i].name == page[k].name;
          assert r[i].name == page[k].name;
        } else if !HasName(before, last.name) {
          assert r[|before|].name == page[k].name;
        }
      }
    }
  }

  lemma {:induction false} KeepNewFirsts(entries: seq<Entry>, page: seq<Entry>)
    ensures var r := KeepNew(entries, page);
      forall k :: 0 <= k < |page| && !HasName(entries, page[k].name) && !HasName(page[..k], page[k].name) ==> page[k] in r
  {
    if page != [] {
      var front, last := page[..|page| - 1], page[|page| - 1];
      KeepNewFirsts(entries, front);
      KeepNewOnce(entries, front);
      var before, r := KeepNew(entries, front), KeepNew(entries, page);
      NameFrom(entries, front, before, last.name);
      assert !HasName(before, last.name) ==> r[|before|] == last;
      hide HasName, KeepNew;
      assert forall e :: e in before ==> e in r;
      forall k | 0 <= k < |page| && !HasName(entries, page[k].name) && !HasName(page[..k], page[k].name)
        ensures page[k] in r
      {
        assert front[..k] == page[..k];
        if k < |front| { assert front[k] == page[k]; }
      }
    }
  }

  lemma NameFrom(entries: seq<Entry>, page: seq<Entry>, more: seq<Entry>, name: Text)
    requires entries <= more && forall i :: |entries| <= i < |more| ==> more[i] in page
    ensures HasName(more, name) ==> HasName(entries, name) || HasName(page, name)
  {
    if HasName(more, name) {
      var i :| 0 <= i < |more| && more[i].name == name;
      if i < |entries| {
        assert entries[i].name == name;
      } else {
        var j :| 0 <= j < |page| && page[j] == more[i];
        assert page[j].name == name;
      }
    }
  }

  lemma {:induction false} FilesOfMore(folder: Text, a: seq<Entry>, b: seq<Entry>)
    ensures FilesOf(folder, a + b) == FilesOf(folder, a) + FilesOf(folder, b)
  {
    if b == [] {
      assert a + b == a;
    } else {
      assert (a + b)[..|a + b| - 1] == a + b[..|b| - 1];
      FilesOfMore(folder, a, b[..|b| - 1]);
    }
  }

  /** A page of a folder, first or later. */
  lemma PageSeen(v: Picture, folder: Text, offset: nat, limit: nat, page: seq<Entry>, before: seq<Entry>, seen: Picture)
    requires folder != [] && seen == (if offset == 0 then v else Listed(v, folder, before)) && (offset == 0 ==> before == [])
    ensures After(seen, Listing(folder, offset, limit, page)) == Listed(v, folder, KeepNew(before, FirstOf(page, limit)))
  {
    var kept := KeepNew(before, FirstOf(page, limit));
    KeepNewOnce(before, FirstOf(page, limit));
    ListedKept(v, folder, before);
    if offset == 0 { ListsFirst(v, folder, kept); } else { ListsOn(v, folder, before, kept); }
    hide FilesOf, KeepNew, UploadersIn, FirstOf, Listed;
  }

  /** A picture with more of a folder's entries. */
  function ListsMore(v: Picture, folder: Text, before: seq<Entry>, kept: seq<Entry>): Picture
    requires |before| <= |kept|
  {
    v.(kept := kept, visited := v.visited + {folder},
       found := v.found + (if SLASH in folder then FilesOf(folder, kept[|before|..]) else []),
       uploaders := v.uploaders + (if SLASH in folder || folder == [] then {} else UploadersIn(folder, kept)),
       tops := v.tops)
  }

  lemma ListsFirst(v: Picture, folder: Text, kept: seq<Entry>)
    ensures ListsMore(v, folder, [], kept) == Listed(v, folder, kept)
  {
    assert kept[0..] == kept;
    hide FilesOf, UploadersIn;
  }

  lemma ListsOn(v: Picture, folder: Text, before: seq<Entry>, kept: seq<Entry>)
    requires before <= kept
    ensures ListsMore(Listed(v, folder, before), folder, before, kept) == Listed(v, folder, kept)
  {
    assert kept == before + kept[|before|..];
    FilesOfMore(folder, before, kept[|before|..]);
    assert UploadersIn(folder, before) <= UploadersIn(folder, kept);
    hide FilesOf, UploadersIn;
    Assoc(v.found, FilesOf(folder, before), FilesOf(folder, kept[|before|..]));
    AppendNothing(v.found);
    SetAbsorbs(v.uploaders, UploadersIn(folder, before), UploadersIn(folder, kept));
    SetAbsorbs(v.visited, {folder}, {folder});
    SetAbsorbs(v.uploaders, {}, {});
  }

  lemma SetAbsorbs<T>(a: set<T>, b: set<T>, c: set<T>)
    requires b <= c
    ensures a + b + c == a + c
  {}

  // ---------------------------------------------------------------------------------------------
  // Helpers
  // ---------------------------------------------------------------------------------------------

  function Paths(files: seq<StoredFile>): seq<Path> { seq(|files|, i requires 0 <= i < |files| => files[i].path) }

  function Flat(groups: seq<seq<StoredFile>>): seq<StoredFile> {
    if groups == [] then [] else Flat(groups[..|groups| - 1]) + groups[|groups| - 1]
  }

  function Chars(files: seq<StoredFile>): nat {
    if files == [] then 0 else Chars(files[..|files| - 1]) + |files[|files| - 1].path|
  }

  /** One lookup's worth: at most a hundred paths, and at most so many characters unless it is a single path. */
  predicate FitsLookup(group: seq<StoredFile>) {
    0 < |group| <= LOOKUP_MAX_PATHS && (|group| == 1 || Chars(group) <= LOOKUP_MAX_CHARS)
  }

  /** A group ends only where the next file does not fit. */
  ghost predicate EachFilled(groups: seq<seq<StoredFile>>) {
    forall k :: 0 <= k < |groups| - 1 ==> NoRoomFor(groups[k], groups[k + 1])
  }

  /** Not even the first of these fits into the group before them. */
  predicate NoRoomFor(group: seq<StoredFile>, next: seq<StoredFile>) {
    next != [] && (|group| >= LOOKUP_MAX_PATHS || Chars(group) + |next[0].path| > LOOKUP_MAX_CHARS)
  }

  lemma FirstGroup()
    ensures EachFilled([])
  {}

  lemma LastGroup(groups: seq<seq<StoredFile>>, g: seq<StoredFile>)
    requires EachFilled(groups) && (groups != [] ==> NoRoomFor(groups[|groups| - 1], g))
    ensures EachFilled(groups + [g])
  {
    hide NoRoomFor;
  }

  /** The file goes into the group being filled, where it fits. */
  lemma GroupGrows(groups: seq<seq<StoredFile>>, current: seq<StoredFile>, item: StoredFile)
    requires current == [] || FitsLookup(current)
    requires current != [] ==> |current| < LOOKUP_MAX_PATHS && Chars(current) + |item.path| <= LOOKUP_MAX_CHARS
    requires groups != [] ==> NoRoomFor(groups[|groups| - 1], if current == [] then [item] else current)
    ensures FitsLookup(current + [item]) && (groups != [] ==> NoRoomFor(groups[|groups| - 1], current + [item]))
  {
    CharsMore(current, item);
    assert current == [] ==> current + [item] == [item];
    hide Chars;
  }

  /** Where it does not fit, the group ends and the file begins the next. */
  lemma GroupEnds(groups: seq<seq<StoredFile>>, current: seq<StoredFile>, item: StoredFile)
    requires EachFilled(groups) && (groups != [] ==> NoRoomFor(groups[|groups| - 1], current))
    requires |current| >= LOOKUP_MAX_PATHS || Chars(current) + |item.path| > LOOKUP_MAX_CHARS
    ensures EachFilled(groups + [current]) && NoRoomFor(current, [item])
  {
    LastGroup(groups, current);
    hide Chars, EachFilled;
  }

  lemma FlatMore(groups: seq<seq<StoredFile>>, g: seq<StoredFile>)
    ensures Flat([]) == [] && Flat(groups + [g]) == Flat(groups) + g
  {
    assert (groups + [g])[..|groups|] == groups;
  }

  lemma CharsMore(files: seq<StoredFile>, f: StoredFile)
    ensures Chars([]) == 0 && Chars(files + [f]) == Chars(files) + |f.path|
  {
    assert (files + [f])[..|files|] == files;
  }

  /** chunkByPathLength. */
  method ChunkByPathLength(items: seq<StoredFile>) returns (groups: seq<seq<StoredFile>>)
    ensures Flat(groups) == items
    ensures forall g :: g in groups ==> FitsLookup(g)
    ensures EachFilled(groups)
  {
    hide Flat, Chars, EachFilled, NoRoomFor, FitsLookup;
    FirstGroup();
    groups := [];
    var current: seq<StoredFile> := [];
    var chars := 0;
    var i := 0;
    FlatMore([], []);
    if items != [] { CharsMore([], items[0]); }
    while i < |items|
      invariant 0 <= i <= |items| && Flat(groups) + current == items[..i] && (items == [] || chars == Chars(current))
      invariant current == [] || FitsLookup(current)
      invariant forall g :: g in groups ==> FitsLookup(g)
      invariant EachFilled(groups)
      invariant groups != [] && current != [] ==> NoRoomFor(groups[|groups| - 1], current)
      invariant groups != [] ==> current != []
    {
      var item := items[i];
      ghost var before := Flat(groups) + current;
      if |current| > 0 && (|current| >= LOOKUP_MAX_PATHS || chars + |item.path| > LOOKUP_MAX_CHARS) {
        FlatMore(groups, current);
        GroupEnds(groups, current, item);
        AppendNothing(before);
        groups := groups + [current];
        CharsMore([], item);
        current, chars := [], 0;
      }
      CharsMore(current, item);
      GroupGrows(groups, current, item);
      Assoc(Flat(groups), current, [item]);
      assert items[..i + 1] == items[..i] + [item];
      current := current + [item];
      chars := chars + |item.path|;
      i := i + 1;
    }
    assert items[..i] == items;
    if current != [] {
      FlatMore(groups, current);
      LastGroup(groups, current);
      groups := groups + [current];
    }
  }

  /** rotatingWindow: which items this run visits. */
  function RotatingWindow(items: seq<Text>, size: int, now: int): (r: seq<Text>)
    ensures |r| == (if size >= |items| then |items| else if size < 0 then 0 else size)
    ensures forall x :: x in r ==> x in items
  {
    var n, take := |items|, if size < 0 then 0 else size;
    if take >= n then items
    else if take == 0 then []
    else
      var start := (now / DAY_MS * take) % n;
      seq(take, i requires 0 <= i < take => items[(start + i) % n])
  }

  /** How many runs of `size` items a list of n takes. */
  function Rounds(n: nat, size: int): int
    requires size > 0
  {
    (n + size - 1) / size
  }

  /** While the list holds still, every item is visited within ⌈n / size⌉ days, at whatever time of each the sweep runs. */
  lemma EveryItemVisited(items: seq<Text>, size: int, day: int, x: nat)
    requires size > 0 && x < |items|
    ensures exists k :: VisitedOn(items, size, day, k, x)
  {
    var n := |items|;
    if size >= n {
      FewRounds(n, size, 0);
      OneQuotient(0, 0, 0, size);
      assert VisitedOn(items, size, day, 0, x);
    } else {
      var r := (x - day * size) % n;
      Comes(x, day * size, n);
      FewRounds(n, size, r);
      Remainder(r, size);
      OnTheDay(items, size, day, r / size, r % size, x);
      assert VisitedOn(items, size, day, r / size, x);
    }
  }

  lemma OnTheDay(items: seq<Text>, size: int, day: int, k: int, i: nat, x: nat)
    requires i < size < |items| && x < |items| && (day * size + (k * size + i)) % |items| == x
    ensures forall now: int :: now / DAY_MS == day + k ==> items[x] in RotatingWindow(items, size, now)
  {
    var start := (day + k) * size;
    assert start + i == day * size + (k * size + i);
    SumMod(start, i, |items|);
    TurnsUp(items, size, day + k, start, i, x);
  }

  lemma TurnsUp(items: seq<Text>, size: int, day: int, start: int, i: nat, x: nat)
    requires i < size < |items| && x < |items| && start == day * size && (start % |items| + i) % |items| == x
    ensures forall now: int :: now / DAY_MS == day ==> items[x] in RotatingWindow(items, size, now)
  {
    hide RotatingWindow;
    forall now: int | now / DAY_MS == day ensures items[x] in RotatingWindow(items, size, now) {
      InTurn(items, size, now, start, i);
    }
  }

  /** Whenever the sweep runs on the k-th day from `day`, which is one of the first ⌈n / size⌉, it visits the item. */
  ghost predicate VisitedOn(items: seq<Text>, size: int, day: int, k: int, x: nat)
    requires size > 0 && x < |items|
  {
    && 0 <= k < Rounds(|items|, size)
    && forall now: int :: now / DAY_MS == day + k ==> items[x] in RotatingWindow(items, size, now)
  }

  lemma InTurn(items: seq<Text>, size: int, now: int, start: int, i: nat)
    requires i < size < |items| && start == now / DAY_MS * size
    ensures items[(start % |items| + i) % |items|] in RotatingWindow(items, size, now)
  {
    assert RotatingWindow(items, size, now)[i] == items[(start % |items| + i) % |items|];
  }

  lemma Remainder(a: int, n: int)
    requires n > 0
    ensures a == a / n * n + a % n && 0 <= a % n < n
  {}

  lemma Product(c: int, n: int)
    requires n > 0
    ensures c >= 1 ==> c * n >= n
    ensures c <= 0 ==> c * n <= 0
  {}

  /** A quotient and a remainder that make up a number are its own. */
  lemma OneQuotient(a: int, q: int, r: int, n: int)
    requires n > 0 && 0 <= r < n && a == q * n + r
    ensures a / n == q && a % n == r
  {
    Remainder(a, n);
    var c := q - a / n;
    assert c * n == q * n - a / n * n == a % n - r;
    Product(c, n);
    Product(-c, n);
    assert (-c) * n == -(c * n);
  }

  lemma Rises(a: int, b: int, n: int)
    requires n > 0 && a <= b
    ensures a / n <= b / n
  {
    Remainder(a, n);
    Remainder(b, n);
    var c := a / n - b / n;
    assert c * n == a / n * n - b / n * n < n;
    Product(c, n);
  }

  lemma FewRounds(n: nat, size: int, r: nat)
    requires size > 0 && r < n
    ensures 0 <= r / size < Rounds(n, size)
  {
    Rises(0, r, size);
    Rises(r, n - 1, size);
    Remainder(n - 1, size);
    OneQuotient(n - 1 + size, (n - 1) / size + 1, (n - 1) % size, size);
    OneQuotient(0, 0, 0, size);
  }

  /** Adding a multiple of n changes no remainder. */
  lemma Turns(a: int, c: int, n: int)
    requires n > 0
    ensures (a + c * n) % n == a % n
  {
    Remainder(a, n);
    assert (a / n + c) * n == a / n * n + c * n;
    OneQuotient(a + c * n, a / n + c, a % n, n);
  }

  lemma SumMod(a: int, i: int, n: int)
    requires n > 0
    ensures (a % n + i) % n == (a + i) % n
  {
    Remainder(a, n);
    Turns(a % n + i, a / n, n);
    assert a % n + i + a / n * n == a + i;
  }

  /** Going on from `base`, x comes around within n. */
  lemma Comes(x: nat, base: int, n: int)
    requires x < n
    ensures (base + (x - base) % n) % n == x
  {
    Remainder(x - base, n);
    var c := (x - base) / n;
    Turns(base + (x - base) % n, c, n);
    assert base + (x - base) % n + c * n == x;
  }

  lemma SortHolds(xs: seq<Text>)
    ensures forall x :: x in Sort(TextLe, xs) <==> x in xs
  {
    SortPermutes(TextLe, xs);
    forall x ensures x in Sort(TextLe, xs) <==> x in xs {
      assert x in multiset(Sort(TextLe, xs)) <==> x in multiset(xs);
    }
  }

  /** `found` of the `judged` old files were in no message: what the note about lost rows says. */
  datatype Report = Report(examined: int, removed: int, skipped: int, folders: int, total: int, errors: int,
                           found: nat, judged: nat, halted: bool)

  /** The paths nobody uses, in the order they are first listed. */
  function Orphans(files: seq<StoredFile>, inUse: set<Path>, now: int): (r: seq<Path>)
    ensures |r| <= |files|
  {
    if files == [] then [] else
      var front, last := files[..|files| - 1], files[|files| - 1];
      var before := Orphans(front, inUse, now);
      if last.path !in Paths(front) && Candidate(now, last) && last.path !in inUse then before + [last.path] else before
  }

  /** Of any two, the earlier was listed before the later was first listed. */
  ghost predicate InOrder(files: seq<StoredFile>, out: seq<Path>) {
    forall a, b :: 0 <= a < b < |out| ==> Before(files, out[a], out[b])
  }

  ghost predicate Before(files: seq<StoredFile>, p: Path, q: Path) {
    exists i :: 0 <= i < |files| && files[i].path == p && forall j :: 0 <= j <= i ==> files[j].path != q
  }

  /** Judged by the layout, the window and what the database said: each path once, in the order listed. */
  method SelectChatOrphans(files: seq<StoredFile>, inUse: set<Path>, now: int) returns (out: seq<Path>)
    ensures out == Orphans(files, inUse, now) && InOrder(files, out)
    ensures forall p :: p in out <==> p !in inUse && IsChatUploadPath(p) && FirstIsOld(files, p, now)
    ensures forall i, j :: 0 <= i < j < |out| ==> out[i] != out[j]
    ensures |out| <= |files|
  {
    out := [];
    var seen: set<Path> := {};
    var i := 0;
    while i < |files|
      invariant 0 <= i <= |files| && out == Orphans(files[..i], inUse, now)
      invariant forall p :: p in seen <==> p in Paths(files[..i])
    {
      var file := files[i];
      assert files[..i + 1][..i] == files[..i] && Paths(files[..i + 1]) == Paths(files[..i]) + [file.path];
      if file.path !in seen {
        if IsChatUploadPath(file.path) && IsPastStagingWindow(file, now) && file.path !in inUse { out := out + [file.path]; }
      }
      seen := seen + {file.path};
      i := i + 1;
    }
    assert files[..i] == files;
    OrphansMean(files, inUse, now);
    OrphansInOrder(files, inUse, now);
  }

  lemma OrphansMean(files: seq<StoredFile>, inUse: set<Path>, now: int)
    ensures var out := Orphans(files, inUse, now);
            && (forall p :: p in out <==> p !in inUse && IsChatUploadPath(p) && FirstIsOld(files, p, now))
            && (forall i, j :: 0 <= i < j < |out| ==> out[i] != out[j])
            && forall p :: p in out ==> p in Paths(files)
  {
    OrphansOnce(files, inUse, now);
    forall p ensures p in Orphans(files, inUse, now) <==> p !in inUse && IsChatUploadPath(p) && FirstIsOld(files, p, now) {
      IsOrphan(files, inUse, now, p);
    }
  }

  lemma {:induction false} IsOrphan(files: seq<StoredFile>, inUse: set<Path>, now: int, p: Path)
    ensures p in Orphans(files, inUse, now) <==> p !in inUse && IsChatUploadPath(p) && FirstIsOld(files, p, now)
  {
    hide IsChatUploadPath;
    if files != [] {
      var front := files[..|files| - 1];
      IsOrphan(front, inUse, now, p);
      InPaths(front, p);
    }
  }

  lemma {:induction false} OrphansOnce(files: seq<StoredFile>, inUse: set<Path>, now: int)
    ensures var out := Orphans(files, inUse, now);
            (forall i, j :: 0 <= i < j < |out| ==> out[i] != out[j]) && forall p :: p in out ==> p in Paths(files)
  {
    hide IsChatUploadPath;
    if files != [] {
      var front, last := files[..|files| - 1], files[|files| - 1];
      OrphansOnce(front, inUse, now);
      assert Paths(files) == Paths(front) + [last.path];
    }
  }

  lemma {:induction false} OrphansInOrder(files: seq<StoredFile>, inUse: set<Path>, now: int)
    ensures InOrder(files, Orphans(files, inUse, now))
  {
    if files != [] {
      var front, last := files[..|files| - 1], files[|files| - 1];
      OrphansInOrder(front, inUse, now);
      OrphansMean(front, inUse, now);
      InPaths(front, last.path);
      var before := Orphans(front, inUse, now);
      assert last.path !in Paths(front) ==> forall j :: 0 <= j < |front| ==> files[j].path != last.path;
      hide Orphans, IsChatUploadPath, FirstIsOld;
      OrderMore(files, before);
    }
  }

  lemma OrderMore(files: seq<StoredFile>, out: seq<Path>)
    requires files != [] && InOrder(files[..|files| - 1], out) && forall p :: p in out ==> p in Paths(files[..|files| - 1])
    ensures InOrder(files, out)
    ensures files[|files| - 1].path !in Paths(files[..|files| - 1]) ==> InOrder(files, out + [files[|files| - 1].path])
  {
    var front, last := files[..|files| - 1], files[|files| - 1].path;
    forall a, b | 0 <= a < b < |out| ensures Before(files, out[a], out[b]) {
      assert Before(front, out[a], out[b]);
      var k :| 0 <= k < |front| && front[k].path == out[a] && forall j :: 0 <= j <= k ==> front[j].path != out[b];
      assert files[k].path == out[a];
    }
    if last !in Paths(front) {
      forall p | p in out ensures Before(files, p, last) { BeforeLast(files, p); }
      hide Before, Paths;
    }
  }

  lemma BeforeLast(files: seq<StoredFile>, p: Path)
    requires files != [] && p in Paths(files[..|files| - 1]) && files[|files| - 1].path !in Paths(files[..|files| - 1])
    ensures Before(files, p, files[|files| - 1].path)
  {
    var front, last := files[..|files| - 1], files[|files| - 1].path;
    InPaths(front, p);
    var k :| 0 <= k < |front| && front[k].path == p;
    assert files[k].path == p;
    forall j | 0 <= j <= k ensures files[j].path != last { assert Paths(front)[j] == files[j].path; }
  }

  lemma InPaths(files: seq<StoredFile>, p: Path)
    ensures p in Paths(files) <==> exists j :: 0 <= j < |files| && files[j].path == p
  {
    if p in Paths(files) { var j :| 0 <= j < |files| && Paths(files)[j] == p; }
    if j :| 0 <= j < |files| && files[j].path == p { assert Paths(files)[j] == p; }
  }

  /** The first file listed at this path is past the window. */
  predicate FirstIsOld(files: seq<StoredFile>, p: Path, now: int) {
    files != [] &&
      (|| FirstIsOld(files[..|files| - 1], p, now)
       || (files[|files| - 1].path == p && IsPastStagingWindow(files[|files| - 1], now)
           && forall j :: 0 <= j < |files| - 1 ==> files[j].path != p))
  }

  lemma {:induction false} FirstIsAFile(files: seq<StoredFile>, p: Path, now: int)
    requires FirstIsOld(files, p, now)
    ensures exists i :: 0 <= i < |files| && files[i].path == p && IsPastStagingWindow(files[i], now)
  {
    var front, last := files[..|files| - 1], files[|files| - 1];
    if FirstIsOld(front, p, now) {
      FirstIsAFile(front, p, now);
      var i :| 0 <= i < |front| && front[i].path == p && IsPastStagingWindow(front[i], now);
      assert files[i] == front[i];
    } else {
      assert files[|files| - 1] == last;
    }
  }

  datatype Cut = NoCut | OutOfTime | OutOfRoom

  ghost predicate DistinctNames(entries: seq<Entry>) {
    forall i, j :: 0 <= i < j < |entries| ==> entries[i].name != entries[j].name
  }

  ghost predicate AllListed(log: seq<Event>, folder: Text, entries: seq<Entry>) {
    forall e :: e in entries ==> InListing(log, folder, e)
  }

  ghost predicate AreNames(entries: seq<Entry>, names: set<Text>) { forall n :: n in names <==> HasName(entries, n) }

  lemma NameMore(entries: seq<Entry>, e: Entry, names: set<Text>)
    requires AreNames(entries, names)
    ensures AreNames(entries + [e], names + {e.name})
  {
    var more := entries + [e];
    assert more[|entries|] == e;
    forall n ensures HasName(entries, n) || n == e.name <==> HasName(more, n) {
      if HasName(entries, n) {
        var i :| 0 <= i < |entries| && entries[i].name == n;
        assert more[i].name == n;
      }
    }
  }

  /** What was there stays; every name on the page is there too, as first listed; and nothing else is. */
  ghost predicate Takes(page: seq<Entry>, limit: nat, entries: seq<Entry>, more: seq<Entry>) {
    && entries <= more && (forall i :: |entries| <= i < |more| ==> more[i] in page)
    && (forall k :: 0 <= k < |page| && k < limit ==> HasName(more, page[k].name))
    && forall k :: 0 <= k < |page| && k < limit && !HasName(entries, page[k].name) && !HasName(page[..k], page[k].name) ==>
         page[k] in more
  }

  /** One page of those asked for, each name once: every name on it is there, as first listed. */
  method TakePage(page: seq<Entry>, limit: nat, entries: seq<Entry>, seen: set<Text>) returns (more: seq<Entry>, known: set<Text>)
    requires DistinctNames(entries) && AreNames(entries, seen)
    ensures more == KeepNew(entries, FirstOf(page, limit)) && AreNames(more, known)
    ensures DistinctNames(more) && |more| <= |entries| + limit && Takes(page, limit, entries, more)
  {
    more, known := entries, seen;
    ghost var asked := FirstOf(page, limit);
    var k := 0;
    while k < |page| && k < limit
      invariant 0 <= k <= |asked| && more == KeepNew(entries, asked[..k]) && AreNames(more, known)
    {
      assert asked[..k + 1][..k] == asked[..k];
      if page[k].name !in known {
        NameMore(more, page[k], known);
        known := known + {page[k].name};
        more := more + [page[k]];
      }
      k := k + 1;
    }
    assert asked[..k] == asked;
    TakesAsked(page, limit, entries);
    hide KeepNew, Takes, AreNames, DistinctNames;
  }

  lemma TakesAsked(page: seq<Entry>, limit: nat, entries: seq<Entry>)
    requires DistinctNames(entries)
    ensures var more := KeepNew(entries, FirstOf(page, limit)); DistinctNames(more) && Takes(page, limit, entries, more)
  {
    var asked := FirstOf(page, limit);
    KeepNewMeans(entries, asked);
    hide KeepNew, HasName, DistinctNames;
    forall k | 0 <= k < |page| && k < limit ensures asked[k] == page[k] && asked[..k] == page[..k] {}
  }

  /**
   * The i-th event is the next page of the folder: the first from the top, each later one after a full page and where
   * that ended, and never of more than there is room for.
   */
  ghost predicate PageFits(log: seq<Event>, first: nat, i: nat, folder: Text, room: Option<nat>)
    requires first <= i < |log|
  {
    && log[i].Listing? && log[i].folder == folder
    && (if i == first then log[i].offset == 0 else
          && log[i - 1].Listing? && log[i].offset == log[i - 1].offset + |log[i - 1].entries| > 0
          && |log[i - 1].entries| >= log[i - 1].limit)
    && log[i].limit == PageSize(if i == first then [] else View(log[..i]).kept, room)
  }

  function PageSize(entries: seq<Entry>, room: Option<nat>): nat {
    if room.Some? && room.value - |entries| < FILE_PAGE then (if room.value < |entries| then 0 else room.value - |entries|)
    else FILE_PAGE
  }

  ghost predicate PagesFit(log: seq<Event>, first: nat, folder: Text, room: Option<nat>) {
    forall i: nat :: first <= i < |log| ==> PageFits(log, first, i, folder, room)
  }

  lemma NextPageFits(log: seq<Event>, first: nat, folder: Text, room: Option<nat>, e: Event)
    requires first <= |log| && PagesFit(log, first, folder, room)
    requires e.Listing? && e.folder == folder && e.limit == PageSize(if |log| == first then [] else View(log).kept, room)
    requires if |log| == first then e.offset == 0 else
               var before := log[|log| - 1];
               before.Listing? && e.offset == before.offset + |before.entries| > 0 && |before.entries| >= before.limit
    ensures PagesFit(log + [e], first, folder, room)
  {
    var next := log + [e];
    forall i: nat | first <= i < |next| ensures PageFits(next, first, i, folder, room) {
      if i < |log| {
        assert PageFits(log, first, i, folder, room);
        assert next[..i] == log[..i];
      } else {
        assert next[..i] == log;
      }
    }
  }

  /** Since `start`, pages of the folder have been listed up to `offset`, and hold these entries. */
  ghost predicate ListedTo(start: seq<Event>, log: seq<Event>, folder: Text, room: Option<nat>, entries: seq<Entry>,
                           offset: nat) {
    && OnlyReads(start, log) && AllListed(log, folder, entries) && PagesFit(log, |start|, folder, room)
    && (if offset == 0 then entries == [] else View(log) == Listed(View(start), folder, entries))
    && (offset == 0 <==> |log| == |start|)
    && (offset > 0 ==> log[|log| - 1].Listing? && offset == log[|log| - 1].offset + |log[|log| - 1].entries|)
  }

  /** The last page is as full as it was asked to be, or there is none. */
  ghost predicate LastIsFull(start: seq<Event>, log: seq<Event>) {
    |log| > |start| ==> log[|log| - 1].Listing? && |log[|log| - 1].entries| >= log[|log| - 1].limit
  }

  ghost predicate LastIsShort(start: seq<Event>, log: seq<Event>) {
    |log| > |start| && log[|log| - 1].Listing? && |log[|log| - 1].entries| < log[|log| - 1].limit
  }

  lemma NextPage(start: seq<Event>, log: seq<Event>, folder: Text, room: Option<nat>, entries: seq<Entry>, e: Event)
    requires e.Listing? && folder != [] && e.folder == folder && ListedTo(start, log, folder, room, entries, e.offset)
    requires LastIsFull(start, log) && e.limit == PageSize(entries, room) && e.offset + |e.entries| > 0
    ensures ListedTo(start, log + [e], folder, room, KeepNew(entries, FirstOf(e.entries, e.limit)), e.offset + |e.entries|)
  {
    hide AllListed, PagesFit, FirstOf, KeepNew, View, After;
    var more := KeepNew(entries, FirstOf(e.entries, e.limit));
    ListedKept(View(start), folder, entries);
    assert |log| == |start| ==> log == start;
    NextPageFits(log, |start|, folder, room, e);
    ViewMore(log, e);
    PageSeen(View(start), folder, e.offset, e.limit, e.entries, entries, View(log));
    PageListed(log, log + [e], folder, e, entries, more);
  }

  /** A page nothing is on ends the listing, too. */
  lemma EmptyPage(start: seq<Event>, log: seq<Event>, folder: Text, room: Option<nat>, e: Event)
    requires e.Listing? && folder != [] && e.folder == folder && ListedTo(start, log, folder, room, [], 0)
    requires e.offset == 0 && e.entries == [] && e.limit == PageSize([], room)
    ensures Ends(start, log + [e], folder, room, [])
  {
    assert log == start && FirstOf(e.entries, e.limit) == [] && KeepNew([], []) == [];
    hide AllListed, PagesFit, FirstOf, View, After, KeepNew;
    NextPageFits(log, |start|, folder, room, e);
    ViewMore(log, e);
    PageSeen(View(start), folder, e.offset, e.limit, e.entries, [], View(log));
    PageListed(log, log + [e], folder, e, [], []);
  }

  ghost predicate Ends(start: seq<Event>, log: seq<Event>, folder: Text, room: Option<nat>, entries: seq<Entry>) {
    && OnlyReads(start, log) && AllListed(log, folder, entries) && PagesFit(log, |start|, folder, room)
    && (if |log| == |start| then entries == [] else View(log) == Listed(View(start), folder, entries))
  }

  lemma ItEnds(start: seq<Event>, log: seq<Event>, folder: Text, room: Option<nat>, entries: seq<Entry>, offset: nat)
    requires ListedTo(start, log, folder, room, entries, offset)
    ensures Ends(start, log, folder, room, entries) && (offset > 0 ==> |log| > |start|)
  {
    hide AllListed, PagesFit, View, Listed;
  }

  lemma TookPage(start: seq<Event>, log: seq<Event>, folder: Text, room: Option<nat>, entries: seq<Entry>, e: Event)
    requires e.Listing? && folder != [] && e.folder == folder && ListedTo(start, log, folder, room, entries, e.offset)
    requires LastIsFull(start, log) && e.limit == PageSize(entries, room) && (e.offset == 0 ==> entries == [])
    ensures var next, more := log + [e], KeepNew(entries, FirstOf(e.entries, e.limit));
            && Ends(start, next, folder, room, more) && |next| > |start|
            && (e.offset + |e.entries| > 0 ==> ListedTo(start, next, folder, room, more, e.offset + |e.entries|))
  {
    var more := KeepNew(entries, FirstOf(e.entries, e.limit));
    if e.offset + |e.entries| > 0 {
      NextPage(start, log, folder, room, entries, e);
      ItEnds(start, log + [e], folder, room, more, e.offset + |e.entries|);
    } else {
      assert FirstOf(e.entries, e.limit) == [] && more == [];
      hide KeepNew, FirstOf;
      EmptyPage(start, log, folder, room, e);
    }
  }

  /**
   * listAll: one folder's entries, a page at a time. What it returns is every name of the pages it read, each once and as
   * first listed; it reads on until a page is short, the room is used up, the clock runs out or a page can't be read.
   */
  method ListAll(w: World, folder: Text, room: Option<nat>) returns (entries: seq<Entry>, failed: bool, cut: Cut)
    requires folder != []
    modifies w
    ensures Ends(old(w.log), w.log, folder, room, entries) && DistinctNames(entries)
    ensures room.Some? ==> |entries| <= room.value
    ensures w.patience <= old(w.patience) && (old(w.late) ==> w.late) && w.errors == old(w.errors) + (if failed then 1 else 0)
    ensures cut.OutOfTime? ==> w.late && |w.log| > |old(w.log)|
    ensures cut.OutOfRoom? ==> room.Some? && |entries| == room.value
    ensures failed ==> cut.NoCut?
    ensures cut.NoCut? && !failed ==> LastIsShort(old(w.log), w.log)
  {
    assert ListedTo(w.log, w.log, folder, room, [], 0) && DistinctNames([]) && AreNames([], {});
    ItEnds(w.log, w.log, folder, room, [], 0);
    hide ListedTo, Ends, DistinctNames, AreNames, FirstOf, KeepNew, Takes;
    entries, failed, cut := [], false, OutOfRoom;
    var seen: set<Text> := {};
    var offset: nat := 0;
    while room.None? || |entries| < room.value
      invariant ListedTo(old(w.log), w.log, folder, room, entries, offset) && LastIsFull(old(w.log), w.log)
      invariant Ends(old(w.log), w.log, folder, room, entries) && (offset > 0 ==> |w.log| > |old(w.log)|)
      invariant DistinctNames(entries) && AreNames(entries, seen) && (offset == 0 ==> entries == [])
      invariant room.Some? ==> |entries| <= room.value
      invariant w.patience <= old(w.patience) && (old(w.late) ==> w.late) && w.errors == old(w.errors)
      decreases w.patience, if offset == 0 then 1 else 0
    {
      if offset > 0 {
        var out := w.OutOfTime();
        if out { return entries, false, OutOfTime; }
      }
      var limit := if room.Some? && room.value - |entries| < FILE_PAGE then room.value - |entries| else FILE_PAGE;
      ghost var before, sofar := w.log, entries;
      var page := w.List(folder, limit, offset);
      if page.None? { return entries, true, NoCut; }
      entries, seen := TakePage(page.value, limit, entries, seen);
      TookPage(old(w.log), before, folder, room, sofar, Listing(folder, offset, limit, page.value));
      offset := offset + |page.value|;
      if |page.value| < limit { return entries, false, NoCut; }
    }
  }

  lemma ListedKept(v: Picture, folder: Text, entries: seq<Entry>)
    ensures Listed(v, folder, entries).kept == entries
  {}

  lemma PageListed(log: seq<Event>, later: seq<Event>, folder: Text, page: Event, entries: seq<Entry>, more: seq<Entry>)
    requires later == log + [page] && page.Listing? && page.folder == folder && AllListed(log, folder, entries)
    requires more == KeepNew(entries, FirstOf(page.entries, page.limit))
    ensures AllListed(later, folder, more)
  {
    KeepNewOnce(entries, FirstOf(page.entries, page.limit));
    assert later[|log|] == page;
    forall e | e in more ensures InListing(later, folder, e) {
      if e in entries {
        var i :| 0 <= i < |log| && log[i].Listing? && log[i].folder == folder && e in log[i].entries;
        assert later[i] == log[i];
      }
    }
  }

  ghost predicate InListing(log: seq<Event>, folder: Text, entry: Entry) {
    exists i :: 0 <= i < |log| && log[i].Listing? && log[i].folder == folder && entry in log[i].entries
  }

  lemma ListedOld(log: seq<Event>, folder: Text, entry: Entry, now: int)
    requires InListing(log, folder, entry) && entry.id.Some? && IsPastStagingWindow(FileAt(folder, entry), now)
    ensures SeenOld(log, FileAt(folder, entry).path, now)
  {
    var i :| 0 <= i < |log| && log[i].Listing? && log[i].folder == folder && entry in log[i].entries;
    var k :| 0 <= k < |log[i].entries| && log[i].entries[k] == entry;
    assert OldFile(folder, log[i].entries[k], FileAt(folder, entry).path, now);
    assert ShowsOld(log[i], FileAt(folder, entry).path, now);
  }

  // ---------------------------------------------------------------------------------------------
  // The sweep's phases
  // ---------------------------------------------------------------------------------------------

  /** Pages of the top have been listed up to `offset`, and hold these channels. */
  ghost predicate TopTo(log: seq<Event>, channels: seq<Text>, offset: nat) {
    && OnlyReads([], log) && TopsOnly(View(log), channels) && AllFolderNames(channels)
    && if offset == 0 then log == [] else
         log != [] && TopPage(log[|log| - 1]) && offset == log[|log| - 1].offset + |log[|log| - 1].entries|
  }

  lemma NextTop(log: seq<Event>, channels: seq<Text>, offset: nat, page: seq<Entry>)
    requires TopTo(log, channels, offset)
    ensures var next := log + [Listing([], offset, FOLDER_PAGE, page)];
            && OnlyReads([], next) && TopsOnly(View(next), channels + FolderNames(page))
            && AllFolderNames(channels + FolderNames(page))
  {
    TopFound(log, channels, offset);
    assert channels == View(log).tops;
    TopSeen(log, offset, page);
    FolderNamesAre(page);
    FolderNamesMore(channels, page, FolderNames(page));
    hide View, FoldersOn, FolderNames, TopsOnly, AllFolderNames, TopTo;
  }

  lemma PageOfTop(log: seq<Event>, channels: seq<Text>, offset: nat, page: seq<Entry>)
    requires TopTo(log, channels, offset)
    ensures var next := log + [Listing([], offset, FOLDER_PAGE, page)];
            if page == [] then OnlyReads([], next) && TopsOnly(View(next), channels) && TopRead(next)
            else TopTo(next, channels + FolderNames(page), offset + |page|)
  {
    NextTop(log, channels, offset, page);
    assert FolderNames([]) == [];
    AppendNothing(channels);
    hide View, FolderNames, TopsOnly, AllFolderNames, OnlyReads;
    var next := log + [Listing([], offset, FOLDER_PAGE, page)];
    assert next[|next| - 1] == Listing([], offset, FOLDER_PAGE, page);
  }

  lemma {:induction false} FolderNamesAre(page: seq<Entry>)
    ensures FoldersOn(page, FolderNames(page))
  {
    hide IsChatFolderName;
    if page != [] {
      FolderNamesAre(page[..|page| - 1]);
      assert page == page[..|page| - 1] + [page[|page| - 1]];
    }
  }

  lemma TopFound(log: seq<Event>, channels: seq<Text>, offset: nat)
    requires TopTo(log, channels, offset)
    ensures OnlyReads([], log) && TopsOnly(View(log), channels) && AllFolderNames(channels)
    ensures offset >= MAX_CHANNEL_FOLDERS ==> TopRead(log)
  {}

  /** Phase 1: the channel folders at the top of the bucket; None when the very first page can't be read. */
  method ChannelFolders(w: World) returns (r: Option<(seq<Text>, nat, nat)>)
    requires w.log == []
    modifies w
    ensures OnlyReads([], w.log) && w.patience <= old(w.patience) && (old(w.late) ==> w.late)
    ensures TopsOnly(View(w.log), View(w.log).tops) && (r.Some? ==> r.value.0 == Sort(TextLe, View(w.log).tops))
    ensures w.errors == old(w.errors) + if r.Some? then r.value.2 else 1
    ensures r.Some? ==> AllFolderNames(r.value.0)
    ensures r.Some? && w.errors == old(w.errors) && !w.late ==> TopRead(w.log)
  {
    assert TopTo(w.log, [], 0);
    hide View, FolderNames, Sort, AllFolderNames, FoldersOn, TopTo, TopRead, OnlyReads;
    var channels: seq<Text> := [];
    var strays: nat, failures: nat := 0, 0;
    var offset: nat := 0;
    TopFound(w.log, channels, offset);
    while offset < MAX_CHANNEL_FOLDERS
      invariant TopTo(w.log, channels, offset) && w.patience <= old(w.patience) && (old(w.late) ==> w.late)
      invariant w.errors == old(w.errors) && failures == 0
      invariant OnlyReads([], w.log) && TopsOnly(View(w.log), channels) && AllFolderNames(channels)
      invariant offset >= MAX_CHANNEL_FOLDERS ==> TopRead(w.log)
      decreases MAX_CHANNEL_FOLDERS - offset
    {
      if offset > 0 {
        var out := w.OutOfTime();
        if out { break; }
      }
      ghost var before := w.log;
      var page := w.List([], FOLDER_PAGE, offset);
      if page.None? {
        if offset == 0 { return None; }
        failures := failures + 1;
        break;
      }
      PageOfTop(before, channels, offset, page.value);
      if |page.value| == 0 {
        assert OnlyReads([], w.log) && TopsOnly(View(w.log), channels) && TopRead(w.log);
        break;
      }
      var names, others := TopFolders(page.value);
      channels, strays := channels + names, strays + others;
      offset := offset + |page.value|;
      TopFound(w.log, channels, offset);
    }
    assert channels == View(w.log).tops;
    SortedFolders(channels);
    r := Some((Sort(TextLe, channels), strays, failures));
  }

  /** Nothing but the top has been listed. */
  ghost predicate TopsOnly(v: Picture, tops: seq<Text>) {
    v.found == [] && v.uploaders == {} && v.named == {} && v.tops == tops
  }

  /** The names are those of the page's folders. */
  ghost predicate FoldersOn(page: seq<Entry>, names: seq<Text>) {
    forall c :: c in names <==> exists e :: e in page && e.id.None? && e.name == c && IsChatFolderName(c)
  }

  ghost predicate AllFolderNames(names: seq<Text>) { forall c :: c in names ==> IsChatFolderName(c) }

  lemma FolderNamesMore(channels: seq<Text>, page: seq<Entry>, names: seq<Text>)
    requires AllFolderNames(channels) && FoldersOn(page, names)
    ensures AllFolderNames(channels + names)
  {}

  lemma SortedFolders(names: seq<Text>)
    requires AllFolderNames(names)
    ensures AllFolderNames(Sort(TextLe, names))
  {
    SortHolds(names);
  }

  /** The channels' folders on a page of the top. */
  method TopFolders(page: seq<Entry>) returns (names: seq<Text>, strays: nat)
    ensures names == FolderNames(page) && FoldersOn(page, names) && |names| + strays == |page|
  {
    names, strays := [], 0;
    var k := 0;
    hide IsChatFolderName;
    while k < |page|
      invariant 0 <= k <= |page| && names == FolderNames(page[..k]) && |names| + strays == k
    {
      assert page[..k + 1][..k] == page[..k];
      if page[k].id.None? && IsChatFolderName(page[k].name) { names := names + [page[k].name]; }
      else { strays := strays + 1; }
      k := k + 1;
    }
    assert page[..k] == page;
    FolderNamesAre(page);
  }

  ghost predicate TopPage(e: Event) { e.Listing? && e.folder == [] && e.limit == FOLDER_PAGE }

  /** The top was read to its end, or as far as it is ever read. */
  ghost predicate TopRead(log: seq<Event>) {
    && log != []
    && var last := log[|log| - 1];
       TopPage(last) && (|last.entries| == 0 || last.offset + |last.entries| >= MAX_CHANNEL_FOLDERS)
  }

  lemma TopSeen(log: seq<Event>, offset: nat, page: seq<Entry>)
    requires TopsOnly(View(log), View(log).tops)
    ensures var u := View(log + [Listing([], offset, FOLDER_PAGE, page)]);
            TopsOnly(u, View(log).tops + FolderNames(page))
  {
    ViewMore(log, Listing([], offset, FOLDER_PAGE, page));
    hide View, KeepNew, FolderNames;
  }

  datatype Triage = Triage(candidates: seq<StoredFile>, young: int, foreign: int, undated: int)

  predicate Candidate(now: int, file: StoredFile) { IsChatUploadPath(file.path) && IsPastStagingWindow(file, now) }

  /** Of these, in their order, the uploads past the window. */
  function Candidates(files: seq<StoredFile>, now: int): seq<StoredFile> {
    if files == [] then [] else
      Candidates(files[..|files| - 1], now) + (if Candidate(now, files[|files| - 1]) then [files[|files| - 1]] else [])
  }

  lemma {:induction false} CandidatesMore(a: seq<StoredFile>, b: seq<StoredFile>, now: int)
    ensures Candidates(a + b, now) == Candidates(a, now) + Candidates(b, now)
  {
    if b == [] {
      assert a + b == a;
    } else {
      assert (a + b)[..|a + b| - 1] == a + b[..|b| - 1];
      CandidatesMore(a, b[..|b| - 1], now);
    }
  }

  lemma {:induction false} CandidatesMean(files: seq<StoredFile>, now: int)
    ensures forall f :: f in Candidates(files, now) <==> f in files && Candidate(now, f)
  {
    hide IsChatUploadPath;
    if files != [] {
      CandidatesMean(files[..|files| - 1], now);
      assert files == files[..|files| - 1] + [files[|files| - 1]];
    }
  }

  /** How many are no uploads. */
  function Foreign(files: seq<StoredFile>): nat {
    if files == [] then 0 else
      Foreign(files[..|files| - 1]) + if IsChatUploadPath(files[|files| - 1].path) then 0 else 1
  }

  /** How many uploads have no date that can be read. */
  function Undated(files: seq<StoredFile>): nat {
    if files == [] then 0 else
      var last := files[|files| - 1];
      Undated(files[..|files| - 1])
      + if IsChatUploadPath(last.path) && last.createdAt.None? && last.updatedAt.None? then 1 else 0
  }

  lemma NothingTriaged(now: int)
    ensures Candidates([], now) == [] && Foreign([]) == 0 && Undated([]) == 0
  {}

  lemma NextTriaged(files: seq<StoredFile>, i: nat, now: int)
    requires i < |files|
    ensures var f, sofar, next := files[i], files[..i], files[..i + 1];
            && Candidates(next, now) == Candidates(sofar, now) + (if Candidate(now, f) then [f] else [])
            && Foreign(next) == Foreign(sofar) + (if IsChatUploadPath(f.path) then 0 else 1)
            && Undated(next) == Undated(sofar) + (if IsChatUploadPath(f.path) && LastWrittenAt(f).None? then 1 else 0)
  {
    assert files[..i + 1][..i] == files[..i];
    hide IsChatUploadPath;
  }

  /** Rules 1 and 2: the candidates are exactly the uploads past the window, and every file is counted once. */
  method TriageChatFiles(files: seq<StoredFile>, now: int) returns (t: Triage)
    ensures t.candidates == Candidates(files, now)
    ensures forall f :: f in t.candidates <==> f in files && Candidate(now, f)
    ensures |t.candidates| + t.young + t.foreign + t.undated == |files|
    ensures t.foreign == Foreign(files) && t.undated == Undated(files)
  {
    CandidatesMean(files, now);
    NothingTriaged(now);
    hide IsChatUploadPath, Candidates, Foreign, Undated;
    t := Triage([], 0, 0, 0);
    var i := 0;
    while i < |files|
      invariant 0 <= i <= |files| && |t.candidates| + t.young + t.foreign + t.undated == i
      invariant t.candidates == Candidates(files[..i], now)
      invariant t.foreign == Foreign(files[..i]) && t.undated == Undated(files[..i])
    {
      var file := files[i];
      NextTriaged(files, i, now);
      if !IsChatUploadPath(file.path) { t := t.(foreign := t.foreign + 1); }
      else if LastWrittenAt(file).None? { t := t.(undated := t.undated + 1); }
      else if !IsPastStagingWindow(file, now) { t := t.(young := t.young + 1); }
      else { t := t.(candidates := t.candidates + [file]); }
      i := i + 1;
    }
    assert files[..i] == files;
  }

  /** filesInListing: the files of a folder's listing. */
  method FilesInListing(folder: Text, entries: seq<Entry>) returns (files: seq<StoredFile>, nested: int)
    ensures files == FilesOf(folder, entries) && |files| + nested == |entries|
    ensures forall f :: f in files ==> exists e :: e in entries && e.id.Some? && f == FileAt(folder, e)
  {
    files, nested := [], 0;
    var i := 0;
    while i < |entries|
      invariant 0 <= i <= |entries| && files == FilesOf(folder, entries[..i]) && |files| + nested == i
      invariant forall f :: f in files ==> exists e :: e in entries && e.id.Some? && f == FileAt(folder, e)
    {
      assert entries[..i + 1][..i] == entries[..i];
      if entries[i].id.None? { nested := nested + 1; } else { files := files + [FileAt(folder, entries[i])]; }
      i := i + 1;
    }
    assert entries[..i] == entries;
  }

  /** Every one is an upload, past the window, as the bucket listed it. */
  ghost predicate AllCandidates(now: int, log: seq<Event>, files: seq<StoredFile>) {
    forall f :: f in files ==> Candidate(now, f) && SeenOld(log, f.path, now)
  }

  lemma CandidatesLater(now: int, log: seq<Event>, later: seq<Event>, files: seq<StoredFile>)
    requires log <= later && AllCandidates(now, log, files)
    ensures AllCandidates(now, later, files)
  {
    forall f | f in files ensures SeenOld(later, f.path, now) { SeenOldLater(log, later, f.path, now); }
  }

  lemma ListedCandidates(now: int, log: seq<Event>, folder: Text, entries: seq<Entry>, files: seq<StoredFile>,
                         candidates: seq<StoredFile>)
    requires AllListed(log, folder, entries)
    requires forall f :: f in files ==> exists e :: e in entries && e.id.Some? && f == FileAt(folder, e)
    requires forall f :: f in candidates <==> f in files && Candidate(now, f)
    ensures AllCandidates(now, log, candidates)
  {
    forall f | f in candidates ensures SeenOld(log, f.path, now) {
      var e :| e in entries && e.id.Some? && f == FileAt(folder, e);
      ListedOld(log, folder, e, now);
    }
  }

  /** Everything the listings so far made a candidate. */
  ghost predicate AllFound(now: int, log: seq<Event>, candidates: seq<StoredFile>) {
    candidates == Candidates(View(log).found, now)
  }

  /** Every uploader's folder seen in a channel's listing was itself listed. */
  ghost predicate AllVisited(log: seq<Event>) { View(log).uploaders <= View(log).visited }

  /** Listings only add to what was seen of the folders inside, and leave the top and the database alone. */
  ghost predicate WalksOn(log: seq<Event>, later: seq<Event>) {
    && View(later).tops == View(log).tops && View(later).named == View(log).named
    && View(log).visited <= View(later).visited && View(log).uploaders <= View(later).uploaders
  }

  /** One uploader's folder. */
  method WalkFolder(w: World, now: int, folder: Text, room: nat)
      returns (t: Triage, examined: nat, strays: int, failed: bool, cut: Cut)
    requires SLASH in folder && room > 0
    modifies w
    ensures OnlyReads(old(w.log), w.log) && w.patience <= old(w.patience) && (old(w.late) ==> w.late)
    ensures w.errors == old(w.errors) + (if failed then 1 else 0)
    ensures AllCandidates(now, w.log, t.candidates) && examined <= room
    ensures Candidates(View(w.log).found, now) == Candidates(View(old(w.log)).found, now) + t.candidates
    ensures WalksOn(old(w.log), w.log) && View(w.log).uploaders == View(old(w.log)).uploaders
    ensures !failed ==> folder in View(w.log).visited
    ensures !cut.NoCut? ==> w.late || examined == room
  {
    var entries;
    entries, failed, cut := ListAll(w, folder, Some(room));
    examined := |entries|;
    var files, nested := FilesInListing(folder, entries);
    t := TriageChatFiles(files, now);
    ListedCandidates(now, w.log, folder, entries, files, t.candidates);
    CandidatesMore(View(old(w.log)).found, files, now);
    strays := nested + t.foreign;
    hide View, FilesOf, Candidates;
    if |w.log| == |old(w.log)| { assert w.log == old(w.log); NoFiles(folder, now); }
  }

  lemma NoFiles(folder: Text, now: int)
    ensures Candidates(FilesOf(folder, []), now) == []
  {}

  datatype Walk = Walk(candidates: seq<StoredFile>, examined: int, inFolders: int, strays: int, undated: int, failures: int,
                       stopped: bool)

  /** A channel's name is one folder deep; the folders inside it are two. */
  lemma FolderDepth(channel: Text, name: Text)
    requires IsChatFolderName(channel)
    ensures channel != [] && SLASH !in channel && SLASH in channel + [SLASH] + name
  {
    assert (channel + [SLASH] + name)[|channel|] == SLASH;
    forall k | 0 <= k < |channel| ensures channel[k] != SLASH {}
  }

  /** The folders inside a channel's listing. */
  method UploaderFolders(channel: Text, top: seq<Entry>) returns (uploaders: seq<Text>, strays: nat)
    requires IsChatFolderName(channel)
    ensures forall u :: u in UploadersIn(channel, top) <==> u in uploaders
    ensures forall u :: u in uploaders ==> SLASH in u
    ensures |uploaders| + strays == |top|
  {
    uploaders, strays := [], 0;
    var i := 0;
    while i < |top|
      invariant 0 <= i <= |top| && |uploaders| + strays == i
      invariant forall u :: u in UploadersIn(channel, top[..i]) <==> u in uploaders
      invariant forall u :: u in uploaders ==> SLASH in u
    {
      assert top[..i + 1] == top[..i] + [top[i]];
      if top[i].id.None? && IsChatFolderName(top[i].name) {
        FolderDepth(channel, top[i].name);
        uploaders := uploaders + [channel + [SLASH] + top[i].name];
      } else { strays := strays + 1; }
      i := i + 1;
    }
    assert top[..i] == top;
  }

  /** One channel's folder: its uploaders' folders, while there is room for more objects and time left. */
  method WalkChannel(w: World, now: int, channel: Text, limits: Limits, before: Walk) returns (r: Walk)
    requires IsChatFolderName(channel)
    requires AllCandidates(now, w.log, before.candidates) && before.inFolders <= before.examined && !before.stopped
    requires before.inFolders <= limits.objects || before.inFolders == 0
    requires AllFound(now, w.log, before.candidates)
    modifies w
    ensures OnlyReads(old(w.log), w.log) && w.patience <= old(w.patience) && (old(w.late) ==> w.late)
    ensures w.errors == old(w.errors) + r.failures - before.failures && r.failures >= before.failures
    ensures AllCandidates(now, w.log, r.candidates) && r.inFolders <= r.examined
    ensures r.inFolders <= limits.objects || r.inFolders == 0
    ensures AllFound(now, w.log, r.candidates) && WalksOn(old(w.log), w.log)
    ensures r.stopped ==> w.late || r.examined >= limits.objects
    ensures w.errors == old(w.errors) ==> channel in View(w.log).visited
    ensures w.errors == old(w.errors) && !r.stopped && AllVisited(old(w.log)) ==> AllVisited(w.log)
  {
    hide View, IsChatFolderName, Candidates, UploadersIn;
    FolderDepth(channel, []);
    r := before;
    var top, failed, _ := ListAll(w, channel, None);
    CandidatesLater(now, old(w.log), w.log, r.candidates);
    ghost var seen := if |w.log| == |old(w.log)| then {} else UploadersIn(channel, top);
    assert |w.log| == |old(w.log)| ==> w.log == old(w.log);
    AppendNothing(View(old(w.log)).found);
    ListedInChannel(View(old(w.log)), channel, top);
    if failed { r := r.(failures := r.failures + 1); }
    var uploaders, strays := UploaderFolders(channel, top);
    r := r.(strays := r.strays + strays, examined := r.examined + strays);
    ghost var listed := w.log;
    var i := 0;
    while i < |uploaders|
      invariant 0 <= i <= |uploaders|
      invariant OnlyReads(old(w.log), w.log) && w.patience <= old(w.patience) && (old(w.late) ==> w.late)
      invariant w.errors == old(w.errors) + r.failures - before.failures && r.failures >= before.failures
      invariant AllCandidates(now, w.log, r.candidates) && r.inFolders <= r.examined
      invariant r.inFolders <= limits.objects || r.inFolders == 0
      invariant AllFound(now, w.log, r.candidates) && WalksOn(listed, w.log) && !r.stopped
      invariant View(w.log).uploaders == View(listed).uploaders
      invariant w.errors == old(w.errors) ==> !failed && forall k :: 0 <= k < i ==> uploaders[k] in View(w.log).visited
    {
      var room := limits.objects - r.examined;
      if room <= 0 { return r.(stopped := true); }
      var late := w.OutOfTime();
      if late { return r.(stopped := true); }
      ghost var log := w.log;
      var t, seen, strays, bad, cut := WalkFolder(w, now, uploaders[i], room);
      CandidatesLater(now, log, w.log, r.candidates);
      r := r.(candidates := r.candidates + t.candidates, examined := r.examined + seen, inFolders := r.inFolders + seen,
              strays := r.strays + strays, undated := r.undated + t.undated, failures := r.failures + if bad then 1 else 0);
      if !cut.NoCut? { return r.(stopped := true); }
      i := i + 1;
    }
  }

  lemma ListedInChannel(v: Picture, channel: Text, top: seq<Entry>)
    requires channel != [] && SLASH !in channel
    ensures var u := Listed(v, channel, top);
            && u.found == v.found && u.tops == v.tops && u.named == v.named && u.visited == v.visited + {channel}
            && u.uploaders == v.uploaders + UploadersIn(channel, top)
  {}

  /** Phase 2: the channels in today's window. */
  method WalkAll(w: World, now: int, window: seq<Text>, limits: Limits, start: Walk)
      returns (r: Walk, folders: int)
    requires start.candidates == [] && start.inFolders == 0 && start.examined >= 0 && !start.stopped
    requires TopsOnly(View(w.log), View(w.log).tops) && AllFolderNames(window)
    modifies w
    ensures OnlyReads(old(w.log), w.log) && w.patience <= old(w.patience) && (old(w.late) ==> w.late)
    ensures w.errors == old(w.errors) + r.failures - start.failures && r.failures >= start.failures
    ensures AllCandidates(now, w.log, r.candidates) && (r.inFolders <= limits.objects || r.inFolders == 0)
    ensures folders <= |window|
    ensures AllFound(now, w.log, r.candidates) && WalksOn(old(w.log), w.log)
    ensures w.errors == old(w.errors) && !w.late && r.examined < limits.objects ==>
              folders == |window| && AllVisited(w.log) && forall c :: c in window ==> c in View(w.log).visited
  {
    r, folders := start, 0;
    var i := 0;
    hide View, IsChatFolderName;
    while i < |window| && !r.stopped
      invariant 0 <= i <= |window| && folders == i && r.inFolders <= r.examined
      invariant OnlyReads(old(w.log), w.log) && w.patience <= old(w.patience) && (old(w.late) ==> w.late)
      invariant w.errors == old(w.errors) + r.failures - start.failures && r.failures >= start.failures
      invariant AllCandidates(now, w.log, r.candidates) && (r.inFolders <= limits.objects || r.inFolders == 0)
      invariant AllFound(now, w.log, r.candidates) && WalksOn(old(w.log), w.log)
      invariant r.stopped ==> w.late || r.examined >= limits.objects
      invariant w.errors == old(w.errors) ==> forall k :: 0 <= k < i ==> window[k] in View(w.log).visited
      invariant w.errors == old(w.errors) && !r.stopped ==> AllVisited(w.log)
    {
      ghost var log := w.log;
      var late := w.OutOfTime();
      if late { return r.(stopped := true), folders; }
      folders := folders + 1;
      r := WalkChannel(w, now, window[i], limits, r);
      i := i + 1;
    }
  }

  /** The database answered about each of these, and what it named is in `inUse`. */
  ghost predicate AllAnswered(log: seq<Event>, files: seq<StoredFile>, inUse: set<Path>) {
    forall f :: f in files ==> f.path in inUse || AbsentBefore(log, f.path)
  }

  lemma AnsweredLater(log: seq<Event>, paths: seq<Path>, answer: seq<Path>, files: seq<StoredFile>, group: seq<StoredFile>,
                      inUse: set<Path>)
    requires AllAnswered(log, files, inUse) && paths == Paths(group)
    ensures AllAnswered(log + [Asked(paths, Some(answer))], files + group, inUse + PathSet(answer))
  {
    var later := log + [Asked(paths, Some(answer))];
    forall f | f in files + group && f.path !in inUse + PathSet(answer) ensures AbsentBefore(later, f.path) {
      if f in files { AbsentLater(log, later, f.path); }
      else {
        var i :| 0 <= i < |group| && group[i] == f;
        assert paths[i] == f.path;
        assert Absent(later[|log|], f.path);
      }
    }
  }

  lemma StillAnswered(log: seq<Event>, later: seq<Event>, files: seq<StoredFile>, inUse: set<Path>)
    requires log <= later && AllAnswered(log, files, inUse)
    ensures AllAnswered(later, files, inUse)
  {
    forall f | f in files && f.path !in inUse ensures AbsentBefore(later, f.path) { AbsentLater(log, later, f.path); }
  }

  lemma {:induction false} InFlat(groups: seq<seq<StoredFile>>, i: nat)
    requires i < |groups|
    ensures forall f :: f in groups[i] ==> f in Flat(groups)
  {
    var front := groups[..|groups| - 1];
    if i < |front| { assert front[i] == groups[i]; InFlat(front, i); }
  }

  /** Since `start`, the first i groups have been asked about, and these files answered about. */
  ghost predicate AskedTo(start: seq<Event>, log: seq<Event>, groups: seq<seq<StoredFile>>, i: nat, checked: seq<StoredFile>,
                          inUse: set<Path>)
    requires i <= |groups|
  {
    && OnlyReads(start, log) && AllAnswered(log, checked, inUse)
    && (forall f :: f in checked ==> f in Flat(groups)) && |checked| <= |Flat(groups[..i])|
    && View(log) == View(start).(named := View(start).named + inUse)
  }

  lemma AskedNext(start: seq<Event>, log: seq<Event>, groups: seq<seq<StoredFile>>, i: nat, checked: seq<StoredFile>,
                  inUse: set<Path>, answer: Option<seq<Path>>)
    requires i < |groups| && AskedTo(start, log, groups, i, checked, inUse)
    ensures Flat(groups[..i + 1]) == Flat(groups[..i]) + groups[i]
    ensures var next := log + [Asked(Paths(groups[i]), answer)];
            if answer.None? then AskedTo(start, next, groups, i + 1, checked, inUse)
            else AskedTo(start, next, groups, i + 1, checked + groups[i], inUse + PathSet(answer.value))
  {
    var paths := Paths(groups[i]);
    assert groups[..i + 1][..i] == groups[..i];
    InFlat(groups, i);
    ViewMore(log, Asked(paths, answer));
    hide View, Flat, AllAnswered;
    if answer.None? {
      StillAnswered(log, log + [Asked(paths, answer)], checked, inUse);
    } else {
      AnsweredLater(log, paths, answer.value, checked, groups[i], inUse);
      SetAssoc(View(start).named, inUse, PathSet(answer.value));
    }
  }

  lemma AskedAll(start: seq<Event>, log: seq<Event>, groups: seq<seq<StoredFile>>, i: nat, checked: seq<StoredFile>,
                 inUse: set<Path>)
    requires i <= |groups| && AskedTo(start, log, groups, i, checked, inUse)
    ensures OnlyReads(start, log) && AllAnswered(log, checked, inUse)
    ensures (forall f :: f in checked ==> f in Flat(groups)) && |checked| <= |Flat(groups)|
    ensures View(log) == View(start).(named := View(start).named + inUse)
  {
    FlatShorter(groups, i);
  }

  /** Phase 3: ask about every candidate; a group whose read fails is left out. */
  method AskAll(w: World, candidates: seq<StoredFile>) returns (checked: seq<StoredFile>, inUse: set<Path>, failures: int)
    modifies w
    ensures OnlyReads(old(w.log), w.log) && w.patience <= old(w.patience) && (old(w.late) ==> w.late)
    ensures (forall f :: f in checked ==> f in candidates) && |checked| <= |candidates|
    ensures AllAnswered(w.log, checked, inUse)
    ensures w.errors == old(w.errors) + failures && failures >= 0
    ensures View(w.log) == View(old(w.log)).(named := View(old(w.log)).named + inUse)
    ensures w.errors == old(w.errors) && !w.late ==> checked == candidates
  {
    checked, inUse, failures := [], {}, 0;
    var groups := ChunkByPathLength(candidates);
    var i := 0;
    assert AskedTo(w.log, w.log, groups, 0, [], {}) && Flat(groups[..0]) == [];
    hide View, AskedTo, Flat, AllAnswered, OnlyReads;
    while i < |groups|
      invariant 0 <= i <= |groups| && AskedTo(old(w.log), w.log, groups, i, checked, inUse)
      invariant w.patience <= old(w.patience) && (old(w.late) ==> w.late)
      invariant w.errors == old(w.errors) + failures && failures >= 0
      invariant failures == 0 ==> checked == Flat(groups[..i])
    {
      AskedAll(old(w.log), w.log, groups, i, checked, inUse);
      var late := w.OutOfTime();
      if late { return; }
      ghost var log := w.log;
      var answer := w.FindInUse(Paths(groups[i]));
      AskedNext(old(w.log), log, groups, i, checked, inUse, answer);
      if answer.None? {
        failures := failures + 1;
      } else {
        inUse := inUse + PathSet(answer.value);
        checked := checked + groups[i];
      }
      i := i + 1;
    }
    assert groups[..i] == groups;
    AskedAll(old(w.log), w.log, groups, i, checked, inUse);
  }

  lemma SetAssoc<T>(a: set<T>, b: set<T>, c: set<T>)
    ensures a + b + c == a + (b + c)
  {}

  lemma {:induction false} FlatShorter(groups: seq<seq<StoredFile>>, i: nat)
    requires i <= |groups|
    ensures |Flat(groups[..i])| <= |Flat(groups)|
    decreases |groups|
  {
    if i < |groups| {
      FlatShorter(groups[..|groups| - 1], i);
      assert groups[..|groups| - 1][..i] == groups[..i];
    } else {
      assert groups[..i] == groups;
    }
  }

  /** What deletion may touch: uploads seen old that a successful read did not name, all of them allowed. */
  ghost predicate Doomable(now: int, log: seq<Event>, allowed: set<Path>, files: seq<StoredFile>) {
    forall f :: f in files ==>
      f.path in allowed && Candidate(now, f) && SeenOld(log, f.path, now) && AbsentBefore(log, f.path)
  }

  lemma StillDoomable(now: int, log: seq<Event>, later: seq<Event>, allowed: set<Path>, files: seq<StoredFile>)
    requires log <= later && Doomable(now, log, allowed, files)
    ensures Doomable(now, later, allowed, files)
  {
    forall f | f in files ensures SeenOld(later, f.path, now) && AbsentBefore(later, f.path) {
      SeenOldLater(log, later, f.path, now);
      AbsentLater(log, later, f.path);
    }
  }

  /** The batch the second read did not name is fit to remove. */
  lemma BatchFits(now: int, log: seq<Event>, allowed: set<Path>, group: seq<StoredFile>, answer: seq<Path>,
                  doomed: seq<Path>)
    requires Doomable(now, log, allowed, group)
    requires forall p :: p in doomed ==> p !in PathSet(answer) && FirstIsOld(group, p, now)
    ensures RemovalFits(now, log + [Asked(Paths(group), Some(answer))], doomed)
    ensures PathSet(doomed) <= allowed
  {
    var asked := log + [Asked(Paths(group), Some(answer))];
    assert asked[..|asked| - 1] == log;
    forall p | p in doomed
      ensures p in allowed && IsChatUploadPath(p) && SeenOld(asked, p, now) && Absent(asked[|log|], p) && AbsentBefore(log, p)
    {
      FirstIsAFile(group, p, now);
      var i :| 0 <= i < |group| && group[i].path == p && IsPastStagingWindow(group[i], now);
      assert group[i] in group && Paths(group)[i] == p;
      SeenOldLater(log, asked, p, now);
    }
  }

  /** The files at this path, an upload, were first listed as old, and the second read does not name it. */
  ghost predicate Doomed(group: seq<StoredFile>, named: seq<Path>, p: Path, now: int) {
    IsChatUploadPath(p) && FirstIsOld(group, p, now) && p !in named
  }

  /** The removal asked for: of exactly the doomed paths, each once. */
  ghost predicate RemovesDoomed(e: Event, group: seq<StoredFile>, named: seq<Path>, now: int) {
    && e.Removed? && e.paths != []
    && (forall p :: p in e.paths <==> Doomed(group, named, p, now))
    && forall i, j :: 0 <= i < j < |e.paths| ==> e.paths[i] != e.paths[j]
  }

  /**
   * Phase 4: one batch, re-asked and removed. It is asked about whole; what the answer does not name goes in one removal,
   * and counts as storage says. Only a failed read or a failed removal leaves anything for the next run.
   */
  method RemoveBatch(w: World, now: int, ghost allowed: set<Path>, group: seq<StoredFile>)
    returns (removed: nat, skipped: nat, failures: nat)
    requires LogFits(now, w.log) && Doomable(now, w.log, allowed, group) && RemovedPaths(w.log) <= allowed
    modifies w
    ensures old(w.log) <= w.log && LogFits(now, w.log) && RemovedPaths(w.log) <= allowed && w.patience == old(w.patience)
    ensures w.late == old(w.late) && w.errors == old(w.errors) + failures && Told(w.log) == old(Told(w.log)) + removed
    ensures var n := |old(w.log)|;
            && n < |w.log| <= n + 2 && w.log[n].Asked? && w.log[n].about == Paths(group)
            && match w.log[n].answer
               case None => |w.log| == n + 1 && removed == 0 && skipped == |group| && failures == 1
               case Some(named) =>
                 if |w.log| == n + 1 then (forall p :: !Doomed(group, named, p, now)) && removed == skipped == failures == 0
                 else
                   && RemovesDoomed(w.log[n + 1], group, named, now)
                   && removed == ToldOf(w.log[n + 1].paths, w.log[n + 1].said)
                   && skipped == (if w.log[n + 1].said.None? then |w.log[n + 1].paths| else 0)
                   && failures == (if w.log[n + 1].said.None? then 1 else 0)
  {
    hide IsChatUploadPath, FirstIsOld, LogFits, RemovedPaths, RemovedCount, Told, Doomable, RemovalFits, InOrder, Orphans, Paths;
    removed, skipped, failures := 0, 0, 0;
    ghost var log := w.log;
    var again := w.FindInUse(Paths(group));
    ReadsKeep(now, log, w.log);
    if again.None? { return 0, |group|, 1; }
    ghost var asked := w.log;
    var doomed := SelectChatOrphans(group, PathSet(again.value), now);
    if |doomed| == 0 {
      forall p ensures !Doomed(group, again.value, p, now) { assert p !in doomed; }
      return;
    }
    BatchFits(now, log, allowed, group, again.value, doomed);
    var gone := w.Remove(doomed);
    RemovalLogged(now, asked, doomed, gone);
    assert RemovesDoomed(w.log[|log| + 1], group, again.value, now);
    if gone.None? { return 0, |doomed|, 1; }
    removed := if gone.value < |doomed| then gone.value else |doomed|;
  }

  /** A lookup since then answered about this path without naming it. */
  ghost predicate DroppedSince(log: seq<Event>, since: nat, p: Path) { exists i :: since <= i < |log| && Absent(log[i], p) }

  ghost predicate AskedSince(log: seq<Event>, since: nat, p: Path) {
    exists i :: since <= i < |log| && log[i].Asked? && p in log[i].about
  }

  /** Of files that are all old uploads, a path is judged old exactly when it is one of theirs. */
  lemma {:induction false} AllOld(group: seq<StoredFile>, p: Path, now: int)
    requires forall f :: f in group ==> Candidate(now, f)
    ensures FirstIsOld(group, p, now) <==> p in Paths(group)
    ensures p in Paths(group) ==> IsChatUploadPath(p)
  {
    hide IsChatUploadPath;
    if group != [] {
      var front, last := group[..|group| - 1], group[|group| - 1];
      AllOld(front, p, now);
      assert Paths(group) == Paths(front) + [last.path];
      assert last in group;
      if p !in Paths(front) {
        forall j | 0 <= j < |group| - 1 ensures group[j].path != p { assert Paths(front)[j] == group[j].path; }
      }
    }
  }

  /** What a batch takes is what the lookup just before it did not name. */
  lemma BatchTakes(now: int, group: seq<StoredFile>, log: seq<Event>, later: seq<Event>, since: nat)
    requires (forall f :: f in group ==> Candidate(now, f)) && since <= |log| <= |later| && later[..|log|] == log
    requires |log| < |later| <= |log| + 2 && later[|log|].Asked? && later[|log|].about == Paths(group)
    requires match later[|log|].answer
             case None => |later| == |log| + 1
             case Some(named) =>
               if |later| == |log| + 1 then forall p :: !Doomed(group, named, p, now)
               else RemovesDoomed(later[|log| + 1], group, named, now)
    requires forall p :: p in RemovedPaths(log) <==> DroppedSince(log, since, p)
    ensures forall p :: p in RemovedPaths(later) <==> DroppedSince(later, since, p)
    ensures forall p :: AskedSince(log, since, p) || p in Paths(group) ==> AskedSince(later, since, p)
  {
    var n := |log|;
    assert later[..n + 1][..n] == log && RemovedPaths(later[..n + 1]) == RemovedPaths(log);
    assert |later| == n + 1 ==> later == later[..n + 1];
    var taken := if |later| == n + 2 then PathSet(later[n + 1].paths) else {};
    assert RemovedPaths(later) == RemovedPaths(log) + taken;
    forall p ensures p in RemovedPaths(later) <==> DroppedSince(later, since, p) {
      AllOld(group, p, now);
      hide RemovedPaths, FirstIsOld, IsChatUploadPath, Paths;
      if later[n].answer.Some? {
        assert Doomed(group, later[n].answer.value, p, now) <==> p in Paths(group) && p !in later[n].answer.value;
      }
      assert p in taken <==> Absent(later[n], p);
      DroppedNow(log, later, since, p);
    }
    forall p | AskedSince(log, since, p) || p in Paths(group) ensures AskedSince(later, since, p) {
      if AskedSince(log, since, p) {
        var i :| since <= i < |log| && log[i].Asked? && p in log[i].about;
        assert later[i] == log[i];
      } else {
        assert later[n].Asked? && p in later[n].about;
      }
    }
  }

  lemma DroppedNow(log: seq<Event>, later: seq<Event>, since: nat, p: Path)
    requires since <= |log| < |later| <= |log| + 2 && later[..|log|] == log
    requires |later| == |log| + 2 ==> later[|log| + 1].Removed?
    ensures DroppedSince(later, since, p) <==> DroppedSince(log, since, p) || Absent(later[|log|], p)
  {
    if DroppedSince(log, since, p) {
      var i :| since <= i < |log| && Absent(log[i], p);
      assert later[i] == log[i];
    }
    if DroppedSince(later, since, p) {
      var i :| since <= i < |later| && Absent(later[i], p);
      assert i < |log| ==> log[i] == later[i];
    }
  }

  method RemoveAll(w: World, now: int, ghost allowed: set<Path>, files: seq<StoredFile>)
    returns (removed: nat, skipped: nat, failures: nat)
    requires LogFits(now, w.log) && Doomable(now, w.log, allowed, files) && RemovedPaths(w.log) == {}
    modifies w
    ensures old(w.log) <= w.log && LogFits(now, w.log) && RemovedPaths(w.log) <= allowed
    ensures Told(w.log) == old(Told(w.log)) + removed && w.errors == old(w.errors) + failures
    ensures forall p :: p in RemovedPaths(w.log) <==> DroppedSince(w.log, |old(w.log)|, p)
    ensures !w.late ==> forall f :: f in files ==> AskedSince(w.log, |old(w.log)|, f.path)
    ensures !w.late && failures == 0 ==> skipped == 0
    ensures old(w.late) ==> w.late
  {
    hide EachFilled, FitsLookup;
    removed, skipped, failures := 0, 0, 0;
    var groups := ChunkByPathLength(files);
    var i := 0;
    while i < |groups|
      invariant 0 <= i <= |groups| && old(w.log) <= w.log && LogFits(now, w.log) && RemovedPaths(w.log) <= allowed
      invariant Doomable(now, w.log, allowed, files) && (old(w.late) ==> w.late)
      invariant Told(w.log) == old(Told(w.log)) + removed && w.errors == old(w.errors) + failures
      invariant forall p :: p in RemovedPaths(w.log) <==> DroppedSince(w.log, |old(w.log)|, p)
      invariant forall f :: f in Flat(groups[..i]) ==> AskedSince(w.log, |old(w.log)|, f.path)
      invariant failures == 0 ==> skipped == 0
    {
      var late := w.OutOfTime();
      if late {
        skipped := skipped + |Flat(groups[i..])|;
        return;
      }
      InFlat(groups, i);
      ghost var log := w.log;
      var gone, left, bad := RemoveBatch(w, now, allowed, groups[i]);
      StillDoomable(now, log, w.log, allowed, files);
      BatchTakes(now, groups[i], log, w.log, |old(w.log)|);
      AllAsked(groups, i, w.log, |old(w.log)|);
      removed, skipped, failures := removed + gone, skipped + left, failures + bad;
      i := i + 1;
    }
    assert groups[..i] == groups;
  }

  lemma AllAsked(groups: seq<seq<StoredFile>>, i: nat, log: seq<Event>, since: nat)
    requires i < |groups| && forall f :: f in Flat(groups[..i]) ==> AskedSince(log, since, f.path)
    requires forall p :: p in Paths(groups[i]) ==> AskedSince(log, since, p)
    ensures forall f :: f in Flat(groups[..i + 1]) ==> AskedSince(log, since, f.path)
  {
    assert groups[..i + 1][..i] == groups[..i];
    hide AskedSince;
    forall f | f in groups[i] ensures f.path in Paths(groups[i]) {
      var k :| 0 <= k < |groups[i]| && groups[i][k] == f;
      assert Paths(groups[i])[k] == f.path;
    }
  }

  function Filter(files: seq<StoredFile>, allowed: set<Path>): (r: seq<StoredFile>)
    ensures forall f :: f in r <==> f in files && f.path in allowed
  {
    if files == [] then [] else
      Filter(files[..|files| - 1], allowed) + (if files[|files| - 1].path in allowed then [files[|files| - 1]] else [])
  }

  lemma {:induction false} PrefixSet(paths: seq<Path>, n: nat)
    requires n <= |paths|
    ensures |PathSet(paths[..n])| <= n
  {
    if n > 0 {
      PrefixSet(paths, n - 1);
      assert paths[..n] == paths[..n - 1] + [paths[n - 1]];
      assert PathSet(paths[..n]) == PathSet(paths[..n - 1]) + {paths[n - 1]};
    }
  }

  /** The first orphans of the checked files may be removed, and are no more than that many. */
  lemma OrphansDoomable(now: int, log: seq<Event>, checked: seq<StoredFile>, inUse: set<Path>, n: nat)
    requires AllCandidates(now, log, checked) && AllAnswered(log, checked, inUse) && n <= |Orphans(checked, inUse, now)|
    ensures var allowed := PathSet(Orphans(checked, inUse, now)[..n]);
            Doomable(now, log, allowed, Filter(checked, allowed)) && |allowed| <= n
  {
    PrefixSet(Orphans(checked, inUse, now), n);
    OrphansMean(checked, inUse, now);
  }

  function Budget(limits: Limits, orphans: nat): nat {
    if limits.removals < 0 then 0 else if limits.removals < orphans then limits.removals else orphans
  }

  /**
   * What a run does when every call answers and time does not run out: it judges every file it listed, and takes the
   * first orphans, up to the limit, less those a second lookup names; unless it looked at as many objects as it may, it
   * listed every channel of the day's window and every uploader's folder in one.
   */
  ghost predicate SweptWhole(now: int, limits: Limits, search: seq<Event>, log: seq<Event>, report: Report) {
    var v := View(search);
    var candidates := Candidates(v.found, now);
    var orphans := Orphans(candidates, v.named, now);
    && search <= log && OnlyReads([], search)
    && report.found == |orphans| && report.judged == |candidates| && report.total == |v.tops|
    && (report.examined < limits.objects ==>
          && v.uploaders <= v.visited
          && forall c :: c in RotatingWindow(Sort(TextLe, v.tops), limits.channels, now) ==> c in v.visited)
    && (!report.halted ==> TakesExactlyUnnamed(search, log, orphans[..Budget(limits, |orphans|)]))
  }

  /** What the search leads to, when every call of it answers in time. */
  ghost predicate SearchedWhole(now: int, limits: Limits, search: seq<Event>, found: Search) {
    var v := View(search);
    && OnlyReads([], search)
    && found.checked == Candidates(v.found, now) && found.inUse == v.named && found.total == |v.tops|
    && (found.walk.examined < limits.objects ==>
          && v.uploaders <= v.visited
          && forall c :: c in RotatingWindow(Sort(TextLe, v.tops), limits.channels, now) ==> c in v.visited)
  }

  ghost predicate Reports(report: Report, found: Search, orphans: nat) {
    && report.examined == found.walk.examined && report.found == orphans && report.judged == |found.checked|
    && report.total == found.total
  }

  lemma Halts(now: int, limits: Limits, search: seq<Event>, found: Search, halted: Report)
    requires SearchedWhole(now, limits, search, found) && halted.halted
    requires Reports(halted, found, |Orphans(found.checked, found.inUse, now)|)
    ensures SweptWhole(now, limits, search, search, halted)
  {
    hide View, Candidates, Orphans, Sort, RotatingWindow;
  }

  lemma TakesFirst(now: int, limits: Limits, search: seq<Event>, found: Search, log: seq<Event>, files: seq<StoredFile>,
              swept: Report)
    requires SearchedWhole(now, limits, search, found) && search <= log
    requires Reports(swept, found, |Orphans(found.checked, found.inUse, now)|)
    requires var orphans := Orphans(found.checked, found.inUse, now);
             var allowed := PathSet(orphans[..Budget(limits, |orphans|)]);
             && files == Filter(found.checked, allowed) && RemovedPaths(log) <= allowed
             && (forall p :: p in RemovedPaths(log) <==> DroppedSince(log, |search|, p))
             && forall f :: f in files ==> AskedSince(log, |search|, f.path)
    ensures SweptWhole(now, limits, search, log, swept)
  {
    var orphans := Orphans(found.checked, found.inUse, now);
    OrphansMean(found.checked, found.inUse, now);
    hide View, Candidates, Sort, RotatingWindow, RemovedPaths, DroppedSince, AskedSince, Filter, Orphans;
    forall p | p in orphans[..Budget(limits, |orphans|)] ensures AskedSince(log, |search|, p) {
      assert p in orphans;
      InPaths(found.checked, p);
      var f :| f in found.checked && f.path == p;
      assert f in files;
    }
  }

  /** Each of these is asked about again, and goes exactly when a lookup does not name it; nothing else goes. */
  ghost predicate TakesExactlyUnnamed(search: seq<Event>, log: seq<Event>, orphans: seq<Path>) {
    && (forall p :: p in orphans ==> AskedSince(log, |search|, p))
    && forall p :: p in RemovedPaths(log) <==> p in orphans && DroppedSince(log, |search|, p)
  }

  /** What the search found: the walk, the files the database answered about, and what it named. */
  datatype Search = Search(walk: Walk, folders: int, total: nat, checked: seq<StoredFile>, inUse: set<Path>, lookups: int)

  /** Phases 1 to 3, which only read; None when the bucket can't be listed at all. */
  method SearchChatFiles(w: World, now: int, limits: Limits) returns (r: Option<Search>)
    requires w.log == [] && w.errors == 0
    modifies w
    ensures OnlyReads([], w.log) && (old(w.late) ==> w.late)
    ensures r.None? ==> w.errors == 1
    ensures r.Some? ==>
              var found := r.value;
              && w.errors == found.walk.failures + found.lookups
              && AllCandidates(now, w.log, found.checked) && AllAnswered(w.log, found.checked, found.inUse)
              && (w.errors == 0 && !w.late ==> SearchedWhole(now, limits, w.log, found))
  {
    assert TopsOnly(View([]), []);
    hide View, Candidates, Orphans, Sort, RotatingWindow, LogFits;
    var top := ChannelFolders(w);
    if top.None? { return None; }
    var channels := top.value.0;
    var window := RotatingWindow(channels, limits.channels, now);
    WindowFolders(channels, limits.channels, now);
    var start := Walk([], top.value.1, 0, top.value.1, 0, top.value.2, false);
    hide AllFolderNames;
    var walk, folders := WalkAll(w, now, window, limits, start);
    ghost var walked := w.log;
    var checked, inUse, lookups := AskAll(w, walk.candidates);
    CandidatesLater(now, walked, w.log, walk.candidates);
    r := Some(Search(walk, folders, |channels|, checked, inUse, lookups));
  }

  lemma WindowFolders(channels: seq<Text>, size: int, now: int)
    requires AllFolderNames(channels)
    ensures AllFolderNames(RotatingWindow(channels, size, now))
  {}

  /**
   * sweepUnsentChatFiles. Whatever storage and the database answer: every path removed is an upload, was listed as last
   * written more than a day ago, and was absent from two successful reads, the second made just before its own batch; no
   * more paths go than the limit; and a run that looks like lost rows removes nothing. None is the throw for a bucket
   * that can't be listed at all, which comes before anything is removed. When every call answers in time, all of this
   * is done and not only allowed. `search` is the log by the time the removing starts.
   */
  method SweepUnsentChatFiles(w: World, now: int, limits: Limits, guard: Guard)
      returns (r: Option<Report>, ghost search: seq<Event>)
    requires w.log == [] && w.errors == 0 && !w.late
    modifies w
    ensures LogFits(now, w.log)
    ensures |RemovedPaths(w.log)| <= (if limits.removals < 0 then 0 else limits.removals)
    ensures r.None? || r.value.halted ==> RemovedPaths(w.log) == {} && RemovedCount(w.log) == 0
    ensures r.Some? ==>
              && r.value.halted == LooksLikeLostRows(r.value.found, r.value.judged, guard)
              && r.value.removed == Told(w.log) && r.value.errors == w.errors
    ensures r.None? ==> w.errors > 0
    ensures w.errors == 0 && !w.late ==> SweptWhole(now, limits, search, w.log, r.value)
  {
    hide View, Candidates, Orphans, IsChatUploadPath, LogFits, RemovedPaths, RemovedCount, Told, Doomable, DroppedSince,
      AskedSince, SweptWhole, SearchedWhole, InOrder, FirstIsOld, AllCandidates, AllAnswered, Filter, PathSet, LooksLikeLostRows;
    search := [];
    var report := Report(0, 0, 0, 0, 0, 0, 0, 0, false);
    ghost var nothing := w.log;
    NothingYet(now, guard);
    var late := w.OutOfTime();
    if late { return Some(report), []; }

    var found := SearchChatFiles(w, now, limits);
    ReadsKeep(now, nothing, w.log);
    if found.None? { return None, []; }
    search := w.log;
    var walk, checked := found.value.walk, found.value.checked;
    var orphans := SelectChatOrphans(checked, found.value.inUse, now);
    report := Report(walk.examined, 0, |walk.candidates| - |checked| + walk.strays + walk.undated, found.value.folders,
                     found.value.total, walk.failures + found.value.lookups, |orphans|, |checked|, false);
    if LooksLikeLostRows(|orphans|, |checked|, guard) {
      r := Some(report.(halted := true, skipped := report.skipped + |orphans|));
      if w.errors == 0 && !w.late { Halts(now, limits, search, found.value, r.value); }
      return;
    }

    var budget := if limits.removals < 0 then 0 else if limits.removals < |orphans| then limits.removals else |orphans|;
    var allowed := PathSet(orphans[..budget]);
    var files := Filter(checked, allowed);
    OrphansDoomable(now, w.log, checked, found.value.inUse, budget);
    var removed, skipped, failures := RemoveAll(w, now, allowed, files);
    NoMoreThan(RemovedPaths(w.log), allowed);
    r := Some(report.(removed := removed, skipped := report.skipped + (|orphans| - |allowed|) + skipped,
                      errors := report.errors + failures));
    if w.errors == 0 && !w.late { TakesFirst(now, limits, search, found.value, w.log, files, r.value); }
  }

  lemma NothingYet(now: int, guard: Guard)
    ensures LogFits(now, []) && RemovedPaths([]) == {} && RemovedCount([]) == 0 && Told([]) == 0
    ensures !LooksLikeLostRows(0, 0, guard)
  {}
}
