/** lib/chat-view.ts: merging pages, live events and unsent bubbles into one list. */
module ChatView {
  import opened Options
  import opened Texts
  import opened Sorting

  /** A Postgres timestamp: the milliseconds Date.parse reads, and the rank of its text. */
  datatype Stamp = Stamp(ms: int, text: int)

  function Later(a: Stamp, b: Stamp): Stamp {
    if a.ms != b.ms then (if a.ms > b.ms then a else b) else if a.text >= b.text then a else b
  }

  predicate IsAfter(a: Stamp, b: Stamp) { a != b && Later(a, b) == a }

  datatype Quote = Quote(id: nat, preview: Text, deleted: bool)

  /** A message or an unsent bubble; ids stand for their rank among ids, `rest` for everything else it shows. */
  datatype Message = Message(id: nat, createdAt: Stamp, pending: bool, failed: bool, editedAt: Option<Stamp>,
                             quote: Option<Quote>, sender: Option<nat>, clientId: Option<nat>, rest: Text)

  predicate Local(m: Message) { m.pending || m.failed }

  function SentKey(m: Message): Option<(nat, nat)> {
    if m.clientId.Some? && m.sender.Some? then Some((m.sender.value, m.clientId.value)) else None
  }

  function ByTime(a: Message, b: Message): int {
    if a.pending != b.pending then (if a.pending then 1 else -1)
    else if a.createdAt != b.createdAt then (if IsAfter(a.createdAt, b.createdAt) then 1 else -1)
    else if a.id < b.id then -1 else if a.id > b.id then 1 else 0
  }

  predicate InOrder(a: Message, b: Message) { ByTime(a, b) <= 0 }

  /** What was sent stands before what is being sent; then the earlier comes first, to the text of its stamp and its id. */
  lemma EarlierFirst(a: Message, b: Message)
    ensures (!a.pending && b.pending ==> InOrder(a, b)) && (a.pending && !b.pending ==> !InOrder(a, b))
    ensures a.pending == b.pending && a.createdAt.ms != b.createdAt.ms ==> (InOrder(a, b) <==> a.createdAt.ms < b.createdAt.ms)
    ensures a.pending == b.pending && a.createdAt.ms == b.createdAt.ms && a.createdAt.text != b.createdAt.text ==>
              (InOrder(a, b) <==> a.createdAt.text < b.createdAt.text)
    ensures a.pending == b.pending && a.createdAt == b.createdAt ==> (InOrder(a, b) <==> a.id <= b.id)
  {}

  lemma ByTimeIsTotal()
    ensures TotalPreorder(InOrder)
  {}

  function Fresher(cur: Option<Message>, next: Message): Message {
    if cur.None? || cur.value == next then next
    else if cur.value.editedAt.Some?
        && (next.editedAt.None? || IsAfter(cur.value.editedAt.value, next.editedAt.value)) then cur.value
    else next
  }

  /** A reply whose original was deleted on this screen: its quote stays blank. */
  function Blank(m: Message, deleted: set<nat>): Message {
    if m.quote.None? || m.quote.value.id !in deleted then m
    else m.(quote := Some(m.quote.value.(preview := [], deleted := true)))
  }

  // ---------------------------------------------------------------------------------------------
  // Lists as maps from ids
  // ---------------------------------------------------------------------------------------------

  predicate UniqueIds(list: seq<Message>) { forall i, j :: 0 <= i < j < |list| ==> list[i].id != list[j].id }

  /** The last copy of each id. */
  function Entries(list: seq<Message>): map<nat, Message> {
    if list == [] then map[] else Entries(list[..|list| - 1])[list[|list| - 1].id := list[|list| - 1]]
  }

  function At(entries: map<nat, Message>, id: nat): Option<Message> { if id in entries then Some(entries[id]) else None }

  /** What the entries become when the incoming messages arrive one by one. */
  function Absorb(entries: map<nat, Message>, incoming: seq<Message>, deleted: set<nat>): map<nat, Message> {
    if incoming == [] then entries else
      var before := Absorb(entries, incoming[..|incoming| - 1], deleted);
      var raw := incoming[|incoming| - 1];
      if raw.id in deleted then before else before[raw.id := Fresher(At(before, raw.id), Blank(raw, deleted))]
  }

  /** Some incoming message changed an entry as it arrived. */
  predicate Changes(entries: map<nat, Message>, incoming: seq<Message>, deleted: set<nat>) {
    incoming != [] &&
      (|| Changes(entries, incoming[..|incoming| - 1], deleted)
       || var before, raw := Absorb(entries, incoming[..|incoming| - 1], deleted), incoming[|incoming| - 1];
          raw.id !in deleted && Some(Fresher(At(before, raw.id), Blank(raw, deleted))) != At(before, raw.id))
  }

  /** An unsent or failed bubble whose message the entries hold from the server. */
  ghost predicate Settled(entries: map<nat, Message>, m: Message) {
    Local(m) && SentKey(m).Some? && exists id :: id in entries && !Local(entries[id]) && SentKey(entries[id]) == SentKey(m)
  }

  ghost function Unsettled(entries: map<nat, Message>): map<nat, Message> {
    map id | id in entries && !Settled(entries, entries[id]) :: entries[id]
  }

  /** What the screen keeps: ids unique, in order, and no bubble beside its server copy. */
  ghost predicate Tidy(list: seq<Message>) {
    UniqueIds(list) && Sorted(InOrder, list) && forall m :: m in list ==> !Settled(Entries(list), m)
  }

  lemma FrontUnique(list: seq<Message>)
    requires list != [] && UniqueIds(list)
    ensures UniqueIds(list[..|list| - 1])
    ensures forall m :: m in list[..|list| - 1] ==> m.id != list[|list| - 1].id
  {
    var front := list[..|list| - 1];
    forall m | m in front ensures m.id != list[|list| - 1].id {
      var i :| 0 <= i < |front| && front[i] == m;
      assert list[i].id != list[|list| - 1].id;
    }
  }

  lemma {:induction false} EntryIn(list: seq<Message>, id: nat)
    requires id in Entries(list)
    ensures Entries(list)[id].id == id && Entries(list)[id] in list
  {
    var front, last := list[..|list| - 1], list[|list| - 1];
    assert list == front + [last];
    if id != last.id { EntryIn(front, id); }
  }

  lemma {:induction false} InEntries(list: seq<Message>, m: Message)
    requires m in list
    ensures m.id in Entries(list)
    ensures UniqueIds(list) ==> Entries(list)[m.id] == m
  {
    var front, last := list[..|list| - 1], list[|list| - 1];
    assert list == front + [last];
    if m in front { InEntries(front, m); }
    if UniqueIds(list) { FrontUnique(list); }
  }

  /** Two lists with unique ids, in order, that hold the same messages are the same list. */
  lemma SameEntries(xs: seq<Message>, ys: seq<Message>)
    requires UniqueIds(xs) && UniqueIds(ys) && Sorted(InOrder, xs) && Sorted(InOrder, ys) && Entries(xs) == Entries(ys)
    ensures xs == ys
  {
    hide Entries, UniqueIds, Sorted, InOrder;
    SameMembers(xs, ys);
    forall x, y | x in xs && y in xs && InOrder(x, y) && InOrder(y, x) ensures x == y {
      TiesAreOne(x, y);
      InEntries(xs, x);
      InEntries(xs, y);
    }
    OneSorting(InOrder, xs, ys);
  }

  lemma TiesAreOne(x: Message, y: Message)
    requires InOrder(x, y) && InOrder(y, x)
    ensures x.id == y.id
  {}

  lemma SameMembers(xs: seq<Message>, ys: seq<Message>)
    requires UniqueIds(xs) && UniqueIds(ys) && Entries(xs) == Entries(ys)
    ensures multiset(xs) == multiset(ys)
  {
    hide Entries, UniqueIds;
    Once(xs);
    Once(ys);
    forall m ensures multiset(xs)[m] == multiset(ys)[m] {
      if m in xs { InEntries(xs, m); EntryIn(ys, m.id); }
      if m in ys { InEntries(ys, m); EntryIn(xs, m.id); }
    }
  }

  lemma {:induction false} Once(xs: seq<Message>)
    requires UniqueIds(xs)
    ensures forall m :: m in xs ==> multiset(xs)[m] == 1
  {
    if xs != [] {
      var front, last := xs[..|xs| - 1], xs[|xs| - 1];
      FrontUnique(xs);
      hide UniqueIds;
      Once(front);
      assert xs == front + [last];
    }
  }

  // ---------------------------------------------------------------------------------------------
  // What arrives, id by id
  // ---------------------------------------------------------------------------------------------

  /** `a` was edited no later than `b`. */
  predicate NoLater(a: Message, b: Message) {
    a.editedAt.None? || (b.editedAt.Some? && !IsAfter(a.editedAt.value, b.editedAt.value))
  }

  /** The copies of `id` a merge chooses among. */
  ghost predicate Candidate(entries: map<nat, Message>, incoming: seq<Message>, deleted: set<nat>, id: nat, m: Message) {
    || At(entries, id) == Some(m)
    || (id !in deleted && exists i :: 0 <= i < |incoming| && incoming[i].id == id && Blank(incoming[i], deleted) == m)
  }

  lemma CandidateGrows(entries: map<nat, Message>, incoming: seq<Message>, deleted: set<nat>, id: nat, m: Message)
    requires incoming != []
    ensures Candidate(entries, incoming, deleted, id, m)
            <==> Candidate(entries, incoming[..|incoming| - 1], deleted, id, m)
                 || (id !in deleted && incoming[|incoming| - 1].id == id && m == Blank(incoming[|incoming| - 1], deleted))
  {
    var front, last := incoming[..|incoming| - 1], incoming[|incoming| - 1];
    if id !in deleted {
      if exists i :: 0 <= i < |incoming| && incoming[i].id == id && Blank(incoming[i], deleted) == m {
        var i :| 0 <= i < |incoming| && incoming[i].id == id && Blank(incoming[i], deleted) == m;
        if i < |front| { assert front[i] == incoming[i]; }
      }
      if exists i :: 0 <= i < |front| && front[i].id == id && Blank(front[i], deleted) == m {
        var i :| 0 <= i < |front| && front[i].id == id && Blank(front[i], deleted) == m;
        assert incoming[i] == front[i];
      }
    }
  }

  /** Each id ends with one of its copies, and no copy was edited later; an id with a copy is never lost. */
  lemma {:induction false} AbsorbTakesNewest(entries: map<nat, Message>, incoming: seq<Message>, deleted: set<nat>, id: nat)
    ensures var after := Absorb(entries, incoming, deleted);
            && (id in after ==> Candidate(entries, incoming, deleted, id, after[id]))
            && forall m :: Candidate(entries, incoming, deleted, id, m) ==> id in after && NoLater(m, after[id])
  {
    if incoming != [] {
      var front, last := incoming[..|incoming| - 1], incoming[|incoming| - 1];
      AbsorbTakesNewest(entries, front, deleted, id);
      hide Candidate, Blank;
      forall m ensures Candidate(entries, incoming, deleted, id, m)
                       <==> Candidate(entries, front, deleted, id, m)
                            || (id !in deleted && last.id == id && m == Blank(last, deleted))
      {
        CandidateGrows(entries, incoming, deleted, id, m);
      }
    }
  }

  /** What arrives for an id depends on nothing but that id. */
  lemma {:induction false} AbsorbIsLocal(a: map<nat, Message>, b: map<nat, Message>, incoming: seq<Message>, deleted: set<nat>,
                                         id: nat)
    requires At(a, id) == At(b, id)
    ensures At(Absorb(a, incoming, deleted), id) == At(Absorb(b, incoming, deleted), id)
  {
    hide Fresher, Blank;
    if incoming != [] { AbsorbIsLocal(a, b, incoming[..|incoming| - 1], deleted, id); }
  }

  lemma {:induction false} AbsorbElsewhere(entries: map<nat, Message>, incoming: seq<Message>, deleted: set<nat>, id: nat)
    requires id in deleted || forall i :: 0 <= i < |incoming| ==> incoming[i].id != id
    ensures At(Absorb(entries, incoming, deleted), id) == At(entries, id)
  {
    hide Fresher, Blank;
    if incoming != [] { AbsorbElsewhere(entries, incoming[..|incoming| - 1], deleted, id); }
  }

  lemma {:induction false} NoChange(entries: map<nat, Message>, incoming: seq<Message>, deleted: set<nat>)
    requires !Changes(entries, incoming, deleted)
    ensures Absorb(entries, incoming, deleted) == entries
  {
    hide Fresher, Blank;
    if incoming != [] { NoChange(entries, incoming[..|incoming| - 1], deleted); }
  }

  // ---------------------------------------------------------------------------------------------
  // mergeMessages
  // ---------------------------------------------------------------------------------------------

  /** The same list when nothing changed; otherwise what the entries hold, less the settled bubbles, in order. */
  ghost predicate IsMerge(list: seq<Message>, incoming: seq<Message>, deleted: set<nat>, out: seq<Message>) {
    if Changes(Entries(list), incoming, deleted)
    then UniqueIds(out) && Sorted(InOrder, out) && Entries(out) == Unsettled(Absorb(Entries(list), incoming, deleted))
    else out == list
  }

  /** There is only one such list. */
  lemma OneMerge(list: seq<Message>, incoming: seq<Message>, deleted: set<nat>, a: seq<Message>, b: seq<Message>)
    requires IsMerge(list, incoming, deleted, a) && IsMerge(list, incoming, deleted, b)
    ensures a == b
  {
    hide Entries, UniqueIds, Sorted, Unsettled, Absorb, Changes;
    if Changes(Entries(list), incoming, deleted) { SameEntries(a, b); }
  }

  /** Map.set: the entry keeps its place, or goes last. */
  function SetEntry(es: seq<Message>, m: Message): seq<Message> {
    if es == [] then [m] else if es[0].id == m.id then [m] + es[1..] else [es[0]] + SetEntry(es[1..], m)
  }

  function GetEntry(es: seq<Message>, id: nat): Option<Message> {
    if es == [] then None else if es[0].id == id then Some(es[0]) else GetEntry(es[1..], id)
  }

  lemma {:induction false} SetMembers(es: seq<Message>, m: Message)
    requires UniqueIds(es)
    ensures UniqueIds(SetEntry(es, m))
    ensures forall x :: x in SetEntry(es, m) <==> x == m || (x in es && x.id != m.id)
  {
    if es != [] {
      assert es == [es[0]] + es[1..];
      SetMembers(es[1..], m);
      forall x | x in es[1..] ensures x.id != es[0].id {
        var i :| 0 <= i < |es[1..]| && es[1..][i] == x;
        assert es[i + 1].id != es[0].id;
      }
      var rest := SetEntry(es[1..], m);
      if es[0].id != m.id {
        forall i | 0 <= i < |rest| ensures rest[i].id != es[0].id { assert rest[i] in rest; }
      }
    }
  }

  lemma {:induction false} GetMember(es: seq<Message>, id: nat)
    requires UniqueIds(es)
    ensures GetEntry(es, id) == At(Entries(es), id)
  {
    if es == [] {
    } else if es[0].id == id {
      assert es[0] in es;
      InEntries(es, es[0]);
    } else {
      GetMember(es[1..], id);
      if id in Entries(es[1..]) { EntryIn(es[1..], id); InEntries(es, Entries(es[1..])[id]); }
      if id in Entries(es) {
        EntryIn(es, id);
        assert Entries(es)[id] in es[1..];
        InEntries(es[1..], Entries(es)[id]);
      }
    }
  }

  /** Lists with unique ids and the same members hold the same entries. */
  lemma MembersFixEntries(es: seq<Message>, entries: map<nat, Message>)
    requires UniqueIds(es)
    requires forall id :: id in entries ==> entries[id].id == id && entries[id] in es
    requires forall m :: m in es ==> m.id in entries
    ensures Entries(es) == entries
  {
    hide UniqueIds;
    forall id | id in Entries(es) ensures id in entries && entries[id] == Entries(es)[id] {
      EntryIn(es, id);
      InEntries(es, entries[id]);
    }
    forall id | id in entries ensures id in Entries(es) { InEntries(es, entries[id]); }
  }

  lemma SetEntries(es: seq<Message>, m: Message)
    requires UniqueIds(es)
    ensures UniqueIds(SetEntry(es, m)) && Entries(SetEntry(es, m)) == Entries(es)[m.id := m]
  {
    SetMembers(es, m);
    hide UniqueIds, SetEntry;
    forall id | id in Entries(es) ensures Entries(es)[id].id == id && Entries(es)[id] in es { EntryIn(es, id); }
    forall x | x in es ensures x.id in Entries(es) { InEntries(es, x); }
    hide Entries;
    MembersFixEntries(SetEntry(es, m), Entries(es)[m.id := m]);
  }

  /** The bubbles the server's own copy settles. */
  method SettledBubbles(list: seq<Message>) returns (bubbles: seq<Message>)
    requires UniqueIds(list)
    ensures forall m :: m in bubbles <==> m in list && Settled(Entries(list), m)
  {
    var sent: set<(nat, nat)> := {};
    var i := 0;
    while i < |list|
      invariant 0 <= i <= |list|
      invariant forall k :: k in sent <==> exists x :: x in list[..i] && !Local(x) && SentKey(x) == Some(k)
    {
      assert list[..i + 1] == list[..i] + [list[i]];
      if !Local(list[i]) && SentKey(list[i]).Some? { sent := sent + {SentKey(list[i]).value}; }
      i := i + 1;
    }
    assert list[..i] == list;
    bubbles := [];
    i := 0;
    while i < |list|
      invariant 0 <= i <= |list|
      invariant forall m :: m in bubbles <==> m in list[..i] && Local(m) && SentKey(m).Some? && SentKey(m).value in sent
    {
      assert list[..i + 1] == list[..i] + [list[i]];
      if Local(list[i]) && SentKey(list[i]).Some? && SentKey(list[i]).value in sent { bubbles := bubbles + [list[i]]; }
      i := i + 1;
    }
    assert list[..i] == list;
    forall m | m in list ensures m in bubbles <==> Settled(Entries(list), m) { SettledInList(list, m); }
  }

  lemma SettledInList(list: seq<Message>, m: Message)
    requires UniqueIds(list)
    ensures Settled(Entries(list), m)
            <==> Local(m) && SentKey(m).Some? && exists x :: x in list && !Local(x) && SentKey(x) == SentKey(m)
  {
    hide UniqueIds;
    forall x | x in list ensures x.id in Entries(list) && Entries(list)[x.id] == x { InEntries(list, x); }
    forall id | id in Entries(list) ensures Entries(list)[id] in list { EntryIn(list, id); }
  }

  /** Map.delete. */
  function DropEntry(es: seq<Message>, id: nat): seq<Message> {
    if es == [] then [] else if es[0].id == id then es[1..] else [es[0]] + DropEntry(es[1..], id)
  }

  lemma {:induction false} DropMembers(es: seq<Message>, id: nat)
    requires UniqueIds(es)
    ensures UniqueIds(DropEntry(es, id))
    ensures forall x :: x in DropEntry(es, id) <==> x in es && x.id != id
  {
    if es != [] {
      assert es == [es[0]] + es[1..];
      forall x | x in es[1..] ensures x.id != es[0].id {
        var i :| 0 <= i < |es[1..]| && es[1..][i] == x;
        assert es[i + 1].id != es[0].id;
      }
      DropMembers(es[1..], id);
      var rest := DropEntry(es[1..], id);
      forall i | 0 <= i < |rest| ensures rest[i].id != es[0].id { assert rest[i] in rest; }
    }
  }

  method WithoutBubbles(es: seq<Message>, bubbles: seq<Message>) returns (rest: seq<Message>)
    requires UniqueIds(es) && forall m :: m in bubbles ==> m in es
    ensures UniqueIds(rest) && forall x :: x in rest <==> x in es && x !in bubbles
  {
    rest := es;
    var k := 0;
    while k < |bubbles|
      invariant 0 <= k <= |bubbles| && UniqueIds(rest)
      invariant forall x :: x in rest <==> x in es && x !in bubbles[..k]
    {
      assert bubbles[..k + 1] == bubbles[..k] + [bubbles[k]];
      DropMembers(rest, bubbles[k].id);
      forall x | x in es && x.id == bubbles[k].id ensures x == bubbles[k] { InEntries(es, x); InEntries(es, bubbles[k]); }
      hide UniqueIds, DropEntry;
      rest := DropEntry(rest, bubbles[k].id);
      k := k + 1;
    }
    assert bubbles[..k] == bubbles;
  }

  /** Sorting moves messages and keeps them all. */
  lemma SortedEntries(es: seq<Message>)
    requires UniqueIds(es)
    ensures var out := Sort(InOrder, es); UniqueIds(out) && Sorted(InOrder, out) && Entries(out) == Entries(es)
  {
    var out := Sort(InOrder, es);
    ByTimeIsTotal();
    SortSorts(InOrder, es);
    SortPermutes(InOrder, es);
    PermutedUnique(es, out);
    forall m ensures m in out <==> m in es { assert m in multiset(out) <==> m in multiset(es); }
    hide UniqueIds, Sorted, InOrder, Sort;
    forall id | id in Entries(es) ensures Entries(es)[id].id == id && Entries(es)[id] in es { EntryIn(es, id); }
    forall x | x in es ensures x.id in Entries(es) { InEntries(es, x); }
    MembersFixEntries(out, Entries(es));
  }

  lemma PermutedUnique(xs: seq<Message>, ys: seq<Message>)
    requires UniqueIds(xs) && multiset(xs) == multiset(ys)
    ensures UniqueIds(ys)
  {
    hide InOrder;
    Once(xs);
    forall i, j | 0 <= i < j < |ys| ensures ys[i].id != ys[j].id {
      var a, b := ys[i], ys[j];
      assert a in multiset(ys) && b in multiset(ys);
      assert a in xs && b in xs;
      Twice(ys, i, j);
      if a.id == b.id {
        InEntries(xs, a);
        InEntries(xs, b);
      }
    }
  }

  lemma {:induction false} EntriesByList(list: seq<Message>, i: nat)
    requires i < |list|
    ensures Entries(list[..i + 1]) == Entries(list[..i])[list[i].id := list[i]]
  {
    assert list[..i + 1][..i] == list[..i];
  }

  lemma AbsorbNext(entries: map<nat, Message>, incoming: seq<Message>, deleted: set<nat>, i: nat)
    requires i < |incoming|
    ensures var before, raw := Absorb(entries, incoming[..i], deleted), incoming[i];
            var cur := At(before, raw.id);
            var m := Fresher(cur, Blank(raw, deleted));
            && Absorb(entries, incoming[..i + 1], deleted) == (if raw.id in deleted then before else before[raw.id := m])
            && (Changes(entries, incoming[..i + 1], deleted)
                <==> Changes(entries, incoming[..i], deleted) || (raw.id !in deleted && cur != Some(m)))
  {
    hide Fresher, Blank;
    assert incoming[..i + 1][..i] == incoming[..i];
  }

  method MergeMessages(list: seq<Message>, incoming: seq<Message>, deleted: set<nat>) returns (out: seq<Message>, same: bool)
    ensures IsMerge(list, incoming, deleted, out) && same == !Changes(Entries(list), incoming, deleted)
  {
    if incoming == [] { return list, true; }
    hide Entries, Absorb, Changes, UniqueIds, SetEntry, GetEntry, Settled, InOrder, Sorted, Sort;
    var byId: seq<Message> := [];
    var i := 0;
    assert UniqueIds(byId) && Entries(byId) == Entries(list[..0]) by { EmptyEntries(); }
    while i < |list|
      invariant 0 <= i <= |list| && UniqueIds(byId) && Entries(byId) == Entries(list[..i])
    {
      SetEntries(byId, list[i]);
      EntriesByList(list, i);
      byId := SetEntry(byId, list[i]);
      i := i + 1;
    }
    assert list[..i] == list;
    var changed := false;
    i := 0;
    ghost var before := Entries(list);
    assert Absorb(before, incoming[..0], deleted) == before && !Changes(before, incoming[..0], deleted) by {
      NothingArrived(before, deleted);
    }
    while i < |incoming|
      invariant 0 <= i <= |incoming| && UniqueIds(byId)
      invariant Entries(byId) == Absorb(before, incoming[..i], deleted) && changed == Changes(before, incoming[..i], deleted)
    {
      var raw := incoming[i];
      AbsorbNext(before, incoming, deleted, i);
      GetMember(byId, raw.id);
      if raw.id !in deleted {
        var cur := GetEntry(byId, raw.id);
        var m := Fresher(cur, Blank(raw, deleted));
        SameId(byId, raw, deleted);
        if cur != Some(m) {
          SetEntries(byId, m);
          byId := SetEntry(byId, m);
          changed := true;
        }
      }
      i := i + 1;
    }
    assert incoming[..i] == incoming;
    if !changed { return list, true; }
    var bubbles := SettledBubbles(byId);
    var rest := WithoutBubbles(byId, bubbles);
    UnsettledRest(byId, rest);
    SortedEntries(rest);
    out := Sort(InOrder, rest);
    same := false;
  }

  lemma EmptyEntries()
    ensures UniqueIds([]) && Entries([]) == map[]
  {}

  lemma NothingArrived(entries: map<nat, Message>, deleted: set<nat>)
    ensures Absorb(entries, [], deleted) == entries && !Changes(entries, [], deleted)
  {}

  /** A merged copy keeps its id; setting an entry to what it already is changes nothing. */
  lemma SameId(es: seq<Message>, raw: Message, deleted: set<nat>)
    requires UniqueIds(es)
    ensures var m := Fresher(At(Entries(es), raw.id), Blank(raw, deleted));
            && m.id == raw.id
            && (At(Entries(es), raw.id) == Some(m) ==> Entries(es)[raw.id := m] == Entries(es))
  {
    hide UniqueIds, Entries;
    if raw.id in Entries(es) { EntryIn(es, raw.id); }
  }

  lemma UnsettledRest(es: seq<Message>, rest: seq<Message>)
    requires UniqueIds(es) && UniqueIds(rest)
    requires forall x :: x in rest <==> x in es && !Settled(Entries(es), x)
    ensures Entries(rest) == Unsettled(Entries(es))
  {
    hide UniqueIds, Entries, Settled;
    forall id | id in Entries(es) ensures Entries(es)[id].id == id && Entries(es)[id] in es { EntryIn(es, id); }
    forall x | x in es ensures x.id in Entries(es) && Entries(es)[x.id] == x { InEntries(es, x); }
    MembersFixEntries(rest, Unsettled(Entries(es)));
  }

  // ---------------------------------------------------------------------------------------------
  // What merging keeps
  // ---------------------------------------------------------------------------------------------

  lemma UnsettledIsTidy(entries: map<nat, Message>, m: Message)
    requires m.id in Unsettled(entries) && Unsettled(entries)[m.id] == m
    ensures !Settled(Unsettled(entries), m)
  {}

  /** Ids unique, in order, and no bubble beside its server copy: true of every merge, and a list that was so stays so. */
  lemma MergeIsTidy(list: seq<Message>, incoming: seq<Message>, deleted: set<nat>, out: seq<Message>)
    requires IsMerge(list, incoming, deleted, out) && (Tidy(list) || Changes(Entries(list), incoming, deleted))
    ensures Tidy(out)
  {
    hide Settled, UniqueIds, Sorted, InOrder, Entries, Absorb;
    if Changes(Entries(list), incoming, deleted) {
      forall m | m in out ensures !Settled(Entries(out), m) {
        InEntries(out, m);
        UnsettledIsTidy(Absorb(Entries(list), incoming, deleted), m);
      }
    }
  }

  /** A tidy list and a merge into it hold what arrived, less the settled bubbles, whether or not anything changed. */
  lemma MergeEntries(list: seq<Message>, incoming: seq<Message>, deleted: set<nat>, out: seq<Message>)
    requires IsMerge(list, incoming, deleted, out) && Tidy(list)
    ensures Entries(out) == Unsettled(Absorb(Entries(list), incoming, deleted))
  {
    hide Settled, UniqueIds, Sorted, InOrder, Entries, Absorb;
    if !Changes(Entries(list), incoming, deleted) {
      NoChange(Entries(list), incoming, deleted);
      forall id | id in Entries(list) ensures !Settled(Entries(list), Entries(list)[id]) { EntryIn(list, id); }
    }
  }

  /** A page is the server's: no bubbles in it. */
  predicate FromServer(page: seq<Message>) { forall m :: m in page ==> !Local(m) }

  /** A bubble of the list has not been edited: only the server stamps an edit. */
  predicate BubblesUnedited(list: seq<Message>) { forall m :: m in list && Local(m) ==> m.editedAt.None? }

  lemma {:induction false} UniquePageAt(entries: map<nat, Message>, page: seq<Message>, deleted: set<nat>, i: nat)
    requires UniqueIds(page) && i < |page| && page[i].id !in deleted
    ensures At(Absorb(entries, page, deleted), page[i].id) == Some(Fresher(At(entries, page[i].id), Blank(page[i], deleted)))
  {
    hide Fresher, Blank;
    var front := page[..|page| - 1];
    if i < |front| {
      assert front[i] == page[i];
      UniquePageAt(entries, front, deleted, i);
    } else {
      AbsorbElsewhere(entries, front, deleted, page[i].id);
    }
  }

  lemma {:induction false} NothingNew(entries: map<nat, Message>, page: seq<Message>, deleted: set<nat>)
    requires forall i :: 0 <= i < |page| && page[i].id !in deleted ==>
               At(entries, page[i].id) == Some(Fresher(At(entries, page[i].id), Blank(page[i], deleted)))
    ensures !Changes(entries, page, deleted)
  {
    hide Fresher, Blank;
    if page != [] {
      var front := page[..|page| - 1];
      forall i | 0 <= i < |front| ensures front[i] == page[i] {}
      NothingNew(entries, front, deleted);
      NoChange(entries, front, deleted);
    }
  }

  /** Merging a page again changes nothing: the very same list comes back. */
  lemma RemergeIsSame(list: seq<Message>, page: seq<Message>, deleted: set<nat>, once: seq<Message>, twice: seq<Message>)
    requires UniqueIds(page) && FromServer(page) && BubblesUnedited(list)
    requires IsMerge(list, page, deleted, once) && IsMerge(once, page, deleted, twice)
    ensures !Changes(Entries(once), page, deleted) && twice == once
  {
    hide UniqueIds, Sorted, InOrder, Entries, Absorb, Settled, Fresher, Blank, Changes;
    if Changes(Entries(list), page, deleted) {
      var after := Absorb(Entries(list), page, deleted);
      forall i | 0 <= i < |page| && page[i].id !in deleted
        ensures At(Entries(once), page[i].id) == Some(Fresher(At(Entries(once), page[i].id), Blank(page[i], deleted)))
      {
        var id, cur := page[i].id, At(Entries(list), page[i].id);
        UniquePageAt(Entries(list), page, deleted, i);
        if cur.Some? { EntryIn(list, id); }
        FreshestStays(cur, page[i], deleted);
        NotLocalStays(after, id);
      }
      NothingNew(Entries(once), page, deleted);
    }
  }

  lemma NotLocalStays(entries: map<nat, Message>, id: nat)
    requires id in entries && !Local(entries[id])
    ensures At(Unsettled(entries), id) == Some(entries[id])
  {}

  lemma FreshestStays(cur: Option<Message>, raw: Message, deleted: set<nat>)
    requires !Local(raw) && (cur.Some? && Local(cur.value) ==> cur.value.editedAt.None?)
    ensures var m := Fresher(cur, Blank(raw, deleted));
            !Local(m) && Fresher(Some(m), Blank(raw, deleted)) == m
  {}

  // ---------------------------------------------------------------------------------------------
  // The order pages arrive in
  // ---------------------------------------------------------------------------------------------

  /** Any copy in play: one on screen, or one that arrives, with its quote blanked. */
  ghost predicate InPlay(entries: map<nat, Message>, incoming: seq<Message>, deleted: set<nat>, m: Message) {
    Candidate(entries, incoming, deleted, m.id, m)
  }

  /** The id and its edit stamp say what a message holds. */
  ghost predicate Determined(entries: map<nat, Message>, incoming: seq<Message>, deleted: set<nat>) {
    forall a, b :: InPlay(entries, incoming, deleted, a) && InPlay(entries, incoming, deleted, b) ==>
      a.id == b.id && a.editedAt == b.editedAt ==> a == b
  }

  /** A server message keeps its author and client id, and a bubble's id is never a page's. */
  ghost predicate IdsFixed(entries: map<nat, Message>, incoming: seq<Message>, deleted: set<nat>) {
    forall a, b :: InPlay(entries, incoming, deleted, a) && InPlay(entries, incoming, deleted, b) && a.id == b.id ==>
      Local(a) == Local(b) && (!Local(a) ==> SentKey(a) == SentKey(b))
  }

  ghost predicate Keyed(entries: map<nat, Message>) { forall id :: id in entries ==> entries[id].id == id }

  lemma {:induction false} AbsorbKeyed(entries: map<nat, Message>, p: seq<Message>, deleted: set<nat>)
    requires Keyed(entries)
    ensures Keyed(Absorb(entries, p, deleted))
  {
    if p != [] { AbsorbKeyed(entries, p[..|p| - 1], deleted); }
  }

  lemma {:induction false} AbsorbAppend(entries: map<nat, Message>, p: seq<Message>, q: seq<Message>, deleted: set<nat>)
    ensures Absorb(Absorb(entries, p, deleted), q, deleted) == Absorb(entries, p + q, deleted)
  {
    hide Fresher, Blank;
    if q == [] {
      assert p + q == p;
    } else {
      AbsorbAppend(entries, p, q[..|q| - 1], deleted);
      assert (p + q)[..|p + q| - 1] == p + q[..|q| - 1];
    }
  }

  /** More messages, in any order, are more candidates. */
  lemma CandidateOfMore(entries: map<nat, Message>, p: seq<Message>, q: seq<Message>, deleted: set<nat>, id: nat, m: Message)
    requires Candidate(entries, p, deleted, id, m) && forall x :: x in p ==> x in q
    ensures Candidate(entries, q, deleted, id, m)
  {
    if At(entries, id) != Some(m) {
      var i :| 0 <= i < |p| && p[i].id == id && Blank(p[i], deleted) == m;
      assert p[i] in q;
      var j :| 0 <= j < |q| && q[j] == p[i];
    }
  }

  lemma NewestIsOne(entries: map<nat, Message>, p: seq<Message>, deleted: set<nat>, v: Message, w: Message)
    requires Determined(entries, p, deleted) && InPlay(entries, p, deleted, v) && InPlay(entries, p, deleted, w) && v.id == w.id
    requires NoLater(v, w) && NoLater(w, v)
    ensures v == w
  {
    hide InPlay;
    assert v.editedAt == w.editedAt;
  }

  /** The same messages, in whatever order and however often, leave the same entries. */
  lemma SameMessagesAbsorb(entries: map<nat, Message>, p: seq<Message>, q: seq<Message>, deleted: set<nat>)
    requires Keyed(entries) && Determined(entries, p, deleted) && forall m :: m in p <==> m in q
    ensures Absorb(entries, p, deleted) == Absorb(entries, q, deleted)
  {
    var a, b := Absorb(entries, p, deleted), Absorb(entries, q, deleted);
    AbsorbKeyed(entries, p, deleted);
    AbsorbKeyed(entries, q, deleted);
    hide Absorb, Candidate, NoLater, Determined;
    forall id ensures (id in a <==> id in b) && (id in a ==> a[id] == b[id]) {
      forall m ensures Candidate(entries, p, deleted, id, m) <==> Candidate(entries, q, deleted, id, m) {
        if Candidate(entries, p, deleted, id, m) { CandidateOfMore(entries, p, q, deleted, id, m); }
        if Candidate(entries, q, deleted, id, m) { CandidateOfMore(entries, q, p, deleted, id, m); }
      }
      AbsorbTakesNewest(entries, p, deleted, id);
      AbsorbTakesNewest(entries, q, deleted, id);
      if id in a && id in b { NewestIsOne(entries, p, deleted, a[id], b[id]); }
    }
  }

  /** A settled bubble may as well go early: the message that settles it stays, and no page brings the bubble back. */
  lemma EarlyOrLate(entries: map<nat, Message>, p: seq<Message>, q: seq<Message>, deleted: set<nat>)
    requires Keyed(entries) && FromServer(q) && IdsFixed(entries, p + q, deleted)
    ensures var first := Absorb(entries, p, deleted);
            Unsettled(Absorb(first, q, deleted)) == Unsettled(Absorb(Unsettled(first), q, deleted))
  {
    var first := Absorb(entries, p, deleted);
    var left := Unsettled(first);
    var late, early := Absorb(first, q, deleted), Absorb(left, q, deleted);
    hide Absorb, Candidate, IdsFixed, FromServer, Keyed;
    forall id ensures id in early ==> At(late, id) == At(early, id)
              ensures id in late && id !in early ==> Local(late[id]) && Settled(late, late[id])
    {
      if id in left || id !in first { assert At(left, id) == At(first, id); AbsorbIsLocal(left, first, q, deleted, id); }
      else { BubbleGone(entries, p, q, deleted, id); }
    }
    SameUnsettled(late, early);
  }

  /** Dropping bubbles that are settled anyway leaves the same unsettled entries. */
  lemma SameUnsettled(late: map<nat, Message>, early: map<nat, Message>)
    requires forall id :: id in early ==> At(late, id) == At(early, id)
    requires forall id :: id in late && id !in early ==> Local(late[id]) && Settled(late, late[id])
    ensures Unsettled(late) == Unsettled(early)
  {
    forall m ensures Settled(late, m) <==> Settled(early, m) { SettledAlike(late, early, m); }
    hide Settled;
  }

  lemma SettledAlike(late: map<nat, Message>, early: map<nat, Message>, m: Message)
    requires forall id :: id in early ==> At(late, id) == At(early, id)
    requires forall id :: id in late && id !in early ==> Local(late[id])
    ensures Settled(late, m) <==> Settled(early, m)
  {}

  lemma FixedKey(entries: map<nat, Message>, p: seq<Message>, deleted: set<nat>, a: Message, b: Message)
    requires IdsFixed(entries, p, deleted) && InPlay(entries, p, deleted, a) && InPlay(entries, p, deleted, b) && a.id == b.id
    ensures Local(a) == Local(b) && (!Local(a) ==> SentKey(a) == SentKey(b))
  {
    hide InPlay, SentKey, Local;
  }

  lemma PageCopiesInPlay(entries: map<nat, Message>, p: seq<Message>, q: seq<Message>, deleted: set<nat>, id: nat)
    requires Keyed(entries) && id in Absorb(entries, p, deleted)
    ensures var first := Absorb(entries, p, deleted);
            var both := Absorb(first, q, deleted);
            && id in both && first[id].id == id && both[id].id == id
            && InPlay(entries, p + q, deleted, first[id]) && InPlay(entries, p + q, deleted, both[id])
  {
    AbsorbKeyed(entries, p, deleted);
    AbsorbKeyed(entries, p + q, deleted);
    AbsorbAppend(entries, p, q, deleted);
    AbsorbTakesNewest(entries, p, deleted, id);
    AbsorbTakesNewest(entries, p + q, deleted, id);
    hide Absorb, Candidate, NoLater;
    CandidateOfMore(entries, p, p + q, deleted, id, Absorb(entries, p, deleted)[id]);
  }

  /** The server copy of an id keeps its key when the next page arrives. */
  lemma KeyStays(entries: map<nat, Message>, p: seq<Message>, q: seq<Message>, deleted: set<nat>, id: nat)
    requires Keyed(entries) && IdsFixed(entries, p + q, deleted)
    requires var first := Absorb(entries, p, deleted); id in first && !Local(first[id])
    ensures var first := Absorb(entries, p, deleted);
            var late := Absorb(first, q, deleted);
            id in late && !Local(late[id]) && SentKey(late[id]) == SentKey(first[id])
  {
    var first := Absorb(entries, p, deleted);
    var late := Absorb(first, q, deleted);
    hide IdsFixed;
    PageCopiesInPlay(entries, p, q, deleted, id);
    hide Absorb, InPlay, SentKey, Local, Keyed;
    FixedKey(entries, p + q, deleted, first[id], late[id]);
  }

  lemma BubbleGone(entries: map<nat, Message>, p: seq<Message>, q: seq<Message>, deleted: set<nat>, id: nat)
    requires Keyed(entries) && FromServer(q) && IdsFixed(entries, p + q, deleted)
    requires var first := Absorb(entries, p, deleted); id in first && Settled(first, first[id])
    ensures var first := Absorb(entries, p, deleted);
            var late, early := Absorb(first, q, deleted), Absorb(Unsettled(first), q, deleted);
            id !in early && At(late, id) == At(first, id) && Settled(late, late[id])
  {
    var first := Absorb(entries, p, deleted);
    var m := first[id];
    PageCopiesInPlay(entries, p, q, deleted, id);
    hide Absorb, FromServer, IdsFixed, Candidate;
    NotInPage(entries, p, q, deleted, m);
    AbsorbElsewhere(first, q, deleted, id);
    AbsorbElsewhere(Unsettled(first), q, deleted, id);
    var sid :| sid in first && !Local(first[sid]) && SentKey(first[sid]) == SentKey(m);
    KeyStays(entries, p, q, deleted, sid);
  }

  lemma NotInPage(entries: map<nat, Message>, p: seq<Message>, q: seq<Message>, deleted: set<nat>, m: Message)
    requires FromServer(q) && IdsFixed(entries, p + q, deleted) && InPlay(entries, p + q, deleted, m) && Local(m)
    ensures m.id in deleted || forall i :: 0 <= i < |q| ==> q[i].id != m.id
  {
    forall i | 0 <= i < |q| && m.id !in deleted ensures q[i].id != m.id { PageCopyInPlay(entries, p, q, deleted, i); }
  }

  lemma PageCopyInPlay(entries: map<nat, Message>, p: seq<Message>, q: seq<Message>, deleted: set<nat>, i: nat)
    requires FromServer(q) && i < |q|
    ensures var copy := Blank(q[i], deleted);
            copy.id == q[i].id && !Local(copy) && (copy.id !in deleted ==> InPlay(entries, p + q, deleted, copy))
  {
    var copy := Blank(q[i], deleted);
    assert q[i] in q;
    assert (p + q)[|p| + i] == q[i];
  }

  // ---------------------------------------------------------------------------------------------
  // Any number of pages
  // ---------------------------------------------------------------------------------------------

  function Flat(pages: seq<seq<Message>>): seq<Message> {
    if pages == [] then [] else Flat(pages[..|pages| - 1]) + pages[|pages| - 1]
  }

  lemma {:induction false} FlatHolds(pages: seq<seq<Message>>, m: Message)
    ensures m in Flat(pages) <==> exists k :: 0 <= k < |pages| && m in pages[k]
  {
    if pages != [] {
      FlatHolds(pages[..|pages| - 1], m);
      forall k | 0 <= k < |pages| - 1 ensures pages[..|pages| - 1][k] == pages[k] {}
    }
  }

  /** `lists` are the list and what it becomes as the pages are merged one by one. */
  ghost predicate IsMerges(list: seq<Message>, pages: seq<seq<Message>>, deleted: set<nat>, lists: seq<seq<Message>>) {
    && |lists| == |pages| + 1 && lists[0] == list
    && forall k :: 0 <= k < |pages| ==> IsMerge(lists[k], pages[k], deleted, lists[k + 1])
  }

  lemma FixedInPart(entries: map<nat, Message>, part: seq<Message>, all: seq<Message>, deleted: set<nat>)
    requires IdsFixed(entries, all, deleted) && forall m :: m in part ==> m in all
    ensures IdsFixed(entries, part, deleted)
  {
    forall m | InPlay(entries, part, deleted, m) ensures InPlay(entries, all, deleted, m) {
      CandidateOfMore(entries, part, all, deleted, m.id, m);
    }
    hide InPlay;
  }

  /** After k pages the list holds what they brought together, less the settled bubbles. */
  lemma {:induction false} MergesAsOne(list: seq<Message>, pages: seq<seq<Message>>, deleted: set<nat>,
                                       lists: seq<seq<Message>>, k: nat)
    requires Tidy(list) && IsMerges(list, pages, deleted, lists) && k <= |pages| && forall j :: 0 <= j < |pages| ==>
               FromServer(pages[j])
    requires IdsFixed(Entries(list), Flat(pages), deleted)
    ensures Tidy(lists[k]) && Entries(lists[k]) == Unsettled(Absorb(Entries(list), Flat(pages[..k]), deleted))
  {
    var entries := Entries(list);
    forall id | id in entries ensures entries[id].id == id && !Settled(entries, entries[id]) { EntryIn(list, id); }
    hide Settled, UniqueIds, Sorted, Entries, IsMerge, FromServer, IdsFixed;
    if k == 0 {
      assert Unsettled(entries) == entries;
    } else {
      MergesAsOne(list, pages, deleted, lists, k - 1);
      hide Absorb, Unsettled, Tidy;
      var p, q := Flat(pages[..k - 1]), pages[k - 1];
      MergeIsTidy(lists[k - 1], q, deleted, lists[k]);
      MergeEntries(lists[k - 1], q, deleted, lists[k]);
      assert pages[..k][..k - 1] == pages[..k - 1];
      AbsorbAppend(entries, p, q, deleted);
      FlatInPart(pages, k);
      FixedInPart(entries, p + q, Flat(pages), deleted);
      EarlyOrLate(entries, p, q, deleted);
    }
  }

  lemma FlatInPart(pages: seq<seq<Message>>, k: nat)
    requires k <= |pages|
    ensures forall m :: m in Flat(pages[..k]) ==> m in Flat(pages)
  {
    forall m | m in Flat(pages[..k]) ensures m in Flat(pages) {
      FlatHolds(pages[..k], m);
      FlatHolds(pages, m);
    }
  }

  /** Pages of the server's that bring the same messages, in any order and split in any way, give the same list. */
  lemma SameMessagesMerge(list: seq<Message>, pages: seq<seq<Message>>, others: seq<seq<Message>>, deleted: set<nat>,
                          lists: seq<seq<Message>>, lists2: seq<seq<Message>>)
    requires Tidy(list) && IsMerges(list, pages, deleted, lists) && IsMerges(list, others, deleted, lists2)
    requires forall k :: 0 <= k < |pages| ==> FromServer(pages[k])
    requires forall k :: 0 <= k < |others| ==> FromServer(others[k])
    requires forall m :: m in Flat(pages) <==> m in Flat(others)
    requires Determined(Entries(list), Flat(pages), deleted) && IdsFixed(Entries(list), Flat(pages), deleted)
    ensures lists[|pages|] == lists2[|others|]
  {
    var entries := Entries(list);
    forall id | id in entries ensures entries[id].id == id { EntryIn(list, id); }
    hide IsMerge, Entries, Absorb, Determined, Unsettled, FromServer, IdsFixed, Settled, UniqueIds, Sorted, Flat;
    FixedInPart(entries, Flat(others), Flat(pages), deleted);
    MergesAsOne(list, pages, deleted, lists, |pages|);
    MergesAsOne(list, others, deleted, lists2, |others|);
    assert pages[..|pages|] == pages && others[..|others|] == others;
    SameMessagesAbsorb(entries, Flat(pages), Flat(others), deleted);
    SameEntries(lists[|pages|], lists2[|others|]);
  }

  /** Any number of pages of the server's, merged in any order, give the same list. */
  lemma MergeOrderIrrelevant(list: seq<Message>, pages: seq<seq<Message>>, others: seq<seq<Message>>, deleted: set<nat>,
                             lists: seq<seq<Message>>, lists2: seq<seq<Message>>)
    requires Tidy(list) && IsMerges(list, pages, deleted, lists) && IsMerges(list, others, deleted, lists2)
    requires multiset(pages) == multiset(others) && forall k :: 0 <= k < |pages| ==> FromServer(pages[k])
    requires Determined(Entries(list), Flat(pages), deleted) && IdsFixed(Entries(list), Flat(pages), deleted)
    ensures lists[|pages|] == lists2[|others|]
  {
    hide IsMerges, Tidy, FromServer, Determined, IdsFixed;
    SamePages(pages, others);
    SamePages(others, pages);
    forall k | 0 <= k < |others| ensures FromServer(others[k]) { assert others[k] in pages; }
    SameMessagesMerge(list, pages, others, deleted, lists, lists2);
  }

  lemma SamePages(pages: seq<seq<Message>>, others: seq<seq<Message>>)
    requires multiset(pages) == multiset(others)
    ensures forall page :: page in pages ==> page in others
    ensures forall m :: m in Flat(pages) ==> m in Flat(others)
  {
    forall page | page in pages ensures page in others { assert page in multiset(pages); }
    forall m | m in Flat(pages) ensures m in Flat(others) {
      FlatHolds(pages, m);
      FlatHolds(others, m);
      var k :| 0 <= k < |pages| && m in pages[k];
      assert pages[k] in others;
      var j :| 0 <= j < |others| && others[j] == pages[k];
    }
  }

  // ---------------------------------------------------------------------------------------------
  // reconcilePage
  // ---------------------------------------------------------------------------------------------

  /** The page's first message by posting order. */
  ghost predicate IsOldest(page: seq<Message>, oldest: Option<Message>) {
    if page == [] then oldest.None?
    else oldest.Some? && oldest.value in page && forall m :: m in page ==> InOrder(oldest.value, m)
  }

  predicate Kept(m: Message, page: seq<Message>, oldest: Option<Message>, asOf: Stamp, complete: bool) {
    || m.pending || m.failed
    || (exists i :: 0 <= i < |page| && page[i].id == m.id)
    || IsAfter(m.createdAt, asOf)
    || (!complete && oldest.Some? && ByTime(m, oldest.value) < 0)
  }

  ghost predicate IsKept(list: seq<Message>, page: seq<Message>, oldest: Option<Message>, asOf: Stamp, complete: bool,
                         kept: seq<Message>) {
    && (forall m :: m in kept <==> m in list && Kept(m, page, oldest, asOf, complete))
    && (UniqueIds(list) ==> UniqueIds(kept))
  }

  method OldestOf(page: seq<Message>) returns (oldest: Option<Message>)
    ensures IsOldest(page, oldest)
  {
    oldest := None;
    var i := 0;
    while i < |page|
      invariant 0 <= i <= |page| && IsOldest(page[..i], oldest)
    {
      assert page[..i + 1] == page[..i] + [page[i]];
      if oldest.None? || ByTime(page[i], oldest.value) < 0 {
        if oldest.Some? { BeforeOldest(page[..i], oldest.value, page[i]); }
        oldest := Some(page[i]);
      }
      i := i + 1;
    }
    assert page[..i] == page;
  }

  lemma BeforeOldest(page: seq<Message>, oldest: Message, m: Message)
    requires ByTime(m, oldest) < 0 && forall x :: x in page ==> InOrder(oldest, x)
    ensures forall x :: x in page ==> InOrder(m, x)
  {}

  /**
   * `reconcilePage`. Beside the new list it hands back what it was made from: the messages of
   * the old list that stayed, and the page's oldest message.
   */
  method ReconcilePage(list: seq<Message>, page: seq<Message>, asOf: Stamp, complete: bool, deleted: set<nat>)
    returns (out: seq<Message>, kept: seq<Message>, oldest: Option<Message>)
    ensures IsOldest(page, oldest) && IsKept(list, page, oldest, asOf, complete, kept) && IsMerge(kept, page, deleted, out)
  {
    var first := OldestOf(page);
    oldest := first;
    var keep: seq<Message> := [];
    var i := 0;
    while i < |list|
      invariant 0 <= i <= |list|
      invariant forall m :: m in keep <==> m in list[..i] && Kept(m, page, first, asOf, complete)
      invariant UniqueIds(list) ==> UniqueIds(keep)
    {
      assert list[..i + 1] == list[..i] + [list[i]];
      if Kept(list[i], page, first, asOf, complete) {
        if UniqueIds(list) { OneMore(list, i, keep); }
        keep := keep + [list[i]];
      }
      i := i + 1;
    }
    assert list[..i] == list;
    kept := keep;
    var next, same := MergeMessages(keep, page, deleted);
    out := if next == list then list else next;
  }

  lemma OneMore(list: seq<Message>, i: nat, keep: seq<Message>)
    requires UniqueIds(list) && i < |list| && UniqueIds(keep) && forall m :: m in keep ==> m in list[..i]
    ensures UniqueIds(keep + [list[i]])
  {
    forall k | 0 <= k < |keep| ensures keep[k].id != list[i].id {
      assert keep[k] in list[..i];
      var j :| 0 <= j < i && list[j] == keep[k];
    }
  }

  /** The page is the newest suffix of what the server had: all of it, or everything it leaves out is older. */
  ghost predicate NewestSuffix(rows: seq<Message>, page: seq<Message>, complete: bool) {
    && FromServer(rows)
    && (forall p :: p in page ==> p in rows)
    && (complete ==> forall r :: r in rows ==> r in page)
    && (!complete ==> page != [] && forall r, p :: r in rows && r !in page && p in page ==> ByTime(r, p) < 0)
  }

  lemma AbsorbKeepsIds(entries: map<nat, Message>, incoming: seq<Message>, deleted: set<nat>, id: nat)
    ensures id in Absorb(entries, incoming, deleted)
            <==> id in entries || (id !in deleted && exists i :: 0 <= i < |incoming| && incoming[i].id == id)
  {
    AbsorbTakesNewest(entries, incoming, deleted, id);
    hide Absorb, NoLater;
    if id !in deleted && exists i :: 0 <= i < |incoming| && incoming[i].id == id {
      var i :| 0 <= i < |incoming| && incoming[i].id == id;
      assert Candidate(entries, incoming, deleted, id, Blank(incoming[i], deleted));
    }
    if id in entries { assert Candidate(entries, incoming, deleted, id, entries[id]); }
  }

  /** A server message a merge is given, or has, is in the result. */
  lemma ServerCopyStays(list: seq<Message>, page: seq<Message>, deleted: set<nat>, out: seq<Message>, m: Message)
    requires IsMerge(list, page, deleted, out) && UniqueIds(list) && FromServer(page) && m in list && !Local(m)
    ensures m.id in Entries(out)
  {
    InEntries(list, m);
    if Changes(Entries(list), page, deleted) {
      var after := Absorb(Entries(list), page, deleted);
      AbsorbTakesNewest(Entries(list), page, deleted, m.id);
      hide Absorb, Entries, Settled;
      assert Candidate(Entries(list), page, deleted, m.id, m);
      assert !Local(after[m.id]) by {
        if after[m.id] != m {
          var i :| 0 <= i < |page| && page[i].id == m.id && Blank(page[i], deleted) == after[m.id];
          assert page[i] in page;
        }
      }
      NotLocalStays(after, m.id);
    } else {
      hide Entries;
      InEntries(out, m);
    }
  }

  /** No message the server still has is dropped. */
  lemma ReconcileKeepsServerMessages(list: seq<Message>, page: seq<Message>, rows: seq<Message>, asOf: Stamp, complete: bool,
                                     deleted: set<nat>, oldest: Option<Message>, kept: seq<Message>, out: seq<Message>,
                                     m: Message, row: Message)
    requires UniqueIds(list) && NewestSuffix(rows, page, complete)
    requires IsOldest(page, oldest) && IsKept(list, page, oldest, asOf, complete, kept) && IsMerge(kept, page, deleted, out)
    requires m in list && !Local(m) && row in rows && row.id == m.id && row.createdAt == m.createdAt
    ensures m.id in Entries(out)
  {
    hide IsMerge, UniqueIds, Entries;
    if row in page {
      var i :| 0 <= i < |page| && page[i] == row;
      assert page[i].id == m.id;
    } else {
      assert oldest.value in page && ByTime(row, oldest.value) < 0;
      assert ByTime(m, oldest.value) < 0;
    }
    assert FromServer(page);
    ServerCopyStays(kept, page, deleted, out, m);
  }

  /** A message created no later than the snapshot, inside the window, that the server no longer had, goes. */
  lemma ReconcileDropsDeletedMessages(list: seq<Message>, page: seq<Message>, rows: seq<Message>, asOf: Stamp, complete: bool,
                                      deleted: set<nat>, oldest: Option<Message>, kept: seq<Message>, out: seq<Message>,
                                      m: Message)
    requires UniqueIds(list) && NewestSuffix(rows, page, complete)
    requires IsOldest(page, oldest) && IsKept(list, page, oldest, asOf, complete, kept) && IsMerge(kept, page, deleted, out)
    requires m in list && !Local(m) && !IsAfter(m.createdAt, asOf) && forall r :: r in rows ==> r.id != m.id
    requires complete || InOrder(oldest.value, m)
    ensures m.id !in Entries(out)
  {
    hide IsMerge, Entries;
    forall i | 0 <= i < |page| ensures page[i].id != m.id { assert page[i] in page; }
    assert m !in kept;
    forall x | x in kept ensures x.id != m.id {
      InEntries(list, m);
      InEntries(list, x);
    }
    Absent(kept, page, deleted, out, m.id);
  }

  lemma Absent(list: seq<Message>, page: seq<Message>, deleted: set<nat>, out: seq<Message>, id: nat)
    requires IsMerge(list, page, deleted, out)
    requires (forall x :: x in list ==> x.id != id) && forall i :: 0 <= i < |page| ==> page[i].id != id
    ensures id !in Entries(out)
  {
    hide Entries, Absorb, Settled, Changes, UniqueIds, Sorted;
    if id in Entries(list) { EntryIn(list, id); }
    if id in Entries(out) {
      if !Changes(Entries(list), page, deleted) { EntryIn(out, id); }
      AbsorbKeepsIds(Entries(list), page, deleted, id);
    }
  }

  /** Every unsent or failed bubble stays as it is, except exactly those the page shows went through. */
  lemma ReconcileKeepsBubbles(list: seq<Message>, page: seq<Message>, asOf: Stamp, complete: bool,
                              deleted: set<nat>, oldest: Option<Message>, kept: seq<Message>, out: seq<Message>, m: Message)
    requires Tidy(list) && FromServer(page)
    requires IsOldest(page, oldest) && IsKept(list, page, oldest, asOf, complete, kept) && IsMerge(kept, page, deleted, out)
    requires m in list && Local(m)
    requires forall x, p :: x in list && p in page && x.id == p.id ==> !Local(x) && SentKey(x) == SentKey(p)
    requires UniqueIds(page)
    ensures At(Entries(out), m.id) == Some(m)
            <==> SentKey(m).None? || forall p :: p in page && p.id !in deleted ==> SentKey(p) != SentKey(m)
  {
    var entries, after := Entries(kept), Absorb(Entries(kept), page, deleted);
    hide Sorted, InOrder;
    assert m in kept;
    hide Kept;
    InEntries(kept, m);
    forall i | 0 <= i < |page| ensures page[i].id != m.id { assert page[i] in page; }
    AbsorbElsewhere(entries, page, deleted, m.id);
    assert Settled(after, m) <==> SentKey(m).Some? && exists p :: p in page && p.id !in deleted && SentKey(p) == SentKey(m) by {
      SettledByPage(list, kept, page, deleted, m);
    }
    if Changes(entries, page, deleted) {
      hide Entries, Absorb, Settled, UniqueIds;
    } else {
      NoChange(entries, page, deleted);
      NotSettledBefore(list, kept, m);
      hide Entries, Absorb, Settled, UniqueIds;
    }
  }

  lemma NotSettledBefore(list: seq<Message>, kept: seq<Message>, m: Message)
    requires Tidy(list) && UniqueIds(kept) && m in list && forall x :: x in kept ==> x in list
    ensures !Settled(Entries(kept), m)
  {
    SettledInList(list, m);
    SettledInList(kept, m);
  }

  lemma SettledByPage(list: seq<Message>, kept: seq<Message>, page: seq<Message>, deleted: set<nat>, m: Message)
    requires Tidy(list) && FromServer(page) && UniqueIds(page) && UniqueIds(kept) && (forall x :: x in kept ==> x in list)
    requires m in list && Local(m)
    requires forall x, p :: x in list && p in page && x.id == p.id ==> !Local(x) && SentKey(x) == SentKey(p)
    ensures Settled(Absorb(Entries(kept), page, deleted), m)
            <==> SentKey(m).Some? && exists p :: p in page && p.id !in deleted && SentKey(p) == SentKey(m)
  {
    var entries, after := Entries(kept), Absorb(Entries(kept), page, deleted);
    NotSettledBefore(list, kept, m);
    hide Absorb, Entries, UniqueIds, Tidy, Settled;
    if SentKey(m).Some? && exists p :: p in page && p.id !in deleted && SentKey(p) == SentKey(m) {
      var i :| 0 <= i < |page| && page[i].id !in deleted && SentKey(page[i]) == SentKey(m);
      PageSettles(list, kept, page, deleted, m, i);
    }
    if Settled(after, m) { SettledFromPage(entries, page, deleted, m); }
  }

  lemma PageSettles(list: seq<Message>, kept: seq<Message>, page: seq<Message>, deleted: set<nat>, m: Message, i: nat)
    requires FromServer(page) && UniqueIds(page) && forall x :: x in kept ==> x in list
    requires Local(m) && SentKey(m).Some? && i < |page| && page[i].id !in deleted && SentKey(page[i]) == SentKey(m)
    requires forall x, p :: x in list && p in page && x.id == p.id ==> !Local(x) && SentKey(x) == SentKey(p)
    ensures Settled(Absorb(Entries(kept), page, deleted), m)
  {
    var entries, p := Entries(kept), page[i];
    UniquePageAt(entries, page, deleted, i);
    assert p in page;
    if p.id in entries {
      EntryIn(kept, p.id);
      assert !Local(entries[p.id]) && SentKey(entries[p.id]) == SentKey(p);
    }
    hide Absorb, Entries, UniqueIds, FromServer;
    var v := Absorb(entries, page, deleted)[p.id];
    assert v == Fresher(At(entries, p.id), Blank(p, deleted));
    assert !Local(v) && SentKey(v) == SentKey(m);
    hide Local, SentKey, Fresher, Blank;
  }

  lemma SettledFromPage(entries: map<nat, Message>, page: seq<Message>, deleted: set<nat>, m: Message)
    requires Settled(Absorb(entries, page, deleted), m) && !Settled(entries, m)
    ensures SentKey(m).Some? && exists p :: p in page && p.id !in deleted && SentKey(p) == SentKey(m)
  {
    var after := Absorb(entries, page, deleted);
    var id :| id in after && !Local(after[id]) && SentKey(after[id]) == SentKey(m);
    AbsorbTakesNewest(entries, page, deleted, id);
    hide Absorb;
    assert Candidate(entries, page, deleted, id, after[id]);
    var i :| 0 <= i < |page| && page[i].id == id && Blank(page[i], deleted) == after[id];
    assert page[i] in page && page[i].id !in deleted && SentKey(page[i]) == SentKey(m);
  }
}
