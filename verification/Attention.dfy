/** lib/attention.ts: choosing the rows of the Overview's attention list. */
module Attention {
  import opened Sorting

  datatype Source = Support | Feedback | ChatReports | ChatQuestions | FollowUps

  datatype Urgency = Overdue | Due | Waiting

  /** `since` is when the wait began, `key` the rank of the item's key among keys. */
  datatype Item = Item(key: int, source: Source, urgency: Urgency, since: int)

  function Rank(u: Urgency): int {
    match u
    case Overdue => 0
    case Due => 1
    case Waiting => 2
  }

  function CompareAttention(a: Item, b: Item): int {
    if Rank(a.urgency) != Rank(b.urgency) then Rank(a.urgency) - Rank(b.urgency)
    else if a.since != b.since then a.since - b.since
    else a.key - b.key
  }

  /** `a` is at least as pressing as `b`. */
  predicate Before(a: Item, b: Item) { CompareAttention(a, b) <= 0 }

  /** Overdue comes before due, and due before waiting; then what has waited longest, and then the key. */
  lemma PressingFirst(a: Item, b: Item)
    ensures a.urgency.Overdue? && !b.urgency.Overdue? ==> Before(a, b) && !Before(b, a)
    ensures a.urgency.Due? && b.urgency.Waiting? ==> Before(a, b) && !Before(b, a)
    ensures a.urgency == b.urgency && a.since != b.since ==> (Before(a, b) <==> a.since < b.since)
    ensures a.urgency == b.urgency && a.since == b.since ==> (Before(a, b) <==> a.key <= b.key)
  {}

  ghost predicate DistinctKeys(items: seq<Item>) { forall i, j :: 0 <= i < j < |items| ==> items[i].key != items[j].key }

  /** The most pressing item of its source. */
  ghost predicate IsFirst(items: seq<Item>, x: Item) {
    x in items && forall y :: y in items && y.source == x.source ==> Before(x, y)
  }

  /** The first item of each source, in order. */
  function Firsts(sorted: seq<Item>): seq<Item> {
    if sorted == [] then [] else
      var front, last := sorted[..|sorted| - 1], sorted[|sorted| - 1];
      if HasSource(Firsts(front), last.source) then Firsts(front) else Firsts(front) + [last]
  }

  predicate HasSource(items: seq<Item>, s: Source) { exists i :: 0 <= i < |items| && items[i].source == s }

  /** The items not chosen, in order. */
  function Others(sorted: seq<Item>, chosen: seq<Item>): seq<Item> {
    if sorted == [] then [] else
      var front, last := sorted[..|sorted| - 1], sorted[|sorted| - 1];
      if last in chosen then Others(front, chosen) else Others(front, chosen) + [last]
  }

  /** One item of each source, its most pressing, in order. */
  ghost predicate AreFirsts(sorted: seq<Item>, firsts: seq<Item>) {
    && (forall x :: x in firsts ==> IsFirst(sorted, x))
    && (forall x :: x in sorted ==> HasSource(firsts, x.source))
    && Sorted(Before, firsts)
    && forall i, j :: 0 <= i < j < |firsts| ==> firsts[i].source != firsts[j].source
  }

  ghost predicate SameItems(xs: seq<Item>, ys: seq<Item>) { forall x :: x in xs <==> x in ys }

  lemma {:induction false} FirstsMean(sorted: seq<Item>)
    requires Sorted(Before, sorted)
    ensures AreFirsts(sorted, Firsts(sorted))
  {
    if sorted != [] {
      var front, last := sorted[..|sorted| - 1], sorted[|sorted| - 1];
      assert sorted == front + [last];
      FirstsMean(front);
      forall y | y in front ensures Before(y, last) {}
      forall x | x in Firsts(front) ensures Before(x, last) { assert IsFirst(front, x); }
      forall x | x in sorted ensures HasSource(Firsts(sorted), x.source) {
        if HasSource(Firsts(front), x.source) {
          var i :| 0 <= i < |Firsts(front)| && Firsts(front)[i].source == x.source;
          assert Firsts(sorted)[i].source == x.source;
        } else {
          assert Firsts(sorted)[|Firsts(front)|].source == x.source;
        }
      }
      if !HasSource(Firsts(front), last.source) {
        forall y | y in front ensures y.source != last.source {}
      }
    }
  }

  lemma {:induction false} OthersMean(sorted: seq<Item>, chosen: seq<Item>)
    requires forall i, j :: 0 <= i < j < |sorted| ==> sorted[i] != sorted[j]
    ensures forall x :: x in Others(sorted, chosen) <==> x in sorted && x !in chosen
    ensures forall i, j :: 0 <= i < j < |Others(sorted, chosen)| ==> Others(sorted, chosen)[i] != Others(sorted, chosen)[j]
  {
    if sorted != [] {
      var front, last := sorted[..|sorted| - 1], sorted[|sorted| - 1];
      assert sorted == front + [last];
      OthersMean(front, chosen);
      forall x | x in front ensures x != last {
        var i :| 0 <= i < |front| && front[i] == x;
        assert sorted[i] != sorted[|front|];
      }
    }
  }

  ghost predicate NoRepeats(items: seq<Item>) { forall i, j :: 0 <= i < j < |items| ==> items[i] != items[j] }

  lemma BeforeIsTotal()
    ensures TotalPreorder(Before)
  {}

  /** What is asked of the rows shown. */
  ghost predicate WellPicked(items: seq<Item>, limit: int, out: seq<Item>) {
    && |out| == (if limit <= 0 then 0 else if limit < |items| then limit else |items|)
    && Sorted(Before, out) && NoRepeats(out) && (forall x :: x in out ==> x in items)
    // each source shows its most pressing rows
    && (forall x, y :: x in out && y in items && y !in out && x.source == y.source ==> Before(x, y))
    // a row that is not its source's first is at least as pressing as everything left out
    && (forall x, y :: x in out && !IsFirst(items, x) && y in items && y !in out ==> Before(x, y))
  }

  lemma NoItems()
    ensures Firsts([]) == []
  {}

  lemma NothingElse(chosen: seq<Item>)
    ensures Others([], chosen) == []
  {}

  lemma FirstsNext(sorted: seq<Item>, i: nat)
    requires i < |sorted|
    ensures Firsts(sorted[..i + 1])
            == if HasSource(Firsts(sorted[..i]), sorted[i].source) then Firsts(sorted[..i]) else Firsts(sorted[..i]) + [sorted[i]]
  {
    assert sorted[..i + 1][..i] == sorted[..i];
  }

  lemma OthersNext(sorted: seq<Item>, chosen: seq<Item>, i: nat)
    requires i < |sorted|
    ensures Others(sorted[..i + 1], chosen)
            == if sorted[i] in chosen then Others(sorted[..i], chosen) else Others(sorted[..i], chosen) + [sorted[i]]
  {
    assert sorted[..i + 1][..i] == sorted[..i];
  }

  /** Only sources' first rows are shown, none less pressing than a first left out. */
  ghost predicate OnlyFirsts(items: seq<Item>, out: seq<Item>) {
    forall x, y :: x in out && IsFirst(items, y) && y !in out ==> IsFirst(items, x) && Before(x, y)
  }

  ghost function Sources(items: seq<Item>): set<Source> { set x | x in items :: x.source }

  lemma SourceAdded(firsts: seq<Item>, last: Item, s: Source)
    ensures HasSource(firsts + [last], s) <==> HasSource(firsts, s) || s == last.source
  {
    var all := firsts + [last];
    assert all[|firsts|] == last && forall i :: 0 <= i < |firsts| ==> all[i] == firsts[i];
  }

  lemma {:induction false} FirstOfEach(sorted: seq<Item>)
    ensures |Firsts(sorted)| == |Sources(sorted)|
    ensures forall s :: HasSource(Firsts(sorted), s) <==> s in Sources(sorted)
  {
    if sorted == [] {
      assert Sources(sorted) == {};
    } else {
      var front, last := sorted[..|sorted| - 1], sorted[|sorted| - 1];
      var firsts := Firsts(front);
      FirstOfEach(front);
      SourcesGrow(front, last);
      assert sorted == front + [last];
      assert Firsts(sorted) == if HasSource(firsts, last.source) then firsts else firsts + [last];
      hide Firsts, HasSource, Sources;
      forall s ensures HasSource(firsts + [last], s) <==> HasSource(firsts, s) || s == last.source {
        SourceAdded(firsts, last, s);
      }
      if HasSource(firsts, last.source) {
        assert Sources(sorted) == Sources(front);
      } else {
        assert |Sources(sorted)| == |Sources(front)| + 1;
      }
    }
  }

  lemma SourcesGrow(front: seq<Item>, last: Item)
    ensures Sources(front + [last]) == Sources(front) + {last.source}
  {}

  /** There are as many first rows as sources. */
  lemma OneFirstEach(items: seq<Item>)
    requires DistinctKeys(items)
    ensures |Firsts(Sort(Before, items))| == |Sources(items)|
  {
    FirstOfEach(Sort(Before, items));
    SortedItems(items);
    hide Sort, Firsts, Before;
    assert Sources(Sort(Before, items)) == Sources(items);
  }

  method PickAttention(items: seq<Item>, limit: int) returns (out: seq<Item>)
    requires DistinctKeys(items)
    ensures WellPicked(items, limit, out)
    ensures limit > 0 && |Sources(items)| <= limit ==> forall x :: x in items ==> HasSource(out, x.source)
    ensures limit > 0 && |Sources(items)| > limit ==> OnlyFirsts(items, out)
  {
    hide IsFirst, Sort, Sorted, Before, WellPicked, DistinctKeys, Firsts, Others, HasSource, OnlyFirsts;
    if limit <= 0 { assert WellPicked(items, limit, []) by { NoneShown(items, limit); } return []; }
    var sorted := Sort(Before, items);
    SortedItems(items);
    OneFirstEach(items);
    var firstOf: seq<Item> := [];
    var i := 0;
    NoItems();
    while i < |sorted|
      invariant 0 <= i <= |sorted| && firstOf == Firsts(sorted[..i])
    {
      FirstsNext(sorted, i);
      if !HasSource(firstOf, sorted[i].source) { firstOf := firstOf + [sorted[i]]; }
      i := i + 1;
    }
    assert sorted[..i] == sorted;
    var picked: seq<Item> := [];
    i := 0;
    while i < |firstOf| && |picked| < limit
      invariant 0 <= i <= |firstOf| && picked == firstOf[..i] && i <= limit
    {
      picked := picked + [firstOf[i]];
      i := i + 1;
    }
    var chosen := picked;
    i := 0;
    NothingElse(chosen);
    while i < |sorted| && |picked| < limit
      invariant 0 <= i <= |sorted| && |picked| <= limit
      invariant picked == chosen + Others(sorted[..i], chosen)
    {
      OthersNext(sorted, chosen, i);
      if sorted[i] !in chosen { picked := picked + [sorted[i]]; }
      i := i + 1;
    }
    out := Sort(Before, picked);
    PickedWell(items, limit, chosen, i, out);
    if |firstOf| <= limit {
      assert chosen == firstOf;
      EverySourceShown(items, limit, out);
    } else {
      OnlyFirstsShown(items, limit, out);
    }
  }

  lemma SortedItems(items: seq<Item>)
    requires DistinctKeys(items)
    ensures var sorted := Sort(Before, items);
            Sorted(Before, sorted) && NoRepeats(sorted) && |sorted| == |items| && SameItems(sorted, items)
  {
    BeforeIsTotal();
    SortSorts(Before, items);
    SortPermutes(Before, items);
    var sorted := Sort(Before, items);
    forall x ensures x in sorted <==> x in items { assert x in multiset(sorted) <==> x in multiset(items); }
    SingleCopies(items);
    Repeats(sorted);
  }

  lemma {:induction false} SingleCopies(items: seq<Item>)
    requires DistinctKeys(items)
    ensures forall x :: multiset(items)[x] <= 1
  {
    if items != [] {
      var front, last := items[..|items| - 1], items[|items| - 1];
      SingleCopies(front);
      assert items == front + [last];
      forall x | x in front ensures x != last {
        var i :| 0 <= i < |front| && front[i] == x;
        assert items[i].key != items[|front|].key;
      }
    }
  }

  lemma Repeats(items: seq<Item>)
    requires forall x :: multiset(items)[x] <= 1
    ensures NoRepeats(items)
  {
    forall i, j | 0 <= i < j < |items| ensures items[i] != items[j] {
      Twice(items, i, j);
    }
  }

  /** The rows picked before their last sort. */
  lemma PickedWell(items: seq<Item>, limit: int, chosen: seq<Item>, i: nat, out: seq<Item>)
    requires DistinctKeys(items) && limit > 0
    requires var sorted := Sort(Before, items);
             var firsts := Firsts(sorted);
             var m := if |firsts| < limit then |firsts| else limit;
             && chosen == firsts[..m] && i <= |sorted|
             && |chosen + Others(sorted[..i], chosen)| <= limit
             && (i == |sorted| || |chosen + Others(sorted[..i], chosen)| == limit)
             && out == Sort(Before, chosen + Others(sorted[..i], chosen))
    ensures WellPicked(items, limit, out)
    ensures forall x :: x in chosen ==> x in out
    ensures forall x :: x in chosen ==> IsFirst(items, x)
    ensures |chosen| == limit ==> forall x :: x in out ==> x in chosen
  {
    var sorted, head := Sort(Before, items), Sort(Before, items)[..i];
    var firsts := Firsts(sorted);
    var picked := chosen + Others(head, chosen);
    SortedItems(items);
    FirstsMean(sorted);
    ChosenFits(sorted, firsts, |chosen|, chosen);
    hide Firsts, Others, Sort, DistinctKeys, Before, IsFirst, Sorted, HasSource, NoRepeats;
    PickedOnce(sorted, head, chosen, picked);
    SortedRows(picked);
    PickedCount(sorted, picked, limit, i);
    OthersBeforeTheRest(sorted, i, picked, chosen);
    SameFirsts(sorted, items, chosen);
    Assemble(items, limit, chosen, out);
  }

  /** With room for every source, each appears. */
  lemma EverySourceShown(items: seq<Item>, limit: int, out: seq<Item>)
    requires DistinctKeys(items) && |Firsts(Sort(Before, items))| <= limit
    requires forall x :: x in Firsts(Sort(Before, items)) ==> x in out
    ensures forall x :: x in items ==> HasSource(out, x.source)
  {
    SortedItems(items);
    FirstsMean(Sort(Before, items));
    hide Firsts, Sort, DistinctKeys, Before, IsFirst, Sorted, HasSource, NoRepeats, AreFirsts, SameItems;
    CoversSources(Sort(Before, items), items, Firsts(Sort(Before, items)), out);
  }

  /** Without, only sources' firsts are shown, the most pressing of them. */
  lemma OnlyFirstsShown(items: seq<Item>, limit: int, out: seq<Item>)
    requires DistinctKeys(items) && 0 < limit < |Firsts(Sort(Before, items))|
    requires SameItems(out, Firsts(Sort(Before, items))[..limit])
    ensures OnlyFirsts(items, out)
  {
    SortedItems(items);
    FirstsMean(Sort(Before, items));
    hide Firsts, Sort, DistinctKeys, Before, IsFirst, Sorted, HasSource, NoRepeats, AreFirsts, SameItems, OnlyFirsts;
    LimitedToFirsts(Firsts(Sort(Before, items)), Sort(Before, items), items, limit, out, Firsts(Sort(Before, items))[..limit]);
  }

  lemma ChosenFits(sorted: seq<Item>, firsts: seq<Item>, m: nat, chosen: seq<Item>)
    requires m <= |firsts| && chosen == firsts[..m] && AreFirsts(sorted, firsts)
    ensures NoRepeats(chosen) && forall x :: x in chosen ==> x in sorted && x in firsts && IsFirst(sorted, x)
  {
    forall i, j | 0 <= i < j < |chosen| ensures chosen[i] != chosen[j] { assert firsts[i].source != firsts[j].source; }
    forall x | x in chosen ensures x in firsts {
      var k :| 0 <= k < |chosen| && chosen[k] == x;
      assert firsts[k] == x;
    }
    hide IsFirst;
  }

  lemma SameFirsts(sorted: seq<Item>, items: seq<Item>, chosen: seq<Item>)
    requires SameItems(sorted, items) && forall x :: x in chosen ==> IsFirst(sorted, x)
    ensures forall x :: x in chosen ==> IsFirst(items, x)
  {}

  lemma KeysTell(items: seq<Item>, x: Item, y: Item)
    requires DistinctKeys(items) && x in items && y in items && Before(x, y) && Before(y, x)
    ensures x == y
  {}

  lemma Assemble(items: seq<Item>, limit: int, chosen: seq<Item>, out: seq<Item>)
    requires limit > 0 && |out| == (if limit < |items| then limit else |items|)
    requires Sorted(Before, out) && NoRepeats(out) && forall x :: x in out ==> x in items
    requires forall x :: x in chosen ==> IsFirst(items, x)
    requires forall x, y :: x in out && x !in chosen && y in items && y !in out ==> Before(x, y)
    ensures WellPicked(items, limit, out)
  {
    hide Before, Sorted, NoRepeats;
  }

  /** What the last pass adds is at least as pressing as what it never reached. */
  lemma OthersBeforeTheRest(sorted: seq<Item>, i: nat, picked: seq<Item>, chosen: seq<Item>)
    requires Sorted(Before, sorted) && i <= |sorted| && (forall x :: x in sorted[..i] ==> x in picked)
    requires forall x :: x in picked ==> x in chosen || x in sorted[..i]
    ensures forall x, y :: x in picked && x !in chosen && y in sorted && y !in picked ==> Before(x, y)
  {
    forall x, y | x in picked && x !in chosen && y in sorted && y !in picked ensures Before(x, y) {
      var a :| 0 <= a < i && sorted[..i][a] == x;
      var b :| 0 <= b < |sorted| && sorted[b] == y;
      forall l | 0 <= l < i ensures sorted[l] in picked { assert sorted[..i][l] == sorted[l]; }
      assert Before(sorted[a], sorted[b]);
    }
  }

  lemma NoneShown(items: seq<Item>, limit: int)
    requires limit <= 0
    ensures WellPicked(items, limit, [])
  {}

  lemma PickedOnce(sorted: seq<Item>, head: seq<Item>, chosen: seq<Item>, picked: seq<Item>)
    requires NoRepeats(sorted) && NoRepeats(chosen) && head <= sorted && picked == chosen + Others(head, chosen)
    requires forall x :: x in chosen ==> x in sorted
    ensures NoRepeats(picked) && forall x :: x in picked ==> x in sorted
    ensures forall x :: x in head ==> x in picked
    ensures forall x :: x in picked ==> x in chosen || x in head
    ensures forall x :: x in chosen ==> x in picked
    ensures |picked| == |chosen| ==> picked == chosen
  {
    OthersMean(head, chosen);
    hide Others;
    var rest := Others(head, chosen);
    forall k | 0 <= k < |rest| ensures rest[k] !in chosen { assert rest[k] in rest; }
  }

  lemma SortedRows(picked: seq<Item>)
    requires NoRepeats(picked)
    ensures var out := Sort(Before, picked);
            Sorted(Before, out) && NoRepeats(out) && |out| == |picked| && forall x :: x in out <==> x in picked
  {
    BeforeIsTotal();
    SortSorts(Before, picked);
    SortPermutes(Before, picked);
    var out := Sort(Before, picked);
    forall x ensures x in out <==> x in picked { assert x in multiset(out) <==> x in multiset(picked); }
    forall x ensures multiset(picked)[x] <= 1 { OneCopy(picked, x); }
    Repeats(out);
  }

  lemma {:induction false} OneCopy(items: seq<Item>, x: Item)
    requires NoRepeats(items)
    ensures multiset(items)[x] <= 1
  {
    if items != [] {
      var front, last := items[..|items| - 1], items[|items| - 1];
      OneCopy(front, x);
      assert items == front + [last];
      forall k | 0 <= k < |front| ensures front[k] != last { assert items[k] != items[|front|]; }
    }
  }

  lemma PickedCount(sorted: seq<Item>, picked: seq<Item>, limit: int, i: nat)
    requires NoRepeats(sorted) && NoRepeats(picked) && i <= |sorted| && 0 < limit
    requires (forall x :: x in picked ==> x in sorted) && (forall x :: x in sorted[..i] ==> x in picked)
    requires |picked| <= limit && (i == |sorted| || |picked| == limit)
    ensures |picked| == if limit < |sorted| then limit else |sorted|
  {
    AsManyAs(sorted);
    AsManyAs(picked);
    NoMoreThan(set x | x in picked, set x | x in sorted);
    if i == |sorted| {
      assert sorted[..i] == sorted;
      NoMoreThan(set x | x in sorted, set x | x in picked);
    }
  }

  lemma LimitedToFirsts(firsts: seq<Item>, sorted: seq<Item>, items: seq<Item>, limit: int, out: seq<Item>, chosen: seq<Item>)
    requires 0 < limit < |firsts| && chosen == firsts[..limit] && SameItems(out, chosen)
    requires SameItems(sorted, items) && AreFirsts(sorted, firsts)
    requires DistinctKeys(items)
    ensures OnlyFirsts(items, out)
  {
    forall x, y | x in out && IsFirst(items, y) && y !in out ensures IsFirst(items, x) && Before(x, y) {
      assert IsFirst(sorted, x);
      var k :| 0 <= k < |firsts| && firsts[k].source == y.source;
      assert IsFirst(sorted, firsts[k]);
      KeysTell(items, firsts[k], y);
      var j :| 0 <= j < limit && firsts[j] == x;
      assert chosen[j] == x && forall l :: 0 <= l < limit ==> chosen[l] == firsts[l];
    }
  }

  lemma CoversSources(sorted: seq<Item>, items: seq<Item>, firsts: seq<Item>, out: seq<Item>)
    requires SameItems(sorted, items) && AreFirsts(sorted, firsts) && forall x :: x in firsts ==> x in out
    ensures forall x :: x in items ==> HasSource(out, x.source)
  {
    forall x | x in items ensures HasSource(out, x.source) {
      var k :| 0 <= k < |firsts| && firsts[k].source == x.source;
      assert firsts[k] in out;
      var j :| 0 <= j < |out| && out[j] == firsts[k];
    }
  }
}
