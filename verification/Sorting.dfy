/** `Array.prototype.sort`: stable, by a comparison that is a total preorder. */
module Sorting {
  /** x goes after everything not greater than it. */
  function Insert<T>(le: (T, T) -> bool, x: T, xs: seq<T>): (r: seq<T>)
    ensures |r| == |xs| + 1
  {
    if xs == [] then [x] else if le(xs[0], x) then [xs[0]] + Insert(le, x, xs[1..]) else [x] + xs
  }

  function Sort<T>(le: (T, T) -> bool, xs: seq<T>): (r: seq<T>)
    ensures |r| == |xs|
  {
    if xs == [] then [] else Insert(le, xs[|xs| - 1], Sort(le, xs[..|xs| - 1]))
  }

  ghost predicate TotalPreorder<T(!new)>(le: (T, T) -> bool) {
    && (forall x, y :: le(x, y) || le(y, x))
    && (forall x, y, z :: le(x, y) && le(y, z) ==> le(x, z))
  }

  ghost predicate Sorted<T>(le: (T, T) -> bool, xs: seq<T>) {
    forall i, j :: 0 <= i < j < |xs| ==> le(xs[i], xs[j])
  }

  lemma {:induction false} InsertPermutes<T>(le: (T, T) -> bool, x: T, xs: seq<T>)
    ensures multiset(Insert(le, x, xs)) == multiset(xs) + multiset{x}
  {
    if xs != [] && le(xs[0], x) {
      InsertPermutes(le, x, xs[1..]);
      assert xs == [xs[0]] + xs[1..];
    }
  }

  lemma {:induction false} InsertSorts<T(!new)>(le: (T, T) -> bool, x: T, xs: seq<T>)
    requires TotalPreorder(le) && Sorted(le, xs)
    ensures Sorted(le, Insert(le, x, xs))
  {
    if xs != [] && le(xs[0], x) {
      InsertSorts(le, x, xs[1..]);
      InsertPermutes(le, x, xs[1..]);
      var rest := Insert(le, x, xs[1..]);
      forall y | y in rest ensures le(xs[0], y) {
        assert y in multiset(rest);
      }
    } else if xs != [] {
      assert le(x, xs[0]);
      forall y | y in xs ensures le(x, y) {
        assert y == xs[0] || y in xs[1..];
      }
    }
  }

  lemma {:induction false} SortPermutes<T>(le: (T, T) -> bool, xs: seq<T>)
    ensures multiset(Sort(le, xs)) == multiset(xs)
  {
    if xs != [] {
      SortPermutes(le, xs[..|xs| - 1]);
      InsertPermutes(le, xs[|xs| - 1], Sort(le, xs[..|xs| - 1]));
      assert xs == xs[..|xs| - 1] + [xs[|xs| - 1]];
    }
  }

  lemma {:induction false} SortSorts<T(!new)>(le: (T, T) -> bool, xs: seq<T>)
    requires TotalPreorder(le)
    ensures Sorted(le, Sort(le, xs))
  {
    if xs != [] {
      SortSorts(le, xs[..|xs| - 1]);
      InsertSorts(le, xs[|xs| - 1], Sort(le, xs[..|xs| - 1]));
    }
  }

  /** The elements of a list are its front's and its last. */
  lemma FrontAndLast<T>(xs: seq<T>)
    requires xs != []
    ensures multiset(xs[..|xs| - 1]) == multiset(xs) - multiset{xs[|xs| - 1]}
  {
    assert xs[..|xs| - 1] + [xs[|xs| - 1]] == xs;
  }

  lemma LastIsTop<T>(le: (T, T) -> bool, xs: seq<T>, x: T)
    requires Sorted(le, xs) && x in xs
    ensures x == xs[|xs| - 1] || le(x, xs[|xs| - 1])
  {}

  /** Two sorted arrangements of the same elements are one, when no two of the elements tie. */
  lemma {:induction false} OneSorting<T>(le: (T, T) -> bool, xs: seq<T>, ys: seq<T>)
    requires Sorted(le, xs) && Sorted(le, ys) && multiset(xs) == multiset(ys)
    requires forall x, y :: x in xs && y in xs && le(x, y) && le(y, x) ==> x == y
    ensures xs == ys
  {
    assert |multiset(xs)| == |xs| && |multiset(ys)| == |ys|;
    if xs != [] {
      var x, y := xs[|xs| - 1], ys[|ys| - 1];
      SameTop(le, xs, ys);
      FrontAndLast(xs);
      FrontAndLast(ys);
      FrontSorted(le, xs);
      FrontSorted(le, ys);
      hide Sorted;
      OneSorting(le, xs[..|xs| - 1], ys[..|ys| - 1]);
    }
  }

  lemma FrontSorted<T>(le: (T, T) -> bool, xs: seq<T>)
    requires Sorted(le, xs) && xs != []
    ensures Sorted(le, xs[..|xs| - 1]) && forall x :: x in xs[..|xs| - 1] ==> x in xs
  {}

  lemma SameTop<T>(le: (T, T) -> bool, xs: seq<T>, ys: seq<T>)
    requires Sorted(le, xs) && Sorted(le, ys) && multiset(xs) == multiset(ys) && xs != [] && ys != []
    requires forall x, y :: x in xs && y in xs && le(x, y) && le(y, x) ==> x == y
    ensures xs[|xs| - 1] == ys[|ys| - 1]
  {
    var x, y := xs[|xs| - 1], ys[|ys| - 1];
    assert x in multiset(xs) && y in multiset(ys);
    LastIsTop(le, xs, y);
    LastIsTop(le, ys, x);
  }

  /** Sorting what is already sorted leaves it as it was. */
  lemma {:induction false} SortOfSorted<T>(le: (T, T) -> bool, xs: seq<T>)
    requires Sorted(le, xs)
    ensures Sort(le, xs) == xs
  {
    if xs != [] {
      SortOfSorted(le, xs[..|xs| - 1]);
      InsertLast(le, xs[|xs| - 1], xs[..|xs| - 1]);
      assert xs == xs[..|xs| - 1] + [xs[|xs| - 1]];
    }
  }

  lemma {:induction false} InsertLast<T>(le: (T, T) -> bool, x: T, xs: seq<T>)
    requires forall y :: y in xs ==> le(y, x)
    ensures Insert(le, x, xs) == xs + [x]
  {
    if xs != [] {
      InsertLast(le, x, xs[1..]);
      assert xs == [xs[0]] + xs[1..];
    }
  }

  lemma Twice<T>(xs: seq<T>, i: nat, j: nat)
    requires i < j < |xs|
    ensures xs[i] == xs[j] ==> multiset(xs)[xs[i]] >= 2
  {
    var a, b, c := xs[..i], xs[i + 1..j], xs[j + 1..];
    assert xs == a + [xs[i]] + b + [xs[j]] + c;
    assert multiset(xs) == multiset(a) + multiset{xs[i]} + multiset(b) + multiset{xs[j]} + multiset(c);
  }

  /** Without repeats, a list is as long as the set of its elements. */
  lemma {:induction false} AsManyAs<T>(xs: seq<T>)
    requires forall i, j :: 0 <= i < j < |xs| ==> xs[i] != xs[j]
    ensures |set x | x in xs| == |xs|
  {
    if xs != [] {
      var front, last := xs[..|xs| - 1], xs[|xs| - 1];
      AsManyAs(front);
      assert xs == front + [last];
      assert (set x | x in xs) == (set x | x in front) + {last};
    }
  }

  lemma NoMoreThan<T>(a: set<T>, b: set<T>)
    requires a <= b
    ensures |a| <= |b|
  {
    assert b == a + (b - a);
  }
}
