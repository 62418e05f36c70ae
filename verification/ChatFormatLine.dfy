/**
 * One line of chat markup, indexed: the lookup tables of lib/chat-format.ts, each built in one pass
 * over the line and proved to hold what a search of the line from that position would find.
 */
module ChatFormatLine {
  import opened Texts

  const TOKEN_LEN: int := 39

  predicate Escapable(c: Unit) {
    c == STAR || c == UNDERSCORE || c == TILDE || c == BAR || c == TICK || c == BACKSLASH
    || c == LT || c == GT || c == AT || c == HASH
  }

  predicate UrlStop(c: Unit) { IsSpace(c) || c == LT || c == GT || c == QUOTE }

  predicate PairChar(c: Unit) { c == STAR || c == TILDE || c == BAR }

  predicate ItalicChar(c: Unit) { c == STAR || c == UNDERSCORE }

  predicate Marker(c: Unit) { PairChar(c) || ItalicChar(c) }

  // ---------------------------------------------------------------------------------------------
  // What stands for itself: the left-to-right scan over escapes and code spans
  // ---------------------------------------------------------------------------------------------

  /** The first backtick at or after k, or -1. */
  function NextTick(s: Text, k: int): (r: int)
    requires 0 <= k
    ensures r == -1 || (k <= r < |s| && s[r] == TICK)
    ensures forall j :: k <= j < (if r == -1 then |s| else r) ==> s[j] != TICK
    decreases |s| - k
  {
    if k >= |s| then -1 else if s[k] == TICK then k else NextTick(s, k + 1)
  }

  predicate EscapeAt(s: Text, k: int)
    requires 0 <= k < |s|
  {
    s[k] == BACKSLASH && k + 1 < |s| && Escapable(s[k + 1])
  }

  /** A nonempty code span opens at k. */
  predicate CodeAt(s: Text, k: int)
    requires 0 <= k < |s|
  {
    s[k] == TICK && NextTick(s, k + 1) > k + 1
  }

  /** Where the scan goes from k. */
  function FreeStep(s: Text, k: int): (r: int)
    requires 0 <= k < |s|
    ensures k < r <= |s|
  {
    if EscapeAt(s, k) then k + 2 else if CodeAt(s, k) then NextTick(s, k + 1) + 1 else k + 1
  }

  /** Scanning from k, the scan stops at p and p is neither an escape nor a code span. */
  predicate FreeFrom(s: Text, k: int, p: int)
    requires 0 <= k <= p < |s|
    decreases p - k
  {
    if k == p then !EscapeAt(s, p) && !CodeAt(s, p)
    else FreeStep(s, k) <= p && FreeFrom(s, FreeStep(s, k), p)
  }

  /** The character at p stands for itself: outside code spans and escapes. */
  predicate Free(s: Text, p: int) {
    0 <= p < |s| && FreeFrom(s, 0, p)
  }

  lemma {:induction false} FreeFromNext(s: Text, k: int, p: int)
    requires 0 <= k <= p < |s| - 1 && FreeFrom(s, k, p)
    requires s[p + 1] != TICK && s[p + 1] != BACKSLASH
    ensures FreeFrom(s, k, p + 1)
    decreases p - k
  {
    if k < p { FreeFromNext(s, FreeStep(s, k), p); }
  }

  /** After a free character, one that opens neither an escape nor a code span is free too. */
  lemma FreeNext(s: Text, p: int)
    requires Free(s, p) && p + 1 < |s|
    requires s[p + 1] != TICK && s[p + 1] != BACKSLASH
    ensures Free(s, p + 1)
  {
    FreeFromNext(s, 0, p);
  }

  /** p carries on the run of one free character that p - 1 is in. */
  predicate Linked(s: Text, p: int) {
    1 <= p < |s| && Free(s, p - 1) && Free(s, p) && s[p - 1] == s[p]
  }

  /** A free pair of `ch` starts at p. */
  predicate PairAt(s: Text, ch: Unit, p: int) {
    0 <= p && p + 1 < |s| && Free(s, p) && s[p] == ch && s[p + 1] == ch
  }

  // ---------------------------------------------------------------------------------------------
  // What each table holds
  // ---------------------------------------------------------------------------------------------

  ghost predicate IsTick(s: Text, t: seq<int>) {
    |t| == |s| + 2 && forall k :: 0 <= k < |t| ==> t[k] == NextTick(s, k)
  }

  ghost predicate IsFree(s: Text, t: seq<bool>) {
    |t| == |s| + 1 && (forall k :: 0 <= k < |s| ==> t[k] == Free(s, k)) && !t[|s|]
  }

  /** e is where the run through k ends (exclusive). */
  predicate RunEndsAt(s: Text, k: int, e: int) {
    k < e <= |s| && (forall j :: k < j < e ==> Linked(s, j)) && !Linked(s, e)
  }

  ghost predicate IsRunEnd(s: Text, t: seq<int>) {
    |t| == |s| + 1 && t[|s|] == |s| && forall k :: 0 <= k < |s| ==> RunEndsAt(s, k, t[k])
  }

  /** b is where the run through k starts. */
  predicate RunStartsAt(s: Text, k: int, b: int) {
    0 <= b <= k && (forall j :: b < j <= k ==> Linked(s, j)) && !Linked(s, b)
  }

  ghost predicate IsRunStart(s: Text, t: seq<int>) {
    |t| == |s| + 1 && forall k :: 0 <= k < |s| ==> RunStartsAt(s, k, t[k])
  }

  /** p is the first free pair at or after k, or -1. */
  predicate FirstPair(s: Text, ch: Unit, k: int, p: int) {
    (p == -1 || (k <= p && PairAt(s, ch, p)))
    && forall j :: k <= j < (if p == -1 then |s| else p) ==> !PairAt(s, ch, j)
  }

  ghost predicate IsPair(s: Text, ch: Unit, t: seq<int>) {
    |t| == |s| + 3 && forall k :: 0 <= k < |t| ==> FirstPair(s, ch, k, t[k])
  }

  /** Where the run through k starts. */
  function StartOf(s: Text, k: int): (b: int)
    requires 0 <= k < |s|
    ensures RunStartsAt(s, k, b)
  {
    if Linked(s, k) then StartOf(s, k - 1) else k
  }

  /** k is the last marker of an odd-length run, doesn't hug a space inside, and "_" isn't glued to a word. */
  predicate Closes(s: Text, ch: Unit, k: int) {
    && 1 <= k < |s| && Free(s, k) && s[k] == ch && !Linked(s, k + 1)
    && (k + 1 - StartOf(s, k)) % 2 == 1
    && !IsSpace(s[k - 1])
    && !(ch == UNDERSCORE && k + 1 < |s| && IsAlnum(s[k + 1]))
  }

  /** j is the first index at or after k that can close a single `ch`, or -1. */
  predicate FirstCloser(s: Text, ch: Unit, k: int, j: int) {
    (j == -1 || (k <= j && Closes(s, ch, j)))
    && forall p :: k <= p < (if j == -1 then |s| else j) ==> !Closes(s, ch, p)
  }

  ghost predicate IsItalic(s: Text, ch: Unit, t: seq<int>) {
    |t| == |s| + 3 && forall k :: 1 <= k < |t| ==> FirstCloser(s, ch, k, t[k])
  }

  /** e is the first non-space at or after k, or the line's end. */
  predicate SolidAt(s: Text, k: int, e: int) {
    0 <= k <= e <= |s| && (forall j :: k <= j < e ==> IsSpace(s[j])) && (e < |s| ==> !IsSpace(s[e]))
  }

  ghost predicate IsSolid(s: Text, t: seq<int>) {
    |t| == |s| + 1 && forall k :: 0 <= k < |t| ==> SolidAt(s, k, t[k])
  }

  /** e is the first character at or after k that a URL stops at, or the line's end. */
  predicate UrlStopsAt(s: Text, k: int, e: int) {
    0 <= k <= e <= |s| && (forall j :: k <= j < e ==> !UrlStop(s[j])) && (e < |s| ==> UrlStop(s[e]))
  }

  ghost predicate IsUrlStop(s: Text, t: seq<int>) {
    |t| == |s| + 1 && forall k :: 0 <= k < |t| ==> UrlStopsAt(s, k, t[k])
  }

  lemma RunStartUnique(s: Text, k: int, a: int, b: int)
    requires RunStartsAt(s, k, a) && RunStartsAt(s, k, b)
    ensures a == b
  {
  }

  // ---------------------------------------------------------------------------------------------
  // Building the tables, one pass each
  // ---------------------------------------------------------------------------------------------

  method BuildTick(s: Text) returns (a: array<int>)
    ensures fresh(a) && IsTick(s, a[..])
  {
    a := new int[|s| + 2](_ => -1);
    var k := |s| - 1;
    while k >= 0
      invariant -1 <= k < |s|
      invariant forall j :: k < j < a.Length ==> a[j] == NextTick(s, j)
    {
      a[k] := if s[k] == TICK then k else a[k + 1];
      k := k - 1;
    }
  }

  lemma FreeFromStep(s: Text, k: int, p: int)
    requires 0 <= k < p < |s|
    ensures FreeFrom(s, k, p) == (FreeStep(s, k) <= p && FreeFrom(s, FreeStep(s, k), p))
  {
  }

  method BuildFree(s: Text, t: seq<int>) returns (a: array<bool>)
    requires IsTick(s, t)
    ensures fresh(a) && IsFree(s, a[..])
  {
    a := new bool[|s| + 1](_ => false);
    var k := 0;
    while k < |s|
      invariant 0 <= k <= |s|
      invariant forall p :: 0 <= p < k ==> a[p] == Free(s, p)
      invariant forall p :: k <= p < |s| ==> Free(s, p) == FreeFrom(s, k, p)
      invariant forall p :: k <= p < a.Length ==> !a[p]
    {
      forall p | k < p < |s| ensures Free(s, p) == (FreeStep(s, k) <= p && FreeFrom(s, FreeStep(s, k), p)) {
        FreeFromStep(s, k, p);
      }
      assert Free(s, k) == FreeFrom(s, k, k);
      var c := s[k];
      if c == BACKSLASH && k + 1 < |s| && Escapable(s[k + 1]) {
        k := k + 2;
      } else if c == TICK && t[k + 1] > k + 1 {
        k := t[k + 1] + 1;
      } else {
        a[k] := true;
        k := k + 1;
      }
    }
  }

  lemma RunEndStep(s: Text, k: int, e: int)
    requires 0 <= k < |s|
    ensures Linked(s, k + 1) && RunEndsAt(s, k + 1, e) ==> RunEndsAt(s, k, e)
    ensures !Linked(s, k + 1) ==> RunEndsAt(s, k, k + 1)
  {
  }

  method BuildRunEnd(s: Text, f: seq<bool>) returns (a: array<int>)
    requires IsFree(s, f)
    ensures fresh(a) && IsRunEnd(s, a[..])
  {
    a := new int[|s| + 1](_ => 0);
    a[|s|] := |s|;
    var k := |s| - 1;
    while k >= 0
      invariant -1 <= k < |s|
      invariant a[|s|] == |s|
      invariant forall j :: k < j < |s| ==> RunEndsAt(s, j, a[j])
    {
      RunEndStep(s, k, a[k + 1]);
      a[k] := if k + 1 < |s| && f[k] && f[k + 1] && s[k + 1] == s[k] then a[k + 1] else k + 1;
      k := k - 1;
    }
  }

  lemma RunStartStep(s: Text, k: int, b: int)
    requires 0 <= k < |s|
    ensures Linked(s, k) && RunStartsAt(s, k - 1, b) ==> RunStartsAt(s, k, b)
    ensures !Linked(s, k) ==> RunStartsAt(s, k, k)
  {
  }

  method BuildRunStart(s: Text, f: seq<bool>) returns (a: array<int>)
    requires IsFree(s, f)
    ensures fresh(a) && IsRunStart(s, a[..])
  {
    a := new int[|s| + 1](_ => 0);
    for k := 0 to |s|
      invariant forall j :: 0 <= j < k ==> RunStartsAt(s, j, a[j])
    {
      RunStartStep(s, k, if k > 0 then a[k - 1] else 0);
      a[k] := if k > 0 && f[k] && f[k - 1] && s[k - 1] == s[k] then a[k - 1] else k;
    }
  }

  method BuildPair(s: Text, ch: Unit, f: seq<bool>) returns (a: array<int>)
    requires IsFree(s, f)
    ensures fresh(a) && IsPair(s, ch, a[..])
  {
    a := new int[|s| + 3](_ => -1);
    var k := |s| - 2;
    while k >= 0
      invariant -2 <= k <= |s| - 2
      invariant forall j :: 0 <= j < a.Length && k < j ==> FirstPair(s, ch, j, a[j])
    {
      a[k] := if f[k] && s[k] == ch && s[k + 1] == ch then k else a[k + 1];
      k := k - 1;
    }
  }

  lemma ClosesMeans(s: Text, ch: Unit, k: int, b: int, e: int)
    requires 1 <= k < |s| && RunStartsAt(s, k, b) && RunEndsAt(s, k, e)
    ensures Closes(s, ch, k) ==
      (Free(s, k) && s[k] == ch && e == k + 1 && (k + 1 - b) % 2 == 1 && !IsSpace(s[k - 1])
       && !(ch == UNDERSCORE && k + 1 < |s| && IsAlnum(s[k + 1])))
  {
    RunStartUnique(s, k, b, StartOf(s, k));
  }

  method BuildItalic(s: Text, ch: Unit, f: seq<bool>, re: seq<int>, rs: seq<int>) returns (a: array<int>)
    requires IsFree(s, f) && IsRunEnd(s, re) && IsRunStart(s, rs)
    ensures fresh(a) && IsItalic(s, ch, a[..])
  {
    a := new int[|s| + 3](_ => -1);
    var k := |s| - 1;
    while k >= 1
      invariant -1 <= k < |s|
      invariant forall j :: 1 <= j < a.Length && k < j ==> FirstCloser(s, ch, j, a[j])
    {
      ClosesMeans(s, ch, k, rs[k], re[k]);
      var closes := f[k] && s[k] == ch && re[k] == k + 1 && (k + 1 - rs[k]) % 2 == 1
        && !IsSpace(s[k - 1]) && !(ch == UNDERSCORE && k + 1 < |s| && IsAlnum(s[k + 1]));
      a[k] := if closes then k else a[k + 1];
      k := k - 1;
    }
  }

  method BuildSolid(s: Text) returns (a: array<int>)
    ensures fresh(a) && IsSolid(s, a[..])
  {
    a := new int[|s| + 1](_ => 0);
    a[|s|] := |s|;
    var k := |s| - 1;
    while k >= 0
      invariant -1 <= k < |s|
      invariant forall j :: k < j <= |s| ==> SolidAt(s, j, a[j])
    {
      a[k] := if IsSpace(s[k]) then a[k + 1] else k;
      k := k - 1;
    }
  }

  method BuildUrlStop(s: Text) returns (a: array<int>)
    ensures fresh(a) && IsUrlStop(s, a[..])
  {
    a := new int[|s| + 1](_ => 0);
    a[|s|] := |s|;
    var k := |s| - 1;
    while k >= 0
      invariant -1 <= k < |s|
      invariant forall j :: k < j <= |s| ==> UrlStopsAt(s, j, a[j])
    {
      a[k] := if UrlStop(s[k]) then k else a[k + 1];
      k := k - 1;
    }
  }

  // ---------------------------------------------------------------------------------------------
  // The indexed line
  // ---------------------------------------------------------------------------------------------

  datatype Table<T> = Unbuilt | Built(t: seq<T>)

  /** Tables are built on first use; once built, a table never changes. */
  class Line {
    const s: Text
    const open: bool
    var openedSpoiler: bool
    var tick: Table<int>
    var free: Table<bool>
    var runEnd: Table<int>
    var runStart: Table<int>
    var solid: Table<int>
    var urlStop: Table<int>
    var pairs: map<Unit, seq<int>>
    var italics: map<Unit, seq<int>>

    ghost predicate Valid()
      reads this
    {
      && (tick.Built? ==> IsTick(s, tick.t))
      && (free.Built? ==> IsFree(s, free.t))
      && (runEnd.Built? ==> IsRunEnd(s, runEnd.t))
      && (runStart.Built? ==> IsRunStart(s, runStart.t))
      && (solid.Built? ==> IsSolid(s, solid.t))
      && (urlStop.Built? ==> IsUrlStop(s, urlStop.t))
      && (forall ch :: ch in pairs ==> IsPair(s, ch, pairs[ch]))
      && (forall ch :: ch in italics ==> IsItalic(s, ch, italics[ch]))
    }

    constructor (s: Text, open: bool)
      ensures Valid() && this.s == s && this.open == open && !openedSpoiler
    {
      this.s, this.open, openedSpoiler := s, open, false;
      tick, free, runEnd, runStart, solid, urlStop := Unbuilt, Unbuilt, Unbuilt, Unbuilt, Unbuilt, Unbuilt;
      pairs, italics := map[], map[];
    }

    /** A spoiler ran into the cut. */
    method HideRest()
      requires Valid()
      modifies this
      ensures Valid() && openedSpoiler
    {
      openedSpoiler := true;
    }

    method Tick() returns (t: seq<int>)
      requires Valid()
      modifies this
      ensures Valid() && IsTick(s, t) && openedSpoiler == old(openedSpoiler)
    {
      if tick.Unbuilt? {
        var a := BuildTick(s);
        tick := Built(a[..]);
      }
      t := tick.t;
    }

    method FreeTable() returns (f: seq<bool>)
      requires Valid()
      modifies this
      ensures Valid() && IsFree(s, f) && openedSpoiler == old(openedSpoiler)
    {
      if free.Unbuilt? {
        var t := Tick();
        var a := BuildFree(s, t);
        free := Built(a[..]);
      }
      f := free.t;
    }

    method RunEnd() returns (e: seq<int>)
      requires Valid()
      modifies this
      ensures Valid() && IsRunEnd(s, e) && openedSpoiler == old(openedSpoiler)
    {
      if runEnd.Unbuilt? {
        var f := FreeTable();
        var a := BuildRunEnd(s, f);
        runEnd := Built(a[..]);
      }
      e := runEnd.t;
    }

    method RunStart() returns (b: seq<int>)
      requires Valid()
      modifies this
      ensures Valid() && IsRunStart(s, b) && openedSpoiler == old(openedSpoiler)
    {
      if runStart.Unbuilt? {
        var f := FreeTable();
        var a := BuildRunStart(s, f);
        runStart := Built(a[..]);
      }
      b := runStart.t;
    }

    method Pair(ch: Unit) returns (p: seq<int>)
      requires Valid()
      modifies this
      ensures Valid() && IsPair(s, ch, p) && openedSpoiler == old(openedSpoiler)
    {
      if ch !in pairs {
        var f := FreeTable();
        var a := BuildPair(s, ch, f);
        pairs := pairs[ch := a[..]];
      }
      p := pairs[ch];
    }

    method Italic(ch: Unit) returns (t: seq<int>)
      requires Valid()
      modifies this
      ensures Valid() && IsItalic(s, ch, t) && openedSpoiler == old(openedSpoiler)
    {
      if ch !in italics {
        var f := FreeTable();
        var re := RunEnd();
        var rs := RunStart();
        var a := BuildItalic(s, ch, f, re, rs);
        italics := italics[ch := a[..]];
      }
      t := italics[ch];
    }

    method Solid() returns (t: seq<int>)
      requires Valid()
      modifies this
      ensures Valid() && IsSolid(s, t) && openedSpoiler == old(openedSpoiler)
    {
      if solid.Unbuilt? {
        var a := BuildSolid(s);
        solid := Built(a[..]);
      }
      t := solid.t;
    }

    method UrlStops() returns (t: seq<int>)
      requires Valid()
      modifies this
      ensures Valid() && IsUrlStop(s, t) && openedSpoiler == old(openedSpoiler)
    {
      if urlStop.Unbuilt? {
        var a := BuildUrlStop(s);
        urlStop := Built(a[..]);
      }
      t := urlStop.t;
    }
  }
}
