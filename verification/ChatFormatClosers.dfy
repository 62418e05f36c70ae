/**
 * Where emphasis closes: the table reads of lib/chat-format.ts, proved to answer exactly what a
 * direct left-to-right scan of the range would.
 */
module ChatFormatClosers {
  import opened Texts
  import opened ChatFormatLine

  /** What a parsed range may end at: the line's end, or the marker that closes what is around it. */
  predicate RangeEnd(s: Text, end: int) {
    0 <= end <= |s| && (end < |s| ==> Marker(s[end]))
  }

  predicate AllSpace(s: Text) {
    forall k :: 0 <= k < |s| ==> IsSpace(s[k])
  }

  // ---------------------------------------------------------------------------------------------
  // Doubled markers
  // ---------------------------------------------------------------------------------------------

  /** From the free pair at p, on to the last pair of its run that still ends before `end`. */
  function SlidePair(s: Text, ch: Unit, end: int, p: int): (r: int)
    requires 0 <= p && p + 2 <= end <= |s| && PairAt(s, ch, p)
    ensures p <= r && r + 2 <= end && PairAt(s, ch, r)
    decreases end - p
  {
    if p + 3 <= end && PairAt(s, ch, p + 1) then SlidePair(s, ch, end, p + 1) else p
  }

  /** Scanning right from p, the pair that ends a run of `ch` before `end`, or -1. */
  function ScanPair(s: Text, ch: Unit, end: int, p: int): (r: int)
    requires 0 <= p && end <= |s|
    ensures r == -1 || (p <= r && r + 2 <= end && PairAt(s, ch, r))
    decreases end - p
  {
    if p + 2 > end then -1
    else if PairAt(s, ch, p) then SlidePair(s, ch, end, p)
    else ScanPair(s, ch, end, p + 1)
  }

  /** Where the pair of `ch` opened at i closes before `end`, by scanning; -1 when it doesn't. */
  function PairCloser(s: Text, ch: Unit, i: int, end: int): (r: int)
    requires 0 <= i && i + 2 <= end <= |s|
    ensures r == -1 || (i + 2 < r && r + 2 <= end && PairAt(s, ch, r))
  {
    var c := ScanPair(s, ch, end, i + 2);
    if c <= i + 2 || AllSpace(s[i + 2..c]) then -1 else c
  }

  /** The pair the scan stops at closes, unless there is nothing but space inside; `solid` is the next character that isn't. */
  lemma PairEnds(s: Text, ch: Unit, i: int, end: int, close: int, solid: int)
    requires 0 <= i && i + 2 <= end <= |s| && close == ScanPair(s, ch, end, i + 2)
    requires close != -1 ==> SolidAt(s, i + 2, solid)
    ensures PairCloser(s, ch, i, end) == if close <= i + 2 || solid >= close then -1 else close
  {
    hide ScanPair;
    if i + 2 < close && solid < close { assert !IsSpace(s[i + 2..close][solid - (i + 2)]); }
  }

  lemma {:induction false} ScanPairFrom(s: Text, ch: Unit, end: int, p: int, c: int)
    requires 0 <= p && end <= |s| && FirstPair(s, ch, p, c)
    ensures ScanPair(s, ch, end, p) == (if c == -1 || c + 2 > end then -1 else SlidePair(s, ch, end, c))
    decreases end - p
  {
    if p + 2 <= end && !PairAt(s, ch, p) { ScanPairFrom(s, ch, end, p + 1, c); }
  }

  lemma {:induction false} SlidePairTo(s: Text, ch: Unit, end: int, c: int, p: int, e: int)
    requires 0 <= c <= p && p + 2 <= end <= |s| && PairAt(s, ch, p) && PairChar(ch)
    requires RunEndsAt(s, c, e) && p + 2 <= e
    ensures SlidePair(s, ch, end, p) == (if e <= end then e else end) - 2
    decreases end - p
  {
    FreeNext(s, p);
    if p + 3 <= end {
      if p + 3 <= e {
        assert Linked(s, p + 2);
        SlidePairTo(s, ch, end, c, p + 1, e);
      } else if PairAt(s, ch, p + 1) {
        FreeNext(s, p + 1);
        assert false;
      }
    }
  }

  /** `pairClose` reads tables; the answer is the scan's. */
  method PairClose(line: Line, i: int, ch: Unit, end: int) returns (r: int)
    requires line.Valid() && PairChar(ch) && 0 <= i && i + 2 <= end <= |line.s|
    modifies line
    ensures line.Valid() && line.openedSpoiler == old(line.openedSpoiler)
    ensures r == PairCloser(line.s, ch, i, end)
  {
    ghost var s := line.s;
    var pair := line.Pair(ch);
    var c := pair[i + 2];
    ScanPairFrom(s, ch, end, i + 2, c);
    hide PairCloser, ScanPair, SlidePair;
    if c == -1 || c + 2 > end {
      PairEnds(s, ch, i, end, -1, i + 2);
      return -1;
    }
    var re := line.RunEnd();
    FreeNext(s, c);
    assert Linked(s, c + 1);
    assert RunEndsAt(s, c, re[c]);
    SlidePairTo(s, ch, end, c, c, re[c]);
    var close := (if re[c] <= end then re[c] else end) - 2;
    var solid := line.Solid();
    assert SolidAt(s, i + 2, solid[i + 2]);
    PairEnds(s, ch, i, end, close, solid[i + 2]);
    if close <= i + 2 || solid[i + 2] >= close { return -1; }
    return close;
  }

  // ---------------------------------------------------------------------------------------------
  // Single markers
  // ---------------------------------------------------------------------------------------------

  /** Scanning right from k, doubled markers skipped two at a time: the first single `ch` that can close, or -1. */
  function ScanItalic(s: Text, ch: Unit, end: int, k: int): (r: int)
    requires 1 <= k && end <= |s|
    ensures r == -1 || (k <= r < end && Free(s, r) && s[r] == ch)
    decreases end - k
  {
    if k >= end then -1
    else if !(Free(s, k) && s[k] == ch) then ScanItalic(s, ch, end, k + 1)
    else if k + 1 < end && Free(s, k + 1) && s[k + 1] == ch then ScanItalic(s, ch, end, k + 2)
    else if IsSpace(s[k - 1]) || (ch == UNDERSCORE && k + 1 < end && IsAlnum(s[k + 1])) then ScanItalic(s, ch, end, k + 1)
    else k
  }

  /** Where the single `ch` opened at i closes before `end`, by scanning; -1 when it doesn't. */
  function ItalicCloser(s: Text, ch: Unit, i: int, from: int, end: int): (r: int)
    requires 0 <= from <= i < end <= |s|
    ensures r == -1 || (i + 2 <= r < end && Free(s, r) && s[r] == ch)
  {
    if i + 1 >= end || s[i + 1] == ch || IsSpace(s[i + 1]) then -1
    else if ch == UNDERSCORE && i > from && IsAlnum(s[i - 1]) then -1
    else ScanItalic(s, ch, end, i + 2)
  }

  /** j closes a single `ch` in a range that ends at `end`. */
  predicate ClosesBefore(s: Text, ch: Unit, end: int, j: int)
    requires end <= |s|
  {
    && 1 <= j < end && Free(s, j) && s[j] == ch
    && !(j + 1 < end && Linked(s, j + 1))
    && (j + 1 - StartOf(s, j)) % 2 == 1
    && !IsSpace(s[j - 1])
    && !(ch == UNDERSCORE && j + 1 < end && IsAlnum(s[j + 1]))
  }

  predicate FirstCloserBefore(s: Text, ch: Unit, end: int, k: int, j: int)
    requires end <= |s|
  {
    (j == -1 || (k <= j && ClosesBefore(s, ch, end, j)))
    && forall p :: k <= p < (if j == -1 then end else j) ==> !ClosesBefore(s, ch, end, p)
  }

  /** The scan stands at an even distance from the start of the run it is in. */
  predicate Aligned(s: Text, ch: Unit, k: int) {
    0 <= k < |s| && Free(s, k) && s[k] == ch ==> (k - StartOf(s, k)) % 2 == 0
  }

  lemma AlignedAfter(s: Text, ch: Unit, k: int)
    requires 0 <= k && Aligned(s, ch, k)
    ensures !Linked(s, k + 1) ==> Aligned(s, ch, k + 1)
    ensures Linked(s, k + 1) && s[k] == ch ==> Aligned(s, ch, k + 2)
  {
    if Linked(s, k + 2) && Linked(s, k + 1) {
      assert StartOf(s, k + 2) == StartOf(s, k + 1) == StartOf(s, k);
    }
  }

  lemma SkipOne(s: Text, ch: Unit, end: int, k: int, j: int)
    requires end <= |s| && !ClosesBefore(s, ch, end, k) && FirstCloserBefore(s, ch, end, k + 1, j)
    ensures FirstCloserBefore(s, ch, end, k, j)
  {
  }

  lemma SkipTwo(s: Text, ch: Unit, end: int, k: int, j: int)
    requires 1 <= k && k + 1 < end <= |s| && Aligned(s, ch, k) && Linked(s, k + 1) && s[k] == ch
    requires FirstCloserBefore(s, ch, end, k + 2, j)
    ensures FirstCloserBefore(s, ch, end, k, j)
  {
    assert StartOf(s, k + 1) == StartOf(s, k);
    SkipOne(s, ch, end, k + 1, j);
    SkipOne(s, ch, end, k, j);
  }

  lemma SingleCloses(s: Text, ch: Unit, end: int, k: int)
    requires 1 <= k < end <= |s| && Aligned(s, ch, k) && Free(s, k) && s[k] == ch && !(k + 1 < end && Linked(s, k + 1))
    ensures ClosesBefore(s, ch, end, k) == !(IsSpace(s[k - 1]) || (ch == UNDERSCORE && k + 1 < end && IsAlnum(s[k + 1])))
  {
  }

  lemma {:induction false} ScanItalicFinds(s: Text, ch: Unit, end: int, k: int)
    requires 1 <= k && end <= |s| && Aligned(s, ch, k)
    ensures FirstCloserBefore(s, ch, end, k, ScanItalic(s, ch, end, k))
    decreases end - k
  {
    if k < end {
      AlignedAfter(s, ch, k);
      if Free(s, k) && s[k] == ch && k + 1 < end && Free(s, k + 1) && s[k + 1] == ch {
        ScanItalicFinds(s, ch, end, k + 2);
        SkipTwo(s, ch, end, k, ScanItalic(s, ch, end, k + 2));
      } else {
        if Free(s, k) && s[k] == ch { SingleCloses(s, ch, end, k); }
        if k + 1 < end { ScanItalicFinds(s, ch, end, k + 1); }
        if !ClosesBefore(s, ch, end, k) { SkipOne(s, ch, end, k, ScanItalic(s, ch, end, k + 1)); }
      }
    }
  }

  /** `italicClose` reads tables; the answer is the scan's, for every range that ends as a parsed one does. */
  method ItalicClose(line: Line, i: int, ch: Unit, from: int, end: int) returns (r: int)
    requires line.Valid() && ItalicChar(ch) && 0 <= from <= i < end && RangeEnd(line.s, end)
    modifies line
    ensures line.Valid() && line.openedSpoiler == old(line.openedSpoiler)
    ensures r == ItalicCloser(line.s, ch, i, from, end)
  {
    hide Line.Valid, FreeFrom, ScanItalic, Closes, ClosesBefore, FirstCloser, FirstCloserBefore, IsItalic, IsRunStart;
    var s := line.s;
    if i + 1 >= end || s[i + 1] == ch || IsSpace(s[i + 1]) { return -1; }
    if ch == UNDERSCORE && i > from && IsAlnum(s[i - 1]) { return -1; }
    var k := i + 2;
    ScanItalicFinds(s, ch, end, k);
    if k >= end {
      ScanNothing(s, ch, end, k);
      return -1;
    }
    var f := line.FreeTable();
    var cutRun := -1;
    if end < |s| && s[end] == ch && f[end] && s[end - 1] == ch && f[end - 1] {
      var rs := line.RunStart();
      RunStartAt(s, rs, end - 1);
      cutRun := rs[end - 1];
    }
    var table := line.Italic(ch);
    ItalicAt(s, ch, table, k);
    var j := table[k];
    CutAgrees(s, ch, end, k, j, cutRun);
    FirstCloserUnique(s, ch, end, k, ScanItalic(s, ch, end, k),
      if j != -1 && j < end && (cutRun == -1 || j < cutRun) then j
      else if cutRun >= k && (end - cutRun) % 2 == 1 && !IsSpace(s[end - 2]) then end - 1
      else -1);
    if j != -1 && j < end && (cutRun == -1 || j < cutRun) { return j; }
    if cutRun >= k && (end - cutRun) % 2 == 1 && !IsSpace(s[end - 2]) { return end - 1; }
    return -1;
  }

  lemma ScanNothing(s: Text, ch: Unit, end: int, k: int)
    requires 1 <= k && end <= k && end <= |s|
    ensures ScanItalic(s, ch, end, k) == -1
  {
  }

  lemma RunStartAt(s: Text, rs: seq<int>, k: int)
    requires IsRunStart(s, rs) && 0 <= k < |s|
    ensures k < |rs| && rs[k] == StartOf(s, k)
  {
    RunStartUnique(s, k, rs[k], StartOf(s, k));
  }

  lemma ItalicAt(s: Text, ch: Unit, table: seq<int>, k: int)
    requires IsItalic(s, ch, table) && 1 <= k < |s| + 3
    ensures k < |table| && FirstCloser(s, ch, k, table[k])
  {
  }

  lemma FirstCloserUnique(s: Text, ch: Unit, end: int, k: int, a: int, b: int)
    requires end <= |s| && FirstCloserBefore(s, ch, end, k, a) && FirstCloserBefore(s, ch, end, k, b)
    ensures a == b
  {
    hide ClosesBefore;
    assert a != -1 ==> a < end by { ClosesInside(s, ch, end, a); }
    assert b != -1 ==> b < end by { ClosesInside(s, ch, end, b); }
  }

  lemma ClosesInside(s: Text, ch: Unit, end: int, j: int)
    requires end <= |s|
    ensures ClosesBefore(s, ch, end, j) ==> 0 <= j < end
  {
  }

  lemma {:induction false} RunIsOneCharacter(s: Text, k: int)
    requires 0 <= k < |s|
    ensures forall j :: StartOf(s, k) <= j <= k ==> s[j] == s[k]
  {
    if Linked(s, k) { RunIsOneCharacter(s, k - 1); }
  }

  /** The table's closer, or the end of a run the range cuts, is the first closer the range sees. */
  lemma CutAgrees(s: Text, ch: Unit, end: int, k: int, j: int, cutRun: int)
    requires 2 <= k < end && RangeEnd(s, end) && ItalicChar(ch) && s[k - 1] != ch
    requires FirstCloser(s, ch, k, j)
    requires cutRun == (if Linked(s, end) && s[end] == ch then StartOf(s, end - 1) else -1)
    ensures FirstCloserBefore(s, ch, end, k,
      if j != -1 && j < end && (cutRun == -1 || j < cutRun) then j
      else if cutRun >= k && (end - cutRun) % 2 == 1 && !IsSpace(s[end - 2]) then end - 1
      else -1)
  {
    forall p | k <= p < end
      ensures p < end - 1 ==> ClosesBefore(s, ch, end, p) == Closes(s, ch, p)
      ensures cutRun == -1 ==> ClosesBefore(s, ch, end, p) == Closes(s, ch, p)
    {
      hide Free;
    }
    if cutRun != -1 {
      hide FreeFrom;
      assert RunStartsAt(s, end - 1, cutRun);
      RunIsOneCharacter(s, end - 1);
      forall p | cutRun <= p < end ensures Linked(s, p + 1) && !Closes(s, ch, p) {
      }
    }
  }

  /** A closer is always a free marker inside the range, with something between it and the opener. */
  lemma ClosersAreFree(s: Text, ch: Unit, i: int, from: int, end: int)
    requires 0 <= from <= i && i + 2 <= end <= |s| && Marker(ch)
    ensures var p := PairCloser(s, ch, i, end);
      p != -1 ==> i + 2 < p && p + 2 <= end && Free(s, p) && Free(s, p + 1) && s[p] == ch && s[p + 1] == ch
    ensures var q := ItalicCloser(s, ch, i, from, end);
      q != -1 ==> i + 1 < q < end && Free(s, q) && s[q] == ch
  {
    var p := PairCloser(s, ch, i, end);
    if p != -1 { FreeNext(s, p); }
  }
}
