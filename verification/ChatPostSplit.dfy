/** lib/chat-post-split.ts: a long post as consecutive messages, with code blocks closed and reopened around a cut. */
module ChatPostSplit {
  import opened Options
  import opened Texts
  import opened ChatMentions

  const CLOSE: Text := [NEWLINE, TICK, TICK, TICK]

  // ---------------------------------------------------------------------------------------------
  // Fences
  // ---------------------------------------------------------------------------------------------

  datatype Fence = Fence(openStart: int, openEnd: int, closeStart: int, closeEnd: int, reopen: Text)

  predicate LangChar(c: Unit) { IsAlnum(c) || c == UNDERSCORE || c == PLUS || c == DASH }

  /** The language after an opener, or nothing. */
  function Lang(after: Text): (r: Text)
    ensures |r| <= |after|
  {
    var t := TrimEnd(after);
    if 1 <= |t| <= 20 && forall k :: 0 <= k < |t| ==> LangChar(t[k]) then t else []
  }

  function Reopen(opener: Text, max: int): (r: Text)
    requires |opener| >= 3
    ensures TICKS <= r && (r == TICKS || 8 * (|r| + 1) < max)
  {
    var lang := Lang(opener[3..]);
    if 8 * (3 + |lang| + 1) < max then TICKS + lang else TICKS
  }

  /** Where line i starts in the joined text. */
  function LineStart(lines: seq<Text>, i: int): nat
    requires 0 <= i <= |lines|
  {
    if i == 0 then 0 else LineStart(lines, i - 1) + |lines[i - 1]| + 1
  }

  function LineEnd(lines: seq<Text>, i: int): int
    requires 0 <= i < |lines|
  {
    LineStart(lines, i) + |lines[i]|
  }

  function FenceOf(lines: seq<Text>, i: int, j: int, max: int): Fence
    requires 0 <= i < |lines| && 0 <= j < |lines| && FenceOpens(lines[i])
  {
    Fence(LineStart(lines, i), LineEnd(lines, i), LineStart(lines, j), LineEnd(lines, j), Reopen(lines[i], max))
  }

  /** The code blocks of more than one line among chat-format's chunks, as fences. */
  function FencesFrom(lines: seq<Text>, i: int, max: int): seq<Fence>
    requires 0 <= i <= |lines|
    decreases |lines| - i
  {
    if i == |lines| then [] else FenceHere(lines, i, max) + FencesFrom(lines, LastLine(ChunkAt(lines, i)) + 1, max)
  }

  function FenceHere(lines: seq<Text>, i: int, max: int): seq<Fence>
    requires 0 <= i < |lines|
  {
    var c := ChunkAt(lines, i);
    if c.CodeLines? && c.last > i then [FenceOf(lines, i, c.last, max)] else []
  }

  lemma FencesUnfold(lines: seq<Text>, i: int, max: int)
    requires 0 <= i < |lines|
    ensures FencesFrom(lines, i, max) == FenceHere(lines, i, max) + FencesFrom(lines, LastLine(ChunkAt(lines, i)) + 1, max)
    ensures FencesFrom(lines, |lines|, max) == []
  {
    hide ChunkAt, FenceOf;
  }

  lemma FencesStep(lines: seq<Text>, i: int, max: int, before: seq<Fence>)
    requires 0 <= i < |lines|
    ensures before + FencesFrom(lines, i, max)
      == before + FenceHere(lines, i, max) + FencesFrom(lines, LastLine(ChunkAt(lines, i)) + 1, max)
  {
    hide FencesFrom, FenceHere, ChunkAt;
    FencesUnfold(lines, i, max);
    Assoc(before, FenceHere(lines, i, max), FencesFrom(lines, LastLine(ChunkAt(lines, i)) + 1, max));
  }

  /** The next line at or after j that closes a fence, by a loop; |lines| when there is none. */
  method FindClose(lines: seq<Text>, i: int) returns (j: int)
    requires 0 <= i <= |lines|
    ensures NextClose(lines, i) == if j < |lines| then j else -1
    ensures i <= j <= |lines|
  {
    j := i;
    while j < |lines| && !FenceCloses(lines[j])
      invariant i <= j <= |lines|
      invariant NextClose(lines, i) == NextClose(lines, j)
    {
      j := j + 1;
    }
  }

  /** `fences` finds by its own loop exactly the code blocks chat-format's chunks have. */
  method Fences(text: Text, max: int) returns (out: seq<Fence>)
    ensures out == FencesFrom(Split(text), 0, max)
  {
    hide FenceOpens, FenceCloses, FencesFrom, LineStart, FenceOf, OneLineCode, NextClose, Split;
    var lines := Split(text);
    out := [];
    var i := 0;
    assert [] + FencesFrom(lines, 0, max) == FencesFrom(lines, 0, max);
    while i < |lines|
      invariant 0 <= i <= |lines|
      invariant FencesFrom(lines, 0, max) == out + FencesFrom(lines, i, max)
    {
      FencesStep(lines, i, max, out);
      if !FenceOpens(lines[i]) || OneLineCode(lines[i]) {
        i := i + 1;
        continue;
      }
      var j := FindClose(lines, i + 1);
      if j >= |lines| {
        i := i + 1;
        continue;
      }
      out := out + [FenceOf(lines, i, j, max)];
      i := j + 1;
    }
    FencesEnd(lines, max, out);
  }

  lemma FencesEnd(lines: seq<Text>, max: int, out: seq<Fence>)
    ensures out + FencesFrom(lines, |lines|, max) == out
  {
  }

  /** Nothing but white space and backticks from a up to b. */
  predicate Blank(s: Text, a: int, b: int)
    requires 0 <= a && b <= |s|
  {
    forall k :: a <= k < b ==> IsSpace(s[k]) || s[k] == TICK
  }

  /** What a cut relies on about a fence. */
  predicate GoodFence(text: Text, f: Fence, max: int) {
    && 0 <= f.openStart && f.openStart + 3 <= f.openEnd < f.closeStart && f.closeStart + 3 <= f.closeEnd <= |text|
    && text[f.openStart] == TICK
    && NEWLINE !in text[f.closeStart..f.closeEnd] && Blank(text, f.closeStart, f.closeEnd)
    && TICKS <= f.reopen && (f.reopen == TICKS || 8 * (|f.reopen| + 1) < max)
  }

  lemma {:induction false} LinesIn(lines: seq<Text>, i: int)
    requires 0 <= i < |lines|
    ensures LineEnd(lines, i) <= |JoinLines(lines)|
    ensures JoinLines(lines)[LineStart(lines, i)..LineEnd(lines, i)] == lines[i]
    decreases i
  {
    if i > 0 {
      LinesIn(lines[1..], i - 1);
      StartsShift(lines, i);
      var head := lines[0] + [NEWLINE];
      var rest := JoinLines(lines[1..]);
      assert JoinLines(lines) == head + rest;
      var a, b := LineStart(lines[1..], i - 1), LineEnd(lines[1..], i - 1);
      assert (head + rest)[|head| + a..|head| + b] == rest[a..b];
    } else if |lines| > 1 {
      assert JoinLines(lines) == lines[0] + [NEWLINE] + JoinLines(lines[1..]);
    }
  }

  lemma {:induction false} StartsShift(lines: seq<Text>, i: int)
    requires 0 < i <= |lines|
    ensures LineStart(lines, i) == |lines[0]| + 1 + LineStart(lines[1..], i - 1)
  {
    if i > 1 { StartsShift(lines, i - 1); }
  }

  lemma {:induction false} StartsRise(lines: seq<Text>, i: int, j: int)
    requires 0 <= i < j <= |lines|
    ensures LineEnd(lines, i) < LineStart(lines, j)
    decreases j
  {
    if i < j - 1 { StartsRise(lines, i, j - 1); }
  }

  lemma CloserIsBlank(line: Text)
    requires FenceCloses(line)
    ensures Blank(line, 0, |line|) && |line| >= 3
  {
    var t := TrimStart(line);
    var u := TrimEnd(t);
    TrimStartMeans(line);
    TrimEndMeans(t);
    forall k | 0 <= k < |line| ensures IsSpace(line[k]) || line[k] == TICK {
      var m := k - (|line| - |t|);
      if m >= 0 { assert line[k] == t[m]; }
      if 0 <= m < |u| { assert t[m] == u[m]; }
    }
  }

  lemma FenceIsGood(lines: seq<Text>, i: int, max: int)
    requires 0 <= i < |lines| && forall k :: 0 <= k < |lines| ==> NEWLINE !in lines[k]
    ensures forall f :: f in FenceHere(lines, i, max) ==> GoodFence(JoinLines(lines), f, max)
  {
    hide FenceCloses, LineStart, LineEnd, JoinLines, NextClose, Reopen, OneLineCode;
    var c := ChunkAt(lines, i);
    if c.CodeLines? && c.last > i {
      var text := JoinLines(lines);
      LinesIn(lines, i);
      LinesIn(lines, c.last);
      StartsRise(lines, i, c.last);
      CloserIsBlank(lines[c.last]);
      var f := FenceOf(lines, i, c.last, max);
      LineEndIs(lines, i);
      LineEndIs(lines, c.last);
      SameCharacters(text, f.openStart, f.openEnd, lines[i]);
      SameCharacters(text, f.closeStart, f.closeEnd, lines[c.last]);
      assert lines[i][0] == lines[i][0..3][0];
    }
  }

  lemma LineEndIs(lines: seq<Text>, i: int)
    requires 0 <= i < |lines|
    ensures LineEnd(lines, i) == LineStart(lines, i) + |lines[i]|
  {
  }

  lemma SameCharacters(text: Text, a: int, b: int, line: Text)
    requires 0 <= a <= b <= |text| && text[a..b] == line
    ensures forall k :: a <= k < b ==> text[k] == line[k - a]
  {
    forall k | a <= k < b ensures text[k] == line[k - a] {
      assert text[a..b][k - a] == text[k];
    }
  }

  lemma {:induction false} FencesAreGood(lines: seq<Text>, i: int, max: int)
    requires 0 <= i <= |lines| && forall k :: 0 <= k < |lines| ==> NEWLINE !in lines[k]
    ensures forall f :: f in FencesFrom(lines, i, max) ==> GoodFence(JoinLines(lines), f, max)
    decreases |lines| - i
  {
    hide ChunkAt, FenceHere, GoodFence, JoinLines;
    if i < |lines| {
      FencesAreGood(lines, LastLine(ChunkAt(lines, i)) + 1, max);
      FenceIsGood(lines, i, max);
    }
  }

  // ---------------------------------------------------------------------------------------------
  // Lines around a cut
  // ---------------------------------------------------------------------------------------------

  /** The place `p` cuts line k in two. */
  ghost predicate InLine(lines: seq<Text>, p: nat, k: nat) {
    k < |lines| && LineStart(lines, k) <= p <= LineEnd(lines, k)
  }

  /** A place from line i's start to line j's end is in some line between them. */
  lemma {:induction false} SomeLine(lines: seq<Text>, p: nat, i: nat, j: nat)
    requires i <= j < |lines| && LineStart(lines, i) <= p <= LineEnd(lines, j)
    ensures exists k :: i <= k <= j && InLine(lines, p, k)
    decreases j - i
  {
    if p <= LineEnd(lines, i) { assert InLine(lines, p, i); } else { SomeLine(lines, p, i + 1, j); }
  }

  function Before(lines: seq<Text>, p: nat, k: nat): Text
    requires InLine(lines, p, k)
  {
    lines[k][..p - LineStart(lines, k)]
  }

  function After(lines: seq<Text>, p: nat, k: nat): Text
    requires InLine(lines, p, k)
  {
    lines[k][p - LineStart(lines, k)..]
  }

  lemma {:induction false} JoinBefore(lines: seq<Text>, p: nat, k: nat)
    requires InLine(lines, p, k)
    ensures p <= |JoinLines(lines)| && JoinLines(lines)[..p] == JoinLines(lines[..k] + [Before(lines, p, k)])
    decreases k
  {
    if k == 0 {
      assert lines[..0] + [Before(lines, p, 0)] == [Before(lines, p, 0)];
      LinesIn(lines, 0);
      assert JoinLines(lines)[..p] == JoinLines(lines)[0..LineEnd(lines, 0)][..p];
    } else {
      var rest, q := lines[1..], p - |lines[0]| - 1;
      StartsShift(lines, k);
      JoinBefore(rest, q, k - 1);
      var some := rest[..k - 1] + [Before(rest, q, k - 1)];
      assert lines[..k] + [Before(lines, p, k)] == [lines[0]] + some;
      JoinCons(lines[0], some);
      assert JoinLines(lines) == lines[0] + [NEWLINE] + JoinLines(rest);
    }
  }

  lemma {:induction false} JoinAfter(lines: seq<Text>, p: nat, k: nat)
    requires InLine(lines, p, k)
    ensures p <= |JoinLines(lines)| && JoinLines(lines)[p..] == JoinLines([After(lines, p, k)] + lines[k + 1..])
    decreases k
  {
    if k == 0 {
      if |lines| > 1 {
        assert lines == [lines[0]] + lines[1..];
        JoinCons(After(lines, p, 0), lines[1..]);
        assert JoinLines(lines) == lines[0] + [NEWLINE] + JoinLines(lines[1..]);
      } else {
        assert [After(lines, p, 0)] + lines[1..] == [After(lines, p, 0)];
      }
    } else {
      var rest, q := lines[1..], p - |lines[0]| - 1;
      StartsShift(lines, k);
      JoinAfter(rest, q, k - 1);
      assert rest[k..] == lines[k + 1..];
      assert JoinLines(lines) == lines[0] + [NEWLINE] + JoinLines(rest);
      assert JoinLines(lines)[p..] == JoinLines(rest)[q..];
    }
  }

  lemma {:induction false} JoinLast(lines: seq<Text>, last: Text)
    requires lines != []
    ensures JoinLines(lines + [last]) == JoinLines(lines) + [NEWLINE] + last
  {
    if |lines| == 1 {
      assert lines + [last] == [lines[0], last] && (lines + [last])[1..] == [last];
    } else {
      assert (lines + [last])[1..] == lines[1..] + [last];
      JoinLast(lines[1..], last);
    }
  }

  /** The lines of a head that is closed, and of a tail that is reopened. */
  lemma LinesOfHead(lines: seq<Text>, a: nat, k: nat)
    requires InLine(lines, a, k) && forall x :: 0 <= x < |lines| ==> NEWLINE !in lines[x]
    ensures a <= |JoinLines(lines)| && Split(JoinLines(lines)[..a] + CLOSE) == lines[..k] + [Before(lines, a, k)] + [TICKS]
  {
    var some := lines[..k] + [Before(lines, a, k)];
    JoinBefore(lines, a, k);
    JoinLast(some, TICKS);
    assert CLOSE == [NEWLINE] + TICKS;
    assert JoinLines(some) + CLOSE == JoinLines(some) + [NEWLINE] + TICKS;
    SplitJoin(some + [TICKS]);
  }

  lemma LinesOfTail(lines: seq<Text>, reopen: Text, b: nat, l: nat)
    requires InLine(lines, b, l) && NEWLINE !in reopen && forall x :: 0 <= x < |lines| ==> NEWLINE !in lines[x]
    ensures b <= |JoinLines(lines)|
            && Split(reopen + [NEWLINE] + JoinLines(lines)[b..]) == [reopen] + [After(lines, b, l)] + lines[l + 1..]
  {
    var some := [After(lines, b, l)] + lines[l + 1..];
    JoinAfter(lines, b, l);
    JoinCons(reopen, some);
    SplitJoin([reopen] + some);
    assert [reopen] + some == [reopen] + [After(lines, b, l)] + lines[l + 1..];
  }

  /** Lines i to j are a code block. */
  predicate IsBlock(lines: seq<Text>, i: int, j: int) {
    0 <= i < j < |lines| && FenceOpens(lines[i]) && !OneLineCode(lines[i]) && NextClose(lines, i + 1) == j
  }

  lemma {:induction false} NextCloseIs(lines: seq<Text>, i: int, j: int)
    requires 0 <= i <= j < |lines| && FenceCloses(lines[j]) && forall x :: i <= x < j ==> !FenceCloses(lines[x])
    ensures NextClose(lines, i) == j
    decreases j - i
  {
    hide FenceCloses;
    if i < j { NextCloseIs(lines, i + 1, j); }
  }

  lemma {:induction false} NoCloseBefore(lines: seq<Text>, i: int, j: int)
    requires 0 <= i <= |lines| && NextClose(lines, i) == j && j != -1
    ensures i <= j < |lines| && FenceCloses(lines[j]) && forall x :: i <= x < j ==> !FenceCloses(lines[x])
    decreases |lines| - i
  {
    hide FenceCloses;
    if i < |lines| && !FenceCloses(lines[i]) { NoCloseBefore(lines, i + 1, j); }
  }

  /** The fence is that of lines i to j, which are a block. */
  ghost predicate FencesBlock(lines: seq<Text>, i: int, j: int, max: int, f: Fence) {
    IsBlock(lines, i, j) && f == FenceOf(lines, i, j, max)
  }

  /** A fence is a code block of the lines. */
  lemma {:induction false} FenceIsBlock(lines: seq<Text>, from: int, max: int, f: Fence)
    requires 0 <= from <= |lines| && f in FencesFrom(lines, from, max)
    ensures exists i, j :: FencesBlock(lines, i, j, max, f)
    decreases |lines| - from
  {
    hide FenceOpens, OneLineCode, FenceOf;
    if f !in FenceHere(lines, from, max) {
      FenceIsBlock(lines, LastLine(ChunkAt(lines, from)) + 1, max, f);
    } else {
      assert FencesBlock(lines, from, ChunkAt(lines, from).last, max, f);
    }
  }

  /**
   * The head holds the first lines of the block of lines i to j, up to a part of line k, and closes them. They are a code
   * block that ends with the head, exactly when that part neither closes it early nor, of the opener, is code by itself; and
   * else they are code up to there.
   */
  ghost predicate HeadHolds(lines: seq<Text>, head: Text, i: nat, j: nat, k: nat, part: Text) {
    var hl := Split(head);
    && IsBlock(lines, i, j) && i <= k <= j && part <= lines[k] && hl == lines[..k] + [part] + [TICKS]
    && var stray := if k == i then OneLineCode(part) else FenceCloses(part);
       ChunkAt(hl, i) == CodeLines(i, if stray then k else k + 1)
  }

  /**
   * The tail holds the last lines of the block, from a part of line l, reopened. They are a code block that ends where the
   * block ended, exactly when that part doesn't close it; else it is a code block of nothing.
   */
  ghost predicate TailHolds(lines: seq<Text>, tail: Text, i: nat, j: nat, l: nat, part: Text) {
    var tl := Split(tail);
    && IsBlock(lines, i, j) && i <= l <= j && EndsWith(lines[l], part) && |tl| == |lines| - l + 1
    && tl[1..] == [part] + lines[l + 1..]
    && ChunkAt(tl, 0) == CodeLines(0, if FenceCloses(part) then 1 else j - l + 1)
  }

  lemma HeadIsBlock(lines: seq<Text>, i: nat, j: nat, a: nat, k: nat)
    requires IsBlock(lines, i, j) && InLine(lines, a, k) && i <= k <= j && a >= LineStart(lines, i) + 3
    requires forall x :: 0 <= x < |lines| ==> NEWLINE !in lines[x]
    ensures a <= |JoinLines(lines)| && HeadHolds(lines, JoinLines(lines)[..a] + CLOSE, i, j, k, Before(lines, a, k))
  {
    var part := Before(lines, a, k);
    var hl := lines[..k] + [part] + [TICKS];
    hide FenceOpens, OneLineCode, FenceCloses, JoinLines, Split, LineStart, LineEnd, NextClose, ChunkAt;
    LinesOfHead(lines, a, k);
    NoCloseBefore(lines, i + 1, j);
    assert part <= lines[k];
    if k == i { OpenerStays(lines[i], part); }
    hide Before;
    ClosedAt(hl, i, k) by {
      forall x | i < x < k ensures hl[x] == lines[x] {}
      assert k > i ==> hl[i] == lines[i];
    }
  }

  /** A block that is closed on its last line, unless the line before that already ends it. */
  lemma ClosedAt(hl: seq<Text>, i: nat, k: nat)
    requires i <= k && |hl| == k + 2 && FenceOpens(hl[i]) && hl[k + 1] == TICKS
    requires i < k ==> !OneLineCode(hl[i]) && forall x :: i < x < k ==> !FenceCloses(hl[x])
    ensures ChunkAt(hl, i) == CodeLines(i, if k == i then (if OneLineCode(hl[i]) then i else i + 1)
                                           else if FenceCloses(hl[k]) then k else k + 1)
  {
    TicksClose();
    hide FenceOpens, OneLineCode, FenceCloses;
    NextCloseIs(hl, i + 1, if k > i && FenceCloses(hl[k]) then k else k + 1);
    hide NextClose;
  }

  lemma TicksClose()
    ensures FenceCloses(TICKS)
  {
    assert Trim(TICKS) == TICKS;
  }

  /** What begins with an opener's backticks is an opener. */
  lemma OpenerStays(line: Text, part: Text)
    requires FenceOpens(line) && part <= line && |part| >= 3
    ensures FenceOpens(part)
  {
    assert part[..3] == line[..3];
  }

  lemma TailIsBlock(lines: seq<Text>, i: nat, j: nat, reopen: Text, b: nat, l: nat)
    requires IsBlock(lines, i, j) && InLine(lines, b, l) && i <= l <= j && (l == j ==> b == LineStart(lines, j))
    requires NEWLINE !in reopen && FenceOpens(reopen) && !OneLineCode(reopen)
    requires forall x :: 0 <= x < |lines| ==> NEWLINE !in lines[x]
    ensures b <= |JoinLines(lines)|
    ensures TailHolds(lines, reopen + [NEWLINE] + JoinLines(lines)[b..], i, j, l, After(lines, b, l))
  {
    var part := After(lines, b, l);
    var tl := [reopen] + [part] + lines[l + 1..];
    hide FenceOpens, OneLineCode, FenceCloses, JoinLines, Split, LineStart, LineEnd, EndsWith, NextClose, ChunkAt;
    LinesOfTail(lines, reopen, b, l);
    NoCloseBefore(lines, i + 1, j);
    AfterEnds(lines, b, l);
    hide After, InLine, IsBlock;
    TailChunk(lines, reopen, part, i, j, l);
  }

  lemma TailChunk(lines: seq<Text>, reopen: Text, part: Text, i: nat, j: nat, l: nat)
    requires i <= l <= j < |lines| && FenceOpens(reopen) && !OneLineCode(reopen)
    requires FenceCloses(lines[j]) && (l == j ==> part == lines[j]) && forall x :: i < x < j ==> !FenceCloses(lines[x])
    ensures var tl := [reopen] + [part] + lines[l + 1..];
            && |tl| == |lines| - l + 1 && tl[1..] == [part] + lines[l + 1..]
            && ChunkAt(tl, 0) == CodeLines(0, if FenceCloses(part) then 1 else j - l + 1)
  {
    hide FenceOpens, OneLineCode, FenceCloses, ChunkAt;
    var tl := [reopen] + [part] + lines[l + 1..];
    forall x | 2 <= x < |tl| ensures tl[x] == lines[l - 1 + x] {}
    OpenUntil(tl, j - l + 1);
  }

  /** A block that runs to line m, unless the first line after its opener already ends it. */
  lemma OpenUntil(tl: seq<Text>, m: nat)
    requires 1 <= m < |tl| && FenceOpens(tl[0]) && !OneLineCode(tl[0]) && FenceCloses(tl[m])
    requires forall x :: 1 < x < m ==> !FenceCloses(tl[x])
    ensures ChunkAt(tl, 0) == CodeLines(0, if FenceCloses(tl[1]) then 1 else m)
  {
    hide FenceOpens, OneLineCode, FenceCloses;
    NextCloseIs(tl, 1, if FenceCloses(tl[1]) then 1 else m);
    hide NextClose;
  }

  lemma AfterEnds(lines: seq<Text>, b: nat, l: nat)
    requires InLine(lines, b, l)
    ensures EndsWith(lines[l], After(lines, b, l)) && (b == LineStart(lines, l) ==> After(lines, b, l) == lines[l])
  {}

  /** The text from a block's opener on has the block first. */
  lemma MovedBlock(lines: seq<Text>, i: nat, j: nat)
    requires IsBlock(lines, i, j) && forall x :: 0 <= x < |lines| ==> NEWLINE !in lines[x]
    ensures LineStart(lines, i) <= |JoinLines(lines)|
    ensures var tl := Split(JoinLines(lines)[LineStart(lines, i)..]); tl == lines[i..] && ChunkAt(tl, 0) == CodeLines(0, j - i)
  {
    hide FenceOpens, OneLineCode, FenceCloses, JoinLines, Split, LineStart, LineEnd, After, NextClose, ChunkAt;
    var tl := lines[i..];
    StartInLine(lines, i);
    JoinAfter(lines, LineStart(lines, i), i);
    AfterEnds(lines, LineStart(lines, i), i);
    assert [lines[i]] + lines[i + 1..] == tl;
    SplitJoin(tl);
    NoCloseBefore(lines, i + 1, j);
    MovedChunk(lines, i, j);
  }

  lemma StartInLine(lines: seq<Text>, i: nat)
    requires i < |lines|
    ensures InLine(lines, LineStart(lines, i), i)
  {}

  lemma MovedChunk(lines: seq<Text>, i: nat, j: nat)
    requires i < j < |lines| && FenceOpens(lines[i]) && !OneLineCode(lines[i]) && FenceCloses(lines[j])
    requires forall x :: i < x < j ==> !FenceCloses(lines[x])
    ensures ChunkAt(lines[i..], 0) == CodeLines(0, j - i)
  {
    hide FenceOpens, OneLineCode, FenceCloses;
    var tl := lines[i..];
    forall x | 0 <= x < |tl| ensures tl[x] == lines[i + x] {}
    NextCloseIs(tl, 1, j - i);
    hide NextClose;
  }

  // ---------------------------------------------------------------------------------------------
  // One cut
  // ---------------------------------------------------------------------------------------------

  predicate Around(f: Fence, at: int) { f.openStart < at < f.closeEnd }

  /** The first fence a cut at `at` would land inside. */
  function FenceAround(fences: seq<Fence>, at: int): (r: Option<Fence>)
    ensures r.Some? ==> r.value in fences && Around(r.value, at)
    ensures r.None? ==> forall f :: f in fences ==> !Around(f, at)
  {
    if fences == [] then None else if Around(fences[0], at) then Some(fences[0]) else FenceAround(fences[1..], at)
  }

  /** text.lastIndexOf(sep, from) */
  function LastIndex(text: Text, sep: Text, from: int): (r: int)
    requires from <= |text|
    ensures r == -1 || (0 <= r <= from && StartsAt(text, sep, r))
    ensures forall k :: r < k <= from ==> !StartsAt(text, sep, k)
    decreases from + 1
  {
    if from < 0 then -1 else if StartsAt(text, sep, from) then from else LastIndex(text, sep, from - 1)
  }

  datatype Cut = Cut(headEnd: int, tailStart: int)

  /** A break in the second half of the window. */
  predicate BreakAt(text: Text, c: Cut, low: int, room: int) {
    0 <= low <= c.headEnd <= room && c.headEnd <= c.tailStart <= |text|
    && (text[c.headEnd..c.tailStart] == [NEWLINE, NEWLINE] || text[c.headEnd..c.tailStart] == [NEWLINE]
        || text[c.headEnd..c.tailStart] == [SPACE])
  }

  /** The last place from `low` up to `from` where `sep` stands. */
  function LastBreak(text: Text, sep: Text, low: int, from: int): (r: Option<int>)
    requires from <= |text|
    decreases from - low + 1
  {
    if from < low then None else if StartsAt(text, sep, from) then Some(from) else LastBreak(text, sep, low, from - 1)
  }

  /** The last such place outside every fence. */
  function LastOutside(text: Text, fences: seq<Fence>, sep: Text, low: int, from: int): (r: Option<int>)
    requires from <= |text|
    decreases from - low + 1
  {
    if from < low then None
    else if StartsAt(text, sep, from) && FenceAround(fences, from).None? then Some(from)
    else LastOutside(text, fences, sep, low, from - 1)
  }

  lemma {:induction false} LastSkips(text: Text, fences: seq<Fence>, sep: Text, low: int, from: int, i: int)
    requires -1 <= i <= from <= |text| && 0 < low && forall k :: i < k <= from ==> !StartsAt(text, sep, k)
    ensures LastBreak(text, sep, low, from) == LastBreak(text, sep, low, i)
    ensures LastOutside(text, fences, sep, low, from) == LastOutside(text, fences, sep, low, i)
    decreases from
  {
    hide StartsAt, FenceAround;
    if i < from { LastSkips(text, fences, sep, low, from - 1, i); }
  }

  /** The last break of one kind outside every fence, or else the last inside one. */
  method FindBreak(text: Text, fences: seq<Fence>, sep: Text, low: int, room: int) returns (cut: Option<Cut>, inside: Option<Cut>)
    requires 0 < low <= room <= |text| && (sep == [NEWLINE, NEWLINE] || sep == [NEWLINE] || sep == [SPACE])
    ensures cut.Some? ==> BreakAt(text, cut.value, low, room) && FenceAround(fences, cut.value.headEnd).None?
    ensures cut.Some? ==> text[cut.value.headEnd..cut.value.tailStart] == sep
    ensures cut.Some? ==> forall k :: cut.value.headEnd < k <= room && StartsAt(text, sep, k) ==> FenceAround(fences, k).Some?
    ensures cut.None? ==> forall k :: low <= k <= room && StartsAt(text, sep, k) ==> FenceAround(fences, k).Some?
    ensures inside.Some? ==> BreakAt(text, inside.value, low, room)
    ensures cut.None? && inside.None? ==> forall k :: low <= k <= room ==> !StartsAt(text, sep, k)
    ensures cut == CutOf(LastOutside(text, fences, sep, low, room), |sep|)
    ensures cut.None? ==> inside == CutOf(LastBreak(text, sep, low, room), |sep|)
  {
    hide LastBreak, LastOutside, LastIndex;
    cut, inside := None, None;
    var i := LastIndex(text, sep, room);
    LastSkips(text, fences, sep, low, room, i);
    while i >= low
      invariant -1 <= i <= room && (i >= 0 ==> StartsAt(text, sep, i))
      invariant forall k :: i < k <= room && StartsAt(text, sep, k) ==> FenceAround(fences, k).Some?
      invariant inside.Some? ==> BreakAt(text, inside.value, low, room)
      invariant inside.None? ==> forall k :: i < k <= room ==> !StartsAt(text, sep, k)
      invariant LastOutside(text, fences, sep, low, room) == LastOutside(text, fences, sep, low, i)
      invariant inside.Some? ==> inside == CutOf(LastBreak(text, sep, low, room), |sep|)
      invariant inside.None? ==> LastBreak(text, sep, low, room) == LastBreak(text, sep, low, i)
      decreases i
    {
      var here := Cut(i, i + |sep|);
      LastHere(text, fences, sep, low, i);
      if FenceAround(fences, i).None? {
        cut := Some(here);
        return;
      }
      if inside.None? { inside := Some(here); }
      LastSkips(text, fences, sep, low, i - 1, LastIndex(text, sep, i - 1));
      i := LastIndex(text, sep, i - 1);
    }
    NoneBelow(text, fences, sep, low, i);
  }

  lemma LastHere(text: Text, fences: seq<Fence>, sep: Text, low: int, i: int)
    requires low <= i <= |text| && StartsAt(text, sep, i)
    ensures LastBreak(text, sep, low, i) == Some(i)
    ensures LastOutside(text, fences, sep, low, i)
            == if FenceAround(fences, i).None? then Some(i) else LastOutside(text, fences, sep, low, i - 1)
  {
    hide StartsAt, FenceAround;
  }

  lemma NoneBelow(text: Text, fences: seq<Fence>, sep: Text, low: int, i: int)
    requires i < low && i <= |text|
    ensures LastBreak(text, sep, low, i) == None && LastOutside(text, fences, sep, low, i) == None
  {}

  function CutOf(at: Option<int>, length: int): Option<Cut> {
    if at.Some? then Some(Cut(at.value, at.value + length)) else None
  }

  /** c is a cut in the window; a hard one only when the window has no break; inside a block only when every break is. */
  predicate Chosen(text: Text, fences: seq<Fence>, c: Cut, low: int, room: int)
    requires 0 < room <= |text|
  {
    && (BreakAt(text, c, low, room) || HardCut(text, c, room))
    && (HardCut(text, c, room) ==> forall k :: low <= k <= room ==> !BreakStarts(text, k))
    && (FenceAround(fences, c.headEnd).Some? && c.headEnd < c.tailStart ==>
        forall k :: low <= k <= room && BreakStarts(text, k) ==> FenceAround(fences, k).Some?)
  }

  predicate BreakStarts(text: Text, k: int) { StartsAt(text, [NEWLINE], k) || StartsAt(text, [SPACE], k) }

  predicate HardCut(text: Text, c: Cut, room: int)
    requires 0 < room <= |text|
  {
    c.headEnd == c.tailStart == if IsHighSurrogate(text[room - 1]) then room - 1 else room
  }

  /** The break that is chosen: outside every fence if there is one, a paragraph before a line before a word. */
  function Choice(text: Text, fences: seq<Fence>, low: int, room: int): Cut
    requires 0 < low < room <= |text|
  {
    var outside := CutOf(LastOutside(text, fences, [NEWLINE, NEWLINE], low, room), 2);
    if outside.Some? then outside.value else
    var outside2 := CutOf(LastOutside(text, fences, [NEWLINE], low, room), 1);
    if outside2.Some? then outside2.value else
    var outside3 := CutOf(LastOutside(text, fences, [SPACE], low, room), 1);
    if outside3.Some? then outside3.value else
    var inside := CutOf(LastBreak(text, [NEWLINE, NEWLINE], low, room), 2);
    if inside.Some? then inside.value else
    var inside2 := CutOf(LastBreak(text, [NEWLINE], low, room), 1);
    if inside2.Some? then inside2.value else
    var inside3 := CutOf(LastBreak(text, [SPACE], low, room), 1);
    if inside3.Some? then inside3.value else
    var at := if IsHighSurrogate(text[room - 1]) then room - 1 else room;
    Cut(at, at)
  }

  /**
   * Where to break: a paragraph, a line or a word in the second half of the window, the best kind
   * first and the last one of it, outside code blocks if any kind allows; else a hard cut.
   */
  method ChooseCut(text: Text, fences: seq<Fence>, low: int, room: int) returns (c: Cut)
    requires 0 < low < room <= |text|
    ensures Chosen(text, fences, c, low, room)
    ensures c == Choice(text, fences, low, room)
  {
    hide LastBreak, LastOutside;
    var cut, inside := FindBreak(text, fences, [NEWLINE, NEWLINE], low, room);
    if cut.Some? { return cut.value; }
    var cut2, inside2 := FindBreak(text, fences, [NEWLINE], low, room);
    if cut2.Some? { return cut2.value; }
    var cut3, inside3 := FindBreak(text, fences, [SPACE], low, room);
    if cut3.Some? { return cut3.value; }
    if inside.Some? { return inside.value; }
    if inside2.Some? { return inside2.value; }
    if inside3.Some? { return inside3.value; }
    var at := room;
    if IsHighSurrogate(text[at - 1]) { at := at - 1; }
    return Cut(at, at);
  }

  function DropNewlines(s: Text): (r: Text)
    ensures |r| <= |s| && r == s[|s| - |r|..] && forall k :: 0 <= k < |s| - |r| ==> s[k] == NEWLINE
  {
    if s != [] && s[0] == NEWLINE then DropNewlines(s[1..]) else s
  }

  /**
   * How `text` was cut: text[..a], perhaps closed; then perhaps a reopened fence, and text[b..]. Between them,
   * nothing but blanks and backticks.
   */
  ghost predicate CutsAt(text: Text, head: Text, tail: Text, a: int, b: int, reopen: Text) {
    && 0 <= a <= b <= |text| && Blank(text, a, b)
    && (if reopen == [] then (head == text[..a] || head == text[..a] + CLOSE) && tail == text[b..]
        else TICKS <= reopen && head == text[..a] + CLOSE && tail == reopen + [NEWLINE] + text[b..])
  }

  predicate StartsSolid(s: Text) { s != [] ==> !IsSpace(s[0]) }

  lemma BreakIsBlank(text: Text, fences: seq<Fence>, c: Cut, low: int, room: int)
    requires 0 < low < room <= |text| && Chosen(text, fences, c, low, room)
    ensures 0 < c.headEnd <= room && c.headEnd <= c.tailStart <= |text| && room - 1 <= |text|
    ensures BreakAt(text, c, low, room) || (c.headEnd == c.tailStart && c.headEnd >= room - 1)
    ensures Blank(text, c.headEnd, c.tailStart)
  {
  }

  lemma BlankJoin(text: Text, a: int, b: int, c: int)
    requires 0 <= a <= b <= c <= |text| && Blank(text, a, b) && Blank(text, b, c)
    ensures Blank(text, a, c)
  {
  }

  /** text.slice(0, end).trimEnd(), and how much of it is left. */
  lemma TrimmedHead(text: Text, end: int)
    requires 0 < end <= |text| && !IsSpace(text[0])
    ensures var head := TrimEnd(text[..end]);
      0 < |head| <= end && head == text[..|head|] && Blank(text, |head|, end)
  {
    var head := TrimEnd(text[..end]);
    TrimEndMeans(text[..end]);
    assert text[..end][0] == text[0];
    assert text[..end][..|head|] == text[..|head|];
    forall k | |head| <= k < end ensures IsSpace(text[k]) {
      assert text[..end][k] == text[k];
    }
  }

  /** What is dropped off the front of text[start..], as a range of text. */
  lemma FrontDropped(text: Text, start: int, tail: Text)
    requires 0 <= start <= |text| && |tail| <= |text| - start && tail == text[start..][|text| - start - |tail|..]
    requires forall k :: 0 <= k < |text| - start - |tail| ==> IsSpace(text[start..][k])
    ensures tail == text[|text| - |tail|..] && Blank(text, start, |text| - |tail|)
  {
    hide IsSpace;
    var after := text[start..];
    forall k | start <= k < |text| - |tail| ensures IsSpace(text[k]) {
      assert IsSpace(after[k - start]);
    }
  }

  lemma TrimmedTail(text: Text, start: int)
    requires 0 <= start <= |text|
    ensures var tail := TrimStart(text[start..]);
      var b := |text| - |tail|;
      start <= b && tail == text[b..] && Blank(text, start, b) && StartsSolid(tail)
  {
    hide TrimStart, Blank, IsSpace;
    TrimStartMeans(text[start..]);
    FrontDropped(text, start, TrimStart(text[start..]));
  }

  /**
   * The ways to cut: with no code block around; before an opener that is moved on; at the end of a block; or inside one, which
   * is closed and reopened before what is kept of it.
   */
  datatype Way = Plain | MovedOn(opener: int) | Closed | Reopened(kept: int, reopen: Text)

  function WayOf(text: Text, fence: Option<Fence>, c: Cut): Way
    requires c.tailStart <= |text| && (fence.Some? ==> 0 <= fence.value.openStart <= |text|)
    requires 0 <= c.tailStart
  {
    if fence.None? then Plain
    else if c.headEnd <= fence.value.openEnd && Trim(text[..fence.value.openStart]) != [] then MovedOn(fence.value.openStart)
    else if c.tailStart >= fence.value.closeStart then Closed
    else Reopened(|text| - |DropNewlines(text[c.tailStart..])|, fence.value.reopen)
  }

  /** What a text longer than a message is cut by. */
  function CutWay(text: Text, max: int): Way
    requires max >= 16 && |text| > max
  {
    var low, room := (max - 4) / 2, max - 4;
    var fences := FencesFrom(Split(text), 0, max);
    var c := Choice(text, fences, low, room);
    CutFits(text, max);
    WayOf(text, FenceAround(fences, c.headEnd), c)
  }

  lemma CutFits(text: Text, max: int)
    requires max >= 16 && |text| > max
    ensures var low, room, fences := (max - 4) / 2, max - 4, FencesFrom(Split(text), 0, max);
            var c := Choice(text, fences, low, room);
            var fence := FenceAround(fences, c.headEnd);
            0 <= c.tailStart <= |text|
                && (fence.Some? ==> 0 <= fence.value.openStart <= |text| && GoodFence(text, fence.value, max))
  {
    hide FencesFrom, Split, GoodFence, FenceAround;
    JoinSplit(text);
    SplitHasNoNewline(text);
    FencesAreGood(Split(text), 0, max);
    var fences := FencesFrom(Split(text), 0, max);
    ChoiceInText(text, fences, (max - 4) / 2, max - 4);
    var fence := FenceAround(fences, Choice(text, fences, (max - 4) / 2, max - 4).headEnd);
    if fence.Some? { GoodFenceInText(text, fence.value, max); }
  }

  lemma GoodFenceInText(text: Text, f: Fence, max: int)
    requires GoodFence(text, f, max)
    ensures 0 <= f.openStart <= |text|
  {}

  lemma ChoiceInText(text: Text, fences: seq<Fence>, low: int, room: int)
    requires 0 < low < room <= |text|
    ensures var c := Choice(text, fences, low, room);
            0 <= c.tailStart <= |text| && (c.tailStart > low || c.tailStart >= room - 1)
  {
    LastInText(text, fences, [NEWLINE, NEWLINE], low, room);
    LastInText(text, fences, [NEWLINE], low, room);
    LastInText(text, fences, [SPACE], low, room);
  }

  lemma {:induction false} LastInText(text: Text, fences: seq<Fence>, sep: Text, low: int, from: int)
    requires 0 < low && from <= |text|
    ensures var r := LastBreak(text, sep, low, from); r.Some? ==> low <= r.value && r.value + |sep| <= |text|
    ensures var r := LastOutside(text, fences, sep, low, from); r.Some? ==> low <= r.value && r.value + |sep| <= |text|
    decreases from - low + 1
  {
    if from >= low { LastInText(text, fences, sep, low, from - 1); }
  }

  /** What a cut takes: a quarter of a message or more, unless an opener is moved on or a block reopened. */
  predicate Took(text: Text, tail: Text, way: Way, max: int) {
    match way
    case Plain => 4 * (|text| - |tail|) >= max
    case Closed => 4 * (|text| - |tail|) >= max
    case MovedOn(opener) => |text| - |tail| == opener
    case Reopened(kept, reopen) => |text| - |tail| == kept - (|reopen| + 1)
  }

  /** The opener moved on stands a quarter of a message in, and so does what a reopened block takes, less its new opener. */
  predicate TakesQuarter(way: Way, max: int) {
    match way
    case Plain => true
    case Closed => true
    case MovedOn(opener) => 4 * opener >= max
    case Reopened(kept, reopen) => 4 * (kept - (|reopen| + 1)) >= max
  }

  /**
   * What becomes of the block a cut lands in. Moved on, it is the first of the tail, as it was. Otherwise the head holds its
   * first lines, closed; and the tail its last ones, reopened, unless there are none.
   */
  ghost predicate BlockGoesOn(lines: seq<Text>, head: Text, tail: Text, way: Way) {
    match way
    case Plain => true
    case MovedOn(opener) =>
      exists i, j ::
        && IsBlock(lines, i, j) && LineStart(lines, i) == opener
        && Split(tail) == lines[i..] && ChunkAt(Split(tail), 0) == CodeLines(0, j - i)
    case Closed => exists i, j, k, part :: HeadHolds(lines, head, i, j, k, part)
    case Reopened(_, _) =>
      exists i, j, k, part, l, rest :: HeadHolds(lines, head, i, j, k, part) && TailHolds(lines, tail, i, j, l, rest)
  }

  /** What is cut short has the block's opener in it. */
  lemma OpenerInHead(text: Text, openStart: int, headEnd: int)
    requires 0 <= openStart && openStart + 3 <= headEnd <= |text| && text[openStart..openStart + 3] == TICKS
    ensures |TrimEnd(text[..headEnd])| >= openStart + 3
  {
    var head := TrimEnd(text[..headEnd]);
    TrimEndMeans(text[..headEnd]);
    assert text[openStart + 2] == text[openStart..openStart + 3][2] == TICK;
    assert text[..headEnd][openStart + 2] == TICK;
  }

  /** A cut in an opener with nothing before it is well past its backticks. */
  lemma OpenerFirst(text: Text, openStart: int)
    requires StartsSolid(text) && 0 <= openStart < |text| && Trim(text[..openStart]) == []
    ensures openStart == 0
  {
    if openStart > 0 {
      var s := text[..openStart];
      assert s[0] == text[0] && TrimStart(s) == s;
      TrimEndMeans(s);
    }
  }

  lemma ReopenIsOpener(opener: Text, max: int)
    requires |opener| >= 3
    ensures var r := Reopen(opener, max); FenceOpens(r) && !OneLineCode(r) && NEWLINE !in r
  {
    var r, lang := Reopen(opener, max), Lang(opener[3..]);
    if lang != [] {
      assert forall k :: 0 <= k < |lang| ==> LangChar(lang[k]);
      if r == TICKS + lang { LangOpens(lang); }
    }
  }

  lemma LangOpens(lang: Text)
    requires lang != [] && forall k :: 0 <= k < |lang| ==> LangChar(lang[k])
    ensures var r := TICKS + lang; FenceOpens(r) && !OneLineCode(r) && NEWLINE !in r
  {
    var r := TICKS + lang;
    assert r[..3] == TICKS;
    assert forall k :: 3 <= k < |r| ==> r[k] == lang[k - 3];
    assert r[|r| - 1] == lang[|lang| - 1] != TICK;
  }

  lemma FenceOfLines(lines: seq<Text>, i: int, j: int, max: int, f: Fence)
    requires FencesBlock(lines, i, j, max, f)
    ensures 0 <= i < j < |lines| && IsBlock(lines, i, j)
    ensures && f.openStart == LineStart(lines, i) && f.openEnd == LineEnd(lines, i) && f.closeStart == LineStart(lines, j)
            && f.closeEnd == LineEnd(lines, j) && FenceOpens(f.reopen) && !OneLineCode(f.reopen) && NEWLINE !in f.reopen
            && LineStart(lines, i) + 3 <= LineEnd(lines, i) <= |JoinLines(lines)|
            && JoinLines(lines)[LineStart(lines, i)..LineStart(lines, i) + 3] == TICKS
  {
    ReopenIsOpener(lines[i], max);
    LinesIn(lines, i);
    var start := LineStart(lines, i);
    assert JoinLines(lines)[start..LineEnd(lines, i)][..3] == TICKS;
    assert JoinLines(lines)[start..start + 3] == JoinLines(lines)[start..LineEnd(lines, i)][..3];
  }

  /** The cut comes after the opener's backticks and, trimmed, still has them. */
  lemma HeadGoesOn(lines: seq<Text>, i: nat, j: nat, a: nat)
    requires IsBlock(lines, i, j) && LineStart(lines, i) + 3 <= a <= LineEnd(lines, j)
    requires forall x :: 0 <= x < |lines| ==> NEWLINE !in lines[x]
    ensures a <= |JoinLines(lines)| && exists k, part :: HeadHolds(lines, JoinLines(lines)[..a] + CLOSE, i, j, k, part)
  {
    SomeLine(lines, a, i, j);
    var k :| i <= k <= j && InLine(lines, a, k);
    hide IsBlock, JoinLines, LineStart, LineEnd, HeadHolds;
    HeadIsBlock(lines, i, j, a, k);
  }

  lemma TailGoesOn(lines: seq<Text>, i: nat, j: nat, reopen: Text, b: nat)
    requires IsBlock(lines, i, j) && LineStart(lines, i) < b <= LineStart(lines, j)
    requires NEWLINE !in reopen && FenceOpens(reopen) && !OneLineCode(reopen)
    requires forall x :: 0 <= x < |lines| ==> NEWLINE !in lines[x]
    ensures b <= |JoinLines(lines)|
    ensures exists l, rest :: TailHolds(lines, reopen + [NEWLINE] + JoinLines(lines)[b..], i, j, l, rest)
  {
    LineEndIs(lines, j);
    SomeLine(lines, b, i, j);
    var l :| i <= l <= j && InLine(lines, b, l);
    hide IsBlock, JoinLines, LineStart, LineEnd, TailHolds, FenceOpens, OneLineCode;
    TailIsBlock(lines, i, j, reopen, b, l);
  }

  /** A cut in a fence that is not moved on comes after its backticks, and the trimmed head still has them. */
  lemma HeadHasOpener(text: Text, i: int, j: int, max: int, f: Fence, c: Cut)
    requires FencesBlock(Split(text), i, j, max, f) && StartsSolid(text) && 6 <= c.headEnd <= |text|
    requires Around(f, c.headEnd) && 0 <= f.openStart <= |text| && !(c.headEnd <= f.openEnd && Trim(text[..f.openStart]) != [])
    ensures f.openStart + 3 <= |TrimEnd(text[..c.headEnd])| <= c.headEnd
  {
    var lines := Split(text);
    JoinSplit(text);
    FenceOfLines(lines, i, j, max, f);
    hide FencesBlock, JoinLines, LineStart, LineEnd, FenceOpens, OneLineCode, Split, Trim, TrimEnd;
    if c.headEnd <= f.openEnd { OpenerFirst(text, f.openStart); }
    OpenerInHead(text, f.openStart, c.headEnd);
  }

  lemma GoesOnMoved(text: Text, max: int, f: Fence, head: Text)
    requires f in FencesFrom(Split(text), 0, max)
    ensures 0 <= f.openStart <= |text| && BlockGoesOn(Split(text), head, text[f.openStart..], MovedOn(f.openStart))
  {
    var lines := Split(text);
    JoinSplit(text);
    SplitHasNoNewline(text);
    hide Split, FencesFrom, IsBlock, JoinLines, ChunkAt, FencesBlock;
    FenceIsBlock(lines, 0, max, f);
    var i, j :| FencesBlock(lines, i, j, max, f);
    FenceOfLines(lines, i, j, max, f);
    MovedBlock(lines, i, j);
  }

  lemma GoesOnClosed(text: Text, max: int, f: Fence, c: Cut, tail: Text)
    requires f in FencesFrom(Split(text), 0, max) && StartsSolid(text) && 6 <= c.headEnd <= |text| && 0 <= f.openStart <= |text|
    requires Around(f, c.headEnd) && !(c.headEnd <= f.openEnd && Trim(text[..f.openStart]) != [])
    ensures var a := |TrimEnd(text[..c.headEnd])|;
            a <= |text| && BlockGoesOn(Split(text), text[..a] + CLOSE, tail, Closed)
  {
    var lines := Split(text);
    JoinSplit(text);
    SplitHasNoNewline(text);
    hide Split, FencesFrom, IsBlock, JoinLines, HeadHolds, FenceOpens, OneLineCode, Trim, TrimEnd, StartsSolid, FencesBlock,
      LineStart, LineEnd;
    FenceIsBlock(lines, 0, max, f);
    var i, j :| FencesBlock(lines, i, j, max, f);
    FenceOfLines(lines, i, j, max, f);
    HeadHasOpener(text, i, j, max, f, c);
    HeadGoesOn(lines, i, j, |TrimEnd(text[..c.headEnd])|);
  }

  lemma GoesOnReopened(text: Text, max: int, f: Fence, c: Cut, b: nat)
    requires f in FencesFrom(Split(text), 0, max) && StartsSolid(text) && 6 <= c.headEnd <= b && 0 <= f.openStart <= |text|
    requires Around(f, c.headEnd) && !(c.headEnd <= f.openEnd && Trim(text[..f.openStart]) != []) && b <= f.closeStart <= |text|
    ensures var a := |TrimEnd(text[..c.headEnd])|;
            && a <= |text|
            && BlockGoesOn(Split(text), text[..a] + CLOSE, f.reopen + [NEWLINE] + text[b..], Reopened(b, f.reopen))
  {
    var lines := Split(text);
    JoinSplit(text);
    SplitHasNoNewline(text);
    hide Split, FencesFrom, IsBlock, JoinLines, HeadHolds, TailHolds, FenceOpens, OneLineCode, Trim, TrimEnd, StartsSolid,
      FencesBlock, LineStart, LineEnd;
    FenceIsBlock(lines, 0, max, f);
    var i, j :| FencesBlock(lines, i, j, max, f);
    FenceOfLines(lines, i, j, max, f);
    HeadHasOpener(text, i, j, max, f, c);
    HeadGoesOn(lines, i, j, |TrimEnd(text[..c.headEnd])|);
    TailGoesOn(lines, i, j, f.reopen, b);
  }

  /** `cutOnce`: one message's worth off the front of a text longer than a message. */
  method CutOnce(text: Text, max: int) returns (head: Text, tail: Text, ghost a: int, ghost b: int, ghost reopen: Text)
    requires max >= 16 && |text| > max && StartsSolid(text)
    ensures head != [] && |head| <= max && |tail| < |text| && StartsSolid(tail)
    ensures CutsAt(text, head, tail, a, b, reopen) && !SplitsPair(text, a) && !SplitsPair(text, b)
    ensures Took(text, tail, CutWay(text, max), max)
    ensures 4 * (|text| - |tail|) >= max <==> TakesQuarter(CutWay(text, max), max)
    ensures BlockGoesOn(Split(text), head, tail, CutWay(text, max))
  {
    hide *;
    var fences := Fences(text, max);
    JoinSplit(text);
    SplitHasNoNewline(text);
    FencesAreGood(Split(text), 0, max);
    var room := max - 4;
    var low := room / 2;
    var c := ChooseCut(text, fences, low, room);
    BreakIsBlank(text, fences, c, low, room);
    BreakIsQuarter(text, c, low, room, max);
    HardCutKeepsPairs(text, fences, c, low, room);
    StartsText(text);
    TrimmedHead(text, c.headEnd);
    var fence := FenceAround(fences, c.headEnd);
    CutFits(text, max);
    CutWayIs(text, max, fences, c);
    a, reopen := |TrimEnd(text[..c.headEnd])|, [];
    BlankJoin(text, a, c.headEnd, c.tailStart);
    if fence.None? {
      TrimmedTail(text, c.tailStart);
      head, tail := TrimEnd(text[..c.headEnd]), TrimStart(text[c.tailStart..]);
      b := |text| - |tail|;
      BlankJoin(text, a, c.tailStart, b);
      CutPlain(text, a, b);
      PairsKept(text, a, b, c);
      TookPlain(text, tail, c, max);
      PlainGoesOn(text, head, tail, c);
    } else {
      assert fence.value in fences && Around(fence.value, c.headEnd);
      FenceBounds(text, fence.value, c, low, room, max);
      head, tail, a, b, reopen := CutInFence(text, max, fence.value, c);
    }
    TookQuarter(text, tail, CutWay(text, max), max);
  }

  lemma BreakIsQuarter(text: Text, c: Cut, low: int, room: int, max: int)
    requires max >= 16 && room == max - 4 && low == room / 2
    requires BreakAt(text, c, low, room) || (c.headEnd == c.tailStart && c.headEnd >= room - 1)
    ensures 4 * c.tailStart >= max && c.headEnd >= 6
  {}

  lemma CutWayIs(text: Text, max: int, fences: seq<Fence>, c: Cut)
    requires max >= 16 && |text| > max && fences == FencesFrom(Split(text), 0, max)
    requires c == Choice(text, fences, (max - 4) / 2, max - 4)
    requires var fence := FenceAround(fences, c.headEnd);
             0 <= c.tailStart <= |text| && (fence.Some? ==> 0 <= fence.value.openStart <= |text|)
    ensures CutWay(text, max) == WayOf(text, FenceAround(fences, c.headEnd), c)
  {}

  lemma TookPlain(text: Text, tail: Text, c: Cut, max: int)
    requires 0 <= c.tailStart <= |text| && |tail| <= |text| - c.tailStart && 4 * c.tailStart >= max
    ensures Took(text, tail, WayOf(text, None, c), max)
  {}

  lemma TookQuarter(text: Text, tail: Text, way: Way, max: int)
    requires Took(text, tail, way, max)
    ensures 4 * (|text| - |tail|) >= max <==> TakesQuarter(way, max)
  {}

  /** A cut inside a code block: before its opener, after its closer, or with the block closed and reopened around it. */
  method CutInFence(text: Text, max: int, f: Fence, c: Cut)
      returns (head: Text, tail: Text, ghost a: int, ghost b: int, ghost reopen: Text)
    requires 0 < c.headEnd <= c.tailStart <= |text| && c.headEnd <= max - 4 && StartsSolid(text)
    requires Blank(text, c.headEnd, c.tailStart) && GoodFence(text, f, max)
    requires FenceFits(text, f, c) && 0 <= f.openStart <= |text| && 4 * c.tailStart >= max
    requires c.headEnd == c.tailStart ==> !SplitsPair(text, c.headEnd)
    requires f in FencesFrom(Split(text), 0, max) && 6 <= c.headEnd && Around(f, c.headEnd)
    ensures head != [] && |head| <= max && |tail| < |text| && StartsSolid(tail)
    ensures CutsAt(text, head, tail, a, b, reopen) && !SplitsPair(text, a) && !SplitsPair(text, b)
    ensures Took(text, tail, WayOf(text, Some(f), c), max)
    ensures BlockGoesOn(Split(text), head, tail, WayOf(text, Some(f), c))
  {
    hide *;
    StartsText(text);
    FenceFitsMeans(text, f, c);
    reopen := [];
    if c.headEnd <= f.openEnd && Trim(text[..f.openStart]) != [] {
      OpenerAfterText(text, f.openStart);
      TrimmedHead(text, f.openStart);
      head, tail := TrimEnd(text[..f.openStart]), text[f.openStart..];
      a, b := |head|, f.openStart;
      CutPlain(text, a, b);
      TickKeepsPairs(text, a, b);
      TookMovedOn(text, tail, f, c, max);
      GoesOnMoved(text, max, f, head);
      return;
    }
    TrimmedHead(text, c.headEnd);
    a := |TrimEnd(text[..c.headEnd])|;
    BlankJoin(text, a, c.headEnd, c.tailStart);
    head := TrimEnd(text[..c.headEnd]) + CLOSE;
    CloseIsFour();
    if c.tailStart >= f.closeStart {
      TrimmedTail(text, f.closeEnd);
      tail := TrimStart(text[f.closeEnd..]);
      b := |text| - |tail|;
      CloserRest(text, f, c.tailStart, max);
      BlankJoin(text, a, c.tailStart, f.closeEnd);
      BlankJoin(text, a, f.closeEnd, b);
      CutPlain(text, a, b);
      PairsKept(text, a, b, c);
      TookClosed(text, tail, f, c, max);
      GoesOnClosed(text, max, f, c, tail);
      return;
    }
    var rest := DropNewlines(text[c.tailStart..]);
    tail := f.reopen + [NEWLINE] + rest;
    b, reopen := |text| - |rest|, f.reopen;
    DroppedNewlines(text, c.tailStart);
    BlankJoin(text, a, c.tailStart, b);
    CutReopened(text, a, b, f.reopen);
    PairsKept(text, a, b, c);
    TookReopened(text, tail, f, c, max);
    DropStops(text, f, c.tailStart, max);
    GoesOnReopened(text, max, f, c, b);
  }

  lemma HardCutKeepsPairs(text: Text, fences: seq<Fence>, c: Cut, low: int, room: int)
    requires 0 < low < room <= |text| && Chosen(text, fences, c, low, room)
    ensures c.headEnd == c.tailStart ==> !SplitsPair(text, c.headEnd)
  {}

  lemma TickKeepsPairs(text: Text, a: int, b: int)
    requires 0 <= a <= b < |text| && Blank(text, a, b) && text[b] == TICK
    ensures !SplitsPair(text, a) && !SplitsPair(text, b)
  {}

  /** Where blanks were dropped, no character was cut in two. */
  lemma PairsKept(text: Text, a: int, b: int, c: Cut)
    requires 0 <= a <= c.headEnd <= c.tailStart <= b <= |text| && Blank(text, a, b)
    requires c.headEnd == c.tailStart ==> !SplitsPair(text, c.headEnd)
    ensures !SplitsPair(text, a) && !SplitsPair(text, b)
  {}

  lemma PlainGoesOn(text: Text, head: Text, tail: Text, c: Cut)
    requires 0 <= c.tailStart <= |text|
    ensures BlockGoesOn(Split(text), head, tail, WayOf(text, None, c))
  {}

  /** Blank lines dropped after a cut in a block stop at its closing fence at the latest. */
  lemma DropStops(text: Text, f: Fence, start: int, max: int)
    requires GoodFence(text, f, max) && 0 <= start < f.closeStart
    ensures start <= |text| - |DropNewlines(text[start..])| <= f.closeStart <= |text|
  {
    assert text[f.closeStart] == text[f.closeStart..f.closeEnd][0];
    assert text[start..][f.closeStart - start] == text[f.closeStart];
  }

  lemma TookMovedOn(text: Text, tail: Text, f: Fence, c: Cut, max: int)
    requires 0 <= c.tailStart <= |text| && 0 <= f.openStart <= |text| && tail == text[f.openStart..]
    requires c.headEnd <= f.openEnd && Trim(text[..f.openStart]) != []
    ensures Took(text, tail, WayOf(text, Some(f), c), max) && WayOf(text, Some(f), c) == MovedOn(f.openStart)
  {}

  lemma TookClosed(text: Text, tail: Text, f: Fence, c: Cut, max: int)
    requires 0 <= c.tailStart <= f.closeEnd <= |text| && 0 <= f.openStart <= |text| && |tail| <= |text| - f.closeEnd
    requires !(c.headEnd <= f.openEnd && Trim(text[..f.openStart]) != []) && c.tailStart >= f.closeStart && 4 * c.tailStart >= max
    ensures Took(text, tail, WayOf(text, Some(f), c), max) && WayOf(text, Some(f), c) == Closed
  {}

  lemma TookReopened(text: Text, tail: Text, f: Fence, c: Cut, max: int)
    requires 0 <= c.tailStart <= |text| && 0 <= f.openStart <= |text|
    requires !(c.headEnd <= f.openEnd && Trim(text[..f.openStart]) != []) && c.tailStart < f.closeStart
    requires tail == f.reopen + [NEWLINE] + DropNewlines(text[c.tailStart..])
    ensures Took(text, tail, WayOf(text, Some(f), c), max)
    ensures WayOf(text, Some(f), c) == Reopened(|text| - |DropNewlines(text[c.tailStart..])|, f.reopen)
  {}

  /**
   * With room enough, a reopened block takes a quarter all the same: the comment's bound then holds exactly when no opener is
   * moved on from before a quarter of a message.
   */
  lemma QuarterExactly(text: Text, max: int)
    requires (max == 20 || max >= 22) && |text| > max
    ensures TakesQuarter(CutWay(text, max), max) <==> !(CutWay(text, max).MovedOn? && 4 * CutWay(text, max).opener < max)
  {
    hide *;
    var way := CutWay(text, max);
    if way.Reopened? { ReopenedFar(text, max); }
    QuarterIf(way, max);
  }

  lemma QuarterIf(way: Way, max: int)
    requires max == 20 || max >= 22
    requires way.Reopened? ==>
               && (way.kept > (max - 4) / 2 || way.kept >= max - 5)
               && (|way.reopen| == 3 || 8 * (|way.reopen| + 1) < max)
    ensures TakesQuarter(way, max) <==> !(way.MovedOn? && 4 * way.opener < max)
  {}

  /** A reopened block is cut past the middle of the window, or at its end, and its new opener is short. */
  lemma ReopenedFar(text: Text, max: int)
    requires max >= 16 && |text| > max && CutWay(text, max).Reopened?
    ensures var way, low := CutWay(text, max), (max - 4) / 2;
            && (way.kept > low || way.kept >= max - 5)
            && (|way.reopen| == 3 || 8 * (|way.reopen| + 1) < max)
  {
    var low, room, fences := (max - 4) / 2, max - 4, FencesFrom(Split(text), 0, max);
    var c := Choice(text, fences, low, room);
    var fence := FenceAround(fences, c.headEnd);
    hide CutWay, FencesFrom, Split, Choice, FenceAround, GoodFence, WayOf;
    CutFits(text, max);
    ChoiceInText(text, fences, low, room);
    CutWayIs(text, max, fences, c);
    WayReopened(text, fence, c, max);
  }

  lemma WayReopened(text: Text, fence: Option<Fence>, c: Cut, max: int)
    requires 0 <= c.tailStart <= |text|
    requires (fence.Some? ==> 0 <= fence.value.openStart <= |text| && GoodFence(text, fence.value, max))
    requires WayOf(text, fence, c).Reopened?
    ensures var way := WayOf(text, fence, c);
            way.kept >= c.tailStart && (|way.reopen| == 3 || 8 * (|way.reopen| + 1) < max)
  {}

  // ---------------------------------------------------------------------------------------------
  // Two cuts that take less than a quarter
  // ---------------------------------------------------------------------------------------------

  /** A word, and an opener longer than the window. */
  function LongOpener(max: nat): seq<Text> { [[97], TICKS + seq(max, _ => 98), TICKS] }

  /** A block whose only break in the window is just past its middle. */
  const SHORT_BREAK: seq<Text> := [TICKS, [97, 98], [99, 99, 99, 99, 99, 99, 99, 99, 99, 99, 99, 99, 99, 99], TICKS]

  lemma OneFence(lines: seq<Text>, i: nat, max: int)
    requires |lines| >= 2 && i < |lines| - 1 && i <= 1 && (i == 1 ==> !FenceOpens(lines[0]))
    requires FenceOpens(lines[i]) && !OneLineCode(lines[i]) && NextClose(lines, i + 1) == |lines| - 1
    ensures FencesFrom(lines, 0, max) == [FenceOf(lines, i, |lines| - 1, max)]
  {
    hide FenceOpens, OneLineCode, NextClose, FenceOf;
    FencesUnfold(lines, 0, max);
    if i == 1 { FencesUnfold(lines, 1, max); }
  }

  lemma LongOpenerJoined(max: nat)
    ensures JoinLines(LongOpener(max)) == [97, NEWLINE] + LongOpener(max)[1] + [NEWLINE] + TICKS
  {
    var lines := LongOpener(max);
    JoinCons(lines[1], [TICKS]);
    JoinCons(lines[0], [lines[1], TICKS]);
    assert lines == [lines[0]] + [lines[1], TICKS];
    assert [lines[1], TICKS] == [lines[1]] + [TICKS];
  }

  lemma ShortBreakJoined()
    ensures JoinLines(SHORT_BREAK) == TICKS + [NEWLINE, 97, 98, NEWLINE] + SHORT_BREAK[2] + [NEWLINE] + TICKS
  {
    JoinCons(SHORT_BREAK[2], [TICKS]);
    JoinCons(SHORT_BREAK[1], [SHORT_BREAK[2], TICKS]);
    JoinCons(SHORT_BREAK[0], [SHORT_BREAK[1], SHORT_BREAK[2], TICKS]);
    assert SHORT_BREAK == [SHORT_BREAK[0]] + [SHORT_BREAK[1], SHORT_BREAK[2], TICKS];
    assert [SHORT_BREAK[1], SHORT_BREAK[2], TICKS] == [SHORT_BREAK[1]] + [SHORT_BREAK[2], TICKS];
    assert [SHORT_BREAK[2], TICKS] == [SHORT_BREAK[2]] + [TICKS];
  }

  lemma LongOpenerFence(max: nat)
    requires max >= 16
    ensures FenceOpens(LongOpener(max)[1])
    ensures FencesFrom(LongOpener(max), 0, max) == [FenceOf(LongOpener(max), 1, 2, max)]
    ensures var f := FenceOf(LongOpener(max), 1, 2, max);
            f.openStart == 2 && f.openEnd == max + 5 && f.closeStart == max + 6 && f.closeEnd == max + 9
  {
    var lines := LongOpener(max);
    LongOpenerOpens(max);
    hide FenceOpens, OneLineCode, FenceCloses, NextClose;
    OneFence(lines, 1, max);
    hide FencesFrom;
    assert LineStart(lines, 1) == 2 && LineStart(lines, 2) == max + 6;
  }

  lemma LongOpenerOpens(max: nat)
    requires max >= 16
    ensures var lines := LongOpener(max);
            !FenceOpens(lines[0]) && FenceOpens(lines[1]) && !OneLineCode(lines[1]) && NextClose(lines, 2) == 2
  {
    var opener := LongOpener(max)[1];
    assert Trim(TICKS) == TICKS;
    assert opener[..3] == TICKS && opener[|opener| - 1] == 98;
  }

  lemma ShortBreakCloses()
    ensures |SHORT_BREAK| == 4 && FenceOpens(SHORT_BREAK[0]) && !OneLineCode(SHORT_BREAK[0]) && NextClose(SHORT_BREAK, 1) == 3
  {
    assert Trim(TICKS) == TICKS && Trim([97, 98]) == [97, 98] && Trim(SHORT_BREAK[2]) == SHORT_BREAK[2];
    assert NextClose(SHORT_BREAK, 1) == NextClose(SHORT_BREAK, 2) == NextClose(SHORT_BREAK, 3) == 3;
  }

  lemma ShortBreakFence()
    ensures |SHORT_BREAK| == 4 && FenceOpens(SHORT_BREAK[0])
    ensures FencesFrom(SHORT_BREAK, 0, 16) == [FenceOf(SHORT_BREAK, 0, 3, 16)]
    ensures var f := FenceOf(SHORT_BREAK, 0, 3, 16);
            f.openStart == 0 && f.openEnd == 3 && f.closeStart == 22 && f.closeEnd == 25 && f.reopen == TICKS
  {
    ShortBreakCloses();
    hide FenceOpens, OneLineCode, NextClose, FenceCloses;
    OneFence(SHORT_BREAK, 0, 16);
    hide FencesFrom;
    assert LineStart(SHORT_BREAK, 1) == 4 && LineStart(SHORT_BREAK, 2) == 7 && LineStart(SHORT_BREAK, 3) == 22;
  }

  lemma LongOpenerText(text: Text, max: nat)
    requires max >= 16 && text == [97, NEWLINE] + LongOpener(max)[1] + [NEWLINE] + TICKS
    ensures |text| == max + 9 && Unbroken(text, (max - 4) / 2, max - 4) && !IsHighSurrogate(text[max - 5])
    ensures Trim(text[..2]) != []
  {
    forall k | 5 <= k < max + 5 ensures text[k] == 98 {}
    assert text[..2] == [97, NEWLINE];
    assert Trim([97, NEWLINE]) == [97] by { assert TrimEnd([97, NEWLINE]) == TrimEnd([97, NEWLINE][..1]); }
  }

  /** However long a message may be, there is a text whose opener is moved on, so that the cut takes 2 characters of it. */
  lemma LongOpenerTakesLess(max: nat)
    requires max >= 16
    ensures var text := JoinLines(LongOpener(max));
            |text| > max && CutWay(text, max) == MovedOn(2) && !TakesQuarter(CutWay(text, max), max)
  {
    hide *;
    var lines := LongOpener(max);
    var text := JoinLines(lines);
    LongOpenerJoined(max);
    LongOpenerText(text, max);
    LongOpenerLines(max);
    LongOpenerFence(max);
    SplitJoin(lines);
    var f := FenceOf(lines, 1, 2, max);
    var room := max - 4;
    NoBreak(text, [f], room / 2, room);
    OnlyFence(f, room);
    CutWayIs(text, max, [f], Cut(room, room));
    WayMovedOn(text, f, Cut(room, room), max);
  }

  lemma LongOpenerLines(max: nat)
    ensures |LongOpener(max)| == 3 && forall k :: 0 <= k < 3 ==> NEWLINE !in LongOpener(max)[k]
  {}

  lemma NoNewlines()
    ensures SHORT_BREAK != []
    ensures forall k :: 0 <= k < |SHORT_BREAK| ==> NEWLINE !in SHORT_BREAK[k]
  {}

  lemma OnlyFence(f: Fence, at: int)
    requires f.openStart < at < f.closeEnd
    ensures FenceAround([f], at) == Some(f)
  {}

  lemma WayMovedOn(text: Text, f: Fence, c: Cut, max: int)
    requires 0 <= c.tailStart <= |text| && 0 <= f.openStart <= |text| && c.headEnd <= f.openEnd && Trim(text[..f.openStart]) != []
    ensures WayOf(text, Some(f), c) == MovedOn(f.openStart)
    ensures TakesQuarter(MovedOn(f.openStart), max) <==> 4 * f.openStart >= max
  {}

  /** The block is reopened, and the cut takes 7 - 4 of 16. */
  lemma ShortBreakTakesLess()
    ensures var text := JoinLines(SHORT_BREAK);
            |text| > 16 && CutWay(text, 16) == Reopened(7, TICKS) && !TakesQuarter(CutWay(text, 16), 16)
  {
    var text := JoinLines(SHORT_BREAK);
    ShortBreakJoined();
    assert Unbroken(text, 7, 12) && text[6] == NEWLINE && text[7] != NEWLINE;
    hide *;
    ShortBreakFence();
    SplitJoin(SHORT_BREAK) by { NoNewlines(); }
    var f := FenceOf(SHORT_BREAK, 0, 3, 16);
    OnlyFence(f, 6);
    OnlyBreak(text, [f], 6, 12);
    CutWayIs(text, 16, [f], Cut(6, 7));
    WayReopens(text, f, Cut(6, 7));
  }

  lemma WayReopens(text: Text, f: Fence, c: Cut)
    requires 0 <= f.openStart <= f.openEnd < c.headEnd < c.tailStart < f.closeStart < |text| && text[c.tailStart] != NEWLINE
    ensures WayOf(text, Some(f), c) == Reopened(c.tailStart, f.reopen)
    ensures f.reopen == TICKS ==> (TakesQuarter(Reopened(c.tailStart, f.reopen), 16) <==> 4 * (c.tailStart - 4) >= 16)
  {
    assert DropNewlines(text[c.tailStart..]) == text[c.tailStart..];
  }

  /** Neither a line nor a word ends from `low` to `room`. */
  ghost predicate Unbroken(text: Text, low: int, room: int) {
    0 <= low && room < |text| && forall k :: low <= k <= room ==> text[k] != NEWLINE && text[k] != SPACE
  }

  lemma UnbrokenHas(text: Text, sep: Text, low: int, room: int)
    requires Unbroken(text, low, room) && |sep| > 0 && (sep[0] == NEWLINE || sep[0] == SPACE)
    ensures forall k :: low <= k <= room ==> !StartsAt(text, sep, k)
  {
  }

  lemma NoBreak(text: Text, fences: seq<Fence>, low: int, room: int)
    requires 0 < low < room < |text| && !IsHighSurrogate(text[room - 1]) && Unbroken(text, low, room)
    ensures Choice(text, fences, low, room) == Cut(room, room)
  {
    UnbrokenHas(text, [NEWLINE, NEWLINE], low, room);
    UnbrokenHas(text, [NEWLINE], low, room);
    UnbrokenHas(text, [SPACE], low, room);
    hide StartsAt, Unbroken;
    LastSkips(text, fences, [NEWLINE, NEWLINE], low, room, low - 1);
    LastSkips(text, fences, [NEWLINE], low, room, low - 1);
    LastSkips(text, fences, [SPACE], low, room, low - 1);
  }

  /** The one break of the window is a line end at its start, in a block. */
  lemma OnlyBreak(text: Text, fences: seq<Fence>, low: int, room: int)
    requires 0 < low < room < |text| && Unbroken(text, low + 1, room)
    requires text[low] == NEWLINE && FenceAround(fences, low).Some?
    ensures Choice(text, fences, low, room) == Cut(low, low + 1)
  {
    UnbrokenHas(text, [NEWLINE, NEWLINE], low + 1, room);
    UnbrokenHas(text, [NEWLINE], low + 1, room);
    UnbrokenHas(text, [SPACE], low + 1, room);
    assert text[low + 1] != NEWLINE ==> !StartsAt(text, [NEWLINE, NEWLINE], low);
    assert StartsAt(text, [NEWLINE], low) && !StartsAt(text, [SPACE], low);
    hide StartsAt, Unbroken;
    LastSkips(text, fences, [NEWLINE, NEWLINE], low, room, low - 1);
    LastSkips(text, fences, [NEWLINE], low, room, low);
    LastSkips(text, fences, [SPACE], low, room, low - 1);
  }

  // ---------------------------------------------------------------------------------------------
  // Two blocks that stop being code where they are cut
  // ---------------------------------------------------------------------------------------------

  /** A block of one line of code, eleven characters long, whose eighth is its last space in the window of a message of 16. */
  ghost predicate BreaksAtEighth(x: Text) {
    |x| == 11 && NEWLINE !in x && !FenceCloses(x) && x[7] == SPACE != x[8]
  }

  lemma ThreeLines(x: Text, y: Text, z: Text)
    requires NEWLINE !in x && NEWLINE !in y && NEWLINE !in z
    ensures JoinLines([x, y, z]) == x + [NEWLINE] + (y + [NEWLINE] + z)
    ensures Split(x + [NEWLINE] + (y + [NEWLINE] + z)) == [x, y, z]
  {
    hide Split;
    SplitJoin([x, y, z]);
    hide JoinLines;
    assert [x, y, z] == [x] + ([y] + [z]);
    JoinCons(x, [y] + [z]);
    JoinCons(y, [z]);
    JustOne(z);
  }

  lemma JustOne(z: Text)
    ensures JoinLines([z]) == z
  {}

  lemma BlockOfOne(x: Text)
    requires BreaksAtEighth(x)
    ensures var lines := [TICKS, x, TICKS];
            && JoinLines(lines) == TICKS + [NEWLINE] + x + [NEWLINE] + TICKS && Split(JoinLines(lines)) == lines
            && FenceOpens(TICKS) && FencesFrom(lines, 0, 16) == [Fence(0, 3, 16, 19, TICKS)]
  {
    var lines := [TICKS, x, TICKS];
    ThreeLines(TICKS, x, TICKS);
    hide JoinLines, Split;
    Assoc(TICKS + [NEWLINE], x, [NEWLINE] + TICKS);
    assert TICKS + [NEWLINE] + (x + [NEWLINE] + TICKS) == TICKS + [NEWLINE] + x + [NEWLINE] + TICKS;
    FenceOfOne(x);
  }

  lemma FenceOfOne(x: Text)
    requires |x| == 11 && !FenceCloses(x)
    ensures FenceOpens(TICKS) && FencesFrom([TICKS, x, TICKS], 0, 16) == [Fence(0, 3, 16, 19, TICKS)]
  {
    var lines := [TICKS, x, TICKS];
    TicksClose();
    assert NextClose(lines, 1) == NextClose(lines, 2) == 2;
    assert LineStart(lines, 1) == 4 && LineStart(lines, 2) == 16;
    assert FenceOf(lines, 0, 2, 16) == Fence(0, 3, 16, 19, TICKS);
    hide FenceCloses, NextClose, FencesFrom, FenceOf;
    OneFence(lines, 0, 16);
  }

  lemma CutAtEighth(x: Text)
    requires BreaksAtEighth(x)
    ensures var text := JoinLines([TICKS, x, TICKS]); |text| == 19 && CutWay(text, 16) == Reopened(12, TICKS)
  {
    BlockOfOne(x);
    var text, f := JoinLines([TICKS, x, TICKS]), Fence(0, 3, 16, 19, TICKS);
    forall k | 4 <= k < 15 ensures text[k] == x[k - 4] {}
    hide FencesFrom, Split, JoinLines, FenceCloses;
    LastSpace(text, f);
    OnlyFence(f, 11);
    CutWayIs(text, 16, [f], Cut(11, 12));
    WayReopens(text, f, Cut(11, 12));
  }

  lemma LastSpace(text: Text, f: Fence)
    requires |text| == 19 && f == Fence(0, 3, 16, 19, TICKS) && text[11] == SPACE != text[12]
    requires forall k :: 6 <= k <= 12 ==> text[k] != NEWLINE
    ensures Choice(text, [f], 6, 12) == Cut(11, 12)
  {
    forall k | 6 <= k <= 12 ensures FenceAround([f], k) == Some(f) { OnlyFence(f, k); }
    NoneOutside(text, f, [NEWLINE, NEWLINE], 12);
    NoneOutside(text, f, [NEWLINE], 12);
    NoneOutside(text, f, [SPACE], 12);
    assert StartsAt(text, [SPACE], 11) && !StartsAt(text, [SPACE], 12);
    forall k | 6 <= k <= 12 ensures !StartsAt(text, [NEWLINE], k) && !StartsAt(text, [NEWLINE, NEWLINE], k) {
      StartsFirst(text, [NEWLINE], k);
      StartsFirst(text, [NEWLINE, NEWLINE], k);
    }
    hide StartsAt, LastOutside, FenceAround;
    LastSkips(text, [f], [NEWLINE, NEWLINE], 6, 12, 5);
    LastSkips(text, [f], [NEWLINE], 6, 12, 5);
    LastSkips(text, [f], [SPACE], 6, 12, 11);
  }

  lemma StartsFirst(text: Text, sep: Text, k: int)
    requires sep != []
    ensures StartsAt(text, sep, k) ==> 0 <= k < |text| && text[k] == sep[0]
  {
    if StartsAt(text, sep, k) { assert text[k..k + |sep|][0] == text[k]; }
  }

  lemma {:induction false} NoneOutside(text: Text, f: Fence, sep: Text, from: int)
    requires from <= |text| && from <= 12 && forall k :: 6 <= k <= 12 ==> FenceAround([f], k) == Some(f)
    ensures LastOutside(text, [f], sep, 6, from) == None
    decreases from + 1
  {
    hide StartsAt, FenceAround;
    if from >= 6 { NoneOutside(text, f, sep, from - 1); }
  }

  /** Code after the break that is a fence by itself: the tail begins with a code block of nothing. */
  const FENCE_AFTER: Text := [97, 97, 97, 97, 97, 97, 97, SPACE, TICK, TICK, TICK]

  lemma AfterIsNoFence()
    ensures BreaksAtEighth(FENCE_AFTER)
  {
    assert Trim(FENCE_AFTER) == FENCE_AFTER;
  }

  lemma AfterText(text: Text)
    requires text == TICKS + [NEWLINE] + FENCE_AFTER + [NEWLINE] + TICKS
    ensures |text| == 19 && text[12..] == TICKS + [NEWLINE] + TICKS
  {}

  lemma FenceAfterTheBreak()
    ensures var text := JoinLines([TICKS, FENCE_AFTER, TICKS]);
            && |text| == 19 && CutWay(text, 16) == Reopened(12, TICKS)
            && ChunkAt(Split(TICKS + [NEWLINE] + text[12..]), 0) == CodeLines(0, 1)
  {
    hide *;
    var text := JoinLines([TICKS, FENCE_AFTER, TICKS]);
    AfterIsNoFence();
    BlockOfOne(FENCE_AFTER);
    CutAtEighth(FENCE_AFTER);
    AfterText(text);
    ThreeTicks();
    Assoc(TICKS, [NEWLINE], text[12..]);
  }

  lemma ThreeTicks()
    ensures Split(TICKS + [NEWLINE] + (TICKS + [NEWLINE] + TICKS)) == [TICKS, TICKS, TICKS]
    ensures ChunkAt([TICKS, TICKS, TICKS], 0) == CodeLines(0, 1)
  {
    ThreeLines(TICKS, TICKS, TICKS);
    TicksClose();
    hide Split, JoinLines;
  }

  /** Code before the break that is a fence by itself: the head's block ends there, and its own close is text. */
  const FENCE_BEFORE: Text := [SPACE, SPACE, SPACE, SPACE, TICK, TICK, TICK, SPACE, 97, 97, 97]

  lemma BeforeIsNoFence()
    ensures BreaksAtEighth(FENCE_BEFORE) && FenceCloses(FENCE_BEFORE[..7])
  {
    IndentTrimmed(FENCE_BEFORE, 4);
    IndentTrimmed(FENCE_BEFORE[..7], 4);
    assert FENCE_BEFORE[..7][4..] == TICKS && TrimEnd(TICKS) == TICKS;
    assert TrimEnd(FENCE_BEFORE[4..]) == FENCE_BEFORE[4..];
  }

  lemma {:induction false} IndentTrimmed(s: Text, k: nat)
    requires k < |s| && !IsSpace(s[k]) && forall j :: 0 <= j < k ==> IsSpace(s[j])
    ensures TrimStart(s) == s[k..]
  {
    if k > 0 { IndentTrimmed(s[1..], k - 1); }
  }

  lemma BeforeText(text: Text)
    requires text == TICKS + [NEWLINE] + FENCE_BEFORE + [NEWLINE] + TICKS
    ensures |text| == 19 && text[..11] == TICKS + [NEWLINE] + FENCE_BEFORE[..7] && |TrimEnd(text[..11])| == 11
  {
    assert text[..11][10] == TICK;
  }

  lemma FenceBeforeTheBreak()
    ensures var text := JoinLines([TICKS, FENCE_BEFORE, TICKS]);
            && |text| == 19 && CutWay(text, 16) == Reopened(12, TICKS) && |TrimEnd(text[..11])| == 11
            && |Split(text[..11] + CLOSE)| == 3 && ChunkAt(Split(text[..11] + CLOSE), 0) == CodeLines(0, 1)
  {
    hide *;
    var text := JoinLines([TICKS, FENCE_BEFORE, TICKS]);
    BeforeIsNoFence();
    BlockOfOne(FENCE_BEFORE);
    CutAtEighth(FENCE_BEFORE);
    BeforeText(text);
    StrayClose(FENCE_BEFORE[..7]);
  }

  lemma StrayClose(part: Text)
    requires FenceCloses(part) && NEWLINE !in part
    ensures var hl := Split(TICKS + [NEWLINE] + part + CLOSE); |hl| == 3 && ChunkAt(hl, 0) == CodeLines(0, 1)
  {
    hide FenceCloses, Split;
    var hl := [TICKS, part, TICKS];
    ThreeLines(TICKS, part, TICKS);
    assert TICKS + [NEWLINE] + part + CLOSE == TICKS + [NEWLINE] + (part + [NEWLINE] + TICKS);
    NextCloseIs(hl, 1, 1);
    hide NextClose;
  }

  lemma CloseIsFour()
    ensures |CLOSE| == 4
  {
  }

  lemma StartsText(text: Text)
    requires StartsSolid(text)
    ensures text != [] ==> !IsSpace(text[0])
  {
  }

  lemma CutPlain(text: Text, a: int, b: int)
    requires 0 <= a <= b <= |text| && Blank(text, a, b)
    ensures CutsAt(text, text[..a], text[b..], a, b, [])
    ensures CutsAt(text, text[..a] + CLOSE, text[b..], a, b, [])
    ensures b < |text| && !IsSpace(text[b]) ==> StartsSolid(text[b..])
  {
  }

  lemma CutReopened(text: Text, a: int, b: int, reopen: Text)
    requires 0 <= a <= b <= |text| && Blank(text, a, b) && TICKS <= reopen && reopen != []
    ensures CutsAt(text, text[..a] + CLOSE, reopen + [NEWLINE] + text[b..], a, b, reopen)
    ensures !IsSpace(reopen[0]) ==> StartsSolid(reopen + [NEWLINE] + text[b..])
  {
  }

  lemma DroppedNewlines(text: Text, start: int)
    requires 0 <= start <= |text|
    ensures var rest := DropNewlines(text[start..]);
      var b := |text| - |rest|;
      start <= b && rest == text[b..] && Blank(text, start, b)
  {
    hide DropNewlines, Blank;
    FrontDropped(text, start, DropNewlines(text[start..]));
  }

  lemma OpenerAfterText(text: Text, end: int)
    requires 0 <= end <= |text| && Trim(text[..end]) != []
    ensures end > 0
  {
  }

  /** A fence and a cut inside it: the reopened part is shorter than what the cut takes. */
  predicate FenceFits(text: Text, f: Fence, c: Cut) {
    && c.tailStart <= f.closeEnd <= |text| && f.closeStart <= f.closeEnd && 0 <= f.openStart < c.headEnd
    && |f.reopen| + 1 < c.tailStart && TICKS <= f.reopen && f.reopen != []
    && f.openStart < |text| && text[f.openStart] == TICK && !IsSpace(f.reopen[0])
  }

  lemma FenceFitsMeans(text: Text, f: Fence, c: Cut)
    requires FenceFits(text, f, c)
    ensures c.tailStart <= f.closeEnd <= |text| && f.closeStart <= f.closeEnd && 0 <= f.openStart < c.headEnd
    ensures |f.reopen| + 1 < c.tailStart && TICKS <= f.reopen && f.reopen != []
    ensures f.openStart < |text| && text[f.openStart] == TICK && !IsSpace(TICK) && !IsSpace(f.reopen[0])
  {
  }

  lemma FenceBounds(text: Text, f: Fence, c: Cut, low: int, room: int, max: int)
    requires GoodFence(text, f, max) && Around(f, c.headEnd) && max >= 16 && room == max - 4 && low == room / 2
    requires BreakAt(text, c, low, room) || (c.headEnd == c.tailStart && c.headEnd >= room - 1)
    ensures FenceFits(text, f, c)
  {
    if f.closeStart <= c.headEnd {
      assert text[f.closeStart..f.closeEnd][c.headEnd - f.closeStart] == text[c.headEnd];
    }
    if c.headEnd < c.tailStart {
      assert text[c.headEnd..c.tailStart][0] == text[c.headEnd];
    }
    assert f.reopen[0] == f.reopen[..3][0];
  }

  lemma CloserRest(text: Text, f: Fence, start: int, max: int)
    requires GoodFence(text, f, max) && f.closeStart <= start <= f.closeEnd
    ensures Blank(text, start, f.closeEnd)
  {
  }

  // ---------------------------------------------------------------------------------------------
  // The whole post
  // ---------------------------------------------------------------------------------------------

  /** The characters that are neither white space nor backticks. */
  function Solid(s: Text): Text {
    if s == [] then [] else (if IsSpace(s[0]) || s[0] == TICK then [] else [s[0]]) + Solid(s[1..])
  }

  lemma SolidUnfold(s: Text)
    requires s != []
    ensures Solid(s) == (if IsSpace(s[0]) || s[0] == TICK then [] else [s[0]]) + Solid(s[1..])
  {
  }

  lemma {:induction false} SolidAppend(x: Text, y: Text)
    ensures Solid(x + y) == Solid(x) + Solid(y)
  {
    if x == [] {
      assert x + y == y;
    } else {
      hide *;
      SolidAppend(x[1..], y);
      SolidUnfold(x);
      SolidUnfold(x + y);
      AppendTail(x, y);
      Assoc(if IsSpace(x[0]) || x[0] == TICK then [] else [x[0]], Solid(x[1..]), Solid(y));
    }
  }

  lemma {:induction false} SolidBlank(x: Text)
    requires Blank(x, 0, |x|)
    ensures Solid(x) == []
  {
    if x != [] {
      assert forall k :: 0 <= k < |x[1..]| ==> x[1..][k] == x[k + 1];
      SolidBlank(x[1..]);
    }
  }

  /** x is y with some characters left out. */
  predicate Subsequence(x: Text, y: Text) {
    if x == [] then true
    else if y == [] then false
    else (x[0] == y[0] && Subsequence(x[1..], y[1..])) || Subsequence(x, y[1..])
  }

  lemma {:induction false} SubsequenceInsert(x: Text, more: Text, y: Text)
    requires Subsequence(x, y)
    ensures Subsequence(x, more + y)
  {
    if more == [] {
      assert more + y == y;
    } else if x != [] {
      SubsequenceInsert(x, more[1..], y);
      assert (more + y)[1..] == more[1..] + y;
    }
  }

  lemma {:induction false} SubsequencePrefix(p: Text, x: Text, y: Text)
    requires Subsequence(x, y)
    ensures Subsequence(p + x, p + y)
  {
    if p == [] {
      assert p + x == x && p + y == y;
    } else {
      SubsequencePrefix(p[1..], x, y);
      assert (p + x)[1..] == p[1..] + x && (p + y)[1..] == p[1..] + y;
    }
  }

  /** What one cut keeps: head and tail hold every solid character, in order. */
  lemma CutKeepsSolid(text: Text, head: Text, tail: Text, a: int, b: int, reopen: Text, rest: Text)
    requires CutsAt(text, head, tail, a, b, reopen) && Subsequence(Solid(tail), rest)
    ensures Subsequence(Solid(text), Solid(head) + rest)
  {
    hide Subsequence, Solid;
    var x, y, z := text[..a], text[a..b], text[b..];
    assert text == x + (y + z);
    SolidAppend(x, y + z);
    SolidAppend(y, z);
    SolidBlank(y);
    SolidClose(x);
    assert Solid(head) == Solid(x);
    assert Solid(text) == Solid(x) + Solid(z);
    if reopen != [] {
      SolidAppend(reopen + [NEWLINE], z);
      SubsequenceTail(Solid(reopen + [NEWLINE]), Solid(z), rest);
    }
    SubsequencePrefix(Solid(x), Solid(z), rest);
  }

  lemma SolidClose(x: Text)
    ensures Solid(x + CLOSE) == Solid(x)
  {
    SolidAppend(x, CLOSE);
    SolidBlank(CLOSE);
  }

  lemma {:induction false} SubsequenceTail(p: Text, x: Text, y: Text)
    requires Subsequence(p + x, y)
    ensures Subsequence(x, y)
    decreases |p| + |y|
  {
    if p == [] {
      assert p + x == x;
    } else if x != [] {
      if (p + x)[0] == y[0] && Subsequence((p + x)[1..], y[1..]) {
        assert (p + x)[1..] == p[1..] + x;
        SubsequenceTail(p[1..], x, y[1..]);
      } else {
        SubsequenceTail(p, x, y[1..]);
      }
    }
  }

  function Flat(parts: seq<Text>): Text {
    if parts == [] then [] else parts[0] + Flat(parts[1..])
  }

  lemma {:induction false} FlatAppend(parts: seq<Text>, part: Text)
    ensures Flat(parts + [part]) == Flat(parts) + part
  {
    if parts == [] {
      assert parts + [part] == [part] && [part][1..] == [];
    } else {
      FlatAppend(parts[1..], part);
      assert (parts + [part])[1..] == parts[1..] + [part];
    }
  }

  /** Whatever the rest still to be cut ends up as, the whole is kept if the rest is. */
  ghost predicate KeptBy(whole: Text, parts: seq<Text>, rest: Text) {
    forall y :: Subsequence(Solid(rest), y) ==> Subsequence(whole, Solid(Flat(parts)) + y)
  }

  lemma KeptCut(whole: Text, parts: seq<Text>, text: Text, head: Text, tail: Text, a: int, b: int, reopen: Text)
    requires KeptBy(whole, parts, text) && CutsAt(text, head, tail, a, b, reopen)
    ensures KeptBy(whole, parts + [head], tail)
  {
    hide Subsequence, Solid, CutsAt, Flat;
    FlatAppend(parts, head);
    SolidAppend(Flat(parts), head);
    forall y | Subsequence(Solid(tail), y) ensures Subsequence(whole, Solid(Flat(parts + [head])) + y) {
      CutKeepsSolid(text, head, tail, a, b, reopen, y);
      assert Solid(Flat(parts)) + (Solid(head) + y) == Solid(Flat(parts)) + Solid(head) + y;
    }
  }

  lemma {:induction false} SubsequenceSelf(x: Text)
    ensures Subsequence(x, x)
  {
    if x != [] { SubsequenceSelf(x[1..]); }
  }

  lemma KeptEnd(whole: Text, parts: seq<Text>, rest: Text)
    requires KeptBy(whole, parts, rest)
    ensures Subsequence(whole, Solid(Flat(if rest == [] then parts else parts + [rest])))
  {
    hide Subsequence;
    SubsequenceSelf(Solid(rest));
    if rest == [] {
      assert Solid(Flat(parts)) + [] == Solid(Flat(parts));
    } else {
      FlatAppend(parts, rest);
      SolidAppend(Flat(parts), rest);
    }
  }

  lemma KeptStart(text: Text)
    ensures KeptBy(Solid(text), [], text)
  {
    hide Subsequence;
    forall y | Subsequence(Solid(text), y) ensures Subsequence(Solid(text), Solid(Flat([])) + y) {
      assert Solid(Flat([])) + y == y;
    }
  }

  /** A part and the rest of a text too long for one message, as `cutOnce` gives them. */
  ghost predicate IsCut(text: Text, max: int, head: Text, tail: Text) {
    && max >= 16 && |text| > max && BlockGoesOn(Split(text), head, tail, CutWay(text, max))
    && exists a, b, reopen :: CutsAt(text, head, tail, a, b, reopen) && !SplitsPair(text, a) && !SplitsPair(text, b)
  }

  /** Each part is cut off what the ones before it left, or is all of that; in the end nothing is left. */
  ghost predicate CutDown(whole: Text, max: int, parts: seq<Text>, rests: seq<Text>) {
    && |rests| == |parts| + 1 && rests[0] == whole && rests[|parts|] == []
    && forall k :: 0 <= k < |parts| ==>
         IsCut(rests[k], max, parts[k], rests[k + 1]) || (|rests[k]| <= max && parts[k] == rests[k] && rests[k + 1] == [])
  }

  function Cap(max: int): int { if max >= 16 then max else 16 }

  /**
   * `splitPostBody`: every part is nonempty and fits a message, and nothing but white space and
   * backticks is dropped. Each cut makes the rest shorter and leaves a head, so the source's
   * guard for a cut that doesn't never fires.
   * `CutDown`: every part but a last one that fits is a cut of what the parts before it left, and
   * so says what became of the code block it landed in.
   */
  method SplitPostBody(raw: Text, max: int) returns (parts: seq<Text>)
    ensures forall p :: p in parts ==> 0 < |p| <= Cap(max)
    ensures Subsequence(Solid(Trim(NormalizeReturns(raw))), Solid(Flat(parts)))
    ensures exists rests :: CutDown(Trim(NormalizeReturns(raw)), Cap(max), parts, rests)
    ensures |Trim(NormalizeReturns(raw))| <= Cap(max) ==>
      parts == if Trim(NormalizeReturns(raw)) == [] then [] else [Trim(NormalizeReturns(raw))]
  {
    hide Subsequence, CutsAt, KeptBy, Solid, BlockGoesOn, CutWay, IsCut, SplitsPair, Trim, NormalizeReturns;
    var cap := Cap(max);
    var whole := Trim(NormalizeReturns(raw));
    var rest := whole;
    TrimIsSolid(NormalizeReturns(raw));
    parts := [];
    KeptStart(rest);
    ghost var rests := [rest];
    while |rest| > cap
      invariant |rests| == |parts| + 1 && rests[0] == whole && rests[|parts|] == rest
      invariant forall k :: 0 <= k < |parts| ==> IsCut(rests[k], cap, parts[k], rests[k + 1])
      invariant StartsSolid(rest)
      invariant forall p :: p in parts ==> 0 < |p| <= cap
      invariant KeptBy(Solid(whole), parts, rest)
      invariant (rest == whole && parts == []) || |whole| > cap
      decreases |rest|
    {
      var head, tail;
      ghost var a, b, reopen;
      head, tail, a, b, reopen := CutOnce(rest, cap);
      assert head != [] && |tail| < |rest|;
      KeptCut(Solid(whole), parts, rest, head, tail, a, b, reopen);
      CutIs(rest, cap, head, tail, a, b, reopen);
      rests := rests + [tail];
      parts := parts + [head];
      rest := tail;
    }
    KeptEnd(Solid(whole), parts, rest);
    if rest != [] {
      parts := parts + [rest];
      rests := rests + [[]];
    }
    assert CutDown(whole, cap, parts, rests);
  }

  lemma CutIs(text: Text, max: int, head: Text, tail: Text, a: int, b: int, reopen: Text)
    requires max >= 16 && |text| > max && BlockGoesOn(Split(text), head, tail, CutWay(text, max))
    requires CutsAt(text, head, tail, a, b, reopen) && !SplitsPair(text, a) && !SplitsPair(text, b)
    ensures IsCut(text, max, head, tail)
  {
    hide BlockGoesOn, CutWay, CutsAt, SplitsPair;
  }

  lemma TrimIsSolid(s: Text)
    ensures StartsSolid(Trim(s))
  {
    TrimStartMeans(s);
    TrimEndMeans(TrimStart(s));
  }

  /** Trimming and line endings change no solid character. */
  lemma SolidOfTrimmed(raw: Text)
    ensures Solid(Trim(NormalizeReturns(raw))) == Solid(raw)
  {
    SolidTrim(NormalizeReturns(raw));
    SolidReturns(raw);
  }

  lemma SolidTrim(s: Text)
    ensures Solid(Trim(s)) == Solid(s)
  {
    hide TrimStart, TrimEnd, Solid;
    var t := TrimStart(s);
    var u := TrimEnd(t);
    TrimStartMeans(s);
    TrimEndMeans(t);
    var before, after := s[..|s| - |t|], t[|u|..];
    assert s == before + t && t == u + after;
    SolidAppend(before, t);
    SolidAppend(u, after);
    SolidBlank(before);
    SolidBlank(after);
  }

  lemma {:induction false} SolidReturns(s: Text)
    ensures Solid(NormalizeReturns(s)) == Solid(s)
  {
    if s != [] {
      if s[0] == RETURN && |s| > 1 && s[1] == NEWLINE {
        SolidReturns(s[2..]);
        assert s[1..][1..] == s[2..];
      } else {
        SolidReturns(s[1..]);
      }
    }
  }
}
