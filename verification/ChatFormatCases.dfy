/** Each kind of markup in a line that is plain but for it: what its nodes are, for any text around and inside. */
module ChatFormatCases {
  import opened Texts
  import opened ChatFormatLine
  import opened ChatFormatClosers
  import opened ChatFormatInline
  import opened ChatFormatLossless
  import opened ChatFormatMarks

  /** No markup can start in [i, j). */
  predicate PlainIn(s: Text, i: int, j: int)
    requires 0 <= i <= j <= |s|
  {
    forall k :: i <= k < j ==> !SpecialAt(s, k)
  }

  lemma Ordinary(s: Text, i: int, j: int)
    requires 0 <= i <= j <= |s| && PlainIn(s, i, j)
    ensures forall k :: i <= k < j ==> s[k] != BACKSLASH && s[k] != TICK && !Marker(s[k])
  {
    forall k | i <= k < j ensures s[k] != BACKSLASH && s[k] != TICK && !Marker(s[k]) { assert !SpecialAt(s, k); }
  }

  lemma {:induction false} PlainReadsItself(s: Text, open: bool, from: int, end: int, depth: nat, i: int, j: int)
    requires 0 <= from <= i <= j <= end <= |s| && PlainIn(s, i, j)
    ensures PlainReads(s, open, from, end, depth, i, j, s[i..j])
    decreases j - i
  {
    if i < j {
      NothingStands(s, open, from, end, depth, i);
      hide EscapeStands, LongRun, MarkupStarts, SpecialAt;
      PlainReadsItself(s, open, from, end, depth, i + 1, j);
      assert s[i..j][1..] == s[i + 1..j];
    }
  }

  lemma NothingStands(s: Text, open: bool, from: int, end: int, depth: nat, i: int)
    requires 0 <= from <= i < end <= |s| && !SpecialAt(s, i)
    ensures !EscapeStands(s, end, i) && NoLongRun(s, from, end, i) && !MarkupStarts(s, open, from, end, depth, i)
  {
    hide SchemeLen, IsUuid, ClosesBefore, InFirstRun;
  }

  /** One node in a line, with plain text before and after it. */
  lemma OneNode(s: Text, open: bool, i: int, next: int, node: Node)
    requires 0 <= i < next <= |s| && PlainIn(s, 0, i) && PlainIn(s, next, |s|)
    requires !node.Text? && Stands(s, open, 0, |s|, 0, i, next, node)
    ensures Parse(s, open, 0, |s|, 0).nodes == Flush(s[..i]) + [node] + Flush(s[next..])
  {
    PlainReadsItself(s, open, 0, |s|, 0, 0, i);
    PlainReadsItself(s, open, 0, |s|, 0, next, |s|);
    assert s[0..i] == s[..i] && s[next..|s|] == s[next..];
    hide PlainIn, Stands, Reads, PlainReads, ParseFrom, Flush;
    ReadsEnd(s, open, 0, |s|, 0, next, s[next..]);
    ReadsEmit(s, open, 0, |s|, 0, 0, i, next, s[..i], node, Flush(s[next..]));
    ReadingIsParse(s, open, 0, |s|, 0, Flush(s[..i]) + [node] + Flush(s[next..]));
  }

  /** Plain text in a range of its own is one text node. */
  lemma PlainInside(s: Text, open: bool, i: int, j: int, depth: nat)
    requires 0 <= i < j <= |s| && PlainIn(s, i, j)
    ensures Reads(s, open, i, j, depth, i, [Node.Text(s[i..j])])
  {
    PlainReadsItself(s, open, i, j, depth, i, j);
    hide PlainIn, Stands, Reads, PlainReads;
    ReadsEnd(s, open, i, j, depth, i, s[i..j]);
  }

  /** Where there is neither a backslash nor a backtick, every character stands for itself. */
  lemma {:induction false} AllFree(s: Text, k: int, p: int)
    requires 0 <= k <= p < |s| && forall q :: 0 <= q < |s| ==> s[q] != BACKSLASH && s[q] != TICK
    ensures FreeFrom(s, k, p)
    decreases p - k
  {
    if k < p { AllFree(s, k + 1, p); }
  }

  /** **x**, ~~x~~ and ||x||. */
  lemma DoubledWraps(s: Text, open: bool, i: int, c: int)
    requires 0 <= i && i + 2 < c && c + 2 <= |s|
    requires PlainIn(s, 0, i) && PlainIn(s, i + 2, c) && PlainIn(s, c + 2, |s|) && !AllSpace(s[i + 2..c])
    requires PairChar(s[i]) && s[i] == s[i + 1] == s[c] == s[c + 1]
    ensures var x := [Node.Text(s[i + 2..c])];
            Parse(s, open, 0, |s|, 0).nodes
            == Flush(s[..i]) + [if s[i] == STAR then Bold(x) else if s[i] == TILDE then Strike(x) else Spoiler(x)]
               + Flush(s[c + 2..])
  {
    Ordinary(s, 0, i);
    Ordinary(s, i + 2, c);
    Ordinary(s, c + 2, |s|);
    AllFree(s, 0, c);
    hide SchemeLen, FreeFrom;
    assert PairAt(s, s[i], c) && FirstRun(s, s[i], i + 2, c, c);
    assert PairStands(s, |s|, i, c);
    PlainInside(s, open, i + 2, c, 1);
    var x := [Node.Text(s[i + 2..c])];
    hide PlainIn, PairStands, Reads;
    OneNode(s, open, i, c + 2, if s[i] == STAR then Bold(x) else if s[i] == TILDE then Strike(x) else Spoiler(x));
  }

  /** *x* and _x_. */
  lemma SingleWraps(s: Text, open: bool, i: int, c: int)
    requires 0 <= i && i + 1 < c < |s|
    requires PlainIn(s, 0, i) && PlainIn(s, i + 1, c) && PlainIn(s, c + 1, |s|)
    requires ItalicChar(s[i]) && s[i] == s[c] && !IsSpace(s[i + 1]) && !IsSpace(s[c - 1])
    requires s[i] == UNDERSCORE ==> (i > 0 ==> !IsAlnum(s[i - 1])) && (c + 1 < |s| ==> !IsAlnum(s[c + 1]))
    ensures Parse(s, open, 0, |s|, 0).nodes == Flush(s[..i]) + [Italic([Node.Text(s[i + 1..c])])] + Flush(s[c + 1..])
  {
    Ordinary(s, 0, i);
    Ordinary(s, i + 1, c);
    Ordinary(s, c + 1, |s|);
    AllFree(s, 0, c);
    hide SchemeLen, FreeFrom;
    assert StartOf(s, c) == c;
    assert SingleStands(s, 0, |s|, i, c);
    PlainInside(s, open, i + 1, c, 1);
    hide PlainIn, SingleStands, Reads;
    OneNode(s, open, i, c + 1, Italic([Node.Text(s[i + 1..c])]));
  }

  /** In a line that is cut short, a spoiler that is not closed. */
  lemma OpenSpoiler(s: Text, i: int)
    requires 0 <= i && i + 2 < |s| && s[i] == s[i + 1] == BAR && PlainIn(s, 0, i)
    requires PlainIn(s, i + 2, |s|) && !AllSpace(s[i + 2..])
    ensures Parse(s, true, 0, |s|, 0).nodes == Flush(s[..i]) + [Spoiler([Node.Text(s[i + 2..])])]
    ensures Parse(s, true, 0, |s|, 0).hidden > 0
  {
    Ordinary(s, i + 2, |s|);
    hide SchemeLen, FreeFrom;
    assert s[i + 2..|s|] == s[i + 2..];
    forall c ensures !PairStands(s, |s|, i, c) { assert i + 2 < c && c + 2 <= |s| ==> !PairAt(s, s[i], c); }
    assert SpoilerRunsOn(s, true, |s|, i);
    PlainInside(s, true, i + 2, |s|, 1);
    var x := Spoiler([Node.Text(s[i + 2..])]);
    assert Flush(s[|s|..]) == [] && PlainIn(s, |s|, |s|);
    assert Stands(s, true, 0, |s|, 0, i, |s|, x);
    CutHides(s, i);
    hide Stands, PlainIn, SpoilerRunsOn, Reads, Parse, Flush;
    OneNode(s, true, i, |s|, x);
  }

  lemma CutHides(s: Text, i: int)
    requires 0 <= i && i + 2 < |s| && s[i] == s[i + 1] == BAR && PlainIn(s, 0, i)
    requires SpoilerRunsOn(s, true, |s|, i)
    ensures Parse(s, true, 0, |s|, 0).hidden > 0
  {
    PlainReadsItself(s, true, 0, |s|, 0, 0, i);
    PlainIsRead(s, true, 0, |s|, 0, 0, i, s[0..i], []);
    StartByCharacter(s, true, 0, |s|, 0, i);
    PairMeans(s, |s|, i);
    hide PlainIn, PlainReads, PairStands, StartAt, PairCloser, ItalicCloser;
  }

  /** `x`, x anything without a backtick, markup or not. */
  lemma CodeSpan(s: Text, open: bool, i: int, c: int)
    requires 0 <= i && i + 1 < c < |s| && s[i] == s[c] == TICK && TICK !in s[i + 1..c]
    requires PlainIn(s, 0, i) && PlainIn(s, c + 1, |s|)
    ensures Parse(s, open, 0, |s|, 0).nodes == Flush(s[..i]) + [Code(s[i + 1..c])] + Flush(s[c + 1..])
  {
    forall k | i < k < c ensures s[k] != TICK { assert s[i + 1..c][k - (i + 1)] == s[k]; }
    hide PlainIn, Parse, Flush;
    OneNode(s, open, i, c + 1, Code(s[i + 1..c]));
  }

  /** <@id> and <#id>. */
  lemma Tokens(s: Text, open: bool, i: int)
    requires TokenAt(s, i) && PlainIn(s, 0, i) && PlainIn(s, i + TOKEN_LEN, |s|)
    ensures var id := Lower(s[i + 2..i + 38]);
            Parse(s, open, 0, |s|, 0).nodes
            == Flush(s[..i]) + [if s[i + 1] == AT then Mention(id) else Channel(id)] + Flush(s[i + TOKEN_LEN..])
  {
    var id := Lower(s[i + 2..i + 38]);
    var node := if s[i + 1] == AT then Mention(id) else Channel(id);
    assert Stands(s, open, 0, |s|, 0, i, i + TOKEN_LEN, node);
    hide PlainIn, Parse, Flush, Stands, TokenAt;
    OneNode(s, open, i, i + TOKEN_LEN, node);
  }

  /** A link that starts a word and goes up to what stops it, with nothing at its end that drops off. */
  lemma Links(s: Text, open: bool, i: int, j: int)
    requires 0 <= i < j <= |s| && PlainIn(s, 0, i) && PlainIn(s, j, |s|) && (i == 0 || Boundary(s[i - 1]))
    requires SchemeLen(s, i) > 0 && i + SchemeLen(s, i) < j <= i + 2048
    requires (forall k :: i <= k < j ==> !UrlStop(s[k])) && (j < |s| ==> UrlStop(s[j]))
    requires !Trailing(s[j - 1]) && s[j - 1] != UNPAREN
    ensures Parse(s, open, 0, |s|, 0).nodes == Flush(s[..i]) + [Link(s[i..j])] + Flush(s[j..])
  {
    SchemeStart(s, i);
    assert LinkStands(s, 0, |s|, i, j, j);
    assert Stands(s, open, 0, |s|, 0, i, j, Link(s[i..j]));
    hide PlainIn, Parse, Flush, Stands, LinkStands;
    OneNode(s, open, i, j, Link(s[i..j]));
  }

  /** A scheme starts with an h, of either case. */
  lemma SchemeStart(s: Text, i: int)
    requires 0 <= i < |s| && SchemeLen(s, i) > 0
    ensures s[i] == 104 || s[i] == 72
  {
    assert Lower(s[i..i + 4])[0] == LowerUnit(s[i]);
    assert i + 5 <= |s| ==> Lower(s[i..i + 5])[0] == LowerUnit(s[i]);
  }

  /** @everyone and @here, where they are a word of their own. */
  lemma Everyones(s: Text, open: bool, i: int, word: Text)
    requires 0 <= i < |s| && s[i] == AT && (word == EVERYONE || word == HERE) && StartsAt(s, word, i + 1)
    requires (i == 0 || Boundary(s[i - 1])) && (i + 1 + |word| < |s| ==> !Wordish(s[i + 1 + |word|]))
    requires PlainIn(s, 0, i) && PlainIn(s, i + 1 + |word|, |s|)
    ensures Parse(s, open, 0, |s|, 0).nodes == Flush(s[..i]) + [Everyone(word)] + Flush(s[i + 1 + |word|..])
  {
    assert Stands(s, open, 0, |s|, 0, i, i + 1 + |word|, Everyone(word));
    hide PlainIn, Parse, Flush, Stands;
    OneNode(s, open, i, i + 1 + |word|, Everyone(word));
  }
}
