/**
 * What the inline parser has to find, said of the positions of a line alone: where each kind of markup starts and where
 * it ends. A range has exactly one reading in these terms, and it is the parser's.
 */
module ChatFormatMarks {
  import opened Texts
  import opened ChatFormatLine
  import opened ChatFormatClosers
  import opened ChatFormatInline

  // ---------------------------------------------------------------------------------------------
  // What stands where
  // ---------------------------------------------------------------------------------------------

  predicate EscapeStands(s: Text, end: int, i: int)
    requires 0 <= i < end <= |s|
  {
    s[i] == BACKSLASH && i + 1 < end && Escapable(s[i + 1])
  }

  /** A code span from i whose closing backtick is at c: the next one, with something between. */
  predicate CodeStands(s: Text, end: int, i: int, c: int)
    requires 0 <= i < end <= |s|
  {
    s[i] == TICK && i + 1 < c < end && s[c] == TICK && forall k :: i < k < c ==> s[k] != TICK
  }

  predicate TokenStands(s: Text, end: int, i: int)
    requires 0 <= i < end <= |s|
  {
    TokenAt(s, i) && i + TOKEN_LEN <= end
  }

  /** The character before j does not belong to a link from i: punctuation, or a paren that was not opened in it. */
  predicate Drops(s: Text, i: int, j: int)
    requires 0 <= i < j <= |s|
  {
    Trailing(s[j - 1]) || (s[j - 1] == UNPAREN && Count(s[i..j], UNPAREN) > Count(s[i..j], PAREN))
  }

  /** The run of a link that starts a word at i goes on to `stop`: a scheme, and then what stops a URL, or the range's end. */
  predicate LinkRun(s: Text, from: int, end: int, i: int, stop: int)
    requires 0 <= from <= i < end <= |s|
  {
    && (s[i] == 104 || s[i] == 72) && WordStarts(s, from, i) && SchemeLen(s, i) > 0 && i + SchemeLen(s, i) < stop <= end
    && (forall k :: i <= k < stop ==> !UrlStop(s[k])) && (stop < end ==> UrlStop(s[stop]))
  }

  /** A link stands at i and ends at j: all of its run that does not drop off the end. */
  predicate LinkStands(s: Text, from: int, end: int, i: int, stop: int, j: int)
    requires 0 <= from <= i < end <= |s|
  {
    && LinkRun(s, from, end, i, stop) && stop - i <= URL_MAX
    && i + SchemeLen(s, i) < j <= stop && !Drops(s, i, j) && forall k :: j < k <= stop ==> Drops(s, i, k)
  }

  predicate LongRun(s: Text, from: int, end: int, i: int, stop: int)
    requires 0 <= from <= i < end <= |s|
  {
    LinkRun(s, from, end, i, stop) && stop - i > URL_MAX
  }

  ghost predicate NoLongRun(s: Text, from: int, end: int, i: int)
    requires 0 <= from <= i < end <= |s|
  {
    forall stop :: !LongRun(s, from, end, i, stop)
  }

  predicate EveryoneStands(s: Text, from: int, end: int, i: int, word: Text)
    requires 0 <= from <= i < end <= |s|
  {
    && s[i] == AT && WordStarts(s, from, i) && (word == EVERYONE || word == HERE) && StartsAt(s, word, i + 1)
    && i + 1 + |word| <= end && (i + 1 + |word| == end || !Wordish(s[i + 1 + |word|]))
  }

  /**
   * A doubled marker at i closes at c: the last pair before `end` of the first run of free pairs after it, with more than
   * space between.
   */
  predicate PairStands(s: Text, end: int, i: int, c: int)
    requires 0 <= i < end <= |s|
  {
    && PairChar(s[i]) && i + 1 < end && s[i + 1] == s[i]
    && i + 2 < c && c + 2 <= end && !AllSpace(s[i + 2..c])
    && InFirstRun(s, s[i], i + 2, c)
    && (c + 3 <= end ==> !PairAt(s, s[i], c + 1))
  }

  predicate InFirstRun(s: Text, ch: Unit, k: int, c: int) { exists p :: k <= p <= c && FirstRun(s, ch, k, p, c) }

  predicate FirstRun(s: Text, ch: Unit, k: int, p: int, c: int) {
    (forall q :: k <= q < p ==> !PairAt(s, ch, q)) && forall q :: p <= q <= c ==> PairAt(s, ch, q)
  }

  /** A spoiler that is not closed runs into the cut. */
  ghost predicate SpoilerRunsOn(s: Text, open: bool, end: int, i: int)
    requires 0 <= i < end <= |s|
  {
    && s[i] == BAR && i + 1 < end && s[i + 1] == BAR && open && end == |s| && !AllSpace(s[i + 2..end])
    && forall c :: !PairStands(s, end, i, c)
  }

  /**
   * A single marker at i, not doubled, not before a space nor glued to a word, closes at c: the first place that can
   * close it.
   */
  predicate SingleStands(s: Text, from: int, end: int, i: int, c: int)
    requires 0 <= from <= i < end <= |s|
  {
    && ItalicChar(s[i]) && i + 1 < end && s[i + 1] != s[i] && !IsSpace(s[i + 1])
    && !(s[i] == UNDERSCORE && i > from && IsAlnum(s[i - 1]))
    && i + 2 <= c < end && ClosesBefore(s, s[i], end, c) && forall k :: i + 2 <= k < c ==> !ClosesBefore(s, s[i], end, k)
  }

  /** Some markup starts at i. */
  ghost predicate MarkupStarts(s: Text, open: bool, from: int, end: int, depth: nat, i: int)
    requires 0 <= from <= i < end <= |s|
  {
    || (exists c :: CodeStands(s, end, i, c))
    || TokenStands(s, end, i)
    || (exists stop, j :: LinkStands(s, from, end, i, stop, j))
    || (exists word :: EveryoneStands(s, from, end, i, word))
    || (depth < MAX_DEPTH
        && (|| (exists c :: PairStands(s, end, i, c))
            || SpoilerRunsOn(s, open, end, i)
            || exists c :: SingleStands(s, from, end, i, c)))
  }

  // ---------------------------------------------------------------------------------------------
  // A reading of a range
  // ---------------------------------------------------------------------------------------------

  /** [i, j) is text that reads v: escaped characters, runs too long to be links, and characters no markup starts at. */
  ghost predicate PlainReads(s: Text, open: bool, from: int, end: int, depth: nat, i: int, j: int, v: Text)
    requires 0 <= from <= i <= j <= end <= |s|
    decreases j - i
  {
    if i == j then v == []
    else if EscapeStands(s, end, i) then
      i + 2 <= j && v != [] && v[0] == s[i + 1] && PlainReads(s, open, from, end, depth, i + 2, j, v[1..])
    else if exists stop :: LongRun(s, from, end, i, stop) then
      exists stop ::
        && LongRun(s, from, end, i, stop) && stop <= j && stop - i <= |v| && v[..stop - i] == s[i..stop]
        && PlainReads(s, open, from, end, depth, stop, j, v[stop - i..])
    else
      !MarkupStarts(s, open, from, end, depth, i)
      && v != [] && v[0] == s[i] && PlainReads(s, open, from, end, depth, i + 1, j, v[1..])
  }

  /** The node stands at [i, j). */
  ghost predicate Stands(s: Text, open: bool, from: int, end: int, depth: nat, i: int, j: int, node: Node)
    requires 0 <= from <= i < j <= end <= |s|
    decreases node, 0
  {
    match node
    case Text(v) => PlainReads(s, open, from, end, depth, i, j, v)
    case Code(v) => CodeStands(s, end, i, j - 1) && v == s[i + 1..j - 1]
    case Mention(id) => TokenStands(s, end, i) && j == i + TOKEN_LEN && s[i + 1] == AT && id == Lower(s[i + 2..i + 38])
    case Channel(id) => TokenStands(s, end, i) && j == i + TOKEN_LEN && s[i + 1] == HASH && id == Lower(s[i + 2..i + 38])
    case Link(href) => (exists stop :: LinkStands(s, from, end, i, stop, j)) && href == s[i..j]
    case Everyone(word) => EveryoneStands(s, from, end, i, word) && j == i + 1 + |word|
    case Bold(c) =>
      depth < MAX_DEPTH && s[i] == STAR && PairStands(s, end, i, j - 2) && Reads(s, open, i + 2, j - 2, depth + 1, i + 2, c)
    case Strike(c) =>
      depth < MAX_DEPTH && s[i] == TILDE && PairStands(s, end, i, j - 2) && Reads(s, open, i + 2, j - 2, depth + 1, i + 2, c)
    case Spoiler(c) =>
      && depth < MAX_DEPTH && s[i] == BAR
      && (|| (PairStands(s, end, i, j - 2) && Reads(s, open, i + 2, j - 2, depth + 1, i + 2, c))
          || (SpoilerRunsOn(s, open, end, i) && j == end && Reads(s, open, i + 2, end, depth + 1, i + 2, c)))
    case Italic(c) =>
      && depth < MAX_DEPTH && SingleStands(s, from, end, i, j - 1)
      && Reads(s, open, i + 1, j - 1, depth + 1, i + 1, c)
  }

  /** The nodes stand side by side from i to the end of the range, no two texts next to each other. */
  ghost predicate Reads(s: Text, open: bool, from: int, end: int, depth: nat, i: int, nodes: seq<Node>)
    requires 0 <= from <= i <= end <= |s|
    decreases nodes, 1
  {
    if nodes == [] then i == end else
      && (|nodes| > 1 && nodes[0].Text? ==> !nodes[1].Text?)
      && exists j :: i < j <= end && Stands(s, open, from, end, depth, i, j, nodes[0])
           && Reads(s, open, from, end, depth, j, nodes[1..])
  }

  // ---------------------------------------------------------------------------------------------
  // The scans find it
  // ---------------------------------------------------------------------------------------------

  lemma {:induction false} TrimUrlMeans(s: Text, start: int, end: int)
    requires 0 <= start <= end <= |s|
    ensures var j := TrimUrl(s, start, end);
            (start < j ==> !Drops(s, start, j)) && forall k :: j < k <= end ==> Drops(s, start, k)
    decreases end
  {
    if end > start && Drops(s, start, end) { TrimUrlMeans(s, start, end - 1); }
  }

  /** There is at most one run, and one end of a link in it. */
  lemma LinkMeans(s: Text, from: int, end: int, i: int)
    requires 0 <= from <= i < end <= |s| && (s[i] == 104 || s[i] == 72) && WordStarts(s, from, i)
    ensures var r := LinkEnd(s, i, end);
            && (forall stop, j :: LinkStands(s, from, end, i, stop, j) ==> r == j)
            && (forall stop :: LongRun(s, from, end, i, stop) ==> r == -stop)
            && (r > 0 ==> exists stop :: LinkStands(s, from, end, i, stop, r))
            && (r < 0 ==> LongRun(s, from, end, i, -r))
  {
    var found := ScanUrlStop(s, i);
    var stop := if found <= end then found else end;
    var r := LinkEnd(s, i, end);
    forall q | LinkRun(s, from, end, i, q) ensures q == stop {}
    TrimUrlMeans(s, i, stop);
    if SchemeLen(s, i) > 0 && stop > i + SchemeLen(s, i) {
      assert LinkRun(s, from, end, i, stop);
      if r > 0 { assert LinkStands(s, from, end, i, stop, r); }
    }
  }

  lemma {:induction false} ScanPairMeans(s: Text, ch: Unit, end: int, k: int)
    requires 0 <= k && end <= |s|
    ensures var c := ScanPair(s, ch, end, k);
            if c == -1 then forall q :: k <= q && q + 2 <= end ==> !PairAt(s, ch, q)
            else InFirstRun(s, ch, k, c) && (c + 3 <= end ==> !PairAt(s, ch, c + 1))
    decreases end - k
  {
    var c := ScanPair(s, ch, end, k);
    if k + 2 <= end {
      if PairAt(s, ch, k) {
        SlidePairMeans(s, ch, end, k);
        assert FirstRun(s, ch, k, k, c);
      } else {
        ScanPairMeans(s, ch, end, k + 1);
        if c != -1 {
          var p :| k + 1 <= p <= c && FirstRun(s, ch, k + 1, p, c);
          assert FirstRun(s, ch, k, p, c);
        }
      }
    }
  }

  lemma {:induction false} SlidePairMeans(s: Text, ch: Unit, end: int, p: int)
    requires 0 <= p && p + 2 <= end <= |s| && PairAt(s, ch, p)
    ensures var c := SlidePair(s, ch, end, p);
            (forall q :: p <= q <= c ==> PairAt(s, ch, q)) && (c + 3 <= end ==> !PairAt(s, ch, c + 1))
    decreases end - p
  {
    if p + 3 <= end && PairAt(s, ch, p + 1) { SlidePairMeans(s, ch, end, p + 1); }
  }

  lemma PairMeans(s: Text, end: int, i: int)
    requires 0 <= i && i + 2 <= end <= |s| && PairChar(s[i]) && s[i + 1] == s[i]
    ensures var c := PairCloser(s, s[i], i, end);
            (forall x :: PairStands(s, end, i, x) ==> x == c) && (c != -1 ==> PairStands(s, end, i, c))
  {
    var ch, c := s[i], ScanPair(s, s[i], end, i + 2);
    ScanPairMeans(s, ch, end, i + 2);
    hide ScanPair, Free, AllSpace;
    forall x | PairStands(s, end, i, x) ensures x == c {
      var p :| i + 2 <= p <= x && FirstRun(s, ch, i + 2, p, x);
      assert PairAt(s, ch, p) && PairAt(s, ch, x);
      var q :| i + 2 <= q <= c && FirstRun(s, ch, i + 2, q, c);
      assert PairAt(s, ch, q) && p == q;
      assert (x < c ==> PairAt(s, ch, x + 1)) && (c < x ==> PairAt(s, ch, c + 1));
    }
  }

  lemma SingleMeans(s: Text, from: int, end: int, i: int)
    requires 0 <= from <= i < end <= |s| && ItalicChar(s[i])
    ensures var c := ItalicCloser(s, s[i], i, from, end);
            (forall x :: SingleStands(s, from, end, i, x) ==> x == c) && (c != -1 ==> SingleStands(s, from, end, i, c))
  {
    var ch := s[i];
    if i + 1 < end && s[i + 1] != ch {
      assert Aligned(s, ch, i + 2);
      ScanItalicFinds(s, ch, end, i + 2);
    }
    hide ScanItalic, ClosesBefore;
  }

  lemma CodeMeans(s: Text, end: int, i: int)
    requires 0 <= i < end <= |s| && s[i] == TICK
    ensures var c := NextTick(s, i + 1);
            (forall x :: CodeStands(s, end, i, x) ==> x == c) && (i + 1 < c < end ==> CodeStands(s, end, i, c))
  {}

  lemma EveryoneMeans(s: Text, from: int, end: int, i: int)
    requires 0 <= from <= i < end <= |s| && s[i] == AT && WordStarts(s, from, i)
    ensures forall word :: EveryoneStands(s, from, end, i, word) ==> word == WordAfter(s, i) && EveryoneAt(s, i, end)
    ensures EveryoneAt(s, i, end) ==> EveryoneStands(s, from, end, i, WordAfter(s, i))
  {
    if StartsAt(s, HERE, i + 1) { OneWord(s, i + 1); }
  }

  lemma OneWord(s: Text, k: int)
    requires StartsAt(s, HERE, k)
    ensures !StartsAt(s, EVERYONE, k)
  {
    assert s[k] == HERE[0] != EVERYONE[0];
    assert k + 8 <= |s| ==> s[k..k + 8][0] == s[k];
  }

  // ---------------------------------------------------------------------------------------------
  // What starts at a position
  // ---------------------------------------------------------------------------------------------

  /** What the parser takes at i, by the character there. */
  lemma StartByCharacter(s: Text, open: bool, from: int, end: int, depth: nat, i: int)
    requires 0 <= from <= i < end <= |s|
    ensures var at, ch := StartAt(s, open, from, end, depth, i), s[i];
            at == if EscapeStands(s, end, i) then Escape(i + 2, [s[i + 1]])
                  else if ch == TICK && i + 1 < NextTick(s, i + 1) < end then
                    Leaf(NextTick(s, i + 1) + 1, Code(s[i + 1..NextTick(s, i + 1)]))
                  else if TokenStands(s, end, i) then Leaf(i + TOKEN_LEN, TokenNode(s, i))
                  else if (ch == 104 || ch == 72) && WordStarts(s, from, i) && LinkEnd(s, i, end) != 0 then
                    if LinkEnd(s, i, end) > 0 then Leaf(LinkEnd(s, i, end), Link(s[i..LinkEnd(s, i, end)]))
                    else Literal(-LinkEnd(s, i, end))
                  else if ch == AT && WordStarts(s, from, i) && EveryoneAt(s, i, end) then
                    Leaf(i + 1 + |WordAfter(s, i)|, Everyone(WordAfter(s, i)))
                  else if depth < MAX_DEPTH && Marker(ch) then EmphasisAt(s, open, from, end, i)
                  else Literal(i + 1)
  {
    hide LinkEnd, NextTick, IsUuid, WordAfter, EveryoneAt, PairCloser, ItalicCloser, AllSpace;
  }

  /** Whatever starts at i is what the parser takes there, and the other way round. */
  lemma StartMeans(s: Text, open: bool, from: int, end: int, depth: nat, i: int)
    requires 0 <= from <= i < end <= |s|
    ensures StartFits(s, open, from, end, depth, i, StartAt(s, open, from, end, depth, i))
  {
    StartByCharacter(s, open, from, end, depth, i);
    if Marker(s[i]) {
      MarkerMeans(s, open, from, end, depth, i);
    } else {
      OtherMeans(s, open, from, end, depth, i);
    }
  }

  ghost predicate StartFits(s: Text, open: bool, from: int, end: int, depth: nat, i: int, at: Start)
    requires 0 <= from <= i < end <= |s| && i < at.next <= end
  {
    if at.Escape? then EscapeStands(s, end, i) && at == Escape(i + 2, [s[i + 1]])
    else
      && !EscapeStands(s, end, i)
      && (NoLongRun(s, from, end, i) || (at.Literal? && LongRun(s, from, end, i, at.next)))
      && (at.Literal? && NoLongRun(s, from, end, i) ==>
            at == Literal(i + 1) && !MarkupStarts(s, open, from, end, depth, i))
      && (at.Leaf? ==> !at.node.Text? && Stands(s, open, from, end, depth, i, at.next, at.node))
      && (at.Nest? ==> depth < MAX_DEPTH && Opens(s, open, from, end, i, at.wrap, at.start, at.close, at.next))
  }

  lemma MarkerMeans(s: Text, open: bool, from: int, end: int, depth: nat, i: int)
    requires 0 <= from <= i < end <= |s| && Marker(s[i])
    ensures StartFits(s, open, from, end, depth, i, StartAt(s, open, from, end, depth, i))
  {
    StartByCharacter(s, open, from, end, depth, i);
    hide StartAt, EmphasisAt, LinkEnd, NextTick, IsUuid, WordAfter, EveryoneAt, Lower, Opens;
    EmphasisMeans(s, open, from, end, i);
    assert NoLongRun(s, from, end, i);
    NoneOfThese(s, from, end, i);
    hide PairStands, SpoilerRunsOn, SingleStands, CodeStands, TokenStands, LinkStands, EveryoneStands, LongRun, NoLongRun;
  }

  lemma NoneOfThese(s: Text, from: int, end: int, i: int)
    requires 0 <= from <= i < end <= |s| && Marker(s[i])
    ensures (forall c :: !CodeStands(s, end, i, c)) && !TokenStands(s, end, i)
    ensures (forall stop, j :: !LinkStands(s, from, end, i, stop, j)) && forall word :: !EveryoneStands(s, from, end, i, word)
  {}

  lemma OtherMeans(s: Text, open: bool, from: int, end: int, depth: nat, i: int)
    requires 0 <= from <= i < end <= |s| && !Marker(s[i])
    ensures StartFits(s, open, from, end, depth, i, StartAt(s, open, from, end, depth, i))
  {
    forall c ensures !PairStands(s, end, i, c) && !SingleStands(s, from, end, i, c) {}
    assert !SpoilerRunsOn(s, open, end, i);
    hide StartAt, StartFits, PairStands, SpoilerRunsOn, SingleStands;
    if s[i] == 104 || s[i] == 72 {
      LinkFits(s, open, from, end, depth, i);
    } else if s[i] == AT {
      EveryoneFits(s, open, from, end, depth, i);
    } else {
      OthersFit(s, open, from, end, depth, i);
    }
  }

  ghost predicate NoEmphasis(s: Text, open: bool, from: int, end: int, i: int)
    requires 0 <= from <= i < end <= |s|
  {
    && (forall c :: !PairStands(s, end, i, c)) && (forall c :: !SingleStands(s, from, end, i, c))
    && !SpoilerRunsOn(s, open, end, i)
  }

  lemma LinkFits(s: Text, open: bool, from: int, end: int, depth: nat, i: int)
    requires 0 <= from <= i < end <= |s| && (s[i] == 104 || s[i] == 72) && NoEmphasis(s, open, from, end, i)
    ensures StartFits(s, open, from, end, depth, i, StartAt(s, open, from, end, depth, i))
  {
    StartByCharacter(s, open, from, end, depth, i);
    hide StartAt, EmphasisAt, LinkEnd, NextTick, IsUuid, WordAfter, EveryoneAt, Lower, PairStands, SpoilerRunsOn, SingleStands;
    forall word ensures !EveryoneStands(s, from, end, i, word) {}
    forall c ensures !CodeStands(s, end, i, c) {}
    assert !TokenStands(s, end, i) && !EscapeStands(s, end, i);
    hide EveryoneStands, CodeStands, TokenStands, EscapeStands;
    if WordStarts(s, from, i) {
      LinkMeans(s, from, end, i);
      hide LinkStands, LongRun;
    } else {
      assert forall stop :: !LinkRun(s, from, end, i, stop);
      hide LinkRun;
    }
  }

  lemma EveryoneFits(s: Text, open: bool, from: int, end: int, depth: nat, i: int)
    requires 0 <= from <= i < end <= |s| && s[i] == AT && NoEmphasis(s, open, from, end, i)
    ensures StartFits(s, open, from, end, depth, i, StartAt(s, open, from, end, depth, i))
  {
    StartByCharacter(s, open, from, end, depth, i);
    hide StartAt, EmphasisAt, LinkEnd, NextTick, IsUuid, WordAfter, EveryoneAt, Lower, PairStands, SpoilerRunsOn, SingleStands;
    forall stop ensures !LinkRun(s, from, end, i, stop) {}
    forall c ensures !CodeStands(s, end, i, c) {}
    assert !TokenStands(s, end, i) && !EscapeStands(s, end, i);
    hide CodeStands, TokenStands, EscapeStands, LinkRun;
    if WordStarts(s, from, i) { EveryoneMeans(s, from, end, i); }
  }

  lemma OthersFit(s: Text, open: bool, from: int, end: int, depth: nat, i: int)
    requires 0 <= from <= i < end <= |s| && !Marker(s[i]) && s[i] != 104 && s[i] != 72 && s[i] != AT
    requires NoEmphasis(s, open, from, end, i)
    ensures StartFits(s, open, from, end, depth, i, StartAt(s, open, from, end, depth, i))
  {
    StartByCharacter(s, open, from, end, depth, i);
    hide StartAt, EmphasisAt, LinkEnd, NextTick, IsUuid, WordAfter, EveryoneAt, Lower, PairStands, SpoilerRunsOn, SingleStands;
    forall stop ensures !LinkRun(s, from, end, i, stop) {}
    forall word ensures !EveryoneStands(s, from, end, i, word) {}
    hide LinkRun, EveryoneStands;
    if s[i] == TICK { CodeMeans(s, end, i); }
  }

  /** Emphasis of this kind stands at [i, next) around [start, close). */
  ghost predicate Opens(s: Text, open: bool, from: int, end: int, i: int, wrap: Wrap, start: int, close: int, next: int)
    requires 0 <= from <= i < end <= |s|
  {
    match wrap
    case BoldWrap => s[i] == STAR && PairStands(s, end, i, close) && start == i + 2 && next == close + 2
    case StrikeWrap => s[i] == TILDE && PairStands(s, end, i, close) && start == i + 2 && next == close + 2
    case SpoilerWrap =>
      s[i] == BAR && start == i + 2
      && ((PairStands(s, end, i, close) && next == close + 2) || (SpoilerRunsOn(s, open, end, i) && close == next == end))
    case ItalicWrap => SingleStands(s, from, end, i, close) && start == i + 1 && next == close + 1
  }

  lemma EmphasisMeans(s: Text, open: bool, from: int, end: int, i: int)
    requires 0 <= from <= i < end <= |s| && Marker(s[i])
    ensures var at := EmphasisAt(s, open, from, end, i);
            if at.Nest? then Opens(s, open, from, end, i, at.wrap, at.start, at.close, at.next)
            else
              && at == Literal(i + 1)
              && (forall c :: !PairStands(s, end, i, c)) && !SpoilerRunsOn(s, open, end, i)
              && forall c :: !SingleStands(s, from, end, i, c)
  {
    if PairChar(s[i]) && i + 1 < end && s[i + 1] == s[i] { PairMeans(s, end, i); }
    if ItalicChar(s[i]) { SingleMeans(s, from, end, i); }
    hide PairCloser, ItalicCloser;
  }

  // ---------------------------------------------------------------------------------------------
  // The parser's reading, and the only one
  // ---------------------------------------------------------------------------------------------

  lemma {:induction false} PlainMore(s: Text, open: bool, from: int, end: int, depth: nat, a: int, i: int, j: int, v: Text,
                                     w: Text)
    requires 0 <= from <= a <= i <= j <= end <= |s|
    requires PlainReads(s, open, from, end, depth, a, i, v) && PlainReads(s, open, from, end, depth, i, j, w)
    ensures PlainReads(s, open, from, end, depth, a, j, v + w)
    decreases i - a
  {
    hide EscapeStands, LongRun, MarkupStarts;
    if a == i {
      assert v + w == w;
    } else if EscapeStands(s, end, a) {
      assert (v + w)[1..] == v[1..] + w;
      PlainMore(s, open, from, end, depth, a + 2, i, j, v[1..], w);
    } else if exists stop :: LongRun(s, from, end, a, stop) {
      forall stop | LongRun(s, from, end, a, stop) ensures a < stop <= end { LongRunGoesOn(s, from, end, a, stop); }
      var stop :| LongRun(s, from, end, a, stop) && stop <= i && stop - a <= |v| && v[..stop - a] == s[a..stop]
                  && PlainReads(s, open, from, end, depth, stop, i, v[stop - a..]);
      assert (v + w)[..stop - a] == v[..stop - a] && (v + w)[stop - a..] == v[stop - a..] + w;
      PlainMore(s, open, from, end, depth, stop, i, j, v[stop - a..], w);
    } else {
      assert (v + w)[1..] == v[1..] + w;
      PlainMore(s, open, from, end, depth, a + 1, i, j, v[1..], w);
    }
  }

  lemma LongRunGoesOn(s: Text, from: int, end: int, i: int, stop: int)
    requires 0 <= from <= i < end <= |s| && LongRun(s, from, end, i, stop)
    ensures i < stop <= end
  {}

  /** One step of the parser that adds to the text. */
  lemma PlainStep(s: Text, open: bool, from: int, end: int, depth: nat, i: int)
    requires 0 <= from <= i < end <= |s|
    ensures var at := StartAt(s, open, from, end, depth, i);
            && (at.Escape? ==> PlainReads(s, open, from, end, depth, i, at.next, at.text))
            && (at.Literal? ==> PlainReads(s, open, from, end, depth, i, at.next, s[i..at.next]))
  {
    StartMeans(s, open, from, end, depth, i);
    hide StartAt, EscapeStands, LongRun, MarkupStarts, Stands, Opens;
    var at := StartAt(s, open, from, end, depth, i);
    if at.Literal? && LongRun(s, from, end, i, at.next) {
      assert s[i..at.next][..at.next - i] == s[i..at.next];
      assert PlainReads(s, open, from, end, depth, at.next, at.next, s[i..at.next][at.next - i..]);
    }
  }

  lemma ReadsEmit(s: Text, open: bool, from: int, end: int, depth: nat, a: int, i: int, next: int, buf: Text, node: Node,
                  rest: seq<Node>)
    requires 0 <= from <= a <= i < next <= end <= |s| && PlainReads(s, open, from, end, depth, a, i, buf)
    requires !node.Text? && Stands(s, open, from, end, depth, i, next, node)
    requires Reads(s, open, from, end, depth, next, rest)
    ensures Reads(s, open, from, end, depth, a, Flush(buf) + [node] + rest)
  {
    PlainIsSomething(s, open, from, end, depth, a, i, buf);
    var nodes := [node] + rest;
    assert nodes[1..] == rest;
    assert Reads(s, open, from, end, depth, i, nodes) by { hide Stands; }
    if buf == [] {
      assert Flush(buf) + [node] + rest == nodes;
    } else {
      var all := [Node.Text(buf)] + nodes;
      assert Flush(buf) + [node] + rest == all && all[1..] == nodes;
      assert Stands(s, open, from, end, depth, a, i, all[0]);
      hide Stands;
    }
  }

  lemma PlainIsSomething(s: Text, open: bool, from: int, end: int, depth: nat, i: int, j: int, v: Text)
    requires 0 <= from <= i <= j <= end <= |s| && PlainReads(s, open, from, end, depth, i, j, v)
    ensures i < j <==> v != []
  {
    hide EscapeStands, MarkupStarts;
  }

  lemma OpensWraps(s: Text, open: bool, from: int, end: int, depth: nat, i: int, wrap: Wrap, start: int, close: int, next: int,
                   c: seq<Node>)
    requires 0 <= from <= i < next <= end <= |s| && i < start <= close <= next && depth < MAX_DEPTH
    requires Opens(s, open, from, end, i, wrap, start, close, next) && Reads(s, open, start, close, depth + 1, start, c)
    ensures Stands(s, open, from, end, depth, i, next, Wrapped(wrap, c))
  {
    hide PairStands, SpoilerRunsOn, SingleStands, Reads;
  }

  /** The parser's nodes are a reading of the range. */
  lemma {:induction false} ParseReads(s: Text, open: bool, from: int, end: int, depth: nat, a: int, i: int, buf: Text)
    requires 0 <= from <= a <= i <= end <= |s| && PlainReads(s, open, from, end, depth, a, i, buf)
    ensures Reads(s, open, from, end, depth, a, ParseFrom(s, open, from, end, depth, i, buf).nodes)
    decreases end - i
  {
    hide StartAt, PlainReads, Reads, Stands, Opens;
    if i == end {
      PlainIsSomething(s, open, from, end, depth, a, i, buf);
      ReadsEnd(s, open, from, end, depth, a, buf);
    } else {
      var at := StartAt(s, open, from, end, depth, i);
      var next := at.next;
      PlainStep(s, open, from, end, depth, i);
      StartStands(s, open, from, end, depth, i);
      ReadsNothing(s, open, from, end, depth, next);
      match at
      case Escape(_, text) =>
        PlainMore(s, open, from, end, depth, a, i, next, buf, text);
        ParseReads(s, open, from, end, depth, a, next, buf + text);
      case Literal(_) =>
        PlainMore(s, open, from, end, depth, a, i, next, buf, s[i..next]);
        ParseReads(s, open, from, end, depth, a, next, buf + s[i..next]);
      case Leaf(_, node) =>
        ParseReads(s, open, from, end, depth, next, next, []);
        ReadsEmit(s, open, from, end, depth, a, i, next, buf, node, ParseFrom(s, open, from, end, depth, next, []).nodes);
      case Nest(wrap, start, close, _, _) =>
        ReadsNothing(s, open, start, close, depth + 1, start);
        ParseReads(s, open, start, close, depth + 1, start, start, []);
        ParseReads(s, open, from, end, depth, next, next, []);
        var c := ParseFrom(s, open, start, close, depth + 1, start, []).nodes;
        OpensWraps(s, open, from, end, depth, i, wrap, start, close, next, c);
        ReadsEmit(s, open, from, end, depth, a, i, next, buf, Wrapped(wrap, c),
                  ParseFrom(s, open, from, end, depth, next, []).nodes);
    }
  }

  lemma ReadsNothing(s: Text, open: bool, from: int, end: int, depth: nat, i: int)
    requires 0 <= from <= i <= end <= |s|
    ensures PlainReads(s, open, from, end, depth, i, i, [])
  {}

  lemma ReadsEnd(s: Text, open: bool, from: int, end: int, depth: nat, a: int, buf: Text)
    requires 0 <= from <= a <= end <= |s| && PlainReads(s, open, from, end, depth, a, end, buf) && (a < end <==> buf != [])
    ensures Reads(s, open, from, end, depth, a, Flush(buf))
  {
    if buf != [] {
      assert Stands(s, open, from, end, depth, a, end, Node.Text(buf));
      assert Flush(buf)[1..] == [] && Reads(s, open, from, end, depth, end, []);
      hide Stands;
    }
  }

  lemma StartStands(s: Text, open: bool, from: int, end: int, depth: nat, i: int)
    requires 0 <= from <= i < end <= |s|
    ensures var at := StartAt(s, open, from, end, depth, i);
            && (at.Leaf? ==> !at.node.Text? && Stands(s, open, from, end, depth, i, at.next, at.node))
            && (at.Nest? ==> depth < MAX_DEPTH && Opens(s, open, from, end, i, at.wrap, at.start, at.close, at.next))
  {
    StartMeans(s, open, from, end, depth, i);
    hide StartAt, Stands, Opens, MarkupStarts, EscapeStands, LongRun;
  }

  /** The parser takes this text at i, and goes on at `next`. */
  ghost predicate TakesText(s: Text, open: bool, from: int, end: int, depth: nat, i: int, next: int, text: Text)
    requires 0 <= from <= i < end <= |s|
  {
    var at := StartAt(s, open, from, end, depth, i);
    at == Escape(next, text) || (at == Literal(next) && text == s[i..next])
  }

  /** What the parser takes of text that reads v is how v starts. */
  lemma PlainHead(s: Text, open: bool, from: int, end: int, depth: nat, i: int, j: int, v: Text) returns (next: int, text: Text)
    requires 0 <= from <= i < j <= end <= |s| && PlainReads(s, open, from, end, depth, i, j, v)
    ensures i < next <= j && TakesText(s, open, from, end, depth, i, next, text) && text <= v
    ensures PlainReads(s, open, from, end, depth, next, j, v[|text|..])
  {
    hide *;
    if EscapeStands(s, end, i) {
      EscapeHead(s, open, from, end, depth, i, j, v);
      next, text := i + 2, [s[i + 1]];
    } else if NoLongRun(s, from, end, i) {
      CharHead(s, open, from, end, depth, i, j, v);
      next, text := i + 1, [s[i]];
    } else {
      next := LongHead(s, open, from, end, depth, i, j, v);
      text := s[i..next];
    }
  }

  lemma EscapeHead(s: Text, open: bool, from: int, end: int, depth: nat, i: int, j: int, v: Text)
    requires 0 <= from <= i < j <= end <= |s| && PlainReads(s, open, from, end, depth, i, j, v) && EscapeStands(s, end, i)
    ensures i + 2 <= j && TakesText(s, open, from, end, depth, i, i + 2, [s[i + 1]]) && [s[i + 1]] <= v
    ensures PlainReads(s, open, from, end, depth, i + 2, j, v[1..])
  {
    PlainStarts(s, open, from, end, depth, i);
    hide StartAt;
  }

  lemma CharHead(s: Text, open: bool, from: int, end: int, depth: nat, i: int, j: int, v: Text)
    requires 0 <= from <= i < j <= end <= |s| && PlainReads(s, open, from, end, depth, i, j, v)
    requires !EscapeStands(s, end, i) && NoLongRun(s, from, end, i)
    ensures TakesText(s, open, from, end, depth, i, i + 1, [s[i]]) && [s[i]] <= v
    ensures PlainReads(s, open, from, end, depth, i + 1, j, v[1..])
  {
    PlainStarts(s, open, from, end, depth, i);
    hide StartAt, MarkupStarts, EscapeStands, LongRun;
    assert s[i..i + 1] == [s[i]];
  }

  lemma LongHead(s: Text, open: bool, from: int, end: int, depth: nat, i: int, j: int, v: Text) returns (stop: int)
    requires 0 <= from <= i < j <= end <= |s| && PlainReads(s, open, from, end, depth, i, j, v)
    requires !EscapeStands(s, end, i) && !NoLongRun(s, from, end, i)
    ensures i < stop <= j && TakesText(s, open, from, end, depth, i, stop, s[i..stop]) && s[i..stop] <= v
    ensures PlainReads(s, open, from, end, depth, stop, j, v[stop - i..])
  {
    PlainStarts(s, open, from, end, depth, i);
    hide StartAt, LongRun, EscapeStands, MarkupStarts;
    forall q | LongRun(s, from, end, i, q) ensures i < q <= end { LongRunGoesOn(s, from, end, i, q); }
    stop :| LongRun(s, from, end, i, stop) && stop <= j && stop - i <= |v| && v[..stop - i] == s[i..stop]
            && PlainReads(s, open, from, end, depth, stop, j, v[stop - i..]);
  }

  lemma TextTaken(s: Text, open: bool, from: int, end: int, depth: nat, i: int, next: int, text: Text, buf: Text)
    requires 0 <= from <= i < next <= end <= |s| && TakesText(s, open, from, end, depth, i, next, text)
    ensures ParseFrom(s, open, from, end, depth, i, buf) == ParseFrom(s, open, from, end, depth, next, buf + text)
  {
    hide StartAt;
  }

  /** Where text reads v, the parser goes through it and keeps v. */
  lemma {:induction false} PlainIsRead(s: Text, open: bool, from: int, end: int, depth: nat, i: int, j: int, v: Text, buf: Text)
    requires 0 <= from <= i <= j <= end <= |s| && PlainReads(s, open, from, end, depth, i, j, v)
    ensures ParseFrom(s, open, from, end, depth, i, buf) == ParseFrom(s, open, from, end, depth, j, buf + v)
    decreases j - i
  {
    if i == j {
      assert buf + v == buf;
    } else {
      hide *;
      var next, text := PlainHead(s, open, from, end, depth, i, j, v);
      TextTaken(s, open, from, end, depth, i, next, text, buf);
      assert v == text + v[|text|..];
      Assoc(buf, text, v[|text|..]);
      PlainIsRead(s, open, from, end, depth, next, j, v[|text|..], buf + text);
    }
  }

  /** What the parser takes where text goes on. */
  lemma PlainStarts(s: Text, open: bool, from: int, end: int, depth: nat, i: int)
    requires 0 <= from <= i < end <= |s|
    ensures var at := StartAt(s, open, from, end, depth, i);
            && (EscapeStands(s, end, i) ==> at == Escape(i + 2, [s[i + 1]]))
            && (!EscapeStands(s, end, i) ==> forall stop :: LongRun(s, from, end, i, stop) ==> at == Literal(stop))
            && (!EscapeStands(s, end, i) && NoLongRun(s, from, end, i) && !MarkupStarts(s, open, from, end, depth, i) ==>
                  at == Literal(i + 1))
  {
    StartByCharacter(s, open, from, end, depth, i);
    var ch := s[i];
    if (ch == 104 || ch == 72) && WordStarts(s, from, i) { LinkMeans(s, from, end, i); }
    StartMeans(s, open, from, end, depth, i);
    LeafStarts(s, open, from, end, depth, i);
    hide StartAt, EmphasisAt, LinkEnd, NextTick, TokenAt, WordAfter, EveryoneAt, MarkupStarts, Stands, Opens, IsUuid, Lower;
  }

  /** Where the parser takes a node, some markup starts. */
  lemma LeafStarts(s: Text, open: bool, from: int, end: int, depth: nat, i: int)
    requires 0 <= from <= i < end <= |s|
    ensures var at := StartAt(s, open, from, end, depth, i); at.Leaf? || at.Nest? ==> MarkupStarts(s, open, from, end, depth, i)
  {
    StartMeans(s, open, from, end, depth, i);
    hide StartAt, CodeStands, TokenStands, LinkStands, EveryoneStands, PairStands, SpoilerRunsOn, SingleStands;
    hide PlainReads, Reads, Lower;
  }

  function Inside(node: Node): seq<Node> {
    match node
    case Bold(c) => c
    case Italic(c) => c
    case Strike(c) => c
    case Spoiler(c) => c
    case _ => []
  }

  predicate IsWrapped(wrap: Wrap, node: Node) {
    match wrap
    case BoldWrap => node.Bold?
    case ItalicWrap => node.Italic?
    case StrikeWrap => node.Strike?
    case SpoilerWrap => node.Spoiler?
  }

  /** The parser takes the node at i, and goes on at j. */
  ghost predicate IsTaken(s: Text, open: bool, from: int, end: int, depth: nat, i: int, j: int, node: Node)
    requires 0 <= from <= i < j <= end <= |s|
  {
    var at := StartAt(s, open, from, end, depth, i);
    || at == Leaf(j, node)
    || (at.Nest? && at.next == j && IsWrapped(at.wrap, node)
        && Reads(s, open, at.start, at.close, depth + 1, at.start, Inside(node)))
  }

  lemma EmphasisIsTaken(s: Text, open: bool, from: int, end: int, depth: nat, i: int, j: int, node: Node)
    requires 0 <= from <= i < j <= end <= |s| && Stands(s, open, from, end, depth, i, j, node)
    requires node.Bold? || node.Strike? || node.Spoiler?
    ensures IsTaken(s, open, from, end, depth, i, j, node)
  {
    StartByCharacter(s, open, from, end, depth, i);
    PairMeans(s, end, i);
    assert !EscapeStands(s, end, i) && !TokenStands(s, end, i) && StartAt(s, open, from, end, depth, i)
        == EmphasisAt(s, open, from, end, i);
    hide StartAt, PairCloser, ItalicCloser, Reads, AllSpace, InFirstRun, NextTick, LinkEnd, EveryoneAt, EscapeStands,
      TokenStands, TokenAt, WordAfter, WordStarts;
  }

  lemma ItalicIsTaken(s: Text, open: bool, from: int, end: int, depth: nat, i: int, j: int, node: Node)
    requires 0 <= from <= i < j <= end <= |s| && Stands(s, open, from, end, depth, i, j, node) && node.Italic?
    ensures IsTaken(s, open, from, end, depth, i, j, node)
  {
    StartByCharacter(s, open, from, end, depth, i);
    SingleMeans(s, from, end, i);
    hide StartAt, PairCloser, ItalicCloser, Reads, AllSpace, ClosesBefore, NextTick, LinkEnd, EveryoneAt;
  }

  /** A node that is not text is what the parser takes where it stands. */
  lemma StandsIsTaken(s: Text, open: bool, from: int, end: int, depth: nat, i: int, j: int, node: Node)
    requires 0 <= from <= i < j <= end <= |s| && !node.Text? && Stands(s, open, from, end, depth, i, j, node)
    ensures IsTaken(s, open, from, end, depth, i, j, node)
  {
    if node.Bold? || node.Strike? || node.Spoiler? {
      EmphasisIsTaken(s, open, from, end, depth, i, j, node);
    } else if node.Italic? {
      ItalicIsTaken(s, open, from, end, depth, i, j, node);
    } else {
      StartByCharacter(s, open, from, end, depth, i);
      hide StartAt, NextTick, WordAfter, EveryoneAt, EmphasisAt, Reads, IsUuid, Lower, LinkEnd;
      match node
      case Code(_) => CodeMeans(s, end, i);
      case Link(_) => LinkMeans(s, from, end, i);
      case Everyone(_) => EveryoneMeans(s, from, end, i);
      case _ =>
    }
  }

  /** Where a node stands, the text before it is over. */
  lemma TextFirst(s: Text, open: bool, from: int, end: int, depth: nat, j: int, v: Text)
    requires 0 <= from <= j <= end <= |s| && v != []
    requires j == end || StartAt(s, open, from, end, depth, j).Leaf? || StartAt(s, open, from, end, depth, j).Nest?
    ensures ParseFrom(s, open, from, end, depth, j, v).nodes == [Node.Text(v)] + ParseFrom(s, open, from, end, depth, j, []).nodes
  {
    hide StartAt;
  }

  lemma NodeFirst(s: Text, open: bool, from: int, end: int, depth: nat, i: int, j: int, node: Node)
    requires 0 <= from <= i < j <= end <= |s| && IsTaken(s, open, from, end, depth, i, j, node)
    ensures var at := StartAt(s, open, from, end, depth, i);
            var first := if at.Nest? then Wrapped(at.wrap, Parse(s, open, at.start, at.close, depth + 1).nodes) else node;
            && (at.Leaf? || (at.Nest? && IsWrapped(at.wrap, node)
                             && Reads(s, open, at.start, at.close, depth + 1, at.start, Inside(node))))
            && ParseFrom(s, open, from, end, depth, i, []).nodes == [first] + ParseFrom(s, open, from, end, depth, j, []).nodes
  {
    hide StartAt, Reads;
  }

  /** A range has no reading but the parser's nodes. */
  lemma {:induction false} OnlyReading(s: Text, open: bool, from: int, end: int, depth: nat, i: int, nodes: seq<Node>)
    requires 0 <= from <= i <= end <= |s| && Reads(s, open, from, end, depth, i, nodes)
    ensures nodes == ParseFrom(s, open, from, end, depth, i, []).nodes
    decreases end - i
  {
    hide StartAt, PlainReads, ParseFrom, Stands;
    if nodes == [] {
      NothingLeft(s, open, from, end, depth);
    } else {
      var j :| i < j <= end && Stands(s, open, from, end, depth, i, j, nodes[0])
               && Reads(s, open, from, end, depth, j, nodes[1..]);
      var rest := nodes[1..];
      assert |nodes| > 1 && nodes[0].Text? ==> !rest[0].Text?;
      hide Reads, IsTaken;
      OnlyReading(s, open, from, end, depth, j, rest);
      assert nodes == [nodes[0]] + rest;
      if nodes[0].Text? {
        OnlyText(s, open, from, end, depth, i, j, nodes[0], rest);
      } else {
        StandsIsTaken(s, open, from, end, depth, i, j, nodes[0]);
        NodeFirst(s, open, from, end, depth, i, j, nodes[0]);
        var at := StartAt(s, open, from, end, depth, i);
        if at.Nest? { OnlyReading(s, open, at.start, at.close, depth + 1, at.start, Inside(nodes[0])); }
      }
    }
  }

  lemma OnlyText(s: Text, open: bool, from: int, end: int, depth: nat, i: int, j: int, node: Node, rest: seq<Node>)
    requires 0 <= from <= i < j <= end <= |s| && Stands(s, open, from, end, depth, i, j, node) && node.Text?
    requires Reads(s, open, from, end, depth, j, rest) && (rest != [] ==> !rest[0].Text?)
    ensures ParseFrom(s, open, from, end, depth, i, []).nodes == [node] + ParseFrom(s, open, from, end, depth, j, []).nodes
  {
    var v := node.v;
    PlainIsRead(s, open, from, end, depth, i, j, v, []);
    PlainIsSomething(s, open, from, end, depth, i, j, v);
    assert [] + v == v && (rest == [] ==> j == end);
    hide Reads, Stands, PlainReads, StartAt;
    if rest != [] { TextIsOver(s, open, from, end, depth, j, rest); }
    TextFirst(s, open, from, end, depth, j, v);
  }

  lemma NothingLeft(s: Text, open: bool, from: int, end: int, depth: nat)
    requires 0 <= from <= end <= |s|
    ensures ParseFrom(s, open, from, end, depth, end, []).nodes == []
  {}

  lemma TextIsOver(s: Text, open: bool, from: int, end: int, depth: nat, j: int, rest: seq<Node>)
    requires 0 <= from <= j <= end <= |s| && rest != [] && !rest[0].Text? && Reads(s, open, from, end, depth, j, rest)
    ensures j < end
    ensures StartAt(s, open, from, end, depth, j).Leaf? || StartAt(s, open, from, end, depth, j).Nest?
  {
    hide StartAt;
    var k :| j < k <= end && Stands(s, open, from, end, depth, j, k, rest[0])
             && Reads(s, open, from, end, depth, k, rest[1..]);
    StandsIsTaken(s, open, from, end, depth, j, k, rest[0]);
  }

  /**
   * The nodes of a range are its one reading: each kind of markup wherever it stands, and text only where none starts.
   * Nothing that starts and closes in the range is left as text, and nothing else is taken for markup.
   */
  lemma ReadingIsParse(s: Text, open: bool, from: int, end: int, depth: nat, nodes: seq<Node>)
    requires 0 <= from <= end <= |s|
    ensures Reads(s, open, from, end, depth, from, nodes) <==> nodes == Parse(s, open, from, end, depth).nodes
  {
    if Reads(s, open, from, end, depth, from, nodes) { OnlyReading(s, open, from, end, depth, from, nodes); }
    ReadsNothing(s, open, from, end, depth, from);
    ParseReads(s, open, from, end, depth, from, from, []);
    hide Reads, ParseFrom;
  }

  // ---------------------------------------------------------------------------------------------
  // Whether the cut hides the rest
  // ---------------------------------------------------------------------------------------------

  /** The last of the nodes is a spoiler that runs into the cut. */
  ghost predicate EndsOpen(s: Text, open: bool, from: int, end: int, depth: nat, i: int, nodes: seq<Node>)
    requires 0 <= from <= i <= end <= |s|
    decreases |nodes|
  {
    && nodes != []
    && exists j :: i < j <= end && Stands(s, open, from, end, depth, i, j, nodes[0])
         && if |nodes| == 1 then j == end && nodes[0].Spoiler? && SpoilerRunsOn(s, open, end, i)
            else Reads(s, open, from, end, depth, j, nodes[1..]) && EndsOpen(s, open, from, end, depth, j, nodes[1..])
  }

  lemma {:induction false} NothingHidden(s: Text, open: bool, from: int, end: int, depth: nat, i: int, buf: Text)
    requires 0 <= from <= i <= end < |s|
    ensures ParseFrom(s, open, from, end, depth, i, buf).hidden == 0
    decreases end - i
  {
    hide StartAt;
    if i < end {
      var at := StartAt(s, open, from, end, depth, i);
      if at.Nest? { NestHides(s, open, from, end, depth, i); }
      match at
      case Escape(next, text) => NothingHidden(s, open, from, end, depth, next, buf + text);
      case Literal(next) => NothingHidden(s, open, from, end, depth, next, buf + s[i..next]);
      case Leaf(next, _) => NothingHidden(s, open, from, end, depth, next, []);
      case Nest(_, start, close, next, _) =>
        NothingHidden(s, open, start, close, depth + 1, start, []);
        NothingHidden(s, open, from, end, depth, next, []);
    }
  }

  /** Only a spoiler that runs into the cut hides anything, and what is in any other does not reach the line's end. */
  lemma NestHides(s: Text, open: bool, from: int, end: int, depth: nat, i: int)
    requires 0 <= from <= i < end <= |s| && StartAt(s, open, from, end, depth, i).Nest?
    ensures var at := StartAt(s, open, from, end, depth, i);
            && (if at.wrap.SpoilerWrap? && SpoilerRunsOn(s, open, end, i) then at.hides == 1 && at.next == end == |s|
                else at.hides == 0 && at.close < end)
  {
    StartByCharacter(s, open, from, end, depth, i);
    if PairChar(s[i]) && i + 1 < end && s[i + 1] == s[i] { PairMeans(s, end, i); }
    hide StartAt, PairCloser, ItalicCloser, PairStands, NextTick, LinkEnd, TokenAt, WordAfter, EveryoneAt, Lower;
  }

  lemma {:induction false} OpenHides(s: Text, open: bool, from: int, end: int, depth: nat, i: int, nodes: seq<Node>)
    requires 0 <= from <= i <= end <= |s| && EndsOpen(s, open, from, end, depth, i, nodes)
    requires Reads(s, open, from, end, depth, i, nodes)
    ensures ParseFrom(s, open, from, end, depth, i, []).hidden > 0
    decreases end - i
  {
    assert |nodes| > 1 && nodes[0].Text? ==> !nodes[1].Text?;
    hide StartAt, ParseFrom, Stands, Reads, SpoilerRunsOn;
    var j :| i < j <= end && Stands(s, open, from, end, depth, i, j, nodes[0])
             && if |nodes| == 1 then j == end && nodes[0].Spoiler? && SpoilerRunsOn(s, open, end, i)
                else Reads(s, open, from, end, depth, j, nodes[1..]) && EndsOpen(s, open, from, end, depth, j, nodes[1..]);
    hide EndsOpen;
    if |nodes| > 1 { OpenHides(s, open, from, end, depth, j, nodes[1..]); }
    if nodes[0].Text? {
      TextHides(s, open, from, end, depth, i, j, nodes[0], nodes[1..]);
    } else {
      StandsIsTaken(s, open, from, end, depth, i, j, nodes[0]);
      NodeHides(s, open, from, end, depth, i, j, nodes[0]);
    }
  }

  /** Text hides nothing itself. */
  lemma TextHides(s: Text, open: bool, from: int, end: int, depth: nat, i: int, j: int, node: Node, rest: seq<Node>)
    requires 0 <= from <= i < j <= end <= |s| && Stands(s, open, from, end, depth, i, j, node) && node.Text?
    requires Reads(s, open, from, end, depth, j, rest) && (rest != [] ==> !rest[0].Text?)
    ensures ParseFrom(s, open, from, end, depth, i, []).hidden == ParseFrom(s, open, from, end, depth, j, []).hidden
  {
    var v := node.v;
    PlainIsRead(s, open, from, end, depth, i, j, v, []);
    assert [] + v == v && (rest == [] ==> j == end);
    hide Reads, Stands, PlainReads, StartAt;
    if rest != [] { TextIsOver(s, open, from, end, depth, j, rest); }
  }

  /** A node hides the rest when it is a spoiler that runs into the cut. */
  lemma NodeHides(s: Text, open: bool, from: int, end: int, depth: nat, i: int, j: int, node: Node)
    requires 0 <= from <= i < j <= end <= |s| && IsTaken(s, open, from, end, depth, i, j, node)
    ensures if node.Spoiler? && SpoilerRunsOn(s, open, end, i) then
              j == end && ParseFrom(s, open, from, end, depth, i, []).hidden > 0
            else
              ParseFrom(s, open, from, end, depth, i, []).hidden == ParseFrom(s, open, from, end, depth, j, []).hidden
  {
    var at := StartAt(s, open, from, end, depth, i);
    HidesTogether(s, open, from, end, depth, i);
    if at.Nest? {
      NestHides(s, open, from, end, depth, i);
      hide StartAt, Reads, SpoilerRunsOn, ParseFrom;
      if at.close < |s| { NothingHidden(s, open, at.start, at.close, depth + 1, at.start, []); }
    } else {
      assert node.Spoiler? ==> at.Nest? by {
        StartStands(s, open, from, end, depth, i);
        SpoilersNest(s, open, from, end, depth, i);
      }
      hide StartAt, Reads, SpoilerRunsOn, ParseFrom;
    }
  }

  lemma SpoilersNest(s: Text, open: bool, from: int, end: int, depth: nat, i: int)
    requires 0 <= from <= i < end <= |s|
    ensures var at := StartAt(s, open, from, end, depth, i); at.Leaf? ==> !at.node.Spoiler?
  {
    StartByCharacter(s, open, from, end, depth, i);
    hide StartAt, LinkEnd, NextTick, TokenAt, WordAfter, EveryoneAt, Lower, PairCloser, ItalicCloser;
  }

  lemma HidesTogether(s: Text, open: bool, from: int, end: int, depth: nat, i: int)
    requires 0 <= from <= i < end <= |s|
    ensures var at := StartAt(s, open, from, end, depth, i);
            at.Leaf? || at.Nest? ==>
              ParseFrom(s, open, from, end, depth, i, []).hidden
              == (if at.Nest? then ParseFrom(s, open, at.start, at.close, depth + 1, at.start, []).hidden + at.hides else 0)
                 + ParseFrom(s, open, from, end, depth, at.next, []).hidden
  {
    hide StartAt;
  }

  /** A line hides what comes after it exactly when its last node is a spoiler that runs into the cut. */
  lemma {:induction false} HidesWhenOpen(s: Text, open: bool, from: int, end: int, depth: nat, i: int, nodes: seq<Node>)
    requires 0 <= from <= i <= end <= |s| && Reads(s, open, from, end, depth, i, nodes)
    ensures ParseFrom(s, open, from, end, depth, i, []).hidden > 0 <==> EndsOpen(s, open, from, end, depth, i, nodes)
    decreases end - i
  {
    if EndsOpen(s, open, from, end, depth, i, nodes) {
      OpenHides(s, open, from, end, depth, i, nodes);
    } else if nodes != [] {
      hide StartAt, ParseFrom, Stands, SpoilerRunsOn;
      var j :| i < j <= end && Stands(s, open, from, end, depth, i, j, nodes[0])
               && Reads(s, open, from, end, depth, j, nodes[1..]);
      assert |nodes| > 1 && nodes[0].Text? ==> !nodes[1..][0].Text?;
      HidesWhenOpen(s, open, from, end, depth, j, nodes[1..]);
      if nodes[0].Text? {
        TextHides(s, open, from, end, depth, i, j, nodes[0], nodes[1..]);
      } else {
        StandsIsTaken(s, open, from, end, depth, i, j, nodes[0]);
        NodeHides(s, open, from, end, depth, i, j, nodes[0]);
      }
    }
  }
}
