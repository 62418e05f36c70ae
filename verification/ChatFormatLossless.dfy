/** What the inline parser keeps: its nodes tile the line, each with its own markers around it. */
module ChatFormatLossless {
  import opened Texts
  import opened ChatFormatLine
  import opened ChatFormatClosers
  import opened ChatFormatInline
  import opened ChatFormatMarks

  /** `v` is `src` with some escape backslashes dropped. */
  predicate Unescapes(src: Text, v: Text) {
    if src == [] then v == [] else
      || (v != [] && v[0] == src[0] && Unescapes(src[1..], v[1..]))
      || (EscapeAt(src, 0) && v != [] && v[0] == src[1] && Unescapes(src[2..], v[1..]))
  }

  predicate Around(src: Text, mark: Text, inner: Text) {
    src == mark + inner + mark
  }

  /** `src` is what was typed for this one node. In a line cut short (`open`) a spoiler may lack its end. */
  ghost predicate Writes(open: bool, src: Text, node: Node)
    decreases node, 0
  {
    match node
    case Text(v) => v != [] && Unescapes(src, v)
    case Code(v) => v != [] && Around(src, [TICK], v)
    case Bold(c) => exists inner :: Around(src, [STAR, STAR], inner) && Tiles(open, inner, c)
    case Strike(c) => exists inner :: Around(src, [TILDE, TILDE], inner) && Tiles(open, inner, c)
    case Italic(c) => exists inner :: (Around(src, [STAR], inner) || Around(src, [UNDERSCORE], inner)) && Tiles(open, inner, c)
    case Spoiler(c) =>
      exists inner :: (Around(src, [BAR, BAR], inner) || (open && src == [BAR, BAR] + inner)) && Tiles(open, inner, c)
    case Link(href) => src == href && SchemeLen(src, 0) > 0
    case Mention(id) => |src| == TOKEN_LEN && TokenAt(src, 0) && src[1] == AT && id == TokenId(src, 0)
    case Channel(id) => |src| == TOKEN_LEN && TokenAt(src, 0) && src[1] == HASH && id == TokenId(src, 0)
    case Everyone(word) => (word == EVERYONE || word == HERE) && src == [AT] + word
  }

  /** The nodes, in order, account for every character of `src`. */
  ghost predicate Tiles(open: bool, src: Text, nodes: seq<Node>)
    decreases nodes, 1
  {
    if nodes == [] then src == [] else
      exists k :: 0 <= k <= |src| && Writes(open, src[..k], nodes[0]) && Tiles(open, src[k..], nodes[1..])
  }

  lemma {:induction false} UnescapesAppend(a: Text, x: Text, b: Text, y: Text)
    requires Unescapes(a, x) && Unescapes(b, y)
    ensures Unescapes(a + b, x + y)
  {
    if a == [] {
      assert a + b == b && x + y == y;
    } else if x[0] == a[0] && Unescapes(a[1..], x[1..]) {
      UnescapesAppend(a[1..], x[1..], b, y);
      assert (a + b)[1..] == a[1..] + b && (x + y)[1..] == x[1..] + y;
    } else {
      UnescapesAppend(a[2..], x[1..], b, y);
      assert (a + b)[2..] == a[2..] + b && (x + y)[1..] == x[1..] + y;
    }
  }

  lemma {:induction false} UnescapesSelf(a: Text)
    ensures Unescapes(a, a)
  {
    if a != [] { UnescapesSelf(a[1..]); }
  }

  lemma TilesCons(open: bool, a: Text, node: Node, b: Text, nodes: seq<Node>)
    requires Writes(open, a, node) && Tiles(open, b, nodes)
    ensures Tiles(open, a + b, [node] + nodes)
  {
    hide Writes;
    assert (a + b)[..|a|] == a && (a + b)[|a|..] == b;
    assert ([node] + nodes)[1..] == nodes;
  }

  lemma TilesEmit(open: bool, pend: Text, buf: Text, a: Text, node: Node, b: Text, nodes: seq<Node>)
    requires Unescapes(pend, buf) && Writes(open, a, node) && Tiles(open, b, nodes)
    ensures Tiles(open, pend + a + b, Flush(buf) + [node] + nodes)
  {
    hide *;
    TilesCons(open, a, node, b, nodes);
    TextWrites(open, pend, buf);
    Assoc(pend, a, b);
    Assoc(Flush(buf), [node], nodes);
    FlushIs(buf);
    if buf == [] {
      assert pend + (a + b) == a + b && Flush(buf) + ([node] + nodes) == [node] + nodes;
    } else {
      TilesCons(open, pend, Node.Text(buf), a + b, [node] + nodes);
    }
  }

  lemma FlushIs(buf: Text)
    ensures Flush(buf) == if buf == [] then [] else [Node.Text(buf)]
  {}

  /** Text kept back so far is a text node, or nothing. */
  lemma TextWrites(open: bool, pend: Text, buf: Text)
    requires Unescapes(pend, buf)
    ensures if buf == [] then pend == [] else Writes(open, pend, Node.Text(buf))
  {}

  lemma LeafWrites(s: Text, open: bool, from: int, end: int, depth: nat, i: int)
    requires 0 <= from <= i < end <= |s|
    ensures var at := StartAt(s, open, from, end, depth, i);
      at.Leaf? ==> Writes(open, s[i..at.next], at.node)
  {
    hide LinkEnd, NextTick, IsUuid, EmphasisAt, Writes, TokenAt, EveryoneAt, WordAfter;
    var at := StartAt(s, open, from, end, depth, i);
    if at.Leaf? {
      match at.node
      case Link(_) => LinkWrites(open, s, i, end);
      case Code(_) => CodeWrites(open, s, i, at.next);
      case Everyone(_) => EveryoneWrites(open, s, i, end);
      case _ => TokenWrites(open, s, i);
    }
  }

  lemma LinkWrites(open: bool, s: Text, i: int, end: int)
    requires 0 <= i < end <= |s| && LinkEnd(s, i, end) > 0
    ensures Writes(open, s[i..LinkEnd(s, i, end)], Link(s[i..LinkEnd(s, i, end)]))
  {
    LinkHasScheme(s, i, end);
    hide LinkEnd, SchemeLen;
  }

  lemma CodeWrites(open: bool, s: Text, i: int, next: int)
    requires 0 <= i && i + 2 < next <= |s| && s[i] == TICK == s[next - 1]
    ensures Writes(open, s[i..next], Code(s[i + 1..next - 1]))
  {
    assert s[i..next] == [TICK] + s[i + 1..next - 1] + [TICK];
  }

  lemma TokenWrites(open: bool, s: Text, i: int)
    requires TokenAt(s, i)
    ensures Writes(open, s[i..i + TOKEN_LEN], TokenNode(s, i))
  {
    hide IsUuid, Lower;
    SliceOfSlice(s, i, i + TOKEN_LEN, 2, 38);
  }

  lemma EveryoneWrites(open: bool, s: Text, i: int, end: int)
    requires 0 <= i < end <= |s| && s[i] == AT && EveryoneAt(s, i, end)
    ensures i + 1 + |WordAfter(s, i)| <= |s| && Writes(open, s[i..i + 1 + |WordAfter(s, i)|], Everyone(WordAfter(s, i)))
  {}

  lemma EscapeReads(s: Text, open: bool, from: int, end: int, depth: nat, i: int)
    requires 0 <= from <= i < end <= |s|
    ensures var at := StartAt(s, open, from, end, depth, i);
      at.Escape? ==> at.next == i + 2 && Unescapes(s[i..at.next], at.text)
  {
    hide LinkEnd, NextTick, IsUuid, EmphasisAt, TokenAt, EveryoneAt, WordStarts;
    var at := StartAt(s, open, from, end, depth, i);
    if at.Escape? {
      assert s[i..at.next][1..] != [];
      assert EscapeAt(s[i..at.next], 0);
    }
  }

  lemma LinkHasScheme(s: Text, i: int, end: int)
    requires 0 <= i < end <= |s| && LinkEnd(s, i, end) > 0
    ensures SchemeLen(s[i..LinkEnd(s, i, end)], 0) > 0
  {
    var r := LinkEnd(s, i, end);
    var src := s[i..r];
    var n := SchemeLen(s, i);
    assert n < |src|;
    SliceOfSlice(s, i, r, 0, n - 3);
    SliceOfSlice(s, i, r, n - 3, n);
  }

  lemma SliceOfSlice(s: Text, i: int, j: int, a: int, b: int)
    requires 0 <= i <= j <= |s| && 0 <= a <= b <= j - i
    ensures s[i..j][a..b] == s[i + a..i + b]
  {
    assert forall k :: 0 <= k < b - a ==> s[i..j][a..b][k] == s[i..j][a + k];
  }

  lemma NestWrites(s: Text, open: bool, from: int, end: int, i: int, c: seq<Node>)
    requires 0 <= from <= i < end <= |s|
    requires var at := EmphasisAt(s, open, from, end, i); at.Nest? && Tiles(open, s[at.start..at.close], c)
    ensures var at := EmphasisAt(s, open, from, end, i); Writes(open, s[i..at.next], Wrapped(at.wrap, c))
  {
    hide PairCloser, ItalicCloser, Tiles;
    var at := EmphasisAt(s, open, from, end, i);
    var inner := s[at.start..at.close];
    var src := s[i..at.next];
    assert at.hides == 1 ==> src == [BAR, BAR] + inner;
    if at.hides == 0 && at.wrap == ItalicWrap {
      assert src == [s[i]] + inner + [s[i]];
    }
    if at.hides == 0 && at.wrap != ItalicWrap {
      assert s[at.close] == s[at.close + 1] == s[i];
      assert src == [s[i], s[i]] + inner + [s[i], s[i]];
    }
    assert at.hides == 0 && at.wrap != ItalicWrap ==> Around(src, [s[i], s[i]], inner);
    assert at.hides == 0 && at.wrap == ItalicWrap ==> Around(src, [s[i]], inner);
  }

  /** Every range parses to nodes that tile it: nothing typed is lost but escape backslashes and the case of ids. */
  lemma {:induction false} ParseTiles(s: Text, open: bool, from: int, end: int, depth: nat, i: int, pend: Text, buf: Text)
    requires 0 <= from <= i <= end <= |s| && Unescapes(pend, buf)
    ensures Tiles(open, pend + s[i..end], ParseFrom(s, open, from, end, depth, i, buf).nodes)
    decreases end - i, 0
  {
    hide StartAt, Writes, Tiles, Unescapes;
    if i == end {
      ParseTilesEnd(open, pend, buf);
      assert pend + s[i..end] == pend;
    } else {
      var at := StartAt(s, open, from, end, depth, i);
      var next := at.next;
      LeafWrites(s, open, from, end, depth, i);
      EscapeReads(s, open, from, end, depth, i);
      assert pend + s[i..next] + s[next..end] == pend + s[i..end];
      match at
      case Escape(_, text) =>
        UnescapesAppend(pend, buf, s[i..next], text);
        ParseTiles(s, open, from, end, depth, next, pend + s[i..next], buf + text);
      case Literal(_) =>
        UnescapesSelf(s[i..next]);
        UnescapesAppend(pend, buf, s[i..next], s[i..next]);
        ParseTiles(s, open, from, end, depth, next, pend + s[i..next], buf + s[i..next]);
      case Leaf(_, node) =>
        ParseTilesRest(s, open, from, end, depth, next);
        TilesEmit(open, pend, buf, s[i..next], node, s[next..end], ParseFrom(s, open, from, end, depth, next, []).nodes);
      case Nest(wrap, start, close, _, hides) =>
        ParseTilesRest(s, open, start, close, depth + 1, start);
        ParseTilesRest(s, open, from, end, depth, next);
        var c := Parse(s, open, start, close, depth + 1).nodes;
        NestIsEmphasis(s, open, from, end, depth, i);
        NestWrites(s, open, from, end, i, c);
        TilesEmit(open, pend, buf, s[i..next], Wrapped(wrap, c), s[next..end],
                  ParseFrom(s, open, from, end, depth, next, []).nodes);
    }
  }

  lemma ParseTilesRest(s: Text, open: bool, from: int, end: int, depth: nat, i: int)
    requires 0 <= from <= i <= end <= |s|
    ensures Tiles(open, s[i..end], ParseFrom(s, open, from, end, depth, i, []).nodes)
    decreases end - i, 1
  {
    ParseTiles(s, open, from, end, depth, i, [], []);
    assert [] + s[i..end] == s[i..end];
  }

  lemma NestIsEmphasis(s: Text, open: bool, from: int, end: int, depth: nat, i: int)
    requires 0 <= from <= i < end <= |s| && StartAt(s, open, from, end, depth, i).Nest?
    ensures StartAt(s, open, from, end, depth, i) == EmphasisAt(s, open, from, end, i)
  {
    hide EmphasisAt, LinkEnd, NextTick, TokenAt;
  }

  lemma ParseTilesEnd(open: bool, pend: Text, buf: Text)
    requires Unescapes(pend, buf)
    ensures Tiles(open, pend, Flush(buf))
  {
    if buf != [] {
      assert Tiles(open, [], []);
      TilesCons(open, pend, Node.Text(buf), [], []);
      assert pend + [] == pend && [Node.Text(buf)] + [] == Flush(buf);
    }
  }

  // ---------------------------------------------------------------------------------------------
  // One line
  // ---------------------------------------------------------------------------------------------

  /** A line with none of these is plain text. */
  predicate Special(s: Text) {
    exists k :: 0 <= k < |s| && SpecialAt(s, k)
  }

  predicate SpecialAt(s: Text, k: int)
    requires 0 <= k < |s|
  {
    s[k] == BACKSLASH || s[k] == TICK || s[k] == LT || s[k] == AT || Marker(s[k]) || SchemeLen(s, k) > 0
  }

  lemma NothingStarts(s: Text, open: bool, i: int)
    requires 0 <= i < |s| && !SpecialAt(s, i)
    ensures StartAt(s, open, 0, |s|, 0, i) == Literal(i + 1)
  {
    hide IsUuid, PairCloser, ItalicCloser, NextTick;
  }

  lemma {:induction false} PlainParses(s: Text, open: bool, i: int, buf: Text)
    requires 0 <= i <= |s| && !Special(s)
    ensures ParseFrom(s, open, 0, |s|, 0, i, buf) == Parsed(Flush(buf + s[i..]), 0)
    decreases |s| - i
  {
    if i < |s| {
      assert StartAt(s, open, 0, |s|, 0, i) == Literal(i + 1) by {
        assert !SpecialAt(s, i);
        NothingStarts(s, open, i);
      }
      hide StartAt, Special;
      PlainParses(s, open, i + 1, buf + s[i..i + 1]);
      assert buf + s[i..i + 1] + s[i + 1..] == buf + s[i..];
    } else {
      assert buf + s[i..] == buf;
    }
  }

  /**
   * One line of a body: the plain-text shortcut changes nothing, the nodes tile the line and are its one reading, and the
   * rest is hidden exactly when the last of them is a spoiler that runs into the cut.
   */
  method ParseLine(s: Text, open: bool) returns (out: seq<Node>, openedSpoiler: bool)
    ensures out == Parse(s, open, 0, |s|, 0).nodes
    ensures openedSpoiler == (Parse(s, open, 0, |s|, 0).hidden > 0)
    ensures Tiles(open, s, out)
    ensures Reads(s, open, 0, |s|, 0, 0, out)
    ensures openedSpoiler <==> EndsOpen(s, open, 0, |s|, 0, 0, out)
  {
    ReadingIsParse(s, open, 0, |s|, 0, Parse(s, open, 0, |s|, 0).nodes);
    HidesWhenOpen(s, open, 0, |s|, 0, 0, Parse(s, open, 0, |s|, 0).nodes);
    hide Tiles, ParseFrom, Special, Line.Valid, Reads, EndsOpen;
    ParseTilesRest(s, open, 0, |s|, 0, 0);
    assert s[0..|s|] == s;
    PlainParsesWhole(s, open);
    if s == [] { return [], false; }
    if !Special(s) { return [Node.Text(s)], false; }
    var line := new Line(s, open);
    ghost var hidden, steps;
    out, hidden, steps := Inline(line, 0, |s|, 0);
    openedSpoiler := line.openedSpoiler;
  }

  lemma PlainParsesWhole(s: Text, open: bool)
    ensures !Special(s) ==> Parse(s, open, 0, |s|, 0) == Parsed(Flush(s), 0)
    ensures s == [] ==> !Special(s)
  {
    if !Special(s) {
      PlainParses(s, open, 0, []);
      assert [] + s[0..] == s;
    }
  }
}
