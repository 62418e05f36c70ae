/**
 * The inline parser of lib/chat-format.ts. `Parse` is the simple form: at each position it looks
 * ahead by scanning. `Inline` is the source's loop over lookup tables, proved to build the same
 * tree in a linear number of steps; and the tree is proved to lose nothing of the line.
 */
module ChatFormatInline {
  import opened Texts
  import opened ChatFormatLine
  import opened ChatFormatClosers

  const MAX_DEPTH := 6
  const URL_MAX := 2048

  datatype Node =
    | Text(v: Texts.Text)
    | Code(v: Texts.Text)
    | Bold(c: seq<Node>)
    | Italic(c: seq<Node>)
    | Strike(c: seq<Node>)
    | Spoiler(c: seq<Node>)
    | Link(href: Texts.Text)
    | Mention(id: Texts.Text)
    | Channel(id: Texts.Text)
    | Everyone(word: Texts.Text)

  const EVERYONE: Text := [101, 118, 101, 114, 121, 111, 110, 101]
  const HERE: Text := [104, 101, 114, 101]

  /** What may sit right before a link or an @everyone. */
  predicate Boundary(c: Unit) {
    IsSpace(c) || c == PAREN || c == BRACKET || c == BRACE || c == QUOTE || c == APOSTROPHE
    || c == STAR || c == UNDERSCORE || c == TILDE || c == BAR
  }

  predicate Wordish(c: Unit) { IsAlnum(c) || c == UNDERSCORE || c == DASH }

  predicate Trailing(c: Unit) {
    c == DOT || c == COMMA || c == BANG || c == QUESTION || c == COLON || c == SEMI || c == APOSTROPHE
    || c == QUOTE || c == STAR || c == UNDERSCORE || c == TILDE || c == BAR
  }

  predicate IsHex(c: Unit) { IsDigit(c) || 65 <= c <= 70 || 97 <= c <= 102 }

  /** `[0-9a-f]{8}-…-[0-9a-f]{12}`, any case. */
  predicate IsUuid(s: Text) {
    |s| == 36 && forall k :: 0 <= k < 36 ==> if k == 8 || k == 13 || k == 18 || k == 23 then s[k] == DASH else IsHex(s[k])
  }

  /** <@uuid> or <#uuid> at i. */
  predicate TokenAt(s: Text, i: int) {
    0 <= i && i + TOKEN_LEN <= |s| && s[i] == LT && (s[i + 1] == AT || s[i + 1] == HASH)
    && IsUuid(s[i + 2..i + 38]) && s[i + 38] == GT
  }

  function TokenId(s: Text, i: int): Text
    requires TokenAt(s, i)
  {
    Lower(s[i + 2..i + 38])
  }

  // ---------------------------------------------------------------------------------------------
  // Links
  // ---------------------------------------------------------------------------------------------

  /** Length of "http://" or "https://" (any case) at i, or 0. */
  function SchemeLen(s: Text, i: int): (r: int)
    requires 0 <= i <= |s|
    ensures r == 0 || ((r == 7 || r == 8) && i + r <= |s|)
  {
    if i + 7 <= |s| && Lower(s[i..i + 4]) == [104, 116, 116, 112] && s[i + 4..i + 7] == [COLON, SLASH, SLASH] then 7
    else if i + 8 <= |s| && Lower(s[i..i + 5]) == [104, 116, 116, 112, 115] && s[i + 5..i + 8] == [COLON, SLASH, SLASH] then 8
    else 0
  }

  function ScanUrlStop(s: Text, k: int): (r: int)
    requires 0 <= k <= |s|
    ensures UrlStopsAt(s, k, r)
    decreases |s| - k
  {
    if k == |s| || UrlStop(s[k]) then k else ScanUrlStop(s, k + 1)
  }

  function Count(s: Text, c: Unit): nat {
    if s == [] then 0 else Count(s[..|s| - 1], c) + if s[|s| - 1] == c then 1 else 0
  }

  /** The link's end with its trailing punctuation dropped, the parens recounted at every step. */
  function TrimUrl(s: Text, start: int, end: int): (r: int)
    requires 0 <= start <= end <= |s|
    ensures start <= r <= end
    decreases end
  {
    if end > start && (Trailing(s[end - 1])
      || (s[end - 1] == UNPAREN && Count(s[start..end], UNPAREN) > Count(s[start..end], PAREN)))
    then TrimUrl(s, start, end - 1)
    else end
  }

  lemma CountLast(s: Text, start: int, end: int, c: Unit)
    requires 0 <= start < end <= |s|
    ensures Count(s[start..end], c) == Count(s[start..end - 1], c) + if s[end - 1] == c then 1 else 0
  {
    assert s[start..end][..end - start - 1] == s[start..end - 1];
  }

  /** `trimUrlEnd`: the parens are counted once. */
  method TrimUrlEnd(s: Text, start: int, limit: int) returns (end: int)
    requires 0 <= start <= limit <= |s|
    ensures end == TrimUrl(s, start, limit)
  {
    var opens, closes := 0, 0;
    for k := start to limit
      invariant opens == Count(s[start..k], PAREN) && closes == Count(s[start..k], UNPAREN)
    {
      CountLast(s, start, k + 1, PAREN);
      CountLast(s, start, k + 1, UNPAREN);
      if s[k] == PAREN { opens := opens + 1; } else if s[k] == UNPAREN { closes := closes + 1; }
    }
    end := limit;
    while end > start
      invariant start <= end <= limit
      invariant opens == Count(s[start..end], PAREN) && closes == Count(s[start..end], UNPAREN)
      invariant TrimUrl(s, start, limit) == TrimUrl(s, start, end)
    {
      var last := s[end - 1];
      CountLast(s, start, end, PAREN);
      CountLast(s, start, end, UNPAREN);
      if Trailing(last) {
        end := end - 1;
      } else if last == UNPAREN && closes > opens {
        closes := closes - 1;
        end := end - 1;
      } else {
        break;
      }
    }
  }

  /** The link in the run [i, stop) whose scheme ends at head: its end, 0, or -(end of the run) when the run is too long. */
  function LinkIn(s: Text, i: int, head: int, stop: int): (r: int)
    requires 0 <= i < head <= |s| && stop <= |s|
    ensures r > 0 ==> i < r <= stop
    ensures r < 0 ==> i < -r <= stop
  {
    if stop <= head then 0
    else if stop - i > URL_MAX then -stop
    else if TrimUrl(s, i, stop) > head then TrimUrl(s, i, stop) else 0
  }

  /** Where a link at i ends, 0 when there is none, or -(end of the run) when it is too long to be one. */
  function LinkEnd(s: Text, i: int, end: int): (r: int)
    requires 0 <= i < end <= |s|
    ensures r > 0 ==> i < r <= end
    ensures r < 0 ==> i < -r <= end
  {
    var scheme := SchemeLen(s, i);
    var stop := ScanUrlStop(s, i);
    if scheme == 0 then 0 else LinkIn(s, i, i + scheme, if stop <= end then stop else end)
  }

  lemma UrlStopUnique(s: Text, k: int, a: int, b: int)
    requires UrlStopsAt(s, k, a) && UrlStopsAt(s, k, b)
    ensures a == b
  {
  }

  method FindLinkEnd(line: Line, i: int, end: int) returns (r: int)
    requires line.Valid() && 0 <= i < end <= |line.s|
    modifies line
    ensures line.Valid() && line.openedSpoiler == old(line.openedSpoiler)
    ensures r == LinkEnd(line.s, i, end)
  {
    var s := line.s;
    var scheme := SchemeLen(s, i);
    if scheme == 0 { return 0; }
    var stops := line.UrlStops();
    r := LinkEndBy(s, stops, i, i + scheme, end);
  }

  method LinkEndBy(s: Text, stops: seq<int>, i: int, head: int, end: int) returns (r: int)
    requires IsUrlStop(s, stops) && 0 <= i < end <= |s| && i < head <= |s|
    ensures r == LinkIn(s, i, head, if ScanUrlStop(s, i) <= end then ScanUrlStop(s, i) else end)
  {
    UrlStopUnique(s, i, stops[i], ScanUrlStop(s, i));
    var stop := if stops[i] <= end then stops[i] else end;
    if stop <= head { return 0; }
    if stop - i > URL_MAX { return -stop; }
    var at := TrimUrlEnd(s, i, stop);
    return if at > head then at else 0;
  }

  // ---------------------------------------------------------------------------------------------
  // The simple form
  // ---------------------------------------------------------------------------------------------

  datatype Wrap = BoldWrap | ItalicWrap | StrikeWrap | SpoilerWrap

  /**
   * What starts at one position of a range: a backslash escape, characters that stay text up to
   * next, a node without children, or emphasis around [start, close). `hides` is 1 for a spoiler
   * that runs into the cut.
   */
  datatype Start =
    | Escape(next: int, text: Text)
    | Literal(next: int)
    | Leaf(next: int, node: Node)
    | Nest(wrap: Wrap, start: int, close: int, next: int, hides: nat)

  function WordAfter(s: Text, i: int): Text {
    if StartsAt(s, EVERYONE, i + 1) then EVERYONE else if StartsAt(s, HERE, i + 1) then HERE else []
  }

  predicate EveryoneAt(s: Text, i: int, end: int)
    requires 0 <= i < end <= |s|
  {
    var word := WordAfter(s, i);
    var stop := i + 1 + |word|;
    word != [] && stop <= end && (stop == end || !Wordish(s[stop]))
  }

  predicate WordStarts(s: Text, from: int, i: int)
    requires 0 <= from <= i < |s|
  {
    i == from || Boundary(s[i - 1])
  }

  function PairWrap(ch: Unit): Wrap { if ch == STAR then BoldWrap else if ch == TILDE then StrikeWrap else SpoilerWrap }

  function TokenNode(s: Text, i: int): Node
    requires TokenAt(s, i)
  {
    if s[i + 1] == AT then Mention(TokenId(s, i)) else Channel(TokenId(s, i))
  }

  /** The emphasis that opens at i, looking ahead by scanning. */
  function EmphasisAt(s: Text, open: bool, from: int, end: int, i: int): (r: Start)
    requires 0 <= from <= i < end <= |s|
    ensures r == Literal(i + 1) || (r.Nest? && i < r.start <= r.close <= r.next <= end && (r.close < end || (open && end == |s|)))
    ensures r.Nest? && r.close < |s| ==> Marker(s[r.close])
  {
    var ch := s[i];
    var doubled := PairChar(ch) && i + 1 < end && s[i + 1] == ch;
    if doubled && PairCloser(s, ch, i, end) != -1 then
      var close := PairCloser(s, ch, i, end);
      Nest(PairWrap(ch), i + 2, close, close + 2, 0)
    else if doubled && ch == BAR && open && end == |s| && !AllSpace(s[i + 2..end]) then
      Nest(SpoilerWrap, i + 2, end, end, 1)
    else if ItalicChar(ch) && ItalicCloser(s, ch, i, from, end) != -1 then
      var close := ItalicCloser(s, ch, i, from, end);
      Nest(ItalicWrap, i + 1, close, close + 1, 0)
    else Literal(i + 1)
  }

  /** The markup that starts at i in [from, end), looking ahead by scanning. */
  function StartAt(s: Text, open: bool, from: int, end: int, depth: nat, i: int): (r: Start)
    requires 0 <= from <= i < end <= |s|
    ensures i < r.next <= end
    ensures r.Nest? ==> depth < MAX_DEPTH && i < r.start <= r.close <= r.next
    ensures r.Nest? && r.close < |s| ==> Marker(s[r.close])
  {
    var ch := s[i];
    var tick := NextTick(s, i + 1);
    var link := if (ch == 104 || ch == 72) && WordStarts(s, from, i) then LinkEnd(s, i, end) else 0;
    if ch == BACKSLASH && i + 1 < end && Escapable(s[i + 1]) then Escape(i + 2, [s[i + 1]])
    else if ch == TICK && i + 1 < tick < end then Leaf(tick + 1, Code(s[i + 1..tick]))
    else if TokenAt(s, i) && i + TOKEN_LEN <= end then Leaf(i + TOKEN_LEN, TokenNode(s, i))
    else if link > 0 then Leaf(link, Link(s[i..link]))
    else if link < 0 then Literal(-link)
    else if ch == AT && WordStarts(s, from, i) && EveryoneAt(s, i, end) then
      Leaf(i + 1 + |WordAfter(s, i)|, Everyone(WordAfter(s, i)))
    else if depth < MAX_DEPTH then EmphasisAt(s, open, from, end, i)
    else Literal(i + 1)
  }

  /** The nodes of a range, and how many spoilers ran into the cut. */
  datatype Parsed = Parsed(nodes: seq<Node>, hidden: nat)

  function Flush(buf: Text): seq<Node> { if buf == [] then [] else [Node.Text(buf)] }

  function Join(a: Parsed, b: Parsed): Parsed { Parsed(a.nodes + b.nodes, a.hidden + b.hidden) }

  function Wrapped(wrap: Wrap, c: seq<Node>): Node {
    match wrap
    case BoldWrap => Bold(c)
    case ItalicWrap => Italic(c)
    case StrikeWrap => Strike(c)
    case SpoilerWrap => Spoiler(c)
  }

  /** The nodes of [i, end), with `buf` the text still to be emitted before them. */
  function ParseFrom(s: Text, open: bool, from: int, end: int, depth: nat, i: int, buf: Text): Parsed
    requires 0 <= from <= i <= end <= |s|
    decreases end - i
  {
    if i == end then Parsed(Flush(buf), 0) else
      match StartAt(s, open, from, end, depth, i)
      case Escape(next, text) => ParseFrom(s, open, from, end, depth, next, buf + text)
      case Literal(next) => ParseFrom(s, open, from, end, depth, next, buf + s[i..next])
      case Leaf(next, node) => Join(Parsed(Flush(buf) + [node], 0), ParseFrom(s, open, from, end, depth, next, []))
      case Nest(wrap, start, close, next, hides) =>
        var inner := ParseFrom(s, open, start, close, depth + 1, start, []);
        Join(Parsed(Flush(buf) + [Wrapped(wrap, inner.nodes)], inner.hidden + hides),
             ParseFrom(s, open, from, end, depth, next, []))
  }

  function Parse(s: Text, open: bool, from: int, end: int, depth: nat): Parsed
    requires 0 <= from <= end <= |s|
  {
    ParseFrom(s, open, from, end, depth, from, [])
  }

  // ---------------------------------------------------------------------------------------------
  // The loop over the tables
  // ---------------------------------------------------------------------------------------------

  lemma SolidMeans(s: Text, k: int, e: int)
    requires SolidAt(s, k, e)
    ensures AllSpace(s[k..]) == (e == |s|)
  {
    if e < |s| { assert !IsSpace(s[k..][e - k]); }
  }

  method LookEmphasis(line: Line, from: int, end: int, i: int) returns (r: Start)
    requires line.Valid() && 0 <= from <= i < end && RangeEnd(line.s, end)
    modifies line
    ensures line.Valid() && line.openedSpoiler == old(line.openedSpoiler)
    ensures r == EmphasisAt(line.s, line.open, from, end, i)
  {
    var s := line.s;
    var ch := s[i];
    if PairChar(ch) && i + 1 < end && s[i + 1] == ch {
      var close := PairClose(line, i, ch, end);
      if close != -1 { return Nest(PairWrap(ch), i + 2, close, close + 2, 0); }
      if ch == BAR && line.open && end == |s| {
        var solid := line.Solid();
        SolidMeans(s, i + 2, solid[i + 2]);
        if solid[i + 2] < end { return Nest(SpoilerWrap, i + 2, end, end, 1); }
      }
    }
    if ItalicChar(ch) {
      var close := ItalicClose(line, i, ch, from, end);
      if close != -1 { return Nest(ItalicWrap, i + 1, close, close + 1, 0); }
    }
    return Literal(i + 1);
  }

  /** What starts at i, read from the line's tables. */
  method Look(line: Line, from: int, end: int, depth: nat, i: int) returns (r: Start)
    requires line.Valid() && 0 <= from <= i < end && RangeEnd(line.s, end)
    modifies line
    ensures line.Valid() && line.openedSpoiler == old(line.openedSpoiler)
    ensures r == StartAt(line.s, line.open, from, end, depth, i)
  {
    var s := line.s;
    var ch := s[i];
    if ch == BACKSLASH && i + 1 < end && Escapable(s[i + 1]) { return Escape(i + 2, [s[i + 1]]); }
    if ch == TICK {
      var tick := line.Tick();
      var close := tick[i + 1];
      if close > i + 1 && close < end { return Leaf(close + 1, Code(s[i + 1..close])); }
    }
    if ch == LT && i + TOKEN_LEN <= end && TokenAt(s, i) { return Leaf(i + TOKEN_LEN, TokenNode(s, i)); }
    var boundary := (ch == 104 || ch == 72 || ch == AT) && (i == from || Boundary(s[i - 1]));
    if ch != AT && boundary {
      var stop := FindLinkEnd(line, i, end);
      if stop > 0 { return Leaf(stop, Link(s[i..stop])); }
      if stop < 0 { return Literal(-stop); }
    }
    if ch == AT && boundary && EveryoneAt(s, i, end) {
      return Leaf(i + 1 + |WordAfter(s, i)|, Everyone(WordAfter(s, i)));
    }
    if depth < MAX_DEPTH {
      r := LookEmphasis(line, from, end, i);
    } else {
      r := Literal(i + 1);
    }
  }

  /** Loop iterations the parser makes from i on, over all nesting. */
  function StepsFrom(s: Text, open: bool, from: int, end: int, depth: nat, i: int): nat
    requires 0 <= from <= i <= end <= |s|
    decreases end - i
  {
    if i == end then 0 else
      var at := StartAt(s, open, from, end, depth, i);
      1 + (if at.Nest? then StepsFrom(s, open, at.start, at.close, depth + 1, at.start) else 0)
        + StepsFrom(s, open, from, end, depth, at.next)
  }

  /** Nesting stops at MAX_DEPTH, so a range at this depth is read at most this many times over. */
  function Levels(depth: nat): nat { if depth <= MAX_DEPTH then MAX_DEPTH + 1 - depth else 1 }

  lemma StepsAdd(depth: nat, inner: nat, rest: nat, i: int, start: int, close: int, next: int, end: int)
    requires i < start <= close <= next <= end || (i == start == close < next <= end && inner == 0)
    requires inner > 0 ==> depth < MAX_DEPTH && inner <= Levels(depth + 1) * (close - start)
    requires rest <= Levels(depth) * (end - next)
    ensures 1 + inner + rest <= Levels(depth) * (end - i)
  {
    var rate := Levels(depth);
    if inner > 0 { assert inner <= (rate - 1) * (close - start) <= rate * (close - start); }
    assert rate * (end - i) == rate * ((start - i) + (next - close)) + rate * (close - start) + rate * (end - next);
    assert rate * ((start - i) + (next - close)) >= 1;
  }

  /** The parser is linear: at most Levels(depth) iterations for each character of the range. */
  lemma {:induction false} ParsingIsLinear(s: Text, open: bool, from: int, end: int, depth: nat, i: int)
    requires 0 <= from <= i <= end <= |s|
    ensures StepsFrom(s, open, from, end, depth, i) <= Levels(depth) * (end - i)
    decreases end - i
  {
    hide StartAt;
    if i < end {
      var at := StartAt(s, open, from, end, depth, i);
      ParsingIsLinear(s, open, from, end, depth, at.next);
      var rest := StepsFrom(s, open, from, end, depth, at.next);
      if at.Nest? {
        ParsingIsLinear(s, open, at.start, at.close, depth + 1, at.start);
        var inner := StepsFrom(s, open, at.start, at.close, depth + 1, at.start);
        StepsAdd(depth, inner, rest, i, at.start, at.close, at.next, end);
      } else {
        StepsAdd(depth, 0, rest, i, i, i, at.next, end);
      }
    }
  }

  /** `inline`: the simple form's tree, in as many loop iterations as StepsFrom says, over all nesting. */
  method Inline(line: Line, from: int, end: int, depth: nat) returns (out: seq<Node>, ghost hidden: nat, ghost steps: nat)
    requires line.Valid() && 0 <= from <= end && RangeEnd(line.s, end)
    modifies line
    ensures line.Valid() && line.openedSpoiler == (old(line.openedSpoiler) || hidden > 0)
    ensures Parsed(out, hidden) == Parse(line.s, line.open, from, end, depth)
    ensures steps == StepsFrom(line.s, line.open, from, end, depth, from)
    decreases end - from
  {
    hide StartAt, Line.Valid, ParseFrom, StepsFrom, Join, Emit, Pending;
    var s := line.s;
    ghost var open := line.open;
    ghost var whole := Parse(s, open, from, end, depth);
    out, hidden, steps := [], 0, 0;
    var buf: Text := [];
    var mark := from;
    var i := from;
    PendingEmpty(s, i);
    JoinNothing(whole);
    while i < end
      invariant from <= mark <= i <= end && line.Valid()
      invariant line.openedSpoiler == (old(line.openedSpoiler) || hidden > 0)
      invariant whole == Join(Parsed(out, hidden), ParseFrom(s, open, from, end, depth, i, Pending(buf, s, mark, i)))
      invariant StepsFrom(s, open, from, end, depth, from) == steps + StepsFrom(s, open, from, end, depth, i)
    {
      var at := Look(line, from, end, depth, i);
      ParseStep(s, open, from, end, depth, i, Pending(buf, s, mark, i), Parsed(out, hidden));
      PendingEmpty(s, at.next);
      steps := steps + 1;
      match at
      case Escape(next, text) =>
        buf := Pending(buf, s, mark, i) + text;
        i, mark := next, next;
        PendingNone(buf, s, i);
      case Literal(next) =>
        PendingMore(buf, s, mark, i, next);
        i := next;
      case Leaf(next, node) =>
        out := Emit(out, Pending(buf, s, mark, i), node);
        buf, i, mark := [], next, next;
      case Nest(wrap, start, close, next, hides) =>
        var c, h, n := Inline(line, start, close, depth + 1);
        steps := steps + n;
        if hides > 0 { line.HideRest(); }
        out := Emit(out, Pending(buf, s, mark, i), Wrapped(wrap, c));
        hidden := hidden + h + hides;
        buf, i, mark := [], next, next;
    }
    ParseEnd(s, open, from, end, depth, Pending(buf, s, mark, end), Parsed(out, hidden));
    buf := Pending(buf, s, mark, end);
    if buf != [] { out := out + [Node.Text(buf)]; }
  }

  /** The text not emitted yet: `buf`, and the characters from `mark` on that aren't in it. */
  function Pending(buf: Text, s: Text, mark: int, i: int): Text
    requires 0 <= mark <= i <= |s|
  {
    buf + s[mark..i]
  }

  lemma PendingEmpty(s: Text, i: int)
    requires 0 <= i <= |s|
    ensures Pending([], s, i, i) == []
  {
  }

  lemma PendingNone(buf: Text, s: Text, i: int)
    requires 0 <= i <= |s|
    ensures Pending(buf, s, i, i) == buf
  {
  }

  lemma PendingMore(buf: Text, s: Text, mark: int, i: int, next: int)
    requires 0 <= mark <= i <= next <= |s|
    ensures Pending(buf, s, mark, next) == Pending(buf, s, mark, i) + s[i..next]
  {
  }

  /** The simple form after `emitted`, with one step taken. */
  ghost function Stepped(s: Text, open: bool, from: int, end: int, depth: nat, i: int, buf: Text, emitted: Parsed): Parsed
    requires 0 <= from <= i < end <= |s|
  {
    var at := StartAt(s, open, from, end, depth, i);
    match at
    case Escape(_, _) => Join(emitted, ParseFrom(s, open, from, end, depth, at.next, buf + at.text))
    case Literal(_) => Join(emitted, ParseFrom(s, open, from, end, depth, at.next, buf + s[i..at.next]))
    case Leaf(_, _) =>
      Join(Parsed(Emit(emitted.nodes, buf, at.node), emitted.hidden), ParseFrom(s, open, from, end, depth, at.next, []))
    case Nest(_, _, _, _, _) =>
      var inner := Parse(s, open, at.start, at.close, depth + 1);
      Join(Parsed(Emit(emitted.nodes, buf, Wrapped(at.wrap, inner.nodes)), emitted.hidden + inner.hidden + at.hides),
           ParseFrom(s, open, from, end, depth, at.next, []))
  }

  lemma ParseStep(s: Text, open: bool, from: int, end: int, depth: nat, i: int, buf: Text, done: Parsed)
    requires 0 <= from <= i < end <= |s|
    ensures Join(done, ParseFrom(s, open, from, end, depth, i, buf)) == Stepped(s, open, from, end, depth, i, buf, done)
    ensures var at := StartAt(s, open, from, end, depth, i);
      StepsFrom(s, open, from, end, depth, i)
        == 1 + (if at.Nest? then StepsFrom(s, open, at.start, at.close, depth + 1, at.start) else 0)
           + StepsFrom(s, open, from, end, depth, at.next)
  {
    var at := StartAt(s, open, from, end, depth, i);
    if at.Leaf? {
      JoinTwice(done, Parsed(Flush(buf) + [at.node], 0), ParseFrom(s, open, from, end, depth, at.next, []));
    } else if at.Nest? {
      var inner := Parse(s, open, at.start, at.close, depth + 1);
      JoinTwice(done, Parsed(Flush(buf) + [Wrapped(at.wrap, inner.nodes)], inner.hidden + at.hides),
                ParseFrom(s, open, from, end, depth, at.next, []));
    }
  }

  lemma ParseEnd(s: Text, open: bool, from: int, end: int, depth: nat, buf: Text, done: Parsed)
    requires 0 <= from <= end <= |s|
    ensures Join(done, ParseFrom(s, open, from, end, depth, end, buf)) == Parsed(done.nodes + Flush(buf), done.hidden)
    ensures StepsFrom(s, open, from, end, depth, end) == 0
  {
  }

  lemma JoinNothing(p: Parsed)
    ensures Join(Parsed([], 0), p) == p
  {
  }

  lemma JoinTwice(a: Parsed, b: Parsed, c: Parsed)
    ensures Join(a, Join(b, c)) == Join(Join(a, b), c)
  {
  }

  /** `emit`: the text before a node, if any, then the node. */
  function Emit(out: seq<Node>, text: Text, node: Node): (r: seq<Node>)
    ensures r == out + (Flush(text) + [node])
  {
    if text != [] then out + [Node.Text(text)] + [node] else out + [node]
  }
}
