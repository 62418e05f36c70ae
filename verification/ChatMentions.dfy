/** The composer's mention codec of lib/chat-format.ts: lines, chunks, tokens outside code, decode and encode. */
module ChatMentions {
  import opened Options
  import opened Texts
  import opened ChatFormatLine
  import ChatFormatInline

  const TICKS: Text := [TICK, TICK, TICK]

  // ---------------------------------------------------------------------------------------------
  // Lines and fenced code
  // ---------------------------------------------------------------------------------------------

  function IndexOfNewline(s: Text): (r: int)
    ensures 0 <= r <= |s|
  {
    if s == [] || s[0] == NEWLINE then 0 else 1 + IndexOfNewline(s[1..])
  }

  lemma {:induction false} IndexOfNewlineMeans(s: Text)
    ensures var r := IndexOfNewline(s); NEWLINE !in s[..r] && (r < |s| ==> s[r] == NEWLINE)
  {
    if s != [] && s[0] != NEWLINE {
      IndexOfNewlineMeans(s[1..]);
      var r := IndexOfNewline(s);
      assert s[..r] == [s[0]] + s[1..][..r - 1];
    }
  }

  /** s.split("\n") */
  function Split(s: Text): (r: seq<Text>)
    ensures |r| >= 1
  {
    var k := IndexOfNewline(s);
    if k == |s| then [s] else [s[..k]] + Split(s[k + 1..])
  }

  lemma {:induction false} SplitHasNoNewline(s: Text)
    ensures forall k :: 0 <= k < |Split(s)| ==> NEWLINE !in Split(s)[k]
  {
    IndexOfNewlineMeans(s);
    var k := IndexOfNewline(s);
    if k < |s| {
      SplitHasNoNewline(s[k + 1..]);
    } else {
      assert s[..k] == s;
    }
  }

  function SplitLines(body: Text): seq<Text> { Split(NormalizeReturns(body)) }

  /** lines.join("\n") */
  function JoinLines(lines: seq<Text>): Text {
    if lines == [] then [] else if |lines| == 1 then lines[0] else lines[0] + [NEWLINE] + JoinLines(lines[1..])
  }

  lemma JoinCons(line: Text, lines: seq<Text>)
    requires lines != []
    ensures JoinLines([line] + lines) == line + [NEWLINE] + JoinLines(lines)
  {
    assert ([line] + lines)[1..] == lines;
  }

  lemma {:induction false} JoinSplit(s: Text)
    ensures JoinLines(Split(s)) == s
  {
    var k := IndexOfNewline(s);
    if k < |s| {
      IndexOfNewlineMeans(s);
      assert s[..k] + [NEWLINE] + s[k + 1..] == s;
      JoinSplit(s[k + 1..]);
      JoinCons(s[..k], Split(s[k + 1..]));
    }
  }

  lemma {:induction false} SplitJoin(lines: seq<Text>)
    requires lines != [] && forall k :: 0 <= k < |lines| ==> NEWLINE !in lines[k]
    ensures Split(JoinLines(lines)) == lines
  {
    if |lines| > 1 {
      var rest := JoinLines(lines[1..]);
      SplitJoin(lines[1..]);
      var s := lines[0] + [NEWLINE] + rest;
      NewlineAfter(lines[0], rest);
      assert s[..|lines[0]|] == lines[0] && s[|lines[0]| + 1..] == rest;
    } else {
      NoNewline(lines[0]);
    }
  }

  lemma {:induction false} NoNewline(line: Text)
    requires NEWLINE !in line
    ensures IndexOfNewline(line) == |line|
  {
    if line != [] { NoNewline(line[1..]); }
  }

  lemma {:induction false} NewlineAfter(line: Text, rest: Text)
    requires NEWLINE !in line
    ensures IndexOfNewline(line + [NEWLINE] + rest) == |line|
  {
    if line != [] {
      assert (line + [NEWLINE] + rest)[1..] == line[1..] + [NEWLINE] + rest;
      NewlineAfter(line[1..], rest);
    }
  }

  predicate FenceOpens(line: Text) {
    StartsAt(line, TICKS, 0) && forall k :: 3 <= k < |line| ==> !IsLineEnd(line[k])
  }

  predicate FenceCloses(line: Text) { Trim(line) == TICKS }

  /** "```one line```" is a code block too. */
  predicate OneLineCode(line: Text) {
    FenceOpens(line) && |line| > 6 && EndsWith(line, TICKS)
  }

  datatype Chunk = CodeLines(first: int, last: int) | TextLine(line: int)

  /** The first closing fence at or after line i, or -1. */
  function NextClose(lines: seq<Text>, i: int): (r: int)
    requires 0 <= i <= |lines|
    ensures r == -1 || (i <= r < |lines| && FenceCloses(lines[r]))
    decreases |lines| - i
  {
    if i == |lines| then -1 else if FenceCloses(lines[i]) then i else NextClose(lines, i + 1)
  }

  function ChunkAt(lines: seq<Text>, i: int): (r: Chunk)
    requires 0 <= i < |lines|
    ensures r.CodeLines? ==> r.first == i <= r.last < |lines|
    ensures r.TextLine? ==> r.line == i
  {
    if OneLineCode(lines[i]) then CodeLines(i, i)
    else if FenceOpens(lines[i]) && NextClose(lines, i + 1) != -1 then CodeLines(i, NextClose(lines, i + 1))
    else TextLine(i)
  }

  function LastLine(c: Chunk): int { if c.CodeLines? then c.last else c.line }

  function ChunksFrom(lines: seq<Text>, i: int): seq<Chunk>
    requires 0 <= i <= |lines|
    decreases |lines| - i
  {
    if i == |lines| then [] else [ChunkAt(lines, i)] + ChunksFrom(lines, LastLine(ChunkAt(lines, i)) + 1)
  }

  /** `chunkLines`: the next closing fence comes from a table built back to front; the chunks are those of a forward search. */
  method ChunkLines(lines: seq<Text>) returns (out: seq<Chunk>)
    ensures out == ChunksFrom(lines, 0)
  {
    hide *;
    var closing := new int[|lines| + 1](_ => -1);
    var j := |lines| - 1;
    CloseStep(lines, |lines|);
    while j >= 0
      invariant -1 <= j < |lines|
      invariant forall k :: j < k <= |lines| ==> closing[k] == NextClose(lines, k)
    {
      CloseStep(lines, j);
      closing[j] := if FenceCloses(lines[j]) then j else closing[j + 1];
      j := j - 1;
    }
    out := [];
    var i := 0;
    assert [] + ChunksFrom(lines, 0) == ChunksFrom(lines, 0);
    while i < |lines|
      invariant 0 <= i <= |lines|
      invariant forall k :: 0 <= k <= |lines| ==> closing[k] == NextClose(lines, k)
      invariant ChunksFrom(lines, 0) == out + ChunksFrom(lines, i)
    {
      ChunkStep(lines, i, out);
      ChunkIs(lines, i, closing[i + 1]);
      if OneLineCode(lines[i]) {
        out := out + [CodeLines(i, i)];
      } else if FenceOpens(lines[i]) && closing[i + 1] != -1 {
        out := out + [CodeLines(i, closing[i + 1])];
        i := closing[i + 1];
      } else {
        out := out + [TextLine(i)];
      }
      i := i + 1;
    }
    ChunksDone(lines, out);
  }

  lemma CloseStep(lines: seq<Text>, i: int)
    requires 0 <= i <= |lines|
    ensures NextClose(lines, i) == if i == |lines| then -1 else if FenceCloses(lines[i]) then i else NextClose(lines, i + 1)
  {
    hide FenceCloses;
  }

  lemma ChunkIs(lines: seq<Text>, i: int, close: int)
    requires 0 <= i < |lines| && close == NextClose(lines, i + 1)
    ensures close == -1 || i < close < |lines|
    ensures ChunkAt(lines, i) ==
      if OneLineCode(lines[i]) then CodeLines(i, i)
      else if FenceOpens(lines[i]) && close != -1 then CodeLines(i, close)
      else TextLine(i)
    ensures LastLine(ChunkAt(lines, i)) == if OneLineCode(lines[i]) || !FenceOpens(lines[i]) || close == -1 then i else close
  {
    hide OneLineCode, FenceOpens, NextClose;
  }

  lemma ChunkStep(lines: seq<Text>, i: int, before: seq<Chunk>)
    requires 0 <= i < |lines|
    ensures var c := ChunkAt(lines, i);
      before + ChunksFrom(lines, i) == before + [c] + ChunksFrom(lines, LastLine(c) + 1)
  {
    var c := ChunkAt(lines, i);
    assert before + ([c] + ChunksFrom(lines, LastLine(c) + 1)) == before + [c] + ChunksFrom(lines, LastLine(c) + 1);
  }

  lemma ChunksDone(lines: seq<Text>, out: seq<Chunk>)
    ensures out + ChunksFrom(lines, |lines|) == out
  {
  }

  // ---------------------------------------------------------------------------------------------
  // Tokens outside code
  // ---------------------------------------------------------------------------------------------

  /** A body as text kept exactly and tokens that stand outside code and escapes. */
  datatype Seg = Lit(text: Text) | Tok(raw: Text)

  predicate IsToken(raw: Text) { |raw| == TOKEN_LEN && ChatFormatInline.TokenAt(raw, 0) }

  predicate FreeToken(s: Text, p: int) { Free(s, p) && ChatFormatInline.TokenAt(s, p) }

  function LineSegs(s: Text, p: int): (r: seq<Seg>)
    requires 0 <= p <= |s|
    decreases |s| - p
  {
    if p == |s| then []
    else if FreeToken(s, p) then [Tok(s[p..p + TOKEN_LEN])] + LineSegs(s, p + TOKEN_LEN)
    else [Lit(s[p..p + 1])] + LineSegs(s, p + 1)
  }

  function Break(line: int): seq<Seg> { if line > 0 then [Lit([NEWLINE])] else [] }

  function CodeSegs(lines: seq<Text>, i: int, last: int): seq<Seg>
    requires 0 <= i && last < |lines|
    decreases last - i
  {
    if i > last then [] else Break(i) + ([Lit(lines[i])] + CodeSegs(lines, i + 1, last))
  }

  function ChunkSegs(lines: seq<Text>, c: Chunk): seq<Seg>
    requires if c.CodeLines? then 0 <= c.first && c.last < |lines| else 0 <= c.line < |lines|
  {
    if c.CodeLines? then CodeSegs(lines, c.first, c.last) else Break(c.line) + LineSegs(lines[c.line], 0)
  }

  function SegsFrom(lines: seq<Text>, i: int): seq<Seg>
    requires 0 <= i <= |lines|
    decreases |lines| - i
  {
    if i == |lines| then []
    else ChunkSegs(lines, ChunkAt(lines, i)) + SegsFrom(lines, LastLine(ChunkAt(lines, i)) + 1)
  }

  function Segs(body: Text): seq<Seg> { SegsFrom(SplitLines(body), 0) }

  /** What a token becomes, by its kind (`@` or `#`) and its id in lower case; None keeps it. */
  type Swap = (Unit, Text) -> Option<Text>

  function Swapped(raw: Text, swap: Swap): Option<Text> {
    if IsToken(raw) then swap(raw[1], Lower(raw[2..38])) else None
  }

  function Shown(seg: Seg, swap: Swap): Text {
    match seg
    case Lit(text) => text
    case Tok(raw) => if Swapped(raw, swap).Some? then Swapped(raw, swap).value else raw
  }

  function Render(segs: seq<Seg>, swap: Swap): Text {
    if segs == [] then [] else Shown(segs[0], swap) + Render(segs[1..], swap)
  }

  /** A token that was replaced: where its replacement starts in the output. */
  datatype Hit = Hit(at: nat, id: Text, piece: Text)

  function HitHere(seg: Seg, swap: Swap, at: nat): seq<Hit> {
    if seg.Tok? && Swapped(seg.raw, swap).Some?
    then [Hit(at, Lower(seg.raw[2..38]), Swapped(seg.raw, swap).value)] else []
  }

  function Hits(segs: seq<Seg>, swap: Swap, at: nat): seq<Hit> {
    if segs == [] then [] else HitHere(segs[0], swap, at) + Hits(segs[1..], swap, at + |Shown(segs[0], swap)|)
  }

  lemma RenderUnfold(seg: Seg, segs: seq<Seg>, swap: Swap, at: nat)
    ensures Render([seg] + segs, swap) == Shown(seg, swap) + Render(segs, swap)
    ensures Hits([seg] + segs, swap, at)
      == HitHere(seg, swap, at) + Hits(segs, swap, at + |Shown(seg, swap)|)
  {
    assert ([seg] + segs)[1..] == segs;
  }

  lemma {:induction false} TextAppend(a: seq<Seg>, b: seq<Seg>, swap: Swap)
    ensures Render(a + b, swap) == Render(a, swap) + Render(b, swap)
  {
    if a == [] {
      AppendNothing(b);
    } else {
      hide *;
      TextAppend(a[1..], b, swap);
      ConsAppend(a, b);
      RenderUnfold(a[0], a[1..], swap, 0);
      RenderUnfold(a[0], a[1..] + b, swap, 0);
      Assoc(Shown(a[0], swap), Render(a[1..], swap), Render(b, swap));
    }
  }

  lemma {:induction false} HitsAppend(a: seq<Seg>, b: seq<Seg>, swap: Swap, at: nat, end: nat)
    requires end == at + |Render(a, swap)|
    ensures Hits(a + b, swap, at) == Hits(a, swap, at) + Hits(b, swap, end)
  {
    if a == [] {
      AppendNothing(b);
    } else {
      hide *;
      var next := at + |Shown(a[0], swap)|;
      ConsAppend(a, b);
      RenderUnfold(a[0], a[1..], swap, at);
      HitsAppend(a[1..], b, swap, next, end);
      RenderUnfold(a[0], a[1..] + b, swap, at);
      Assoc(HitHere(a[0], swap, at), Hits(a[1..], swap, next), Hits(b, swap, end));
    }
  }

  lemma RenderAppend(a: seq<Seg>, b: seq<Seg>, swap: Swap, at: nat)
    ensures Render(a + b, swap) == Render(a, swap) + Render(b, swap)
    ensures Hits(a + b, swap, at) == Hits(a, swap, at) + Hits(b, swap, at + |Render(a, swap)|)
  {
    hide *;
    TextAppend(a, b, swap);
    HitsAppend(a, b, swap, at, at + |Render(a, swap)|);
  }

  /** Segments already rendered to `out` with `hits`. */
  ghost predicate Rendered(segs: seq<Seg>, swap: Swap, out: Text, hits: seq<Hit>) {
    out == Render(segs, swap) && hits == Hits(segs, swap, 0)
  }

  lemma RenderMore(a: seq<Seg>, b: seq<Seg>, swap: Swap, out: Text, hits: seq<Hit>)
    requires Rendered(a, swap, out, hits)
    ensures Rendered(a + b, swap, out + Render(b, swap), hits + Hits(b, swap, |out|))
  {
    hide Render, Hits;
    RenderAppend(a, b, swap, 0);
  }

  lemma RenderOne(seg: Seg, swap: Swap, at: nat)
    ensures Render([seg], swap) == Shown(seg, swap)
    ensures Hits([seg], swap, at) == HitHere(seg, swap, at)
  {
    assert [seg][1..] == [];
  }

  lemma PlainSeg(s: Text, p: int, swap: Swap, at: nat)
    requires 0 <= p < |s| && !FreeToken(s, p)
    ensures Render(LineSegs(s, p), swap) == s[p..p + 1] + Render(LineSegs(s, p + 1), swap)
    ensures Hits(LineSegs(s, p), swap, at) == Hits(LineSegs(s, p + 1), swap, at + 1)
  {
    hide FreeToken, Swapped, Render, Hits;
    assert LineSegs(s, p) == [Lit(s[p..p + 1])] + LineSegs(s, p + 1);
    RenderUnfold(Lit(s[p..p + 1]), LineSegs(s, p + 1), swap, at);
  }

  /** Characters [p, q) of a line hold no free token. */
  lemma {:induction false} PlainSegs(s: Text, p: int, q: int, swap: Swap, at: nat)
    requires 0 <= p <= q <= |s| && forall k :: p <= k < q ==> !FreeToken(s, k)
    ensures Render(LineSegs(s, p), swap) == s[p..q] + Render(LineSegs(s, q), swap)
    ensures Hits(LineSegs(s, p), swap, at) == Hits(LineSegs(s, q), swap, at + (q - p))
    decreases q - p
  {
    hide FreeToken, Render, Hits, LineSegs;
    if p < q {
      PlainSeg(s, p, swap, at);
      PlainSegs(s, p + 1, q, swap, at + 1);
      assert s[p..q] == s[p..p + 1] + s[p + 1..q];
      Assoc(s[p..p + 1], s[p + 1..q], Render(LineSegs(s, q), swap));
    } else {
      assert s[p..q] == [];
    }
  }

  /** s.indexOf("<", k) */
  function IndexOfLt(s: Text, k: int): (r: int)
    requires 0 <= k <= |s|
    ensures r == -1 || (k <= r < |s| && s[r] == LT)
    ensures forall j :: k <= j < (if r == -1 then |s| else r) ==> s[j] != LT
    decreases |s| - k
  {
    if k == |s| then -1 else if s[k] == LT then k else IndexOfLt(s, k + 1)
  }

  /** The tokens of one line of text, replaced by a loop over its `<` characters. */
  method MapLine(s: Text, swap: Swap, out0: Text) returns (out: Text, hits: seq<Hit>)
    ensures out == out0 + Render(LineSegs(s, 0), swap)
    ensures hits == Hits(LineSegs(s, 0), swap, |out0|)
  {
    hide Render, Hits, LineSegs, Line.Valid, Free, ChatFormatInline.IsUuid, Swapped, IsToken, Lower;
    var line := new Line(s, false);
    var free := line.FreeTable();
    out, hits := out0, [];
    var k := 0;
    var lt := IndexOfLt(s, 0);
    while lt != -1
      invariant 0 <= k <= |s| && (lt == -1 || (k <= lt < |s| && s[lt] == LT))
      invariant forall j :: k <= j < (if lt == -1 then |s| else lt) ==> !FreeToken(s, j)
      invariant out0 + Render(LineSegs(s, 0), swap) == out + Render(LineSegs(s, k), swap)
      invariant Hits(LineSegs(s, 0), swap, |out0|) == hits + Hits(LineSegs(s, k), swap, |out|)
      decreases |s| - k, if lt == -1 then 0 else |s| - lt
    {
      if free[lt] && ChatFormatInline.TokenAt(s, lt) {
        FreeTokenFits(s, lt);
        TokenRendered(s, k, lt, swap, out0 + Render(LineSegs(s, 0), swap), out);
        TokenHits(s, k, lt, swap, Hits(LineSegs(s, 0), swap, |out0|), hits, |out|);
        var raw := s[lt..lt + TOKEN_LEN];
        var id := Lower(s[lt + 2..lt + 38]);
        out := out + s[k..lt];
        var piece := swap(s[lt + 1], id);
        if piece.Some? { hits := hits + [Hit(|out|, id, piece.value)]; }
        out := out + if piece.Some? then piece.value else raw;
        k := lt + TOKEN_LEN;
        lt := IndexOfLt(s, k);
      } else {
        lt := IndexOfLt(s, lt + 1);
      }
    }
    PlainSegs(s, k, |s|, swap, |out|);
    LineDone(s, swap, |out| + (|s| - k));
    assert s[k..|s|] == s[k..];
    out := out + s[k..];
  }

  /** What stands for the token at p. */
  function TokenPiece(s: Text, p: int, swap: Swap): Option<Text>
    requires 0 <= p && p + TOKEN_LEN <= |s|
  {
    swap(s[p + 1], Lower(s[p + 2..p + 38]))
  }

  function TokenShown(s: Text, p: int, swap: Swap): Text
    requires 0 <= p && p + TOKEN_LEN <= |s|
  {
    if TokenPiece(s, p, swap).Some? then TokenPiece(s, p, swap).value else s[p..p + TOKEN_LEN]
  }

  function TokenHit(s: Text, p: int, swap: Swap, at: nat): seq<Hit>
    requires 0 <= p && p + TOKEN_LEN <= |s|
  {
    if TokenPiece(s, p, swap).Some? then [Hit(at, Lower(s[p + 2..p + 38]), TokenPiece(s, p, swap).value)] else []
  }

  /** The text up to a token, and the token, move from what is left to what is out. */
  lemma TokenRendered(s: Text, k: int, p: int, swap: Swap, whole: Text, out: Text)
    requires 0 <= k <= p < |s| && FreeToken(s, p) && p + TOKEN_LEN <= |s| && forall j :: k <= j < p ==> !FreeToken(s, j)
    requires whole == out + Render(LineSegs(s, k), swap)
    ensures whole == out + s[k..p] + TokenShown(s, p, swap) + Render(LineSegs(s, p + TOKEN_LEN), swap)
  {
    hide Render, Hits, LineSegs, FreeToken, TokenShown, TokenHit, TokenPiece;
    PlainSegs(s, k, p, swap, |out|);
    TokenSeg(s, p, swap, |out| + (p - k));
    JoinParts(whole, out, s[k..p], TokenShown(s, p, swap), Render(LineSegs(s, p + TOKEN_LEN), swap));
  }

  lemma TokenHits(s: Text, k: int, p: int, swap: Swap, all: seq<Hit>, hits: seq<Hit>, at: nat)
    requires 0 <= k <= p < |s| && FreeToken(s, p) && p + TOKEN_LEN <= |s| && forall j :: k <= j < p ==> !FreeToken(s, j)
    requires all == hits + Hits(LineSegs(s, k), swap, at)
    ensures var mid := at + (p - k);
      all == hits + TokenHit(s, p, swap, mid) + Hits(LineSegs(s, p + TOKEN_LEN), swap, mid + |TokenShown(s, p, swap)|)
  {
    hide Render, Hits, LineSegs, FreeToken, TokenShown, TokenHit, TokenPiece;
    PlainSegs(s, k, p, swap, at);
    TokenSeg(s, p, swap, at + (p - k));
    var mid := at + (p - k);
    JoinHits(all, hits, TokenHit(s, p, swap, mid), Hits(LineSegs(s, p + TOKEN_LEN), swap, mid + |TokenShown(s, p, swap)|));
  }

  lemma JoinParts(whole: Text, out: Text, plain: Text, shown: Text, rest: Text)
    ensures whole == out + (plain + (shown + rest)) ==> whole == out + plain + shown + rest
  {
    Assoc(out, plain, shown + rest);
    Assoc(out + plain, shown, rest);
  }

  lemma JoinHits(all: seq<Hit>, hits: seq<Hit>, here: seq<Hit>, later: seq<Hit>)
    ensures all == hits + (here + later) ==> all == (hits + here) + later
    ensures hits + [] == hits
  {
    Assoc(hits, here, later);
  }

  lemma LineDone(s: Text, swap: Swap, at: nat)
    ensures Render(LineSegs(s, |s|), swap) == [] && Hits(LineSegs(s, |s|), swap, at) == []
  {
  }

  lemma TokenSeg(s: Text, p: int, swap: Swap, at: nat)
    requires FreeToken(s, p)
    ensures Render(LineSegs(s, p), swap) == TokenShown(s, p, swap) + Render(LineSegs(s, p + TOKEN_LEN), swap)
    ensures Hits(LineSegs(s, p), swap, at)
            == TokenHit(s, p, swap, at) + Hits(LineSegs(s, p + TOKEN_LEN), swap, at + |TokenShown(s, p, swap)|)
  {
    var raw := s[p..p + TOKEN_LEN];
    TokenRaw(s, p);
    assert LineSegs(s, p) == [Tok(raw)] + LineSegs(s, p + TOKEN_LEN);
    hide Render, Hits, LineSegs, IsToken, FreeToken;
    RenderUnfold(Tok(raw), LineSegs(s, p + TOKEN_LEN), swap, at);
  }

  lemma TokenRaw(s: Text, p: int)
    requires FreeToken(s, p)
    ensures var raw := s[p..p + TOKEN_LEN]; IsToken(raw) && raw[1] == s[p + 1] && raw[2..38] == s[p + 2..p + 38]
  {
    var raw := s[p..p + TOKEN_LEN];
    assert raw[2..38] == s[p + 2..p + 38] by {
      assert forall k :: 0 <= k < 36 ==> raw[2..38][k] == raw[k + 2];
    }
  }

  /** `mapTokens`: the tokens of a body outside code, each replaced by what `swap` says, with where each went. */
  method MapTokens(body: Text, swap: Swap) returns (out: Text, hits: seq<Hit>)
    ensures out == Render(Segs(body), swap) && hits == Hits(Segs(body), swap, 0)
  {
    hide Render, Hits, LineSegs, CodeSegs, ChunkAt, Rendered, ChunkSegs, SplitLines;
    var lines := SplitLines(body);
    var chunks := ChunkLines(lines);
    out, hits := [], [];
    ghost var segs: seq<Seg> := [];
    ghost var at := 0;
    var n := 0;
    RenderedMeans([], swap, [], []);
    assert chunks[0..] == chunks;
    while n < |chunks|
      invariant 0 <= n <= |chunks| && 0 <= at <= |lines|
      invariant chunks[n..] == ChunksFrom(lines, at)
      invariant Segs(body) == segs + SegsFrom(lines, at)
      invariant Rendered(segs, swap, out, hits)
    {
      var chunk := chunks[n];
      assert chunk == ChunkAt(lines, at) && chunks[n + 1..] == chunks[n..][1..];
      RenderMore(segs, ChunkSegs(lines, chunk), swap, out, hits);
      segs := segs + ChunkSegs(lines, chunk);
      var more;
      out, more := MapChunk(lines, chunk, swap, out);
      hits := hits + more;
      at := LastLine(chunk) + 1;
      n := n + 1;
    }
    assert at == |lines| by { assert chunks[n..] == []; }
    assert segs + [] == segs;
    RenderedMeans(segs, swap, out, hits);
  }

  lemma RenderedMeans(segs: seq<Seg>, swap: Swap, out: Text, hits: seq<Hit>)
    ensures Rendered(segs, swap, out, hits) == (out == Render(segs, swap) && hits == Hits(segs, swap, 0))
    ensures Rendered([], swap, [], [])
  {
    RenderNothing(swap, 0);
  }

  method MapChunk(lines: seq<Text>, chunk: Chunk, swap: Swap, out0: Text) returns (out: Text, hits: seq<Hit>)
    requires if chunk.CodeLines? then 0 <= chunk.first && chunk.last < |lines| else 0 <= chunk.line < |lines|
    ensures out == out0 + Render(ChunkSegs(lines, chunk), swap)
    ensures hits == Hits(ChunkSegs(lines, chunk), swap, |out0|)
  {
    hide Render, Hits, LineSegs, CodeSegs;
    if chunk.CodeLines? {
      out := MapCode(lines, chunk.first, chunk.last, swap, out0);
      hits := [];
    } else {
      out := out0;
      RenderAppend(Break(chunk.line), LineSegs(lines[chunk.line], 0), swap, |out0|);
      RenderOne(Lit([NEWLINE]), swap, |out0|);
      RenderNothing(swap, |out0|);
      if chunk.line > 0 { out := out + [NEWLINE]; }
      out, hits := MapLine(lines[chunk.line], swap, out);
    }
  }

  lemma RenderNothing(swap: Swap, at: nat)
    ensures Render([], swap) == [] && Hits([], swap, at) == []
  {
  }

  /** The lines of a code block, kept exactly. */
  method MapCode(lines: seq<Text>, first: int, last: int, swap: Swap, out0: Text) returns (out: Text)
    requires 0 <= first && last < |lines|
    ensures out == out0 + Render(CodeSegs(lines, first, last), swap)
    ensures Hits(CodeSegs(lines, first, last), swap, |out0|) == []
  {
    hide Render, Hits, CodeSegs;
    out := out0;
    var i := first;
    while i <= last
      invariant first <= i
      invariant out0 + Render(CodeSegs(lines, first, last), swap) == out + Render(CodeSegs(lines, i, last), swap)
      invariant Hits(CodeSegs(lines, first, last), swap, |out0|) == Hits(CodeSegs(lines, i, last), swap, |out|)
    {
      CodeLine(lines, i, last, swap, |out|);
      out := out + (if i > 0 then [NEWLINE] else []) + lines[i];
      i := i + 1;
    }
    CodeDone(lines, i, last, swap, |out|);
  }

  lemma CodeDone(lines: seq<Text>, i: int, last: int, swap: Swap, at: nat)
    requires 0 <= i && last < |lines| && i > last
    ensures Render(CodeSegs(lines, i, last), swap) == [] && Hits(CodeSegs(lines, i, last), swap, at) == []
  {
  }

  lemma BreakRenders(line: int, swap: Swap, at: nat)
    ensures Render(Break(line), swap) == (if line > 0 then [NEWLINE] else []) && Hits(Break(line), swap, at) == []
  {
    hide Render, Hits;
    RenderOne(Lit([NEWLINE]), swap, at);
    RenderNothing(swap, at);
  }

  lemma CodeSegsUnfold(lines: seq<Text>, i: int, last: int)
    requires 0 <= i <= last < |lines|
    ensures CodeSegs(lines, i, last) == Break(i) + ([Lit(lines[i])] + CodeSegs(lines, i + 1, last))
  {
  }

  lemma CodeLine(lines: seq<Text>, i: int, last: int, swap: Swap, at: nat)
    requires 0 <= i <= last < |lines|
    ensures var text := (if i > 0 then [NEWLINE] else []) + lines[i];
      && Render(CodeSegs(lines, i, last), swap) == text + Render(CodeSegs(lines, i + 1, last), swap)
      && Hits(CodeSegs(lines, i, last), swap, at) == Hits(CodeSegs(lines, i + 1, last), swap, at + |text|)
  {
    var rest := CodeSegs(lines, i + 1, last);
    var brk := if i > 0 then [NEWLINE] else [];
    CodeSegsUnfold(lines, i, last);
    hide *;
    BreakRenders(i, swap, at);
    RenderAppend(Break(i), [Lit(lines[i])] + rest, swap, at);
    RenderUnfold(Lit(lines[i]), rest, swap, at + |brk|);
    LitHasNoHits(lines[i], swap, at + |brk|);
    Assoc(brk, lines[i], Render(rest, swap));
    assert [] + ([] + Hits(rest, swap, at + |brk| + |lines[i]|)) == Hits(rest, swap, at + |brk + lines[i]|);
  }

  lemma LitHasNoHits(text: Text, swap: Swap, at: nat)
    ensures HitHere(Lit(text), swap, at) == [] && Shown(Lit(text), swap) == text
  {
  }

  // ---------------------------------------------------------------------------------------------
  // Nothing but tokens changes
  // ---------------------------------------------------------------------------------------------

  /** The text a body's segments were cut from. */
  function Raw(segs: seq<Seg>): Text {
    if segs == [] then [] else (if segs[0].Lit? then segs[0].text else segs[0].raw) + Raw(segs[1..])
  }

  lemma RawUnfold(seg: Seg, segs: seq<Seg>)
    ensures Raw([seg] + segs) == (if seg.Lit? then seg.text else seg.raw) + Raw(segs)
  {
    assert ([seg] + segs)[1..] == segs;
  }

  lemma {:induction false} RawAppend(a: seq<Seg>, b: seq<Seg>)
    ensures Raw(a + b) == Raw(a) + Raw(b)
  {
    if a == [] {
      AppendNothing(b);
    } else {
      hide *;
      RawAppend(a[1..], b);
      ConsAppend(a, b);
      RawUnfold(a[0], a[1..]);
      RawUnfold(a[0], a[1..] + b);
      Assoc(if a[0].Lit? then a[0].text else a[0].raw, Raw(a[1..]), Raw(b));
    }
  }

  lemma {:induction false} RawLine(s: Text, p: int)
    requires 0 <= p <= |s|
    ensures Raw(LineSegs(s, p)) == s[p..]
    decreases |s| - p
  {
    hide FreeToken, Raw;
    if p < |s| {
      var q := if FreeToken(s, p) then p + TOKEN_LEN else p + 1;
      FreeTokenFits(s, p);
      RawLine(s, q);
      var seg := if FreeToken(s, p) then Tok(s[p..q]) else Lit(s[p..q]);
      assert LineSegs(s, p) == [seg] + LineSegs(s, q);
      RawUnfold(seg, LineSegs(s, q));
      assert s[p..] == s[p..q] + s[q..];
    } else {
      RawNothing();
    }
  }

  lemma RawNothing()
    ensures Raw([]) == []
  {
  }

  lemma FreeTokenFits(s: Text, p: int)
    ensures FreeToken(s, p) ==> p + TOKEN_LEN <= |s|
  {
  }

  /** What joining lines[i..] adds after the lines before them. */
  function Tail(lines: seq<Text>, i: int): Text
    requires 0 <= i <= |lines|
    decreases |lines| - i
  {
    if i == |lines| then [] else (if i > 0 then [NEWLINE] else []) + lines[i] + Tail(lines, i + 1)
  }

  lemma TailUnfold(lines: seq<Text>, i: int)
    requires 0 <= i < |lines|
    ensures Tail(lines, i) == Raw(Break(i)) + (lines[i] + Tail(lines, i + 1))
  {
    assert Tail(lines, i) == (if i > 0 then [NEWLINE] else []) + lines[i] + Tail(lines, i + 1);
    hide Raw, Tail;
    RawNothing();
    RawUnfold(Lit([NEWLINE]), []);
    AppendNothing<Seg>([Lit([NEWLINE])]);
    AppendNothing<Unit>([NEWLINE]);
    Assoc(if i > 0 then [NEWLINE] else [], lines[i], Tail(lines, i + 1));
  }

  lemma {:induction false} RawCode(lines: seq<Text>, i: int, last: int)
    requires 0 <= i && last < |lines| && i <= last + 1
    ensures Raw(CodeSegs(lines, i, last)) + Tail(lines, last + 1) == Tail(lines, i)
    decreases last - i
  {
    RawNothing();
    if i <= last {
      var rest := CodeSegs(lines, i + 1, last);
      assert CodeSegs(lines, i, last) == Break(i) + ([Lit(lines[i])] + rest);
      TailUnfold(lines, i);
      hide *;
      RawCode(lines, i + 1, last);
      RawAppend(Break(i), [Lit(lines[i])] + rest);
      RawUnfold(Lit(lines[i]), rest);
      Assoc(Raw(Break(i)), lines[i] + Raw(rest), Tail(lines, last + 1));
      Assoc(lines[i], Raw(rest), Tail(lines, last + 1));
    }
  }

  lemma ChunkRaw(lines: seq<Text>, i: int)
    requires 0 <= i < |lines|
    ensures var c := ChunkAt(lines, i);
      Raw(ChunkSegs(lines, c)) + Tail(lines, LastLine(c) + 1) == Tail(lines, i)
  {
    hide ChunkAt, ChunkSegs, Raw, Tail;
    RawChunk(lines, i, ChunkAt(lines, i));
  }

  lemma RawChunk(lines: seq<Text>, i: int, c: Chunk)
    requires 0 <= i < |lines| && if c.CodeLines? then c.first == i && i <= c.last < |lines| else c.line == i
    ensures Raw(ChunkSegs(lines, c)) + Tail(lines, LastLine(c) + 1) == Tail(lines, i)
  {
    hide Raw, Tail, LineSegs, CodeSegs;
    if c.CodeLines? { RawCode(lines, i, c.last); } else { RawText(lines, i); }
  }

  lemma RawText(lines: seq<Text>, i: int)
    requires 0 <= i < |lines|
    ensures Raw(Break(i) + LineSegs(lines[i], 0)) + Tail(lines, i + 1) == Tail(lines, i)
  {
    hide *;
    TailUnfold(lines, i);
    RawAppend(Break(i), LineSegs(lines[i], 0));
    RawLine(lines[i], 0);
    assert lines[i][0..] == lines[i];
    Assoc(Raw(Break(i)), lines[i], Tail(lines, i + 1));
  }

  lemma {:induction false} RawLines(lines: seq<Text>, i: int)
    requires 0 <= i <= |lines|
    ensures Raw(SegsFrom(lines, i)) == Tail(lines, i)
    decreases |lines| - i
  {
    hide ChunkAt, ChunkSegs, Raw;
    if i < |lines| {
      var c := ChunkAt(lines, i);
      ChunkRaw(lines, i);
      RawLines(lines, LastLine(c) + 1);
      RawAppend(ChunkSegs(lines, c), SegsFrom(lines, LastLine(c) + 1));
    } else {
      RawNothing();
    }
  }

  lemma {:induction false} TailJoins(lines: seq<Text>, i: int)
    requires 0 <= i < |lines|
    ensures Tail(lines, i) == (if i > 0 then [NEWLINE] else []) + JoinLines(lines[i..])
    decreases |lines| - i
  {
    if i + 1 < |lines| {
      TailJoins(lines, i + 1);
      assert lines[i..][1..] == lines[i + 1..];
    }
  }

  /** The chunks and tokens of a body tile it: apart from line endings, nothing is lost or added. */
  lemma SegsTileBody(body: Text)
    ensures Raw(Segs(body)) == NormalizeReturns(body)
  {
    var lines := SplitLines(body);
    RawLines(lines, 0);
    TailJoins(lines, 0);
    assert lines[0..] == lines;
    JoinSplit(NormalizeReturns(body));
  }
}
