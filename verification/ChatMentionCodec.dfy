/** Encoding and decoding mentions, and keeping picks in step with edits (lib/chat-format.ts). */
module ChatMentionCodec {
  import opened Options
  import opened Texts
  import opened ChatFormatLine
  import opened ChatMentions
  import opened Sorting
  import ChatFormatInline

  /** A person picked from the autocomplete: `start` is where "@Name" sits in the text. */
  datatype Pick = Pick(id: Text, name: Text, start: Option<int>)

  type People = Text -> Option<Text>

  /** The Unicode word tests on the two units before a name, and the two after it. */
  datatype Alphabet = Alphabet(wordBefore: Text -> bool, nameChar: Text -> bool)

  datatype Span = Span(start: int, end: int, id: Text)

  function Needle(name: Text): Text { [AT] + name }

  function Token(id: Text): Text { [LT, AT] + id + [GT] }

  function SpanAt(p: Pick, at: int): Span { Span(at, at + 1 + |p.name|, p.id) }

  function Min(a: int, b: int): int { if a <= b then a else b }

  function Max(a: int, b: int): int { if a >= b then a else b }

  /** The span is part of a longer word. */
  predicate Glued(abc: Alphabet, text: Text, start: int, end: int)
    requires 0 <= start <= end <= |text|
  {
    (start > 0 && abc.wordBefore(text[Max(0, start - 2)..start])) || abc.nameChar(text[end..Min(|text|, end + 2)])
  }

  /** "@Name" stands at `at`, as a whole word. */
  predicate Whole(abc: Alphabet, text: Text, name: Text, at: int) {
    StartsAt(text, Needle(name), at) && !Glued(abc, text, at, at + 1 + |name|)
  }

  predicate Apart(a: Span, b: Span) { a.end <= b.start || a.start >= b.end }

  predicate Fits(abc: Alphabet, text: Text, p: Pick, at: int, taken: seq<Span>) {
    Whole(abc, text, p.name, at) && forall t :: t in taken ==> Apart(SpanAt(p, at), t)
  }

  /** The text with each span replaced by its token. */
  function Splice(text: Text, k: int, taken: seq<Span>): Text
    requires 0 <= k <= |text|
    requires Ascending(taken) && forall t :: t in taken ==> k <= t.start <= t.end <= |text|
    decreases |taken|
  {
    if taken == [] then text[k..]
    else text[k..taken[0].start] + Token(taken[0].id) + Splice(text, taken[0].end, taken[1..])
  }

  /** In order, none overlapping the next. */
  predicate Ascending(taken: seq<Span>) {
    (forall k :: 0 <= k < |taken| ==> taken[k].start < taken[k].end)
    && forall i, j :: 0 <= i < j < |taken| ==> taken[i].end <= taken[j].start
  }

  // ---------------------------------------------------------------------------------------------
  // Decode
  // ---------------------------------------------------------------------------------------------

  predicate Named(people: People, kind: Unit, id: Text) {
    kind == AT && people(id).Some? && people(id).value != []
  }

  function NameSwap(people: People): Swap {
    (kind: Unit, id: Text) => if Named(people, kind, id) then Some(Needle(people(id).value)) else None
  }

  /** Every named mention as its token, its id in lower case. */
  function TokenSwap(people: People): Swap {
    (kind: Unit, id: Text) => if Named(people, kind, id) then Some(Token(id)) else None
  }

  /** The body as saving it again should leave it: line endings and the ids of named mentions normalised. */
  function Normalized(body: Text, people: People): Text { Render(Segs(body), TokenSwap(people)) }

  function PickOf(h: Hit): Pick { Pick(h.id, if h.piece == [] then [] else h.piece[1..], Some(h.at)) }

  function PicksOf(hits: seq<Hit>): (r: seq<Pick>)
    ensures |r| == |hits| && forall k :: 0 <= k < |r| ==> r[k] == PickOf(hits[k])
  {
    seq(|hits|, k requires 0 <= k < |hits| => PickOf(hits[k]))
  }

  method DecodeMentions(body: Text, people: People) returns (text: Text, picked: seq<Pick>)
    ensures text == Render(Segs(body), NameSwap(people))
    ensures picked == PicksOf(Hits(Segs(body), NameSwap(people), 0))
  {
    var hits;
    text, hits := MapTokens(body, NameSwap(people));
    picked := PicksOf(hits);
  }

  /** The spans decoding put its names in. */
  function SpansOf(picked: seq<Pick>): (r: seq<Span>)
    requires forall p :: p in picked ==> p.start.Some?
    ensures |r| == |picked| && forall k :: 0 <= k < |r| ==> r[k] == SpanAt(picked[k], picked[k].start.value)
  {
    seq(|picked|, k requires 0 <= k < |picked| => SpanAt(picked[k], picked[k].start.value))
  }

  /** Picks in text order, each over its own "@Name". */
  ghost predicate InPlace(text: Text, picked: seq<Pick>) {
    && (forall p :: p in picked ==> p.name != [] && p.start.Some?)
    && (forall p :: p in picked ==> StartsAt(text, Needle(p.name), p.start.value))
    && Ascending(SpansOf(picked))
  }

  /** Spliced from k on, `text` holds `picked` in place after `pre`, and their tokens give `tokens`. */
  ghost predicate Splices(pre: Text, text: Text, picked: seq<Pick>, k: int, tokens: Text)
    requires 0 <= k <= |pre|
  {
    && InPlace(text, picked)
    && |pre| <= |text|
    && (forall t :: t in SpansOf(picked) ==> |pre| <= t.start && t.end <= |text|)
    && Splice(text, k, SpansOf(picked)) == pre[k..] + tokens
  }

  lemma SplicesToken(pre: Text, text: Text, p: Pick, rest: seq<Pick>, k: int, tokens: Text)
    requires 0 <= k <= |pre| && p.name != [] && p.start == Some(|pre|)
    requires pre + Needle(p.name) <= text
    requires Splices(pre + Needle(p.name), text, rest, |pre + Needle(p.name)|, tokens)
    ensures Splices(pre, text, [p] + rest, k, Token(p.id) + tokens)
  {
    var pre' := pre + Needle(p.name);
    var spans := SpansOf(rest);
    SpansCons(p, rest);
    assert StartsAt(text, Needle(p.name), |pre|) by {
      assert text[..|pre'|] == pre';
      assert pre'[|pre|..] == Needle(p.name);
      assert text[|pre|..|pre'|] == text[..|pre'|][|pre|..];
    }
    InPlaceCons(text, p, rest, |pre'|);
    SpliceCons(text, pre, p, spans, k, pre');
    assert pre'[|pre'|..] == [];
    AppendNothing(tokens);
    Assoc(pre[k..], Token(p.id), tokens);
  }

  lemma SpansCons(p: Pick, rest: seq<Pick>)
    requires p.start.Some? && forall q :: q in rest ==> q.start.Some?
    ensures SpansOf([p] + rest) == [SpanAt(p, p.start.value)] + SpansOf(rest)
  {
  }

  lemma InPlaceCons(text: Text, p: Pick, rest: seq<Pick>, end: int)
    requires InPlace(text, rest) && forall t :: t in SpansOf(rest) ==> end <= t.start
    requires p.name != [] && p.start.Some? && StartsAt(text, Needle(p.name), p.start.value) && SpanAt(p, p.start.value).end == end
    ensures InPlace(text, [p] + rest)
  {
    hide StartsAt;
    SpansCons(p, rest);
    var spans := SpansOf(rest);
    assert forall j :: 0 <= j < |spans| ==> spans[j] in spans;
  }

  lemma SpliceCons(text: Text, pre: Text, p: Pick, spans: seq<Span>, k: int, pre': Text)
    requires 0 <= k <= |pre| <= |pre'| <= |text| && pre <= pre' <= text && p.start == Some(|pre|)
    requires SpanAt(p, |pre|).end == |pre'| && |pre| < |pre'|
    requires Ascending(spans) && forall t :: t in spans ==> |pre'| <= t.start <= t.end <= |text|
    ensures Ascending([SpanAt(p, |pre|)] + spans)
    ensures forall t :: t in [SpanAt(p, |pre|)] + spans ==> k <= t.start <= t.end <= |text|
    ensures Splice(text, k, [SpanAt(p, |pre|)] + spans) == pre[k..] + Token(p.id) + Splice(text, |pre'|, spans)
  {
    hide Token;
    var t := SpanAt(p, |pre|);
    AscendingCons(t, spans);
    hide Ascending;
    SpliceOne(text, k, t, spans);
    hide Splice;
    assert text[..|pre|] == pre;
    assert text[k..|pre|] == text[..|pre|][k..];
  }

  lemma AscendingCons(t: Span, spans: seq<Span>)
    requires t.start < t.end && Ascending(spans) && forall x :: x in spans ==> t.end <= x.start
    ensures Ascending([t] + spans)
  {
    var all := [t] + spans;
    forall j | 0 < j < |all| ensures all[j] in spans && all[j] == spans[j - 1] {}
  }

  lemma SpliceOne(text: Text, k: int, t: Span, spans: seq<Span>)
    requires 0 <= k <= t.start <= t.end <= |text| && Ascending([t] + spans) && Ascending(spans)
    requires forall x :: x in spans ==> t.end <= x.start <= x.end <= |text|
    ensures (forall x :: x in [t] + spans ==> k <= x.start <= x.end <= |text|)
            && Splice(text, k, [t] + spans) == text[k..t.start] + Token(t.id) + Splice(text, t.end, spans)
  {
    hide Token, Ascending;
    var all := [t] + spans;
    assert all[1..] == spans;
  }

  lemma SplicesText(pre: Text, shown: Text, text: Text, picked: seq<Pick>, k: int, tokens: Text)
    requires 0 <= k <= |pre| && Splices(pre + shown, text, picked, k, tokens)
    ensures Splices(pre, text, picked, k, shown + tokens)
  {
    assert (pre + shown)[k..] + tokens == pre[k..] + (shown + tokens);
  }

  /** A named mention decodes to its "@Name", picked where it stands, and encodes to its token. */
  lemma NamedSeg(seg: Seg, people: People, at: nat)
    requires seg.Tok? && Swapped(seg.raw, NameSwap(people)).Some?
    ensures var shown := Shown(seg, NameSwap(people));
            var p := PickOf(Hit(at, Lower(seg.raw[2..38]), shown));
            && HitHere(seg, NameSwap(people), at) == [Hit(at, Lower(seg.raw[2..38]), shown)]
            && p.name != [] && p.start == Some(at) && Needle(p.name) == shown && Shown(seg, TokenSwap(people)) == Token(p.id)
  {
    var id := Lower(seg.raw[2..38]);
    var name := people(id).value;
    assert Shown(seg, NameSwap(people)) == Needle(name);
    assert Needle(name)[1..] == name;
  }

  lemma OtherSeg(seg: Seg, people: People, at: nat)
    requires !(seg.Tok? && Swapped(seg.raw, NameSwap(people)).Some?)
    ensures HitHere(seg, NameSwap(people), at) == [] && Shown(seg, TokenSwap(people)) == Shown(seg, NameSwap(people))
  {
    if seg.Tok? { SwapsAgree(seg.raw, people); }
    hide Swapped;
  }

  lemma SwapsAgree(raw: Text, people: People)
    ensures Swapped(raw, NameSwap(people)).Some? <==> Swapped(raw, TokenSwap(people)).Some?
  {
  }

  lemma SpliceUnfold(pre: Text, seg: Seg, rest: seq<Seg>, people: People)
    ensures var D := NameSwap(people);
            && pre + Render([seg] + rest, D) == pre + Shown(seg, D) + Render(rest, D)
            && Hits([seg] + rest, D, |pre|) == HitHere(seg, D, |pre|) + Hits(rest, D, |pre + Shown(seg, D)|)
    ensures Render([seg] + rest, TokenSwap(people)) == Shown(seg, TokenSwap(people)) + Render(rest, TokenSwap(people))
  {
    hide *;
    var D := NameSwap(people);
    RenderUnfold(seg, rest, D, |pre|);
    RenderUnfold(seg, rest, TokenSwap(people), |pre|);
    Assoc(pre, Shown(seg, D), Render(rest, D));
  }

  lemma PicksCons(h: Hit, hits: seq<Hit>)
    ensures PicksOf([h] + hits) == [PickOf(h)] + PicksOf(hits)
  {
  }

  /**
   * Rendering segs after `pre` with names puts every hit over its name, and splicing the tokens back in gives the
   * token rendering.
   */
  lemma {:induction false} SpliceHits(pre: Text, segs: seq<Seg>, people: People, k: int)
    requires 0 <= k <= |pre|
    ensures SplicesBack(pre, segs, people, k)
    decreases |segs|
  {
    if segs == [] {
      assert pre + [] == pre && pre[k..] + [] == pre[k..];
    } else {
      hide *;
      var seg, rest := segs[0], segs[1..];
      assert segs == [seg] + rest;
      if seg.Tok? && Swapped(seg.raw, NameSwap(people)).Some? {
        var next := pre + Shown(seg, NameSwap(people));
        SpliceHits(next, rest, people, |next|);
        SpliceNamed(pre, seg, rest, people, k);
      } else {
        SpliceHits(pre + Shown(seg, NameSwap(people)), rest, people, k);
        SpliceOther(pre, seg, rest, people, k);
      }
    }
  }

  /** What SpliceHits says. */
  ghost predicate SplicesBack(pre: Text, segs: seq<Seg>, people: People, k: int)
    requires 0 <= k <= |pre|
  {
    Splices(pre, pre + Render(segs, NameSwap(people)), PicksOf(Hits(segs, NameSwap(people), |pre|)), k,
            Render(segs, TokenSwap(people)))
  }

  lemma SpliceNamed(pre: Text, seg: Seg, rest: seq<Seg>, people: People, k: int)
    requires 0 <= k <= |pre| && seg.Tok? && Swapped(seg.raw, NameSwap(people)).Some?
    requires var next := pre + Shown(seg, NameSwap(people)); SplicesBack(next, rest, people, |next|)
    ensures SplicesBack(pre, [seg] + rest, people, k)
  {
    var D := NameSwap(people);
    var shown := Shown(seg, D);
    var h := Hit(|pre|, Lower(seg.raw[2..38]), shown);
    NamedSeg(seg, people, |pre|);
    SpliceUnfold(pre, seg, rest, people);
    hide Splices, Render, Hits, PicksOf, HitHere, Shown, Swapped, Lower, NameSwap, TokenSwap, PickOf;
    var text, later := pre + shown + Render(rest, D), Hits(rest, D, |pre + shown|);
    PicksCons(h, later);
    SplicesToken(pre, text, PickOf(h), PicksOf(later), k, Render(rest, TokenSwap(people)));
  }

  lemma SpliceOther(pre: Text, seg: Seg, rest: seq<Seg>, people: People, k: int)
    requires 0 <= k <= |pre| && !(seg.Tok? && Swapped(seg.raw, NameSwap(people)).Some?)
    requires SplicesBack(pre + Shown(seg, NameSwap(people)), rest, people, k)
    ensures SplicesBack(pre, [seg] + rest, people, k)
  {
    var D := NameSwap(people);
    var shown := Shown(seg, D);
    OtherSeg(seg, people, |pre|);
    SpliceUnfold(pre, seg, rest, people);
    hide Splices, Render, Hits, PicksOf, HitHere, Shown, Swapped, NameSwap, TokenSwap;
    var text, later := pre + shown + Render(rest, D), Hits(rest, D, |pre + shown|);
    AppendNothing(later);
    SplicesText(pre, shown, text, PicksOf(later), k, Render(rest, TokenSwap(people)));
  }

  // ---------------------------------------------------------------------------------------------
  // Encode
  // ---------------------------------------------------------------------------------------------

  /** A taken span encodes a pick over its own whole "@Name". */
  ghost predicate Justified(abc: Alphabet, text: Text, picked: seq<Pick>, t: Span) {
    exists p :: p in picked && p.name != [] && t == SpanAt(p, t.start) && Whole(abc, text, p.name, t.start)
  }

  ghost predicate AllJustified(abc: Alphabet, text: Text, picked: seq<Pick>, taken: seq<Span>) {
    && (forall t :: t in taken ==> Justified(abc, text, picked, t))
    && (forall i, j :: 0 <= i < j < |taken| ==> Apart(taken[i], taken[j]))
  }

  /** The spot pick k was picked at is encoded by it, or by a later pick that claims part of it. */
  ghost predicate Claimed(picked: seq<Pick>, k: int, taken: seq<Span>)
    requires 0 <= k < |picked| && picked[k].start.Some?
  {
    exists j :: k <= j < |picked| && picked[j].start.Some? && SpanAt(picked[j], picked[j].start.value) in taken
      && !Apart(SpanAt(picked[k], picked[k].start.value), SpanAt(picked[j], picked[j].start.value))
  }

  lemma TakeMore(abc: Alphabet, text: Text, picked: seq<Pick>, taken: seq<Span>, p: Pick, at: int)
    requires AllJustified(abc, text, picked, taken) && p in picked && p.name != [] && Fits(abc, text, p, at, taken)
    ensures AllJustified(abc, text, picked, taken + [SpanAt(p, at)])
  {
    hide Whole;
    var t := SpanAt(p, at);
    assert Justified(abc, text, picked, t);
    forall i | 0 <= i < |taken| ensures Apart(taken[i], t) { assert Apart(t, taken[i]); }
  }

  /** Every place `needle` stands, in order. */
  method Occurrences(text: Text, needle: Text) returns (found: seq<int>)
    ensures forall at :: at in found <==> StartsAt(text, needle, at)
    ensures forall i, j :: 0 <= i < j < |found| ==> found[i] < found[j]
  {
    hide StartsAt;
    found := [];
    for at := 0 to |text| + 1
      invariant forall k :: k in found <==> 0 <= k < at && StartsAt(text, needle, k)
      invariant forall i, j :: 0 <= i < j < |found| ==> found[i] < found[j]
    {
      if StartsAt(text, needle, at) {
        forall i | 0 <= i < |found| ensures found[i] < at { assert found[i] in found; }
        found := found + [at];
      }
    }
    forall at | StartsAt(text, needle, at) ensures 0 <= at <= |text| { StartsInside(text, needle, at); }
  }

  lemma StartsInside(text: Text, needle: Text, at: int)
    requires StartsAt(text, needle, at)
    ensures 0 <= at <= |text|
  {
  }

  function Distance(a: int, b: int): int { if a >= b then a - b else b - a }

  /** `best` is the free "@Name" nearest to where the pick was, the first of two as near; -1 when there is none. */
  ghost predicate IsNearest(abc: Alphabet, text: Text, p: Pick, taken: seq<Span>, best: int)
    requires p.start.Some?
  {
    if best == -1 then forall at :: !Fits(abc, text, p, at, taken)
    else
      && Fits(abc, text, p, best, taken)
      && forall at :: Fits(abc, text, p, at, taken) && at != best ==>
           Distance(best, p.start.value) < Distance(at, p.start.value)
           || (Distance(best, p.start.value) == Distance(at, p.start.value) && best < at)
  }

  method Nearest(abc: Alphabet, text: Text, p: Pick, taken: seq<Span>) returns (best: int)
    requires p.start.Some?
    ensures IsNearest(abc, text, p, taken, best)
  {
    var found := Occurrences(text, Needle(p.name));
    best := -1;
    for k := 0 to |found|
      invariant best == -1 <==> forall j :: 0 <= j < k ==> !Fits(abc, text, p, found[j], taken)
      invariant best != -1 ==> Fits(abc, text, p, best, taken) && exists j :: 0 <= j < k && found[j] == best
      invariant best != -1 ==>
        forall j :: 0 <= j < k && Fits(abc, text, p, found[j], taken) && found[j] != best ==>
          Distance(best, p.start.value) < Distance(found[j], p.start.value)
          || (Distance(best, p.start.value) == Distance(found[j], p.start.value) && best < found[j])
    {
      hide Whole;
      FitsInside(abc, text, p, found[k], taken);
      if Fits(abc, text, p, found[k], taken)
        && (best == -1 || Distance(found[k], p.start.value) < Distance(best, p.start.value)) {
        best := found[k];
      }
    }
    NearestOf(abc, text, p, taken, found, best);
  }

  lemma NearestOf(abc: Alphabet, text: Text, p: Pick, taken: seq<Span>, found: seq<int>, best: int)
    requires p.start.Some? && forall at :: StartsAt(text, Needle(p.name), at) ==> at in found
    requires best == -1 <==> forall j :: 0 <= j < |found| ==> !Fits(abc, text, p, found[j], taken)
    requires best != -1 ==> Fits(abc, text, p, best, taken)
    requires best != -1 ==>
      forall j :: 0 <= j < |found| && Fits(abc, text, p, found[j], taken) && found[j] != best ==>
        Distance(best, p.start.value) < Distance(found[j], p.start.value)
        || (Distance(best, p.start.value) == Distance(found[j], p.start.value) && best < found[j])
    ensures IsNearest(abc, text, p, taken, best)
  {
    hide Fits, Distance, StartsAt;
    forall at | Fits(abc, text, p, at, taken) ensures best != -1 && at in found {
      FitsInside(abc, text, p, at, taken);
      var j :| 0 <= j < |found| && found[j] == at;
    }
    if best != -1 {
      forall at | Fits(abc, text, p, at, taken) && at != best
        ensures Distance(best, p.start.value) < Distance(at, p.start.value)
                || (Distance(best, p.start.value) == Distance(at, p.start.value) && best < at)
      {
        var j :| 0 <= j < |found| && found[j] == at;
      }
    }
  }

  lemma FitsInside(abc: Alphabet, text: Text, p: Pick, at: int, taken: seq<Span>)
    ensures Fits(abc, text, p, at, taken) ==> at >= 0 && StartsAt(text, Needle(p.name), at)
  {
  }

  /** From `before` on, each pick in turn takes the nearest free "@Name" to where it was, if there is one. */
  ghost predicate MovedTake(abc: Alphabet, text: Text, moved: seq<Pick>, before: seq<Span>, after: seq<Span>)
    requires forall p :: p in moved ==> p.start.Some?
  {
    if moved == [] then after == before
    else
      var rest, p := moved[..|moved| - 1], moved[|moved| - 1];
      exists taken, best :: MovedTake(abc, text, rest, before, taken) && IsNearest(abc, text, p, taken, best)
        && after == (if best == -1 then taken else taken + [SpanAt(p, best)])
  }

  lemma MovedTakesOne(abc: Alphabet, text: Text, moved: seq<Pick>, p: Pick, before: seq<Span>, taken: seq<Span>, best: int)
    requires (forall x :: x in moved ==> x.start.Some?) && p.start.Some?
    requires MovedTake(abc, text, moved, before, taken) && IsNearest(abc, text, p, taken, best)
    ensures MovedTake(abc, text, moved + [p], before, if best == -1 then taken else taken + [SpanAt(p, best)])
  {
    hide IsNearest;
    var all := moved + [p];
    var after := if best == -1 then taken else taken + [SpanAt(p, best)];
    assert all[..|all| - 1] == moved && all[|all| - 1] == p;
    assert MovedTake(abc, text, all[..|all| - 1], before, taken) && IsNearest(abc, text, all[|all| - 1], taken, best);
  }

  lemma MovedTakesNone(abc: Alphabet, text: Text, before: seq<Span>)
    ensures MovedTake(abc, text, [], before, before)
  {}

  method TakeMoved(abc: Alphabet, text: Text, picked: seq<Pick>, moved: seq<Pick>, before: seq<Span>) returns (taken: seq<Span>)
    requires AllJustified(abc, text, picked, before)
    requires forall p :: p in moved ==> p in picked && p.name != [] && p.start.Some?
    ensures AllJustified(abc, text, picked, taken) && before <= taken
    ensures MovedTake(abc, text, moved, before, taken)
    ensures moved == [] ==> taken == before
  {
    hide *;
    taken := before;
    assert moved[..0] == [];
    MovedTakesNone(abc, text, before);
    for k := 0 to |moved|
      invariant AllJustified(abc, text, picked, taken) && before <= taken
      invariant MovedTake(abc, text, moved[..k], before, taken)
      invariant moved == [] ==> taken == before
    {
      var best := Nearest(abc, text, moved[k], taken);
      MovedTakesOne(abc, text, moved[..k], moved[k], before, taken, best);
      assert moved[..k + 1] == moved[..k] + [moved[k]];
      if best != -1 {
        NearestFits(abc, text, moved[k], taken, best);
        TakeMore(abc, text, picked, taken, moved[k], best);
        taken := taken + [SpanAt(moved[k], best)];
      }
    }
    assert moved[..|moved|] == moved;
  }

  lemma NearestFits(abc: Alphabet, text: Text, p: Pick, taken: seq<Span>, best: int)
    requires p.start.Some? && IsNearest(abc, text, p, taken, best) && best != -1
    ensures Fits(abc, text, p, best, taken)
  {
  }

  /** Every free "@Name" from `at` on, in order. */
  function TakeFree(abc: Alphabet, text: Text, p: Pick, at: int, taken: seq<Span>): seq<Span>
    decreases |text| - at
  {
    if at > |text| then taken
    else TakeFree(abc, text, p, at + 1, if Fits(abc, text, p, at, taken) then taken + [SpanAt(p, at)] else taken)
  }

  /** Each pick in turn takes every free "@Name". */
  function TakeAllFree(abc: Alphabet, text: Text, loose: seq<Pick>, taken: seq<Span>): seq<Span> {
    if loose == [] then taken
    else TakeFree(abc, text, loose[|loose| - 1], 0, TakeAllFree(abc, text, loose[..|loose| - 1], taken))
  }

  /** Places where the name does not stand are passed over. */
  lemma {:induction false} FreeSkips(abc: Alphabet, text: Text, p: Pick, a: int, b: int, taken: seq<Span>)
    requires a <= b && forall at :: a <= at < b ==> !StartsAt(text, Needle(p.name), at)
    ensures TakeFree(abc, text, p, a, taken) == TakeFree(abc, text, p, b, taken)
    decreases b - a
  {
    hide Glued, StartsAt;
    if a < b { FreeSkips(abc, text, p, a + 1, b, taken); }
  }

  method TakeOccurrences(abc: Alphabet, text: Text, picked: seq<Pick>, p: Pick, before: seq<Span>) returns (taken: seq<Span>)
    requires AllJustified(abc, text, picked, before) && p in picked && p.name != []
    ensures AllJustified(abc, text, picked, taken) && before <= taken
    ensures taken == TakeFree(abc, text, p, 0, before)
  {
    hide AllJustified, Fits, StartsAt;
    taken := before;
    var found := Occurrences(text, Needle(p.name));
    var next := 0;
    forall i | 0 <= i < |found| ensures found[i] >= 0 {
      assert found[i] in found;
      StartsInside(text, Needle(p.name), found[i]);
    }
    for j := 0 to |found|
      invariant AllJustified(abc, text, picked, taken) && before <= taken
      invariant 0 <= next <= |text| + 1 && (forall i :: j <= i < |found| ==> next <= found[i])
      invariant forall i :: 0 <= i < j ==> found[i] < next
      invariant TakeFree(abc, text, p, 0, before) == TakeFree(abc, text, p, next, taken)
    {
      var at := found[j];
      assert at in found;
      StartsInside(text, Needle(p.name), at);
      assert forall k :: k in found ==> k < next || k >= at;
      FreeSkips(abc, text, p, next, at, taken);
      if Fits(abc, text, p, at, taken) {
        TakeMore(abc, text, picked, taken, p, at);
        taken := taken + [SpanAt(p, at)];
      }
      next := at + 1;
    }
    assert forall k :: k in found ==> k < next;
    FreeSkips(abc, text, p, next, |text| + 1, taken);
  }

  method TakeLoose(abc: Alphabet, text: Text, picked: seq<Pick>, loose: seq<Pick>, before: seq<Span>) returns (taken: seq<Span>)
    requires AllJustified(abc, text, picked, before)
    requires forall p :: p in loose ==> p in picked && p.name != []
    ensures AllJustified(abc, text, picked, taken) && before <= taken
    ensures taken == TakeAllFree(abc, text, loose, before)
    ensures loose == [] ==> taken == before
  {
    hide AllJustified, Fits;
    taken := before;
    for k := 0 to |loose|
      invariant AllJustified(abc, text, picked, taken) && before <= taken
      invariant taken == TakeAllFree(abc, text, loose[..k], before)
      invariant loose == [] ==> taken == before
    {
      assert loose[..k + 1][..k] == loose[..k];
      taken := TakeOccurrences(abc, text, picked, loose[k], taken);
    }
    assert loose[..|loose|] == loose;
  }

  /** Map.set: a name keeps its place and takes the newer pick, or goes last. */
  function PutPick(loose: seq<Pick>, p: Pick): seq<Pick> {
    if loose == [] then [p] else if loose[0].name == p.name then [p] + loose[1..] else [loose[0]] + PutPick(loose[1..], p)
  }

  /** Picks without a position, the last pick of each name, in the order the names were first picked. */
  function LooseOf(named: seq<Pick>): seq<Pick> {
    if named == [] then []
    else
      var before, p := LooseOf(named[..|named| - 1]), named[|named| - 1];
      if p.start.None? then PutPick(before, p) else before
  }

  /** The pick at `k` is the last without a position of its name. */
  ghost predicate LastOfName(named: seq<Pick>, k: int)
    requires 0 <= k < |named|
  {
    named[k].start.None? && forall j :: k < j < |named| && named[j].start.None? ==> named[j].name != named[k].name
  }

  predicate NamesDiffer(loose: seq<Pick>) { forall i, j :: 0 <= i < j < |loose| ==> loose[i].name != loose[j].name }

  lemma {:induction false} PutMeans(loose: seq<Pick>, p: Pick)
    requires NamesDiffer(loose)
    ensures NamesDiffer(PutPick(loose, p))
    ensures forall x :: x in PutPick(loose, p) <==> x == p || (x in loose && x.name != p.name)
  {
    if loose != [] {
      var rest := loose[1..];
      assert loose == [loose[0]] + rest;
      forall i | 0 <= i < |rest| ensures rest[i].name != loose[0].name { assert loose[i + 1] == rest[i]; }
      if loose[0].name == p.name {
        assert forall x :: x in rest ==> x.name != p.name;
      } else {
        PutMeans(rest, p);
        var put := PutPick(rest, p);
        forall i | 0 <= i < |put| ensures put[i].name != loose[0].name { assert put[i] in put; }
      }
    }
  }

  /** A pick is kept exactly when it is the last of its name. */
  lemma {:induction false} LooseOfMeans(named: seq<Pick>)
    ensures NamesDiffer(LooseOf(named))
    ensures forall p :: p in LooseOf(named) <==> exists k :: 0 <= k < |named| && named[k] == p && LastOfName(named, k)
  {
    if named != [] {
      var front, last := named[..|named| - 1], named[|named| - 1];
      LooseOfMeans(front);
      PutMeans(LooseOf(front), last);
      hide NamesDiffer, LooseOf, PutPick;
      forall k | 0 <= k < |front|
        ensures LastOfName(named, k) <==> LastOfName(front, k) && (last.start.None? ==> last.name != front[k].name)
      {
        LastGrows(front, last, k);
      }
      assert last.start.None? ==> LastOfName(named, |named| - 1);
      assert LooseOf(named) == (if last.start.None? then PutPick(LooseOf(front), last) else LooseOf(front)) by {
        LooseOfStep(named);
      }
      forall p ensures p in LooseOf(named) <==> exists k :: 0 <= k < |named| && named[k] == p && LastOfName(named, k) {
        if p in LooseOf(front) && (last.start.None? ==> p.name != last.name) {
          var k :| 0 <= k < |front| && front[k] == p && LastOfName(front, k);
          assert named[k] == p;
        }
        if k :| 0 <= k < |named| && named[k] == p && LastOfName(named, k) {
          if k < |front| { assert front[k] == p; }
        }
      }
    }
  }

  lemma LastGrows(front: seq<Pick>, last: Pick, k: int)
    requires 0 <= k < |front|
    ensures LastOfName(front + [last], k) <==> LastOfName(front, k) && (last.start.None? ==> last.name != front[k].name)
  {
    var named := front + [last];
    assert named[|front|] == last;
    forall j | 0 <= j < |front| ensures named[j] == front[j] {}
  }

  lemma LooseOfStep(named: seq<Pick>)
    requires named != []
    ensures var front, last := named[..|named| - 1], named[|named| - 1];
            LooseOf(named) == if last.start.None? then PutPick(LooseOf(front), last) else LooseOf(front)
  {}

  lemma {:induction false} PutAt(loose: seq<Pick>, p: Pick, i: int)
    requires 0 <= i <= |loose| && (i < |loose| ==> loose[i].name == p.name) && forall j :: 0 <= j < i ==> loose[j].name != p.name
    ensures PutPick(loose, p) == if i < |loose| then loose[i := p] else loose + [p]
  {
    if i > 0 { PutAt(loose[1..], p, i - 1); }
  }

  method LoosePicks(named: seq<Pick>) returns (loose: seq<Pick>)
    ensures loose == LooseOf(named)
    ensures forall p :: p in loose ==> p in named && p.start.None?
    ensures (forall p :: p in named ==> p.start.Some?) ==> loose == []
  {
    loose := [];
    for k := 0 to |named|
      invariant loose == LooseOf(named[..k])
      invariant forall p :: p in loose ==> p in named && p.start.None?
      invariant (forall p :: p in named ==> p.start.Some?) ==> loose == []
    {
      assert named[..k + 1][..k] == named[..k];
      if named[k].start.None? {
        var i := 0;
        while i < |loose| && loose[i].name != named[k].name
          invariant 0 <= i <= |loose|
          invariant forall j :: 0 <= j < i ==> loose[j].name != named[k].name
        {
          i := i + 1;
        }
        PutAt(loose, named[k], i);
        loose := if i < |loose| then loose[i := named[k]] else loose + [named[k]];
      }
    }
    assert named[..|named|] == named;
  }

  ghost predicate Clean(abc: Alphabet, text: Text, placed: seq<Pick>) {
    InPlace(text, placed) && forall p :: p in placed ==> Whole(abc, text, p.name, p.start.value)
  }

  /** Picks k and later have been tried. */
  ghost predicate TriedFrom(abc: Alphabet, text: Text, placed: seq<Pick>, k: int, taken: seq<Span>, moved: seq<Pick>)
    requires 0 <= k <= |placed| && forall p :: p in placed ==> p.start.Some?
  {
    && AllJustified(abc, text, placed, taken)
    && (forall p :: p in moved ==> p in placed)
    && (forall t :: t in taken ==> exists j :: k <= j < |placed| && t == SpanAt(placed[j], placed[j].start.value))
    && (forall j :: k <= j < |placed| && Whole(abc, text, placed[j].name, placed[j].start.value) ==> Claimed(placed, j, taken))
    && (Clean(abc, text, placed) ==> moved == [] && multiset(taken) == multiset(SpansOf(placed)[k..]))
  }

  lemma TryTake(abc: Alphabet, text: Text, placed: seq<Pick>, k: int, taken: seq<Span>, moved: seq<Pick>)
    requires 0 <= k < |placed| && (forall p :: p in placed ==> p.start.Some? && p.name != [])
    requires TriedFrom(abc, text, placed, k + 1, taken, moved)
    requires Fits(abc, text, placed[k], placed[k].start.value, taken)
    ensures TriedFrom(abc, text, placed, k, taken + [SpanAt(placed[k], placed[k].start.value)], moved)
  {
    hide Whole, AllJustified, Claimed, Fits, InPlace;
    var t := SpanAt(placed[k], placed[k].start.value);
    TakeMore(abc, text, placed, taken, placed[k], placed[k].start.value);
    ClaimOwn(placed, k, taken);
    assert SpansOf(placed)[k..] == [t] + SpansOf(placed)[k + 1..];
    forall x | x in taken + [t] ensures exists j :: k <= j < |placed| && x == SpanAt(placed[j], placed[j].start.value) {
      if x in taken {
        var j :| k + 1 <= j < |placed| && x == SpanAt(placed[j], placed[j].start.value);
      }
    }
  }

  lemma TrySkip(abc: Alphabet, text: Text, placed: seq<Pick>, k: int, taken: seq<Span>, moved: seq<Pick>)
    requires 0 <= k < |placed| && (forall p :: p in placed ==> p.start.Some? && p.name != [])
    requires TriedFrom(abc, text, placed, k + 1, taken, moved)
    requires !Fits(abc, text, placed[k], placed[k].start.value, taken)
    ensures TriedFrom(abc, text, placed, k, taken, moved + [placed[k]])
  {
    hide Whole, AllJustified, Claimed, Fits, InPlace;
    if Whole(abc, text, placed[k].name, placed[k].start.value) { ClaimOther(abc, text, placed, k, taken); }
    if Clean(abc, text, placed) { CleanFits(abc, text, placed, k, taken); }
    forall x | x in taken ensures exists j :: k <= j < |placed| && x == SpanAt(placed[j], placed[j].start.value) {
      var j :| k + 1 <= j < |placed| && x == SpanAt(placed[j], placed[j].start.value);
    }
  }

  /** From the last pick to `k`: each takes its spot if it is still free there, and is moved otherwise. */
  function PlacedTake(abc: Alphabet, text: Text, placed: seq<Pick>, k: int): (seq<Span>, seq<Pick>)
    requires 0 <= k <= |placed| && forall p :: p in placed ==> p.start.Some?
    decreases |placed| - k
  {
    if k == |placed| then ([], [])
    else
      var (taken, moved) := PlacedTake(abc, text, placed, k + 1);
      var p := placed[k];
      if Fits(abc, text, p, p.start.value, taken) then (taken + [SpanAt(p, p.start.value)], moved) else (taken, moved + [p])
  }

  lemma PlacedTakeEnds(abc: Alphabet, text: Text, placed: seq<Pick>)
    requires forall p :: p in placed ==> p.start.Some?
    ensures PlacedTake(abc, text, placed, |placed|) == ([], [])
  {}

  lemma PlacedTakeStep(abc: Alphabet, text: Text, placed: seq<Pick>, k: int)
    requires 0 <= k < |placed| && forall p :: p in placed ==> p.start.Some?
    ensures var (taken, moved) := PlacedTake(abc, text, placed, k + 1);
            var p := placed[k];
            PlacedTake(abc, text, placed, k)
              == if Fits(abc, text, p, p.start.value, taken) then (taken + [SpanAt(p, p.start.value)], moved)
                else (taken, moved + [p])
  {
    hide Fits;
  }

  /** Picks over their own names, from the last to the first: each takes its spot if it still fits. */
  method TakePlaced(abc: Alphabet, text: Text, placed: seq<Pick>) returns (taken: seq<Span>, moved: seq<Pick>)
    requires forall p :: p in placed ==> p.start.Some? && p.name != []
    ensures TriedFrom(abc, text, placed, 0, taken, moved)
    ensures (taken, moved) == PlacedTake(abc, text, placed, 0)
  {
    hide *;
    taken, moved := [], [];
    TryNone(abc, text, placed);
    PlacedTakeEnds(abc, text, placed);
    var k := |placed| - 1;
    while k >= 0
      invariant -1 <= k < |placed|
      invariant TriedFrom(abc, text, placed, k + 1, taken, moved)
      invariant (taken, moved) == PlacedTake(abc, text, placed, k + 1)
    {
      var p := placed[k];
      var at := p.start.value;
      PlacedTakeStep(abc, text, placed, k);
      if Fits(abc, text, p, at, taken) {
        TryTake(abc, text, placed, k, taken, moved);
        taken := taken + [SpanAt(p, at)];
      } else {
        TrySkip(abc, text, placed, k, taken, moved);
        moved := moved + [p];
      }
      k := k - 1;
    }
  }

  lemma TryNone(abc: Alphabet, text: Text, placed: seq<Pick>)
    requires forall p :: p in placed ==> p.start.Some?
    ensures TriedFrom(abc, text, placed, |placed|, [], [])
  {
    assert SpansOf(placed)[|placed|..] == [];
  }

  lemma CleanFits(abc: Alphabet, text: Text, placed: seq<Pick>, k: int, taken: seq<Span>)
    requires 0 <= k < |placed| && InPlace(text, placed) && Whole(abc, text, placed[k].name, placed[k].start.value)
    requires multiset(taken) == multiset(SpansOf(placed)[k + 1..])
    ensures Fits(abc, text, placed[k], placed[k].start.value, taken)
  {
    hide Whole;
    forall t | t in taken ensures Apart(SpanAt(placed[k], placed[k].start.value), t) {
      assert t in multiset(taken);
      assert t in SpansOf(placed)[k + 1..];
    }
  }

  lemma ClaimOwn(placed: seq<Pick>, k: int, taken: seq<Span>)
    requires 0 <= k < |placed| && placed[k].start.Some?
    ensures Claimed(placed, k, taken + [SpanAt(placed[k], placed[k].start.value)])
    ensures forall j :: 0 <= j < |placed| && placed[j].start.Some? && Claimed(placed, j, taken) ==>
      Claimed(placed, j, taken + [SpanAt(placed[k], placed[k].start.value)])
  {
    var t := SpanAt(placed[k], placed[k].start.value);
    assert t in taken + [t];
    forall j | 0 <= j < |placed| && placed[j].start.Some? && Claimed(placed, j, taken)
      ensures Claimed(placed, j, taken + [t])
    {
      var i :| j <= i < |placed| && placed[i].start.Some? && SpanAt(placed[i], placed[i].start.value) in taken
        && !Apart(SpanAt(placed[j], placed[j].start.value), SpanAt(placed[i], placed[i].start.value));
      assert SpanAt(placed[i], placed[i].start.value) in taken + [t];
    }
  }

  lemma ClaimOther(abc: Alphabet, text: Text, placed: seq<Pick>, k: int, taken: seq<Span>)
    requires 0 <= k < |placed| && placed[k].start.Some? && forall p :: p in placed ==> p.start.Some?
    requires forall t :: t in taken ==> exists j :: k < j < |placed| && t == SpanAt(placed[j], placed[j].start.value)
    requires Whole(abc, text, placed[k].name, placed[k].start.value) && !Fits(abc, text, placed[k], placed[k].start.value, taken)
    ensures Claimed(placed, k, taken)
  {
    hide Whole;
    var t :| t in taken && !Apart(SpanAt(placed[k], placed[k].start.value), t);
    var j :| k < j < |placed| && t == SpanAt(placed[j], placed[j].start.value);
  }

  predicate StartLe(a: Span, b: Span) { a.start <= b.start }

  lemma SortedIsAscending(abc: Alphabet, text: Text, picked: seq<Pick>, taken: seq<Span>)
    requires AllJustified(abc, text, picked, taken)
    ensures Ascending(Sort(StartLe, taken)) && AllJustified(abc, text, picked, Sort(StartLe, taken))
    ensures forall t :: t in Sort(StartLe, taken) <==> t in taken
    ensures forall t :: t in taken ==> 0 <= t.start < t.end <= |text|
  {
    SortPermutes(StartLe, taken);
    SortSorts(StartLe, taken);
    var s := Sort(StartLe, taken);
    forall t ensures t in s <==> t in taken {
      assert t in multiset(s) <==> t in multiset(taken);
    }
    forall t | t in taken ensures 0 <= t.start < t.end <= |text| {
      assert Justified(abc, text, picked, t);
    }
    ApartPermuted(taken, s);
  }

  lemma ApartPermuted(a: seq<Span>, b: seq<Span>)
    requires multiset(a) == multiset(b) && (forall t :: t in a ==> t.start < t.end)
    requires forall i, j :: 0 <= i < j < |a| ==> Apart(a[i], a[j])
    ensures forall i, j :: 0 <= i < j < |b| ==> Apart(b[i], b[j])
  {
    forall i, j | 0 <= i < j < |b| ensures Apart(b[i], b[j]) {
      if b[i] == b[j] {
        TwiceIn(b, i, j);
        OnceIn(a, b[i]);
        assert false;
      } else {
        assert b[i] in multiset(a) && b[j] in multiset(a);
        var x :| 0 <= x < |a| && a[x] == b[i];
        var y :| 0 <= y < |a| && a[y] == b[j];
        assert x != y;
        if x > y { assert Apart(a[y], a[x]); }
      }
    }
  }

  lemma {:induction false} OnceIn(a: seq<Span>, t: Span)
    requires t.start < t.end && forall i, j :: 0 <= i < j < |a| ==> Apart(a[i], a[j])
    ensures multiset(a)[t] <= 1
  {
    if a != [] {
      OnceIn(a[1..], t);
      assert a == [a[0]] + a[1..];
      forall k | 0 <= k < |a[1..]| ensures Apart(a[0], a[1..][k]) {
        assert Apart(a[0], a[k + 1]);
      }
    }
  }

  lemma TwiceIn(b: seq<Span>, i: int, j: int)
    requires 0 <= i < j < |b| && b[i] == b[j]
    ensures multiset(b)[b[i]] >= 2
  {
    assert b == b[..j] + b[j..];
    assert b[..j][i] == b[i] && b[j..][0] == b[i];
    assert b[i] in multiset(b[..j]) && b[i] in multiset(b[j..]);
  }

  function NamedPicks(picked: seq<Pick>): (r: seq<Pick>)
    ensures forall p :: p in r <==> p in picked && p.name != []
    ensures (forall p :: p in picked ==> p.name != []) ==> r == picked
  {
    if picked == [] then [] else (if picked[0].name != [] then [picked[0]] else []) + NamedPicks(picked[1..])
  }

  function PlacedPicks(picked: seq<Pick>): (r: seq<Pick>)
    ensures forall p :: p in r <==> p in picked && p.start.Some?
    ensures (forall p :: p in picked ==> p.start.Some?) ==> r == picked
  {
    if picked == [] then [] else (if picked[0].start.Some? then [picked[0]] else []) + PlacedPicks(picked[1..])
  }

  predicate LongestFirst(a: Pick, b: Pick) { |a.name| >= |b.name| }

  lemma JustifiedIn(abc: Alphabet, text: Text, some: seq<Pick>, picked: seq<Pick>, taken: seq<Span>)
    requires AllJustified(abc, text, some, taken) && forall p :: p in some ==> p in picked
    ensures AllJustified(abc, text, picked, taken)
  {
    forall t | t in taken ensures Justified(abc, text, picked, t) {
      assert Justified(abc, text, some, t);
      var p :| p in some && p.name != [] && t == SpanAt(p, t.start) && Whole(abc, text, p.name, t.start);
    }
  }

  lemma ClaimedStill(placed: seq<Pick>, k: int, before: seq<Span>, taken: seq<Span>)
    requires 0 <= k < |placed| && placed[k].start.Some? && Claimed(placed, k, before)
    requires forall t :: t in before ==> t in taken
    ensures Claimed(placed, k, taken)
  {
    var j :| k <= j < |placed| && placed[j].start.Some? && SpanAt(placed[j], placed[j].start.value) in before
      && !Apart(SpanAt(placed[k], placed[k].start.value), SpanAt(placed[j], placed[j].start.value));
    assert SpanAt(placed[j], placed[j].start.value) in taken;
  }

  lemma InPlaceIsPlaced(abc: Alphabet, text: Text, picked: seq<Pick>)
    requires InPlace(text, picked)
    ensures NamedPicks(picked) == picked && PlacedPicks(picked) == picked && forall p :: p in picked ==> p.start.Some?
    ensures forall p :: p in picked ==> 0 <= p.start.value && p.start.value + 1 + |p.name| <= |text|
    ensures Clean(abc, text, picked) <==>
      forall p :: p in picked ==> !Glued(abc, text, p.start.value, p.start.value + 1 + |p.name|)
  {
    hide Glued, NamedPicks, PlacedPicks;
  }

  /** In place, the spans taken are the picks' own exactly when no pick is glued to a longer word. */
  lemma TakesExactly(abc: Alphabet, text: Text, picked: seq<Pick>, taken: seq<Span>)
    requires InPlace(text, picked) && AllJustified(abc, text, picked, taken) && Ascending(taken)
    requires Clean(abc, text, picked) ==> multiset(taken) == multiset(SpansOf(picked))
    ensures taken == SpansOf(picked) <==>
      forall p :: p in picked ==> !Glued(abc, text, p.start.value, p.start.value + 1 + |p.name|)
  {
    InPlaceIsPlaced(abc, text, picked);
    hide Glued, StartsAt, Justified, Needle, Clean;
    if forall p :: p in picked ==> !Glued(abc, text, p.start.value, p.start.value + 1 + |p.name|) {
      SpansSorted(taken, SpansOf(picked));
    }
    if taken == SpansOf(picked) {
      forall p | p in picked ensures !Glued(abc, text, p.start.value, p.start.value + 1 + |p.name|) {
        var k :| 0 <= k < |picked| && picked[k] == p;
        JustifiedUnglued(abc, text, picked, taken[k], p);
      }
    }
  }

  lemma JustifiedUnglued(abc: Alphabet, text: Text, picked: seq<Pick>, t: Span, p: Pick)
    requires Justified(abc, text, picked, t) && p.start.Some? && t == SpanAt(p, p.start.value)
    ensures 0 <= t.start <= t.end <= |text| && !Glued(abc, text, p.start.value, p.start.value + 1 + |p.name|)
  {
    hide Glued;
  }

  lemma SpansSorted(a: seq<Span>, b: seq<Span>)
    requires Ascending(a) && Ascending(b) && multiset(a) == multiset(b)
    ensures a == b
  {
    forall x, y | x in a && y in a && StartLe(x, y) && StartLe(y, x) ensures x == y {
      var i :| 0 <= i < |a| && a[i] == x;
      var j :| 0 <= j < |a| && a[j] == y;
    }
    OneSorting(StartLe, a, b);
  }

  lemma TriedMeans(abc: Alphabet, text: Text, placed: seq<Pick>, taken: seq<Span>, moved: seq<Pick>)
    requires (forall p :: p in placed ==> p.start.Some?) && TriedFrom(abc, text, placed, 0, taken, moved)
    ensures AllJustified(abc, text, placed, taken) && forall p :: p in moved ==> p in placed
    ensures forall k :: 0 <= k < |placed| && Whole(abc, text, placed[k].name, placed[k].start.value) ==> Claimed(placed, k, taken)
    ensures Clean(abc, text, placed) ==> moved == [] && multiset(taken) == multiset(SpansOf(placed))
  {
    hide AllJustified, Whole, Claimed, Clean;
    assert SpansOf(placed)[0..] == SpansOf(placed);
  }

  /**
   * What is taken, in the order it is: placed picks, from the last, at their own spots; then each pick that lost its spot,
   * the nearest free one; then the picks without a position, the last of each name and longest names first, every free one.
   */
  ghost predicate TakenInTurn(abc: Alphabet, text: Text, picked: seq<Pick>, spans: seq<Span>) {
    var named := NamedPicks(picked);
    var (first, moved) := PlacedTake(abc, text, PlacedPicks(named), 0);
    PlacedTakeMoves(abc, text, PlacedPicks(named), 0);
    exists second :: MovedTake(abc, text, moved, first, second)
                     && spans == TakeAllFree(abc, text, Sort(LongestFirst, LooseOf(named)), second)
  }

  lemma {:induction false} PlacedTakeMoves(abc: Alphabet, text: Text, placed: seq<Pick>, k: int)
    requires 0 <= k <= |placed| && forall p :: p in placed ==> p.start.Some?
    ensures forall p :: p in PlacedTake(abc, text, placed, k).1 ==> p.start.Some?
    decreases |placed| - k
  {
    hide Fits;
    if k < |placed| { PlacedTakeMoves(abc, text, placed, k + 1); }
  }

  /**
   * `encodeMentions`. Every span replaced is a whole "@Name" of a pick, none overlap, and a pick
   * still over its name is encoded there unless a later one claims the spot. When the picks stand
   * in order over their names, exactly their spans are replaced if and only if none of them is
   * glued to a longer word. `taken` is the list of spans replaced, in text order; which they are is
   * settled in turn, as `TakenInTurn` says.
   */
  method EncodeMentions(abc: Alphabet, text: Text, picked: seq<Pick>) returns (out: Text, taken: seq<Span>)
    ensures Ascending(taken) && AllJustified(abc, text, picked, taken)
    ensures forall t :: t in taken ==> 0 <= t.start < t.end <= |text|
    ensures out == Splice(text, 0, taken)
    ensures exists spans :: TakenInTurn(abc, text, picked, spans) && taken == Sort(StartLe, spans)
    ensures var placed := PlacedPicks(NamedPicks(picked));
      forall k :: 0 <= k < |placed| && Whole(abc, text, placed[k].name, placed[k].start.value) ==> Claimed(placed, k, taken)
    ensures InPlace(text, picked) ==>
      (taken == SpansOf(picked) <==>
        forall p :: p in picked ==> !Glued(abc, text, p.start.value, p.start.value + 1 + |p.name|))
  {
    hide *;
    var named := NamedPicks(picked);
    if named == [] {
      EncodesNothing(abc, text, picked);
      return text, [];
    }
    var placed := PlacedPicks(named);
    var first, moved := TakePlaced(abc, text, placed);
    TriedMeans(abc, text, placed, first, moved);
    JustifiedIn(abc, text, placed, picked, first);
    var second := TakeMoved(abc, text, picked, moved, first);
    var loose := LoosePicks(named);
    SortKeepsMembers(LongestFirst, loose);
    var spans := TakeLoose(abc, text, picked, Sort(LongestFirst, loose), second);
    InTurn(abc, text, picked, moved, first, second, spans);
    SortedIsAscending(abc, text, picked, spans);
    SortPermutes(StartLe, spans);
    taken := Sort(StartLe, spans);
    forall k | 0 <= k < |placed| && Whole(abc, text, placed[k].name, placed[k].start.value) ensures Claimed(placed, k, taken) {
      ClaimedStill(placed, k, first, taken);
    }
    if InPlace(text, picked) {
      InPlaceIsPlaced(abc, text, picked);
      TakesExactly(abc, text, picked, taken);
    }
    out := SpliceIn(text, Sort(StartLe, spans));
  }

  lemma InTurn(abc: Alphabet, text: Text, picked: seq<Pick>, moved: seq<Pick>, first: seq<Span>, second: seq<Span>,
               spans: seq<Span>)
    requires (first, moved) == PlacedTake(abc, text, PlacedPicks(NamedPicks(picked)), 0) && forall p :: p in moved ==>
               p.start.Some?
    requires MovedTake(abc, text, moved, first, second)
    requires spans == TakeAllFree(abc, text, Sort(LongestFirst, LooseOf(NamedPicks(picked))), second)
    ensures TakenInTurn(abc, text, picked, spans)
  {
    hide PlacedTake, MovedTake, TakeAllFree, Sort, LooseOf, NamedPicks, PlacedPicks;
  }

  lemma EncodesNothing(abc: Alphabet, text: Text, picked: seq<Pick>)
    requires NamedPicks(picked) == []
    ensures Ascending([]) && AllJustified(abc, text, picked, []) && Splice(text, 0, []) == text
    ensures PlacedPicks([]) == []
    ensures TakenInTurn(abc, text, picked, []) && Sort(StartLe, []) == []
    ensures InPlace(text, picked) ==> picked == [] && SpansOf(picked) == []
  {
    if picked != [] { assert picked[0] in picked; }
    assert PlacedTake(abc, text, PlacedPicks(NamedPicks(picked)), 0) == ([], []);
    InTurn(abc, text, picked, [], [], [], []);
  }

  lemma SortKeepsMembers<T>(le: (T, T) -> bool, xs: seq<T>)
    ensures forall x :: x in Sort(le, xs) <==> x in xs
  {
    SortPermutes(le, xs);
    forall x ensures x in Sort(le, xs) <==> x in xs { assert x in multiset(Sort(le, xs)) <==> x in multiset(xs); }
  }

  /** The text rebuilt with each span replaced by its token. */
  method SpliceIn(text: Text, taken: seq<Span>) returns (out: Text)
    requires Ascending(taken) && forall t :: t in taken ==> 0 <= t.start <= t.end <= |text|
    ensures out == Splice(text, 0, taken)
  {
    hide Splice;
    out := [];
    var k := 0;
    assert taken[0..] == taken;
    for n := 0 to |taken|
      invariant 0 <= k <= |text| && forall j :: n <= j < |taken| ==> k <= taken[j].start
      invariant Splice(text, 0, taken) == out + Splice(text, k, taken[n..])
    {
      SpliceStep(text, k, taken[n..], out);
      assert taken[n..][1..] == taken[n + 1..];
      out := out + text[k..taken[n].start] + Token(taken[n].id);
      k := taken[n].end;
    }
    SpliceDone(text, k, taken[|taken|..]);
    out := out + text[k..];
  }

  lemma SpliceDone(text: Text, k: int, taken: seq<Span>)
    requires 0 <= k <= |text| && taken == []
    ensures Splice(text, k, taken) == text[k..]
  {
  }

  lemma SpliceStep(text: Text, k: int, taken: seq<Span>, out: Text)
    requires 0 <= k <= |text| && taken != []
    requires Ascending(taken) && forall t :: t in taken ==> k <= t.start <= t.end <= |text|
    ensures out + Splice(text, k, taken)
      == out + text[k..taken[0].start] + Token(taken[0].id) + Splice(text, taken[0].end, taken[1..])
  {
  }

  /** Every named mention's id is in lower case already. */
  predicate LowerIds(segs: seq<Seg>, people: People) {
    forall seg :: seg in segs && seg.Tok? && IsToken(seg.raw) && Named(people, seg.raw[1], Lower(seg.raw[2..38])) ==>
      Lower(seg.raw[2..38]) == seg.raw[2..38]
  }

  function RawOf(seg: Seg): Text { if seg.Lit? then seg.text else seg.raw }

  lemma TokenKeepsRaw(seg: Seg, people: People)
    ensures var shown, raw := Shown(seg, TokenSwap(people)), RawOf(seg);
            && |shown| == |raw| && Lower(shown) == Lower(raw) && (shown == raw <==> LowerIds([seg], people))
  {
    var raw := RawOf(seg);
    if seg.Tok? && IsToken(raw) && Named(people, raw[1], Lower(raw[2..38])) {
      var id, low := raw[2..38], Lower(raw[2..38]);
      assert raw == [LT, AT] + id + [GT];
      assert Lower(low) == low;
      assert Lower([LT, AT] + low + [GT]) == [LT, AT] + low + [GT] == Lower([LT, AT] + id + [GT]);
      assert ([LT, AT] + low + [GT])[2..38] == low;
      assert seg in [seg];
    }
  }

  lemma LowerAppend(x: Text, y: Text)
    ensures Lower(x + y) == Lower(x) + Lower(y)
  {}

  lemma {:induction false} TokensKeepRaw(segs: seq<Seg>, people: People)
    ensures var shown, raw := Render(segs, TokenSwap(people)), Raw(segs);
            && |shown| == |raw| && Lower(shown) == Lower(raw) && (shown == raw <==> LowerIds(segs, people))
  {
    if segs != [] {
      var seg, rest := segs[0], segs[1..];
      TokensKeepRaw(rest, people);
      TokenKeepsRaw(seg, people);
      assert LowerIds(segs, people) <==> LowerIds([seg], people) && LowerIds(rest, people) by {
        assert segs == [seg] + rest;
      }
      hide LowerIds, Shown;
      var a, b, x, y := Shown(seg, TokenSwap(people)), Render(rest, TokenSwap(people)), RawOf(seg), Raw(rest);
      LowerAppend(a, b);
      LowerAppend(x, y);
      assert (a + b)[..|a|] == a && (a + b)[|a|..] == b && (x + y)[..|x|] == x && (x + y)[|x|..] == y;
    }
  }

  /** The normalised body is the body but for line endings and letter case, and all of it when named ids are in lower case. */
  lemma NormalizedIsBody(body: Text, people: People)
    ensures Lower(Normalized(body, people)) == Lower(NormalizeReturns(body))
    ensures Normalized(body, people) == NormalizeReturns(body) <==> LowerIds(Segs(body), people)
  {
    hide *;
    SegsTileBody(body);
    TokensKeepRaw(Segs(body), people);
    NormalizedMeans(body, people);
  }

  lemma NormalizedMeans(body: Text, people: People)
    ensures Normalized(body, people) == Render(Segs(body), TokenSwap(people))
  {}

  /**
   * Editing a sent message: decoding its body and encoding the result gives the body back (line
   * endings and the ids of named mentions normalised) whenever no named mention is glued to a
   * word after decoding; and that is exactly when encoding replaces the decoded spans and no other.
   */
  method RoundTrip(abc: Alphabet, body: Text, people: People)
      returns (text: Text, picked: seq<Pick>, again: Text, taken: seq<Span>)
    ensures InPlace(text, picked)
    ensures taken == SpansOf(picked) <==>
      forall p :: p in picked ==> !Glued(abc, text, p.start.value, p.start.value + 1 + |p.name|)
    ensures (forall p :: p in picked ==> !Glued(abc, text, p.start.value, p.start.value + 1 + |p.name|))
      ==> && again == Normalized(body, people)
          && Lower(again) == Lower(NormalizeReturns(body))
          && (again == NormalizeReturns(body) <==> LowerIds(Segs(body), people))
  {
    NormalizedIsBody(body, people);
    text, picked := DecodeMentions(body, people);
    SpliceHits([], Segs(body), people, 0);
    assert [] + Render(Segs(body), NameSwap(people)) == text;
    again, taken := EncodeMentions(abc, text, picked);
  }
}
