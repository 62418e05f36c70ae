/** Picks kept in step with edits of the composer's text, and bodies cut for a preview (lib/chat-format.ts). */
module ChatRebase {
  import opened Options
  import opened Texts
  import opened ChatFormatLine
  import opened ChatMentionCodec
  import ChatFormatInline

  /** What one edit did, as the composer works it out: prev[prefix..editEnd] was replaced. */
  datatype Edit = Edit(prefix: int, editEnd: int, delta: int)

  /** The edit explains how `prev` became `next`. */
  ghost predicate Explains(prev: Text, next: Text, e: Edit) {
    && 0 <= e.prefix <= e.editEnd <= |prev| && e.delta == |next| - |prev|
    && e.prefix <= e.editEnd + e.delta
    && prev[..e.prefix] == next[..e.prefix]
    && prev[e.editEnd..] == next[e.editEnd + e.delta..]
  }

  /** The most the end of the two texts may be taken as shared, given where the caret is after the edit. */
  function SuffixMax(prev: Text, next: Text, caret: Option<int>): int {
    var shortest := Min(|prev|, |next|);
    if caret.Some? then Min(shortest, Max(0, |next| - caret.value)) else shortest
  }

  /** As little as possible was replaced: first the end is shared as far as it goes, then the start. */
  ghost predicate Tight(prev: Text, next: Text, caret: Option<int>, e: Edit) {
    Explains(prev, next, e) &&
    var suffix := |prev| - e.editEnd;
    && suffix <= SuffixMax(prev, next, caret)
    && (suffix < SuffixMax(prev, next, caret) ==> prev[|prev| - 1 - suffix] != next[|next| - 1 - suffix])
    && (e.prefix < Min(|prev|, |next|) - suffix ==> prev[e.prefix] != next[e.prefix])
  }

  predicate SharesEnd(prev: Text, next: Text, n: nat) { n <= |prev| && n <= |next| && prev[|prev| - n..] == next[|next| - n..] }

  predicate SharesStart(prev: Text, next: Text, n: nat) { n <= |prev| && n <= |next| && prev[..n] == next[..n] }

  lemma SharesMore(prev: Text, next: Text, n: nat)
    ensures SharesEnd(prev, next, 0) && SharesStart(prev, next, 0)
    ensures SharesEnd(prev, next, n) && n < |prev| && n < |next| && prev[|prev| - 1 - n] == next[|next| - 1 - n] ==>
              SharesEnd(prev, next, n + 1)
    ensures SharesStart(prev, next, n) && n < |prev| && n < |next| && prev[n] == next[n] ==> SharesStart(prev, next, n + 1)
  {
    if n < |prev| && n < |next| {
      assert prev[|prev| - 1 - n..] == [prev[|prev| - 1 - n]] + prev[|prev| - n..];
      assert next[|next| - 1 - n..] == [next[|next| - 1 - n]] + next[|next| - n..];
      assert prev[..n + 1] == prev[..n] + [prev[n]] && next[..n + 1] == next[..n] + [next[n]];
    }
  }

  method FindEdit(prev: Text, next: Text, caret: Option<int>) returns (e: Edit)
    ensures Tight(prev, next, caret, e)
  {
    hide SharesEnd, SharesStart, Tight;
    var shortest := Min(|prev|, |next|);
    var suffixMax := if caret.Some? then Min(shortest, Max(0, |next| - caret.value)) else shortest;
    var suffix := 0;
    SharesMore(prev, next, 0);
    while suffix < suffixMax && prev[|prev| - 1 - suffix] == next[|next| - 1 - suffix]
      invariant 0 <= suffix <= suffixMax && SharesEnd(prev, next, suffix)
    {
      SharesMore(prev, next, suffix);
      suffix := suffix + 1;
    }
    var prefix := 0;
    while prefix < shortest - suffix && prev[prefix] == next[prefix]
      invariant 0 <= prefix <= shortest - suffix && SharesStart(prev, next, prefix)
    {
      SharesMore(prev, next, prefix);
      prefix := prefix + 1;
    }
    e := Edit(prefix, |prev| - suffix, |next| - |prev|);
    FoundIsTight(prev, next, caret, prefix, suffix);
  }

  lemma FoundIsTight(prev: Text, next: Text, caret: Option<int>, prefix: nat, suffix: nat)
    requires SharesStart(prev, next, prefix) && SharesEnd(prev, next, suffix)
    requires suffix <= SuffixMax(prev, next, caret) && prefix <= Min(|prev|, |next|) - suffix
    requires suffix < SuffixMax(prev, next, caret) ==> prev[|prev| - 1 - suffix] != next[|next| - 1 - suffix]
    requires prefix < Min(|prev|, |next|) - suffix ==> prev[prefix] != next[prefix]
    ensures Tight(prev, next, caret, Edit(prefix, |prev| - suffix, |next| - |prev|))
  {
  }

  function PickEnd(p: Pick): int
    requires p.start.Some?
  {
    p.start.value + 1 + |p.name|
  }

  /** One pick after an edit: it stays, it shifts, or the edit touched it. */
  function RebaseOne(p: Pick, e: Edit): Option<Pick> {
    if p.start.None? || PickEnd(p) <= e.prefix then Some(p)
    else if p.start.value >= e.editEnd then Some(p.(start := Some(p.start.value + e.delta)))
    else None
  }

  function RebaseAll(picked: seq<Pick>, e: Edit): seq<Pick> {
    if picked == [] then []
    else (if RebaseOne(picked[0], e).Some? then [RebaseOne(picked[0], e).value] else []) + RebaseAll(picked[1..], e)
  }

  lemma {:induction false} RebaseAppend(a: seq<Pick>, b: seq<Pick>, e: Edit)
    ensures RebaseAll(a + b, e) == RebaseAll(a, e) + RebaseAll(b, e)
  {
    if a == [] {
      assert a + b == b;
    } else {
      RebaseAppend(a[1..], b, e);
      assert (a + b)[1..] == a[1..] + b;
    }
  }

  lemma {:induction false} RebaseNoneMoved(picked: seq<Pick>, e: Edit)
    requires forall p :: p in picked ==> RebaseOne(p, e) == Some(p)
    ensures RebaseAll(picked, e) == picked
  {
    if picked != [] { RebaseNoneMoved(picked[1..], e); }
  }

  /** Every positioned pick stands over its own "@Name". */
  predicate OverNames(text: Text, picked: seq<Pick>) {
    forall p :: p in picked && p.start.Some? ==> StartsAt(text, Needle(p.name), p.start.value)
  }

  /** No two positioned picks share a character. */
  predicate Disjoint(picked: seq<Pick>) {
    forall i, j :: 0 <= i < j < |picked| ==> ApartPicks(picked[i], picked[j])
  }

  lemma RebaseOneStands(prev: Text, next: Text, e: Edit, p: Pick)
    requires Explains(prev, next, e) && p.start.Some? && StartsAt(prev, Needle(p.name), p.start.value)
    requires RebaseOne(p, e).Some?
    ensures var q := RebaseOne(p, e).value;
      q.id == p.id && q.name == p.name && q.start.Some? && StartsAt(next, Needle(q.name), q.start.value)
  {
    var at, end := p.start.value, PickEnd(p);
    if end <= e.prefix {
      assert prev[at..end] == prev[..e.prefix][at..end] == next[..e.prefix][at..end] == next[at..end];
    } else {
      var off := e.editEnd;
      assert prev[at..end] == prev[off..][at - off..end - off];
      assert next[at + e.delta..end + e.delta] == next[off + e.delta..][at - off..end - off];
    }
  }

  lemma {:induction false} RebaseFrom(picked: seq<Pick>, e: Edit, k: int)
    requires 0 <= k < |RebaseAll(picked, e)|
    ensures exists i :: 0 <= i < |picked| && RebaseOne(picked[i], e) == Some(RebaseAll(picked, e)[k])
  {
    hide RebaseOne;
    var kept := RebaseOne(picked[0], e).Some?;
    if !kept || k > 0 {
      RebaseFrom(picked[1..], e, if kept then k - 1 else k);
      var i :| 0 <= i < |picked[1..]| && RebaseOne(picked[1..][i], e) == Some(RebaseAll(picked, e)[k]);
      assert picked[i + 1] == picked[1..][i];
    }
  }

  predicate ApartPicks(p: Pick, q: Pick) {
    p.start.Some? && q.start.Some? ==> PickEnd(p) <= q.start.value || PickEnd(q) <= p.start.value
  }

  lemma RebasedApart(prev: Text, next: Text, e: Edit, p: Pick, q: Pick)
    requires Explains(prev, next, e) && ApartPicks(p, q) && RebaseOne(p, e).Some? && RebaseOne(q, e).Some?
    ensures ApartPicks(RebaseOne(p, e).value, RebaseOne(q, e).value)
  {
  }

  lemma {:induction false} RebaseDisjoint(prev: Text, next: Text, picked: seq<Pick>, e: Edit)
    requires Explains(prev, next, e) && Disjoint(picked)
    ensures Disjoint(RebaseAll(picked, e))
  {
    hide Explains, RebaseOne;
    if picked != [] {
      var rest := RebaseAll(picked[1..], e);
      TailDisjoint(picked);
      RebaseDisjoint(prev, next, picked[1..], e);
      if RebaseOne(picked[0], e).Some? {
        forall j | 0 <= j < |rest| ensures ApartPicks(RebaseOne(picked[0], e).value, rest[j]) {
          RebaseFrom(picked[1..], e, j);
          var k :| 0 <= k < |picked[1..]| && RebaseOne(picked[1..][k], e) == Some(rest[j]);
          assert picked[k + 1] == picked[1..][k];
          RebasedApart(prev, next, e, picked[0], picked[k + 1]);
        }
        DisjointCons(RebaseOne(picked[0], e).value, rest);
      }
    }
  }

  lemma DisjointCons(p: Pick, rest: seq<Pick>)
    requires Disjoint(rest) && forall j :: 0 <= j < |rest| ==> ApartPicks(p, rest[j])
    ensures Disjoint([p] + rest)
  {
  }

  /** What one edit leaves: the picks not touched, still over their names, still disjoint. */
  lemma RebaseKeeps(prev: Text, next: Text, picked: seq<Pick>, e: Edit)
    requires Explains(prev, next, e) && OverNames(prev, picked)
    ensures OverNames(next, RebaseAll(picked, e))
    ensures Disjoint(picked) ==> Disjoint(RebaseAll(picked, e))
    ensures forall q :: q in RebaseAll(picked, e) ==> exists p :: p in picked && p.id == q.id && p.name == q.name
  {
    hide StartsAt, Explains, Disjoint, RebaseAll;
    if Disjoint(picked) { RebaseDisjoint(prev, next, picked, e); }
    var out := RebaseAll(picked, e);
    forall k | 0 <= k < |out|
      ensures out[k].start.Some? ==> StartsAt(next, Needle(out[k].name), out[k].start.value)
      ensures exists p :: p in picked && p.id == out[k].id && p.name == out[k].name
    {
      RebaseFrom(picked, e, k);
      var i :| 0 <= i < |picked| && RebaseOne(picked[i], e) == Some(out[k]);
      assert picked[i] in picked;
      if picked[i].start.Some? { RebaseOneStands(prev, next, e, picked[i]); }
    }
  }

  lemma TailDisjoint(picked: seq<Pick>)
    requires picked != [] && Disjoint(picked)
    ensures Disjoint(picked[1..])
  {
    hide ApartPicks;
    forall i, j | 0 <= i < j < |picked[1..]| ensures ApartPicks(picked[1..][i], picked[1..][j]) {
      assert picked[1..][i] == picked[i + 1] && picked[1..][j] == picked[j + 1];
    }
  }

  /**
   * `rebaseMentions`: the picks after one change of the text, with or without the caret's place;
   * `e` is the edit they were moved by.
   */
  method RebaseMentions(prev: Text, next: Text, picked: seq<Pick>, caret: Option<int>) returns (out: seq<Pick>, e: Edit)
    ensures Explains(prev, next, e)
    ensures prev != next && (exists p :: p in picked && p.start.Some?) ==> Tight(prev, next, caret, e)
    ensures out == if prev == next then picked else RebaseAll(picked, e)
  {
    if prev == next || forall p :: p in picked ==> p.start.None? {
      e := SomeEdit(prev, next);
      if prev != next { RebaseNoneMoved(picked, e); }
      return picked, e;
    }
    var edit := FindEdit(prev, next, caret);
    e := edit;
    var changed := false;
    out := [];
    for k := 0 to |picked|
      invariant out == RebaseAll(picked[..k], edit)
      invariant !changed ==> forall j :: 0 <= j < k ==> RebaseOne(picked[j], edit) == Some(picked[j])
    {
      RebaseAppend(picked[..k], [picked[k]], edit);
      assert picked[..k + 1] == picked[..k] + [picked[k]];
      var p := picked[k];
      if p.start.None? || PickEnd(p) <= edit.prefix {
        out := out + [p];
      } else if p.start.value >= edit.editEnd {
        if edit.delta != 0 { changed := true; }
        out := out + [if edit.delta == 0 then p else p.(start := Some(p.start.value + edit.delta))];
      } else {
        changed := true;
      }
    }
    assert picked[..|picked|] == picked;
    if !changed {
      RebaseNoneMoved(picked, edit);
      out := picked;
    }
  }

  /** Everything replaced: the edit no pick without a place is touched by. */
  function SomeEdit(prev: Text, next: Text): (e: Edit)
    ensures Explains(prev, next, e)
  {
    Edit(0, |prev|, |next| - |prev|)
  }

  /**
   * With the caret right after the edit, a pick the edit didn't touch is never lost: replacing `y`
   * by `x` between `a` and `b` keeps every pick that lies in `a`, and every pick that lies in `b`.
   */
  lemma KeepsUntouched(a: Text, x: Text, y: Text, b: Text, p: Pick, e: Edit)
    requires Tight(a + y + b, a + x + b, Some(|a| + |x|), e) && p.start.Some?
    ensures PickEnd(p) <= |a| ==> RebaseOne(p, e) == Some(p)
    ensures |a| + |y| <= p.start.value ==> RebaseOne(p, e) == Some(p.(start := Some(p.start.value + |x| - |y|)))
  {
    var prev, next := a + y + b, a + x + b;
    var suffix := |prev| - e.editEnd;
    forall k | |a| + |y| <= k < |prev| ensures prev[k] == next[k + |x| - |y|] {}
    assert suffix == |b|;
    forall k | 0 <= k < |a| ensures prev[k] == next[k] {}
  }

  datatype Change = Change(next: Text, caret: Option<int>)

  /**
   * A whole session: over any sequence of edits, with any caret hints, every positioned pick that
   * is kept still stands over its "@Name" in the current text, and picks that were disjoint stay so.
   */
  method Session(text0: Text, picked0: seq<Pick>, changes: seq<Change>) returns (text: Text, picked: seq<Pick>)
    requires OverNames(text0, picked0) && Disjoint(picked0)
    ensures text == if changes == [] then text0 else changes[|changes| - 1].next
    ensures OverNames(text, picked) && Disjoint(picked)
    ensures forall q :: q in picked ==> exists p :: p in picked0 && p.id == q.id && p.name == q.name
  {
    hide OverNames, Disjoint, Explains, RebaseAll;
    text, picked := text0, picked0;
    for k := 0 to |changes|
      invariant text == if k == 0 then text0 else changes[k - 1].next
      invariant OverNames(text, picked) && Disjoint(picked)
      invariant forall q :: q in picked ==> exists p :: p in picked0 && p.id == q.id && p.name == q.name
    {
      ghost var before := picked;
      ghost var e;
      picked, e := RebaseMentions(text, changes[k].next, picked, changes[k].caret);
      RebaseKeeps(text, changes[k].next, before, e);
      forall q | q in picked ensures exists p :: p in picked0 && p.id == q.id && p.name == q.name {
        var b :| b in before && b.id == q.id && b.name == q.name;
      }
      text := changes[k].next;
    }
  }

  // ---------------------------------------------------------------------------------------------
  // Cutting a body
  // ---------------------------------------------------------------------------------------------

  /** s.lastIndexOf("<", from): the last "<" at or before `from` (a negative `from` counts as 0). */
  function LastLt(s: Text, from: int): (r: int)
    requires from < |s|
    ensures r == -1 || (0 <= r < |s| && r <= Max(0, from) && s[r] == LT)
    ensures forall k :: 0 <= k <= from && s[k] == LT ==> k <= r
    decreases from
  {
    if s == [] then -1
    else if from <= 0 then (if s[0] == LT then 0 else -1)
    else if s[from] == LT then from else LastLt(s, from - 1)
  }

  /** A cut at `end` falls inside no <@id> or <#id>. */
  predicate CutsNoToken(s: Text, end: int) {
    forall p :: ChatFormatInline.TokenAt(s, p) ==> !(p < end < p + TOKEN_LEN)
  }

  lemma TokenHasOneLt(s: Text, p: int, q: int)
    requires ChatFormatInline.TokenAt(s, p) && p < q < p + TOKEN_LEN
    ensures s[q] != LT
  {
    if 2 <= q - p < 38 { assert s[p + 2..p + 38][q - p - 2] == s[q]; }
  }

  ghost predicate IsCut(body: Text, end: int, hides: Text -> bool, r: Text) {
    0 <= end <= |body| && CutsNoToken(body, end) && !SplitsPair(body, end)
        && r == body[..end] + if hides(body[..end]) then [BAR, BAR] else []
  }

  /**
   * `cutBody`: a preview that fits, is a prefix of the body (with a spoiler it runs into closed), and cuts through no
   * token and no character.
   */
  method CutBody(body: Text, max: nat, hides: Text -> bool) returns (r: Text)
    requires !hides([])
    ensures |body| <= max ==> r == body
    ensures |r| <= max
    ensures |body| > max ==> exists end :: IsCut(body, end, hides, r)
  {
    if |body| <= max { return body; }
    var end := Max(0, max - 2);
    if end > 0 && IsHighSurrogate(body[end - 1]) { end := end - 1; }
    var lt := LastLt(body, end - 1);
    var whole := end;
    if lt != -1 && lt > end - TOKEN_LEN && ChatFormatInline.TokenAt(body, lt) { end := lt; }
    forall p | ChatFormatInline.TokenAt(body, p) ensures !(p < end < p + TOKEN_LEN) {
      if p < end < p + TOKEN_LEN {
        if end == lt { TokenHasOneLt(body, p, lt); }
        if end == whole && lt > p { TokenHasOneLt(body, p, lt); }
        assert false;
      }
    }
    var head := body[..end];
    r := if hides(head) then head + [BAR, BAR] else head;
    assert IsCut(body, end, hides, r);
  }
}
