/** JavaScript strings as the sources see them: sequences of UTF-16 code units. */
module Texts {
  type Unit = u: int | 0 <= u < 0x1_0000
  type Text = seq<Unit>

  const NEWLINE: Unit := 10
  const RETURN: Unit := 13
  const SPACE: Unit := 32
  const BANG: Unit := 33
  const QUOTE: Unit := 34
  const HASH: Unit := 35
  const APOSTROPHE: Unit := 39
  const PAREN: Unit := 40
  const UNPAREN: Unit := 41
  const STAR: Unit := 42
  const PLUS: Unit := 43
  const COMMA: Unit := 44
  const DASH: Unit := 45
  const DOT: Unit := 46
  const SLASH: Unit := 47
  const COLON: Unit := 58
  const SEMI: Unit := 59
  const LT: Unit := 60
  const GT: Unit := 62
  const QUESTION: Unit := 63
  const AT: Unit := 64
  const BRACKET: Unit := 91
  const BACKSLASH: Unit := 92
  const UNDERSCORE: Unit := 95
  const TICK: Unit := 96
  const BRACE: Unit := 123
  const BAR: Unit := 124
  const TILDE: Unit := 126

  /** `\s`, and what `trim` strips: JavaScript's white space and line terminators. */
  predicate IsSpace(c: Unit) {
    9 <= c <= 13 || c == 32 || c == 0xA0 || c == 0x1680 || 0x2000 <= c <= 0x200A || c == 0x2028 || c == 0x2029
    || c == 0x202F || c == 0x205F || c == 0x3000 || c == 0xFEFF
  }

  /** What `.` in a regular expression doesn't match. */
  predicate IsLineEnd(c: Unit) {
    c == NEWLINE || c == RETURN || c == 0x2028 || c == 0x2029
  }

  predicate IsDigit(c: Unit) { 48 <= c <= 57 }

  /** `[A-Za-z0-9]` */
  predicate IsAlnum(c: Unit) { IsDigit(c) || 65 <= c <= 90 || 97 <= c <= 122 }

  /** The first half of a surrogate pair. */
  predicate IsHighSurrogate(c: Unit) { 0xD800 <= c <= 0xDBFF }

  predicate IsLowSurrogate(c: Unit) { 0xDC00 <= c <= 0xDFFF }

  /** The two halves of one character stand on either side of `at`. */
  predicate SplitsPair(s: Text, at: int) { 0 < at < |s| && IsHighSurrogate(s[at - 1]) && IsLowSurrogate(s[at]) }

  /** ASCII lower case: what `toLowerCase` does to a matched id. */
  function LowerUnit(c: Unit): Unit { if 65 <= c <= 90 then c + 32 else c }

  function Lower(s: Text): (r: Text)
    ensures |r| == |s|
  {
    seq(|s|, k requires 0 <= k < |s| => LowerUnit(s[k]))
  }

  /** s.startsWith(p, at) */
  predicate StartsAt(s: Text, p: Text, at: int) {
    0 <= at && at + |p| <= |s| && s[at..at + |p|] == p
  }

  predicate EndsWith(s: Text, p: Text) {
    |p| <= |s| && s[|s| - |p|..] == p
  }

  function TrimStart(s: Text): (r: Text)
    ensures |r| <= |s|
  {
    if s != [] && IsSpace(s[0]) then TrimStart(s[1..]) else s
  }

  function TrimEnd(s: Text): (r: Text)
    ensures |r| <= |s|
  {
    if s != [] && IsSpace(s[|s| - 1]) then TrimEnd(s[..|s| - 1]) else s
  }

  /** What trimStart leaves is the text from its first character that isn't white space. */
  lemma {:induction false} TrimStartMeans(s: Text)
    ensures var r := TrimStart(s);
      && r == s[|s| - |r|..]
      && (r != [] ==> !IsSpace(r[0]))
      && forall k :: 0 <= k < |s| - |r| ==> IsSpace(s[k])
  {
    if s != [] && IsSpace(s[0]) {
      TrimStartMeans(s[1..]);
      var n := |s| - |TrimStart(s)|;
      assert s[1..][n - 1..] == s[n..];
      forall k | 1 <= k < n ensures IsSpace(s[k]) { assert s[1..][k - 1] == s[k]; }
    }
  }

  /** What trimEnd leaves is the text up to its last character that isn't white space. */
  lemma {:induction false} TrimEndMeans(s: Text)
    ensures var r := TrimEnd(s);
      && r == s[..|r|]
      && (r != [] ==> !IsSpace(r[|r| - 1]))
      && forall k :: |r| <= k < |s| ==> IsSpace(s[k])
  {
    if s != [] && IsSpace(s[|s| - 1]) {
      var front := s[..|s| - 1];
      TrimEndMeans(front);
      var n := |TrimEnd(s)|;
      assert front[..n] == s[..n];
      forall k | n <= k < |s| ensures IsSpace(s[k]) {
        if k < |s| - 1 { assert front[k] == s[k]; }
      }
    }
  }

  function Trim(s: Text): Text { TrimEnd(TrimStart(s)) }

  /** s.replace(/\r\n?/g, "\n") */
  function NormalizeReturns(s: Text): Text {
    if s == [] then []
    else if s[0] == RETURN then
      [NEWLINE] + NormalizeReturns(if |s| > 1 && s[1] == NEWLINE then s[2..] else s[1..])
    else [s[0]] + NormalizeReturns(s[1..])
  }

  lemma Assoc<T>(a: seq<T>, b: seq<T>, c: seq<T>)
    ensures a + b + c == a + (b + c)
  {
  }

  lemma AppendTail<T>(x: seq<T>, y: seq<T>)
    requires x != []
    ensures (x + y)[0] == x[0] && (x + y)[1..] == x[1..] + y
  {
  }

  lemma ConsAppend<T>(a: seq<T>, b: seq<T>)
    requires a != []
    ensures a == [a[0]] + a[1..] && a + b == [a[0]] + (a[1..] + b)
  {
  }

  lemma AppendNothing<T>(a: seq<T>)
    ensures a + [] == a && [] + a == a
  {
  }

  /** String order: by code unit, a prefix first. */
  predicate TextLe(a: Text, b: Text) {
    a == [] || (b != [] && (a[0] < b[0] || (a[0] == b[0] && TextLe(a[1..], b[1..]))))
  }

  lemma {:induction false} TextOrder(a: Text, b: Text)
    ensures TextLe(a, b) || TextLe(b, a)
    ensures TextLe(a, b) && TextLe(b, a) ==> a == b
  {
    if a != [] && b != [] && a[0] == b[0] {
      TextOrder(a[1..], b[1..]);
      assert a == [a[0]] + a[1..] && b == [b[0]] + b[1..];
    }
  }
}
