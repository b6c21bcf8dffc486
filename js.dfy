/**
 * The slice of JavaScript and Python semantics that the backend, the frontend
 * and the analysis server rely on: JS numbers with NaN and infinities, the
 * `String.prototype.trim` whitespace set, ASCII lower-casing, substring search,
 * `Math.round`, Python's `int()` truncation, the 32-bit wrap of `x | 0`, and
 * decimal rendering of integers.
 */
module Js {

  datatype Option<+T> = None | Some(value: T)

  /** A JavaScript number: a real value, NaN, or one of the two infinities. */
  datatype Num = Finite(v: real) | NaN | PosInf | NegInf

  /** `n >= r` for a real bound `r`: false for NaN, true for +Infinity. */
  predicate Ge(n: Num, r: real) {
    match n
    case Finite(v) => v >= r
    case PosInf => true
    case _ => false
  }

  /** `n <= r` for a real bound `r`: false for NaN, true for -Infinity. */
  predicate Le(n: Num, r: real) {
    match n
    case Finite(v) => v <= r
    case NegInf => true
    case _ => false
  }

  /** `a < b` on JS numbers: any comparison with NaN is false. */
  predicate Lt(a: Num, b: Num) {
    match (a, b)
    case (Finite(x), Finite(y)) => x < y
    case (NegInf, Finite(_)) => true
    case (NegInf, PosInf) => true
    case (Finite(_), PosInf) => true
    case _ => false
  }

  function Abs(x: real): (r: real)
    ensures r >= 0.0 && (r == x || r == -x)
  {
    if x < 0.0 then -x else x
  }

  /** `Math.abs(a - b)` where `a` is finite. */
  function Distance(a: real, b: Num): (d: Num)
    ensures b.Finite? ==> d.Finite? && d.v >= 0.0
    ensures b.PosInf? || b.NegInf? ==> d.PosInf?
    ensures b.NaN? ==> d.NaN?
  {
    match b
    case Finite(y) => Finite(Abs(a - y))
    case NaN => NaN
    case _ => PosInf
  }

  // ---------------------------------------------------------------------------
  // Whitespace and trim

  /** The characters `String.prototype.trim` and the regex class `\s` treat as
      white space: the ECMAScript WhiteSpace and LineTerminator productions. */
  predicate IsSpace(c: char) {
    || c in {'\t', '\n', '\U{000B}', '\U{000C}', '\r', ' ', '\U{00A0}', '\U{1680}'}
    || ('\U{2000}' <= c <= '\U{200A}')
    || c in {'\U{2028}', '\U{2029}', '\U{202F}', '\U{205F}', '\U{3000}', '\U{FEFF}'}
  }

  predicate AllSpace(s: string) {
    forall k :: 0 <= k < |s| ==> IsSpace(s[k])
  }

  /** Number of leading white-space characters. */
  function LeadingSpace(s: string): (i: nat)
    ensures i <= |s|
    ensures AllSpace(s[..i])
    ensures i < |s| ==> !IsSpace(s[i])
  {
    if |s| == 0 || !IsSpace(s[0]) then 0
    else
      var i' := LeadingSpace(s[1..]);
      assert s[..i' + 1] == [s[0]] + s[1..][..i'];
      i' + 1
  }

  /** Length of `s` without its trailing white space. */
  function TrailingEnd(s: string): (j: nat)
    ensures j <= |s|
    ensures AllSpace(s[j..])
    ensures j > 0 ==> !IsSpace(s[j - 1])
  {
    if |s| == 0 || !IsSpace(s[|s| - 1]) then |s|
    else
      var j := TrailingEnd(s[..|s| - 1]);
      assert s[j..] == s[..|s| - 1][j..] + [s[|s| - 1]];
      j
  }

  /** `s.trim()`: the longest infix of `s` that neither starts nor ends with
      white space, obtained by dropping only white space. */
  function Trim(s: string): (r: string)
    ensures |r| <= |s|
    ensures r == [] || (!IsSpace(r[0]) && !IsSpace(r[|r| - 1]))
  {
    var i := LeadingSpace(s);
    var j := TrailingEnd(s[i..]);
    var r := s[i..][..j];
    assert r != [] ==> r[0] == s[i] && r[|r| - 1] == s[i..][j - 1];
    r
  }

  /** The trim is what is left after dropping white space at both ends. */
  lemma TrimIsInfix(s: string)
    ensures exists i :: 0 <= i <= |s| - |Trim(s)| && s[i..i + |Trim(s)|] == Trim(s)
                        && AllSpace(s[..i]) && AllSpace(s[i + |Trim(s)|..])
  {
    var i := LeadingSpace(s);
    var j := TrailingEnd(s[i..]);
    var r := s[i..][..j];
    assert s[i..i + |r|] == r;
    assert s[i + |r|..] == s[i..][j..];
  }

  lemma {:induction false} TrimEmptyIffAllSpace(s: string)
    ensures Trim(s) == [] <==> AllSpace(s)
  {
    TrimIsInfix(s);
    if Trim(s) == [] {
      var k :| 0 <= k <= |s| && s[k..k] == [] && AllSpace(s[..k]) && AllSpace(s[k..]);
      forall m | 0 <= m < |s| ensures IsSpace(s[m]) {
        if m < k { assert s[m] == s[..k][m]; } else { assert s[m] == s[k..][m - k]; }
      }
    }
  }

  /** A string with no leading or trailing white space is its own trim. */
  lemma {:induction false} TrimOfTrimmed(s: string)
    requires s == [] || (!IsSpace(s[0]) && !IsSpace(s[|s| - 1]))
    ensures Trim(s) == s
  {
    if s != [] {
      assert LeadingSpace(s) == 0;
      assert s[0..] == s;
      assert TrailingEnd(s) == |s|;
    }
  }

  lemma TrimIdempotent(s: string)
    ensures Trim(Trim(s)) == Trim(s)
  {
    TrimOfTrimmed(Trim(s));
  }

  /** An optional string read with `||` or `!`: absent and empty are both
      false. */
  predicate Truthy(x: Option<string>) {
    x.Some? && x.value != []
  }

  /** `!x || x.trim().length === 0` is false: a string with a non-blank
      character. */
  predicate HasText(x: Option<string>) {
    x.Some? && Trim(x.value) != []
  }

  // ---------------------------------------------------------------------------
  // Case and search

  function LowerChar(c: char): char {
    if 'A' <= c <= 'Z' then (c as int + 32) as char else c
  }

  /** `s.toLowerCase()` restricted to ASCII letters. */
  function ToLower(s: string): (r: string)
    ensures |r| == |s|
    ensures forall k :: 0 <= k < |s| ==> r[k] == LowerChar(s[k])
  {
    seq(|s|, k requires 0 <= k < |s| => LowerChar(s[k]))
  }

  /** `s.includes(sub)`. */
  predicate Contains(s: string, sub: string)
    decreases |s|
  {
    sub <= s || (|s| > 0 && Contains(s[1..], sub))
  }

  /** A text cannot contain a string with a character it lacks. */
  lemma {:induction false} NotContainsMissingChar(s: string, sub: string, c: char)
    requires c in sub && c !in s
    ensures !Contains(s, sub)
    decreases |s|
  {
    if |s| > 0 {
      NotContainsMissingChar(s[1..], sub, c);
    }
  }

  /** `s.indexOf(c)`: the first position of `c`, or -1. */
  function IndexOf(s: string, c: char): (r: int)
    ensures -1 <= r < |s|
    ensures r == -1 <==> c !in s
    ensures r >= 0 ==> s[r] == c && c !in s[..r]
  {
    if |s| == 0 then -1
    else if s[0] == c then 0
    else
      var r := IndexOf(s[1..], c);
      if r == -1 then -1
      else
        assert s[..r + 1] == [s[0]] + s[1..][..r];
        r + 1
  }

  // ---------------------------------------------------------------------------
  // Numbers

  /** `Math.round(x)`: the nearest integer, halves rounded towards +Infinity. */
  function Round(x: real): (n: int)
    ensures x - 0.5 < n as real <= x + 0.5
  {
    (x + 0.5).Floor
  }

  /** Python's `int(x)`: truncation towards zero. */
  function Trunc(x: real): (n: int)
    ensures x >= 0.0 ==> 0 <= n && n as real <= x < n as real + 1.0
    ensures x < 0.0 ==> n <= 0 && n as real - 1.0 < x <= n as real
  {
    if x >= 0.0 then x.Floor else -((-x).Floor)
  }

  const TWO_32: int := 0x1_0000_0000
  const TWO_31: int := 0x8000_0000

  /** `n | 0`: the signed 32-bit integer congruent to `n` modulo 2^32. */
  function Wrap32(n: int): (r: int)
    ensures -TWO_31 <= r < TWO_31
    ensures (n - r) % TWO_32 == 0
  {
    var m := n % TWO_32;
    if m >= TWO_31 then m - TWO_32 else m
  }

  function IntAbs(n: int): (r: nat)
    ensures r == n || r == -n
  {
    if n < 0 then -n else n
  }

  // ---------------------------------------------------------------------------
  // Decimal rendering, as in template literals `${n}`

  function DigitChar(d: nat): (c: char)
    requires d < 10
    ensures '0' <= c <= '9'
  {
    ['0', '1', '2', '3', '4', '5', '6', '7', '8', '9'][d]
  }

  function NatToString(n: nat): (s: string)
    ensures |s| >= 1
    ensures forall k :: 0 <= k < |s| ==> '0' <= s[k] <= '9'
    ensures s[|s| - 1] == DigitChar(n % 10)
    decreases n
  {
    if n < 10 then [DigitChar(n)] else NatToString(n / 10) + [DigitChar(n % 10)]
  }

  function IntToString(n: int): (s: string)
    ensures |s| >= 1
  {
    if n < 0 then "-" + NatToString(-n) else NatToString(n)
  }

  lemma DigitCharInjective(a: nat, b: nat)
    requires a < 10 && b < 10 && DigitChar(a) == DigitChar(b)
    ensures a == b
  {
  }

  /** Distinct numbers render as distinct decimal strings. */
  lemma {:induction false} NatToStringInjective(a: nat, b: nat)
    requires NatToString(a) == NatToString(b)
    ensures a == b
    decreases a
  {
    var s := NatToString(a);
    DigitCharInjective(a % 10, b % 10);
    if a >= 10 && b >= 10 {
      assert NatToString(a / 10) == s[..|s| - 1] == NatToString(b / 10);
      NatToStringInjective(a / 10, b / 10);
    }
  }
}
