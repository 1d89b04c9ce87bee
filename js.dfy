/**
 * The JavaScript built-ins that the core relies on, restated on Dafny's
 * unbounded integers and `seq<char>` strings: String.prototype.trim,
 * toLowerCase and includes, number-to-string conversion, Math.round of a
 * quotient and the truncating `%` operator.
 */
module Js {

  /** The white-space characters removed by `trim` (the ASCII ones, NBSP and BOM). */
  predicate IsSpace(c: char) {
    c == ' ' || c == '\t' || c == '\n' || c == '\r' || c == '\U{000B}' || c == '\U{000C}'
    || c == '\U{00A0}' || c == '\U{FEFF}'
  }

  /** Number of white-space characters at the start of `s`. */
  function LeadingSpaces(s: string): (k: nat)
    ensures k <= |s|
    ensures forall i :: 0 <= i < k ==> IsSpace(s[i])
    ensures k < |s| ==> !IsSpace(s[k])
  {
    if s == [] || !IsSpace(s[0]) then 0 else 1 + LeadingSpaces(s[1..])
  }

  /** Number of white-space characters at the end of `s`. */
  function TrailingSpaces(s: string): (k: nat)
    ensures k <= |s|
    ensures forall i :: |s| - k <= i < |s| ==> IsSpace(s[i])
    ensures k < |s| ==> !IsSpace(s[|s| - 1 - k])
  {
    if s == [] || !IsSpace(s[|s| - 1]) then 0 else 1 + TrailingSpaces(s[..|s| - 1])
  }

  /** `s.trim()`: `s` without its leading and trailing white space. */
  function Trim(s: string): (r: string)
    ensures r == [] <==> forall i :: 0 <= i < |s| ==> IsSpace(s[i])
    ensures r != [] ==> !IsSpace(r[0]) && !IsSpace(r[|r| - 1])
    ensures exists i, j :: 0 <= i <= j <= |s| && r == s[i..j]
                          && (forall k :: 0 <= k < i ==> IsSpace(s[k]))
                          && (forall k :: j <= k < |s| ==> IsSpace(s[k]))
  {
    var i := LeadingSpaces(s);
    if i == |s| then
      assert s[|s|..|s|] == [];
      []
    else
      var j := |s| - TrailingSpaces(s);
      assert i < j;
      s[i..j]
  }

  /** `toLowerCase` on one character: ASCII letters only. */
  function LowerChar(c: char): (r: char)
    ensures 'A' <= c <= 'Z' ==> 'a' <= r <= 'z'
    ensures !('A' <= c <= 'Z') ==> r == c
  {
    if 'A' <= c <= 'Z' then (c as int - 'A' as int + 'a' as int) as char else c
  }

  /** `s.toLowerCase()`. */
  function ToLower(s: string): (r: string)
    ensures |r| == |s|
    ensures forall i :: 0 <= i < |s| ==> r[i] == LowerChar(s[i])
  {
    seq(|s|, i requires 0 <= i < |s| => LowerChar(s[i]))
  }

  /** `s.includes(q)`: `q` occurs in `s` as a contiguous substring. */
  predicate Includes(s: string, q: string): (b: bool)
    ensures b ==> |q| <= |s|
  {
    exists i :: 0 <= i <= |s| && OccursAt(s, q, i)
  }

  /** `q` occurs in `s` starting at index `i`. */
  predicate OccursAt(s: string, q: string, i: nat) {
    i + |q| <= |s| && s[i..i + |q|] == q
  }

  /** Every string includes the empty string. */
  lemma IncludesEmpty(s: string)
    ensures Includes(s, [])
  {
    assert OccursAt(s, [], 0);
  }

  predicate IsDigit(c: char) {
    '0' <= c <= '9'
  }

  function DigitChar(d: nat): (c: char)
    requires d < 10
    ensures IsDigit(c)
  {
    ('0' as int + d) as char
  }

  function DigitValue(c: char): (d: nat)
    requires IsDigit(c)
    ensures d < 10
  {
    c as int - '0' as int
  }

  /** The decimal notation JavaScript gives a non-negative integer. */
  function NatToString(n: nat): (r: string)
    ensures r != []
    ensures forall i :: 0 <= i < |r| ==> IsDigit(r[i])
    ensures n > 0 ==> r[0] != '0'
  {
    if n < 10 then [DigitChar(n)] else NatToString(n / 10) + [DigitChar(n % 10)]
  }

  /** The decimal notation JavaScript gives any integer (`${n}`). */
  function IntToString(n: int): (r: string)
    ensures r != []
    ensures n >= 0 ==> r == NatToString(n)
    ensures n < 0 ==> r == "-" + NatToString(-n)
  {
    if n < 0 then "-" + NatToString(-n) else NatToString(n)
  }

  predicate AllDigits(s: string) {
    forall i :: 0 <= i < |s| ==> IsDigit(s[i])
  }

  /** The value of a string of decimal digits. */
  function ParseNat(s: string): nat
    requires AllDigits(s)
  {
    if s == [] then 0 else 10 * ParseNat(s[..|s| - 1]) + DigitValue(s[|s| - 1])
  }

  /** Reading back the decimal notation of `n` gives `n`. */
  lemma {:induction false} ParseNatToString(n: nat)
    ensures ParseNat(NatToString(n)) == n
  {
    var r := NatToString(n);
    if n >= 10 {
      assert r[..|r| - 1] == NatToString(n / 10);
      ParseNatToString(n / 10);
    }
  }

  /** JavaScript's `a % b` for a positive `b`: the remainder takes the sign of `a`. */
  function TruncRem(a: int, b: int): (r: int)
    requires b > 0
    ensures a >= 0 ==> 0 <= r < b
    ensures a < 0 ==> -b < r <= 0
    ensures (if r < 0 then -r else r) == (if a < 0 then -a else a) % b
  {
    if a >= 0 then a % b else -((-a) % b)
  }

  /**
   * `Math.round(n / d)` for a positive `d`: the integer nearest to n/d,
   * halves rounded towards +infinity.
   */
  function RoundDiv(n: int, d: int): (r: int)
    requires d > 0
    ensures 2 * d * r <= 2 * n + d < 2 * d * (r + 1)
  {
    (2 * n + d) / (2 * d)
  }

  /** Multiplying by a positive factor keeps the order. */
  lemma MulMono(a: int, x: int, y: int)
    requires a > 0 && x <= y
    ensures a * x <= a * y
  {
    assert a * y - a * x == a * (y - x);
  }

  /** A rounded quotient lies between any whole bounds of the exact one. */
  lemma RoundDivBounds(n: int, d: int, lo: int, hi: int)
    requires d > 0 && d * lo <= n <= d * hi
    ensures lo <= RoundDiv(n, d) <= hi
  {
    var r := RoundDiv(n, d);
    if r > hi {
      MulMono(2 * d, hi + 1, r);
    }
    if r < lo {
      MulMono(2 * d, r + 1, lo);
    }
  }
}
