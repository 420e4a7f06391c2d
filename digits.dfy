/**
 * Decimal digit runs: the greedy `\d+` match at the start of a string and
 * Python's `int()` on the matched run, restricted to ASCII digits.
 */
module Digits {

  predicate IsDigit(c: char) {
    '0' <= c <= '9'
  }

  predicate AllDigits(s: string) {
    forall k :: 0 <= k < |s| ==> IsDigit(s[k])
  }

  /** The value of one decimal digit character. */
  function DigitValue(c: char): (v: nat)
    requires IsDigit(c)
    ensures v < 10
  {
    c as int - '0' as int
  }

  /** The character for a digit value: the inverse of DigitValue. */
  function DigitChar(v: nat): (c: char)
    requires v < 10
    ensures IsDigit(c) && DigitValue(c) == v
  {
    ('0' as int + v) as char
  }

  /** `10^k`. */
  function Pow10(k: nat): (p: nat)
    ensures p >= 1
  {
    if k == 0 then 1 else 10 * Pow10(k - 1)
  }

  /**
   * What `re.match(r"(\d+)", s)` captures, or the empty string when it does
   * not match: the longest prefix of `s` made only of digits.
   */
  function LeadingDigits(s: string): (d: string)
    ensures |d| <= |s| && d == s[..|d|]
    ensures AllDigits(d)
    ensures |d| < |s| ==> !IsDigit(s[|d|])
  {
    if s != [] && IsDigit(s[0]) then
      var d := LeadingDigits(s[1..]);
      assert [s[0]] + d == s[..|d| + 1];
      [s[0]] + d
    else
      []
  }

  /**
   * The match is greedy: a string made of a digit run followed by text that
   * does not start with a digit matches exactly that run.
   */
  lemma LeadingDigitsOfRun(run: string, rest: string)
    requires AllDigits(run)
    requires rest == [] || !IsDigit(rest[0])
    ensures LeadingDigits(run + rest) == run
  {
    var s := run + rest;
    var d := LeadingDigits(s);
    if |run| < |s| {
      assert s[|run|] == rest[0];
    }
    assert |d| <= |run| ==> |d| == |run|;
    assert |d| == |run|;
    assert s[..|run|] == run;
  }

  /**
   * `int(d)` for a string of decimal digits, read most significant digit
   * first; it is below `10^|d|`.
   */
  function DigitsToNat(d: string): (n: nat)
    requires AllDigits(d)
    ensures n < Pow10(|d|)
  {
    if d == [] then 0
    else 10 * DigitsToNat(d[..|d| - 1]) + DigitValue(d[|d| - 1])
  }

  /** `str(n)`: the decimal numeral of `n`, with no leading zero unless `n == 0`. */
  function NatToDigits(n: nat): (d: string)
    ensures |d| >= 1 && AllDigits(d)
    ensures d[0] == '0' ==> n == 0
  {
    if n < 10 then [DigitChar(n)] else NatToDigits(n / 10) + [DigitChar(n % 10)]
  }

  /** `int(str(n)) == n`. */
  lemma {:induction false} DigitsToNatOfNatToDigits(n: nat)
    ensures DigitsToNat(NatToDigits(n)) == n
  {
    if n >= 10 {
      var d := NatToDigits(n);
      assert d[..|d| - 1] == NatToDigits(n / 10);
      DigitsToNatOfNatToDigits(n / 10);
    }
  }

  predicate AllZeros(z: string) {
    forall k :: 0 <= k < |z| ==> z[k] == '0'
  }

  lemma {:induction false} ZerosDenoteZero(z: string)
    requires AllZeros(z)
    ensures AllDigits(z) && DigitsToNat(z) == 0
  {
    if z != [] {
      ZerosDenoteZero(z[..|z| - 1]);
    }
  }

  /** Leading zeros do not change the number a digit run denotes. */
  lemma {:induction false} DigitsToNatIgnoresLeadingZeros(z: string, d: string)
    requires AllZeros(z) && AllDigits(d)
    ensures AllDigits(z + d) && DigitsToNat(z + d) == DigitsToNat(d)
  {
    if d == [] {
      assert z + d == z;
      ZerosDenoteZero(z);
    } else {
      var s := z + d;
      assert s[..|s| - 1] == z + d[..|d| - 1];
      DigitsToNatIgnoresLeadingZeros(z, d[..|d| - 1]);
    }
  }

  /** A digit run followed by newline-free text contains no newline. */
  lemma NoNewlineAfterRun(run: string, x: string)
    requires AllDigits(run) && '\n' !in x
    ensures '\n' !in run + x
  {
    forall k | 0 <= k < |run + x| ensures (run + x)[k] != '\n' {
      if k < |run| { assert (run + x)[k] == run[k]; } else { assert (run + x)[k] == x[k - |run|]; }
    }
  }
}
