/**
 * Decimal rendering of touch identifiers.
 *
 * A touch identifier is a non-negative integer, and `identifier.toString()`
 * renders it in base 10 without leading zeros. `NatToString` is that
 * rendering; `ParseNat` is its inverse on canonical digit strings, and the
 * two are proved to form a bijection between `nat` and canonical strings,
 * which is what makes stringified identifiers as distinct as the numbers.
 */
module Decimal {
  import opened Wrappers

  predicate IsDigit(c: char) {
    '0' <= c <= '9'
  }

  predicate AllDigits(s: string) {
    forall i :: 0 <= i < |s| ==> IsDigit(s[i])
  }

  /** A string that `NatToString` can produce: digits only, at least one, no leading zero. */
  predicate IsCanonical(s: string) {
    |s| >= 1 && AllDigits(s) && (s[0] == '0' ==> |s| == 1)
  }

  function DigitValue(c: char): (d: nat)
    requires IsDigit(c)
    ensures d < 10
  {
    c as int - '0' as int
  }

  function DigitChar(d: nat): (c: char)
    requires d < 10
    ensures IsDigit(c) && DigitValue(c) == d
  {
    ('0' as int + d) as char
  }

  /** The base-10 rendering of `n`, most significant digit first. */
  function NatToString(n: nat): (s: string)
    ensures IsCanonical(s)
    ensures s[0] == '0' <==> n == 0
    decreases n
  {
    if n < 10 then [DigitChar(n)] else NatToString(n / 10) + [DigitChar(n % 10)]
  }

  /** The number a digit string denotes (leading zeros contribute nothing). */
  function DigitsValue(s: string): nat
    requires AllDigits(s)
    decreases |s|
  {
    if s == [] then 0 else 10 * DigitsValue(s[..|s| - 1]) + DigitValue(s[|s| - 1])
  }

  /** Reads back a canonical decimal string; anything else is rejected. */
  function ParseNat(s: string): (r: Option<nat>)
    ensures r.Some? <==> IsCanonical(s)
  {
    if IsCanonical(s) then Some(DigitsValue(s)) else None
  }

  lemma {:induction false} DigitsValueToString(n: nat)
    ensures DigitsValue(NatToString(n)) == n
    decreases n
  {
    if n >= 10 {
      var p := NatToString(n / 10);
      var s := NatToString(n);
      assert s[..|s| - 1] == p;
      DigitsValueToString(n / 10);
    }
  }

  lemma {:induction false} LeadingNonZeroIsPositive(s: string)
    requires |s| >= 1 && AllDigits(s) && s[0] != '0'
    ensures DigitsValue(s) >= 1
    decreases |s|
  {
    if |s| > 1 {
      LeadingNonZeroIsPositive(s[..|s| - 1]);
    }
  }

  lemma {:induction false} NatToStringDigitsValue(s: string)
    requires IsCanonical(s)
    ensures NatToString(DigitsValue(s)) == s
    decreases |s|
  {
    if |s| > 1 {
      var p := s[..|s| - 1];
      var c := s[|s| - 1];
      LeadingNonZeroIsPositive(p);
      NatToStringDigitsValue(p);
      var n := DigitsValue(s);
      assert n / 10 == DigitsValue(p) && n % 10 == DigitValue(c);
      assert DigitChar(DigitValue(c)) == c;
      assert s == p + [c];
    } else {
      assert DigitChar(DigitValue(s[0])) == s[0];
    }
  }

  /** Rendering and parsing are mutually inverse, in both directions. */
  lemma ParseNatIsInverse(n: nat, s: string)
    ensures ParseNat(s) == Some(n) <==> NatToString(n) == s
  {
    if NatToString(n) == s {
      DigitsValueToString(n);
    }
    if ParseNat(s) == Some(n) {
      NatToStringDigitsValue(s);
    }
  }

  /** Distinct numbers render as distinct strings. */
  lemma NatToStringInjective(m: nat, n: nat)
    ensures NatToString(m) == NatToString(n) <==> m == n
  {
    DigitsValueToString(m);
    DigitsValueToString(n);
  }
}
