/**
 * Decimal rendering of integers, as `int.ToString()` produces it when a port
 * number is spliced into a channel name, a URL or a presence-mutex name, and
 * the parser that undoes it.
 */
module Decimal {

  /** The character for a decimal digit. */
  function DigitChar(d: nat): (c: char)
    requires d < 10
    ensures '0' <= c <= '9' && c as int - '0' as int == d
  {
    ('0' as int + d) as char
  }

  /** A non-empty run of decimal digits. */
  predicate IsDigits(s: string)
  {
    |s| > 0 && forall i :: 0 <= i < |s| ==> '0' <= s[i] <= '9'
  }

  /** A decimal numeral: digits, optionally preceded by a minus sign. */
  predicate IsNumeral(s: string)
  {
    IsDigits(s) || (|s| > 1 && s[0] == '-' && IsDigits(s[1..]))
  }

  /** The digits of `n`, most significant first, without leading zeros. */
  function NatDigits(n: nat): string
  {
    if n < 10 then [DigitChar(n)] else NatDigits(n / 10) + [DigitChar(n % 10)]
  }

  /** `n.ToString()`: a minus sign for negative numbers, then the digits of the magnitude. */
  function ToDecimal(n: int): string
  {
    if n < 0 then "-" + NatDigits(-n) else NatDigits(n)
  }

  /** A rendering is a numeral, unsigned exactly for non-negative numbers, and holds no slash. */
  lemma ToDecimalShape(n: int)
    ensures IsNumeral(ToDecimal(n))
    ensures n >= 0 <==> IsDigits(ToDecimal(n))
    ensures '/' !in ToDecimal(n) && '\\' !in ToDecimal(n)
  {
    NatDigitsAreDigits(if n < 0 then -n else n);
  }

  /** The value of a run of decimal digits. */
  function DigitsValue(s: string): nat
    requires forall i :: 0 <= i < |s| ==> '0' <= s[i] <= '9'
  {
    if s == [] then 0 else DigitsValue(s[..|s| - 1]) * 10 + (s[|s| - 1] as int - '0' as int)
  }

  /** The integer a decimal numeral denotes. */
  function ParseDecimal(s: string): int
    requires IsNumeral(s)
  {
    if s[0] == '-' then -(DigitsValue(s[1..]) as int) else DigitsValue(s)
  }

  /** The rendering of a natural number is a non-empty run of digits. */
  lemma {:induction false} NatDigitsAreDigits(n: nat)
    ensures IsDigits(NatDigits(n))
  {
    if n >= 10 {
      NatDigitsAreDigits(n / 10);
    }
  }

  lemma {:induction false} NatDigitsRoundTrip(n: nat)
    ensures IsDigits(NatDigits(n)) && DigitsValue(NatDigits(n)) == n
  {
    NatDigitsAreDigits(n);
    if n >= 10 {
      NatDigitsRoundTrip(n / 10);
      var s := NatDigits(n);
      assert s[..|s| - 1] == NatDigits(n / 10);
    }
  }

  /** Parsing the rendering of `n` gives back `n`. */
  lemma ToDecimalRoundTrip(n: int)
    ensures IsNumeral(ToDecimal(n)) && ParseDecimal(ToDecimal(n)) == n
  {
    ToDecimalShape(n);
    if n < 0 {
      NatDigitsRoundTrip(-n);
      assert ToDecimal(n)[1..] == NatDigits(-n);
    } else {
      NatDigitsRoundTrip(n);
    }
  }

  /** Distinct integers have distinct renderings. */
  lemma ToDecimalInjective(a: int, b: int)
    requires ToDecimal(a) == ToDecimal(b)
    ensures a == b
  {
    ToDecimalRoundTrip(a);
    ToDecimalRoundTrip(b);
  }
}
