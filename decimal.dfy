/**
 * Decimal text of integers and of money amounts.
 *
 * Money is kept as an integer number of cents, so `amount.toFixed(2)` of the
 * storefront becomes `FormatCents`, which is exact.
 */
module Decimal {
  import opened Wrappers

  predicate IsDigit(c: char) {
    '0' <= c <= '9'
  }

  predicate AllDigits(s: string) {
    forall i :: 0 <= i < |s| ==> IsDigit(s[i])
  }

  function DigitValue(c: char): (d: nat)
    requires IsDigit(c)
    ensures d < 10
  {
    c as int - '0' as int
  }

  function DigitChar(d: nat): (c: char)
    requires d < 10
    ensures IsDigit(c) && DigitValue(c) == d
  {
    ('0' as int + d) as char
  }

  /** Decimal rendering of a natural number, without leading zeros (`String(n)`). */
  function NatToString(n: nat): (s: string)
    ensures |s| > 0 && AllDigits(s)
    decreases n
  {
    if n < 10 then [DigitChar(n)] else NatToString(n / 10) + [DigitChar(n % 10)]
  }

  /** Decimal rendering of an integer, with a leading `-` when negative (`String(i)`). */
  function IntToString(i: int): (s: string)
    ensures |s| > 0 && (s[0] == '-' <==> i < 0)
    ensures i >= 0 ==> AllDigits(s)
  {
    if i < 0 then "-" + NatToString(-i) else NatToString(i)
  }

  /** Value of a string of decimal digits, most significant first. */
  function DigitsValue(s: string): nat
    requires AllDigits(s)
  {
    if s == [] then 0 else 10 * DigitsValue(s[..|s| - 1]) + DigitValue(s[|s| - 1])
  }

  /** Reading back the rendering of `n` gives `n`. */
  lemma {:induction false} NatToStringValue(n: nat)
    ensures DigitsValue(NatToString(n)) == n
  {
    if n >= 10 {
      NatToStringValue(n / 10);
      var s := NatToString(n / 10);
      assert (s + [DigitChar(n % 10)])[..|s|] == s;
    }
  }

  /** The rendering starts with `0` only for zero itself, which renders as "0". */
  lemma {:induction false} NatToStringLeadingDigit(n: nat)
    ensures NatToString(n)[0] == '0' <==> n == 0
    ensures n == 0 ==> NatToString(n) == "0"
  {
    if n >= 10 {
      NatToStringLeadingDigit(n / 10);
    }
  }

  /**
   * `(c / 100).toFixed(2)` for an amount of `c` cents: an optional `-`, the
   * whole units, a `.` and exactly two digits of cents.
   */
  function FormatCents(c: int): string {
    var m := if c < 0 then -c else c;
    (if c < 0 then "-" else "") + NatToString(m / 100) + "." + [DigitChar(m % 100 / 10), DigitChar(m % 10)]
  }

  /** Reads the `D.CC` shape, without sign, that `FormatCents` writes for a non-negative amount. */
  function ParseUnsignedCents(u: string): Option<nat> {
    if |u| < 4 || u[|u| - 3] != '.' then None
    else if AllDigits(u[..|u| - 3]) && AllDigits(u[|u| - 2..]) then
      Some(DigitsValue(u[..|u| - 3]) * 100 + DigitsValue(u[|u| - 2..]))
    else None
  }

  /** Reads the `[-]D.CC` shape that `FormatCents` writes. */
  function ParseCents(s: string): Option<int> {
    if |s| > 0 && s[0] == '-' then
      match ParseUnsignedCents(s[1..])
      case None => None
      case Some(m) => Some(-(m as int))
    else
      match ParseUnsignedCents(s)
      case None => None
      case Some(m) => Some(m as int)
  }

  lemma TwoDigitsValue(hi: nat, lo: nat)
    requires hi < 10 && lo < 10
    ensures DigitsValue([DigitChar(hi), DigitChar(lo)]) == 10 * hi + lo
  {
    var f := [DigitChar(hi), DigitChar(lo)];
    assert f[..1] == [DigitChar(hi)];
    assert f[..1][..0] == [];
    assert DigitsValue(f[..1]) == hi;
    assert DigitsValue(f) == 10 * DigitsValue(f[..1]) + DigitValue(f[1]);
  }

  lemma ParseUnsignedCentsShape(whole: string, cents: string)
    requires |whole| > 0 && AllDigits(whole) && |cents| == 2 && AllDigits(cents)
    ensures ParseUnsignedCents(whole + "." + cents) == Some(DigitsValue(whole) * 100 + DigitsValue(cents))
  {
    var body := whole + "." + cents;
    assert body[..|body| - 3] == whole;
    assert body[|body| - 2..] == cents;
  }

  /** An amount splits into whole units, tens of cents and cents. */
  lemma CentsDigits(m: nat)
    ensures (m / 100) * 100 + 10 * (m % 100 / 10) + m % 10 == m
  {
  }

  /** Text starting with a digit carries no sign. */
  lemma ParseCentsDigitStart(body: string)
    requires |body| > 0 && IsDigit(body[0])
    ensures ParseCents(body) == match ParseUnsignedCents(body) case None => None case Some(m) => Some(m as int)
  {
  }

  /** A leading minus negates the amount that follows it. */
  lemma ParseCentsMinusStart(body: string)
    requires ParseUnsignedCents(body).Some?
    ensures ParseCents("-" + body) == Some(-(ParseUnsignedCents(body).value as int))
  {
    assert ("-" + body)[1..] == body;
  }

  /** The money text denotes exactly the amount it was made from. */
  lemma FormatCentsRoundTrip(c: int)
    ensures ParseCents(FormatCents(c)) == Some(c)
  {
    var m := if c < 0 then -c else c;
    var whole := NatToString(m / 100);
    var cents := [DigitChar(m % 100 / 10), DigitChar(m % 10)];
    NatToStringValue(m / 100);
    TwoDigitsValue(m % 100 / 10, m % 10);
    CentsDigits(m);
    var body := whole + "." + cents;
    ParseUnsignedCentsShape(whole, cents);
    assert ParseUnsignedCents(body) == Some(m);
    if c < 0 {
      assert FormatCents(c) == "-" + body;
      ParseCentsMinusStart(body);
    } else {
      assert FormatCents(c) == body;
      assert body[0] == whole[0];
      ParseCentsDigitStart(body);
    }
  }
}
