/**
 * ECMAScript `parseInt(string)` with the radix argument left out
 * (section 19.2.5 of ECMA-262): leading white space is dropped, an optional
 * sign is read, a `0x`/`0X` prefix selects radix 16 and otherwise the radix
 * is 10, then the longest run of digits of that radix is read. No digits
 * gives NaN, modelled as None.
 */
module JsParseInt {
  import opened Wrappers
  import opened Decimal
  import opened Strings

  /** The WhiteSpace (section 12.2 of ECMA-262) and LineTerminator (section 12.3) code points. */
  predicate IsJsSpace(c: char) {
    || c == '\t' || c == '\U{000B}' || c == '\U{000C}' || c == ' ' || c == '\U{00A0}' || c == '\U{FEFF}'
    || c == '\U{1680}' || ('\U{2000}' <= c <= '\U{200A}') || c == '\U{202F}' || c == '\U{205F}' || c == '\U{3000}'
    || c == '\n' || c == '\r' || c == '\U{2028}' || c == '\U{2029}'
  }

  /** TrimString(s, start): the suffix of `s` left after its leading white space. */
  function TrimStart(s: string): (t: string)
    ensures |t| <= |s| && t == s[|s| - |t|..]
    ensures forall i :: 0 <= i < |s| - |t| ==> IsJsSpace(s[i])
    ensures |t| > 0 ==> !IsJsSpace(t[0])
  {
    if |s| > 0 && IsJsSpace(s[0]) then TrimStart(s[1..]) else s
  }

  /** The value of `c` as a digit of a radix up to 36 (0-9, then a-z or A-Z), if it is one. */
  function DigitOf(c: char): Option<nat> {
    if '0' <= c <= '9' then Some(c as int - '0' as int)
    else if 'a' <= c <= 'z' then Some(c as int - 'a' as int + 10)
    else if 'A' <= c <= 'Z' then Some(c as int - 'A' as int + 10)
    else None
  }

  /** The two radices `parseInt` picks between when none is given. */
  datatype Radix = Ten | Sixteen

  function Base(radix: Radix): nat {
    match radix
    case Ten => 10
    case Sixteen => 16
  }

  /** `Base(radix) * x`, written per radix so that it stays linear. */
  function Scale(radix: Radix, x: nat): nat {
    match radix
    case Ten => 10 * x
    case Sixteen => 16 * x
  }

  predicate IsRadixDigit(c: char, radix: Radix) {
    DigitOf(c).Some? && DigitOf(c).value < Base(radix)
  }

  predicate AllRadixDigits(z: string, radix: Radix) {
    forall i :: 0 <= i < |z| ==> IsRadixDigit(z[i], radix)
  }

  /** Length of the longest prefix of `s` made of digits of `radix`. */
  function DigitRunLength(s: string, radix: Radix): (n: nat)
    ensures n <= |s| && AllRadixDigits(s[..n], radix)
    ensures n < |s| ==> !IsRadixDigit(s[n], radix)
  {
    if |s| > 0 && IsRadixDigit(s[0], radix) then
      var n := 1 + DigitRunLength(s[1..], radix);
      assert forall i :: 1 <= i < n ==> s[..n][i] == s[1..][..n - 1][i - 1];
      n
    else 0
  }

  /** The mathematical value of a run of digits, most significant first. */
  function RadixValue(z: string, radix: Radix): nat
    requires AllRadixDigits(z, radix)
  {
    if z == [] then 0
    else Scale(radix, RadixValue(z[..|z| - 1], radix)) + DigitOf(z[|z| - 1]).value
  }

  /**
   * The unsigned part: a `0x`/`0X` prefix selects radix 16, otherwise radix
   * 10; then the longest run of digits of that radix, None when it is empty.
   */
  function ParseMagnitude(u: string): Option<nat> {
    var hex := |u| >= 2 && u[0] == '0' && (u[1] == 'x' || u[1] == 'X');
    var radix := if hex then Sixteen else Ten;
    var v := if hex then u[2..] else u;
    var n := DigitRunLength(v, radix);
    if n == 0 then None else Some(RadixValue(v[..n], radix))
  }

  /** What `parseInt` does after white space: an optional sign, then the magnitude. */
  function ParseSigned(t: string): Option<int> {
    if |t| > 0 && t[0] == '-' then
      match ParseMagnitude(t[1..])
      case None => None
      case Some(m) => Some(-(m as int))
    else
      var u := if |t| > 0 && t[0] == '+' then t[1..] else t;
      match ParseMagnitude(u)
      case None => None
      case Some(m) => Some(m as int)
  }

  /** `parseInt(s)`, with None standing for NaN. */
  function ParseInt(s: string): Option<int> {
    ParseSigned(TrimStart(s))
  }

  /** On decimal digits, radix 10 reads the same value as `DigitsValue`. */
  lemma {:induction false} DecimalRadixValue(z: string)
    requires AllDigits(z)
    ensures AllRadixDigits(z, Ten) && RadixValue(z, Ten) == DigitsValue(z)
  {
    if z != [] {
      DecimalRadixValue(z[..|z| - 1]);
    }
  }

  /** The digit run of `z + rest` is exactly `z` when `z` is all digits and `rest` does not start with one. */
  lemma {:induction false} DigitRunOfDigits(z: string, rest: string, radix: Radix)
    requires AllRadixDigits(z, radix)
    requires rest == [] || !IsRadixDigit(rest[0], radix)
    ensures DigitRunLength(z + rest, radix) == |z|
  {
    if z == [] {
      assert z + rest == rest;
    } else {
      assert (z + rest)[0] == z[0];
      assert (z + rest)[1..] == z[1..] + rest;
      assert AllRadixDigits(z[1..], radix) by {
        forall i | 0 <= i < |z| - 1 ensures IsRadixDigit(z[1..][i], radix) {
          assert z[1..][i] == z[i + 1];
        }
      }
      DigitRunOfDigits(z[1..], rest, radix);
    }
  }

  /** A string starting with something other than white space is not trimmed. */
  lemma TrimStartKeeps(s: string)
    requires |s| > 0 && !IsJsSpace(s[0])
    ensures TrimStart(s) == s
  {
  }

  /** The magnitude of a run of decimal digits followed by a non-digit is the run's value. */
  lemma ParseMagnitudeOfDigits(m: nat, rest: string)
    requires rest == [] || !IsDigit(rest[0])
    requires m == 0 && rest != [] ==> rest[0] != 'x' && rest[0] != 'X'
    ensures ParseMagnitude(NatToString(m) + rest) == Some(m)
  {
    var digits := NatToString(m);
    var u := digits + rest;
    NatToStringLeadingDigit(m);
    DecimalRadixValue(digits);
    NatToStringValue(m);
    if rest != [] {
      assert !IsRadixDigit(rest[0], Ten);
    }
    DigitRunOfDigits(digits, rest, Ten);
    assert u[..|digits|] == digits;
    assert !(|u| >= 2 && u[0] == '0' && (u[1] == 'x' || u[1] == 'X'));
  }

  /**
   * `parseInt` reads back the decimal text of any integer, and ignores what
   * follows it unless that continues the number (another digit, or an `x`
   * turning a lone `0` into a hexadecimal prefix).
   */
  lemma ParseIntReadsInteger(n: int, rest: string)
    requires rest == [] || !IsDigit(rest[0])
    requires n == 0 && rest != [] ==> rest[0] != 'x' && rest[0] != 'X'
    ensures ParseInt(IntToString(n) + rest) == Some(n)
  {
    if n < 0 {
      ParseIntReadsNegativeInt(n, rest);
    } else {
      ParseIntReadsNatural(n, rest);
    }
  }

  /** The negative case: a minus sign, then the digits of `-n`. */
  lemma ParseIntReadsNegativeInt(n: int, rest: string)
    requires n < 0
    requires rest == [] || !IsDigit(rest[0])
    ensures ParseInt(IntToString(n) + rest) == Some(n)
  {
    ParseMagnitudeOfDigits(-n, rest);
    NegativeText(n, rest);
    ParseIntOfMinus(IntToString(n) + rest, NatToString(-n) + rest, -n);
  }

  /** A leading minus negates the magnitude that follows it. */
  lemma ParseIntOfMinus(s: string, u: string, m: nat)
    requires s == "-" + u
    requires ParseMagnitude(u) == Some(m)
    ensures ParseInt(s) == Some(-(m as int))
  {
    TrimStartKeeps(s);
    assert s[1..] == u;
  }

  /** The text of a negative integer followed by `rest`, regrouped. */
  lemma NegativeText(n: int, rest: string)
    requires n < 0
    ensures IntToString(n) + rest == "-" + (NatToString(-n) + rest)
  {
    ConcatAssoc("-", NatToString(-n), rest);
  }

  /** The non-negative case: the digits alone. */
  lemma ParseIntReadsNatural(m: nat, rest: string)
    requires rest == [] || !IsDigit(rest[0])
    requires m == 0 && rest != [] ==> rest[0] != 'x' && rest[0] != 'X'
    ensures ParseInt(NatToString(m) + rest) == Some(m)
  {
    var digits := NatToString(m);
    ParseMagnitudeOfDigits(m, rest);
    assert (digits + rest)[0] == digits[0];
    ParseIntDigitStart(digits + rest);
  }

  /** Text starting with a digit is read by the magnitude alone. */
  lemma ParseIntDigitStart(u: string)
    requires |u| > 0 && IsDigit(u[0])
    ensures ParseInt(u) == ParseMagnitude(u)
  {
    TrimStartKeeps(u);
  }

  lemma {:induction false} TrimStartSkips(w: string, s: string)
    requires forall i :: 0 <= i < |w| ==> IsJsSpace(w[i])
    ensures TrimStart(w + s) == TrimStart(s)
  {
    if w != [] {
      assert (w + s)[1..] == w[1..] + s;
      TrimStartSkips(w[1..], s);
    } else {
      assert w + s == s;
    }
  }

  /** Leading white space does not change what `parseInt` reads. */
  lemma ParseIntSkipsSpace(w: string, s: string)
    requires forall i :: 0 <= i < |w| ==> IsJsSpace(w[i])
    ensures ParseInt(w + s) == ParseInt(s)
  {
    TrimStartSkips(w, s);
  }

  /** Text that does not start with a decimal digit holds no magnitude. */
  lemma MagnitudeOfNonDigit(u: string)
    requires u == [] || !IsDigit(u[0])
    ensures ParseMagnitude(u) == None
  {
    if u != [] {
      assert !IsRadixDigit(u[0], Ten);
    }
  }

  /**
   * Text that, after its white space, starts with neither a digit nor a sign,
   * or with a sign not followed by a digit, reads as NaN.
   */
  lemma ParseIntNoNumber(w: string, rest: string)
    requires forall i :: 0 <= i < |w| ==> IsJsSpace(w[i])
    requires rest == [] || (!IsDigit(rest[0]) && !IsJsSpace(rest[0]))
    requires rest != [] && (rest[0] == '+' || rest[0] == '-') ==> |rest| == 1 || !IsDigit(rest[1])
    ensures ParseInt(w + rest) == None
  {
    ParseIntSkipsSpace(w, rest);
    if rest != [] {
      TrimStartKeeps(rest);
    }
    SignedNoNumber(rest);
  }

  /** After the white space: no digit first, and none right after a sign, is NaN. */
  lemma SignedNoNumber(t: string)
    requires t == [] || !IsDigit(t[0])
    requires t != [] && (t[0] == '+' || t[0] == '-') ==> |t| == 1 || !IsDigit(t[1])
    ensures ParseSigned(t) == None
  {
    if t != [] && (t[0] == '+' || t[0] == '-') {
      MagnitudeOfNonDigit(t[1..]);
    } else {
      MagnitudeOfNonDigit(t);
    }
  }
}
