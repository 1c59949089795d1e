/**
 * Decimal numerals: the permissive prefix parse of the C library's `atoi`
 * (ISO C11 section 7.22.1.2, which defines it through `strtol`, section
 * 7.22.1.4, with base 10), and the decimal text an `int` is written as by an
 * output stream. The integer converters use the first, the rendering of error
 * codes the second.
 */
module Numerals {

  predicate IsDigit(c: char) {
    '0' <= c <= '9'
  }

  /** White space as `isspace` classifies it in the "C" locale: space, \t, \n, \v, \f, \r. */
  predicate IsSpace(c: char) {
    c == ' ' || c == '\t' || c == '\n' || c as int == 11 || c as int == 12 || c == '\r'
  }

  predicate AllDigits(s: string) {
    forall i | 0 <= i < |s| :: IsDigit(s[i])
  }

  function DigitValue(c: char): nat
    requires IsDigit(c)
  {
    c as int - '0' as int
  }

  function DigitChar(d: nat): char
    requires d < 10
  {
    ('0' as int + d) as char
  }

  /** The value of a string of decimal digits, most significant digit first. */
  function DigitsValue(s: string): nat
    requires AllDigits(s)
  {
    if s == [] then 0 else DigitsValue(s[..|s| - 1]) * 10 + DigitValue(s[|s| - 1])
  }

  /** The longest prefix of `s` made of decimal digits: the "subject sequence" of strtol. */
  function LeadingDigits(s: string): (r: string)
    ensures AllDigits(r) && r <= s
    ensures |r| < |s| ==> !IsDigit(s[|r|])
  {
    if s != [] && IsDigit(s[0]) then [s[0]] + LeadingDigits(s[1..]) else []
  }

  /** `s` without its leading white space. */
  function SkipSpace(s: string): (r: string)
    ensures r == [] || !IsSpace(r[0])
  {
    if s != [] && IsSpace(s[0]) then SkipSpace(s[1..]) else s
  }

  /**
   * `atoi(s)`: skip white space, read an optional sign and then as many
   * digits as follow. Whatever comes after the digits is ignored; when no
   * digit follows, no conversion happens and the result is 0.
   */
  function Atoi(s: string): (r: int)
    ensures r < 0 ==> SkipSpace(s) != [] && SkipSpace(s)[0] == '-'
  {
    SignedValue(SkipSpace(s))
  }

  /** The value of an optional sign followed by the digits `strtol` reads. */
  function SignedValue(t: string): int {
    if t != [] && (t[0] == '-' || t[0] == '+') then
      var magnitude: int := DigitsValue(LeadingDigits(t[1..]));
      if t[0] == '-' then -magnitude else magnitude
    else
      DigitsValue(LeadingDigits(t))
  }

  /** Decimal digits of a natural number, without leading zeros. */
  function NatToDecimal(n: nat): (r: string)
    ensures |r| > 0 && AllDigits(r)
  {
    if n < 10 then [DigitChar(n)] else NatToDecimal(n / 10) + [DigitChar(n % 10)]
  }

  /** The text `os << n` writes for an `int`: a '-' for negative numbers, then the digits. */
  function IntToDecimal(n: int): string {
    if n < 0 then "-" + NatToDecimal(-n) else NatToDecimal(n)
  }

  lemma {:induction false} DigitsOfDecimal(n: nat)
    ensures DigitsValue(NatToDecimal(n)) == n
  {
    if n >= 10 {
      var s := NatToDecimal(n);
      DigitsOfDecimal(n / 10);
      assert s[..|s| - 1] == NatToDecimal(n / 10);
    }
  }

  lemma {:induction false} LeadingDigitsStopAtNonDigit(digits: string, rest: string)
    requires AllDigits(digits)
    requires rest == [] || !IsDigit(rest[0])
    ensures LeadingDigits(digits + rest) == digits
  {
    if digits != [] {
      assert (digits + rest)[1..] == digits[1..] + rest;
      LeadingDigitsStopAtNonDigit(digits[1..], rest);
    } else {
      assert digits + rest == rest;
    }
  }

  /**
   * The parse is permissive: the decimal text of any integer, followed by
   * anything that does not start with a digit, reads back as that integer.
   */
  lemma AtoiReadsDecimalPrefix(n: int, rest: string)
    requires rest == [] || !IsDigit(rest[0])
    ensures Atoi(IntToDecimal(n) + rest) == n
  {
    DecimalPrefixValue(n, rest);
  }

  /** The text of `n` followed by `rest` has no leading space, and its signed value is `n`. */
  lemma DecimalPrefixValue(n: int, rest: string)
    requires rest == [] || !IsDigit(rest[0])
    ensures var t := IntToDecimal(n) + rest;
      SkipSpace(t) == t && SignedValue(t) == n
  {
    if n < 0 {
      var m: nat := -n;
      NegativePrefixValue(m, rest);
      var t := "-" + (NatToDecimal(m) + rest);
      assert IntToDecimal(n) + rest == t;
    } else {
      PositivePrefixValue(n, rest);
    }
  }

  lemma PositivePrefixValue(m: nat, rest: string)
    requires rest == [] || !IsDigit(rest[0])
    ensures var s := NatToDecimal(m) + rest;
      SkipSpace(s) == s && SignedValue(s) == m
  {
    UnsignedPrefixValue(m, rest);
  }

  lemma NegativePrefixValue(m: nat, rest: string)
    requires rest == [] || !IsDigit(rest[0])
    ensures var s := "-" + (NatToDecimal(m) + rest);
      SkipSpace(s) == s && SignedValue(s) == -(m as int)
  {
    var u := NatToDecimal(m) + rest;
    var s := "-" + u;
    UnsignedPrefixValue(m, rest);
    assert s[0] == '-' && !IsSpace(s[0]);
    assert s[1..] == u;
  }

  /** The digits of `m` followed by `rest` start with a digit and read as `m`. */
  lemma UnsignedPrefixValue(m: nat, rest: string)
    requires rest == [] || !IsDigit(rest[0])
    ensures var u := NatToDecimal(m) + rest;
      u != [] && IsDigit(u[0]) && DigitsValue(LeadingDigits(u)) == m
  {
    var digits := NatToDecimal(m);
    LeadingDigitsStopAtNonDigit(digits, rest);
    DigitsOfDecimal(m);
    assert (digits + rest)[0] == digits[0];
  }

  /** Round trip: reading back what an output stream writes for `n` gives `n`. */
  lemma AtoiRoundTrip(n: int)
    ensures Atoi(IntToDecimal(n)) == n
  {
    AtoiReadsDecimalPrefix(n, []);
    assert IntToDecimal(n) + [] == IntToDecimal(n);
  }

  lemma {:induction false} SkipSpacePrefix(ws: string, s: string)
    requires forall i | 0 <= i < |ws| :: IsSpace(ws[i])
    ensures SkipSpace(ws + s) == SkipSpace(s)
  {
    if ws != [] {
      assert (ws + s)[0] == ws[0];
      assert (ws + s)[1..] == ws[1..] + s;
      SkipSpacePrefix(ws[1..], s);
    } else {
      assert ws + s == s;
    }
  }

  /** Leading white space does not change the result. */
  lemma AtoiSkipsLeadingSpace(ws: string, s: string)
    requires forall i | 0 <= i < |ws| :: IsSpace(ws[i])
    ensures Atoi(ws + s) == Atoi(s)
  {
    SkipSpacePrefix(ws, s);
  }

  /** Text that has no digit after the white space and the optional sign converts to 0. */
  lemma AtoiWithoutDigits(s: string)
    requires var t := SkipSpace(s);
      t == [] || (!IsDigit(t[0]) && (t[0] in "+-" ==> |t| == 1 || !IsDigit(t[1])))
    ensures Atoi(s) == 0
  {
  }
}
