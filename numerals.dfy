/**
 * Decimal text for integers: the conversion `atoi` performs on the count
 * line of the mesh header, and the one the output stream performs when it
 * writes an `int` (the vertex count and the labels of the attribute file).
 */
module Numerals {

  predicate IsDigit(c: char) { '0' <= c <= '9' }

  /** The characters C's `isspace` accepts: blank, tab, newline, vertical tab, form feed, return. */
  predicate IsSpace(c: char) { c == ' ' || '\t' <= c <= '\r' }

  predicate AllDigits(s: string) { forall i :: 0 <= i < |s| ==> IsDigit(s[i]) }

  predicate AllSpaces(s: string) { forall i :: 0 <= i < |s| ==> IsSpace(s[i]) }

  function DigitChar(d: nat): (c: char)
    requires d < 10
    ensures IsDigit(c) && c as int - '0' as int == d
  {
    ('0' as int + d) as char
  }

  function DigitValue(c: char): nat
    requires IsDigit(c)
  {
    c as int - '0' as int
  }

  /** The shortest decimal text of a natural number, as `operator<<` writes it. */
  function NatString(n: nat): (s: string)
    ensures |s| >= 1 && AllDigits(s)
    ensures |s| > 1 ==> s[0] != '0'
    decreases n
  {
    if n < 10 then [DigitChar(n)] else NatString(n / 10) + [DigitChar(n % 10)]
  }

  /** The decimal text of an integer: a minus sign before negative values. */
  function DecimalString(n: int): (s: string)
    ensures |s| >= 1 && !IsSpace(s[0])
    ensures n >= 0 <==> AllDigits(s)
    ensures n < 0 <==> s[0] == '-'
  {
    if n < 0 then "-" + NatString(-n) else NatString(n)
  }

  /** The value of a string of decimal digits, most significant first. */
  function DigitsValue(s: string): nat
    requires AllDigits(s)
  {
    if s == [] then 0 else DigitsValue(s[..|s| - 1]) * 10 + DigitValue(s[|s| - 1])
  }

  /** The longest prefix of `s` made of digits. */
  function LeadingDigits(s: string): (d: string)
    ensures AllDigits(d) && d <= s
    ensures |d| < |s| ==> !IsDigit(s[|d|])
  {
    if s == [] || !IsDigit(s[0]) then [] else [s[0]] + LeadingDigits(s[1..])
  }

  /** `s` without its leading white space. */
  function SkipSpaces(s: string): (t: string)
    ensures t != [] ==> !IsSpace(t[0])
  {
    if s != [] && IsSpace(s[0]) then SkipSpaces(s[1..]) else s
  }

  /** An optional sign followed by as many digits as follow it; 0 when there are none. */
  function SignedValue(t: string): int
  {
    if t != [] && t[0] == '-' then 0 - DigitsValue(LeadingDigits(t[1..])) as int
    else if t != [] && t[0] == '+' then DigitsValue(LeadingDigits(t[1..]))
    else DigitsValue(LeadingDigits(t))
  }

  /**
   * C's `atoi`: leading white space, an optional sign, then as many digits as
   * follow; no digits give 0, and whatever follows the digits is ignored.
   */
  function Atoi(s: string): int
  {
    SignedValue(SkipSpaces(s))
  }

  lemma {:induction false} NatStringValue(n: nat)
    ensures DigitsValue(NatString(n)) == n
    decreases n
  {
    var s := NatString(n);
    if n >= 10 {
      NatStringValue(n / 10);
      assert s[..|s| - 1] == NatString(n / 10);
    }
  }

  lemma {:induction false} LeadingDigitsOfDigits(d: string, rest: string)
    requires AllDigits(d)
    requires rest == [] || !IsDigit(rest[0])
    ensures LeadingDigits(d + rest) == d
    decreases |d|
  {
    if d != [] {
      assert (d + rest)[1..] == d[1..] + rest;
      LeadingDigitsOfDigits(d[1..], rest);
    } else {
      assert d + rest == rest;
    }
  }

  lemma {:induction false} SkipSpacesOfPadding(pad: string, t: string)
    requires AllSpaces(pad)
    requires t == [] || !IsSpace(t[0])
    ensures SkipSpaces(pad + t) == t
    decreases |pad|
  {
    if pad != [] {
      assert (pad + t)[1..] == pad[1..] + t;
      SkipSpacesOfPadding(pad[1..], t);
    } else {
      assert pad + t == t;
    }
  }

  /** `atoi` of text that, after white space, starts with neither a sign nor a digit is 0. */
  lemma AtoiWithoutNumeral(pad: string, t: string)
    requires AllSpaces(pad)
    requires t != [] && !IsSpace(t[0]) && !IsDigit(t[0]) && t[0] != '-' && t[0] != '+'
    ensures Atoi(pad + t) == 0
  {
    SkipSpacesOfPadding(pad, t);
    assert LeadingDigits(t) == [];
  }

  /** The sign-and-digits reading of a decimal text is its value, whatever non-digit text follows. */
  lemma SignedValueOfDecimal(n: int, rest: string)
    requires rest == [] || !IsDigit(rest[0])
    ensures SignedValue(DecimalString(n) + rest) == n
  {
    if n < 0 {
      var digits := NatString(-n);
      var t := "-" + digits + rest;
      assert DecimalString(n) + rest == t;
      assert t[1..] == digits + rest;
      LeadingDigitsOfDigits(digits, rest);
      NatStringValue(-n);
    } else {
      var digits := NatString(n);
      var t := digits + rest;
      assert DecimalString(n) + rest == t;
      assert IsDigit(t[0]) by { assert t[0] == digits[0]; }
      LeadingDigitsOfDigits(digits, rest);
      NatStringValue(n);
    }
  }

  /**
   * `atoi` reads back what the output stream writes for an integer, whatever
   * white space precedes it and whatever non-digit text follows it.
   */
  lemma AtoiReadsDecimalString(pad: string, n: int, rest: string)
    requires AllSpaces(pad)
    requires rest == [] || !IsDigit(rest[0])
    ensures Atoi(pad + DecimalString(n) + rest) == n
  {
    var s := DecimalString(n);
    assert pad + s + rest == pad + (s + rest);
    SkipSpacesOfPadding(pad, s + rest);
    SignedValueOfDecimal(n, rest);
  }

  /** `atoi` inverts the output stream's decimal text. */
  lemma AtoiOfDecimal(n: int)
    ensures Atoi(DecimalString(n)) == n
  {
    AtoiReadsDecimalString([], n, []);
    assert [] + DecimalString(n) + [] == DecimalString(n);
  }
}
