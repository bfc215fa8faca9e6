/** Character classes and decimal text, as the C library sees them in the
    "C" locale: `isdigit`, `isalpha`, `std::stoll` on a digit run and
    `std::format("{}", n)` on an integer. */
module Decimal {

  /** `isdigit` in the "C" locale. */
  predicate IsDigit(c: char) { '0' <= c <= '9' }

  /** `isalpha` in the "C" locale: ASCII letters only. */
  predicate IsAlpha(c: char) { 'a' <= c <= 'z' || 'A' <= c <= 'Z' }

  predicate AllDigits(s: string) { forall i :: 0 <= i < |s| ==> IsDigit(s[i]) }

  function DigitValue(c: char): (d: nat)
    requires IsDigit(c)
    ensures d < 10
  {
    c as int - '0' as int
  }

  function DigitChar(d: nat): (c: char)
    requires d < 10
    ensures IsDigit(c) && DigitValue(c) == d
  {
    ('0' as int + d) as char
  }

  function Pow10(k: nat): (p: nat)
    ensures p >= 1
  {
    if k == 0 then 1 else 10 * Pow10(k - 1)
  }

  /** The value `std::stoll` reads from a run of decimal digits
      (base 10, leading zeros allowed). */
  function ParseDecimal(s: string): (n: nat)
    requires AllDigits(s)
    ensures n < Pow10(|s|)
    decreases |s|
  {
    if s == [] then 0
    else
      var high := ParseDecimal(s[..|s| - 1]);
      assert high <= Pow10(|s| - 1) - 1;
      10 * high + DigitValue(s[|s| - 1])
  }

  /** The shortest decimal text of a natural number: `std::format("{}", n)`. */
  function FormatNat(n: nat): (s: string)
    ensures |s| >= 1 && AllDigits(s)
    ensures |s| == 1 <==> n < 10
    ensures s[0] == '0' <==> n == 0
    decreases n
  {
    if n < 10 then [DigitChar(n)] else FormatNat(n / 10) + [DigitChar(n % 10)]
  }

  /** A single digit reads as its own value. */
  lemma ParseOneDigit(s: string)
    requires |s| == 1 && AllDigits(s)
    ensures ParseDecimal(s) == DigitValue(s[0])
  {
    assert s[..0] == [];
  }

  /** Two digits read as tens and units. */
  lemma ParseTwoDigits(s: string)
    requires |s| == 2 && AllDigits(s)
    ensures ParseDecimal(s) == 10 * DigitValue(s[0]) + DigitValue(s[1])
  {
    assert s[..1][..0] == [];
  }

  /** Three digits read as hundreds, tens and units. */
  lemma ParseThreeDigits(s: string)
    requires |s| == 3 && AllDigits(s)
    ensures ParseDecimal(s) == 100 * DigitValue(s[0]) + 10 * DigitValue(s[1]) + DigitValue(s[2])
  {
    ParseTwoDigits(s[..2]);
    assert s[..2][0] == s[0] && s[..2][1] == s[1];
  }

  /** Reading back the formatted text gives the number. */
  lemma {:induction false} ParseFormat(n: nat)
    ensures ParseDecimal(FormatNat(n)) == n
  {
    if n >= 10 {
      var s := FormatNat(n);
      assert s[..|s| - 1] == FormatNat(n / 10);
      ParseFormat(n / 10);
    }
  }

  /** `std::format("{}", i)` for a signed integer: a minus sign before the
      magnitude when negative. */
  function FormatInt(i: int): (s: string)
    ensures i >= 0 ==> AllDigits(s) && ParseDecimal(s) == i
    ensures i >= 0 ==> |s| >= 1 && (s[0] == '0' <==> i == 0) && (|s| == 1 <==> i < 10)
    ensures i < 0 ==> |s| >= 2 && s[0] == '-' && AllDigits(s[1..]) && ParseDecimal(s[1..]) == -i
    ensures i < 0 ==> s[1] != '0'
  {
    if i < 0 then
      ParseFormat(-i);
      var s := "-" + FormatNat(-i);
      assert s[1..] == FormatNat(-i);
      s
    else
      ParseFormat(i);
      FormatNat(i)
  }
}
