/** The one-time codes issued for email verification and password reset.
    The server computes `String(Math.floor(100000 + Math.random() * 900000))`;
    for a random double `r` in `[0, 1)` the floored value is an integer in
    `[100000, 999999]`, so the code is the decimal string of `100000 + n` for
    some draw `0 <= n < 900000`. Floating-point rounding decides which draw a
    given `r` yields, not the range of draws; the draw is a parameter. */
module Otp {

  /** Smallest code value. */
  const Base: nat := 100000
  /** Number of distinct codes: the draw ranges over `[0, Span)`. */
  const Span: nat := 900000
  /** Every code has this many characters. */
  const CodeLength: nat := 6

  predicate IsDigit(c: char) {
    '0' <= c <= '9'
  }

  predicate AllDigits(s: string) {
    forall i | 0 <= i < |s| :: IsDigit(s[i])
  }

  /** A six-digit decimal string without a leading zero. */
  predicate IsCode(s: string) {
    |s| == CodeLength && AllDigits(s) && s[0] != '0'
  }

  function DigitChar(d: nat): (c: char)
    requires d < 10
    ensures IsDigit(c) && c as int - '0' as int == d
  {
    ('0' as int + d) as char
  }

  function DigitValue(c: char): (d: nat)
    requires IsDigit(c)
    ensures d < 10 && DigitChar(d) == c
  {
    c as int - '0' as int
  }

  function Pow10(d: nat): (p: nat)
    ensures p >= 1
  {
    if d == 0 then 1 else 10 * Pow10(d - 1)
  }

  /** JavaScript's `String(k)` for a non-negative integer: its decimal
      digits, with a leading zero only for zero itself. */
  function DecimalString(k: nat): (s: string)
    ensures 1 <= |s| && AllDigits(s)
    ensures s[0] == '0' <==> k == 0
    decreases k
  {
    if k < 10 then [DigitChar(k)] else DecimalString(k / 10) + [DigitChar(k % 10)]
  }

  /** The number a string of decimal digits denotes. */
  function DecimalValue(s: string): nat
    requires AllDigits(s)
    decreases |s|
  {
    if s == [] then 0 else 10 * DecimalValue(s[..|s| - 1]) + DigitValue(s[|s| - 1])
  }

  /** Reading back the decimal string of `k` gives `k`. */
  lemma {:induction false} DecimalRoundTrip(k: nat)
    ensures DecimalValue(DecimalString(k)) == k
    decreases k
  {
    if k >= 10 {
      var s, p := DecimalString(k), DecimalString(k / 10);
      assert s[..|s| - 1] == p;
      DecimalRoundTrip(k / 10);
    }
  }

  /** A number with `d + 1` decimal digits is printed with `d + 1` characters. */
  lemma {:induction false} DecimalLength(k: nat, d: nat)
    requires Pow10(d) <= k < Pow10(d + 1)
    ensures |DecimalString(k)| == d + 1
    decreases d
  {
    if d > 0 {
      assert Pow10(d) == 10 * Pow10(d - 1);
      assert Pow10(d - 1) <= k / 10 < Pow10(d);
      DecimalLength(k / 10, d - 1);
    }
  }

  /** A digit string of `d + 1` characters without a leading zero denotes a
      number with `d + 1` decimal digits. */
  lemma {:induction false} DecimalValueBounds(s: string, d: nat)
    requires AllDigits(s) && |s| == d + 1 && s[0] != '0'
    ensures Pow10(d) <= DecimalValue(s) < Pow10(d + 1)
    decreases d
  {
    var p := s[..|s| - 1];
    if d > 0 {
      assert p[0] == s[0];
      DecimalValueBounds(p, d - 1);
    }
  }

  /** Printing the number a digit string denotes gives the string back,
      provided it has no leading zero. */
  lemma {:induction false} DecimalStringOfValue(s: string)
    requires AllDigits(s) && 1 <= |s|
    requires |s| > 1 ==> s[0] != '0'
    ensures DecimalString(DecimalValue(s)) == s
    decreases |s|
  {
    var p := s[..|s| - 1];
    if |s| > 1 {
      assert p[0] == s[0];
      DecimalValueBounds(p, |p| - 1);
      DecimalStringOfValue(p);
      assert s == p + [s[|s| - 1]];
    } else {
      assert s == [s[0]];
    }
  }

  /** The code issued for the random draw `n`: exactly six digits, no
      leading zero, denoting `100000 + n`, so within 100000..999999. */
  function OtpCode(n: int): (code: string)
    requires 0 <= n < Span
    ensures IsCode(code)
    ensures DecimalValue(code) == Base + n
    ensures Base <= DecimalValue(code) < Base + Span
  {
    DecimalLength(Base + n, 5);
    DecimalRoundTrip(Base + n);
    DecimalString(Base + n)
  }

  /** Distinct draws give distinct codes. */
  lemma OtpCodeInjective(n: int, m: int)
    requires 0 <= n < Span && 0 <= m < Span
    ensures OtpCode(n) == OtpCode(m) <==> n == m
  {
  }

  /** Every six-digit string without a leading zero is the code of exactly
      one draw: the codes are precisely the strings `IsCode` accepts. */
  lemma CodeOfDraw(s: string)
    requires IsCode(s)
    ensures 0 <= DecimalValue(s) - Base < Span
    ensures OtpCode(DecimalValue(s) - Base) == s
  {
    DecimalValueBounds(s, CodeLength - 1);
    DecimalStringOfValue(s);
  }
}
