/**
 * Decimal rendering of integers, as Java's string concatenation prints an
 * `int`: an optional minus sign followed by the digits, most significant first.
 */
module Decimals {

  predicate IsDigit(c: char)
  {
    '0' <= c <= '9'
  }

  function DigitChar(d: nat): (c: char)
    requires d < 10
    ensures IsDigit(c)
  {
    "0123456789"[d]
  }

  function DigitValue(c: char): (d: nat)
    requires IsDigit(c)
    ensures d < 10
  {
    (c as int - '0' as int) as nat
  }

  /** The digits of `n`, without leading zeros ("0" for zero). */
  function NatToString(n: nat): (s: string)
    ensures |s| >= 1
    ensures forall k :: 0 <= k < |s| ==> IsDigit(s[k])
    ensures n >= 10 ==> s[0] != '0'
    decreases n
  {
    if n < 10 then [DigitChar(n)] else NatToString(n / 10) + [DigitChar(n % 10)]
  }

  /** The number a string of digits denotes. */
  function ParseDigits(s: string): nat
    requires forall k :: 0 <= k < |s| ==> IsDigit(s[k])
  {
    if s == [] then 0 else 10 * ParseDigits(s[..|s| - 1]) + DigitValue(s[|s| - 1])
  }

  /** Text of the form an optional minus sign and then at least one digit. */
  predicate IsIntText(s: string)
  {
    && |s| >= 1
    && (s[0] == '-' ==> |s| >= 2 && forall k :: 1 <= k < |s| ==> IsDigit(s[k]))
    && (s[0] != '-' ==> forall k :: 0 <= k < |s| ==> IsDigit(s[k]))
  }

  function IntToString(i: int): (s: string)
    ensures IsIntText(s)
    ensures s[0] == '-' <==> i < 0
  {
    if i < 0 then "-" + NatToString(-i) else NatToString(i)
  }

  /** Reads back the rendering of an integer. */
  function ParseInt(s: string): int
    requires IsIntText(s)
  {
    if s[0] == '-' then -(ParseDigits(s[1..]) as int) else ParseDigits(s)
  }

  lemma DigitRoundTrip(d: nat)
    requires d < 10
    ensures DigitValue(DigitChar(d)) == d
  {
    assert "0123456789"[d] as int == '0' as int + d;
  }

  lemma {:induction false} NatToStringRoundTrip(n: nat)
    ensures ParseDigits(NatToString(n)) == n
    decreases n
  {
    var s := NatToString(n);
    if n < 10 {
      DigitRoundTrip(n);
      assert s[..0] == [];
    } else {
      NatToStringRoundTrip(n / 10);
      DigitRoundTrip(n % 10);
      assert s[..|s| - 1] == NatToString(n / 10);
    }
  }

  /** A minus sign before digits reads back as the negated number. */
  lemma ParseNegative(digits: string)
    requires |digits| >= 1 && forall k :: 0 <= k < |digits| ==> IsDigit(digits[k])
    ensures IsIntText("-" + digits)
    ensures ParseInt("-" + digits) == -(ParseDigits(digits) as int)
  {
    var s := "-" + digits;
    assert s[1..] == digits;
    assert forall k :: 1 <= k < |s| ==> s[k] == digits[k - 1];
  }

  /** Rendering then reading back gives the integer: the rendering loses nothing. */
  lemma IntToStringRoundTrip(i: int)
    ensures ParseInt(IntToString(i)) == i
  {
    if i < 0 {
      var n: nat := -i;
      var digits := NatToString(n);
      assert IntToString(i) == "-" + digits;
      ParseNegative(digits);
      NatToStringRoundTrip(n);
    } else {
      var n: nat := i;
      var digits := NatToString(n);
      assert IntToString(i) == digits;
      assert IsDigit(digits[0]);
      NatToStringRoundTrip(n);
    }
  }

  /** Distinct integers render differently. */
  lemma IntToStringInjective(i: int, j: int)
    requires IntToString(i) == IntToString(j)
    ensures i == j
  {
    IntToStringRoundTrip(i);
    IntToStringRoundTrip(j);
  }
}
