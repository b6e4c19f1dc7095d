/** Decimal numerals as `std::to_string` writes an int, and the reading
    that undoes it. */
module Decimal {

  predicate IsDigit(c: char)
  {
    '0' <= c <= '9'
  }

  /** A non-empty run of decimal digits. */
  predicate IsNumeral(s: string)
  {
    |s| >= 1 && forall i :: 0 <= i < |s| ==> IsDigit(s[i])
  }

  function DigitValue(c: char): (d: int)
    requires IsDigit(c)
    ensures 0 <= d < 10
  {
    c as int - '0' as int
  }

  function DigitChar(d: int): (c: char)
    requires 0 <= d < 10
    ensures IsDigit(c) && DigitValue(c) == d
  {
    ('0' as int + d) as char
  }

  /** `std::to_string` of a non-negative int: its shortest numeral, with
      no leading zero unless the number is zero. */
  function NatToString(n: nat): (s: string)
    ensures IsNumeral(s)
    ensures s[0] == '0' ==> n == 0
    decreases n
  {
    if n < 10 then [DigitChar(n)] else NatToString(n / 10) + [DigitChar(n % 10)]
  }

  /** `std::to_string` of any int: a minus sign before a negative number. */
  function IntToString(n: int): (s: string)
    ensures n >= 0 ==> IsNumeral(s)
    ensures n < 0 ==> |s| >= 2 && s[0] == '-' && IsNumeral(s[1..])
  {
    if n < 0 then "-" + NatToString(-n) else NatToString(n)
  }

  /** The number a run of digits denotes. */
  function NumeralValue(s: string): nat
    requires forall i :: 0 <= i < |s| ==> IsDigit(s[i])
  {
    if s == [] then 0 else 10 * NumeralValue(s[..|s| - 1]) + DigitValue(s[|s| - 1])
  }

  /** `std::to_string` of any int writes the digits of the number, after a
      minus sign when it is negative. */
  lemma IntToStringValue(n: int)
    ensures n >= 0 ==> NumeralValue(IntToString(n)) == n
    ensures n < 0 ==> NumeralValue(IntToString(n)[1..]) == -n
  {
    if n < 0 {
      NatToStringRoundTrip(-n);
      assert IntToString(n)[1..] == NatToString(-n);
    } else {
      NatToStringRoundTrip(n);
    }
  }

  /** Reading back what `std::to_string` wrote gives the number again. */
  lemma {:induction false} NatToStringRoundTrip(n: nat)
    ensures NumeralValue(NatToString(n)) == n
  {
    var s := NatToString(n);
    if n >= 10 {
      NatToStringRoundTrip(n / 10);
      assert s[..|s| - 1] == NatToString(n / 10);
    }
  }

  /** Different numbers get different numerals. */
  lemma NatToStringInjective(m: nat, n: nat)
    requires NatToString(m) == NatToString(n)
    ensures m == n
  {
    NatToStringRoundTrip(m);
    NatToStringRoundTrip(n);
  }

  /** Numerals of the unit tests' dates, and a negative number. */
  lemma NumeralExamples()
    ensures IntToString(15) == "15" && IntToString(6) == "6" && IntToString(2020) == "2020"
    ensures IntToString(-42) == "-42"
  {
    assert NatToString(15) == NatToString(1) + ['5'];
    assert NatToString(2020) == NatToString(202) + ['0'];
    assert NatToString(202) == NatToString(20) + ['2'];
    assert NatToString(20) == NatToString(2) + ['0'];
    assert NatToString(42) == NatToString(4) + ['2'];
  }
}
