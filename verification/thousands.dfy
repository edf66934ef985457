/**
 * The thousands-grouped rendering of an integer used for the total-output
 * line of the report ("12,345"): decimal digits with a comma before every
 * group of three counted from the right.
 */
module Thousands {

  predicate IsDigit(c: char) { '0' <= c <= '9' }

  predicate AllDigits(s: string) {
    forall i :: 0 <= i < |s| ==> IsDigit(s[i])
  }

  function DigitChar(d: int): (c: char)
    requires 0 <= d < 10
    ensures IsDigit(c) && c as int - '0' as int == d
  {
    ('0' as int + d) as char
  }

  /** The plain decimal numeral of `n`, most significant digit first, without leading zeros. */
  function Decimal(n: nat): (s: string)
    ensures |s| >= 1 && AllDigits(s)
    ensures n > 0 ==> s[0] != '0'
  {
    if n < 10 then [DigitChar(n)] else Decimal(n / 10) + [DigitChar(n % 10)]
  }

  /** The number a string of digits denotes. */
  function Value(s: string): (n: nat)
    requires AllDigits(s)
  {
    if s == [] then 0 else Value(s[..|s| - 1]) * 10 + (s[|s| - 1] as int - '0' as int)
  }

  /** Decimal writes `n` and nothing else. */
  lemma {:induction false} DecimalValue(n: nat)
    ensures Value(Decimal(n)) == n
  {
    if n >= 10 {
      DecimalValue(n / 10);
      var s := Decimal(n);
      assert s[..|s| - 1] == Decimal(n / 10);
    }
  }

  /** A group of exactly three digits, zero-padded on the left. */
  function Pad3(m: nat): (s: string)
    requires m < 1000
  {
    [DigitChar(m / 100), DigitChar(m / 10 % 10), DigitChar(m % 10)]
  }

  /** The grouped rendering of a non-negative integer. */
  function Grouped(n: nat): (s: string) {
    if n < 1000 then Decimal(n) else Grouped(n / 1000) + "," + Pad3(n % 1000)
  }

  /** The rendering of any integer: a minus sign, when negative, before the grouped magnitude. */
  function FormatThousands(n: int): (s: string) {
    if n < 0 then "-" + Grouped(-n) else Grouped(n)
  }

  /** The string with every comma deleted. */
  function StripCommas(s: string): (t: string) {
    if s == [] then [] else
      StripCommas(s[..|s| - 1]) + (if s[|s| - 1] == ',' then [] else [s[|s| - 1]])
  }

  lemma {:induction false} StripCommasConcat(a: string, b: string)
    ensures StripCommas(a + b) == StripCommas(a) + StripCommas(b)
    decreases |b|
  {
    if b != [] {
      assert (a + b)[..|a + b| - 1] == a + b[..|b| - 1];
      assert (a + b)[|a + b| - 1] == b[|b| - 1];
      StripCommasConcat(a, b[..|b| - 1]);
    } else {
      assert a + b == a;
    }
  }

  lemma {:induction false} StripCommasDigits(s: string)
    requires AllDigits(s)
    ensures StripCommas(s) == s
  {
    if s != [] {
      StripCommasDigits(s[..|s| - 1]);
    }
  }

  /** Writing `n` in full equals writing its thousands and then its last three digits. */
  lemma DecimalSplit(n: nat)
    requires n >= 1000
    ensures Decimal(n) == Decimal(n / 1000) + Pad3(n % 1000)
  {
    var q, r := n / 1000, n % 1000;
    var a, b, c := r / 100, r / 10 % 10, r % 10;
    assert r == 100 * a + 10 * b + c;
    assert n / 10 == 100 * q + 10 * a + b && n % 10 == c;
    assert n / 10 / 10 == 10 * q + a && n / 10 % 10 == b;
    assert n / 10 / 10 / 10 == q && n / 10 / 10 % 10 == a;
    assert Decimal(n / 10 / 10) == Decimal(q) + [DigitChar(a)];
  }

  /** Deleting the commas of the grouped form gives back the plain decimal numeral. */
  lemma {:induction false} GroupedStripsToDecimal(n: nat)
    ensures StripCommas(Grouped(n)) == Decimal(n)
  {
    if n < 1000 {
      StripCommasDigits(Decimal(n));
    } else {
      GroupedStripsToDecimal(n / 1000);
      StripCommasConcat(Grouped(n / 1000) + ",", Pad3(n % 1000));
      StripCommasConcat(Grouped(n / 1000), ",");
      StripCommasDigits(Pad3(n % 1000));
      assert StripCommas(",") == [];
      DecimalSplit(n);
    }
  }

  /**
   * A grouped numeral: one to three digits, then any number of groups made
   * of a comma and exactly three digits.
   */
  predicate WellGrouped(s: string) {
    if |s| <= 3 then 1 <= |s| && AllDigits(s)
    else |s| >= 5 && s[|s| - 4] == ',' && AllDigits(s[|s| - 3..]) && WellGrouped(s[..|s| - 4])
  }

  /** The grouped form is well grouped and, except for zero, does not start with '0'. */
  lemma {:induction false} GroupedShape(n: nat)
    ensures WellGrouped(Grouped(n))
    ensures n > 0 ==> Grouped(n)[0] != '0'
  {
    if n >= 100 && n < 1000 {
      assert |Decimal(n / 10 / 10)| == 1;
      assert |Decimal(n / 10)| == 2;
    } else if n >= 10 && n < 100 {
      assert |Decimal(n / 10)| == 1;
    } else if n >= 1000 {
      GroupedShape(n / 1000);
      var s := Grouped(n);
      assert s[..|s| - 4] == Grouped(n / 1000);
      assert s[|s| - 3..] == Pad3(n % 1000);
    }
  }

  /** The rendering of any integer, commas deleted, is its signed decimal numeral. */
  lemma FormatThousandsDigits(n: int)
    ensures StripCommas(FormatThousands(n)) == if n < 0 then "-" + Decimal(-n) else Decimal(n)
  {
    if n < 0 {
      GroupedStripsToDecimal(-n);
      StripCommasConcat("-", Grouped(-n));
      assert StripCommas("-") == "-" by {
        assert "-"[..0] == [];
      }
    } else {
      GroupedStripsToDecimal(n);
    }
  }
}
