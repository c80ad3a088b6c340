/** Decimal notation of natural numbers: printing, reading, and that each undoes the other. */
module Decimals {

  const DIGITS := "0123456789"

  predicate IsDigit(c: char) { '0' <= c <= '9' }

  function DigitValue(c: char): (d: nat)
    requires IsDigit(c)
    ensures d < 10 && DIGITS[d] == c
  {
    c as int - '0' as int
  }

  function Decimal(n: nat): (s: string)
    ensures s != ""
    ensures forall i | 0 <= i < |s| :: IsDigit(s[i])
  {
    if n < 10 then [DIGITS[n]] else Decimal(n / 10) + [DIGITS[n % 10]]
  }

  /** The number a digit string denotes; the empty string denotes 0. */
  function Value(s: string): nat
    requires forall i | 0 <= i < |s| :: IsDigit(s[i])
  {
    if s == "" then 0 else 10 * Value(s[..|s| - 1]) + DigitValue(s[|s| - 1])
  }

  lemma {:induction false} DecimalRoundTrip(n: nat)
    ensures Value(Decimal(n)) == n
  {
    if n >= 10 {
      DecimalRoundTrip(n / 10);
      assert Decimal(n)[..|Decimal(n)| - 1] == Decimal(n / 10);
    }
  }

  lemma DecimalInjective(m: nat, n: nat)
    requires Decimal(m) == Decimal(n)
    ensures m == n
  {
    DecimalRoundTrip(m);
    DecimalRoundTrip(n);
  }

  /** No leading zero: the notation of std::to_string and of fmt's `{}`. */
  predicate Shortest(s: string) { s == "0" || (s != "" && s[0] != '0') }

  lemma {:induction false} DecimalIsShortest(n: nat)
    ensures Shortest(Decimal(n)) && (n > 0 ==> Decimal(n)[0] != '0')
  {
    if n >= 10 { DecimalIsShortest(n / 10); }
  }

  /** A digit string without leading zero whose number has one digit is that digit. */
  lemma ShortValue(s: string)
    requires Shortest(s) && (forall i | 0 <= i < |s| :: IsDigit(s[i])) && |s| > 1
    ensures Shortest(s[..|s| - 1]) && s[..|s| - 1] != "0" && Value(s) >= 10
  {
    PositiveValue(s[..|s| - 1]);
  }

  lemma {:induction false} PositiveValue(s: string)
    requires s != "" && s[0] != '0' && forall i | 0 <= i < |s| :: IsDigit(s[i])
    ensures Value(s) > 0
  {
    if |s| > 1 {
      PositiveValue(s[..|s| - 1]);
    } else {
      assert DigitValue(s[0]) != 0;
      assert Value(s) == 10 * Value(s[..0]) + DigitValue(s[0]);
    }
  }

  lemma {:induction false} ShortestIsDecimal(s: string)
    requires Shortest(s) && forall i | 0 <= i < |s| :: IsDigit(s[i])
    ensures s == Decimal(Value(s))
  {
    var last := DigitValue(s[|s| - 1]);
    if |s| == 1 {
      assert Value(s) == 10 * Value(s[..0]) + last;
      assert s == [DIGITS[last]];
    } else {
      ShortValue(s);
      ShortestIsDecimal(s[..|s| - 1]);
      assert Value(s) / 10 == Value(s[..|s| - 1]) && Value(s) % 10 == last;
      assert s == s[..|s| - 1] + [DIGITS[last]];
    }
  }

  /** The decimal notation of n is the one digit string for n without leading zeros. */
  lemma DecimalIff(s: string, n: nat)
    ensures s == Decimal(n) <==> Shortest(s) && (forall i | 0 <= i < |s| :: IsDigit(s[i])) && Value(s) == n
  {
    DecimalRoundTrip(n);
    DecimalIsShortest(n);
    if Shortest(s) && forall i | 0 <= i < |s| :: IsDigit(s[i]) { ShortestIsDecimal(s); }
  }
}
