// Numbers in names.

module Decimal {
  const DIGITS := "0123456789"

  function Digits(n: nat): string {
    if n < 10 then [DIGITS[n]] else Digits(n / 10) + [DIGITS[n % 10]]
  }

  predicate IsDigit(c: char) { '0' <= c <= '9' }

  lemma {:induction false} DigitsStart(n: nat)
    ensures |Digits(n)| > 0 && IsDigit(Digits(n)[0])
  {
    if n >= 10 { DigitsStart(n / 10); }
  }

  lemma DigitDiffers(d: nat, e: nat)
    requires d < 10 && e < 10 && DIGITS[d] == DIGITS[e]
    ensures d == e
  {}

  lemma {:induction false} DigitsDiffer(m: nat, n: nat)
    requires Digits(m) == Digits(n)
    ensures m == n
  {
    var a, b := Digits(m), Digits(n);
    DigitsStart(m / 10);
    DigitsStart(n / 10);
    DigitDiffers(m % 10, n % 10) by { assert a[|a| - 1] == b[|b| - 1]; }
    if m >= 10 && n >= 10 {
      assert a[..|a| - 1] == b[..|b| - 1];
      DigitsDiffer(m / 10, n / 10);
    }
  }
}
