// Facts about products, quotients and remainders.

module Arith {
  lemma MulLe(a: int, b: int, d: int)
    requires a <= b && d >= 0
    ensures a * d <= b * d
  {
    assert b * d - a * d == (b - a) * d;
  }

  lemma AddMul(a: int, b: int, d: int)
    ensures (a + b) * d == a * d + b * d
  {}

  lemma SameQuotient(d: int, q: int, r: int, q': int, r': int)
    requires 0 <= r < d && 0 <= r' < d && q * d + r == q' * d + r'
    ensures q == q' && r == r'
  {
    AddMul(q, 1, d);
    AddMul(q', 1, d);
    if q < q' { MulLe(q + 1, q', d); }
    if q' < q { MulLe(q' + 1, q, d); }
  }

  lemma Euclid(n: int, d: int)
    requires d > 0
    ensures n == (n / d) * d + n % d && 0 <= n % d < d
  {}

  /** A quotient and a remainder that fit are the quotient and the remainder. */
  lemma DivMod(n: int, d: int, q: int, r: int)
    requires 0 <= r < d && n == q * d + r
    ensures n / d == q && n % d == r
  {
    Euclid(n, d);
    SameQuotient(d, q, r, n / d, n % d);
  }

  /** Adding a multiple of the divisor. */
  lemma AddMultiple(n: int, d: int, a: int)
    requires d > 0
    ensures (n + a * d) / d == n / d + a && (n + a * d) % d == n % d
  {
    Euclid(n, d);
    AddMul(n / d, a, d);
    DivMod(n + a * d, d, n / d + a, n % d);
  }

  lemma NextMod(n: int, d: int)
    requires d > 0
    ensures if n % d + 1 < d then (n + 1) / d == n / d && (n + 1) % d == n % d + 1
            else (n + 1) / d == n / d + 1 && (n + 1) % d == 0
  {
    Euclid(n, d);
    AddMul(n / d, 1, d);
    if n % d + 1 < d { DivMod(n + 1, d, n / d, n % d + 1); } else { DivMod(n + 1, d, n / d + 1, 0); }
  }

  /** Two numbers have the same remainder when their difference has none. */
  lemma SameMod(n: int, e: int, d: int)
    requires d > 0
    ensures n % d == (n + e) % d <==> e % d == 0
  {
    Euclid(n, d);
    Euclid(e, d);
    AddMultiple(n + e % d, d, e / d);
    if e % d != 0 {
      if n % d + e % d < d { DivMod(n + e % d, d, n / d, n % d + e % d); }
      else {
        AddMul(n / d, 1, d);
        DivMod(n + e % d, d, n / d + 1, n % d + e % d - d);
      }
    }
  }
}
