/** Products and rounded quotients. */
module Arithmetic {
  lemma Distribute(n: nat, m: nat)
    ensures (n + 1) * m == n * m + m
  {
  }

  lemma Multiples(d: nat, m: int, n: int)
    ensures m <= n ==> d * m <= d * n
    ensures d * (n + 1) == d * n + d && d * (m + 1) == d * m + d
  {
  }

  /** A quotient is what its bounds say. */
  lemma QuotientIs(x: int, d: nat, n: int)
    requires d > 0 && d * n <= x < d * n + d
    ensures x / d == n
  {
    var k := x / d;
    assert x == d * k + x % d;
    Multiples(d, k + 1, n);
    Multiples(d, n + 1, k);
  }

  /** Rounded up, a quotient grows by one after each multiple. */
  lemma RoundedUp(x: int, d: nat)
    requires d > 0
    ensures (x + d) / d == (x + d - 1) / d + (if x % d == 0 then 1 else 0)
  {
    var n, r := x / d, x % d;
    assert d * (n + 1) == d * n + d;
    QuotientIs(x + d, d, n + 1);
    QuotientIs(x + d - 1, d, if r == 0 then n else n + 1);
  }
}
