/** Facts about natural-number division used by the chunking arithmetic. */
module Arith {

  lemma SmallDivIsZero(n: nat, d: nat)
    requires n < d
    ensures n / d == 0
  {
  }

  lemma MulMonotone(d: nat, x: nat, y: nat)
    requires x <= y
    ensures d * x <= d * y
  {
    assert d * y == d * x + d * (y - x);
  }

  lemma DivMonotone(x: nat, y: nat, d: nat)
    requires d >= 1 && x <= y
    ensures x / d <= y / d
  {
    if x / d > y / d {
      MulMonotone(d, y / d + 1, x / d);
      assert false;
    }
  }

  /** `d * k <= n` gives `n / d >= k`. */
  lemma DivLowerBound(n: nat, d: nat, k: nat)
    requires d >= 1 && d * k <= n
    ensures n / d >= k
  {
    if n / d < k {
      MulMonotone(d, n / d + 1, k);
      assert false;
    }
  }

  /** `n / d >= k` gives `n >= k * d`. */
  lemma MulDivLowerBound(n: nat, d: nat, k: nat)
    requires d >= 1 && n / d >= k
    ensures n >= k * d
  {
    MulMonotone(d, k, n / d);
  }

  /** Uniqueness of the quotient: `n == d * q + r` with `r < d` gives `n / d == q`. */
  lemma DivUnique(n: nat, d: nat, q: nat, r: nat)
    requires d >= 1 && r < d && n == d * q + r
    ensures n / d == q
  {
    DivLowerBound(n, d, q);
    if n / d > q {
      MulMonotone(d, q + 1, n / d);
      assert false;
    }
  }

  /** Taking one divisor's worth off `n` takes one off the quotient. */
  lemma DivSubtract(n: nat, d: nat)
    requires 1 <= d <= n
    ensures n / d == (n - d) / d + 1
  {
    var q, r := (n - d) / d, (n - d) % d;
    assert n == d * (q + 1) + r;
    DivUnique(n, d, q + 1, r);
  }
}
