/** Quotients and remainders of natural numbers by a positive divisor that is not a constant. */
module Arith {
  lemma Monotone(a: nat, b: nat, k: nat)
    requires a <= b
    ensures a * k <= b * k
  {
  }

  lemma Difference(q: int, k: int, d: int)
    ensures (k - q) * d == k * d - q * d
    ensures (q - k) * d == q * d - k * d
  {
  }

  lemma DivisionUnique(q: nat, r: nat, d: nat, total: nat)
    requires r < d && q * d + r == total
    ensures total / d == q && total % d == r
  {
    var k, m := total / d, total % d;
    assert total == k * d + m;
    Difference(q, k, d);
    if q < k {
      Monotone(1, k - q, d);
    } else if q > k {
      Monotone(1, q - k, d);
    }
  }

  lemma QuotientBelow(a: nat, d: nat, k: nat)
    requires d > 0
    ensures a / d < k <==> a < k * d
  {
    var q, r := a / d, a % d;
    assert a == q * d + r;
    if q < k {
      Monotone(q + 1, k, d);
    } else {
      Monotone(k, q, d);
    }
  }

  lemma QuotientMonotone(a: nat, b: nat, d: nat)
    requires a <= b && d > 0
    ensures a / d <= b / d
  {
    QuotientBelow(a, d, b / d + 1);
    QuotientBelow(b, d, b / d + 1);
  }

  /** A sum may be reduced early. */
  lemma SumWraps(m: nat, n: nat, w: nat)
    requires w > 0
    ensures (m % w + n) % w == (m + n) % w
  {
    AddMultiple(m % w + n, m / w, w);
    assert m == m / w * w + m % w;
  }

  /** Adding whole multiples of the divisor changes the quotient and keeps the remainder. */
  lemma AddMultiple(n: nat, k: nat, d: nat)
    requires d > 0
    ensures (n + k * d) / d == n / d + k
    ensures (n + k * d) % d == n % d
  {
    var q, r := n / d, n % d;
    assert n == q * d + r;
    assert (q + k) * d == q * d + k * d;
    DivisionUnique(q + k, r, d, n + k * d);
  }
}
