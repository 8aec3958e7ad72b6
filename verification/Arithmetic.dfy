/** Facts about products and quotients. */
module Arithmetic {
  lemma ProductMonotone(x: int, y: int, d: nat)
    requires x <= y
    ensures x * d <= y * d
  {
    assert (y - x) * d >= 0;
  }

  lemma Quotient(a: nat, d: nat)
    requires 0 < d
    ensures (a / d) * d <= a < (a / d + 1) * d
  {
    assert a == (a / d) * d + a % d;
  }

  lemma QuotientAtMost(a: nat, d: nat, q: int)
    requires 0 < d && a < (q + 1) * d
    ensures a / d <= q
  {
    Quotient(a, d);
    if q + 1 <= a / d { ProductMonotone(q + 1, a / d, d); }
  }

  lemma QuotientMonotone(a: nat, b: nat, d: nat)
    requires 0 < d && a <= b
    ensures a / d <= b / d
  {
    Quotient(b, d);
    QuotientAtMost(a, d, b / d);
  }

  /** The remainder is the one number below the divisor that a multiple away from `a`. */
  lemma Remainder(a: nat, d: nat, q: nat, r: nat)
    requires 0 < d && r < d && a == q * d + r
    ensures a % d == r && a / d == q
  {
    Quotient(a, d);
    ProductMonotone(q, q + 1, d);
    QuotientAtMost(a, d, q);
    if a / d < q { ProductMonotone(a / d + 1, q, d); }
    assert a / d == q;
    assert a == (a / d) * d + a % d;
  }
}
