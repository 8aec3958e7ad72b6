/** Greatest common divisors, least common multiples and rounding up to a multiple
    (benchmarks/dsv4_exec.cc, Round and Lcm). */
module Divisors {
  import opened Arithmetic

  function Times(k: int, d: int): int {
    k * d
  }

  /** `m` is a whole number of `d`s. */
  ghost predicate Divides(d: nat, m: nat) {
    exists k: nat :: m == Times(k, d)
  }

  // ------------------------------------------------------------------------------- rounding

  function Round(bytes: nat, to: nat): (r: nat)
    requires 0 < to
  {
    (bytes + to - 1) / to * to
  }

  /** Rounding up gives the least multiple that is no smaller. */
  lemma RoundLeast(bytes: nat, to: nat)
    requires 0 < to
    ensures Divides(to, Round(bytes, to)) && bytes <= Round(bytes, to) < bytes + to
    ensures forall m: nat | Divides(to, m) && bytes <= m :: Round(bytes, to) <= m
  {
    hide Round, Times;
    var q := RoundQuotient(bytes, to);
    forall m: nat | Divides(to, m) && bytes <= m ensures Round(bytes, to) <= m {
      var k: nat :| m == Times(k, to);
      LessTimes(k, q, to);
    }
  }

  lemma RoundQuotient(bytes: nat, to: nat) returns (q: nat)
    requires 0 < to
    ensures Round(bytes, to) == Times(q, to) && bytes <= Round(bytes, to) < bytes + to
  {
    q := (bytes + to - 1) / to;
    Quotient(bytes + to - 1, to);
  }

  lemma LessTimes(k: nat, q: nat, d: nat)
    ensures k < q ==> Times(k, d) + d <= Times(q, d)
    ensures q <= k ==> Times(q, d) <= Times(k, d)
  {
    if k < q { ProductMonotone(k + 1, q, d); } else { ProductMonotone(q, k, d); }
  }

  // ---------------------------------------------------------------------- the greatest divisor

  function Gcd(a: nat, b: nat): (g: nat)
    requires 0 < a || 0 < b
    ensures 0 < g
    decreases b
  {
    if b == 0 then a else Gcd(b, a % b)
  }

  /** The greatest common divisor is a combination of the two numbers. */
  lemma {:induction false} Bezout(a: nat, b: nat) returns (x: int, y: int)
    requires 0 < a || 0 < b
    ensures Gcd(a, b) == Times(x, a) + Times(y, b)
    decreases b
  {
    if b == 0 {
      x, y := 1, 0;
    } else {
      var u, v := Bezout(b, a % b);
      x, y := v, u - Times(a / b, v);
      assert a % b == a - Times(a / b, b);
      Rearranged(u, v, a, b, a / b);
    }
  }

  lemma Rearranged(u: int, v: int, a: int, b: int, q: int)
    ensures Times(u, b) + Times(v, a - Times(q, b)) == Times(v, a) + Times(u - Times(q, v), b)
  {
  }

  lemma {:induction false} GcdDivides(a: nat, b: nat)
    requires 0 < a || 0 < b
    ensures Divides(Gcd(a, b), a) && Divides(Gcd(a, b), b)
    decreases b
  {
    hide Divides, Times;
    if b == 0 {
      DividesItself(a);
    } else {
      GcdDivides(b, a % b);
      DividesByRemainder(Gcd(a, b), a, b);
    }
  }

  lemma DividesItself(a: nat)
    ensures Divides(a, a) && Divides(a, 0)
  {
    assert a == Times(1, a) && 0 == Times(0, a);
  }

  lemma DividesSum(d: nat, a: nat, b: nat)
    requires Divides(d, a) && Divides(d, b)
    ensures Divides(d, a + b)
  {
    var k: nat :| a == Times(k, d);
    var l: nat :| b == Times(l, d);
    assert a + b == Times(k + l, d);
  }

  // What divides a divisor and the remainder divides the number.
  lemma DividesByRemainder(g: nat, a: nat, b: nat)
    requires 0 < b && Divides(g, b) && Divides(g, a % b)
    ensures Divides(g, a)
  {
    var k: nat :| b == Times(k, g);
    var l: nat :| a % b == Times(l, g);
    var q := a / b;
    Remains(a, b);
    Combined(q, k, l, g);
    NotBelow(q, k, l);
    hide Times;
    assert a == Times(Times(q, k) + l, g);
  }

  lemma Remains(a: nat, b: nat)
    requires 0 < b
    ensures a == Times(a / b, b) + a % b
  {
  }

  lemma NotBelow(q: nat, k: nat, l: nat)
    ensures 0 <= Times(q, k) + l
  {
  }

  lemma Combined(q: int, k: int, l: int, g: int)
    ensures Times(q, Times(k, g)) + Times(l, g) == Times(Times(q, k) + l, g)
  {
  }

  // ----------------------------------------------------------------------- the least multiple

  function Lcm(a: nat, b: nat): nat
    requires 0 < a && 0 < b
  {
    a / Gcd(a, b) * b
  }

  /** The least common multiple is a multiple of both, and every common multiple is a multiple of it. */
  lemma LcmLeast(a: nat, b: nat)
    requires 0 < a && 0 < b
    ensures 0 < Lcm(a, b) && Divides(a, Lcm(a, b)) && Divides(b, Lcm(a, b))
    ensures forall m: nat | Divides(a, m) && Divides(b, m) :: Divides(Lcm(a, b), m)
  {
    var g := Gcd(a, b);
    GcdDivides(a, b);
    var s: nat :| a == Times(s, g);
    var t: nat :| b == Times(t, g);
    Remainder(a, g, s, 0);
    var n := Lcm(a, b);
    assert n == Times(s, b);
    Swapped(s, t, g);
    assert n == Times(t, a);
    assert 0 < s && 0 < n;
    forall m: nat | Divides(a, m) && Divides(b, m) ensures Divides(n, m) {
      var k: nat :| m == Times(k, a);
      var l: nat :| m == Times(l, b);
      CommonMultiple(a, b, m, k, l, s, t);
    }
  }

  lemma Swapped(s: int, t: int, g: int)
    ensures Times(s, Times(t, g)) == Times(t, Times(s, g))
  {
  }

  // A common multiple m = k a = l b is l x + k y least common multiples, for g = x a + y b.
  lemma CommonMultiple(a: nat, b: nat, m: nat, k: nat, l: nat, s: nat, t: nat)
    requires 0 < a && 0 < b && m == Times(k, a) == Times(l, b)
    requires a == Times(s, Gcd(a, b)) && b == Times(t, Gcd(a, b)) && Lcm(a, b) == Times(s, b) == Times(t, a) && 0 < Lcm(a, b)
    ensures Divides(Lcm(a, b), m)
  {
    var g, n := Gcd(a, b), Lcm(a, b);
    var x, y := Bezout(a, b);
    hide Gcd, Lcm;
    Coprime(x, y, s, t, g);
    var q := Times(l, x) + Times(k, y);
    Expanded(x, y, k, l, s, t, a, b, m);
    NotNegative(q, n, m);
    assert m == Times(q, n);
  }

  // What is left of two numbers without their common divisor combines to one.
  lemma Coprime(x: int, y: int, s: int, t: int, g: int)
    requires 0 < g == Times(x, Times(s, g)) + Times(y, Times(t, g))
    ensures Times(x, s) + Times(y, t) == 1
  {
    var c := Times(x, s) + Times(y, t);
    assert Times(c, g) == g;
    if c <= 0 { ProductMonotone(c, 0, g); }
    if 2 <= c { ProductMonotone(2, c, g); }
  }

  lemma Expanded(x: int, y: int, k: int, l: int, s: int, t: int, a: int, b: int, m: int)
    requires m == Times(k, a) == Times(l, b) && Times(s, b) == Times(t, a) && Times(x, s) + Times(y, t) == 1
    ensures Times(Times(l, x) + Times(k, y), Times(s, b)) == m
  {
    calc {
      Times(Times(l, x) + Times(k, y), Times(s, b));
      Times(Times(l, x), Times(s, b)) + Times(Times(k, y), Times(t, a));
      Times(Times(x, s), Times(l, b)) + Times(Times(y, t), Times(k, a));
      Times(Times(x, s) + Times(y, t), m);
      m;
    }
  }

  lemma NotNegative(q: int, n: nat, m: nat)
    requires Times(q, n) == m && 0 < n
    ensures 0 <= q
  {
    if q < 0 { ProductMonotone(q, -1, n); }
  }
}
