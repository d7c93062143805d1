/** Nonlinear facts used by the difficulty, payout and infusion proofs. */
module Arithmetic {

  function Min(a: nat, b: nat): nat { if a < b then a else b }

  function Max(a: nat, b: nat): nat { if a < b then b else a }

  function Quotient(n: nat, d: nat): nat
    requires d > 0
  {
    DivMod(n, d);
    n / d
  }

  function Times(n: nat, m: nat): nat
  {
    Product(n, m);
    n * m
  }

  lemma Product(a: nat, b: nat)
    ensures a * b >= 0
  {
  }

  lemma ScaleMonotone(x: nat, y: nat, t: nat)
    requires x <= y
    ensures x * t <= y * t
  {
    Product(y - x, t);
    assert y * t == x * t + (y - x) * t;
  }

  lemma ScaleStrict(x: nat, y: nat, t: nat)
    requires x < y
    ensures x * t + t <= y * t
  {
    ScaleMonotone(x + 1, y, t);
    assert (x + 1) * t == x * t + t;
  }

  lemma CompareScaled(x: nat, y: nat, t: nat)
    requires x * t < y * t
    ensures x < y
  {
    if y <= x {
      ScaleMonotone(y, x, t);
    }
  }

  lemma DivMod(n: nat, d: nat)
    requires d > 0
    ensures n == n / d * d + n % d && 0 <= n % d < d && n / d >= 0
  {
  }

  lemma DivideUnique(n: nat, d: nat, q: nat, r: nat)
    requires d > 0 && n == q * d + r && r < d
    ensures n / d == q && n % d == r
  {
    DivMod(n, d);
    var q' := n / d;
    if q' < q {
      ScaleStrict(q', q, d);
    } else if q < q' {
      ScaleStrict(q, q', d);
    }
  }

  lemma QuotientBelow(m: nat, d: nat)
    requires d > 0
    ensures 0 <= m / d <= m
  {
    DivMod(m, d);
    ScaleMonotone(1, d, m / d);
    assert d * (m / d) == m / d * d;
  }

  lemma DivideAtLeast(m: nat, d: nat, bound: nat)
    requires d > 0 && bound * d <= m
    ensures bound <= m / d
  {
    DivMod(m, d);
    assert (m / d + 1) * d == m / d * d + d;
    CompareScaled(bound, m / d + 1, d);
  }

  // Shrinking both a multiple's factor and its divisor: x * a / b is at most x * f when a is at most f * b.
  lemma ScaledRatio(x: nat, a: nat, b: nat, f: nat)
    requires b > 0 && a <= f * b
    ensures 0 <= x * a / b <= x * f
  {
    ScaleMonotone(a, f * b, x);
    assert a * x == x * a && f * b * x == x * f * b;
    DivMod(x * a, b);
    assert x * f * b + b == (x * f + 1) * b;
    CompareScaled(x * a / b, x * f + 1, b);
  }

  lemma MulAssociates(a: nat, b: nat, c: nat)
    ensures a * (b * c) == a * b * c
  {
  }
}
