/** The few non-linear facts the money proofs rest on, stated where nothing else is in scope. */
module Arithmetic {

  lemma Distribute(a: int, b: int, c: int)
    ensures a * (b + c) == a * b + a * c
    ensures a * (b - c) == a * b - a * c
    ensures (b + c) * a == b * a + c * a
    ensures (b - c) * a == b * a - c * a
  {
  }

  lemma MulMonotone(a: int, b: int, q: int)
    requires a <= b && 0 <= q
    ensures a * q <= b * q
  {
  }

  lemma ExactQuotient(a: int, q: int)
    requires q > 0
    ensures (a * q) / q == a && (a * q) % q == 0
  {
    var d, r := (a * q) / q, (a * q) % q;
    assert a * q == d * q + r;
    Distribute(q, a, d);
    if a - d >= 1 {
      MulMonotone(1, a - d, q);
    } else if a - d <= -1 {
      MulMonotone(a - d, -1, q);
    }
  }

  lemma RealProduct(a: int, b: int)
    ensures (a * b) as real == a as real * b as real
  {
  }

  lemma RealQuotient(a: real, q: real)
    requires q > 0.0
    ensures (a * q) / q == a
  {
  }

  lemma QuotientIs(a: real, q: real, n: real)
    requires q > 0.0 && a * q == n
    ensures a == n / q
  {
  }

  lemma DivideBack(n: real, d: real)
    requires d > 0.0
    ensures n / d * d == n
  {
  }
}
