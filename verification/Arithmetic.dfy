/**
 Products and quotients. Real products are wrapped in Times, so that a proof can hide the product and use
 the facts below about it.
 */
module Arithmetic {

  // ----- Real products -----

  function Times(a: real, b: real): real {
    a * b
  }

  lemma Units(a: real)
    ensures Times(a, 1.0) == Times(1.0, a) == a && Times(a, 0.0) == Times(0.0, a) == 0.0
  {
  }

  lemma TimesCommutes(a: real, b: real)
    ensures Times(a, b) == Times(b, a) == Times(-a, -b)
  {
  }

  lemma Associates(a: real, b: real, c: real)
    ensures Times(a, Times(b, c)) == Times(Times(a, b), c) == Times(b, Times(a, c))
  {
    assert a * (b * c) == (a * b) * c == b * (a * c);
  }

  lemma ScalesUp(s: real, a: real, b: real)
    requires 0.0 <= s && a <= b
    ensures Times(s, a) <= Times(s, b)
  {
  }

  lemma Grows(u: real, a: real, b: real)
    requires u > 0.0 && a < b
    ensures Times(u, a) < Times(u, b)
  {
  }

  // ----- Integer quotients -----

  lemma Ordered(p: int, q: int, b: int)
    requires b > 0
    ensures p <= q <==> p * b <= q * b
    ensures p < q <==> p * b < q * b
  {
    var d := q - p;
    assert q * b == p * b + d * b;
    if d > 0 {
      assert d * b > 0;
    } else if d < 0 {
      assert d * b < 0;
    }
  }

  lemma QuotientIs(a: int, b: int, q: int)
    requires b > 0 && q * b <= a < q * b + b
    ensures a / b == q && a % b == a - q * b
  {
    var p := a / b;
    assert a == p * b + a % b;
    assert (p + 1) * b == p * b + b && (q + 1) * b == q * b + b;
    Ordered(p + 1, q, b);
    Ordered(q + 1, p, b);
  }
}
