/** Small facts about products and quotients of reals, each proved where nothing else is in scope. */
module RealArithmetic {
  function Max(x: real, y: real): real { if x < y then y else x }

  /** A product under a name of its own, so that facts about it can be combined as they stand. */
  function Times(x: real, y: real): real { x * y }

  lemma TimesGrows(x: real, y: real, c: real)
    requires c >= 0.0 && x <= y
    ensures Times(x, c) <= Times(y, c)
  {
    ProductGrows(c, x, y);
  }

  lemma TimesReflects(x: real, y: real, c: real)
    requires c > 0.0
    ensures Times(x, c) <= Times(y, c) <==> x <= y
  {
    assert (x - y) * c == x * c - y * c;
    ProductSign(x - y, c);
  }

  lemma TimesAdds(c: real, x: real, y: real)
    ensures Times(c, x + y) == Times(c, x) + Times(c, y)
  {
    Distribute(c, x, y, x + y);
  }

  lemma Distribute(c: real, x: real, y: real, sum: real)
    requires sum == x + y
    ensures c * sum == c * x + c * y
  {
  }

  lemma ProductSign(x: real, y: real)
    requires y > 0.0
    ensures x > 0.0 ==> x * y > 0.0
    ensures x < 0.0 ==> x * y < 0.0
    ensures x == 0.0 ==> x * y == 0.0
  {
  }

  lemma ProductGrows(c: real, x: real, y: real)
    requires c >= 0.0 && x <= y
    ensures c * x <= c * y
  {
  }

  lemma QuotientSign(x: real, y: real)
    requires y > 0.0
    ensures x > 0.0 ==> x / y > 0.0
    ensures x < 0.0 ==> x / y < 0.0
    ensures x == 0.0 ==> x / y == 0.0
  {
    var q := x / y;
    assert q * y == x;
    ProductSign(q, y);
  }

  lemma QuotientTimes(x: real, y: real)
    requires y != 0.0
    ensures x / y * y == x
  {
  }

  lemma QuotientsCross(x: real, y: real, total: real)
    requires total > 0.0
    ensures Times(x / total, y) == Times(y / total, x)
  {
    var p, q := x / total, y / total;
    assert p * total == x && q * total == y;
    assert p * (q * total) == q * (p * total);
  }

  lemma QuotientIs(x: real, y: real, q: real)
    requires y != 0.0 && q * y == x
    ensures x / y == q
  {
  }

  lemma QuotientNegated(x: real, y: real)
    requires y != 0.0
    ensures (-x) / y == -(x / y)
  {
    var q := x / y;
    assert q * y == x;
    assert (-q) * y == -x;
    QuotientIs(-x, y, -q);
  }

  lemma QuotientOfSum(x: real, y: real, d: real)
    requires d != 0.0
    ensures (x + y) / d == x / d + y / d
  {
    var p, q := x / d, y / d;
    assert p * d == x && q * d == y;
    assert (p + q) * d == x + y;
  }

  lemma QuotientOfSelf(x: real)
    requires x != 0.0
    ensures x / x == 1.0
  {
    QuotientIs(x, x, 1.0);
  }

  lemma CrossMultiply(a: real, b: real, c: real, d: real)
    requires b > 0.0 && d > 0.0 && a * d >= c * b
    ensures a / b >= c / d
  {
    var x, y := a / b, c / d;
    assert x * b == a && y * d == c;
    ProductSign(b, d);
    assert (x - y) * (b * d) == x * b * d - y * d * b;
    ProductSign(x - y, b * d);
  }

  lemma ProductsOrdered(a: real, b: real, c: real, d: real)
    requires 0.0 <= a <= b && 0.0 <= c <= d
    ensures a * c <= b * d
  {
    ProductGrows(a, c, d);
    ProductGrows(d, a, b);
  }
}
