/** Small facts about products of reals. */
module Reals {

  function Max(a: real, b: real): real {
    if a < b then b else a
  }

  function Min(a: real, b: real): real {
    if a < b then a else b
  }

  function Product(x: real, y: real): real {
    x * y
  }

  lemma ProductIsPositive(x: real, y: real)
    requires x > 0.0 && y > 0.0
    ensures Product(x, y) > 0.0
  {
  }

  function Square(x: real): real {
    x * x
  }

  lemma SquareSign(x: real)
    ensures Square(x) >= 0.0 && (x != 0.0 ==> Square(x) > 0.0)
  {
    if x > 0.0 {
      ProductIsPositive(x, x);
      assert Square(x) == Product(x, x);
    } else if x < 0.0 {
      ProductIsPositive(-x, -x);
      assert Square(x) == Product(-x, -x);
    }
  }

  lemma SquareIsNonNegative(x: real)
    ensures x * x >= 0.0
  {
  }

  lemma Cancel(s: real, r: real, c: real)
    requires c != 0.0 && s * c == r * c
    ensures s == r
  {
    assert s == s * c / c && r == r * c / c;
  }

  lemma CancelLess(a: real, b: real, k: real)
    requires k > 0.0 && a * k < b * k
    ensures a < b
  {
  }

  lemma ScalingKeepsOrder(a: real, b: real, k: real)
    requires k > 0.0
    ensures a <= b <==> a * k <= b * k
  {
    assert b * k - a * k == (b - a) * k;
    if a < b {
      ProductIsPositive(b - a, k);
      assert Product(b - a, k) == (b - a) * k;
    } else if b < a {
      ProductIsPositive(a - b, k);
      assert Product(a - b, k) == -((b - a) * k);
    }
  }

  lemma Fraction(c: real, t: real)
    requires 0.0 <= t <= 1.0
    ensures if c >= 0.0 then 0.0 <= c * t <= c else c <= c * t <= 0.0
  {
  }

  lemma QuotientTimes(x: real, y: real)
    requires y != 0.0
    ensures x / y * y == x
  {
  }

  lemma NegatedProduct(x: real, d: real)
    ensures x * -d == -(x * d)
  {
  }

  lemma ScalingOrders(q: real, v: real, d: real)
    requires d != 0.0
    ensures v < q <==> if d > 0.0 then v * d < q * d else v * d > q * d
  {
    if d > 0.0 {
      ScalingKeepsOrder(q, v, d);
    } else {
      ScalingKeepsOrder(q, v, -d);
      NegatedProduct(q, d);
      NegatedProduct(v, d);
    }
  }

  lemma QuotientCompares(n: real, d: real, v: real)
    requires d != 0.0
    ensures v < n / d <==> if d > 0.0 then v * d < n else v * d > n
    ensures v > n / d <==> if d > 0.0 then v * d > n else v * d < n
  {
    QuotientTimes(n, d);
    ScalingOrders(n / d, v, d);
    ScalingOrders(v, n / d, d);
  }
}
