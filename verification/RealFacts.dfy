/** Products and quotients of reals, one step at a time. */
module RealFacts {
  lemma MulNonneg(a: real, b: real)
    requires a >= 0.0 && b >= 0.0
    ensures a * b >= 0.0
  {
  }

  lemma Cancel(x: real, d: real)
    requires d > 0.0 && x * d >= 0.0
    ensures x >= 0.0
  {
  }

  lemma Scale(x: real, b: real, d: real)
    requires 0.0 < b <= d && x * b >= 0.0
    ensures x >= 0.0 && x * d >= x * b
  {
    Cancel(x, b);
    MulNonneg(x, d - b);
  }

  lemma Widen(delta: real, i: nat, j: nat)
    requires delta >= 0.0 && i <= j
    ensures delta * i as real <= delta * j as real
  {
    MulNonneg(delta, j as real - i as real);
  }

  lemma OneMore(x: real, n: int)
    ensures x * n as real == x * (n - 1) as real + x
  {
    var m := (n - 1) as real;
    assert n as real == m + 1.0;
    assert x * (m + 1.0) == x * m + x;
  }

  lemma DivideShift(a: real, d: real, n: real)
    requires n > 0.0
    ensures (a - d * n) / n == a / n - d
  {
    assert a - d * n == (a / n - d) * n;
  }

  lemma DivAsMul(a: real, n: real)
    requires n > 0.0
    ensures a / n == a * (1.0 / n)
  {
  }

  lemma RatioFalls(a: real, b: real, c: real, d: real)
    requires 0.0 <= c <= a && 0.0 < b <= d
    ensures c / d <= a / b
  {
    var x, y := a / b, c / d;
    assert x * b == a && y * d == c;
    Scale(x, b, d);
    Cancel(x - y, d);
  }

  /** A quotient lies where its numerator does. */
  lemma QuotientWithin(s: real, n: real, lo: real, hi: real)
    requires n > 0.0 && lo * n <= s <= hi * n
    ensures lo <= s / n <= hi
  {
    var m := s / n;
    assert m * n == s;
    assert (m - lo) * n == s - lo * n && (hi - m) * n == hi * n - s;
    Cancel(m - lo, n);
    Cancel(hi - m, n);
  }

  lemma PositiveProduct(a: real, b: real)
    requires a > 0.0 && b > 0.0
    ensures a * b > 0.0
  {
  }

  lemma Ordered(a: real, b: real, n: real)
    requires n > 0.0 && a > b
    ensures a * n > b * n
  {
    var d := a - b;
    PositiveProduct(d, n);
    var dn, bn := d * n, b * n;
    Sum(b, d, n);
    assert b + d == a;
    assert a * n == bn + dn;
  }

  lemma Sum(a: real, b: real, n: real)
    ensures (a + b) * n == a * n + b * n
  {
  }

  lemma ProductGrows(a: real, x: real, y: real)
    requires a >= 0.0 && x <= y
    ensures a * x <= a * y
  {
    MulNonneg(a, y - x);
    assert a * (y - x) == a * y - a * x;
  }
}
