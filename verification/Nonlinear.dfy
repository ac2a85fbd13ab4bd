/** Facts about products and quotients of integers. */
module Nonlinear {

  lemma MulSub(a: int, b: int, d: int)
    ensures (a - b) * d == a * d - b * d
  {
  }

  lemma MulAdd(a: int, b: int, d: int)
    ensures (a + b) * d == a * d + b * d
  {
  }

  lemma MulNonNegative(k: int, d: int)
    requires k >= 0 && d >= 0
    ensures k * d >= 0
  {
  }

  lemma MulAtLeast(k: int, d: int)
    requires k >= 1 && d > 0
    ensures k * d >= d
  {
  }

  lemma MulLe(a: int, b: int, d: int)
    requires a <= b && 0 <= d
    ensures a * d <= b * d
  {
    MulNonNegative(b - a, d);
    MulSub(b, a, d);
  }

  lemma MulAssoc(a: int, b: int, c: int)
    ensures a * b * c == a * (b * c)
  {
  }

  lemma DivMod(x: int, d: int)
    requires d > 0
    ensures x == x / d * d + x % d && 0 <= x % d < d
  {
  }

  lemma QuotientUnique(a: int, b: int, d: int, r: int, s: int)
    requires d > 0 && a * d + r == b * d + s && 0 <= r < d && 0 <= s < d
    ensures a == b
  {
    MulSub(a, b, d);
    if a > b {
      MulAtLeast(a - b, d);
    } else if b > a {
      MulSub(b, a, d);
      MulAtLeast(b - a, d);
    }
  }

  lemma DivUnique(x: int, d: int, q: int, r: int)
    requires d > 0 && x == q * d + r && 0 <= r < d
    ensures x / d == q && x % d == r
  {
    DivMod(x, d);
    QuotientUnique(x / d, q, d, x % d, r);
  }

  /** The quotient rounded up, written as the sources do. */
  lemma CeilUnique(n: int, d: int, v: int)
    requires d > 0 && (v - 1) * d < n <= v * d
    ensures (n + d - 1) / d == v
  {
    MulSub(v, 1, d);
    DivUnique(n + d - 1, d, v, n + d - 1 - v * d);
  }

  lemma QuotientShrinks(v: int, d: int)
    requires v > 0 && d >= 2
    ensures 0 <= v / d < v
  {
    DivMod(v, d);
    if v / d < 0 {
      MulLe(v / d, -1, d);
    } else {
      MulLe(2, d, v / d);
      assert d * (v / d) == v / d * d;
    }
  }

  lemma MulBoth(a: int, b: int, c: int, d: int)
    requires 0 <= a <= b && 0 <= c <= d
    ensures a * c <= b * d
  {
    MulLe(a, b, c);
    MulLe(c, d, b);
    assert c * b == b * c && d * b == b * d;
  }

  lemma MulSwap(a: int, b: int, c: int)
    ensures a * b * c == a * c * b
  {
    MulAssoc(a, b, c);
    MulAssoc(a, c, b);
    assert b * c == c * b;
  }
}
