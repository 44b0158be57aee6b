/** Facts about products and remainders, kept apart from the proofs that use them. */
module Arithmetic {
  /** A nonzero multiple of d is at least d away from zero. */
  lemma MultipleBound(d: nat, x: int)
    ensures 1 <= x ==> d <= d * x
    ensures x <= -1 ==> d * x <= -(d as int)
  {
    if 1 <= x {
      assert d * x == d + d * (x - 1);
    } else if x <= -1 {
      assert d * x == d * (x + 1) - d;
    }
  }

  lemma DivModUnique(k: nat, d: nat, q: nat, m: nat)
    requires m < d && k == q * d + m
    ensures k / d == q && k % d == m
  {
    assert k == d * (k / d) + k % d;
    assert d * (k / d - q) == m - k % d;
    MultipleBound(d, k / d - q);
  }

  lemma RowMajorInjective(y1: nat, x1: nat, y2: nat, x2: nat, d: nat)
    requires x1 < d && x2 < d
    requires y1 * d + x1 == y2 * d + x2
    ensures y1 == y2 && x1 == x2
  {
    DivModUnique(y1 * d + x1, d, y1, x1);
    DivModUnique(y2 * d + x2, d, y2, x2);
  }

  /** Row and column of a row-major number. */
  lemma CellBound(k: nat, width: nat, height: nat)
    requires k < height * width
    ensures 0 < width && k / width < height && k % width < width && k == k / width * width + k % width
  {
    var q, m := k / width, k % width;
    assert k == width * q + m;
    assert width * (q - height) == width * q - height * width;
    MultipleBound(width, q - height);
  }

  lemma RowBound(k: nat, d: nat)
    requires k < d * d
    ensures 0 < d && k / d < d && k % d < d
  {
    CellBound(k, d, d);
  }

  /** Row-major numbering stays inside the rectangle. */
  lemma RowMajorBound(row: nat, column: nat, width: nat, height: nat)
    requires row < height && column < width
    ensures row * width + column < height * width
  {
    var rest: nat := height - row - 1;
    assert height * width == row * width + width + rest * width;
    assert rest * width >= 0;
  }

  lemma SquareGrows(a: nat, b: nat)
    ensures a < b ==> a * a < b * b
  {
    if a < b {
      assert b * b == a * a + a * (b - a) + b * (b - a);
    }
  }

  // -------------------------------------------------------------------------------- reals

  /** A C++ conversion from floating point to int: towards zero. */
  function Truncate(x: real): int {
    if x >= 0.0 then x.Floor else -((-x).Floor)
  }

  /** A positive factor keeps the sign. */
  lemma SignOfProduct(x: real, p: real)
    requires 0.0 < p
    ensures 0.0 < x <==> 0.0 < x * p
    ensures 0.0 <= x <==> 0.0 <= x * p
  {
  }

  lemma ProductNonNegative(x: real, y: real)
    requires 0.0 <= x && 0.0 <= y
    ensures 0.0 <= x * y
  {
  }

  /** Comparing a quotient with a bound is comparing the dividend with a multiple. */
  lemma QuotientBound(x: real, p: real, k: real)
    requires 0.0 < p
    ensures k <= x / p <==> k * p <= x
  {
    var q := x / p;
    assert q * p == x;
    assert (q - k) * p == x - k * p;
    SignOfProduct(q - k, p);
  }

  lemma QuotientMinusOne(x: real, p: real)
    requires 0.0 < p
    ensures (x - p) / p == x / p - 1.0
  {
    var a, b := (x - p) / p, x / p;
    assert a * p == x - p && b * p == x;
    assert (a - b + 1.0) * p == 0.0;
    SignOfProduct(a - b + 1.0, p);
    SignOfProduct(b - a - 1.0, p);
  }
}
