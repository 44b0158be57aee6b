/**
 * Vectors over the reals, and what the camera needs to know of their products. Proofs about whole
 * vectors hide the product of two numbers; only the scalar lemmas multiply.
 */
module Vectors {
  import opened Arithmetic

  datatype Vec = Vec(x: real, y: real, z: real)

  function Mul(x: real, y: real): real {
    x * y
  }

  function Plus(a: Vec, b: Vec): Vec {
    Vec(a.x + b.x, a.y + b.y, a.z + b.z)
  }

  function Minus(a: Vec, b: Vec): Vec {
    Vec(a.x - b.x, a.y - b.y, a.z - b.z)
  }

  function Scale(a: Vec, k: real): Vec {
    Vec(Mul(a.x, k), Mul(a.y, k), Mul(a.z, k))
  }

  function Dot(a: Vec, b: Vec): real {
    Mul(a.x, b.x) + Mul(a.y, b.y) + Mul(a.z, b.z)
  }

  function Cross(a: Vec, b: Vec): Vec {
    Vec(Mul(a.y, b.z) - Mul(a.z, b.y), Mul(a.z, b.x) - Mul(a.x, b.z), Mul(a.x, b.y) - Mul(a.y, b.x))
  }

  function Triple(a: Vec, b: Vec, c: Vec): real {
    Dot(Cross(a, b), c)
  }

  /** The vector with coordinates k along three axes. */
  function Along(k: Vec, r: Vec, u: Vec, f: Vec): Vec {
    Plus(Plus(Scale(r, k.x), Scale(u, k.y)), Scale(f, k.z))
  }

  // -------------------------------------------------------------------------------- scalars

  lemma MulCommutes(x: real, y: real)
    ensures Mul(x, y) == Mul(y, x)
  {
  }

  lemma MulDistributes(x: real, y: real, k: real)
    ensures Mul(x + y, k) == Mul(x, k) + Mul(y, k)
    ensures Mul(x - y, k) == Mul(x, k) - Mul(y, k)
  {
  }

  lemma MulAssociates(x: real, y: real, k: real)
    ensures Mul(Mul(x, y), k) == Mul(x, Mul(y, k))
  {
    assert Mul(x, y) * k == (x * y) * k;
    assert x * Mul(y, k) == x * (y * k);
  }

  lemma MulSign(x: real, y: real)
    requires 0.0 < y
    ensures 0.0 < x <==> 0.0 < Mul(x, y)
    ensures 0.0 <= x <==> 0.0 <= Mul(x, y)
  {
    SignOfProduct(x, y);
  }

  lemma SquareSign(x: real)
    ensures (x == 0.0 && Mul(x, x) == 0.0) || 0.0 < Mul(x, x)
  {
    if 0.0 < x {
      MulSign(x, x);
    } else if x < 0.0 {
      MulSign(-x, -x);
    }
  }

  lemma SquaresOrder(x: real, r: real)
    requires 0.0 <= r && Mul(x, x) <= Mul(r, r)
    ensures -r <= x <= r
  {
    if r < x {
      MulSign(x - r, x + r);
    } else if x < -r {
      MulSign(-x - r, r - x);
    }
  }

  lemma ProductOfSums(a: Vec, v: Vec, b: Vec, u: Vec)
    ensures Mul(Dot(a, v), Dot(b, u)) == (a.x * v.x + a.y * v.y + a.z * v.z) * (b.x * u.x + b.y * u.y + b.z * u.z)
  {
    assert Mul(Dot(a, v), Dot(b, u)) == Mul(a.x * v.x + a.y * v.y + a.z * v.z, b.x * u.x + b.y * u.y + b.z * u.z);
  }

  lemma ProductOfDifferences(p: real, q: real, r: real, s: real, t: real, u: real, v: real, w: real)
    ensures Mul(Mul(p, q) - Mul(r, s), Mul(t, u) - Mul(v, w)) == (p * q - r * s) * (t * u - v * w)
  {
    assert Mul(Mul(p, q) - Mul(r, s), Mul(t, u) - Mul(v, w)) == Mul(p * q - r * s, t * u - v * w);
  }

  /** The Binet-Cauchy identity. */
  lemma BinetCauchy(a: Vec, b: Vec, v: Vec, u: Vec)
    ensures Mul(Dot(a, v), Dot(b, u)) - Mul(Dot(b, v), Dot(a, u)) == Dot(Cross(a, b), Cross(v, u))
  {
    hide Mul;
    ProductOfSums(a, v, b, u);
    ProductOfSums(b, v, a, u);
    ProductOfDifferences(a.y, b.z, a.z, b.y, v.y, u.z, v.z, u.y);
    ProductOfDifferences(a.z, b.x, a.x, b.z, v.z, u.x, v.x, u.z);
    ProductOfDifferences(a.x, b.y, a.y, b.x, v.x, u.y, v.y, u.x);
  }

  // -------------------------------------------------------------------------------- vectors

  lemma DotSymmetric(a: Vec, b: Vec)
    ensures Dot(a, b) == Dot(b, a)
  {
    hide Mul;
    MulCommutes(a.x, b.x);
    MulCommutes(a.y, b.y);
    MulCommutes(a.z, b.z);
  }

  lemma DotPlus(a: Vec, b: Vec, c: Vec)
    ensures Dot(Plus(a, b), c) == Dot(a, c) + Dot(b, c)
    ensures Dot(Minus(a, b), c) == Dot(a, c) - Dot(b, c)
  {
    hide Mul;
    MulDistributes(a.x, b.x, c.x);
    MulDistributes(a.y, b.y, c.y);
    MulDistributes(a.z, b.z, c.z);
  }

  lemma DotScale(a: Vec, k: real, b: Vec)
    ensures Dot(Scale(a, k), b) == Mul(k, Dot(a, b))
  {
    hide Mul;
    ScaledProduct(a.x, k, b.x);
    ScaledProduct(a.y, k, b.y);
    ScaledProduct(a.z, k, b.z);
    MulCommutes(k, Dot(a, b));
    MulDistributes(Mul(a.x, b.x) + Mul(a.y, b.y), Mul(a.z, b.z), k);
    MulDistributes(Mul(a.x, b.x), Mul(a.y, b.y), k);
  }

  lemma ScaledProduct(x: real, k: real, y: real)
    ensures Mul(Mul(x, k), y) == Mul(Mul(x, y), k)
  {
    hide Mul;
    MulAssociates(x, k, y);
    MulAssociates(x, y, k);
    MulCommutes(k, y);
  }

  lemma DotAlong(k: Vec, r: Vec, u: Vec, f: Vec, a: Vec)
    ensures Dot(Along(k, r, u, f), a) == Mul(k.x, Dot(r, a)) + Mul(k.y, Dot(u, a)) + Mul(k.z, Dot(f, a))
  {
    hide Mul, Dot, Scale, Plus;
    DotPlus(Plus(Scale(r, k.x), Scale(u, k.y)), Scale(f, k.z), a);
    DotPlus(Scale(r, k.x), Scale(u, k.y), a);
    DotScale(r, k.x, a);
    DotScale(u, k.y, a);
    DotScale(f, k.z, a);
  }

  /** A cross product is orthogonal to its factors; a triple product only cares about cyclic order. */
  lemma TripleCycles(a: Vec, b: Vec, c: Vec)
    ensures Triple(a, b, a) == 0.0 && Triple(a, b, b) == 0.0
    ensures Triple(a, b, c) == Triple(b, c, a)
  {
    Cycled(a.x, a.y, a.z, b.x, b.y, b.z, c.x, c.y, c.z);
    Cycled(a.x, a.y, a.z, b.x, b.y, b.z, a.x, a.y, a.z);
    Cycled(a.x, a.y, a.z, b.x, b.y, b.z, b.x, b.y, b.z);
  }

  function Det(a1: real, a2: real, a3: real, b1: real, b2: real, b3: real, c1: real, c2: real, c3: real): real {
    Mul(Mul(a2, b3) - Mul(a3, b2), c1) + Mul(Mul(a3, b1) - Mul(a1, b3), c2) + Mul(Mul(a1, b2) - Mul(a2, b1), c3)
  }

  lemma Expanded(a1: real, a2: real, a3: real, b1: real, b2: real, b3: real, c1: real, c2: real, c3: real)
    ensures Det(a1, a2, a3, b1, b2, b3, c1, c2, c3) ==
      (a2 * b3 - a3 * b2) * c1 + (a3 * b1 - a1 * b3) * c2 + (a1 * b2 - a2 * b1) * c3
  {
    assert Mul(Mul(a2, b3) - Mul(a3, b2), c1) == Mul(a2 * b3 - a3 * b2, c1);
    assert Mul(Mul(a3, b1) - Mul(a1, b3), c2) == Mul(a3 * b1 - a1 * b3, c2);
    assert Mul(Mul(a1, b2) - Mul(a2, b1), c3) == Mul(a1 * b2 - a2 * b1, c3);
  }

  lemma Cycled(a1: real, a2: real, a3: real, b1: real, b2: real, b3: real, c1: real, c2: real, c3: real)
    ensures Det(a1, a2, a3, b1, b2, b3, c1, c2, c3) == Det(b1, b2, b3, c1, c2, c3, a1, a2, a3)
    ensures Det(a1, a2, a3, b1, b2, b3, a1, a2, a3) == 0.0
    ensures Det(a1, a2, a3, b1, b2, b3, b1, b2, b3) == 0.0
  {
    hide Det;
    Expanded(a1, a2, a3, b1, b2, b3, c1, c2, c3);
    Expanded(b1, b2, b3, c1, c2, c3, a1, a2, a3);
    Expanded(a1, a2, a3, b1, b2, b3, a1, a2, a3);
    Expanded(a1, a2, a3, b1, b2, b3, b1, b2, b3);
  }

  // -------------------------------------------------------------------------------- coordinates

  lemma AlongRows(k: Vec, r: Vec, u: Vec, f: Vec)
    ensures Along(k, r, u, f) ==
      Vec(Dot(Vec(r.x, u.x, f.x), k), Dot(Vec(r.y, u.y, f.y), k), Dot(Vec(r.z, u.z, f.z), k))
  {
    hide Mul;
  }

  lemma Difference(x: real, y: real, z: real, w: real)
    ensures Mul(x, y) - Mul(z, w) == Mul(x, y) - Mul(w, z)
  {
    hide Mul;
    MulCommutes(z, w);
  }

  /** The axes' cross products, read by component, are the rows' cross products. */
  lemma CrossRows(r: Vec, p: Vec, f: Vec)
    ensures Vec(Cross(p, f).x, Cross(f, r).x, Cross(r, p).x) == Cross(Vec(r.y, p.y, f.y), Vec(r.z, p.z, f.z))
    ensures Vec(Cross(p, f).y, Cross(f, r).y, Cross(r, p).y) == Cross(Vec(r.z, p.z, f.z), Vec(r.x, p.x, f.x))
    ensures Vec(Cross(p, f).z, Cross(f, r).z, Cross(r, p).z) == Cross(Vec(r.x, p.x, f.x), Vec(r.y, p.y, f.y))
  {
    hide Mul;
    Difference(p.y, f.z, p.z, f.y);
    Difference(f.y, r.z, f.z, r.y);
    Difference(r.y, p.z, r.z, p.y);
    Difference(p.z, f.x, p.x, f.z);
    Difference(f.z, r.x, f.x, r.z);
    Difference(r.z, p.x, r.x, p.z);
    Difference(p.x, f.y, p.y, f.x);
    Difference(f.x, r.y, f.y, r.x);
    Difference(r.x, p.y, r.y, p.x);
  }

  lemma CrossParts(a: Vec, b: Vec)
    ensures Cross(a, b) ==
      Vec(Mul(a.y, b.z) - Mul(a.z, b.y), Mul(a.z, b.x) - Mul(a.x, b.z), Mul(a.x, b.y) - Mul(a.y, b.x))
  {
  }

  /** A cross product, computed in coordinates along three axes. */
  lemma CrossAlong(v: Vec, u: Vec, r: Vec, p: Vec, f: Vec)
    ensures Cross(Along(v, r, p, f), Along(u, r, p, f)) == Along(Cross(v, u), Cross(p, f), Cross(f, r), Cross(r, p))
  {
    hide *;
    var a, b, c := Vec(r.x, p.x, f.x), Vec(r.y, p.y, f.y), Vec(r.z, p.z, f.z);
    AlongRows(v, r, p, f);
    AlongRows(u, r, p, f);
    AlongRows(Cross(v, u), Cross(p, f), Cross(f, r), Cross(r, p));
    CrossRows(r, p, f);
    CrossParts(Along(v, r, p, f), Along(u, r, p, f));
    BinetCauchy(b, c, v, u);
    BinetCauchy(c, a, v, u);
    BinetCauchy(a, b, v, u);
    MulCommutes(Dot(b, u), Dot(c, v));
    MulCommutes(Dot(c, u), Dot(a, v));
    MulCommutes(Dot(a, u), Dot(b, v));
  }

  lemma DotParts(a: Vec, b: Vec)
    ensures Dot(a, b) == Mul(a.x, b.x) + Mul(a.y, b.y) + Mul(a.z, b.z)
  {
  }

  lemma MulZero(x: real)
    ensures Mul(x, 0.0) == Mul(0.0, x) == 0.0
  {
  }

  lemma DotCross(a: Vec, b: Vec)
    ensures Dot(a, Cross(a, b)) == Dot(b, Cross(a, b)) == 0.0
  {
    hide Mul, Dot, Cross;
    TripleCycles(a, b, a);
    DotSymmetric(a, Cross(a, b));
    DotSymmetric(b, Cross(a, b));
  }

  /** Each axis' coordinate is picked out by the cross product of the other two. */
  lemma PickCoordinate(w: Vec, r: Vec, p: Vec, f: Vec)
    ensures Dot(Cross(p, f), Along(w, r, p, f)) == Mul(w.x, Dot(r, Cross(p, f)))
    ensures Dot(Cross(f, r), Along(w, r, p, f)) == Mul(w.y, Dot(p, Cross(f, r)))
    ensures Dot(Cross(r, p), Along(w, r, p, f)) == Mul(w.z, Dot(f, Cross(r, p)))
  {
    hide *;
    var t := Along(w, r, p, f);
    DotSymmetric(Cross(p, f), t);
    DotSymmetric(Cross(f, r), t);
    DotSymmetric(Cross(r, p), t);
    DotAlong(w, r, p, f, Cross(p, f));
    DotAlong(w, r, p, f, Cross(f, r));
    DotAlong(w, r, p, f, Cross(r, p));
    DotCross(p, f);
    DotCross(f, r);
    DotCross(r, p);
    MulZero(w.x);
    MulZero(w.y);
    MulZero(w.z);
  }

  lemma TripleParts(a: Vec, b: Vec, c: Vec)
    ensures Triple(a, b, c) == Dot(Cross(a, b), c)
    ensures Dot(a, Cross(b, c)) == Dot(b, Cross(c, a)) == Dot(c, Cross(a, b)) == Triple(a, b, c)
  {
    hide Mul, Dot, Cross;
    TripleCycles(a, b, c);
    TripleCycles(b, c, a);
    DotSymmetric(a, Cross(b, c));
    DotSymmetric(b, Cross(c, a));
    DotSymmetric(c, Cross(a, b));
  }

  lemma CommonFactor(k: Vec, w: Vec, d: real)
    ensures Mul(k.x, Mul(w.x, d)) + Mul(k.y, Mul(w.y, d)) + Mul(k.z, Mul(w.z, d)) == Mul(Dot(k, w), d)
  {
    hide Mul;
    MulAssociates(k.x, w.x, d);
    MulAssociates(k.y, w.y, d);
    MulAssociates(k.z, w.z, d);
    MulDistributes(Mul(k.x, w.x) + Mul(k.y, w.y), Mul(k.z, w.z), d);
    MulDistributes(Mul(k.x, w.x), Mul(k.y, w.y), d);
  }

  /** Coordinates multiply a triple product by that of the axes. */
  lemma TripleAlong(v: Vec, u: Vec, w: Vec, r: Vec, p: Vec, f: Vec)
    ensures Triple(Along(v, r, p, f), Along(u, r, p, f), Along(w, r, p, f)) == Mul(Triple(v, u, w), Triple(r, p, f))
  {
    hide *;
    var k, t, d := Cross(v, u), Along(w, r, p, f), Triple(r, p, f);
    CrossAlong(v, u, r, p, f);
    TripleParts(Along(v, r, p, f), Along(u, r, p, f), t);
    TripleParts(v, u, w);
    TripleParts(r, p, f);
    DotAlong(k, Cross(p, f), Cross(f, r), Cross(r, p), t);
    PickCoordinate(w, r, p, f);
    CommonFactor(k, w, d);
  }

  lemma TripleTransposed(r: Vec, p: Vec, f: Vec)
    ensures Triple(Vec(r.x, p.x, f.x), Vec(r.y, p.y, f.y), Vec(r.z, p.z, f.z)) == Triple(r, p, f)
  {
    Expanded(r.x, r.y, r.z, p.x, p.y, p.z, f.x, f.y, f.z);
    Expanded(r.x, p.x, f.x, r.y, p.y, f.y, r.z, p.z, f.z);
  }

  lemma MulInverse(x: real, d: real)
    requires d != 0.0
    ensures Mul(1.0 / d, Mul(x, d)) == x
  {
    var i := 1.0 / d;
    assert i * d == 1.0;
    assert Mul(i * d, x) == Mul(1.0, x);
    assert Mul(i, Mul(x, d)) == Mul(i, x * d);
  }

  /** Cramer's rule, up to the factor 1 / d. */
  lemma CramerNumerators(w: Vec, r: Vec, p: Vec, f: Vec)
    ensures
      var m := Vec(Dot(Cross(p, f), w), Dot(Cross(f, r), w), Dot(Cross(r, p), w));
      var d := Triple(r, p, f);
      && Dot(m, Vec(r.x, p.x, f.x)) == Mul(w.x, d)
      && Dot(m, Vec(r.y, p.y, f.y)) == Mul(w.y, d)
      && Dot(m, Vec(r.z, p.z, f.z)) == Mul(w.z, d)
  {
    hide *;
    var a, b, c := Vec(r.x, p.x, f.x), Vec(r.y, p.y, f.y), Vec(r.z, p.z, f.z);
    var m := Vec(Dot(Cross(p, f), w), Dot(Cross(f, r), w), Dot(Cross(r, p), w));
    CrossRows(r, p, f);
    RowsAlong(w, Cross(p, f), Cross(f, r), Cross(r, p));
    assert m == Along(w, Cross(b, c), Cross(c, a), Cross(a, b));
    DotAlong(w, Cross(b, c), Cross(c, a), Cross(a, b), a);
    DotAlong(w, Cross(b, c), Cross(c, a), Cross(a, b), b);
    DotAlong(w, Cross(b, c), Cross(c, a), Cross(a, b), c);
    OrthogonalCross(a, b);
    OrthogonalCross(b, c);
    OrthogonalCross(c, a);
    TripleParts(a, b, c);
    DotSymmetric(a, Cross(b, c));
    DotSymmetric(b, Cross(c, a));
    TripleTransposed(r, p, f);
    MulZero(w.x);
    MulZero(w.y);
    MulZero(w.z);
  }

  lemma OrthogonalCross(a: Vec, b: Vec)
    ensures Dot(Cross(a, b), a) == Dot(Cross(a, b), b) == 0.0
  {
    hide Mul, Dot, Cross;
    TripleCycles(a, b, a);
  }

  lemma RowsAlong(w: Vec, x: Vec, y: Vec, z: Vec)
    ensures Vec(Dot(x, w), Dot(y, w), Dot(z, w)) == Along(w, Vec(x.x, y.x, z.x), Vec(x.y, y.y, z.y), Vec(x.z, y.z, z.z))
  {
    hide Mul;
  }

  /** Along independent axes every vector has coordinates. */
  lemma HasCoordinates(w: Vec, r: Vec, p: Vec, f: Vec) returns (k: Vec)
    requires Triple(r, p, f) != 0.0
    ensures Along(k, r, p, f) == w
  {
    hide *;
    var d := Triple(r, p, f);
    var m := Vec(Dot(Cross(p, f), w), Dot(Cross(f, r), w), Dot(Cross(r, p), w));
    var a, b, c := Vec(r.x, p.x, f.x), Vec(r.y, p.y, f.y), Vec(r.z, p.z, f.z);
    k := Scale(m, 1.0 / d);
    CramerNumerators(w, r, p, f);
    AlongRows(k, r, p, f);
    DotSymmetric(a, k);
    DotSymmetric(b, k);
    DotSymmetric(c, k);
    DotScale(m, 1.0 / d, a);
    DotScale(m, 1.0 / d, b);
    DotScale(m, 1.0 / d, c);
    MulInverse(w.x, d);
    MulInverse(w.y, d);
    MulInverse(w.z, d);
  }

  // -------------------------------------------------------------------------------- lengths

  lemma DotOfSelf(a: Vec)
    ensures 0.0 <= Dot(a, a)
    ensures Dot(a, a) == 0.0 ==> a.x == a.y == a.z == 0.0
  {
    hide *;
    DotParts(a, a);
    SquareSign(a.x);
    SquareSign(a.y);
    SquareSign(a.z);
  }

  lemma MulOne(x: real)
    ensures Mul(1.0, x) == x
  {
  }

  /** A unit vector sees no more of a vector than its length. */
  lemma UnitDotBound(n: Vec, w: Vec, r: real)
    requires Dot(n, n) == 1.0 && 0.0 <= r && Dot(w, w) <= Mul(r, r)
    ensures -r <= Dot(n, w) <= r
  {
    hide *;
    BinetCauchy(n, w, n, w);
    DotSymmetric(w, n);
    DotOfSelf(Cross(n, w));
    MulOne(Dot(w, w));
    SquaresOrder(Dot(n, w), r);
  }
}
