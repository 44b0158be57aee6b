/** What a plane test says of all the points of a sphere or a box. */
module Culling {
  import opened Arithmetic
  import opened Vectors
  import opened Frustum

  datatype AABB = AABB(mins: Vec, maxs: Vec)

  ghost predicate InBall(q: Vec, center: Vec, radius: real) {
    Dot(Minus(q, center), Minus(q, center)) <= Mul(radius, radius)
  }

  ghost predicate InBox(q: Vec, b: AABB) {
    b.mins.x <= q.x <= b.maxs.x && b.mins.y <= q.y <= b.maxs.y && b.mins.z <= q.z <= b.maxs.z
  }

  ghost predicate IsUnit(n: Vec) {
    Dot(n, n) == 1.0
  }

  function Center(b: AABB): Vec {
    Scale(Plus(b.maxs, b.mins), 0.5)
  }

  function Scales(b: AABB): Vec {
    Scale(Minus(b.maxs, b.mins), 0.5)
  }

  /** The corner furthest along the normal. */
  function VertexP(b: AABB, n: Vec): Vec {
    Vec(if n.x >= 0.0 then b.maxs.x else b.mins.x,
        if n.y >= 0.0 then b.maxs.y else b.mins.y,
        if n.z >= 0.0 then b.maxs.z else b.mins.z)
  }

  lemma DistanceChange(p: Plane, q: Vec, c: Vec)
    ensures Distance(p, q) == Distance(p, c) + Dot(p.normal, Minus(q, c))
  {
    hide Mul, Dot, Minus;
    DotSymmetric(p.normal, Minus(q, c));
    DotSymmetric(p.normal, q);
    DotSymmetric(p.normal, c);
    DotPlus(q, c, p.normal);
  }

  /** The sphere test passes a plane exactly when some point of the ball is on its inner side. */
  lemma SphereTestIsExact(p: Plane, center: Vec, radius: real)
    requires IsUnit(p.normal) && 0.0 <= radius
    ensures -radius <= Distance(p, center) <==> exists q :: InBall(q, center, radius) && 0.0 <= Distance(p, q)
  {
    hide Mul, Dot, Minus, Distance, Plus, Scale;
    if q :| InBall(q, center, radius) && 0.0 <= Distance(p, q) {
      DistanceChange(p, q, center);
      UnitDotBound(p.normal, Minus(q, center), radius);
    }
    var q := Plus(center, Scale(p.normal, radius));
    var step := Minus(q, center);
    StepBack(center, Scale(p.normal, radius));
    DistanceChange(p, q, center);
    DotScale(p.normal, radius, p.normal);
    DotSymmetric(p.normal, step);
    DotScale(p.normal, radius, step);
    MulOne(radius);
    MulCommutes(radius, 1.0);
    assert InBall(q, center, radius);
  }

  lemma StepBack(c: Vec, w: Vec)
    ensures Minus(Plus(c, w), c) == w
  {
  }

  lemma FurthestCoordinate(n: real, lo: real, hi: real, x: real)
    requires lo <= x <= hi
    ensures Mul(n, x) <= Mul(n, if n >= 0.0 then hi else lo)
  {
    if n > 0.0 {
      MulSignLeft(n, hi - x);
      MulMinus(n, hi, x);
    } else if n < 0.0 {
      MulSignLeft(-n, x - lo);
      MulMinus(-n, x, lo);
      MulNegates(n, x);
      MulNegates(n, lo);
    }
  }

  /** The box test passes a plane exactly when some point of the box is on its inner side. */
  lemma BoxTestIsExact(p: Plane, b: AABB)
    requires InBox(b.mins, b)
    ensures 0.0 <= Distance(p, VertexP(b, p.normal)) <==> exists q :: InBox(q, b) && 0.0 <= Distance(p, q)
  {
    hide Mul;
    var v := VertexP(b, p.normal);
    if q :| InBox(q, b) && 0.0 <= Distance(p, q) {
      FurthestCoordinate(p.normal.x, b.mins.x, b.maxs.x, q.x);
      FurthestCoordinate(p.normal.y, b.mins.y, b.maxs.y, q.y);
      FurthestCoordinate(p.normal.z, b.mins.z, b.maxs.z, q.z);
    }
    assert InBox(v, b);
  }

  lemma SquareBound(x: real, s: real)
    requires -s <= x <= s
    ensures Mul(x, x) <= Mul(s, s)
  {
    ProductNonNegative(s - x, s + x);
  }

  /** The box is inside the ball around its centre with half its diagonal. */
  lemma BoxInBall(q: Vec, b: AABB, radius: real)
    requires InBox(q, b) && Mul(radius, radius) == Dot(Scales(b), Scales(b))
    ensures InBall(q, Center(b), radius)
  {
    var d, s := Minus(q, Center(b)), Scales(b);
    assert -s.x <= d.x <= s.x && -s.y <= d.y <= s.y && -s.z <= d.z <= s.z;
    BoxSquares(d, s);
  }

  /** No smaller ball around the middle holds the box: its corners lie on the border. */
  lemma CornersAreOnBall(b: AABB, radius: real)
    requires Mul(radius, radius) == Dot(Scales(b), Scales(b))
    ensures Dot(Minus(b.maxs, Center(b)), Minus(b.maxs, Center(b))) == Mul(radius, radius)
    ensures Dot(Minus(b.mins, Center(b)), Minus(b.mins, Center(b))) == Mul(radius, radius)
  {
    var s := Scales(b);
    assert Minus(b.maxs, Center(b)) == s;
    assert Minus(b.mins, Center(b)) == Vec(-s.x, -s.y, -s.z);
  }

  lemma BoxSquares(d: Vec, s: Vec)
    requires -s.x <= d.x <= s.x && -s.y <= d.y <= s.y && -s.z <= d.z <= s.z
    ensures Dot(d, d) <= Dot(s, s)
  {
    hide Mul;
    SquareBound(d.x, s.x);
    SquareBound(d.y, s.y);
    SquareBound(d.z, s.z);
  }

  // -------------------------------------------------------------------------------- masks

  /** Bit i of the mask. */
  predicate Tested(mask: bv8, i: nat)
    requires i < PLANES
  {
    mask & ((1 as bv8) << i) != 0
  }

  const ALL_PLANES: bv8 := 0x3F
  const SIDE_PLANES: bv8 := 0xF

  lemma Masks()
    ensures forall i :: 0 <= i < PLANES ==> Tested(ALL_PLANES, i)
    ensures forall i :: 0 <= i < PLANES ==> (Tested(SIDE_PLANES, i) <==> i < NEA)
  {
    assert Tested(ALL_PLANES, 0) && Tested(ALL_PLANES, 1) && Tested(ALL_PLANES, 2);
    assert Tested(ALL_PLANES, 3) && Tested(ALL_PLANES, 4) && Tested(ALL_PLANES, 5);
    assert Tested(SIDE_PLANES, 0) && Tested(SIDE_PLANES, 1) && Tested(SIDE_PLANES, 2);
    assert Tested(SIDE_PLANES, 3) && !Tested(SIDE_PLANES, 4) && !Tested(SIDE_PLANES, 5);
  }

  // -------------------------------------------------------------------------------- views

  ghost predicate SphereHits(v: View, inverse: InverseLength, mask: bv8, center: Vec, radius: real) {
    forall i :: 0 <= i < PLANES && Tested(mask, i) ==> -radius <= Distance(PlaneOf(v, i, inverse), center)
  }

  ghost predicate BoxHits(v: View, inverse: InverseLength, mask: bv8, b: AABB) {
    forall i :: 0 <= i < PLANES && Tested(mask, i) ==>
      0.0 <= Distance(PlaneOf(v, i, inverse), VertexP(b, PlaneOf(v, i, inverse).normal))
  }

  /** No sphere that shares a point with the view volume is culled, whatever planes are tested. */
  lemma SphereCullingIsSound(v: View, inverse: InverseLength, mask: bv8, center: Vec, radius: real, q: Vec)
    requires Proper(v) && Normalises(inverse) && 0.0 <= radius
    requires Shows(v, q) && InBall(q, center, radius)
    ensures SphereHits(v, inverse, mask, center, radius)
  {
    hide Mul, Distance, PlaneOf, InBall, Shows, Tested, Proper, Normalises;
    ShownIsInsidePlanes(v, q, inverse);
    forall i | 0 <= i < PLANES ensures -radius <= Distance(PlaneOf(v, i, inverse), center) {
      PlaneIsUnit(v, i, inverse);
      SphereTestIsExact(PlaneOf(v, i, inverse), center, radius);
    }
  }

  /** No box that shares a point with the view volume is culled, whatever planes are tested. */
  lemma BoxCullingIsSound(v: View, inverse: InverseLength, mask: bv8, b: AABB, q: Vec)
    requires Proper(v) && Normalises(inverse)
    requires Shows(v, q) && InBox(q, b)
    ensures BoxHits(v, inverse, mask, b)
  {
    hide Mul, Distance, PlaneOf, VertexP, Shows, Tested, Proper, Normalises;
    ShownIsInsidePlanes(v, q, inverse);
    forall i | 0 <= i < PLANES
      ensures 0.0 <= Distance(PlaneOf(v, i, inverse), VertexP(b, PlaneOf(v, i, inverse).normal))
    {
      BoxTestIsExact(PlaneOf(v, i, inverse), b);
    }
  }

  /** With all planes tested, a point is kept exactly when it is shown. */
  lemma PointCullingIsExact(v: View, inverse: InverseLength, q: Vec)
    requires Proper(v) && Normalises(inverse)
    ensures SphereHits(v, inverse, ALL_PLANES, q, 0.0) <==> Shows(v, q)
  {
    hide Mul, Distance, PlaneOf, Shows, Tested, Proper, Normalises;
    ShownIsInsidePlanes(v, q, inverse);
    Masks();
  }
}
