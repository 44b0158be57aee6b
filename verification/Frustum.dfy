/**
 * The view frustum: eight corners, and six planes each taken from three corners. The planes cut out
 * exactly the view volume, for any camera axes that are independent and have up on the side of
 * right x forward.
 */
module Frustum {
  import opened Vectors

  datatype Projection = Perspective(tanX: real, tanY: real) | Orthographic(scaleX: real, scaleY: real)

  datatype View = View(pos: Vec, forward: Vec, right: Vec, up: Vec, projection: Projection, zNear: real, zFar: real)

  datatype Plane = Plane(normal: Vec, w: real)

  /** What 1 / sqrt returns for the squared length of a vector. */
  type InverseLength = Vec -> real

  const PLANES := 6
  const CORNERS := 8

  const NBL := 0
  const NBR := 1
  const NTR := 2
  const NTL := 3
  const FBL := 4
  const FBR := 5
  const FTR := 6
  const FTL := 7

  const LFT := 0
  const RGT := 1
  const BOT := 2
  const TOP := 3
  const NEA := 4
  const FAR := 5

  /** Half the width of the volume at a depth. */
  function HalfX(p: Projection, z: real): real {
    match p
    case Perspective(tanX, _) => Mul(z, tanX)
    case Orthographic(scaleX, _) => scaleX
  }

  function HalfY(p: Projection, z: real): real {
    match p
    case Perspective(_, tanY) => Mul(z, tanY)
    case Orthographic(_, scaleY) => scaleY
  }

  function Handedness(v: View): real {
    Triple(v.right, v.up, v.forward)
  }

  ghost predicate Proper(v: View) {
    && 0.0 < v.zNear < v.zFar
    && Handedness(v) < 0.0
    && match v.projection
       case Perspective(x, y) => 0.0 < x && 0.0 < y
       case Orthographic(x, y) => 0.0 < x && 0.0 < y
  }

  ghost predicate Normalises(inverse: InverseLength) {
    forall n :: 0.0 < Dot(n, n) ==> 0.0 < inverse(n) && Mul(inverse(n), Mul(inverse(n), Dot(n, n))) == 1.0
  }

  /** The axes the engine builds, up normalised from right x forward, are of the required kind. */
  lemma AxesAreHanded(right: Vec, forward: Vec, s: real)
    requires 0.0 < s && Cross(right, forward) != Vec(0.0, 0.0, 0.0)
    ensures Triple(right, Scale(Cross(right, forward), s), forward) < 0.0
  {
    hide Mul, Dot, Cross, Scale;
    var c := Cross(right, forward);
    var up := Scale(c, s);
    TripleParts(right, up, forward);
    CrossFlips(forward, right);
    DotScale(c, s, Cross(forward, right));
    DotScale(c, -1.0, c);
    DotSymmetric(c, Cross(forward, right));
    DotOfSelf(c);
    assert Vec(c.x, c.y, c.z) == c;
    MulMinusOne(Dot(c, c));
    MulSign(Dot(c, c), s);
    MulNegates(s, Dot(c, c));
  }

  lemma CrossFlips(a: Vec, b: Vec)
    ensures Cross(a, b) == Scale(Cross(b, a), -1.0)
  {
    hide Mul;
    MulCommutes(a.y, b.z);
    MulCommutes(a.z, b.y);
    MulCommutes(a.z, b.x);
    MulCommutes(a.x, b.z);
    MulCommutes(a.x, b.y);
    MulCommutes(a.y, b.x);
    MulMinusOne(Cross(b, a).x);
    MulMinusOne(Cross(b, a).y);
    MulMinusOne(Cross(b, a).z);
  }

  lemma MulMinusOne(x: real)
    ensures Mul(x, -1.0) == Mul(-1.0, x) == -x
  {
  }

  lemma MulNegates(x: real, y: real)
    ensures Mul(x, -y) == Mul(-x, y) == -Mul(x, y) && Mul(x, y) == Mul(y, x)
  {
  }

  // -------------------------------------------------------------------------------- construction

  function Corner(v: View, z: real, x: real, y: real): Vec {
    Plus(Plus(Plus(v.pos, Scale(v.forward, z)), Scale(v.right, x)), Scale(v.up, y))
  }

  /** The coordinates of corner i along right, up and forward. */
  function CornerCoordinates(v: View, i: nat): Vec
    requires i < CORNERS
  {
    var z := if i < FBL then v.zNear else v.zFar;
    var x, y := HalfX(v.projection, z), HalfY(v.projection, z);
    Vec(if i == NBL || i == NTL || i == FBL || i == FTL then -x else x,
        if i == NBL || i == NBR || i == FBL || i == FBR then -y else y,
        z)
  }

  function CornerOf(v: View, i: nat): Vec
    requires i < CORNERS
  {
    var k := CornerCoordinates(v, i);
    Corner(v, k.z, k.x, k.y)
  }

  datatype Corners = Corners(first: nat, middle: nat, last: nat)

  /** The corners plane i is taken from. */
  function PlaneCorners(i: nat): (c: Corners)
    requires i < PLANES
    ensures c.first < CORNERS && c.middle < CORNERS && c.last < CORNERS
  {
    if i == LFT then Corners(NTL, NBL, FBL)
    else if i == RGT then Corners(NBR, NTR, FBR)
    else if i == BOT then Corners(NBL, NBR, FBR)
    else if i == TOP then Corners(NTR, NTL, FTL)
    else if i == NEA then Corners(NTL, NTR, NBR)
    else Corners(FTR, FTL, FBL)
  }

  function Normal(v1: Vec, v2: Vec, v3: Vec): Vec {
    Cross(Minus(v3, v2), Minus(v1, v2))
  }

  function PlaneThrough(v1: Vec, v2: Vec, v3: Vec, inverse: InverseLength): Plane {
    var n := Scale(Normal(v1, v2, v3), inverse(Normal(v1, v2, v3)));
    Plane(n, -Dot(n, v2))
  }

  function PlaneOf(v: View, i: nat, inverse: InverseLength): Plane
    requires i < PLANES
  {
    var c := PlaneCorners(i);
    PlaneThrough(CornerOf(v, c.first), CornerOf(v, c.middle), CornerOf(v, c.last), inverse)
  }

  lemma SixPlanes(v: View, inverse: InverseLength)
    ensures PlaneOf(v, LFT, inverse) == PlaneThrough(CornerOf(v, NTL), CornerOf(v, NBL), CornerOf(v, FBL), inverse)
    ensures PlaneOf(v, RGT, inverse) == PlaneThrough(CornerOf(v, NBR), CornerOf(v, NTR), CornerOf(v, FBR), inverse)
    ensures PlaneOf(v, BOT, inverse) == PlaneThrough(CornerOf(v, NBL), CornerOf(v, NBR), CornerOf(v, FBR), inverse)
    ensures PlaneOf(v, TOP, inverse) == PlaneThrough(CornerOf(v, NTR), CornerOf(v, NTL), CornerOf(v, FTL), inverse)
    ensures PlaneOf(v, NEA, inverse) == PlaneThrough(CornerOf(v, NTL), CornerOf(v, NTR), CornerOf(v, NBR), inverse)
    ensures PlaneOf(v, FAR, inverse) == PlaneThrough(CornerOf(v, FTR), CornerOf(v, FTL), CornerOf(v, FBL), inverse)
  {
  }

  function Distance(p: Plane, q: Vec): real {
    Dot(p.normal, q) + p.w
  }

  // -------------------------------------------------------------------------------- the view volume

  /** The point with coordinates k. */
  function At(v: View, k: Vec): Vec {
    Plus(v.pos, Along(k, v.right, v.up, v.forward))
  }

  /** How far inside bound i the coordinates k are. */
  function Slack(v: View, i: nat, k: Vec): real
    requires i < PLANES
  {
    if i == LFT then k.x + HalfX(v.projection, k.z)
    else if i == RGT then HalfX(v.projection, k.z) - k.x
    else if i == BOT then k.y + HalfY(v.projection, k.z)
    else if i == TOP then HalfY(v.projection, k.z) - k.y
    else if i == NEA then k.z - v.zNear
    else v.zFar - k.z
  }

  /** The view volume: what the projection shows between the near and the far distance. */
  ghost predicate InVolume(v: View, k: Vec) {
    && v.zNear <= k.z <= v.zFar
    && -HalfX(v.projection, k.z) <= k.x <= HalfX(v.projection, k.z)
    && -HalfY(v.projection, k.z) <= k.y <= HalfY(v.projection, k.z)
  }

  // -------------------------------------------------------------------------------- planes in coordinates

  lemma HalfIsAffine(p: Projection, z: real, near: real, far: real)
    ensures Mul(HalfX(p, far) - HalfX(p, near), z - near) == Mul(HalfX(p, z) - HalfX(p, near), far - near)
    ensures Mul(HalfY(p, far) - HalfY(p, near), z - near) == Mul(HalfY(p, z) - HalfY(p, near), far - near)
  {
    match p
    case Perspective(tanX, tanY) =>
      Proportional(tanX, z, near, far);
      Proportional(tanY, z, near, far);
    case Orthographic(_, _) =>
      MulZero(z - near);
      MulZero(far - near);
  }

  lemma Proportional(t: real, z: real, near: real, far: real)
    ensures Mul(Mul(far, t) - Mul(near, t), z - near) == Mul(Mul(z, t) - Mul(near, t), far - near)
  {
    assert Mul(Mul(far, t) - Mul(near, t), z - near) == Mul(far * t - near * t, z - near);
    assert Mul(Mul(z, t) - Mul(near, t), far - near) == Mul(z * t - near * t, far - near);
  }

  /** A side plane's determinant: s is twice the near side it contains, the rest its spread with depth. */
  lemma SideDeterminant(s: real, depth: real, spread: real, side: real, z: real, slack: real)
    requires Mul(spread, z) == Mul(slack - side, depth)
    ensures Mul(Mul(s, depth), side) + Mul(Mul(s, spread), z) == Mul(Mul(s, depth), slack)
  {
    MulAssociates(s, spread, z);
    MulAssociates(s, slack - side, depth);
    assert Mul(s, Mul(spread, z)) == Mul(s, Mul(slack - side, depth));
    assert Mul(Mul(s, slack - side), depth) == s * (slack - side) * depth;
    assert Mul(Mul(s, depth), side) == Mul(s * depth, side) && Mul(Mul(s, depth), slack) == Mul(s * depth, slack);
  }

  lemma TripleUpEdge(v: Vec, u: Vec, w: Vec)
    requires u.x == u.z == 0.0
    ensures Triple(v, u, w) == Mul(Mul(u.y, v.x), w.z) - Mul(Mul(u.y, v.z), w.x)
  {
    Expanded(v.x, v.y, v.z, 0.0, u.y, 0.0, w.x, w.y, w.z);
    MulAssociates(u.y, v.x, w.z);
    MulAssociates(u.y, v.z, w.x);
  }

  lemma TripleRightEdge(v: Vec, u: Vec, w: Vec)
    requires u.y == u.z == 0.0
    ensures Triple(v, u, w) == Mul(Mul(u.x, v.z), w.y) - Mul(Mul(u.x, v.y), w.z)
  {
    Expanded(v.x, v.y, v.z, u.x, 0.0, 0.0, w.x, w.y, w.z);
    MulAssociates(u.x, v.z, w.y);
    MulAssociates(u.x, v.y, w.z);
  }

  /** A positive factor of plane i's distances: products of the sides the plane is taken from. */
  function Weight(v: View, i: nat): real
    requires i < PLANES
  {
    var p := v.projection;
    if i == LFT || i == RGT then Mul(2.0 * HalfY(p, v.zNear), v.zFar - v.zNear)
    else if i == BOT || i == TOP then Mul(2.0 * HalfX(p, v.zNear), v.zFar - v.zNear)
    else if i == NEA then Mul(2.0 * HalfX(p, v.zNear), 2.0 * HalfY(p, v.zNear))
    else Mul(2.0 * HalfX(p, v.zFar), 2.0 * HalfY(p, v.zFar))
  }

  function CoordinateTriple(v: View, i: nat, k: Vec): real
    requires i < PLANES
  {
    var c := PlaneCorners(i);
    var middle := CornerCoordinates(v, c.middle);
    Triple(Minus(CornerCoordinates(v, c.last), middle), Minus(CornerCoordinates(v, c.first), middle), Minus(k, middle))
  }

  lemma SidePlanes(v: View, i: nat, k: Vec)
    requires i == LFT || i == RGT
    ensures CoordinateTriple(v, i, k) == -Mul(Weight(v, i), Slack(v, i, k))
  {
    hide Mul, Triple, HalfX, HalfY;
    var p := v.projection;
    var near, far, depth, s := HalfX(p, v.zNear), HalfX(p, v.zFar), v.zFar - v.zNear, 2.0 * HalfY(p, v.zNear);
    var side := if i == LFT then k.x + near else near - k.x;
    HalfIsAffine(p, k.z, v.zNear, v.zFar);
    SideDeterminant(s, depth, far - near, side, k.z - v.zNear, Slack(v, i, k));
    var c := PlaneCorners(i);
    var middle := CornerCoordinates(v, c.middle);
    TripleUpEdge(Minus(CornerCoordinates(v, c.last), middle), Minus(CornerCoordinates(v, c.first), middle),
                 Minus(k, middle));
    MulSigns(s, far - near, k.z - v.zNear);
    MulSigns(s, depth, side);
  }

  lemma MulSigns(x: real, y: real, z: real)
    ensures Mul(Mul(x, -y), z) == Mul(Mul(-x, y), z) == Mul(Mul(x, y), -z) == -Mul(Mul(x, y), z)
    ensures Mul(Mul(-x, y), -z) == Mul(Mul(-x, -y), z) == Mul(Mul(x, y), z)
  {
    MulNegates(x, y);
    MulNegates(-x, y);
    MulAssociates(x, y, z);
    MulAssociates(x, -y, z);
    MulAssociates(-x, y, z);
    MulAssociates(x, y, -z);
    MulAssociates(-x, y, -z);
    MulNegates(y, z);
    MulNegates(x, Mul(y, z));
    MulNegates(x, -Mul(y, z));
  }

  lemma LevelPlanes(v: View, i: nat, k: Vec)
    requires i == BOT || i == TOP
    ensures CoordinateTriple(v, i, k) == -Mul(Weight(v, i), Slack(v, i, k))
  {
    hide Mul, Triple, HalfX, HalfY;
    var p := v.projection;
    var near, far, depth, s := HalfY(p, v.zNear), HalfY(p, v.zFar), v.zFar - v.zNear, 2.0 * HalfX(p, v.zNear);
    var side := if i == BOT then k.y + near else near - k.y;
    HalfIsAffine(p, k.z, v.zNear, v.zFar);
    SideDeterminant(s, depth, far - near, side, k.z - v.zNear, Slack(v, i, k));
    var c := PlaneCorners(i);
    var middle := CornerCoordinates(v, c.middle);
    TripleRightEdge(Minus(CornerCoordinates(v, c.last), middle), Minus(CornerCoordinates(v, c.first), middle),
                    Minus(k, middle));
    MulSigns(s, far - near, k.z - v.zNear);
    MulSigns(s, depth, side);
  }

  lemma DepthPlanes(v: View, i: nat, k: Vec)
    requires i == NEA || i == FAR
    ensures CoordinateTriple(v, i, k) == -Mul(Weight(v, i), Slack(v, i, k))
  {
    hide Mul, Triple, HalfX, HalfY;
    var p := v.projection;
    var z := if i == NEA then v.zNear else v.zFar;
    var x, y := 2.0 * HalfX(p, z), 2.0 * HalfY(p, z);
    var c := PlaneCorners(i);
    var middle := CornerCoordinates(v, c.middle);
    TripleRightEdge(Minus(CornerCoordinates(v, c.last), middle), Minus(CornerCoordinates(v, c.first), middle),
                    Minus(k, middle));
    MulZero(x);
    MulZero(-x);
    MulZero(k.y + HalfY(p, z));
    MulZero(k.y - HalfY(p, z));
    MulSigns(x, y, k.z - z);
    MulNegates(x, y);
    MulNegates(Mul(x, y), k.z - z);
  }

  /** The six constructed planes in coordinates: each determinant is minus a positive multiple of the slack. */
  lemma PlaneDeterminant(v: View, i: nat, k: Vec)
    requires i < PLANES
    ensures CoordinateTriple(v, i, k) == -Mul(Weight(v, i), Slack(v, i, k))
  {
    hide Mul, Slack, Weight, CoordinateTriple;
    if i == LFT || i == RGT {
      SidePlanes(v, i, k);
    } else if i == BOT || i == TOP {
      LevelPlanes(v, i, k);
    } else {
      DepthPlanes(v, i, k);
    }
  }

  lemma HalvesArePositive(v: View, z: real)
    requires Proper(v) && 0.0 < z
    ensures 0.0 < HalfX(v.projection, z) && 0.0 < HalfY(v.projection, z)
  {
    match v.projection
    case Perspective(tanX, tanY) =>
      MulSign(z, tanX);
      MulSign(z, tanY);
    case Orthographic(_, _) =>
  }

  lemma WeightIsPositive(v: View, i: nat)
    requires Proper(v) && i < PLANES
    ensures 0.0 < Weight(v, i)
  {
    HalvesArePositive(v, v.zNear);
    HalvesArePositive(v, v.zFar);
    MulSign(2.0 * HalfY(v.projection, v.zNear), v.zFar - v.zNear);
    MulSign(2.0 * HalfX(v.projection, v.zNear), v.zFar - v.zNear);
    MulSign(2.0 * HalfX(v.projection, v.zNear), 2.0 * HalfY(v.projection, v.zNear));
    MulSign(2.0 * HalfX(v.projection, v.zFar), 2.0 * HalfY(v.projection, v.zFar));
  }

  // -------------------------------------------------------------------------------- planes in space

  lemma CornerIsAt(v: View, i: nat)
    requires i < CORNERS
    ensures CornerOf(v, i) == At(v, CornerCoordinates(v, i))
  {
    hide Mul, HalfX, HalfY, CornerCoordinates;
  }

  lemma AtMinus(v: View, k: Vec, l: Vec)
    ensures Minus(At(v, k), At(v, l)) == Along(Minus(k, l), v.right, v.up, v.forward)
  {
    hide Mul;
    ScaleMinus(v.right, k.x, l.x);
    ScaleMinus(v.up, k.y, l.y);
    ScaleMinus(v.forward, k.z, l.z);
  }

  lemma ScaleMinus(a: Vec, k: real, l: real)
    ensures Scale(a, k - l) == Minus(Scale(a, k), Scale(a, l))
  {
    hide Mul;
    MulMinus(a.x, k, l);
    MulMinus(a.y, k, l);
    MulMinus(a.z, k, l);
  }

  lemma MulMinus(x: real, k: real, l: real)
    ensures Mul(x, k - l) == Mul(x, k) - Mul(x, l)
  {
  }

  /** A point's distance from a plane through three corners is a scaled triple product. */
  lemma DistanceIsTriple(v1: Vec, v2: Vec, v3: Vec, q: Vec, inverse: InverseLength)
    ensures
      Distance(PlaneThrough(v1, v2, v3, inverse), q)
      == Mul(inverse(Normal(v1, v2, v3)), Triple(Minus(v3, v2), Minus(v1, v2), Minus(q, v2)))
  {
    hide Mul, Dot, Cross, Scale, Minus;
    var n0 := Normal(v1, v2, v3);
    var n := Scale(n0, inverse(n0));
    DotScale(n0, inverse(n0), Minus(q, v2));
    DotSymmetric(n, Minus(q, v2));
    DotPlus(q, v2, n);
    DotSymmetric(n, q);
    DotSymmetric(n, v2);
  }

  lemma NormalInCoordinates(v: View, i: nat, k: Vec)
    requires i < PLANES
    ensures
      var c := PlaneCorners(i);
      var v1, v2, v3 := CornerOf(v, c.first), CornerOf(v, c.middle), CornerOf(v, c.last);
      Triple(Minus(v3, v2), Minus(v1, v2), Minus(At(v, k), v2))
      == Mul(Weight(v, i), Mul(Slack(v, i, k), -Handedness(v)))
  {
    hide Mul, Minus, Dot, Cross, Triple, Slack, Weight, CornerOf, CornerCoordinates, At, Along;
    var c := PlaneCorners(i);
    var m, a, z := CornerCoordinates(v, c.middle), CornerCoordinates(v, c.first), CornerCoordinates(v, c.last);
    CornerIsAt(v, c.first);
    CornerIsAt(v, c.middle);
    CornerIsAt(v, c.last);
    AtMinus(v, z, m);
    AtMinus(v, a, m);
    AtMinus(v, k, m);
    TripleAlong(Minus(z, m), Minus(a, m), Minus(k, m), v.right, v.up, v.forward);
    PlaneDeterminant(v, i, k);
    var h := Handedness(v);
    MulNegates(Mul(Weight(v, i), Slack(v, i, k)), h);
    MulAssociates(Weight(v, i), Slack(v, i, k), -h);
  }

  /** A point on the axis, strictly inside every bound. */
  lemma MiddleIsInside(v: View, i: nat)
    requires Proper(v) && i < PLANES
    ensures 0.0 < Slack(v, i, Vec(0.0, 0.0, 0.5 * (v.zNear + v.zFar)))
  {
    HalvesArePositive(v, 0.5 * (v.zNear + v.zFar));
  }

  /** No plane degenerates: its three corners span a normal, which can be normalised. */
  lemma NormalIsPositive(v: View, i: nat)
    requires Proper(v) && i < PLANES
    ensures
      var c := PlaneCorners(i);
      var n := Normal(CornerOf(v, c.first), CornerOf(v, c.middle), CornerOf(v, c.last));
      0.0 < Dot(n, n)
  {
    hide Mul, Dot, Cross, Minus, Slack, Weight, CornerOf, At;
    var c := PlaneCorners(i);
    var v1, v2, v3 := CornerOf(v, c.first), CornerOf(v, c.middle), CornerOf(v, c.last);
    var n := Normal(v1, v2, v3);
    var k := Vec(0.0, 0.0, 0.5 * (v.zNear + v.zFar));
    NormalInCoordinates(v, i, k);
    MiddleIsInside(v, i);
    WeightIsPositive(v, i);
    MulSign(Slack(v, i, k), -Handedness(v));
    MulSign(Weight(v, i), Mul(Slack(v, i, k), -Handedness(v)));
    DotOfSelf(n);
    DotOfZero(n, Minus(At(v, k), v2));
  }

  lemma DotOfZero(n: Vec, a: Vec)
    ensures n.x == n.y == n.z == 0.0 ==> Dot(n, a) == 0.0
  {
    MulZero(a.x);
    MulZero(a.y);
    MulZero(a.z);
  }

  /** A point is on the inner side of a constructed plane exactly when its coordinates keep the bound. */
  lemma PlaneIsBound(v: View, i: nat, k: Vec, inverse: InverseLength)
    requires Proper(v) && Normalises(inverse) && i < PLANES
    ensures 0.0 <= Distance(PlaneOf(v, i, inverse), At(v, k)) <==> 0.0 <= Slack(v, i, k)
  {
    hide Mul, Dot, Cross, Minus, Slack, Weight, CornerOf, At, Distance, PlaneThrough, Triple;
    var c := PlaneCorners(i);
    var v1, v2, v3 := CornerOf(v, c.first), CornerOf(v, c.middle), CornerOf(v, c.last);
    var s, h, w, b := inverse(Normal(v1, v2, v3)), -Handedness(v), Weight(v, i), Slack(v, i, k);
    DistanceIsTriple(v1, v2, v3, At(v, k), inverse);
    NormalInCoordinates(v, i, k);
    NormalIsPositive(v, i);
    WeightIsPositive(v, i);
    MulSign(b, h);
    MulSignLeft(w, Mul(b, h));
    MulSignLeft(s, Mul(w, Mul(b, h)));
  }

  lemma MulSignLeft(y: real, x: real)
    requires 0.0 < y
    ensures 0.0 <= x <==> 0.0 <= Mul(y, x)
  {
    MulSign(x, y);
    MulCommutes(x, y);
  }

  /** The constructed normals have length one. */
  lemma PlaneIsUnit(v: View, i: nat, inverse: InverseLength)
    requires Proper(v) && Normalises(inverse) && i < PLANES
    ensures Dot(PlaneOf(v, i, inverse).normal, PlaneOf(v, i, inverse).normal) == 1.0
  {
    hide Mul, Dot, Cross, Minus, CornerOf, Scale;
    var c := PlaneCorners(i);
    var n0 := Normal(CornerOf(v, c.first), CornerOf(v, c.middle), CornerOf(v, c.last));
    var s := inverse(n0);
    NormalIsPositive(v, i);
    DotScale(n0, s, Scale(n0, s));
    DotSymmetric(n0, Scale(n0, s));
    DotScale(n0, s, n0);
  }

  /** The six planes cut out the view volume and nothing else. */
  lemma PlanesCutOutVolume(v: View, k: Vec, inverse: InverseLength)
    requires Proper(v) && Normalises(inverse)
    ensures InVolume(v, k) <==>
      forall i :: 0 <= i < PLANES ==> 0.0 <= Distance(PlaneOf(v, i, inverse), At(v, k))
  {
    hide Mul, Dot, Cross, Minus, Weight, CornerOf, At, Distance, PlaneOf, HalfX, HalfY;
    forall i | 0 <= i < PLANES
      ensures 0.0 <= Distance(PlaneOf(v, i, inverse), At(v, k)) <==> 0.0 <= Slack(v, i, k)
    {
      PlaneIsBound(v, i, k, inverse);
    }
    if forall i :: 0 <= i < PLANES ==> 0.0 <= Distance(PlaneOf(v, i, inverse), At(v, k)) {
      assert 0.0 <= Slack(v, LFT, k) && 0.0 <= Slack(v, RGT, k) && 0.0 <= Slack(v, BOT, k);
      assert 0.0 <= Slack(v, TOP, k) && 0.0 <= Slack(v, NEA, k) && 0.0 <= Slack(v, FAR, k);
    }
  }

  /** A point the camera shows. */
  ghost predicate Shows(v: View, q: Vec) {
    exists k :: At(v, k) == q && InVolume(v, k)
  }

  lemma PointHasCoordinates(v: View, q: Vec) returns (k: Vec)
    requires Proper(v)
    ensures At(v, k) == q
  {
    hide Mul, Along, Triple;
    k := HasCoordinates(Minus(q, v.pos), v.right, v.up, v.forward);
  }

  /** A point is shown exactly when it is on the inner side of all six constructed planes. */
  lemma ShownIsInsidePlanes(v: View, q: Vec, inverse: InverseLength)
    requires Proper(v) && Normalises(inverse)
    ensures Shows(v, q) <==>
      forall i :: 0 <= i < PLANES ==> 0.0 <= Distance(PlaneOf(v, i, inverse), q)
  {
    hide Mul, At, Distance, PlaneOf, InVolume;
    var k := PointHasCoordinates(v, q);
    PlanesCutOutVolume(v, k, inverse);
    if Shows(v, q) {
      var l :| At(v, l) == q && InVolume(v, l);
      PlanesCutOutVolume(v, l, inverse);
    }
  }

  /** Coordinates along independent axes are the only ones of their point. */
  lemma ShownIsInVolume(v: View, k: Vec, inverse: InverseLength)
    requires Proper(v) && Normalises(inverse)
    ensures Shows(v, At(v, k)) <==> InVolume(v, k)
  {
    hide Mul, At, Distance, PlaneOf, InVolume;
    ShownIsInsidePlanes(v, At(v, k), inverse);
    PlanesCutOutVolume(v, k, inverse);
  }
}
