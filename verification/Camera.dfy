/** The camera object: its frustum's corners and planes, updated in place, and the culling tests. */
module Camera {
  import opened Arithmetic
  import opened Vectors
  import opened Frustum
  import opened Culling

  class Camera {
    var pos: Vec
    var forward: Vec
    var right: Vec
    var up: Vec
    var perspective: bool
    var tanHalfFov: real
    var aspectRatio: real
    /** Half width and height of an orthographic view, near and far distance. */
    var scaleX: real
    var scaleY: real
    var zNear: real
    var zFar: real
    const verts: array<Vec>
    const planes: array<Plane>
    const inViewPlanesMask: bv8

    constructor (shadow: bool)
      ensures Allocated() && fresh(verts) && fresh(planes)
      ensures inViewPlanesMask == if shadow then SIDE_PLANES else ALL_PLANES
    {
      verts := new Vec[CORNERS](_ => Vec(0.0, 0.0, 0.0));
      planes := new Plane[PLANES](_ => Plane(Vec(0.0, 0.0, 0.0), 0.0));
      inViewPlanesMask := if shadow then SIDE_PLANES else ALL_PLANES;
    }

    ghost predicate Allocated() {
      verts.Length == CORNERS && planes.Length == PLANES
    }

    /** Tangent and arc tangent cancel: the horizontal half angle's tangent is the vertical one's times the aspect. */
    function View(): View
      reads this
    {
      var projection :=
        if perspective then Perspective(tanHalfFov * aspectRatio, tanHalfFov) else Orthographic(scaleX, scaleY);
      Frustum.View(pos, forward, right, up, projection, zNear, zFar)
    }

    /** The point z ahead of the camera, x to the right and y up. */
    function PointAt(x: real, y: real, z: real): Vec
      reads this
    {
      Plus(pos, Plus(Plus(Scale(right, x), Scale(up, y)), Scale(forward, z)))
    }

    /** The camera sees a point with these coordinates: between the two distances and not beyond a border. */
    ghost predicate Sees(x: real, y: real, z: real)
      reads this
    {
      && zNear <= z <= zFar
      && if perspective then
           && -(z * tanHalfFov * aspectRatio) <= x <= z * tanHalfFov * aspectRatio
           && -(z * tanHalfFov) <= y <= z * tanHalfFov
         else -scaleX <= x <= scaleX && -scaleY <= y <= scaleY
    }

    /** Right, up and forward are independent, with up on the side of right x forward; nothing is degenerate. */
    ghost predicate IsSetUp()
      reads this
    {
      && 0.0 < zNear < zFar && Triple(right, up, forward) < 0.0
      && if perspective then 0.0 < tanHalfFov && 0.0 < aspectRatio else 0.0 < scaleX && 0.0 < scaleY
    }

    lemma ViewIsProper()
      ensures Proper(View()) <==> IsSetUp()
    {
      hide Triple;
      if 0.0 < tanHalfFov {
        SignOfProduct(aspectRatio, tanHalfFov);
      }
    }

    lemma PointIsAlong(x: real, y: real, z: real)
      ensures At(View(), Vec(x, y, z)) == PointAt(x, y, z)
    {
      hide Mul;
    }

    lemma HalfSizes(z: real)
      ensures perspective ==>
                && HalfX(View().projection, z) == z * tanHalfFov * aspectRatio
                && HalfY(View().projection, z) == z * tanHalfFov
      ensures !perspective ==> HalfX(View().projection, z) == scaleX && HalfY(View().projection, z) == scaleY
    {
    }

    lemma SeenIsInVolume(x: real, y: real, z: real)
      ensures InVolume(View(), Vec(x, y, z)) <==> Sees(x, y, z)
    {
      hide HalfX, HalfY;
      HalfSizes(z);
    }

    /** What the view shows is what the camera's own fields say it sees. */
    lemma SeenIsShown(x: real, y: real, z: real, inverse: InverseLength)
      requires IsSetUp() && Normalises(inverse)
      ensures Shows(View(), PointAt(x, y, z)) <==> Sees(x, y, z)
    {
      hide Mul, At, InVolume, Normalises, View, PointAt, Sees, Shows, Proper, IsSetUp;
      ViewIsProper();
      PointIsAlong(x, y, z);
      SeenIsInVolume(x, y, z);
      ShownIsInVolume(View(), Vec(x, y, z), inverse);
    }

    /** Corners and planes belong to the current view. */
    ghost predicate UpToDate(inverse: InverseLength)
      reads this, verts, planes
    {
      && Allocated()
      && (forall i :: 0 <= i < CORNERS ==> verts[i] == CornerOf(View(), i))
      && (forall i :: 0 <= i < PLANES ==> planes[i] == PlaneOf(View(), i, inverse))
    }

    method SetFrustumPlane(i: nat, v1i: nat, v2i: nat, v3i: nat, inverse: InverseLength)
      requires Allocated() && i < PLANES && v1i < CORNERS && v2i < CORNERS && v3i < CORNERS
      modifies planes
      ensures planes[..] == old(planes[..])[i := PlaneThrough(verts[v1i], verts[v2i], verts[v3i], inverse)]
    {
      var v1, v2, v3 := verts[v1i], verts[v2i], verts[v3i];
      var u, v := Minus(v1, v2), Minus(v3, v2);
      var n := Scale(Cross(v, u), inverse(Cross(v, u)));
      var d := -Dot(n, v2);
      planes[i] := Plane(n, d);
    }

    method SetCorners()
      requires Allocated()
      modifies verts
      ensures forall i :: 0 <= i < CORNERS ==> verts[i] == CornerOf(View(), i)
    {
      hide Mul, Plus, Scale, HalfX, HalfY;
      var p := View().projection;
      var nx, ny, fx, fy := HalfX(p, zNear), HalfY(p, zNear), HalfX(p, zFar), HalfY(p, zFar);
      verts[NBL] := Corner(View(), zNear, -nx, -ny);
      verts[NBR] := Corner(View(), zNear, nx, -ny);
      verts[NTR] := Corner(View(), zNear, nx, ny);
      verts[NTL] := Corner(View(), zNear, -nx, ny);
      verts[FBL] := Corner(View(), zFar, -fx, -fy);
      verts[FBR] := Corner(View(), zFar, fx, -fy);
      verts[FTR] := Corner(View(), zFar, fx, fy);
      verts[FTL] := Corner(View(), zFar, -fx, fy);
    }

    method UpdateFrustum(inverse: InverseLength)
      requires Allocated()
      modifies verts, planes
      ensures UpToDate(inverse)
    {
      hide Mul, Plus, Scale, Corner, CornerOf, CornerCoordinates, PlaneThrough, PlaneOf, View, HalfX, HalfY;
      SetCorners();
      SixPlanes(View(), inverse);
      SetFrustumPlane(LFT, NTL, NBL, FBL, inverse);
      SetFrustumPlane(RGT, NBR, NTR, FBR, inverse);
      SetFrustumPlane(BOT, NBL, NBR, FBR, inverse);
      SetFrustumPlane(TOP, NTR, NTL, FTL, inverse);
      SetFrustumPlane(NEA, NTL, NTR, NBR, inverse);
      SetFrustumPlane(FAR, FTR, FTL, FBL, inverse);
    }

    method IntersectSphere(p: Vec, radius: real, testMask: bv8) returns (hit: bool)
      requires Allocated()
      ensures hit <==> forall i :: 0 <= i < PLANES && Tested(testMask, i) ==> -radius <= Distance(planes[i], p)
    {
      hide Mul, Dot, Tested;
      var i := 0;
      while i < PLANES
        invariant 0 <= i <= PLANES
        invariant forall j :: 0 <= j < i && Tested(testMask, j) ==> -radius <= Distance(planes[j], p)
      {
        if Tested(testMask, i) {
          var dist := Dot(planes[i].normal, p) + planes[i].w;
          if dist < -radius {
            return false;
          }
        }
        i := i + 1;
      }
      return true;
    }

    method IntersectAABB(b: AABB, testMask: bv8) returns (hit: bool)
      requires Allocated()
      ensures hit <==>
        forall i :: 0 <= i < PLANES && Tested(testMask, i) ==> 0.0 <= Distance(planes[i], VertexP(b, planes[i].normal))
    {
      hide Mul, Dot, Tested, VertexP;
      var i := 0;
      while i < PLANES
        invariant 0 <= i <= PLANES
        invariant forall j :: 0 <= j < i && Tested(testMask, j) ==>
                    0.0 <= Distance(planes[j], VertexP(b, planes[j].normal))
      {
        if Tested(testMask, i) {
          var plane := planes[i];
          if Dot(plane.normal, VertexP(b, plane.normal)) + plane.w < 0.0 {
            return false;
          }
        }
        i := i + 1;
      }
      return true;
    }

    /** A culled sphere has no point that is shown. */
    method InView(point: Vec, radius: real, ghost inverse: InverseLength) returns (visible: bool)
      requires UpToDate(inverse) && IsSetUp() && Normalises(inverse) && 0.0 <= radius
      ensures visible <==> SphereHits(View(), inverse, inViewPlanesMask, point, radius)
      ensures forall x, y, z :: Sees(x, y, z) && InBall(PointAt(x, y, z), point, radius) ==> visible
      ensures radius == 0.0 && inViewPlanesMask == ALL_PLANES ==>
                forall x, y, z :: point == PointAt(x, y, z) ==> (visible <==> Sees(x, y, z))
    {
      hide Mul, Tested, Distance, PlaneOf, Shows, InBall, Proper, Normalises, View, PointAt, Sees, IsSetUp;
      ViewIsProper();
      visible := IntersectSphere(point, radius, inViewPlanesMask);
      PointCullingIsExact(View(), inverse, point);
      forall x, y, z ensures Shows(View(), PointAt(x, y, z)) <==> Sees(x, y, z) {
        SeenIsShown(x, y, z, inverse);
      }
      forall x, y, z | Sees(x, y, z) && InBall(PointAt(x, y, z), point, radius) ensures visible {
        SphereCullingIsSound(View(), inverse, inViewPlanesMask, point, radius, PointAt(x, y, z));
      }
    }

    /** A culled box has no point that is shown; the radius is half the length of its diagonal. */
    method InViewBox(b: AABB, radius: real, ghost inverse: InverseLength) returns (visible: bool)
      requires UpToDate(inverse) && IsSetUp() && Normalises(inverse)
      requires 0.0 <= radius && Mul(radius, radius) == Dot(Scales(b), Scales(b))
      ensures visible <==>
        && SphereHits(View(), inverse, inViewPlanesMask, Center(b), radius)
        && BoxHits(View(), inverse, inViewPlanesMask, b)
      ensures forall x, y, z :: Sees(x, y, z) && InBox(PointAt(x, y, z), b) ==> visible
    {
      hide Mul, Tested, Distance, PlaneOf, Shows, InBall, InBox, VertexP, Center, Scales, Dot, Proper, Normalises,
           View, PointAt, Sees, IsSetUp;
      ViewIsProper();
      visible := InView(Center(b), radius, inverse);
      if visible {
        visible := IntersectAABB(b, inViewPlanesMask);
      }
      forall x, y, z | Sees(x, y, z) && InBox(PointAt(x, y, z), b) ensures visible {
        SeenIsShown(x, y, z, inverse);
        BoxInBall(PointAt(x, y, z), b, radius);
        BoxCullingIsSound(View(), inverse, inViewPlanesMask, b, PointAt(x, y, z));
      }
    }
  }
}
