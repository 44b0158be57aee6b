/**
 * Snapping a position to the build grid and searching for the closest free build site.
 * Coordinates are reals; the terrain and occupancy test of a site is an oracle that is fixed for
 * the duration of one search.
 */
module BuildSite {
  import opened Arithmetic
  import opened Wrappers
  import opened SearchOffsets
  import opened SearchHistory

  const SQUARE_SIZE: real := 8.0
  const BUILD_SQUARE_SIZE: real := 16.0

  // ------------------------------------------------------------------------------ snapping

  /** One coordinate of Pos2BuildPos. Bit 1 of the footprint size says whether it is odd in build squares. */
  function Snap(x: real, size: int): real {
    if (size / 2) % 2 == 1
    then (x / BUILD_SQUARE_SIZE).Floor as real * BUILD_SQUARE_SIZE + SQUARE_SIZE
    else ((x + SQUARE_SIZE) / BUILD_SQUARE_SIZE).Floor as real * BUILD_SQUARE_SIZE
  }

  lemma FloorUnique(x: real, n: int)
    requires n as real <= x < n as real + 1.0
    ensures x.Floor == n
  {
  }

  /** Moving the request by whole build squares moves the snapped position by the same amount. */
  lemma SnapShifts(x: real, size: int, k: int)
    ensures Snap(x + k as real * BUILD_SQUARE_SIZE, size) == Snap(x, size) + k as real * BUILD_SQUARE_SIZE
  {
    var y := if (size / 2) % 2 == 1 then x / BUILD_SQUARE_SIZE else (x + SQUARE_SIZE) / BUILD_SQUARE_SIZE;
    FloorUnique(y + k as real, y.Floor + k);
  }

  /** Snapping moves a coordinate by at most half a build square and is idempotent. */
  lemma SnapIsNearAndStable(x: real, size: int)
    ensures x - SQUARE_SIZE <= Snap(x, size) <= x + SQUARE_SIZE
    ensures Snap(Snap(x, size), size) == Snap(x, size)
  {
    var odd := (size / 2) % 2 == 1;
    var n := if odd then (x / BUILD_SQUARE_SIZE).Floor else ((x + SQUARE_SIZE) / BUILD_SQUARE_SIZE).Floor;
    var y := Snap(x, size);
    FloorUnique(if odd then y / BUILD_SQUARE_SIZE else (y + SQUARE_SIZE) / BUILD_SQUARE_SIZE, n);
  }

  /** A footprint around y, counted in whole build squares, starts on the border of a build square. */
  predicate OnBuildGrid(y: real, size: nat) {
    var start := y / BUILD_SQUARE_SIZE - (size / 2) as real / 2.0;
    start == start.Floor as real
  }

  /** Snapping finds the only such position within half a build square, the upper end included. */
  lemma SnapIsOnGrid(x: real, size: nat, y: real)
    ensures y == Snap(x, size) <==> x - SQUARE_SIZE < y <= x + SQUARE_SIZE && OnBuildGrid(y, size)
  {
    var half := size / 2;
    var n := (if half % 2 == 1 then x / BUILD_SQUARE_SIZE else (x + SQUARE_SIZE) / BUILD_SQUARE_SIZE).Floor;
    assert half as real == (half / 2) as real * 2.0 + (half % 2) as real;
    var snapped, first := Snap(x, size), n - half / 2;
    assert snapped / BUILD_SQUARE_SIZE - half as real / 2.0 == first as real;
    FloorUnique(first as real, first);
    if x - SQUARE_SIZE < y <= x + SQUARE_SIZE && OnBuildGrid(y, size) {
      var start := (y / BUILD_SQUARE_SIZE - half as real / 2.0).Floor;
      assert start == first;
    }
  }

  // ---------------------------------------------------------------------------- the request

  datatype UnitDef = UnitDef(xsize: nat, zsize: nat)

  /** A solid object on the ground blocking map. */
  datatype SolidObject = SolidObject(immobile: bool, yardOpen: bool)

  /** Verdict of TestUnitBuildSquare: 0 is blocked; the feature, if any, by its ally team. */
  datatype SiteTest = SiteTest(status: int, feature: Option<int>)

  datatype BlockingMap = BlockingMap(mapx: nat, mapy: nat, cells: seq<Option<SolidObject>>) {
    predicate Valid() {
      |cells| == mapx * mapy
    }

    function At(x: int, z: int): Option<SolidObject>
      requires Valid() && 0 <= x < mapx && 0 <= z < mapy
    {
      RowMajorBound(z, x, mapx, mapy);
      RowMajorBound(x, z, mapy, mapx);
      assert z * mapx + x < mapx * mapy;
      cells[z * mapx + x]
    }
  }

  datatype BuildRequest = BuildRequest(
    worldX: real, worldZ: real, unitDef: UnitDef, facing: int, minDistance: int, allyTeam: int)
  {
    /** BuildInfo normalises the facing and swaps the footprint on odd facings. */
    function BuildFacing(): int {
      (if facing < 0 then -facing else facing) % 4
    }

    function XSize(): nat {
      if BuildFacing() % 2 == 0 then unitDef.xsize else unitDef.zsize
    }

    function ZSize(): nat {
      if BuildFacing() % 2 == 0 then unitDef.zsize else unitDef.xsize
    }
  }

  type Site = (real, real)

  function Wanted(q: BuildRequest, o: SearchOffset): Site {
    (q.worldX + o.dx as real * BUILD_SQUARE_SIZE, q.worldZ + o.dy as real * BUILD_SQUARE_SIZE)
  }

  function SiteAt(q: BuildRequest, o: SearchOffset): Site {
    (Snap(Wanted(q, o).0, q.XSize()), Snap(Wanted(q, o).1, q.ZSize()))
  }

  // ------------------------------------------------------------------- when a site is accepted

  datatype Box = Box(xmin: int, zmin: int, xmax: int, zmax: int)

  function Max(a: int, b: int): int { if a < b then b else a }
  function Min(a: int, b: int): int { if b < a then b else a }

  /** The squares that must hold no immobile object. */
  function NearBox(q: BuildRequest, m: BlockingMap, o: SearchOffset): Box {
    var xsqr, zsqr := Truncate(Wanted(q, o).0 / SQUARE_SIZE), Truncate(Wanted(q, o).1 / SQUARE_SIZE);
    Box(Max(0, xsqr - q.XSize() / 2 - q.minDistance),
        Max(0, zsqr - q.ZSize() / 2 - q.minDistance),
        Min(m.mapx, xsqr + (q.XSize() + 1) / 2 + q.minDistance),
        Min(m.mapy, zsqr + (q.ZSize() + 1) / 2 + q.minDistance))
  }

  /** Two squares more on each side, which must hold no factory with an open yard. */
  function YardBox(q: BuildRequest, m: BlockingMap, o: SearchOffset): Box {
    var b := NearBox(q, m, o);
    Box(Max(0, b.xmin - 2), Max(0, b.zmin - 2), Min(m.mapx, b.xmax + 2), Min(m.mapy, b.zmax + 2))
  }

  predicate Blocks(obj: Option<SolidObject>, yardsOnly: bool) {
    obj.Some? && obj.value.immobile && (yardsOnly ==> obj.value.yardOpen)
  }

  predicate InBox(b: Box, x: int, z: int) {
    b.xmin <= x < b.xmax && b.zmin <= z < b.zmax
  }

  predicate OnMap(b: Box, m: BlockingMap) {
    0 <= b.xmin && 0 <= b.zmin && b.xmax <= m.mapx && b.zmax <= m.mapy
  }

  ghost predicate Clear(m: BlockingMap, b: Box, yardsOnly: bool)
    requires m.Valid() && OnMap(b, m)
  {
    forall x, z :: InBox(b, x, z) ==> !Blocks(m.At(x, z), yardsOnly)
  }

  /** Open or occupied by a mover or a reclaimable feature, or blocked by one of our own features. */
  predicate PassesTest(t: SiteTest, allyTeam: int) {
    t.status != 0 || (t.feature.Some? && t.feature.value == allyTeam)
  }

  ghost predicate Acceptable(q: BuildRequest, m: BlockingMap, test: Site -> SiteTest, o: SearchOffset)
    requires m.Valid()
  {
    PassesTest(test(SiteAt(q, o)), q.allyTeam)
    && Clear(m, NearBox(q, m, o), false)
    && Clear(m, YardBox(q, m, o), true)
  }

  /** The squares under the definition, turned by the facing and put around the wanted place at offset o. */
  function Footprint(q: BuildRequest, o: SearchOffset): Box {
    var cx := Truncate((q.worldX + 16.0 * o.dx as real) / 8.0);
    var cz := Truncate((q.worldZ + 16.0 * o.dy as real) / 8.0);
    var (w, h) :=
      if q.facing % 2 == 0 then (q.unitDef.xsize, q.unitDef.zsize) else (q.unitDef.zsize, q.unitDef.xsize);
    Box(cx - w / 2, cz - h / 2, cx + (w + 1) / 2, cz + (h + 1) / 2)
  }

  /** At most d squares outside a box in either direction. */
  predicate Around(b: Box, d: int, x: int, z: int) {
    b.xmin - d <= x < b.xmax + d && b.zmin - d <= z < b.zmax + d
  }

  predicate Near(q: BuildRequest, o: SearchOffset, d: int, x: int, z: int) {
    Around(Footprint(q, o), d, x, z)
  }

  /** Object number k of the blocking map, counted row by row, stands on this square. */
  function SquareOf(m: BlockingMap, k: nat): (int, int)
    requires m.Valid() && k < |m.cells|
  {
    (k % m.mapx, k / m.mapx)
  }

  /** What the object on square k leaves free: minDistance around it, and two more if it is an open yard. */
  predicate LeavesFree(q: BuildRequest, m: BlockingMap, o: SearchOffset, k: nat)
    requires m.Valid() && k < |m.cells|
  {
    var (x, z) := SquareOf(m, k);
    match m.cells[k]
    case None => true
    case Some(thing) =>
      thing.immobile ==>
        !Near(q, o, q.minDistance, x, z) && (thing.yardOpen ==> !Near(q, o, q.minDistance + 2, x, z))
  }

  /**
   * A site may be built on: its own test does not block it, or only by a feature of the same side, and
   * every immobile object keeps its distance.
   */
  ghost predicate IsFreeSite(q: BuildRequest, m: BlockingMap, test: Site -> SiteTest, o: SearchOffset, site: Site)
    requires m.Valid()
  {
    (test(site).status == 0 ==> test(site).feature == Some(q.allyTeam))
    && forall k :: 0 <= k < |m.cells| ==> LeavesFree(q, m, o, k)
  }

  lemma BoxesOnMap(q: BuildRequest, m: BlockingMap, o: SearchOffset)
    ensures OnMap(NearBox(q, m, o), m) && OnMap(YardBox(q, m, o), m)
  {
  }

  lemma ClippedInterval(lo: int, hi: int, limit: nat, x: nat)
    requires x < limit
    ensures Max(0, lo) <= x < Min(limit, hi) <==> lo <= x < hi
    ensures Max(0, Max(0, lo) - 2) <= x < Min(limit, Min(limit, hi) + 2) <==> lo - 2 <= x < hi + 2
  {
  }

  lemma QuarterParity(turns: nat)
    ensures turns % 4 % 2 == turns % 2
  {
    var rest := turns % 4;
    DivModUnique(turns, 2, 2 * (turns / 4) + rest / 2, rest % 2);
  }

  lemma OppositeParity(i: int)
    ensures -i % 2 == i % 2
  {
    assert -i == 2 * (-(i / 2) - i % 2) + i % 2;
  }

  lemma FacingParity(facing: int)
    ensures (if facing < 0 then -facing else facing) % 4 % 2 == facing % 2
  {
    QuarterParity(if facing < 0 then -facing else facing);
    OppositeParity(facing);
  }

  lemma FootprintByParity(q: BuildRequest)
    ensures (q.XSize(), q.ZSize())
         == if q.facing % 2 == 0 then (q.unitDef.xsize, q.unitDef.zsize) else (q.unitDef.zsize, q.unitDef.xsize)
  {
    FacingParity(q.facing);
  }

  lemma ClippedBoxes(q: BuildRequest, m: BlockingMap, o: SearchOffset, x: nat, z: nat)
    requires x < m.mapx && z < m.mapy
    ensures InBox(NearBox(q, m, o), x, z) <==> Near(q, o, q.minDistance, x, z)
    ensures InBox(YardBox(q, m, o), x, z) <==> Near(q, o, q.minDistance + 2, x, z)
  {
    hide Max, Min, Truncate, BuildRequest.XSize, BuildRequest.ZSize;
    FootprintByParity(q);
    var cx, cz := Truncate(Wanted(q, o).0 / SQUARE_SIZE), Truncate(Wanted(q, o).1 / SQUARE_SIZE);
    var d := q.minDistance;
    ClippedInterval(cx - q.XSize() / 2 - d, cx + (q.XSize() + 1) / 2 + d, m.mapx, x);
    ClippedInterval(cz - q.ZSize() / 2 - d, cz + (q.ZSize() + 1) / 2 + d, m.mapy, z);
  }

  lemma SquareIsOnMap(m: BlockingMap, k: nat)
    requires m.Valid() && k < |m.cells|
    ensures var (x, z) := SquareOf(m, k); 0 <= x < m.mapx && 0 <= z < m.mapy && m.At(x, z) == m.cells[k]
  {
    assert m.mapx * m.mapy == m.mapy * m.mapx;
    CellBound(k, m.mapx, m.mapy);
  }

  lemma CellOfSquare(m: BlockingMap, x: nat, z: nat) returns (k: nat)
    requires m.Valid() && x < m.mapx && z < m.mapy
    ensures k < |m.cells| && SquareOf(m, k) == (x, z)
  {
    RowMajorBound(z, x, m.mapx, m.mapy);
    k := z * m.mapx + x;
    DivModUnique(k, m.mapx, z, x);
  }

  /** The clipped boxes of the search reject exactly the offsets some object comes too close to. */
  lemma AcceptableIsFree(q: BuildRequest, m: BlockingMap, test: Site -> SiteTest, o: SearchOffset)
    requires m.Valid()
    ensures Acceptable(q, m, test, o) <==> IsFreeSite(q, m, test, o, SiteAt(q, o))
  {
    hide Footprint, Near, NearBox, YardBox, SiteAt;
    var near, yard := NearBox(q, m, o), YardBox(q, m, o);
    BoxesOnMap(q, m, o);
    forall k | 0 <= k < |m.cells|
      ensures LeavesFree(q, m, o, k) <==>
        var (x, z) := SquareOf(m, k);
        && (InBox(near, x, z) ==> !Blocks(m.At(x, z), false))
        && (InBox(yard, x, z) ==> !Blocks(m.At(x, z), true))
    {
      var (x, z) := SquareOf(m, k);
      SquareIsOnMap(m, k);
      ClippedBoxes(q, m, o, x, z);
    }
    if Clear(m, near, false) && Clear(m, yard, true) {
      forall k | 0 <= k < |m.cells| ensures LeavesFree(q, m, o, k) {
        SquareIsOnMap(m, k);
      }
    }
    if forall k :: 0 <= k < |m.cells| ==> LeavesFree(q, m, o, k) {
      forall x, z | 0 <= x < m.mapx && 0 <= z < m.mapy
        ensures InBox(near, x, z) ==> !Blocks(m.At(x, z), false)
        ensures InBox(yard, x, z) ==> !Blocks(m.At(x, z), true)
      {
        var k := CellOfSquare(m, x, z);
        SquareIsOnMap(m, k);
        assert LeavesFree(q, m, o, k);
      }
    }
  }

  /** The offsets whose sites may be built on. */
  ghost function AcceptableOffsets(q: BuildRequest, m: BlockingMap, test: Site -> SiteTest): iset<SearchOffset>
    requires m.Valid()
  {
    iset o: SearchOffset | IsFreeSite(q, m, test, o, SiteAt(q, o))
  }

  /** Squares apart along the longer of the two directions. */
  function SquaresApart(x1: int, z1: int, x2: int, z2: int): nat {
    var dx: nat := if x1 < x2 then x2 - x1 else x1 - x2;
    var dz: nat := if z1 < z2 then z2 - z1 else z1 - z2;
    if dx < dz then dz else dx
  }

  /** Being around a box is being at most that many squares apart from some square of the box. */
  lemma AroundIsSquaresApart(b: Box, d: nat, x: int, z: int)
    requires b.xmin < b.xmax && b.zmin < b.zmax
    ensures Around(b, d, x, z) <==> exists u, v :: InBox(b, u, v) && SquaresApart(x, z, u, v) <= d
  {
    if Around(b, d, x, z) {
      var u, v := Nearest(b.xmin, b.xmax, x), Nearest(b.zmin, b.zmax, z);
      assert InBox(b, u, v) && SquaresApart(x, z, u, v) <= d;
    }
  }

  /** The number of [lo, hi) nearest to x. */
  function Nearest(lo: int, hi: int, x: int): (u: int)
    requires lo < hi
    ensures lo <= u < hi
    ensures x < lo ==> u == lo
    ensures hi <= x ==> u == hi - 1
    ensures lo <= x < hi ==> u == x
  {
    if x < lo then lo else if hi <= x then hi - 1 else x
  }

  // ---------------------------------------------------------------------------- the search

  /** One of the two nested scans: the inner break leaves only the current row. */
  method IsClear(m: BlockingMap, b: Box, yardsOnly: bool) returns (free: bool)
    requires m.Valid() && OnMap(b, m)
    ensures free <==> Clear(m, b, yardsOnly)
  {
    free := true;
    var z := b.zmin;
    while z < b.zmax
      invariant b.zmin <= z
      invariant free <==> forall x, w :: b.xmin <= x < b.xmax && b.zmin <= w < b.zmax && w < z
                            ==> !Blocks(m.At(x, w), yardsOnly)
    {
      var x := b.xmin;
      ghost var before := free;
      while x < b.xmax
        invariant b.xmin <= x
        invariant free == before
        invariant forall u :: b.xmin <= u < x && u < b.xmax ==> !Blocks(m.At(u, z), yardsOnly)
      {
        if Blocks(m.At(x, z), yardsOnly) {
          free := false;
          break;
        }
        x := x + 1;
      }
      z := z + 1;
    }
  }

  /** The body of the search loop for one offset. */
  method TestSite(q: BuildRequest, m: BlockingMap, test: Site -> SiteTest, o: SearchOffset) returns (accepted: bool)
    requires m.Valid()
    ensures accepted <==> o in AcceptableOffsets(q, m, test)
  {
    AcceptableIsFree(q, m, test, o);
    if !PassesTest(test(SiteAt(q, o)), q.allyTeam) {
      return false;
    }
    accepted := IsClear(m, NearBox(q, m, o), false);
    if accepted {
      accepted := IsClear(m, YardBox(q, m, o), true);
    }
  }

  const MAX_RADIUS := 128

  function ClampedRadius(searchRadius: real): (r: nat)
    ensures 1 <= r <= MAX_RADIUS
  {
    var raw := Truncate(searchRadius / BUILD_SQUARE_SIZE);
    if raw < 1 then 1 else if raw > MAX_RADIUS then MAX_RADIUS else raw
  }

  /** The radius in whole build squares, at least 1 and at most 128. */
  lemma RadiusIsClamped(searchRadius: real)
    ensures var r := ClampedRadius(searchRadius);
            && (r as real * BUILD_SQUARE_SIZE <= searchRadius || r == 1)
            && (searchRadius < (r + 1) as real * BUILD_SQUARE_SIZE || r == MAX_RADIUS)
  {
  }

  ghost function SearchedSite(
    cached: seq<SearchOffset>, r: nat, q: BuildRequest, m: BlockingMap, test: Site -> SiteTest): Option<Site>
    requires m.Valid() && TableSize(r) <= |cached|
  {
    match Search(cached, r, AcceptableOffsets(q, m, test))
    case None => None
    case Some(o) => Some(SiteAt(q, o))
  }

  lemma RequestCoversRadius(cached: seq<SearchOffset>, r: nat)
    ensures TableSize(r) <= |Request(cached, r)|
  {
    TableIsGrid(r);
  }

  /** The closest acceptable site of the whole build grid. */
  ghost predicate IsClosestSite(site: Site, q: BuildRequest, m: BlockingMap, test: Site -> SiteTest)
    requires m.Valid()
  {
    exists o :: IsNearest(o, AcceptableOffsets(q, m, test)) && site == SiteAt(q, o)
  }

  /** The loop over the first (2r)^2 table entries. */
  method ScanOffsets(offsets: seq<SearchOffset>, q: BuildRequest, m: BlockingMap, test: Site -> SiteTest)
    returns (site: Option<Site>)
    requires m.Valid()
    ensures site == match FirstIn(offsets, AcceptableOffsets(q, m, test))
                    case None => None
                    case Some(o) => Some(SiteAt(q, o))
    ensures site.Some? ==>
              exists o :: o in offsets && site.value == SiteAt(q, o) && IsFreeSite(q, m, test, o, site.value)
  {
    ghost var accept := AcceptableOffsets(q, m, test);
    var i := 0;
    while i < |offsets|
      invariant 0 <= i <= |offsets|
      invariant FirstIn(offsets, accept) == FirstIn(offsets[i..], accept)
    {
      assert offsets[i..][0] == offsets[i] && offsets[i..][1..] == offsets[i + 1..];
      var accepted := TestSite(q, m, test, offsets[i]);
      if accepted {
        return Some(SiteAt(q, offsets[i]));
      }
      i := i + 1;
    }
    site := None;
  }

  // --------------------------------------------------------------------- what is promised

  /** The site of an offset is the snapped request moved by that offset. */
  lemma SiteIsShiftedOrigin(q: BuildRequest, o: SearchOffset)
    ensures SiteAt(q, o) == (Snap(q.worldX, q.XSize()) + o.dx as real * BUILD_SQUARE_SIZE,
                             Snap(q.worldZ, q.ZSize()) + o.dy as real * BUILD_SQUARE_SIZE)
  {
    SnapShifts(q.worldX, q.XSize(), o.dx);
    SnapShifts(q.worldZ, q.ZSize(), o.dy);
  }

  function SquaredDistance(a: Site, b: Site): real {
    (a.0 - b.0) * (a.0 - b.0) + (a.1 - b.1) * (a.1 - b.1)
  }

  lemma ShiftedDistance(x: real, z: real, dx: int, dy: int)
    ensures SquaredDistance((x + dx as real * BUILD_SQUARE_SIZE, z + dy as real * BUILD_SQUARE_SIZE), (x, z))
         == 256.0 * (dx * dx + dy * dy) as real
  {
    assert (dx * dx) as real == dx as real * dx as real;
    assert (dy * dy) as real == dy as real * dy as real;
  }

  /** The table key is the squared distance of a site from the snapped request, in build squares. */
  lemma TableKeyIsSiteDistance(q: BuildRequest, o: SearchOffset, site: Site, origin: Site)
    requires o.qdist == o.dx * o.dx + o.dy * o.dy && site == SiteAt(q, o) && origin == SiteAt(q, SearchOffset(0, 0, 0))
    ensures SquaredDistance(site, origin) == 256.0 * o.qdist as real
  {
    SiteIsShiftedOrigin(q, o);
    SiteIsShiftedOrigin(q, SearchOffset(0, 0, 0));
    ShiftedDistance(origin.0, origin.1, o.dx, o.dy);
  }

  /**
   * Whatever was asked for before: if some acceptable offset lies closer than the clamped radius,
   * the search succeeds with the closest acceptable site of the whole build grid, and two
   * different histories return the same one.
   */
  lemma ClosestSiteIgnoresHistory(history1: seq<nat>, history2: seq<nat>, searchRadius: real,
                                  q: BuildRequest, m: BlockingMap, test: Site -> SiteTest, p: SearchOffset)
    requires m.Valid()
    requires p in AcceptableOffsets(q, m, test) && InDisc(p, ClampedRadius(searchRadius))
    ensures var r := ClampedRadius(searchRadius);
            var c1, c2 := AfterRequests(history1 + [r]), AfterRequests(history2 + [r]);
            TableSize(r) <= |c1| && TableSize(r) <= |c2|
            && SearchedSite(c1, r, q, m, test) == SearchedSite(c2, r, q, m, test)
            && SearchedSite(c1, r, q, m, test).Some?
            && IsClosestSite(SearchedSite(c1, r, q, m, test).value, q, m, test)
  {
    var r := ClampedRadius(searchRadius);
    var accept := AcceptableOffsets(q, m, test);
    SearchIgnoresHistory(history1, history2, r, accept, p);
    var h := history1 + [r];
    CacheIsLargestTable(h);
    SearchFindsNearest(LargestRadius(h), r, accept, p);
    assert IsNearest(Search(AfterRequests(h), r, accept).value, accept);
  }

  /**
   * All requests are clamped, so a search of the largest radius does not depend on earlier ones at all,
   * whether or not anything acceptable is close.
   */
  lemma LargestSearchIgnoresHistory(history1: seq<nat>, history2: seq<nat>, searchRadius: real,
                                    q: BuildRequest, m: BlockingMap, test: Site -> SiteTest)
    requires m.Valid() && Bounded(history1, MAX_RADIUS) && Bounded(history2, MAX_RADIUS)
    requires MAX_RADIUS as real * BUILD_SQUARE_SIZE <= searchRadius
    ensures ClampedRadius(searchRadius) == MAX_RADIUS
    ensures var c1, c2 := AfterRequests(history1 + [MAX_RADIUS]), AfterRequests(history2 + [MAX_RADIUS]);
            TableSize(MAX_RADIUS) <= |c1| && TableSize(MAX_RADIUS) <= |c2|
            && SearchedSite(c1, MAX_RADIUS, q, m, test) == SearchedSite(c2, MAX_RADIUS, q, m, test)
  {
    LargestRequestForgets(history1, MAX_RADIUS);
    LargestRequestForgets(history2, MAX_RADIUS);
    RequestIsCovered(history1, MAX_RADIUS);
  }

  /**
   * The failure value of the source is the vector (-1, 0, 0); here it is None. The result is a function
   * of the request alone as soon as something acceptable lies closer than the clamped radius.
   */
  method ClosestBuildPos(cache: SearchOffsetCache, request: Option<BuildRequest>, searchRadius: real,
                         m: BlockingMap, test: Site -> SiteTest)
    returns (site: Option<Site>)
    requires m.Valid() && cache.Valid()
    modifies cache
    ensures cache.Valid()
    ensures request.None? ==> site == None && cache.history == old(cache.history)
    ensures request.Some? ==>
              var r := ClampedRadius(searchRadius);
              cache.history == old(cache.history) + [r] && TableSize(r) <= |AfterRequests(cache.history)|
              && site == SearchedSite(AfterRequests(cache.history), r, request.value, m, test)
    ensures request.Some? ==>
              var accept, r := AcceptableOffsets(request.value, m, test), ClampedRadius(searchRadius);
              (exists p :: p in accept && InDisc(p, r)) ==>
                site.Some? && IsClosestSite(site.value, request.value, m, test)
    ensures site.Some? ==>
              request.Some? && exists o ::
                site.value == SiteAt(request.value, o) && IsFreeSite(request.value, m, test, o, site.value)
  {
    if request.None? {
      return None;
    }
    var maxRadius := ClampedRadius(searchRadius);
    RequestCoversRadius(cache.searchOffsets, maxRadius);
    ghost var history := cache.history;
    var offsets := cache.GetSearchOffsetTable(maxRadius);
    site := ScanOffsets(offsets[..TableSize(maxRadius)], request.value, m, test);
    ghost var accept := AcceptableOffsets(request.value, m, test);
    if p :| p in accept && InDisc(p, maxRadius) {
      ClosestSiteIgnoresHistory(history, history, searchRadius, request.value, m, test, p);
    }
  }
}
