/**
 * The offset table behind the build-site search: one static vector that grows to the largest
 * radius ever asked for and is handed out, longer than needed, for every smaller radius.
 */
module SearchOffsets {
  import opened Arithmetic

  datatype SearchOffset = SearchOffset(dx: int, dy: int, qdist: int)

  /** The offset the fill loops write for column dx and row dy. */
  function Offset(dx: int, dy: int): SearchOffset {
    SearchOffset(dx, dy, dx * dx + dy * dy)
  }

  // ---------------------------------------------------------------- stable sort by distance

  predicate SortedByDist(s: seq<SearchOffset>) {
    forall i, j :: 0 <= i < j < |s| ==> s[i].qdist <= s[j].qdist
  }

  /** The sub-sequence of s at squared distance q. */
  function AtDist(s: seq<SearchOffset>, q: int): seq<SearchOffset> {
    if s == [] then []
    else if s[0].qdist == q then [s[0]] + AtDist(s[1..], q)
    else AtDist(s[1..], q)
  }

  /** Inserts x in front of the first element that is not strictly closer. */
  function InsertStable(x: SearchOffset, s: seq<SearchOffset>): seq<SearchOffset> {
    if s == [] || x.qdist <= s[0].qdist then [x] + s else [s[0]] + InsertStable(x, s[1..])
  }

  /** std::stable_sort by qdist, by insertion from the back. */
  function StableSorted(s: seq<SearchOffset>): seq<SearchOffset> {
    if s == [] then [] else InsertStable(s[0], StableSorted(s[1..]))
  }

  lemma {:induction false} InsertStableElements(x: SearchOffset, s: seq<SearchOffset>)
    ensures multiset(InsertStable(x, s)) == multiset([x]) + multiset(s)
  {
    if s != [] && s[0].qdist < x.qdist {
      InsertStableElements(x, s[1..]);
      assert s == [s[0]] + s[1..];
    }
  }

  lemma {:induction false} InsertStableSorted(x: SearchOffset, s: seq<SearchOffset>)
    requires SortedByDist(s)
    ensures SortedByDist(InsertStable(x, s))
  {
    if s != [] && s[0].qdist < x.qdist {
      var t := InsertStable(x, s[1..]);
      InsertStableSorted(x, s[1..]);
      InsertStableElements(x, s[1..]);
      forall j | 0 <= j < |t| ensures s[0].qdist <= t[j].qdist {
        assert t[j] in multiset(t);
        assert t[j] == x || t[j] in s[1..];
      }
    }
  }

  lemma {:induction false} InsertStableBuckets(x: SearchOffset, s: seq<SearchOffset>, q: int)
    ensures AtDist(InsertStable(x, s), q) == AtDist([x] + s, q)
  {
    assert ([x] + s)[1..] == s;
    if s != [] && s[0].qdist < x.qdist {
      var t := InsertStable(x, s[1..]);
      InsertStableBuckets(x, s[1..], q);
      assert ([s[0]] + t)[1..] == t && ([x] + s[1..])[1..] == s[1..];
    }
  }

  /** The contract of a stable sort: sorted, a permutation, and equal keys keep their order. */
  lemma {:induction false} StableSortContract(s: seq<SearchOffset>)
    ensures SortedByDist(StableSorted(s))
    ensures multiset(StableSorted(s)) == multiset(s)
    ensures forall q :: AtDist(StableSorted(s), q) == AtDist(s, q)
  {
    if s != [] {
      var t := StableSorted(s[1..]);
      StableSortContract(s[1..]);
      InsertStableSorted(s[0], t);
      InsertStableElements(s[0], t);
      assert s == [s[0]] + s[1..];
      assert ([s[0]] + t)[1..] == t;
      forall q ensures AtDist(StableSorted(s), q) == AtDist(s, q) {
        InsertStableBuckets(s[0], t, q);
      }
    }
  }

  // ------------------------------------------------------------------------- the raster

  /** The k-th cell of the diam x diam raster, row by row. */
  function RasterCell(radius: nat, k: nat): SearchOffset
    requires 0 < radius
  {
    Offset(k % (2 * radius) - radius, k / (2 * radius) - radius)
  }

  function Raster(radius: nat): (s: seq<SearchOffset>)
    ensures |s| == (2 * radius) * (2 * radius)
    ensures forall k :: 0 <= k < |s| ==> 0 < radius && s[k] == RasterCell(radius, k)
  {
    if radius == 0 then [] else seq((2 * radius) * (2 * radius), k requires k >= 0 => RasterCell(radius, k))
  }

  /** The table GetSearchOffsetTable builds for this radius. */
  function Table(radius: nat): seq<SearchOffset> {
    StableSorted(Raster(radius))
  }

  // -------------------------------------------------------- what a table is, declaratively

  /** Nearest first; at equal distance by row, then by column. */
  predicate Before(a: SearchOffset, b: SearchOffset) {
    a.qdist < b.qdist || (a.qdist == b.qdist && (a.dy < b.dy || (a.dy == b.dy && a.dx < b.dx)))
  }

  predicate Ordered(s: seq<SearchOffset>) {
    forall i, j :: 0 <= i < j < |s| ==> Before(s[i], s[j])
  }

  predicate WellFormed(o: SearchOffset) {
    var x, y := o.dx, o.dy;
    o.qdist == x * x + y * y
  }

  /** The half-open square [-radius, radius) x [-radius, radius). */
  predicate InGrid(o: SearchOffset, radius: nat) {
    WellFormed(o) && 0 <= o.dx + radius < 2 * radius && 0 <= o.dy + radius < 2 * radius
  }

  ghost predicate IsGridTable(t: seq<SearchOffset>, radius: nat) {
    Ordered(t) && forall o :: o in t <==> InGrid(o, radius)
  }

  /** An order without ties: two ordered sequences with the same elements are the same sequence. */
  lemma {:induction false} OrderedIsUnique(s: seq<SearchOffset>, t: seq<SearchOffset>)
    requires Ordered(s) && Ordered(t)
    requires forall o :: o in s <==> o in t
    ensures s == t
  {
    assert s != [] ==> s[0] in t;
    assert t != [] ==> t[0] in s;
    if s != [] {
      assert s[0] == t[0];
      forall o ensures o in s[1..] <==> o in t[1..] {
        assert o in s <==> o == s[0] || o in s[1..];
        assert o in t <==> o == t[0] || o in t[1..];
        assert s[0] !in s[1..] && t[0] !in t[1..];
      }
      OrderedIsUnique(s[1..], t[1..]);
    }
  }

  // ------------------------------------------------------- the built table is a grid table

  lemma CellIndex(radius: nat, k: nat) returns (x: nat, y: nat)
    requires k < (2 * radius) * (2 * radius)
    ensures x < 2 * radius && y < 2 * radius
    ensures RasterCell(radius, k) == Offset(x - radius, y - radius)
  {
    RowBound(k, 2 * radius);
    x, y := k % (2 * radius), k / (2 * radius);
  }

  lemma OffsetInGrid(dx: int, dy: int, radius: nat)
    requires 0 <= dx + radius < 2 * radius && 0 <= dy + radius < 2 * radius
    ensures InGrid(Offset(dx, dy), radius)
  {
  }

  lemma GridCellIndex(radius: nat, o: SearchOffset) returns (k: nat)
    requires InGrid(o, radius)
    ensures k < (2 * radius) * (2 * radius) && RasterCell(radius, k) == o
  {
    var d := 2 * radius;
    var x, y := o.dx + radius, o.dy + radius;
    k := y * d + x;
    DivModUnique(k, d, y, x);
    assert k - d * d == d * (y - d) + x;
    MultipleBound(d, y - d);
  }

  /** Earlier raster cells come in an earlier row, or in the same row further left. */
  lemma RasterOrder(radius: nat, i: nat, j: nat)
    requires 0 < radius && i < j
    ensures var a, b := RasterCell(radius, i), RasterCell(radius, j);
            a.dy < b.dy || (a.dy == b.dy && a.dx < b.dx)
  {
    var d := 2 * radius;
    assert i == d * (i / d) + i % d && j == d * (j / d) + j % d;
    assert d * (j / d - i / d) == j - i + i % d - j % d;
    MultipleBound(d, j / d - i / d);
  }

  predicate RasterOrdered(s: seq<SearchOffset>) {
    forall i, j :: 0 <= i < j < |s| ==> s[i].dy < s[j].dy || (s[i].dy == s[j].dy && s[i].dx < s[j].dx)
  }

  lemma {:induction false} AtDistMembers(s: seq<SearchOffset>, q: int)
    ensures forall o :: o in AtDist(s, q) <==> o in s && o.qdist == q
  {
    if s != [] {
      AtDistMembers(s[1..], q);
      assert s == [s[0]] + s[1..];
    }
  }

  lemma {:induction false} AtDistKeepsRasterOrder(s: seq<SearchOffset>, q: int)
    requires RasterOrdered(s)
    ensures RasterOrdered(AtDist(s, q))
  {
    if s != [] {
      AtDistKeepsRasterOrder(s[1..], q);
      AtDistMembers(s[1..], q);
      var t := AtDist(s[1..], q);
      forall j | 0 <= j < |t| ensures s[0].dy < t[j].dy || (s[0].dy == t[j].dy && s[0].dx < t[j].dx) {
        assert t[j] in s[1..];
        var k :| 0 <= k < |s[1..]| && s[1..][k] == t[j];
        assert s[1..][k] == s[k + 1];
      }
    }
  }

  /** If a bucket keeps raster order, so do any two of its elements in the sorted sequence. */
  lemma {:induction false} BucketOrder(s: seq<SearchOffset>, i: nat, j: nat)
    requires i < j < |s| && s[i].qdist == s[j].qdist
    requires RasterOrdered(AtDist(s, s[i].qdist))
    ensures Before(s[i], s[j])
  {
    var q := s[i].qdist;
    if i == 0 {
      AtDistMembers(s[1..], q);
      var t := AtDist(s[1..], q);
      assert s[1..][j - 1] == s[j];
      assert s[j] in t;
      var k :| 0 <= k < |t| && t[k] == s[j];
      var w := AtDist(s, q);
      assert w == [s[0]] + t;
      assert w[0] == s[0] && w[k + 1] == s[j];
    } else {
      var t := AtDist(s[1..], q);
      var w := AtDist(s, q);
      forall a, b | 0 <= a < b < |t|
        ensures t[a].dy < t[b].dy || (t[a].dy == t[b].dy && t[a].dx < t[b].dx)
      {
        var shift := if s[0].qdist == q then 1 else 0;
        assert w[a + shift] == t[a] && w[b + shift] == t[b];
      }
      BucketOrder(s[1..], i - 1, j - 1);
    }
  }

  /** Stably sorting a raster-ordered sequence orders it by distance, then row, then column. */
  lemma StableSortOrders(s: seq<SearchOffset>)
    requires RasterOrdered(s)
    ensures Ordered(StableSorted(s))
  {
    var r := StableSorted(s);
    StableSortContract(s);
    forall i, j | 0 <= i < j < |r| ensures Before(r[i], r[j]) {
      if r[i].qdist == r[j].qdist {
        AtDistKeepsRasterOrder(s, r[i].qdist);
        BucketOrder(r, i, j);
      }
    }
  }

  lemma RasterMember(radius: nat, o: SearchOffset)
    ensures o in Raster(radius) <==> InGrid(o, radius)
  {
    var s := Raster(radius);
    if o in s {
      var k :| 0 <= k < |s| && s[k] == o;
      var x, y := CellIndex(radius, k);
      OffsetInGrid(x - radius, y - radius, radius);
    }
    if InGrid(o, radius) {
      var k := GridCellIndex(radius, o);
      assert s[k] == o;
    }
  }

  lemma RasterIsOrdered(radius: nat)
    ensures RasterOrdered(Raster(radius))
  {
    var s := Raster(radius);
    forall i, j | 0 <= i < j < |s|
      ensures s[i].dy < s[j].dy || (s[i].dy == s[j].dy && s[i].dx < s[j].dx)
    {
      RasterOrder(radius, i, j);
    }
  }

  lemma SameMultiset(s: seq<SearchOffset>, t: seq<SearchOffset>)
    requires multiset(s) == multiset(t)
    ensures |s| == |t|
    ensures forall o :: o in s <==> o in t
  {
    assert |multiset(s)| == |multiset(t)|;
    forall o ensures o in s <==> o in t {
      assert o in s <==> o in multiset(s);
      assert o in t <==> o in multiset(t);
    }
  }

  /** The table for a radius is exactly the grid, nearest first, ties by row then column. */
  lemma TableIsGrid(radius: nat)
    ensures IsGridTable(Table(radius), radius)
    ensures |Table(radius)| == |Raster(radius)|
  {
    var s, t := Raster(radius), Table(radius);
    RasterIsOrdered(radius);
    StableSortOrders(s);
    StableSortContract(s);
    SameMultiset(t, s);
    forall o ensures o in t <==> InGrid(o, radius) {
      RasterMember(radius, o);
    }
  }
}
