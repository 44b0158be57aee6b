/**
 * One cached table serves every smaller radius by prefix. This module proves what survives that:
 * the cache is a function of the largest radius asked for, a prefix of (2r)^2 entries holds the
 * whole open disc of radius r, and the nearest acceptable offset in that disc is found whatever
 * was cached before. The disc is also the exact limit of that guarantee.
 */
module SearchHistory {
  import opened Arithmetic
  import opened Wrappers
  import opened SearchOffsets

  // ------------------------------------------------------------------ the cache over any run

  /** The number of entries a table of this radius has: Square(radius * 2). */
  function TableSize(radius: nat): nat {
    (2 * radius) * (2 * radius)
  }

  /** One request against the cached vector: rebuilt only when it is too small. */
  function Request(cached: seq<SearchOffset>, radius: nat): seq<SearchOffset> {
    if TableSize(radius) > |cached| then Table(radius) else cached
  }

  function AfterRequests(radii: seq<nat>): seq<SearchOffset> {
    if radii == [] then [] else Request(AfterRequests(radii[..|radii| - 1]), radii[|radii| - 1])
  }

  function LargestRadius(radii: seq<nat>): nat {
    if radii == [] then 0
    else
      var m := LargestRadius(radii[..|radii| - 1]);
      if radii[|radii| - 1] > m then radii[|radii| - 1] else m
  }

  lemma TableSizeGrows(a: nat, b: nat)
    ensures TableSize(a) < TableSize(b) <==> a < b
  {
    SquareGrows(2 * a, 2 * b);
    SquareGrows(2 * b, 2 * a);
  }

  /** The size test is a radius test once the cache is some table. */
  lemma RequestGrows(cachedRadius: nat, radius: nat)
    ensures Request(Table(cachedRadius), radius)
         == Table(if radius > cachedRadius then radius else cachedRadius)
  {
    TableIsGrid(cachedRadius);
    TableSizeGrows(cachedRadius, radius);
  }

  /** After any sequence of requests the cache is exactly the table of the largest radius so far. */
  lemma {:induction false} CacheIsLargestTable(radii: seq<nat>)
    ensures AfterRequests(radii) == Table(LargestRadius(radii))
  {
    if radii != [] {
      CacheIsLargestTable(radii[..|radii| - 1]);
      RequestGrows(LargestRadius(radii[..|radii| - 1]), radii[|radii| - 1]);
    }
  }

  // ------------------------------------------------------------- pigeonhole on the open disc

  predicate InDisc(o: SearchOffset, r: nat) {
    WellFormed(o) && o.qdist < r * r
  }

  lemma SquareBound(x: int, r: nat)
    ensures x * x < r * r <==> -(r as int) < x < r
    ensures x * x >= 0
  {
    var a: nat := if x < 0 then -x else x;
    assert a * a == x * x;
    SquareGrows(a, r);
    SquareGrows(r, a);
  }

  /** The square (-r, r) x (-r, r). */
  predicate InOpenSquare(o: SearchOffset, r: nat) {
    -(r as int) < o.dx < r && -(r as int) < o.dy < r
  }

  lemma DiscInSquare(o: SearchOffset, r: nat)
    requires InDisc(o, r)
    ensures InOpenSquare(o, r)
  {
    SquareBound(o.dx, r);
    SquareBound(o.dy, r);
  }

  /** Row-major number of a point of the open square. */
  function SquareCode(o: SearchOffset, r: nat): int {
    (o.dy + r - 1) * (2 * r - 1) + (o.dx + r - 1)
  }

  lemma SquareCodeRange(o: SearchOffset, r: nat)
    requires InOpenSquare(o, r)
    ensures 0 <= SquareCode(o, r) < (2 * r - 1) * (2 * r - 1)
  {
    RowMajorBound(o.dy + r - 1, o.dx + r - 1, 2 * r - 1, 2 * r - 1);
  }

  lemma SquareCodeInjective(a: SearchOffset, b: SearchOffset, r: nat)
    requires InOpenSquare(a, r) && InOpenSquare(b, r)
    requires SquareCode(a, r) == SquareCode(b, r)
    ensures a.dx == b.dx && a.dy == b.dy
  {
    RowMajorInjective(a.dy + r - 1, a.dx + r - 1, b.dy + r - 1, b.dx + r - 1, 2 * r - 1);
  }

  /** Distinct numbers below n are at most n many. */
  lemma {:induction false} Pigeonhole(codes: seq<int>, n: nat)
    requires forall i :: 0 <= i < |codes| ==> 0 <= codes[i] < n
    requires forall i, j :: 0 <= i < j < |codes| ==> codes[i] != codes[j]
    ensures |codes| <= n
  {
    assert codes != [] ==> 0 <= codes[0] < n;
    if codes != [] {
      if i :| 0 <= i < |codes| && codes[i] == n - 1 {
        Pigeonhole(codes[..i] + codes[i + 1..], n - 1);
      } else {
        Pigeonhole(codes, n - 1);
      }
    }
  }

  /** An ordered sequence inside the open square has at most (2r-1)^2 entries. */
  lemma OrderedInSquareIsShort(s: seq<SearchOffset>, r: nat)
    requires 0 < r && Ordered(s)
    requires forall i :: 0 <= i < |s| ==> InDisc(s[i], r)
    ensures |s| <= (2 * r - 1) * (2 * r - 1)
  {
    var n := (2 * r - 1) * (2 * r - 1);
    var codes := seq(|s|, i requires 0 <= i < |s| => SquareCode(s[i], r));
    forall i | 0 <= i < |s| ensures 0 <= codes[i] < n {
      DiscInSquare(s[i], r);
      SquareCodeRange(s[i], r);
    }
    forall i, j | 0 <= i < j < |s| ensures codes[i] != codes[j] {
      assert Before(s[i], s[j]);
      DiscInSquare(s[i], r);
      DiscInSquare(s[j], r);
      if codes[i] == codes[j] {
        SquareCodeInjective(s[i], s[j], r);
      }
    }
    Pigeonhole(codes, n);
  }

  lemma OpenSquareIsSmaller(r: nat)
    requires 0 < r
    ensures (2 * r - 1) * (2 * r - 1) + 3 <= TableSize(r)
  {
    assert TableSize(r) - (2 * r - 1) * (2 * r - 1) == 4 * r - 1;
  }

  /** Every table entry closer than r sits among the first (2r-1)^2. */
  lemma DiscIsEarly(cachedRadius: nat, r: nat, k: nat)
    requires 0 < r && k < |Table(cachedRadius)| && Table(cachedRadius)[k].qdist < r * r
    ensures k < (2 * r - 1) * (2 * r - 1) < TableSize(r)
  {
    var t := Table(cachedRadius);
    TableIsGrid(cachedRadius);
    var s := t[..k + 1];
    forall i | 0 <= i < |s| ensures InDisc(s[i], r) {
      assert s[i] in t;
      assert i < k ==> Before(t[i], t[k]);
    }
    OrderedInSquareIsShort(s, r);
    OpenSquareIsSmaller(r);
  }

  /** The first (2r)^2 entries of any table at least that large contain the open disc of radius r. */
  lemma PrefixCoversDisc(cachedRadius: nat, r: nat, o: SearchOffset) returns (k: nat)
    requires r <= cachedRadius && InDisc(o, r)
    ensures k < TableSize(r) <= |Table(cachedRadius)| && Table(cachedRadius)[k] == o
  {
    TableIsGrid(cachedRadius);
    TableSizeGrows(cachedRadius, r);
    DiscInSquare(o, r);
    assert InGrid(o, cachedRadius);
    assert o in Table(cachedRadius);
    k :| 0 <= k < |Table(cachedRadius)| && Table(cachedRadius)[k] == o;
    DiscIsEarly(cachedRadius, r, k);
  }

  // -------------------------------------------------- the part that ignores call history

  /** The leading entries closer than squared distance q. */
  function Within(t: seq<SearchOffset>, q: int): (w: seq<SearchOffset>)
    ensures w <= t
  {
    if t == [] || t[0].qdist >= q then [] else [t[0]] + Within(t[1..], q)
  }

  lemma {:induction false} WithinMembers(t: seq<SearchOffset>, q: int)
    requires Ordered(t)
    ensures Ordered(Within(t, q))
    ensures forall o :: o in Within(t, q) <==> o in t && o.qdist < q
  {
    if t != [] {
      forall o | o in t[1..] ensures Before(t[0], o) {
        var k :| 0 <= k < |t[1..]| && t[1..][k] == o;
        assert Before(t[0], t[k + 1]);
      }
      WithinMembers(t[1..], q);
      assert t == [t[0]] + t[1..];
    }
  }

  /** Below squared distance r^2 any two tables of radius at least r agree, entry for entry. */
  lemma DiscPartIsShared(radius1: nat, radius2: nat, r: nat)
    requires r <= radius1 && r <= radius2
    ensures Within(Table(radius1), r * r) == Within(Table(radius2), r * r)
  {
    var w1, w2 := Within(Table(radius1), r * r), Within(Table(radius2), r * r);
    TableIsGrid(radius1);
    TableIsGrid(radius2);
    WithinMembers(Table(radius1), r * r);
    WithinMembers(Table(radius2), r * r);
    forall o ensures o in w1 <==> o in w2 {
      if InDisc(o, r) {
        DiscInSquare(o, r);
      }
    }
    OrderedIsUnique(w1, w2);
  }

  // ----------------------------------------------------------------------------- the search

  /** The first entry that is acceptable. */
  ghost function FirstIn(s: seq<SearchOffset>, accept: iset<SearchOffset>): (f: Option<SearchOffset>)
    ensures f.None? <==> forall o :: o in s ==> o !in accept
    ensures f.Some? ==> f.value in s && f.value in accept
  {
    if s == [] then None
    else if s[0] in accept then Some(s[0])
    else
      assert s == [s[0]] + s[1..];
      FirstIn(s[1..], accept)
  }

  lemma {:induction false} FirstInIsFirst(s: seq<SearchOffset>, accept: iset<SearchOffset>, p: SearchOffset)
    requires Ordered(s) && p in s && p in accept
    ensures FirstIn(s, accept).Some?
    ensures p == FirstIn(s, accept).value || Before(FirstIn(s, accept).value, p)
  {
    if s[0] !in accept {
      assert s == [s[0]] + s[1..];
      FirstInIsFirst(s[1..], accept, p);
    } else {
      var k :| 0 <= k < |s| && s[k] == p;
      assert k > 0 ==> Before(s[0], s[k]);
    }
  }

  /** What the loop of ClosestBuildPos examines for radius r when the cache holds `cached`. */
  ghost function Search(cached: seq<SearchOffset>, r: nat, accept: iset<SearchOffset>): Option<SearchOffset>
    requires TableSize(r) <= |cached|
  {
    FirstIn(cached[..TableSize(r)], accept)
  }

  /** o is the nearest acceptable offset of the whole unbounded grid, ties by row then column. */
  ghost predicate IsNearest(o: SearchOffset, accept: iset<SearchOffset>) {
    o in accept && WellFormed(o) && forall p :: p in accept && WellFormed(p) ==> p == o || Before(o, p)
  }

  lemma TableCoversRequest(cachedRadius: nat, r: nat)
    requires r <= cachedRadius
    ensures TableSize(r) <= |Table(cachedRadius)|
  {
    TableIsGrid(cachedRadius);
    TableSizeGrows(cachedRadius, r);
  }

  /** If anything acceptable lies closer than r, the search returns the nearest acceptable offset there is. */
  lemma SearchFindsNearest(cachedRadius: nat, r: nat, accept: iset<SearchOffset>, p: SearchOffset)
    requires r <= cachedRadius && p in accept && InDisc(p, r)
    ensures TableSize(r) <= |Table(cachedRadius)|
    ensures Search(Table(cachedRadius), r, accept).Some?
    ensures IsNearest(Search(Table(cachedRadius), r, accept).value, accept)
  {
    var t := Table(cachedRadius);
    TableCoversRequest(cachedRadius, r);
    TableIsGrid(cachedRadius);
    var s := t[..TableSize(r)];
    PrefixHolds(cachedRadius, r, p);
    FirstInIsFirst(s, accept, p);
    var o := FirstIn(s, accept).value;
    assert o in t;
    forall w | w in accept && WellFormed(w) ensures w == o || Before(o, w) {
      if w.qdist < r * r {
        PrefixHolds(cachedRadius, r, w);
        FirstInIsFirst(s, accept, w);
      }
    }
  }

  lemma PrefixHolds(cachedRadius: nat, r: nat, o: SearchOffset)
    requires r <= cachedRadius && InDisc(o, r)
    ensures TableSize(r) <= |Table(cachedRadius)|
    ensures o in Table(cachedRadius)[..TableSize(r)]
  {
    var k := PrefixCoversDisc(cachedRadius, r, o);
    assert Table(cachedRadius)[..TableSize(r)][k] == o;
  }

  /** Two runs with any history agree as soon as something acceptable lies closer than r. */
  lemma SearchIgnoresHistory(
    history1: seq<nat>, history2: seq<nat>, r: nat, accept: iset<SearchOffset>, p: SearchOffset)
    requires p in accept && InDisc(p, r)
    ensures var c1, c2 := AfterRequests(history1 + [r]), AfterRequests(history2 + [r]);
            TableSize(r) <= |c1| && TableSize(r) <= |c2| && Search(c1, r, accept) == Search(c2, r, accept)
  {
    var h1, h2 := history1 + [r], history2 + [r];
    CacheIsLargestTable(h1);
    CacheIsLargestTable(h2);
    assert LargestRadius(h1) >= r && LargestRadius(h2) >= r;
    SearchFindsNearest(LargestRadius(h1), r, accept, p);
    SearchFindsNearest(LargestRadius(h2), r, accept, p);
    var o1 := Search(AfterRequests(h1), r, accept).value;
    var o2 := Search(AfterRequests(h2), r, accept).value;
    assert o1 == o2 || (Before(o1, o2) && Before(o2, o1));
  }

  // --------------------------------------------------------------- the limit is exactly r^2

  predicate Bounded(radii: seq<nat>, limit: nat) {
    forall i :: 0 <= i < |radii| ==> radii[i] <= limit
  }

  lemma {:induction false} LargestIsBounded(radii: seq<nat>, limit: nat)
    requires Bounded(radii, limit)
    ensures LargestRadius(radii) <= limit
  {
    if radii != [] {
      LargestIsBounded(radii[..|radii| - 1], limit);
    }
  }

  lemma LargestWith(radii: seq<nat>, r: nat)
    ensures LargestRadius(radii + [r]) == if r > LargestRadius(radii) then r else LargestRadius(radii)
  {
    assert (radii + [r])[..|radii|] == radii;
  }

  /** A request as large as any before leaves no trace of them. */
  lemma LargestRequestForgets(history: seq<nat>, limit: nat)
    requires Bounded(history, limit)
    ensures AfterRequests(history + [limit]) == Table(limit)
  {
    LargestIsBounded(history, limit);
    LargestWith(history, limit);
    CacheIsLargestTable(history + [limit]);
  }

  lemma RequestIsCovered(history: seq<nat>, r: nat)
    ensures TableSize(r) <= |AfterRequests(history + [r])|
  {
    LargestWith(history, r);
    CacheIsLargestTable(history + [r]);
    TableCoversRequest(LargestRadius(history + [r]), r);
  }

  /** The search for radius r after some earlier requests. */
  ghost function SearchAfter(history: seq<nat>, r: nat, accept: iset<SearchOffset>): Option<SearchOffset> {
    RequestIsCovered(history, r);
    Search(AfterRequests(history + [r]), r, accept)
  }

  /**
   * With all requests at most `limit`, any two histories give the same result whenever something
   * acceptable is closer than q.
   */
  ghost predicate IgnoresHistory(r: nat, q: nat, limit: nat) {
    forall history1: seq<nat>, history2: seq<nat>, accept: iset<SearchOffset>, p: SearchOffset ::
      Bounded(history1, limit) && Bounded(history2, limit) && p in accept && WellFormed(p) && p.qdist < q
      ==> SearchAfter(history1, r, accept) == SearchAfter(history2, r, accept)
  }

  /** Numbers the offsets that come before (r, 0): the open square, then (0, -r), then (-r, 0). */
  function RimCode(o: SearchOffset, r: nat): int {
    var n := (2 * r - 1) * (2 * r - 1);
    if InOpenSquare(o, r) then SquareCode(o, r) else if o.dx == 0 then n else n + 1
  }

  /** An offset before (r, 0) is in the open square of side 2r-1 or one of two axis points. */
  lemma RimShape(o: SearchOffset, r: nat)
    requires 0 < r && WellFormed(o) && Before(o, Offset(r, 0))
    ensures InOpenSquare(o, r) || (o.dx == 0 && o.dy == -(r as int)) || (o.dx == -(r as int) && o.dy == 0)
  {
    SquareBound(o.dx, r);
    SquareBound(o.dy, r);
    SquareBound(o.dx, r + 1);
    SquareBound(o.dy, r + 1);
    assert (r + 1) * (r + 1) == r * r + 2 * r + 1;
    SquareBound(o.dx, 1);
    SquareBound(o.dy, 1);
  }

  lemma RimCodeRange(o: SearchOffset, r: nat)
    requires 0 < r
    ensures 0 <= RimCode(o, r) < (2 * r - 1) * (2 * r - 1) + 2
  {
    SquareBound(2 * r - 1, 0);
    if InOpenSquare(o, r) {
      SquareCodeRange(o, r);
    }
  }

  lemma RimCodeInjective(a: SearchOffset, b: SearchOffset, r: nat)
    requires 0 < r && WellFormed(a) && Before(a, Offset(r, 0)) && WellFormed(b) && Before(b, Offset(r, 0))
    requires RimCode(a, r) == RimCode(b, r)
    ensures a == b
  {
    RimShape(a, r);
    RimShape(b, r);
    if InOpenSquare(a, r) {
      SquareCodeRange(a, r);
    }
    if InOpenSquare(b, r) {
      SquareCodeRange(b, r);
    }
    if InOpenSquare(a, r) && InOpenSquare(b, r) {
      SquareCodeInjective(a, b, r);
    }
  }

  lemma BeforeRimIsShort(s: seq<SearchOffset>, r: nat)
    requires 0 < r && Ordered(s)
    requires forall i :: 0 <= i < |s| ==> WellFormed(s[i]) && Before(s[i], Offset(r, 0))
    ensures |s| <= (2 * r - 1) * (2 * r - 1) + 2
  {
    var codes := seq(|s|, i requires 0 <= i < |s| => RimCode(s[i], r));
    forall i | 0 <= i < |s| ensures 0 <= codes[i] < (2 * r - 1) * (2 * r - 1) + 2 {
      RimCodeRange(s[i], r);
    }
    forall i, j | 0 <= i < j < |s| ensures codes[i] != codes[j] {
      assert Before(s[i], s[j]);
      if codes[i] == codes[j] {
        RimCodeInjective(s[i], s[j], r);
      }
    }
    Pigeonhole(codes, (2 * r - 1) * (2 * r - 1) + 2);
  }

  /** In every larger table the offset (r, 0) still falls inside the first (2r)^2 entries. */
  lemma RimIsScanned(cachedRadius: nat, r: nat)
    requires 0 < r < cachedRadius
    ensures TableSize(r) <= |Table(cachedRadius)|
    ensures Offset(r, 0) in Table(cachedRadius)[..TableSize(r)]
  {
    var t, rim := Table(cachedRadius), Offset(r, 0);
    TableCoversRequest(cachedRadius, r);
    TableIsGrid(cachedRadius);
    OffsetInGrid(r, 0, cachedRadius);
    assert rim in t;
    var k :| 0 <= k < |t| && t[k] == rim;
    forall i | 0 <= i < k ensures WellFormed(t[i]) && Before(t[i], rim) {
      assert t[i] in t;
    }
    BeforeRimIsShort(t[..k], r);
    OpenSquareIsSmaller(r);
    assert t[..TableSize(r)][k] == rim;
  }

  /**
   * (r, 0) is outside the table built for r, yet scanned in every larger one: with only that
   * offset acceptable, a fresh cache fails and a grown cache succeeds.
   */
  lemma HistoryMattersOnTheRim(cachedRadius: nat, r: nat)
    requires 0 < r < cachedRadius
    ensures TableSize(r) == |Table(r)| && TableSize(r) <= |Table(cachedRadius)|
    ensures Search(Table(r), r, iset{Offset(r, 0)}) == None
    ensures Search(Table(cachedRadius), r, iset{Offset(r, 0)}) == Some(Offset(r, 0))
  {
    TableIsGrid(r);
    RimIsScanned(cachedRadius, r);
    assert forall o :: o in Table(r)[..TableSize(r)] ==> o in Table(r);
    assert !InGrid(Offset(r, 0), r);
  }

  lemma SearchAfterIsOnTable(history: seq<nat>, r: nat, accept: iset<SearchOffset>)
    ensures
      var largest := LargestRadius(history + [r]);
      TableSize(r) <= |Table(largest)| && SearchAfter(history, r, accept) == Search(Table(largest), r, accept)
  {
    hide Search, Table, TableSize, AfterRequests;
    RequestIsCovered(history, r);
    CacheIsLargestTable(history + [r]);
  }

  /** Two histories that disagree about the rim, once a larger radius than r can be asked for. */
  lemma RimDependsOnHistory(r: nat)
    requires 0 < r
    ensures SearchAfter([], r, iset{Offset(r, 0)}) == None
    ensures SearchAfter([r + 1], r, iset{Offset(r, 0)}) == Some(Offset(r, 0))
  {
    hide Search, Table, TableSize, SearchAfter;
    var rim := iset{Offset(r, 0)};
    HistoryMattersOnTheRim(r + 1, r);
    SearchAfterIsOnTable([], r, rim);
    SearchAfterIsOnTable([r + 1], r, rim);
    assert LargestRadius([] + [r]) == r by {
      LargestWith([], r);
    }
    assert LargestRadius([r + 1] + [r]) == r + 1 by {
      assert [r + 1] == [] + [r + 1];
      LargestWith([], r + 1);
      LargestWith([r + 1], r);
    }
  }

  /**
   * With requests up to a limit, history can be ignored below q if and only if q <= r^2 or r is that
   * limit.
   */
  lemma HistoryThresholdIsExact(r: nat, q: nat, limit: nat)
    requires 0 < r <= limit
    ensures IgnoresHistory(r, q, limit) <==> q <= r * r || r == limit
  {
    if q <= r * r || r == limit {
      forall history1: seq<nat>, history2: seq<nat>, accept: iset<SearchOffset>, p: SearchOffset
        | Bounded(history1, limit) && Bounded(history2, limit) && p in accept && WellFormed(p) && p.qdist < q
        ensures SearchAfter(history1, r, accept) == SearchAfter(history2, r, accept)
      {
        if r == limit {
          LargestRequestForgets(history1, limit);
          LargestRequestForgets(history2, limit);
        } else {
          SearchIgnoresHistory(history1, history2, r, accept, p);
        }
      }
    } else {
      RimDependsOnHistory(r);
      assert Bounded([], limit) && Bounded([r + 1], limit);
      assert Offset(r, 0) in iset{Offset(r, 0)} && Offset(r, 0).qdist < q;
    }
  }

  // ------------------------------------------------------------------- the cache as an object

  lemma AfterOneMore(radii: seq<nat>, radius: nat)
    ensures AfterRequests(radii + [radius]) == Request(AfterRequests(radii), radius)
  {
    assert (radii + [radius])[..|radii|] == radii;
  }

  /** The cell in row y and column x of the fill loop. */
  lemma CellIsRaster(radius: nat, y: nat, x: nat)
    requires y < radius * 2 && x < radius * 2
    ensures y * (radius * 2) + x < (radius * 2) * (radius * 2)
    ensures
      var dx, dy := x - radius, y - radius;
      RasterCell(radius, y * (radius * 2) + x) == SearchOffset(dx, dy, dx * dx + dy * dy)
  {
    CellNumbers(radius * 2, y);
    DivModUnique(y * (radius * 2) + x, radius * 2, y, x);
  }

  /** The static vector of GetSearchOffsetTable. */
  class SearchOffsetCache {
    var searchOffsets: seq<SearchOffset>
    /** The radii asked for so far. */
    ghost var history: seq<nat>

    ghost predicate Valid()
      reads this
    {
      searchOffsets == AfterRequests(history)
    }

    constructor ()
      ensures Valid() && history == []
    {
      searchOffsets, history := [], [];
    }

    /** Resizes the vector, fills it row by row and sorts it. */
    method BuildTable(radius: nat)
      requires |searchOffsets| <= TableSize(radius)
      modifies this`searchOffsets
      ensures searchOffsets == Table(radius)
    {
      hide RasterCell, StableSorted;
      var diam := radius * 2;
      var size := diam * diam;
      searchOffsets := searchOffsets + seq(size - |searchOffsets|, _ => SearchOffset(0, 0, 0));

      var y := 0;
      while y < diam
        invariant 0 <= y <= diam
        invariant |searchOffsets| == diam * diam
        invariant forall k :: 0 <= k < y * diam && k < diam * diam ==> searchOffsets[k] == RasterCell(radius, k)
      {
        var x := 0;
        CellNumbers(diam, y);
        while x < diam
          invariant 0 <= x <= diam
          invariant |searchOffsets| == diam * diam
          invariant forall k :: 0 <= k < y * diam + x ==> searchOffsets[k] == RasterCell(radius, k)
        {
          var dx, dy := x - radius, y - radius;
          CellIsRaster(radius, y, x);
          searchOffsets := searchOffsets[y * diam + x := SearchOffset(dx, dy, dx * dx + dy * dy)];
          x := x + 1;
        }
        y := y + 1;
      }

      assert searchOffsets == Raster(radius);
      searchOffsets := StableSorted(searchOffsets);
    }

    /**
     * Below 32768 the unsigned 32-bit size computation cannot wrap; the only caller asks for
     * at most 128.
     */
    method GetSearchOffsetTable(radius: nat) returns (offsets: seq<SearchOffset>)
      requires Valid() && radius < 32768
      modifies this
      ensures Valid() && history == old(history) + [radius]
      ensures offsets == searchOffsets == Request(old(searchOffsets), radius)
    {
      var diam := radius * 2;
      DiameterFits(radius);
      var size: nat := (diam * diam) % 0x1_0000_0000;
      AfterOneMore(history, radius);
      history := history + [radius];
      if size > |searchOffsets| {
        BuildTable(radius);
      }
      offsets := searchOffsets;
    }
  }

  lemma DiameterFits(radius: nat)
    requires radius < 32768
    ensures ((radius * 2) * (radius * 2)) % 0x1_0000_0000 == TableSize(radius)
  {
    SquareGrows(radius * 2, 65536);
  }

  lemma CellNumbers(d: nat, y: nat)
    requires y < d
    ensures y * d + d == (y + 1) * d <= d * d
  {
    RowMajorBound(y, d - 1, d, d);
  }
}
