/**
 * Two independent rotations of a unit's yard map. GetYardMapIndex maps a cell of the placed,
 * rotated footprint back to the definition's array; getYardMap copies the definition's array
 * forward into a rotated buffer.
 */
module YardMap {
  import opened Arithmetic

  const FACING_EAST := 1
  const FACING_NORTH := 2
  const FACING_WEST := 3

  /** Row-major index of a cell. */
  function At(x: int, z: int, width: int): int {
    x + z * width
  }

  // --------------------------------------------------- from the placed footprint to the source

  /**
   * Index into the definition's yard map of the cell (x, z) of a footprint that covers
   * [xlo, xhi) x [zlo, zhi) of the map. Facing south, 0, and unknown facings are not remapped.
   */
  method GetYardMapIndex(facing: int, x: int, z: int, xlo: int, xhi: int, zlo: int, zhi: int) returns (index: int)
    ensures index == SourceIndex(facing, x - xlo, z - zlo, xhi - xlo, zhi - zlo)
  {
    var yardX, yardZ := x - xlo, z - zlo;
    var yardXR, yardZR := xhi - xlo, zhi - zlo;
    if facing == FACING_NORTH {
      yardX := yardXR - yardX - 1;
      yardZ := yardZR - yardZ - 1;
    } else if facing == FACING_EAST {
      yardZ := yardZR - yardZ - 1;
      yardX, yardZ := yardZ, yardX;
      yardXR, yardZR := yardZR, yardXR;
    } else if facing == FACING_WEST {
      yardX := yardXR - yardX - 1;
      yardX, yardZ := yardZ, yardX;
      yardXR, yardZR := yardZR, yardXR;
    }
    index := yardX + yardXR * yardZ;
  }

  /** The source cell of the rotated cell (x, z), for a rotated footprint of width w and height h. */
  function SourceCell(facing: int, x: int, z: int, w: int, h: int): (int, int) {
    if facing == FACING_NORTH then (w - x - 1, h - z - 1)
    else if facing == FACING_EAST then (h - z - 1, x)
    else if facing == FACING_WEST then (z, w - x - 1)
    else (x, z)
  }

  function SourceWidth(facing: int, w: int, h: int): int {
    if facing == FACING_EAST || facing == FACING_WEST then h else w
  }

  function SourceIndex(facing: int, x: int, z: int, w: int, h: int): int {
    var (sx, sz) := SourceCell(facing, x, z, w, h);
    At(sx, sz, SourceWidth(facing, w, h))
  }

  // --------------------------------------------------- from the source to the rotated footprint

  predicate Sideways(facing: int) {
    facing == FACING_EAST || facing == FACING_WEST
  }

  /** Width and height of the rotated footprint of an xsize by zsize definition. */
  function RotatedWidth(facing: int, xsize: nat, zsize: nat): nat {
    if Sideways(facing) then zsize else xsize
  }

  function RotatedHeight(facing: int, xsize: nat, zsize: nat): nat {
    if Sideways(facing) then xsize else zsize
  }

  /** The rotated cell of the source cell (x, z): the inverse picture. */
  function RotatedCell(facing: int, x: int, z: int, xsize: int, zsize: int): (int, int) {
    if facing == FACING_NORTH then (xsize - 1 - x, zsize - 1 - z)
    else if facing == FACING_EAST then (z, xsize - 1 - x)
    else if facing == FACING_WEST then (zsize - 1 - z, x)
    else (x, z)
  }

  /** The two pictures are inverse to each other, cell by cell, for every footprint and facing. */
  lemma RotationsAreInverse(facing: int, x: nat, z: nat, xsize: nat, zsize: nat)
    requires x < xsize && z < zsize
    ensures var (rx, rz) := RotatedCell(facing, x, z, xsize, zsize);
            var w, h := RotatedWidth(facing, xsize, zsize), RotatedHeight(facing, xsize, zsize);
            0 <= rx < w && 0 <= rz < h && SourceCell(facing, rx, rz, w, h) == (x, z)
  {
  }

  lemma RotationsAreInverseBack(facing: int, rx: nat, rz: nat, xsize: nat, zsize: nat)
    requires rx < RotatedWidth(facing, xsize, zsize) && rz < RotatedHeight(facing, xsize, zsize)
    ensures var w, h := RotatedWidth(facing, xsize, zsize), RotatedHeight(facing, xsize, zsize);
            var (x, z) := SourceCell(facing, rx, rz, w, h);
            0 <= x < xsize && 0 <= z < zsize && RotatedCell(facing, x, z, xsize, zsize) == (rx, rz)
  {
  }

  /** The definition's front, its row of highest z, lies on the south, east, north or west edge for facing 0 to 3. */
  lemma FrontLooksAtFacing(facing: nat, x: nat, z: nat, xsize: nat, zsize: nat)
    requires facing < 4 && x < xsize && z < zsize
    ensures var (rx, rz) := RotatedCell(facing, x, z, xsize, zsize);
            var w, h := RotatedWidth(facing, xsize, zsize), RotatedHeight(facing, xsize, zsize);
            z == zsize - 1 <==> [rz == h - 1, rx == w - 1, rz == 0, rx == 0][facing]
  {
  }

  /** A quarter turn of a w by h footprint to the left, as seen with x to the right and z down. */
  function QuarterTurn(cell: (int, int), w: int): (int, int) {
    (cell.1, w - 1 - cell.0)
  }

  /** Each facing is turned from the one before by a quarter, all the same way; the fourth turn closes the circle. */
  lemma FacingsAreQuarterTurns(facing: nat, x: nat, z: nat, xsize: nat, zsize: nat)
    requires facing < 4
    ensures var w, h := RotatedWidth(facing, xsize, zsize), RotatedHeight(facing, xsize, zsize);
            var next := (facing + 1) % 4;
            && RotatedCell(next, x, z, xsize, zsize) == QuarterTurn(RotatedCell(facing, x, z, xsize, zsize), w)
            && RotatedWidth(next, xsize, zsize) == h && RotatedHeight(next, xsize, zsize) == w
    ensures RotatedCell(0, x, z, xsize, zsize) == (x, z)
  {
  }

  lemma AtInRange(x: nat, z: nat, width: nat, height: nat)
    requires x < width && z < height
    ensures 0 <= At(x, z, width) < width * height
  {
    RowMajorBound(z, x, width, height);
  }

  lemma AtInjective(x1: nat, z1: nat, x2: nat, z2: nat, width: nat)
    requires x1 < width && x2 < width && At(x1, z1, width) == At(x2, z2, width)
    ensures x1 == x2 && z1 == z2
  {
    DivModUnique(At(x1, z1, width), width, z1, x1);
    DivModUnique(At(x1, z1, width), width, z2, x2);
  }

  // ------------------------------------------------------------------------- the copying loop

  /** The stepping directions, row width and start index chosen for a facing. */
  datatype Layout = Layout(xdirX: int, xdirZ: int, zdirX: int, zdirZ: int, rowWidth: nat, startIdx: int)

  function LayoutFor(facing: int, xsize: nat, zsize: nat): Layout {
    if facing == FACING_NORTH then Layout(-1, 0, 0, -1, xsize, xsize * zsize - 1)
    else if facing == FACING_EAST then Layout(0, 1, -1, 0, zsize, (xsize - 1) * zsize)
    else if facing == FACING_WEST then Layout(0, -1, 1, 0, zsize, zsize - 1)
    else Layout(1, 0, 0, 1, xsize, 0)
  }

  /** Where the loop writes source cell (x, z). */
  function TargetIndex(facing: int, x: int, z: int, xsize: nat, zsize: nat): int {
    var l := LayoutFor(facing, xsize, zsize);
    l.startIdx + (l.xdirX * x + l.xdirZ * z) + (l.zdirX * x + l.zdirZ * z) * l.rowWidth
  }

  lemma TargetIsRotatedCell(facing: int, x: int, z: int, xsize: nat, zsize: nat)
    ensures var (rx, rz) := RotatedCell(facing, x, z, xsize, zsize);
            TargetIndex(facing, x, z, xsize, zsize) == At(rx, rz, RotatedWidth(facing, xsize, zsize))
  {
    if facing == FACING_NORTH {
      assert (zsize - 1 - z) * xsize == xsize * zsize - xsize - z * xsize;
    } else if facing == FACING_EAST {
      assert (xsize - 1 - x) * zsize == (xsize - 1) * zsize - x * zsize;
    }
  }

  /** Every write is in bounds, and two source cells never share a target. */
  lemma TargetsInBounds(facing: int, x: nat, z: nat, xsize: nat, zsize: nat)
    requires x < xsize && z < zsize
    ensures 0 <= TargetIndex(facing, x, z, xsize, zsize) < xsize * zsize
  {
    var (rx, rz) := RotatedCell(facing, x, z, xsize, zsize);
    RotationsAreInverse(facing, x, z, xsize, zsize);
    TargetIsRotatedCell(facing, x, z, xsize, zsize);
    AtInRange(rx, rz, RotatedWidth(facing, xsize, zsize), RotatedHeight(facing, xsize, zsize));
  }

  lemma TargetsDistinct(facing: int, x1: nat, z1: nat, x2: nat, z2: nat, xsize: nat, zsize: nat)
    requires x1 < xsize && z1 < zsize && x2 < xsize && z2 < zsize
    requires TargetIndex(facing, x1, z1, xsize, zsize) == TargetIndex(facing, x2, z2, xsize, zsize)
    ensures x1 == x2 && z1 == z2
  {
    var (rx1, rz1) := RotatedCell(facing, x1, z1, xsize, zsize);
    var (rx2, rz2) := RotatedCell(facing, x2, z2, xsize, zsize);
    RotationsAreInverse(facing, x1, z1, xsize, zsize);
    RotationsAreInverse(facing, x2, z2, xsize, zsize);
    TargetIsRotatedCell(facing, x1, z1, xsize, zsize);
    TargetIsRotatedCell(facing, x2, z2, xsize, zsize);
    AtInjective(rx1, rz1, rx2, rz2, RotatedWidth(facing, xsize, zsize));
  }

  /** Source cell (x, z) comes before (x', z') in the copying order. */
  predicate Copied(x: int, z: int, nextX: int, nextZ: int) {
    z < nextZ || (z == nextZ && x < nextX)
  }

  /** The first cells of src, up to the loop position, stand at their targets. */
  ghost predicate CopiedUpTo(
    out: array<int>, src: seq<int>, facing: int, xsize: nat, zsize: nat, nextX: int, nextZ: int)
    reads out
  {
    out.Length >= xsize * zsize == |src|
    && forall x, z :: 0 <= x < xsize && 0 <= z < zsize && Copied(x, z, nextX, nextZ)
         ==> TargetHolds(out, src, facing, x, z, xsize, zsize)
  }

  ghost predicate TargetHolds(out: array<int>, src: seq<int>, facing: int, x: nat, z: nat, xsize: nat, zsize: nat)
    requires x < xsize && z < zsize && out.Length >= xsize * zsize == |src|
    reads out
  {
    TargetsInBounds(facing, x, z, xsize, zsize);
    AtInRange(x, z, xsize, zsize);
    out[TargetIndex(facing, x, z, xsize, zsize)] == src[At(x, z, xsize)]
  }

  /** The loop body for one cell: later writes never disturb earlier ones. */
  method CopyCell(out: array<int>, src: seq<int>, facing: int, xsize: nat, zsize: nat, x: nat, z: nat)
    requires x < xsize && z < zsize
    requires CopiedUpTo(out, src, facing, xsize, zsize, x, z)
    modifies out
    ensures CopiedUpTo(out, src, facing, xsize, zsize, x + 1, z)
    ensures forall k :: xsize * zsize <= k < out.Length ==> out[k] == old(out[k])
  {
    var l := LayoutFor(facing, xsize, zsize);
    var xt := l.xdirX * x + l.xdirZ * z;
    var zt := l.zdirX * x + l.zdirZ * z;
    var idx := l.startIdx + xt + zt * l.rowWidth;
    TargetsInBounds(facing, x, z, xsize, zsize);
    AtInRange(x, z, xsize, zsize);
    out[idx] := src[x + z * xsize];
    forall u, v | 0 <= u < xsize && 0 <= v < zsize && Copied(u, v, x + 1, z)
      ensures TargetHolds(out, src, facing, u, v, xsize, zsize)
    {
      if (u, v) != (x, z) {
        assert Copied(u, v, x, z);
        assert old(TargetHolds(out, src, facing, u, v, xsize, zsize));
        TargetsInBounds(facing, u, v, xsize, zsize);
        if TargetIndex(facing, u, v, xsize, zsize) == idx {
          TargetsDistinct(facing, u, v, x, z, xsize, zsize);
        }
      }
    }
  }

  /** The target of every source cell holds it: read from the rotated side. */
  ghost predicate IsRotation(out: array<int>, src: seq<int>, facing: int, xsize: nat, zsize: nat)
    reads out
  {
    out.Length >= xsize * zsize == |src|
    && forall rx, rz :: 0 <= rx < RotatedWidth(facing, xsize, zsize) && 0 <= rz < RotatedHeight(facing, xsize, zsize)
         ==> RotatedHolds(out, src, facing, rx, rz, xsize, zsize)
  }

  ghost predicate RotatedHolds(out: array<int>, src: seq<int>, facing: int, rx: nat, rz: nat, xsize: nat, zsize: nat)
    requires rx < RotatedWidth(facing, xsize, zsize) && rz < RotatedHeight(facing, xsize, zsize)
    requires out.Length >= xsize * zsize == |src|
    reads out
  {
    var w, h := RotatedWidth(facing, xsize, zsize), RotatedHeight(facing, xsize, zsize);
    SourceIndexInRange(facing, rx, rz, xsize, zsize);
    RotatedIndexInRange(facing, rx, rz, xsize, zsize);
    out[At(rx, rz, w)] == src[SourceIndex(facing, rx, rz, w, h)]
  }

  lemma SameArea(facing: int, xsize: nat, zsize: nat)
    ensures RotatedWidth(facing, xsize, zsize) * RotatedHeight(facing, xsize, zsize) == xsize * zsize
  {
  }

  lemma SourceIndexInRange(facing: int, rx: nat, rz: nat, xsize: nat, zsize: nat)
    requires rx < RotatedWidth(facing, xsize, zsize) && rz < RotatedHeight(facing, xsize, zsize)
    ensures var w, h := RotatedWidth(facing, xsize, zsize), RotatedHeight(facing, xsize, zsize);
            0 <= SourceIndex(facing, rx, rz, w, h) < xsize * zsize
  {
    var (x, z) := SourceCell(facing, rx, rz, RotatedWidth(facing, xsize, zsize), RotatedHeight(facing, xsize, zsize));
    RotationsAreInverseBack(facing, rx, rz, xsize, zsize);
    AtInRange(x, z, xsize, zsize);
  }

  lemma RotatedIndexInRange(facing: int, rx: nat, rz: nat, xsize: nat, zsize: nat)
    requires rx < RotatedWidth(facing, xsize, zsize) && rz < RotatedHeight(facing, xsize, zsize)
    ensures 0 <= At(rx, rz, RotatedWidth(facing, xsize, zsize)) < xsize * zsize
  {
    AtInRange(rx, rz, RotatedWidth(facing, xsize, zsize), RotatedHeight(facing, xsize, zsize));
    SameArea(facing, xsize, zsize);
  }

  lemma CopiedAllIsRotation(out: array<int>, src: seq<int>, facing: int, xsize: nat, zsize: nat)
    requires CopiedUpTo(out, src, facing, xsize, zsize, 0, zsize)
    ensures IsRotation(out, src, facing, xsize, zsize)
  {
    forall rx, rz | 0 <= rx < RotatedWidth(facing, xsize, zsize) && 0 <= rz < RotatedHeight(facing, xsize, zsize)
      ensures RotatedHolds(out, src, facing, rx, rz, xsize, zsize)
    {
      var (x, z) := SourceCell(facing, rx, rz, RotatedWidth(facing, xsize, zsize), RotatedHeight(facing, xsize, zsize));
      RotationsAreInverseBack(facing, rx, rz, xsize, zsize);
      TargetIsRotatedCell(facing, x, z, xsize, zsize);
      assert TargetHolds(out, src, facing, x, z, xsize, zsize);
    }
  }

  function Min(a: int, b: int): int { if b < a then b else a }

  /**
   * skirmishAiCallback_UnitDef_getYardMap. A null buffer or a definition without a yard map only
   * reports the size. The buffer must hold the whole map, as the source asserts for every write.
   */
  method GetYardMap(out: array?<int>, src: seq<int>, facing: int, xsize: nat, zsize: nat, yardMapMaxSize: int)
    returns (yardMapSize: int)
    requires src == [] || |src| == xsize * zsize
    requires out != null && src != [] ==> out.Length >= |src| && yardMapMaxSize >= |src|
    modifies out
    ensures yardMapSize == |src|
    ensures out != null && src == [] ==> out[..] == old(out[..])
    ensures out != null && src != [] ==>
              IsRotation(out, src, facing, xsize, zsize)
              && forall k :: |src| <= k < out.Length ==> out[k] == old(out[k])
  {
    yardMapSize := |src|;
    if out != null && src != [] {
      yardMapSize := Min(yardMapSize, yardMapMaxSize);
      var z := 0;
      while z < zsize
        invariant 0 <= z <= zsize
        invariant CopiedUpTo(out, src, facing, xsize, zsize, 0, z)
        invariant forall k :: |src| <= k < out.Length ==> out[k] == old(out[k])
      {
        var x := 0;
        while x < xsize
          invariant 0 <= x <= xsize
          invariant CopiedUpTo(out, src, facing, xsize, zsize, x, z)
          invariant forall k :: |src| <= k < out.Length ==> out[k] == old(out[k])
        {
          CopyCell(out, src, facing, xsize, zsize, x, z);
          x := x + 1;
        }
        z := z + 1;
      }
      CopiedAllIsRotation(out, src, facing, xsize, zsize);
    }
  }
}
