/**
 * The three finder-pattern corners: where each marker goes, how big its boxes are,
 * how it is rotated, and the fallback that builds a marker from single modules.
 */
module Corners {
  import opened Wrappers
  import opened Geometry
  import opened Layout
  import opened Masks
  import CornerSquare

  /** A corner: 0 or 1 grid spans across, 0 or 1 down, and the marker's rotation in quarter turns. */
  datatype Anchor = Anchor(column: int, row: int, quarterTurns: int)

  /** Top-left unrotated; top-right a quarter turn; bottom-left a quarter turn back. */
  const Anchors: seq<Anchor> := [Anchor(0, 0, 0), Anchor(1, 0, 1), Anchor(0, 1, -1)]

  /** The marker rotation in radians: a multiple of half of pi. */
  function Rotation(a: Anchor): real {
    a.quarterTurns as real * (Pi / 2.0)
  }

  /** The 7-module box of the corner-square marker. */
  function SquareBox(g: Grid, a: Anchor): Rect {
    var d := g.dotSize;
    Rect(g.xBeginning + a.column * d * (g.count - 7), g.yBeginning + a.row * d * (g.count - 7), d * 7, d * 7)
  }

  /** The 3-module box of the corner-dot marker, two modules in from the square box. */
  function DotBox(g: Grid, a: Anchor): Rect {
    var b := SquareBox(g, a);
    Rect(b.x + g.dotSize * 2, b.y + g.dotSize * 2, g.dotSize * 3, g.dotSize * 3)
  }

  /** One module drawn by the fallback: its cell in the 7 by 7 table, its top-left pixel and its size. */
  datatype MarkerDot = MarkerDot(i: int, j: int, pos: Pos, size: int)

  /** The fallback marker: one module for each marked cell of the table, at `origin` plus the cell times d. */
  function FallbackDots(m: seq<seq<int>>, origin: Pos, d: int): (r: seq<MarkerDot>)
    ensures |r| == |MaskCells(m)|
    ensures forall k | 0 <= k < |r| :: MaskAt(m, r[k].i, r[k].j) && r[k].size == d
    ensures forall k | 0 <= k < |r| :: r[k].pos == Pos(origin.x + r[k].i * d, origin.y + r[k].j * d)
    ensures forall k | 0 <= k < |r| :: (r[k].i, r[k].j) == MaskCells(m)[k]
  {
    var cells := MaskCells(m);
    MaskCellsMarked(m);
    seq(|cells|, k requires 0 <= k < |cells| =>
      MarkerDot(cells[k].0, cells[k].1, Pos(origin.x + cells[k].0 * d, origin.y + cells[k].1 * d), d))
  }

  /**
   * The fallback draws exactly the marked cells, each once: a cell is marked if and
   * only if some module of the fallback sits on it, and no two modules share a cell.
   */
  lemma FallbackDotsExact(m: seq<seq<int>>, origin: Pos, d: int)
    ensures var r := FallbackDots(m, origin, d);
      forall a, b :: MaskAt(m, a, b) <==> exists k | 0 <= k < |r| :: r[k].i == a && r[k].j == b
    ensures var r := FallbackDots(m, origin, d);
      forall k, l | 0 <= k < l < |r| :: (r[k].i, r[k].j) != (r[l].i, r[l].j)
  {
    var r := FallbackDots(m, origin, d);
    var cells := MaskCells(m);
    forall a, b
      ensures MaskAt(m, a, b) <==> exists k | 0 <= k < |r| :: r[k].i == a && r[k].j == b
    {
      MaskCellsMembers(m, (a, b));
      if MaskAt(m, a, b) {
        var k :| 0 <= k < |cells| && cells[k] == (a, b);
        assert r[k].i == a && r[k].j == b;
      }
    }
    MaskCellsNoRepeats(m);
  }

  /** Every cell the enumeration yields is marked in the table. */
  lemma MaskCellsMarked(m: seq<seq<int>>)
    ensures forall k | 0 <= k < |MaskCells(m)| :: MaskAt(m, MaskCells(m)[k].0, MaskCells(m)[k].1)
  {
    forall k | 0 <= k < |MaskCells(m)|
      ensures MaskAt(m, MaskCells(m)[k].0, MaskCells(m)[k].1)
    {
      MaskCellsMembers(m, MaskCells(m)[k]);
    }
  }

  /** The fallback's neighbour test: the offset cell is marked in the same table. */
  predicate FallbackNeighbour(m: seq<seq<int>>, i: int, j: int, xOff: int, yOff: int) {
    MaskAt(m, i + xOff, j + yOff)
  }

  /** What the corner-square step draws: a shaped marker, or the ring built from modules. */
  datatype SquareMarker = ShapedSquare(figure: CornerSquare.CornerSquareFigure) | SquareFromModules(dots: seq<MarkerDot>)

  /** What the corner-dot step draws: a shaped dot of the given style (drawn by a figure not modelled here), or the centre built from modules. */
  datatype DotMarker = ShapedDot(kind: string, x: int, y: int, size: int, rotation: real) | DotFromModules(dots: seq<MarkerDot>)

  datatype Corner = Corner(anchor: Anchor, squareBox: Rect, dotBox: Rect, square: SquareMarker, dot: DotMarker)

  /** A corner-square style is set when it is present and its name is not the empty, falsy one. */
  predicate SquareStyled(squareType: Option<CornerSquare.CornerSquareType>) {
    squareType.Some? && squareType.value != CornerSquare.Unknown("")
  }

  /** A corner-dot style is set when it is present and not the empty string. */
  predicate DotStyled(dotType: Option<string>) {
    dotType.Some? && dotType.value != ""
  }

  /**
   * One corner: a set corner-square style draws the shaped marker in the square
   * box, rotated; without one, the ring is built from modules. Likewise the dot: a
   * set style draws it in the dot box; without one, the centre cells.
   */
  function DrawCorner(g: Grid, squareType: Option<CornerSquare.CornerSquareType>, dotType: Option<string>, a: Anchor)
    : (c: Corner)
    ensures c.anchor == a && c.squareBox == SquareBox(g, a) && c.dotBox == DotBox(g, a)
    ensures SquareStyled(squareType) <==> c.square.ShapedSquare?
    ensures DotStyled(dotType) <==> c.dot.ShapedDot?
    ensures c.square.ShapedSquare? ==>
      c.square.figure == CornerSquare.Draw(CornerSquare.CornerSquareFigure(squareType.value, None),
                                           c.squareBox.x as real, c.squareBox.y as real,
                                           c.squareBox.width as real, Rotation(a))
    ensures c.square.SquareFromModules? ==>
      c.square.dots == FallbackDots(SquareMask, Pos(c.squareBox.x, c.squareBox.y), g.dotSize)
    ensures c.dot.ShapedDot? ==>
      c.dot == ShapedDot(dotType.value, c.dotBox.x, c.dotBox.y, c.dotBox.width, Rotation(a))
    ensures c.dot.DotFromModules? ==>
      c.dot.dots == FallbackDots(DotMask, Pos(c.squareBox.x, c.squareBox.y), g.dotSize)
  {
    var box := SquareBox(g, a);
    var d := g.dotSize;
    var square :=
      if SquareStyled(squareType) then
        ShapedSquare(CornerSquare.Draw(CornerSquare.CornerSquareFigure(squareType.value, None),
                                       box.x as real, box.y as real, (d * 7) as real, Rotation(a)))
      else SquareFromModules(FallbackDots(SquareMask, Pos(box.x, box.y), d));
    var dot :=
      if DotStyled(dotType) then ShapedDot(dotType.value, box.x + d * 2, box.y + d * 2, d * 3, Rotation(a))
      else DotFromModules(FallbackDots(DotMask, Pos(box.x, box.y), d));
    Corner(a, box, DotBox(g, a), square, dot)
  }

  /** The three corners, in anchor order. */
  function DrawCorners(g: Grid, squareType: Option<CornerSquare.CornerSquareType>, dotType: Option<string>)
    : (r: seq<Corner>)
    ensures |r| == 3
    ensures forall k | 0 <= k < 3 :: r[k].anchor == Anchors[k] && r[k] == DrawCorner(g, squareType, dotType, Anchors[k])
  {
    seq(3, k requires 0 <= k < 3 => DrawCorner(g, squareType, dotType, Anchors[k]))
  }

  /** A shaped marker at a corner is rotated by 0, 90 or -90 degrees about its box centre. */
  lemma ShapedSquareRotation(g: Grid, squareType: Option<CornerSquare.CornerSquareType>, dotType: Option<string>, k: int)
    requires 0 <= k < 3
    ensures var c := DrawCorner(g, squareType, dotType, Anchors[k]);
      c.square.ShapedSquare? ==>
      var e := c.square.figure.element.value;
      && e.transform.degrees == 90.0 * Anchors[k].quarterTurns as real
      && 2.0 * e.transform.cx == (2 * c.squareBox.x + c.squareBox.width) as real
      && 2.0 * e.transform.cy == (2 * c.squareBox.y + c.squareBox.height) as real
  {
    var c := DrawCorner(g, squareType, dotType, Anchors[k]);
    if c.square.ShapedSquare? {
      var e := c.square.figure.element.value;
      assert e.transform.degrees * Pi == 180.0 * Rotation(Anchors[k]);
      assert 180.0 * Rotation(Anchors[k]) == (90.0 * Anchors[k].quarterTurns as real) * Pi;
    }
  }

  /** The dot box sits inside the square box, with the same centre. */
  lemma DotBoxInsideSquareBox(g: Grid, a: Anchor)
    requires g.dotSize >= 0
    ensures Within(DotBox(g, a), SquareBox(g, a))
    ensures 2 * DotBox(g, a).x + DotBox(g, a).width == 2 * SquareBox(g, a).x + SquareBox(g, a).width
    ensures 2 * DotBox(g, a).y + DotBox(g, a).height == 2 * SquareBox(g, a).y + SquareBox(g, a).height
  {
  }

  /** The anchors' square boxes start at grid offset 0 or count - 7 modules on each axis. */
  lemma SquareBoxOffsets(g: Grid, k: int)
    requires 0 <= k < 3
    ensures var b := SquareBox(g, Anchors[k]); var far := (g.count - 7) * g.dotSize;
      && b.x == g.xBeginning + (if k == 1 then far else 0)
      && b.y == g.yBeginning + (if k == 2 then far else 0)
  {
  }

  /** With modules of positive size and more than 7 of them per side, the three marker boxes start at three different places. */
  lemma SquareBoxesDistinct(g: Grid, k1: int, k2: int)
    requires g.count > 7 && g.dotSize > 0
    requires 0 <= k1 < 3 && 0 <= k2 < 3 && k1 != k2
    ensures SquareBox(g, Anchors[k1]) != SquareBox(g, Anchors[k2])
  {
    SquareBoxOffsets(g, k1);
    SquareBoxOffsets(g, k2);
    MulMonotone(1, g.count - 7, g.dotSize);
  }

  /** A symbol of 14 modules or more has its three marker boxes pairwise apart. */
  lemma SquareBoxesDisjoint(g: Grid, k1: int, k2: int)
    requires g.count >= 14 && g.dotSize > 0
    requires 0 <= k1 < 3 && 0 <= k2 < 3 && k1 != k2
    ensures Disjoint(SquareBox(g, Anchors[k1]), SquareBox(g, Anchors[k2]))
  {
    SquareBoxOffsets(g, k1);
    SquareBoxOffsets(g, k2);
    MulMonotone(7, g.count - 7, g.dotSize);
  }

  /** Every marker box lies inside the module grid. */
  lemma SquareBoxesInGrid(g: Grid, k: int)
    requires g.count >= 7 && g.dotSize >= 0 && 0 <= k < 3
    ensures Within(SquareBox(g, Anchors[k]), GridRect(g))
  {
    SquareBoxOffsets(g, k);
    assert (g.count - 7) * g.dotSize + 7 * g.dotSize == g.count * g.dotSize;
    MulMonotone(0, g.count - 7, g.dotSize);
  }

  /** Module k's span [k * d, k * d + d) lies in the 7-module span starting at lo * d exactly when lo <= k < lo + 7. */
  lemma SpanInBox(k: int, lo: int, d: int)
    requires d > 0
    ensures (lo * d <= k * d && k * d + d <= lo * d + 7 * d) <==> (lo <= k < lo + 7)
  {
    if lo <= k { MulMonotone(lo, k, d); }
    if k < lo { MulMonotone(k + 1, lo, d); }
    if k + 1 <= lo + 7 { MulMonotone(k + 1, lo + 7, d); }
    if lo + 7 < k + 1 { MulMonotone(lo + 8, k + 1, d); }
  }

  /** A module whose top-left pixel is p lies in the square box of anchor k. */
  predicate ModuleInBox(g: Grid, p: Pos, k: int)
    requires 0 <= k < 3
  {
    Within(Rect(p.x, p.y, g.dotSize, g.dotSize), SquareBox(g, Anchors[k]))
  }

  /** Module (i, j), at its corrected place, lies in the square box of anchor k. */
  predicate CellInBox(g: Grid, legacy: bool, i: int, j: int, k: int)
    requires 0 <= k < 3
  {
    ModuleInBox(g, Place(g, legacy, i, j), k)
  }

  /**
   * The marker boxes cover exactly the finder-pattern footprints: a module at its
   * corrected place lies in one of the three boxes if and only if it is one of the
   * 7 by 7 footprint cells the filter looks at, in either axis mapping.
   */
  lemma CornerBoxesCoverFootprints(g: Grid, legacy: bool, i: int, j: int)
    requires g.dotSize > 0
    ensures (CellInBox(g, legacy, i, j, 0) || CellInBox(g, legacy, i, j, 1) || CellInBox(g, legacy, i, j, 2))
            <==> InFootprint(g.count, i, j)
  {
    var d := g.dotSize;
    var n := g.count;
    SquareBoxOffsets(g, 0);
    SquareBoxOffsets(g, 1);
    SquareBoxOffsets(g, 2);
    SpanInBox(i, 0, d);
    SpanInBox(j, 0, d);
    SpanInBox(i, n - 7, d);
    SpanInBox(j, n - 7, d);
    assert 0 * d == 0;
  }

  /**
   * The same holds of the position the module-drawing step writes, in legacy mode
   * and whenever the two grid origins coincide (as on a square canvas).
   */
  lemma CornerBoxesCoverDrawnModules(g: Grid, legacy: bool, i: int, j: int)
    requires g.dotSize > 0 && (legacy || g.xBeginning == g.yBeginning)
    ensures var p := PlaceAsWritten(g, legacy, i, j);
      (ModuleInBox(g, p, 0) || ModuleInBox(g, p, 1) || ModuleInBox(g, p, 2)) <==> InFootprint(g.count, i, j)
  {
    PlaceAsWrittenIsPlace(g, legacy, i, j);
    CornerBoxesCoverFootprints(g, legacy, i, j);
  }

  /** The ring fallback draws 24 modules and the centre fallback 9. */
  lemma FallbackCounts(origin: Pos, d: int)
    ensures |FallbackDots(SquareMask, origin, d)| == 24
    ensures |FallbackDots(DotMask, origin, d)| == 9
  {
    MaskCellCounts();
  }

  /** A module at table cell (a, b), drawn from `origin`, lies in the box of n modules starting `lo` cells in. */
  lemma TableModuleInBox(origin: Pos, a: int, b: int, lo: int, n: int, d: int)
    requires d >= 0 && lo <= a < lo + n && lo <= b < lo + n
    ensures Within(Rect(origin.x + a * d, origin.y + b * d, d, d),
                   Rect(origin.x + lo * d, origin.y + lo * d, n * d, n * d))
  {
    CellWithinSpan(a - lo, n, d);
    CellWithinSpan(b - lo, n, d);
    assert a * d == (a - lo) * d + lo * d;
    assert b * d == (b - lo) * d + lo * d;
  }

  /** The ring's modules lie in the square box. */
  lemma RingWithinSquareBox(g: Grid, a: Anchor, k: int)
    requires g.dotSize >= 0
    ensures var b := SquareBox(g, a); var ring := FallbackDots(SquareMask, Pos(b.x, b.y), g.dotSize);
      0 <= k < |ring| ==> Within(Rect(ring[k].pos.x, ring[k].pos.y, g.dotSize, g.dotSize), b)
  {
    var b := SquareBox(g, a);
    var ring := FallbackDots(SquareMask, Pos(b.x, b.y), g.dotSize);
    if 0 <= k < |ring| {
      SquareMaskIsRing(ring[k].i, ring[k].j);
      TableModuleInBox(Pos(b.x, b.y), ring[k].i, ring[k].j, 0, 7, g.dotSize);
    }
  }

  /** The centre's modules lie in the dot box. */
  lemma CoreWithinDotBox(g: Grid, a: Anchor, k: int)
    requires g.dotSize >= 0
    ensures var b := SquareBox(g, a); var core := FallbackDots(DotMask, Pos(b.x, b.y), g.dotSize);
      0 <= k < |core| ==> Within(Rect(core[k].pos.x, core[k].pos.y, g.dotSize, g.dotSize), DotBox(g, a))
  {
    var b := SquareBox(g, a);
    var core := FallbackDots(DotMask, Pos(b.x, b.y), g.dotSize);
    if 0 <= k < |core| {
      DotMaskIsCore(core[k].i, core[k].j);
      TableModuleInBox(Pos(b.x, b.y), core[k].i, core[k].j, 2, 3, g.dotSize);
    }
  }

  /**
   * A corner drawn without a square style is the 24-module ring: a table cell is on
   * the ring if and only if one of its modules sits there, no two share a cell, and
   * every module lies in the square box.
   */
  lemma FallbackSquareMarker(g: Grid, squareType: Option<CornerSquare.CornerSquareType>, dotType: Option<string>, a: Anchor)
    requires g.dotSize >= 0 && !SquareStyled(squareType)
    ensures var c := DrawCorner(g, squareType, dotType, a); var ds := c.square.dots;
      && c.square.SquareFromModules?
      && |ds| == 24
      && (forall u, v :: OnRing(u, v) <==> exists k | 0 <= k < |ds| :: ds[k].i == u && ds[k].j == v)
      && (forall k, l | 0 <= k < l < |ds| :: (ds[k].i, ds[k].j) != (ds[l].i, ds[l].j))
      && (forall k | 0 <= k < |ds| :: Within(Rect(ds[k].pos.x, ds[k].pos.y, g.dotSize, g.dotSize), c.squareBox))
  {
    var c := DrawCorner(g, squareType, dotType, a);
    var b := SquareBox(g, a);
    var ds := c.square.dots;
    assert ds == FallbackDots(SquareMask, Pos(b.x, b.y), g.dotSize);
    FallbackCounts(Pos(b.x, b.y), g.dotSize);
    RingModulesExact(Pos(b.x, b.y), g.dotSize);
    forall k | 0 <= k < |ds|
      ensures Within(Rect(ds[k].pos.x, ds[k].pos.y, g.dotSize, g.dotSize), c.squareBox)
    {
      RingWithinSquareBox(g, a, k);
    }
  }

  /**
   * A corner drawn without a dot style is the 9-module centre: a cell is in the
   * central block if and only if one of its modules sits there, no two share a
   * cell, and every module lies in the dot box.
   */
  lemma FallbackDotMarker(g: Grid, squareType: Option<CornerSquare.CornerSquareType>, dotType: Option<string>, a: Anchor)
    requires g.dotSize >= 0 && !DotStyled(dotType)
    ensures var c := DrawCorner(g, squareType, dotType, a); var ds := c.dot.dots;
      && c.dot.DotFromModules?
      && |ds| == 9
      && (forall u, v :: InCore(u, v) <==> exists k | 0 <= k < |ds| :: ds[k].i == u && ds[k].j == v)
      && (forall k, l | 0 <= k < l < |ds| :: (ds[k].i, ds[k].j) != (ds[l].i, ds[l].j))
      && (forall k | 0 <= k < |ds| :: Within(Rect(ds[k].pos.x, ds[k].pos.y, g.dotSize, g.dotSize), c.dotBox))
  {
    var c := DrawCorner(g, squareType, dotType, a);
    var b := SquareBox(g, a);
    var ds := c.dot.dots;
    assert ds == FallbackDots(DotMask, Pos(b.x, b.y), g.dotSize);
    FallbackCounts(Pos(b.x, b.y), g.dotSize);
    CoreModulesExact(Pos(b.x, b.y), g.dotSize);
    forall k | 0 <= k < |ds|
      ensures Within(Rect(ds[k].pos.x, ds[k].pos.y, g.dotSize, g.dotSize), c.dotBox)
    {
      CoreWithinDotBox(g, a, k);
    }
  }

  /** The ring fallback sits on exactly the ring cells, each once. */
  lemma RingModulesExact(origin: Pos, d: int)
    ensures var ds := FallbackDots(SquareMask, origin, d);
      && (forall u, v :: OnRing(u, v) <==> exists k | 0 <= k < |ds| :: ds[k].i == u && ds[k].j == v)
      && (forall k, l | 0 <= k < l < |ds| :: (ds[k].i, ds[k].j) != (ds[l].i, ds[l].j))
  {
    FallbackDotsExact(SquareMask, origin, d);
    forall u, v
      ensures OnRing(u, v) <==> MaskAt(SquareMask, u, v)
    {
      SquareMaskIsRing(u, v);
    }
  }

  /** The centre fallback sits on exactly the central cells, each once. */
  lemma CoreModulesExact(origin: Pos, d: int)
    ensures var ds := FallbackDots(DotMask, origin, d);
      && (forall u, v :: InCore(u, v) <==> exists k | 0 <= k < |ds| :: ds[k].i == u && ds[k].j == v)
      && (forall k, l | 0 <= k < l < |ds| :: (ds[k].i, ds[k].j) != (ds[l].i, ds[l].j))
  {
    FallbackDotsExact(DotMask, origin, d);
    forall u, v
      ensures InCore(u, v) <==> MaskAt(DotMask, u, v)
    {
      DotMaskIsCore(u, v);
    }
  }

  /** The fallback ring's neighbour test reports exactly the ring cells, and nothing outside the 7 by 7 table. */
  lemma FallbackNeighbourIsRing(i: int, j: int, xOff: int, yOff: int)
    ensures FallbackNeighbour(SquareMask, i, j, xOff, yOff) <==> OnRing(i + xOff, j + yOff)
    ensures FallbackNeighbour(DotMask, i, j, xOff, yOff) <==> InCore(i + xOff, j + yOff)
    ensures !InBox7(i + xOff, j + yOff) ==>
      !FallbackNeighbour(SquareMask, i, j, xOff, yOff) && !FallbackNeighbour(DotMask, i, j, xOff, yOff)
  {
    SquareMaskIsRing(i + xOff, j + yOff);
    DotMaskIsCore(i + xOff, j + yOff);
  }
}
