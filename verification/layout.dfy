/**
 * Where the module grid sits on the canvas: the module size, the centred origin,
 * the one error the renderer raises, and the pixel position of each module.
 */
module Layout {
  import opened Wrappers
  import opened Geometry

  /** The canvas options the layout reads: pixel width, pixel height, symmetric margin. */
  datatype Canvas = Canvas(width: int, height: int, margin: int)

  /** The module grid on a canvas: modules per side, module pixel size, top-left pixel. */
  datatype Grid = Grid(count: int, dotSize: int, xBeginning: int, yBeginning: int)

  /** The message thrown when the symbol has more modules than the canvas has pixels. */
  const CanvasTooSmall: string := "The canvas is too small."

  /** The side of the square the grid may use: the shorter canvas side less both margins. */
  function MinSize(c: Canvas): int {
    Min(c.width, c.height) - c.margin * 2
  }

  /** The module pixel size: the largest whole size at which `count` modules fit in `MinSize`. */
  function DotSize(c: Canvas, count: int): (d: int)
    requires count >= 1
    ensures count * d <= MinSize(c) < count * (d + 1)
  {
    MinSize(c) / count
  }

  /** The offset that centres a span of `used` pixels in `side` pixels, rounded down. */
  function Beginning(side: int, used: int): (b: int)
    ensures 2 * b <= side - used < 2 * b + 2
  {
    (side - used) / 2
  }

  /** The grid as every drawing step computes it, without the size check. */
  function GridOf(c: Canvas, count: int): (g: Grid)
    requires count >= 1
    ensures g.count == count && g.dotSize == DotSize(c, count)
    ensures 2 * g.xBeginning <= c.width - count * g.dotSize < 2 * g.xBeginning + 2
    ensures 2 * g.yBeginning <= c.height - count * g.dotSize < 2 * g.yBeginning + 2
  {
    var d := DotSize(c, count);
    Grid(count, d, Beginning(c.width, count * d), Beginning(c.height, count * d))
  }

  /**
   * The grid of the module-drawing step, which refuses a symbol with more modules
   * than the canvas has pixels on either side. The margin plays no part in the check.
   */
  function CheckedGrid(c: Canvas, count: int): (r: Result<Grid, string>)
    requires count >= 1
    ensures r.Failure? <==> count > c.width || count > c.height
    ensures r.Failure? ==> r.error == CanvasTooSmall
    ensures r.Success? ==> r.value == GridOf(c, count)
  {
    if count > c.width || count > c.height then Failure(CanvasTooSmall)
    else Success(GridOf(c, count))
  }

  /** The pixel extent of the whole module grid. */
  function GridRect(g: Grid): Rect {
    Rect(g.xBeginning, g.yBeginning, g.count * g.dotSize, g.count * g.dotSize)
  }

  /**
   * With a non-negative margin and room for the margins, the grid lies inside the
   * canvas and keeps at least the margin clear on every side.
   */
  lemma GridFitsCanvas(c: Canvas, count: int)
    requires count >= 1
    requires c.margin >= 0 && MinSize(c) >= 0
    ensures var g := GridOf(c, count);
      && g.dotSize >= 0
      && Within(GridRect(g), Rect(0, 0, c.width, c.height))
      && c.margin <= g.xBeginning && g.xBeginning + count * g.dotSize <= c.width - c.margin
      && c.margin <= g.yBeginning && g.yBeginning + count * g.dotSize <= c.height - c.margin
  {
    DotSizeNonNegative(c, count);
  }

  /** Room for the margins gives a module size of zero or more. */
  lemma DotSizeNonNegative(c: Canvas, count: int)
    requires count >= 1 && MinSize(c) >= 0
    ensures DotSize(c, count) >= 0
  {
    var d := DotSize(c, count);
    if d < 0 {
      MulNonPositive(count, d + 1);
    }
  }

  lemma MulNonPositive(a: int, b: int)
    requires a >= 0 && b <= 0
    ensures a * b <= 0
  {
  }

  /** The margin is not part of the size check: a wide margin passes it with zero-pixel modules. */
  lemma MarginIgnoredBySizeCheck()
    ensures var c := Canvas(21, 21, 6);
      && CheckedGrid(c, 21).Success?
      && CheckedGrid(c, 21).value.dotSize == 0
  {
  }

  /**
   * Module (i, j)'s top-left pixel as the module-drawing step writes it: legacy
   * mode puts row index i along x; the other mode swaps the indices and also the
   * two origins, so x starts from the vertical origin and y from the horizontal one.
   */
  function PlaceAsWritten(g: Grid, legacy: bool, i: int, j: int): Pos {
    if legacy then Pos(g.xBeginning + i * g.dotSize, g.yBeginning + j * g.dotSize)
    else Pos(g.yBeginning + j * g.dotSize, g.xBeginning + i * g.dotSize)
  }

  /**
   * Module (i, j)'s top-left pixel with the indices swapped in non-legacy mode but
   * each axis keeping its own origin; every module then lies inside the grid.
   */
  function Place(g: Grid, legacy: bool, i: int, j: int): (p: Pos)
    ensures 0 <= i < g.count && 0 <= j < g.count && g.dotSize >= 0 ==>
      Within(Rect(p.x, p.y, g.dotSize, g.dotSize), GridRect(g))
    ensures legacy ==> p == PlaceAsWritten(g, legacy, i, j)
    ensures !legacy ==> p.x == g.xBeginning + j * g.dotSize && p.y == g.yBeginning + i * g.dotSize
  {
    CellWithinSpan(i, g.count, g.dotSize);
    CellWithinSpan(j, g.count, g.dotSize);
    if legacy then Pos(g.xBeginning + i * g.dotSize, g.yBeginning + j * g.dotSize)
    else Pos(g.xBeginning + j * g.dotSize, g.yBeginning + i * g.dotSize)
  }

  /** Cell k of n, each d wide, ends within the n * d span. */
  lemma CellWithinSpan(k: int, n: int, d: int)
    ensures 0 <= k < n && d >= 0 ==> 0 <= k * d && k * d + d <= n * d
  {
    if 0 <= k < n && d >= 0 {
      MulMonotone(k + 1, n, d);
    }
  }

  lemma MulMonotone(a: int, b: int, d: int)
    requires a <= b && d >= 0
    ensures a * d <= b * d
  {
  }

  /** Every module of a laid-out grid lands on the canvas, in either mode. */
  lemma PlacedModuleOnCanvas(c: Canvas, count: int, legacy: bool, i: int, j: int)
    requires count >= 1 && c.margin >= 0 && MinSize(c) >= 0
    requires 0 <= i < count && 0 <= j < count
    ensures var g := GridOf(c, count);
      g.dotSize >= 0 &&
      Within(Rect(Place(g, legacy, i, j).x, Place(g, legacy, i, j).y, g.dotSize, g.dotSize),
             Rect(0, 0, c.width, c.height))
  {
    GridFitsCanvas(c, count);
  }

  /** The written placement is the corrected one in legacy mode, and whenever the two origins coincide. */
  lemma PlaceAsWrittenIsPlace(g: Grid, legacy: bool, i: int, j: int)
    requires legacy || g.xBeginning == g.yBeginning
    ensures PlaceAsWritten(g, legacy, i, j) == Place(g, legacy, i, j)
  {
  }

  /** On a square canvas the two origins coincide and the written placement is the intended one. */
  lemma PlaceAsWrittenOnSquareCanvas(c: Canvas, count: int, legacy: bool, i: int, j: int)
    requires count >= 1 && c.width == c.height && c.margin >= 0 && MinSize(c) >= 0
    requires 0 <= i < count && 0 <= j < count
    ensures var g := GridOf(c, count); g.dotSize >= 0 && PlaceAsWritten(g, legacy, i, j) == Place(g, legacy, i, j)
  {
    DotSizeNonNegative(c, count);
  }

  /**
   * On a canvas wider than tall, the written non-legacy placement puts every module
   * below the bottom edge: a 300 by 100 canvas with 10 modules per side.
   */
  lemma PlaceAsWrittenLeavesCanvas(i: int, j: int)
    requires 0 <= i < 10 && 0 <= j < 10
    ensures var c := Canvas(300, 100, 0);
      var g := GridOf(c, 10);
      && CheckedGrid(c, 10).Success?
      && PlaceAsWritten(g, false, i, j).y >= c.height
      && Place(g, false, i, j).y + g.dotSize <= c.height
  {
    var g := GridOf(Canvas(300, 100, 0), 10);
    assert g == Grid(10, 10, 100, 0);
    CellWithinSpan(j, 10, 10);
    CellWithinSpan(i, 10, 10);
  }
}
