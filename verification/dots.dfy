/** The module-drawing step: which modules get a dot, where, and in what order. */
module Dots {
  import opened Geometry
  import opened Layout

  /** One call of the module figure: the module's indices, its top-left pixel and its pixel size. */
  datatype DotCall = DotCall(i: int, j: int, pos: Pos, size: int)

  /** The call the step makes for module (i, j), at the position the step writes. */
  function DotFor(g: Grid, legacy: bool, i: int, j: int): DotCall {
    DotCall(i, j, PlaceAsWritten(g, legacy, i, j), g.dotSize)
  }

  /** Module (i, j) is drawn: it is on the grid, the filter admits it and it is dark. */
  predicate Drawn(g: Grid, filter: (int, int) -> bool, isDark: (int, int) -> bool, i: int, j: int) {
    0 <= i < g.count && 0 <= j < g.count && filter(i, j) && isDark(i, j)
  }

  /** Row-major order: by i, then by j. */
  predicate Before(a: DotCall, b: DotCall) {
    a.i < b.i || (a.i == b.i && a.j < b.j)
  }

  /**
   * Visits every module row by row, skips those the filter refuses or that are
   * light, and emits one call for each of the rest.
   */
  method DrawDots(g: Grid, legacy: bool, filter: (int, int) -> bool, isDark: (int, int) -> bool)
    returns (dots: seq<DotCall>)
    ensures forall k | 0 <= k < |dots| ::
      Drawn(g, filter, isDark, dots[k].i, dots[k].j) && dots[k] == DotFor(g, legacy, dots[k].i, dots[k].j)
    ensures forall i, j | Drawn(g, filter, isDark, i, j) :: DotFor(g, legacy, i, j) in dots
    ensures forall k1, k2 | 0 <= k1 < k2 < |dots| :: Before(dots[k1], dots[k2])
  {
    dots := [];
    var i := 0;
    while i < g.count
      invariant 0 <= i
      invariant forall k | 0 <= k < |dots| ::
        Drawn(g, filter, isDark, dots[k].i, dots[k].j) && dots[k] == DotFor(g, legacy, dots[k].i, dots[k].j)
      invariant forall a, b | Drawn(g, filter, isDark, a, b) && a < i :: DotFor(g, legacy, a, b) in dots
      invariant forall k | 0 <= k < |dots| :: dots[k].i < i
      invariant forall k1, k2 | 0 <= k1 < k2 < |dots| :: Before(dots[k1], dots[k2])
    {
      var j := 0;
      while j < g.count
        invariant 0 <= j
        invariant forall k | 0 <= k < |dots| ::
          Drawn(g, filter, isDark, dots[k].i, dots[k].j) && dots[k] == DotFor(g, legacy, dots[k].i, dots[k].j)
        invariant forall a, b | Drawn(g, filter, isDark, a, b) && (a < i || (a == i && b < j)) ::
          DotFor(g, legacy, a, b) in dots
        invariant forall k | 0 <= k < |dots| :: dots[k].i < i || (dots[k].i == i && dots[k].j < j)
        invariant forall k1, k2 | 0 <= k1 < k2 < |dots| :: Before(dots[k1], dots[k2])
      {
        if filter(i, j) && isDark(i, j) {
          dots := dots + [DotFor(g, legacy, i, j)];
        }
        j := j + 1;
      }
      i := i + 1;
    }
  }

  /**
   * A drawn module's dot lies on the canvas in legacy mode, and in either mode on a
   * square canvas. On other canvases the written non-legacy placement can leave it.
   */
  lemma DrawnDotOnCanvas(c: Canvas, count: int, legacy: bool, filter: (int, int) -> bool,
                         isDark: (int, int) -> bool, i: int, j: int)
    requires count >= 1 && c.margin >= 0 && MinSize(c) >= 0
    requires legacy || c.width == c.height
    requires Drawn(GridOf(c, count), filter, isDark, i, j)
    ensures var dot := DotFor(GridOf(c, count), legacy, i, j);
      Within(Rect(dot.pos.x, dot.pos.y, dot.size, dot.size), Rect(0, 0, c.width, c.height))
  {
    PlacedModuleOnCanvas(c, count, legacy, i, j);
    PlaceAsWrittenIsPlace(GridOf(c, count), legacy, i, j);
  }
}
