/**
 * The neighbour test handed to each drawn module, which lets adjacent dark modules
 * merge into one shape. Offsets are in drawing axes: x across, y down.
 */
module Neighbours {
  import opened Masks

  /** (i, j) is a module of a count by count symbol. */
  predicate InGrid(count: int, i: int, j: int) {
    0 <= i < count && 0 <= j < count
  }

  /**
   * The module whose darkness the test reads: in legacy mode i follows x and j
   * follows y; otherwise j follows x and i follows y.
   */
  function NeighbourCell(legacy: bool, i: int, j: int, xOff: int, yOff: int): (int, int) {
    if legacy then (i + xOff, j + yOff) else (i + yOff, j + xOff)
  }

  /**
   * The test as the module-drawing step writes it. In non-legacy mode it reads
   * the darkness of (i + yOff, j + xOff) but asks the filter about the swapped
   * pair (j + xOff, i + yOff).
   */
  predicate NeighbourAsWritten(legacy: bool, count: int, filter: (int, int) -> bool, isDark: (int, int) -> bool,
                               i: int, j: int, xOff: int, yOff: int)
  {
    if legacy then
      if i + xOff < 0 || j + yOff < 0 || i + xOff >= count || j + yOff >= count then false
      else if !filter(i + xOff, j + yOff) then false
      else isDark(i + xOff, j + yOff)
    else
      if j + xOff < 0 || i + yOff < 0 || j + xOff >= count || i + yOff >= count then false
      else if !filter(j + xOff, i + yOff) then false
      else isDark(i + yOff, j + xOff)
  }

  /**
   * The test with the filter asked about the same module whose darkness is read:
   * a neighbour counts exactly when it is on the grid, passes the filter and is dark.
   */
  function Neighbour(legacy: bool, count: int, filter: (int, int) -> bool, isDark: (int, int) -> bool,
                     i: int, j: int, xOff: int, yOff: int): (r: bool)
    ensures var c := NeighbourCell(legacy, i, j, xOff, yOff);
      r <==> InGrid(count, c.0, c.1) && filter(c.0, c.1) && isDark(c.0, c.1)
  {
    var (a, b) := if legacy then (i + xOff, j + yOff) else (i + yOff, j + xOff);
    if a < 0 || b < 0 || a >= count || b >= count then false
    else if !filter(a, b) then false
    else isDark(a, b)
  }

  /** What the written test does promise: a neighbour it reports is on the grid and dark. */
  lemma NeighbourAsWrittenSound(legacy: bool, count: int, filter: (int, int) -> bool, isDark: (int, int) -> bool,
                                i: int, j: int, xOff: int, yOff: int)
    requires NeighbourAsWritten(legacy, count, filter, isDark, i, j, xOff, yOff)
    ensures var c := NeighbourCell(legacy, i, j, xOff, yOff);
      InGrid(count, c.0, c.1) && isDark(c.0, c.1)
  {
  }

  /** A filter unchanged by swapping its arguments makes the written test agree with the intended one. */
  lemma NeighbourAsWrittenWithSymmetricFilter(legacy: bool, count: int, filter: (int, int) -> bool,
                                              isDark: (int, int) -> bool, i: int, j: int, xOff: int, yOff: int)
    requires forall a, b :: filter(a, b) == filter(b, a)
    ensures NeighbourAsWritten(legacy, count, filter, isDark, i, j, xOff, yOff) ==
            Neighbour(legacy, count, filter, isDark, i, j, xOff, yOff)
  {
    if !legacy {
      assert filter(j + xOff, i + yOff) == filter(i + yOff, j + xOff);
    }
  }

  /**
   * With the renderer's own filter, the written test is the intended one whenever
   * the logo footprint is square or hiding is off: the finder masks are symmetric.
   */
  lemma NeighbourAsWrittenWithRendererFilter(legacy: bool, f: FilterSpec, isDark: (int, int) -> bool,
                                             i: int, j: int, xOff: int, yOff: int)
    requires f.hideXDots == f.hideYDots || !f.hideBackgroundDots
    ensures var filter := (a, b) => Paintable(f, a, b);
      NeighbourAsWritten(legacy, f.count, filter, isDark, i, j, xOff, yOff) ==
      Neighbour(legacy, f.count, filter, isDark, i, j, xOff, yOff)
  {
    PaintableTranspose(f, j + xOff, i + yOff);
  }

  /**
   * With a logo footprint one module wide and five tall on a 21-module symbol, the
   * written test reports module (10, 8) beside module (10, 7) although (10, 8) is
   * hidden under the logo and never drawn.
   */
  lemma NeighbourAsWrittenSeesHiddenModule()
    ensures var f := FilterSpec(21, true, 1, 5);
      var filter := (a, b) => Paintable(f, a, b);
      var dark := (a: int, b: int) => true;
      && Paintable(f, 10, 7)
      && !Paintable(f, 10, 8)
      && NeighbourAsWritten(false, 21, filter, dark, 10, 7, 1, 0)
      && !Neighbour(false, 21, filter, dark, 10, 7, 1, 0)
  {
  }

  /**
   * Non-legacy mode is legacy mode applied to the transposed symbol: the same
   * module seen from (j, i), with filter and darkness read with swapped arguments.
   */
  lemma NonLegacyIsTransposedLegacy(count: int, filter: (int, int) -> bool, isDark: (int, int) -> bool,
                                    i: int, j: int, xOff: int, yOff: int)
    ensures Neighbour(false, count, filter, isDark, i, j, xOff, yOff) ==
            Neighbour(true, count, (a, b) => filter(b, a), (a, b) => isDark(b, a), j, i, xOff, yOff)
  {
  }
}
