/**
 * The drawing filter of the module grid: the finder-pattern masks at three corners
 * and the centred rectangle kept clear for a logo.
 */
module Masks {

  /** The 7 by 7 outer ring of a finder pattern, as the renderer tabulates it. */
  const SquareMask: seq<seq<int>> := [
    [1, 1, 1, 1, 1, 1, 1],
    [1, 0, 0, 0, 0, 0, 1],
    [1, 0, 0, 0, 0, 0, 1],
    [1, 0, 0, 0, 0, 0, 1],
    [1, 0, 0, 0, 0, 0, 1],
    [1, 0, 0, 0, 0, 0, 1],
    [1, 1, 1, 1, 1, 1, 1]
  ]

  /** The 3 by 3 centre of a finder pattern, inside the same 7 by 7 table. */
  const DotMask: seq<seq<int>> := [
    [0, 0, 0, 0, 0, 0, 0],
    [0, 0, 0, 0, 0, 0, 0],
    [0, 0, 1, 1, 1, 0, 0],
    [0, 0, 1, 1, 1, 0, 0],
    [0, 0, 1, 1, 1, 0, 0],
    [0, 0, 0, 0, 0, 0, 0],
    [0, 0, 0, 0, 0, 0, 0]
  ]

  /**
   * A table lookup that treats a missing row or column as empty, as an optional
   * index chain on a nested array does: true exactly for a present non-zero entry.
   */
  predicate MaskAt(m: seq<seq<int>>, i: int, j: int) {
    0 <= i < |m| && 0 <= j < |m[i]| && m[i][j] != 0
  }

  /** (a, b) is in the 7 by 7 box of a finder pattern. */
  predicate InBox7(a: int, b: int) {
    0 <= a < 7 && 0 <= b < 7
  }

  /** (a, b) is on the border of the 7 by 7 box. */
  predicate OnRing(a: int, b: int) {
    InBox7(a, b) && (a == 0 || a == 6 || b == 0 || b == 6)
  }

  /** (a, b) is in the central 3 by 3 box. */
  predicate InCore(a: int, b: int) {
    2 <= a <= 4 && 2 <= b <= 4
  }

  lemma SquareMaskIsRing(a: int, b: int)
    ensures MaskAt(SquareMask, a, b) <==> OnRing(a, b)
  {
    if InBox7(a, b) {
      assert SquareMask[a][b] == if a == 0 || a == 6 || b == 0 || b == 6 then 1 else 0;
    }
  }

  lemma DotMaskIsCore(a: int, b: int)
    ensures MaskAt(DotMask, a, b) <==> InCore(a, b)
  {
    if InBox7(a, b) {
      assert DotMask[a][b] == if InCore(a, b) then 1 else 0;
    }
  }

  /**
   * The cells a mask table marks, row by row and left to right within a row, as the
   * corner step visits them when it draws a marker from single modules.
   */
  function MaskCells(m: seq<seq<int>>): seq<(int, int)> {
    RowsFrom(m, 0)
  }

  function RowsFrom(m: seq<seq<int>>, i: nat): seq<(int, int)>
    decreases |m| - i
  {
    if i >= |m| then [] else ColumnsFrom(m, i, 0) + RowsFrom(m, i + 1)
  }

  function ColumnsFrom(m: seq<seq<int>>, i: nat, j: nat): seq<(int, int)>
    requires i < |m|
    decreases |m[i]| - j
  {
    if j >= |m[i]| then []
    else (if m[i][j] != 0 then [(i, j)] else []) + ColumnsFrom(m, i, j + 1)
  }

  lemma {:induction false} ColumnsFromMembers(m: seq<seq<int>>, i: nat, j: nat, c: (int, int))
    requires i < |m|
    ensures c in ColumnsFrom(m, i, j) <==> c.0 == i && j <= c.1 && MaskAt(m, c.0, c.1)
    decreases |m[i]| - j
  {
    if j < |m[i]| {
      ColumnsFromMembers(m, i, j + 1, c);
    }
  }

  lemma {:induction false} RowsFromMembers(m: seq<seq<int>>, i: nat, c: (int, int))
    ensures c in RowsFrom(m, i) <==> i <= c.0 && MaskAt(m, c.0, c.1)
    decreases |m| - i
  {
    if i < |m| {
      ColumnsFromMembers(m, i, 0, c);
      RowsFromMembers(m, i + 1, c);
    }
  }

  /** The visited cells are exactly the marked ones. */
  lemma MaskCellsMembers(m: seq<seq<int>>, c: (int, int))
    ensures c in MaskCells(m) <==> MaskAt(m, c.0, c.1)
  {
    RowsFromMembers(m, 0, c);
  }

  /** No cell is listed twice. */
  predicate NoRepeats<T(==)>(s: seq<T>) {
    forall a, b | 0 <= a < b < |s| :: s[a] != s[b]
  }

  lemma NoRepeatsAppend<T>(s: seq<T>, t: seq<T>)
    requires NoRepeats(s) && NoRepeats(t)
    requires forall x | x in s :: x !in t
    ensures NoRepeats(s + t)
  {
    forall a, b | 0 <= a < b < |s + t|
      ensures (s + t)[a] != (s + t)[b]
    {
      if a < |s| && |s| <= b {
        assert (s + t)[a] in s && (s + t)[b] == t[b - |s|];
      }
    }
  }

  lemma {:induction false} ColumnsFromNoRepeats(m: seq<seq<int>>, i: nat, j: nat)
    requires i < |m|
    ensures NoRepeats(ColumnsFrom(m, i, j))
    decreases |m[i]| - j
  {
    if j < |m[i]| {
      ColumnsFromNoRepeats(m, i, j + 1);
      var rest := ColumnsFrom(m, i, j + 1);
      forall c | c in rest
        ensures c != (i, j)
      {
        ColumnsFromMembers(m, i, j + 1, c);
      }
      NoRepeatsAppend(if m[i][j] != 0 then [(i, j)] else [], rest);
    }
  }

  lemma {:induction false} RowsFromNoRepeats(m: seq<seq<int>>, i: nat)
    ensures NoRepeats(RowsFrom(m, i))
    decreases |m| - i
  {
    if i < |m| {
      ColumnsFromNoRepeats(m, i, 0);
      RowsFromNoRepeats(m, i + 1);
      forall c | c in ColumnsFrom(m, i, 0)
        ensures c !in RowsFrom(m, i + 1)
      {
        ColumnsFromMembers(m, i, 0, c);
        RowsFromMembers(m, i + 1, c);
      }
      NoRepeatsAppend(ColumnsFrom(m, i, 0), RowsFrom(m, i + 1));
    }
  }

  /** The enumeration visits each marked cell once. */
  lemma MaskCellsNoRepeats(m: seq<seq<int>>)
    ensures NoRepeats(MaskCells(m))
  {
    RowsFromNoRepeats(m, 0);
  }

  /** The ring has 24 cells and the centre 9. */
  lemma MaskCellCounts()
    ensures |MaskCells(SquareMask)| == 24
    ensures |MaskCells(DotMask)| == 9
  {
    SquareMaskCellCount();
    DotMaskCellCount();
  }

  lemma SquareMaskCellCount()
    ensures |MaskCells(SquareMask)| == 24
  {
    var m := SquareMask;
    assert |ColumnsFrom(m, 0, 0)| == 7 && |ColumnsFrom(m, 6, 0)| == 7;
    assert |ColumnsFrom(m, 1, 0)| == 2 && |ColumnsFrom(m, 2, 0)| == 2 && |ColumnsFrom(m, 3, 0)| == 2;
    assert |ColumnsFrom(m, 4, 0)| == 2 && |ColumnsFrom(m, 5, 0)| == 2;
    assert |RowsFrom(m, 4)| == 11;
    assert |RowsFrom(m, 0)| == 24;
  }

  lemma DotMaskCellCount()
    ensures |MaskCells(DotMask)| == 9
  {
    var m := DotMask;
    assert |ColumnsFrom(m, 0, 0)| == 0 && |ColumnsFrom(m, 1, 0)| == 0 && |ColumnsFrom(m, 2, 0)| == 3;
    assert |ColumnsFrom(m, 3, 0)| == 3 && |ColumnsFrom(m, 4, 0)| == 3;
    assert |ColumnsFrom(m, 5, 0)| == 0 && |ColumnsFrom(m, 6, 0)| == 0;
    assert |RowsFrom(m, 4)| == 3;
    assert |RowsFrom(m, 0)| == 9;
  }

  /**
   * What the drawing filter is built from: modules per side, whether background
   * modules under the logo are hidden, and the logo's footprint in modules.
   */
  datatype FilterSpec = FilterSpec(count: int, hideBackgroundDots: bool, hideXDots: int, hideYDots: int)

  /** Index k lies in the band of `extent` indices centred in [0, count), compared in halves as the source does. */
  predicate InHiddenBand(count: int, extent: int, k: int) {
    count - extent <= 2 * k && 2 * k < count + extent
  }

  /** Module (i, j) is under the logo and hiding is on. */
  predicate Hidden(f: FilterSpec, i: int, j: int) {
    f.hideBackgroundDots && InHiddenBand(f.count, f.hideXDots, i) && InHiddenBand(f.count, f.hideYDots, j)
  }

  /** Some mask marks (i, j) at one of the three finder anchors: top-left, offset count - 7 in i, offset count - 7 in j. */
  predicate FinderMasked(count: int, i: int, j: int) {
    || MaskAt(SquareMask, i, j) || MaskAt(SquareMask, i - count + 7, j) || MaskAt(SquareMask, i, j - count + 7)
    || MaskAt(DotMask, i, j) || MaskAt(DotMask, i - count + 7, j) || MaskAt(DotMask, i, j - count + 7)
  }

  /** The filter the renderer hands to the module-drawing step: false under the logo or under a finder mask. */
  predicate Paintable(f: FilterSpec, i: int, j: int) {
    if Hidden(f, i, j) then false
    else if MaskAt(SquareMask, i, j) || MaskAt(SquareMask, i - f.count + 7, j) || MaskAt(SquareMask, i, j - f.count + 7) then false
    else if MaskAt(DotMask, i, j) || MaskAt(DotMask, i - f.count + 7, j) || MaskAt(DotMask, i, j - f.count + 7) then false
    else true
  }

  /** The finder-pattern cells in geometric terms: the ring or the centre at one of the three anchors. */
  predicate MarkerCell(count: int, i: int, j: int) {
    OnRing(i, j) || OnRing(i - (count - 7), j) || OnRing(i, j - (count - 7)) ||
    InCore(i, j) || InCore(i - (count - 7), j) || InCore(i, j - (count - 7))
  }

  /** (i, j) lies in one of the three 7 by 7 finder footprints. */
  predicate InFootprint(count: int, i: int, j: int) {
    InBox7(i, j) || InBox7(i - (count - 7), j) || InBox7(i, j - (count - 7))
  }

  /** The table masks are the ring and centre of the finder pattern. */
  lemma FinderMaskedIsMarker(count: int, i: int, j: int)
    ensures FinderMasked(count, i, j) <==> MarkerCell(count, i, j)
  {
    SquareMaskIsRing(i, j);
    SquareMaskIsRing(i - count + 7, j);
    SquareMaskIsRing(i, j - count + 7);
    DotMaskIsCore(i, j);
    DotMaskIsCore(i - count + 7, j);
    DotMaskIsCore(i, j - count + 7);
  }

  /** The filter admits a module exactly when it is neither hidden nor a finder-pattern cell. */
  lemma PaintableIff(f: FilterSpec, i: int, j: int)
    ensures Paintable(f, i, j) <==> !Hidden(f, i, j) && !MarkerCell(f.count, i, j)
  {
    FinderMaskedIsMarker(f.count, i, j);
  }

  /** Outside the three footprints and the hidden rectangle every module is admitted. */
  lemma PaintableOutsideFootprints(f: FilterSpec, i: int, j: int)
    requires !InFootprint(f.count, i, j) && !Hidden(f, i, j)
    ensures Paintable(f, i, j)
  {
    PaintableIff(f, i, j);
  }

  /**
   * The light ring between a finder pattern's border and centre is not masked: at
   * any of the three anchors those cells pass the filter unless the logo hides them.
   */
  lemma LightRingAdmitted(f: FilterSpec, a: int, b: int, i: int, j: int)
    requires f.count >= 14
    requires InBox7(a, b) && !OnRing(a, b) && !InCore(a, b)
    requires (i, j) == (a, b) || (i, j) == (a + f.count - 7, b) || (i, j) == (a, b + f.count - 7)
    requires !Hidden(f, i, j)
    ensures Paintable(f, i, j)
  {
    PaintableIff(f, i, j);
  }

  /** The finder part of the filter does not change when rows and columns are swapped. */
  lemma FinderMaskTranspose(count: int, i: int, j: int)
    ensures FinderMasked(count, i, j) <==> FinderMasked(count, j, i)
  {
    FinderMaskedIsMarker(count, i, j);
    FinderMaskedIsMarker(count, j, i);
  }

  /** The logo rectangle transposes into the rectangle with its two extents exchanged. */
  lemma HiddenTranspose(f: FilterSpec, i: int, j: int)
    ensures Hidden(f, i, j) <==> Hidden(f.(hideXDots := f.hideYDots, hideYDots := f.hideXDots), j, i)
  {
  }

  /** A square logo footprint, or no hiding at all, makes the whole filter symmetric. */
  lemma PaintableTranspose(f: FilterSpec, i: int, j: int)
    requires f.hideXDots == f.hideYDots || !f.hideBackgroundDots
    ensures Paintable(f, i, j) <==> Paintable(f, j, i)
  {
    PaintableIff(f, i, j);
    PaintableIff(f, j, i);
    FinderMaskedIsMarker(f.count, i, j);
    FinderMaskedIsMarker(f.count, j, i);
  }

  /** With a zero footprint on either axis nothing is hidden. */
  lemma NothingHiddenWithoutFootprint(f: FilterSpec, i: int, j: int)
    requires f.hideXDots == 0 || f.hideYDots == 0
    ensures !Hidden(f, i, j)
  {
  }

  /** The band of `extent` indices lies within the grid. */
  lemma HiddenBandInGrid(count: int, extent: int, k: int)
    requires 0 <= extent <= count
    requires InHiddenBand(count, extent, k)
    ensures 0 <= k < count
  {
  }

  /** Exactly `extent` indices of the grid fall in the hidden band. */
  lemma HiddenBandSize(count: int, extent: int)
    requires 0 <= extent <= count
    ensures |set k | 0 <= k < count && InHiddenBand(count, extent, k)| == extent
  {
    var lo := (count - extent + 1) / 2;
    var band := set k | 0 <= k < count && InHiddenBand(count, extent, k);
    assert band == Interval(lo, lo + extent);
    IntervalSize(lo, extent);
  }

  /** The integers from lo up to hi, exclusive. */
  function Interval(lo: int, hi: int): set<int> {
    set k | lo <= k < hi && Between(lo, hi, k)
  }

  /**
   * The same bounds as a named predicate: the comparisons above let Dafny see the
   * set is finite, and this call gives its quantifiers a term to trigger on.
   */
  predicate Between(lo: int, hi: int, k: int) {
    lo <= k < hi
  }

  lemma {:induction false} IntervalSize(lo: int, n: nat)
    ensures |Interval(lo, lo + n)| == n
  {
    if n > 0 {
      IntervalSize(lo, n - 1);
      var smaller, top := Interval(lo, lo + n - 1), lo + n - 1;
      forall k
        ensures k in Interval(lo, lo + n) <==> k in smaller || k == top
      {
        assert Between(lo, lo + n, k) <==> Between(lo, lo + n - 1, k) || k == top;
      }
      assert top !in smaller;
      assert Interval(lo, lo + n) == smaller + {top};
      assert |smaller + {top}| == |smaller| + 1;
    }
  }
}
