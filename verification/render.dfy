/**
 * One render of a symbol: size the logo, build the filter, draw the modules, the
 * three corners and the logo, and collect the style rules the coloured parts need.
 */
module Render {
  import opened Wrappers
  import opened Geometry
  import opened Layout
  import opened Masks
  import opened Dots
  import opened Corners
  import opened Image
  import opened Styles
  import CornerSquare
  import Gradient

  /** The colour settings of one part; only whether a gradient is configured matters for the style sheet. */
  datatype PartColor = PartColor(hasGradient: bool, color: Option<string>)

  /** The rendering options the core reads. */
  datatype Options = Options(
    canvas: Canvas,
    useLegacyDotRotation: bool,
    hasImage: bool,
    imageSize: real,
    hideBackgroundDots: bool,
    imageMargin: int,
    background: PartColor,
    dots: PartColor,
    cornersSquare: PartColor,
    cornersSquareType: Option<CornerSquare.CornerSquareType>,
    cornersDot: PartColor,
    cornersDotType: Option<string>)

  /** A loaded logo's natural size; absent when the logo never loads. */
  datatype Picture = Picture(width: int, height: int)

  /** The drawn symbol: layout, module dots, corners, the logo's place and the style sheet's rules. */
  datatype Drawing = Drawing(
    grid: Grid,
    filter: FilterSpec,
    dots: seq<DotCall>,
    corners: seq<Corner>,
    image: Option<Placement>,
    styles: seq<StyleRequest>)

  /** A render either never gets past loading a configured logo, with nothing drawn, or draws. */
  datatype Outcome = Abandoned | Rendered(drawing: Drawing)

  /** The class name of a corner part at anchor `a`: the part, then the anchor's column and row. */
  function CornerName(part: string, a: Anchor): string
    requires a.column >= 0 && a.row >= 0
  {
    part + "-" + Digits(a.column) + "-" + Digits(a.row)
  }

  /** A class name of a corner part. */
  predicate CornerClass(name: string) {
    |name| >= 8 && name[..8] == "corners-"
  }

  /** The rule of the corner square at anchor k: its class name and the part's colour. */
  function SquareRequest(o: Options, k: int): StyleRequest
    requires 0 <= k < 3
  {
    StyleRequest(CornerName("corners-square-color", Anchors[k]), o.cornersSquare.color)
  }

  /** The rule of the corner dot at anchor k. */
  function DotRequest(o: Options, k: int): StyleRequest
    requires 0 <= k < 3
  {
    StyleRequest(CornerName("corners-dot-color", Anchors[k]), o.cornersDot.color)
  }

  /** A rule the corners may add for anchors `from` onwards: a part's own rule, when that part has no gradient. */
  predicate CornerRuleFrom(o: Options, from: int, req: StyleRequest) {
    exists k | from <= k < 3 && 0 <= k ::
      (!o.cornersSquare.hasGradient && req == SquareRequest(o, k))
      || (!o.cornersDot.hasGradient && req == DotRequest(o, k))
  }

  /** Both corner rules of an anchor carry a corner class name. */
  lemma CornerRequestClasses(o: Options, k: int)
    requires 0 <= k < 3
    ensures CornerClass(SquareRequest(o, k).name) && CornerClass(DotRequest(o, k).name)
  {
    var a := Anchors[k];
    assert CornerName("corners-square-color", a)[..8] == "corners-square-color"[..8];
    assert CornerName("corners-dot-color", a)[..8] == "corners-dot-color"[..8];
  }

  /** A rule allowed from a later anchor is allowed from an earlier one. */
  lemma CornerRuleWiden(o: Options, from: int, req: StyleRequest)
    requires CornerRuleFrom(o, from + 1, req)
    ensures CornerRuleFrom(o, from, req)
  {
    var k :| from + 1 <= k < 3 && 0 <= k &&
      ((!o.cornersSquare.hasGradient && req == SquareRequest(o, k))
       || (!o.cornersDot.hasGradient && req == DotRequest(o, k)));
  }

  /**
   * The style rules of the corner parts: a rule for every part without a gradient,
   * with or without a colour. `CornerStylesExact` says which rules they are.
   */
  function CornerStyles(o: Options): (r: seq<StyleRequest>)
    ensures |r| == (if o.cornersSquare.hasGradient then 0 else 3) + (if o.cornersDot.hasGradient then 0 else 3)
    ensures forall k | 0 <= k < |r| :: r[k].color == o.cornersSquare.color || r[k].color == o.cornersDot.color
    ensures forall k | 0 <= k < |r| :: CornerClass(r[k].name)
  {
    CornerStylesFrom(o, 0)
  }

  function CornerStylesFrom(o: Options, from: nat): (r: seq<StyleRequest>)
    requires from <= 3
    ensures |r| == ((if o.cornersSquare.hasGradient then 0 else 1) + (if o.cornersDot.hasGradient then 0 else 1)) * (3 - from)
    ensures forall n | 0 <= n < |r| :: r[n].color == o.cornersSquare.color || r[n].color == o.cornersDot.color
    ensures forall n | 0 <= n < |r| :: CornerClass(r[n].name)
    decreases 3 - from
  {
    if from == 3 then []
    else
      CornerRequestClasses(o, from);
      (if o.cornersSquare.hasGradient then [] else [SquareRequest(o, from)])
      + (if o.cornersDot.hasGradient then [] else [DotRequest(o, from)])
      + CornerStylesFrom(o, from + 1)
  }

  /**
   * The corner rules are exactly the per-anchor, per-part rules: for each anchor, the
   * square's rule when the square has no gradient and the dot's rule when the dot has
   * none, and no other rule.
   */
  lemma CornerStylesExact(o: Options)
    ensures var r := CornerStyles(o);
      && (forall k | 0 <= k < 3 :: !o.cornersSquare.hasGradient ==> SquareRequest(o, k) in r)
      && (forall k | 0 <= k < 3 :: !o.cornersDot.hasGradient ==> DotRequest(o, k) in r)
      && (forall n | 0 <= n < |r| :: CornerRuleFrom(o, 0, r[n]))
  {
    CornerStylesFromExact(o, 0);
  }

  lemma {:induction false} CornerStylesFromExact(o: Options, from: nat)
    requires from <= 3
    ensures var r := CornerStylesFrom(o, from);
      && (forall k | from <= k < 3 :: !o.cornersSquare.hasGradient ==> SquareRequest(o, k) in r)
      && (forall k | from <= k < 3 :: !o.cornersDot.hasGradient ==> DotRequest(o, k) in r)
      && (forall n | 0 <= n < |r| :: CornerRuleFrom(o, from, r[n]))
    decreases 3 - from
  {
    if from < 3 {
      CornerStylesFromExact(o, from + 1);
      var head := (if o.cornersSquare.hasGradient then [] else [SquareRequest(o, from)])
                  + (if o.cornersDot.hasGradient then [] else [DotRequest(o, from)]);
      var tail := CornerStylesFrom(o, from + 1);
      assert CornerStylesFrom(o, from) == head + tail;
      assert forall n | 0 <= n < |head| :: CornerRuleFrom(o, from, head[n]);
      forall n | 0 <= n < |tail|
        ensures CornerRuleFrom(o, from, tail[n])
      {
        CornerRuleWiden(o, from, tail[n]);
      }
    }
  }

  /**
   * The style rules in the order they are added: the background's and the modules'
   * only for a set colour without a gradient, then the corners'.
   */
  function PartStyles(o: Options): (r: seq<StyleRequest>)
    ensures StyleRequest("background-color", o.background.color) in r <==> !o.background.hasGradient && Gradient.ColorSet(o.background.color)
    ensures StyleRequest("dot-color", o.dots.color) in r <==> !o.dots.hasGradient && Gradient.ColorSet(o.dots.color)
    ensures |CornerStyles(o)| <= |r| && r[|r| - |CornerStyles(o)|..] == CornerStyles(o)
    ensures var bg := if !o.background.hasGradient && Gradient.ColorSet(o.background.color) then 1 else 0;
      var dt := if !o.dots.hasGradient && Gradient.ColorSet(o.dots.color) then 1 else 0;
      && |r| == bg + dt + |CornerStyles(o)|
      && (bg == 1 ==> r[0] == StyleRequest("background-color", o.background.color))
      && (dt == 1 ==> r[bg] == StyleRequest("dot-color", o.dots.color))
  {
    var corners := CornerStyles(o);
    var background := if !o.background.hasGradient && Gradient.ColorSet(o.background.color)
                      then [StyleRequest("background-color", o.background.color)] else [];
    var dots := if !o.dots.hasGradient && Gradient.ColorSet(o.dots.color)
                then [StyleRequest("dot-color", o.dots.color)] else [];
    assert !CornerClass("background-color") && !CornerClass("dot-color") by {
      assert "background-color"[..8] != "corners-" by { assert "background-color"[0] == 'b'; }
      assert "dot-color"[..8] != "corners-" by { assert "dot-color"[0] == 'd'; }
    }
    assert (background + dots + corners)[|background + dots|..] == corners;
    background + dots + corners
  }

  /**
   * Renders a symbol of `count` modules per side, dark where `isDark` says. A logo
   * that is configured but never loads holds the render at the loading step, so
   * nothing is drawn; otherwise a symbol too large for the canvas fails with the
   * canvas-too-small message, and a symbol that fits is drawn. `sizeImage` is the
   * logo sizing step and `ecPercent` the share of the symbol its error-correction
   * level can lose.
   */
  method DrawQR(o: Options, count: int, isDark: (int, int) -> bool, picture: Option<Picture>,
                ecPercent: real, sizeImage: SizeRequest -> ImageSize)
    returns (r: Result<Outcome, string>)
    requires count >= 1
    ensures o.hasImage && picture.None? ==> r == Success(Abandoned)
    ensures r.Success? && r.value.Abandoned? ==> o.hasImage && picture.None?
    ensures !(o.hasImage && picture.None?) ==>
      (r.Failure? <==> count > o.canvas.width || count > o.canvas.height)
    ensures r.Failure? ==> r.error == CanvasTooSmall
    ensures r.Success? && r.value.Rendered? ==>
      var dr := r.value.drawing;
      && dr.grid == GridOf(o.canvas, count)
      && dr.filter.count == count && dr.filter.hideBackgroundDots == o.hideBackgroundDots
      && (!o.hasImage ==> dr.filter.hideXDots == 0 && dr.filter.hideYDots == 0 && dr.image.None?)
      && (o.hasImage <==> dr.image.Some?)
      && (forall k | 0 <= k < |dr.dots| ::
            Drawn(dr.grid, (a, b) => Paintable(dr.filter, a, b), isDark, dr.dots[k].i, dr.dots[k].j)
            && dr.dots[k] == DotFor(dr.grid, o.useLegacyDotRotation, dr.dots[k].i, dr.dots[k].j))
      && (forall i, j | Drawn(dr.grid, (a, b) => Paintable(dr.filter, a, b), isDark, i, j) ::
            DotFor(dr.grid, o.useLegacyDotRotation, i, j) in dr.dots)
      && |dr.corners| == 3
      && (forall k | 0 <= k < 3 :: dr.corners[k] == DrawCorner(dr.grid, o.cornersSquareType, o.cornersDotType, Anchors[k]))
      && dr.styles == PartStyles(o)
    ensures r.Success? && r.value.Rendered? ==>
      var ds := r.value.drawing.dots;
      forall k1, k2 | 0 <= k1 < k2 < |ds| :: Before(ds[k1], ds[k2])
    ensures r.Success? && r.value.Rendered? && o.hasImage ==>
      && picture.Some?
      && var dr := r.value.drawing;
      var s := sizeImage(Request(o.imageSize, ecPercent, count, DotSize(o.canvas, count),
                                 picture.value.width, picture.value.height));
      && dr.filter.hideXDots == s.hideXDots && dr.filter.hideYDots == s.hideYDots
      && dr.image == Some(PlaceImage(dr.grid, s, o.imageMargin))
  {
    var size := NoImage;
    var dotSize := DotSize(o.canvas, count);
    if o.hasImage {
      if picture.None? {
        return Success(Abandoned);
      }
      size := sizeImage(Request(o.imageSize, ecPercent, count, dotSize, picture.value.width, picture.value.height));
    }
    var checked := CheckedGrid(o.canvas, count);
    if checked.Failure? {
      return Failure(checked.error);
    }
    var g := checked.value;
    var spec := FilterSpec(count, o.hideBackgroundDots, size.hideXDots, size.hideYDots);
    var dots := DrawDots(g, o.useLegacyDotRotation, (a, b) => Paintable(spec, a, b), isDark);
    var corners := DrawCorners(g, o.cornersSquareType, o.cornersDotType);
    var image := if o.hasImage then Some(PlaceImage(g, size, o.imageMargin)) else None;
    return Success(Rendered(Drawing(g, spec, dots, corners, image, PartStyles(o))));
  }

  /**
   * No module dot is drawn on a finder pattern or under the cleared logo area, and
   * each drawn dot is dark. It lies on the canvas in legacy mode or on a square canvas.
   */
  lemma DrawnDotsAvoidMarkers(o: Options, count: int, isDark: (int, int) -> bool, dr: Drawing, k: int)
    requires count >= 1 && dr.grid == GridOf(o.canvas, count) && dr.filter.count == count
    requires 0 <= k < |dr.dots|
    requires Drawn(dr.grid, (a, b) => Paintable(dr.filter, a, b), isDark, dr.dots[k].i, dr.dots[k].j)
    requires dr.dots[k] == DotFor(dr.grid, o.useLegacyDotRotation, dr.dots[k].i, dr.dots[k].j)
    ensures var d := dr.dots[k];
      && !MarkerCell(count, d.i, d.j) && !Hidden(dr.filter, d.i, d.j) && isDark(d.i, d.j)
      && (o.canvas.margin >= 0 && MinSize(o.canvas) >= 0 && (o.useLegacyDotRotation || o.canvas.width == o.canvas.height) ==>
            Within(Rect(d.pos.x, d.pos.y, d.size, d.size), Rect(0, 0, o.canvas.width, o.canvas.height)))
  {
    var d := dr.dots[k];
    PaintableIff(dr.filter, d.i, d.j);
    if o.canvas.margin >= 0 && MinSize(o.canvas) >= 0 && (o.useLegacyDotRotation || o.canvas.width == o.canvas.height) {
      DrawnDotOnCanvas(o.canvas, count, o.useLegacyDotRotation, (a, b) => Paintable(dr.filter, a, b), isDark, d.i, d.j);
    }
  }

  /**
   * In a drawn render with a logo, the logo's centre is the module grid's centre,
   * and the filter hides the band the sizing step asked for.
   */
  lemma RenderedLogoCentred(o: Options, count: int, isDark: (int, int) -> bool, picture: Option<Picture>,
                            ecPercent: real, sizeImage: SizeRequest -> ImageSize, dr: Drawing)
    requires count >= 1 && o.hasImage && picture.Some?
    requires dr.grid == GridOf(o.canvas, count)
    requires dr.image == Some(PlaceImage(dr.grid, sizeImage(Request(o.imageSize, ecPercent, count,
                                DotSize(o.canvas, count), picture.value.width, picture.value.height)), o.imageMargin))
    ensures var p := dr.image.value; var side := (count * dr.grid.dotSize) as real;
      && p.x + p.width / 2.0 == dr.grid.xBeginning as real + side / 2.0
      && p.y + p.height / 2.0 == dr.grid.yBeginning as real + side / 2.0
  {
    var s := sizeImage(Request(o.imageSize, ecPercent, count, DotSize(o.canvas, count),
                               picture.value.width, picture.value.height));
    ImageCentred(dr.grid, s, o.imageMargin);
  }

  /** Every corner part without a gradient gets its own rule in the sheet, even when it has no colour. */
  lemma CornerStylesPresent(o: Options, k: int)
    requires 0 <= k < 3
    ensures !o.cornersSquare.hasGradient ==> SquareRequest(o, k) in PartStyles(o)
    ensures !o.cornersDot.hasGradient ==> DotRequest(o, k) in PartStyles(o)
  {
    var c := CornerStyles(o);
    CornerStylesExact(o);
    var front := PartStyles(o)[..|PartStyles(o)| - |c|];
    assert PartStyles(o) == front + c;
  }

  /**
   * The corner rules are the six per-anchor, per-part rules and nothing else: as
   * their names differ, a rule carrying a corner square's name is that square's rule.
   */
  lemma CornerRulesDistinct(o: Options, k1: int, k2: int)
    requires 0 <= k1 < 3 && 0 <= k2 < 3
    ensures k1 != k2 ==> SquareRequest(o, k1) != SquareRequest(o, k2) && DotRequest(o, k1) != DotRequest(o, k2)
    ensures SquareRequest(o, k1) != DotRequest(o, k2)
  {
    if k1 != k2 {
      CornerNamesDistinct("corners-square-color", k1, k2);
      CornerNamesDistinct("corners-dot-color", k1, k2);
    }
    assert SquareRequest(o, k1).name[8] == 's' && DotRequest(o, k2).name[8] == 'd';
  }

  /** The three anchors give three different corner class names. */
  lemma CornerNamesDistinct(part: string, k1: int, k2: int)
    requires 0 <= k1 < 3 && 0 <= k2 < 3 && k1 != k2
    ensures CornerName(part, Anchors[k1]) != CornerName(part, Anchors[k2])
  {
    var n1, n2 := CornerName(part, Anchors[k1]), CornerName(part, Anchors[k2]);
    var p := |part| + 1;
    assert n1[p] == Digits(Anchors[k1].column)[0];
    assert n2[p] == Digits(Anchors[k2].column)[0];
    assert n1[p + 2] == Digits(Anchors[k1].row)[0];
    assert n2[p + 2] == Digits(Anchors[k2].row)[0];
  }
}
