/**
 * The corner-square marker: one path per style, a rotation about the marker's own
 * centre, and the even-odd clip rule that punches the inner hole.
 */
module CornerSquare {
  import opened Wrappers
  import opened Geometry
  import opened Paths

  /**
   * The marker styles; any name the renderer does not know falls back to the dot.
   * `Unknown` holds the names other than the three styles, as `StyleNamed` builds it.
   */
  datatype CornerSquareType = Dot | Square | ExtraRounded | Unknown(name: string)

  /**
   * The style a configured name selects: "dot", "square" and "extra-rounded" are the
   * three styles (the constants file that spells them is not part of this model);
   * every other name, the empty one included, is kept as unknown.
   */
  function StyleNamed(name: string): (t: CornerSquareType)
    ensures t.Unknown? <==> name != "dot" && name != "square" && name != "extra-rounded"
    ensures t.Unknown? ==> t.name == name
    ensures name == "square" <==> t == Square
    ensures name == "extra-rounded" <==> t == ExtraRounded
  {
    if name == "dot" then Dot
    else if name == "square" then Square
    else if name == "extra-rounded" then ExtraRounded
    else Unknown(name)
  }

  /** A rotation by `degrees` about (cx, cy). */
  datatype Transform = Rotate(degrees: real, cx: real, cy: real)

  /** The path element a marker builds. */
  datatype PathElement = PathElement(clipRule: string, d: seq<Cmd>, transform: Transform)

  /** A marker drawer: its style and the element it last built, if any. */
  datatype CornerSquareFigure = CornerSquareFigure(kind: CornerSquareType, element: Option<PathElement>)

  const EvenOdd: string := "evenodd"

  /** One seventh of the marker: the side of one module of the finder pattern. */
  function Unit(size: real): real {
    size / 7.0
  }

  /** Two concentric circles: radius size / 2, and one module less. */
  function DotPath(x: real, y: real, size: real): seq<Cmd> {
    var d := Unit(size);
    [ MoveTo(x + size / 2.0, y),
      ArcBy(size / 2.0, size / 2.0, 0.0, true, false, 0.1, 0.0),
      Close,
      MoveBy(0.0, d),
      ArcBy(size / 2.0 - d, size / 2.0 - d, 0.0, true, true, -0.1, 0.0),
      Close ]
  }

  /** A square of side `size` with a square hole one module in from each side. */
  function SquarePath(x: real, y: real, size: real): seq<Cmd> {
    var d := Unit(size);
    [ MoveTo(x, y), VerticalBy(size), HorizontalBy(size), VerticalBy(-size), Close,
      MoveTo(x + d, y + d), HorizontalBy(size - 2.0 * d), VerticalBy(size - 2.0 * d),
      HorizontalBy(-size + 2.0 * d), Close ]
  }

  /** The outer outline of the extra-rounded style: straight sides joined by quarter circles of 2.5 modules. */
  function ExtraRoundedOuter(x: real, y: real, size: real): seq<Cmd> {
    var d := Unit(size);
    [ MoveTo(x, y + 2.5 * d),
      VerticalBy(2.0 * d),
      ArcBy(2.5 * d, 2.5 * d, 0.0, false, false, d * 2.5, d * 2.5),
      HorizontalBy(2.0 * d),
      ArcBy(2.5 * d, 2.5 * d, 0.0, false, false, d * 2.5, -d * 2.5),
      VerticalBy(-2.0 * d),
      ArcBy(2.5 * d, 2.5 * d, 0.0, false, false, -d * 2.5, -d * 2.5),
      HorizontalBy(-2.0 * d),
      ArcBy(2.5 * d, 2.5 * d, 0.0, false, false, -d * 2.5, d * 2.5) ]
  }

  /** The inner outline of the extra-rounded style: quarter circles of 1.5 modules, drawn the other way round. */
  function ExtraRoundedInner(x: real, y: real, size: real): seq<Cmd> {
    var d := Unit(size);
    [ MoveTo(x + 2.5 * d, y + d),
      HorizontalBy(2.0 * d),
      ArcBy(1.5 * d, 1.5 * d, 0.0, false, true, d * 1.5, d * 1.5),
      VerticalBy(2.0 * d),
      ArcBy(1.5 * d, 1.5 * d, 0.0, false, true, -d * 1.5, d * 1.5),
      HorizontalBy(-2.0 * d),
      ArcBy(1.5 * d, 1.5 * d, 0.0, false, true, -d * 1.5, -d * 1.5),
      VerticalBy(-2.0 * d),
      ArcBy(1.5 * d, 1.5 * d, 0.0, false, true, d * 1.5, -d * 1.5) ]
  }

  function ExtraRoundedPath(x: real, y: real, size: real): seq<Cmd> {
    ExtraRoundedOuter(x, y, size) + ExtraRoundedInner(x, y, size)
  }

  /** The path a style draws: square and extra-rounded by name, the dot for everything else. */
  function PathFor(kind: CornerSquareType, x: real, y: real, size: real): seq<Cmd> {
    match kind
    case Square => SquarePath(x, y, size)
    case ExtraRounded => ExtraRoundedPath(x, y, size)
    case _ => DotPath(x, y, size)
  }

  /** Builds the path element and rotates it by `rotation` radians, given in degrees, about the marker's centre. */
  function RotateFigure(x: real, y: real, size: real, rotation: real, path: seq<Cmd>): PathElement {
    PathElement(EvenOdd, path, Rotate(180.0 * rotation / Pi, x + size / 2.0, y + size / 2.0))
  }

  /**
   * Draws the marker of the figure's style in the box of side `size` at (x, y),
   * replacing the element the figure held before.
   */
  function Draw(f: CornerSquareFigure, x: real, y: real, size: real, rotation: real): (r: CornerSquareFigure)
    ensures r.kind == f.kind && r.element.Some?
    ensures r.element.value.clipRule == EvenOdd
    ensures r.element.value.transform.cx == x + size / 2.0 && r.element.value.transform.cy == y + size / 2.0
    ensures r.element.value.transform.degrees * Pi == 180.0 * rotation
  {
    CornerSquareFigure(f.kind, Some(RotateFigure(x, y, size, rotation, PathFor(f.kind, x, y, size))))
  }

  /** Style dispatch: the named styles get their own path; dot and every unknown name get the dot path. */
  lemma DrawDispatch(f: CornerSquareFigure, x: real, y: real, size: real, rotation: real)
    ensures var e := Draw(f, x, y, size, rotation).element.value;
      && (f.kind == Square ==> e.d == SquarePath(x, y, size))
      && (f.kind == ExtraRounded ==> e.d == ExtraRoundedOuter(x, y, size) + ExtraRoundedInner(x, y, size))
      && (f.kind.Dot? || f.kind.Unknown? ==> e.d == DotPath(x, y, size))
  {
  }

  /** Rotation only changes the transform: the path coordinates are the same for every angle. */
  lemma RotationLeavesPathAlone(f: CornerSquareFigure, x: real, y: real, size: real, r1: real, r2: real)
    ensures Draw(f, x, y, size, r1).element.value.d == Draw(f, x, y, size, r2).element.value.d
    ensures Draw(f, x, y, size, r1).element.value.clipRule == Draw(f, x, y, size, r2).element.value.clipRule
  {
  }

  /** The pen's stops along five commands, one step each. */
  lemma PointsFive(p: Pen, cs: seq<Cmd>)
    requires |cs| == 5
    ensures var q1 := Step(p, cs[0]); var q2 := Step(q1, cs[1]); var q3 := Step(q2, cs[2]);
      var q4 := Step(q3, cs[3]); var q5 := Step(q4, cs[4]);
      Points(p, cs) == [q1.at, q2.at, q3.at, q4.at, q5.at]
  {
    var q1 := Step(p, cs[0]);
    var q2 := Step(q1, cs[1]);
    var q3 := Step(q2, cs[2]);
    var q4 := Step(q3, cs[3]);
    PointsCons(q4, cs[4..]);
    assert cs[4..][1..] == [];
    PointsCons(q3, cs[3..]);
    assert cs[3..][1..] == cs[4..];
    PointsCons(q2, cs[2..]);
    assert cs[2..][1..] == cs[3..];
    PointsCons(q1, cs[1..]);
    assert cs[1..][1..] == cs[2..];
    PointsCons(p, cs);
  }

  /** The pen's stops along the square style: the outer square, then the hole. */
  lemma SquarePoints(p: Pen, x: real, y: real, size: real)
    ensures var d := Unit(size);
      Points(p, SquarePath(x, y, size)) ==
        [ Point(x, y), Point(x, y + size), Point(x + size, y + size), Point(x + size, y), Point(x, y),
          Point(x + d, y + d), Point(x + size - 2.0 * d + d, y + d), Point(x + size - 2.0 * d + d, y + size - 2.0 * d + d),
          Point(x + d, y + size - 2.0 * d + d), Point(x + d, y + d) ]
  {
    var cs := SquarePath(x, y, size);
    assert cs == cs[..5] + cs[5..];
    PointsAppend(p, cs[..5], cs[5..]);
    PointsFive(p, cs[..5]);
    PointsFive(Run(p, cs[..5]), cs[5..]);
  }

  /** The pen's stops along the outer outline of the extra-rounded style. */
  lemma ExtraRoundedOuterPoints(p: Pen, x: real, y: real, size: real)
    ensures var d := Unit(size);
      Points(p, ExtraRoundedOuter(x, y, size)) ==
        [ Point(x, y + 2.5 * d), Point(x, y + 4.5 * d), Point(x + 2.5 * d, y + 7.0 * d), Point(x + 4.5 * d, y + 7.0 * d),
          Point(x + 7.0 * d, y + 4.5 * d), Point(x + 7.0 * d, y + 2.5 * d), Point(x + 4.5 * d, y), Point(x + 2.5 * d, y),
          Point(x, y + 2.5 * d) ]
  {
    var cs := ExtraRoundedOuter(x, y, size);
    var q1 := Step(p, cs[0]);
    var q2 := Step(q1, cs[1]);
    var q3 := Step(q2, cs[2]);
    var q4 := Step(q3, cs[3]);
    var q5 := Step(q4, cs[4]);
    var q6 := Step(q5, cs[5]);
    var q7 := Step(q6, cs[6]);
    var q8 := Step(q7, cs[7]);
    PointsCons(q8, cs[8..]);
    assert cs[8..][1..] == [];
    PointsCons(q7, cs[7..]);
    assert cs[7..][1..] == cs[8..];
    PointsCons(q6, cs[6..]);
    assert cs[6..][1..] == cs[7..];
    PointsCons(q5, cs[5..]);
    assert cs[5..][1..] == cs[6..];
    PointsCons(q4, cs[4..]);
    assert cs[4..][1..] == cs[5..];
    PointsCons(q3, cs[3..]);
    assert cs[3..][1..] == cs[4..];
    PointsCons(q2, cs[2..]);
    assert cs[2..][1..] == cs[3..];
    PointsCons(q1, cs[1..]);
    assert cs[1..][1..] == cs[2..];
    PointsCons(p, cs);
  }

  /** The pen's stops along the inner outline of the extra-rounded style. */
  lemma ExtraRoundedInnerPoints(p: Pen, x: real, y: real, size: real)
    ensures var d := Unit(size);
      Points(p, ExtraRoundedInner(x, y, size)) ==
        [ Point(x + 2.5 * d, y + d), Point(x + 4.5 * d, y + d), Point(x + 6.0 * d, y + 2.5 * d), Point(x + 6.0 * d, y + 4.5 * d),
          Point(x + 4.5 * d, y + 6.0 * d), Point(x + 2.5 * d, y + 6.0 * d), Point(x + d, y + 4.5 * d), Point(x + d, y + 2.5 * d),
          Point(x + 2.5 * d, y + d) ]
  {
    var cs := ExtraRoundedInner(x, y, size);
    var q1 := Step(p, cs[0]);
    var q2 := Step(q1, cs[1]);
    var q3 := Step(q2, cs[2]);
    var q4 := Step(q3, cs[3]);
    var q5 := Step(q4, cs[4]);
    var q6 := Step(q5, cs[5]);
    var q7 := Step(q6, cs[6]);
    var q8 := Step(q7, cs[7]);
    PointsCons(q8, cs[8..]);
    assert cs[8..][1..] == [];
    PointsCons(q7, cs[7..]);
    assert cs[7..][1..] == cs[8..];
    PointsCons(q6, cs[6..]);
    assert cs[6..][1..] == cs[7..];
    PointsCons(q5, cs[5..]);
    assert cs[5..][1..] == cs[6..];
    PointsCons(q4, cs[4..]);
    assert cs[4..][1..] == cs[5..];
    PointsCons(q3, cs[3..]);
    assert cs[3..][1..] == cs[4..];
    PointsCons(q2, cs[2..]);
    assert cs[2..][1..] == cs[3..];
    PointsCons(q1, cs[1..]);
    assert cs[1..][1..] == cs[2..];
    PointsCons(p, cs);
  }

  /** The pen's stops along the dot style: around the outer circle, back, down one module, around the inner one. */
  lemma DotPoints(p: Pen, x: real, y: real, size: real)
    ensures var d := Unit(size);
      Points(p, DotPath(x, y, size)) ==
        [ Point(x + size / 2.0, y), Point(x + size / 2.0 + 0.1, y), Point(x + size / 2.0, y),
          Point(x + size / 2.0, y + d), Point(x + size / 2.0 - 0.1, y + d), Point(x + size / 2.0, y + d) ]
  {
    var cs := DotPath(x, y, size);
    var q1 := Step(p, cs[0]);
    var q2 := Step(q1, cs[1]);
    var q3 := Step(q2, cs[2]);
    var q4 := Step(q3, cs[3]);
    var q5 := Step(q4, cs[4]);
    PointsCons(q5, cs[5..]);
    assert cs[5..][1..] == [];
    PointsCons(q4, cs[4..]);
    assert cs[4..][1..] == cs[5..];
    PointsCons(q3, cs[3..]);
    assert cs[3..][1..] == cs[4..];
    PointsCons(q2, cs[2..]);
    assert cs[2..][1..] == cs[3..];
    PointsCons(q1, cs[1..]);
    assert cs[1..][1..] == cs[2..];
    PointsCons(p, cs);
  }

  /**
   * The square style: an outer square of side `size` at (x, y), closed back at its
   * corner, and a hole of side 5 * size / 7 one module in from every side.
   */
  lemma SquareShape(p: Pen, x: real, y: real, size: real)
    requires size >= 0.0
    ensures var pts := Points(p, SquarePath(x, y, size)); var d := Unit(size);
      && pts[0] == pts[4] == Point(x, y)
      && Spans(pts[..5], x, y, x + size, y + size)
      && pts[5] == pts[9] == Point(x + d, y + d)
      && Spans(pts[5..], x + d, y + d, x + d + 5.0 * d, y + d + 5.0 * d)
      && (size > 0.0 ==> forall k | 5 <= k < 10 :: x < pts[k].x < x + size && y < pts[k].y < y + size)
  {
    SquarePoints(p, x, y, size);
    var pts := Points(p, SquarePath(x, y, size));
    var d := Unit(size);
    assert pts[..5][0].x == x && pts[..5][0].y == y;
    assert pts[..5][2].x == x + size && pts[..5][2].y == y + size;
    assert pts[5..][0].x == x + d && pts[5..][0].y == y + d;
    assert pts[5..][2].x == x + d + 5.0 * d && pts[5..][2].y == y + d + 5.0 * d;
  }

  /**
   * The outer outline of the extra-rounded style returns to where it starts, spans
   * the whole marker, and turns through quarter circles of 2.5 modules.
   */
  lemma ExtraRoundedOuterShape(p: Pen, x: real, y: real, size: real)
    requires size >= 0.0
    ensures var outer := Points(p, ExtraRoundedOuter(x, y, size));
      && outer[8] == outer[0]
      && Spans(outer, x, y, x + size, y + size)
    ensures var cs := ExtraRoundedOuter(x, y, size);
      forall k | 0 <= k < 9 && cs[k].ArcBy? :: QuarterArc(cs[k]) && cs[k].rx == 2.5 * Unit(size)
  {
    ExtraRoundedOuterPoints(p, x, y, size);
    var d := Unit(size);
    var outer := Points(p, ExtraRoundedOuter(x, y, size));
    assert size == 7.0 * d;
    assert outer[0].x == x && outer[6].y == y && outer[4].x == x + size && outer[2].y == y + size;
  }

  /**
   * The inner outline of the extra-rounded style starts at (x + 2.5 modules,
   * y + 1 module), returns there, spans the marker less one module on every side,
   * and turns through quarter circles of 1.5 modules.
   */
  lemma ExtraRoundedInnerShape(p: Pen, x: real, y: real, size: real)
    requires size >= 0.0
    ensures var inner := Points(p, ExtraRoundedInner(x, y, size)); var d := Unit(size);
      && inner[0] == Point(x + 2.5 * d, y + d)
      && inner[8] == inner[0]
      && Spans(inner, x + d, y + d, x + size - d, y + size - d)
    ensures var cs := ExtraRoundedInner(x, y, size);
      forall k | 0 <= k < 9 && cs[k].ArcBy? :: QuarterArc(cs[k]) && cs[k].rx == 1.5 * Unit(size)
  {
    ExtraRoundedInnerPoints(p, x, y, size);
    var d := Unit(size);
    var inner := Points(p, ExtraRoundedInner(x, y, size));
    assert size == 7.0 * d;
    assert inner[6].x == x + d && inner[0].y == y + d && inner[2].x == x + size - d && inner[4].y == y + size - d;
  }

  /** The extra-rounded path is its outer outline followed by its inner one, each drawn on its own. */
  lemma ExtraRoundedPathPoints(p: Pen, x: real, y: real, size: real)
    ensures Points(p, ExtraRoundedPath(x, y, size)) ==
            Points(p, ExtraRoundedOuter(x, y, size)) + Points(p, ExtraRoundedInner(x, y, size))
  {
    PointsAppend(p, ExtraRoundedOuter(x, y, size), ExtraRoundedInner(x, y, size));
    PointsAfterMoveTo(p, Run(p, ExtraRoundedOuter(x, y, size)), ExtraRoundedInner(x, y, size));
  }

  /**
   * The dot style: the outer arc has radius size / 2 and starts at the top of that
   * circle about the marker's centre; the inner arc, one module smaller, starts one
   * module lower, at the top of its own circle; each subpath closes where it began.
   */
  lemma DotShape(p: Pen, x: real, y: real, size: real)
    ensures var cs := DotPath(x, y, size); var pts := Points(p, cs);
      var cx := x + size / 2.0; var cy := y + size / 2.0; var d := Unit(size);
      && cs[1].ArcBy? && cs[1].rx == cs[1].ry == size / 2.0
      && pts[0] == Point(cx, cy - cs[1].rx) && pts[2] == pts[0]
      && cs[4].ArcBy? && cs[4].rx == cs[4].ry == cs[1].rx - d
      && pts[3] == Point(cx, cy - cs[4].rx) && pts[5] == pts[3]
  {
    DotPoints(p, x, y, size);
  }
}
