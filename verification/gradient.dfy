/**
 * The fill of a coloured region: a solid colour, or a linear or radial gradient
 * laid over the region's box, with the linear gradient's end points derived
 * from its rotation.
 */
module Gradient {
  import opened Wrappers
  import opened Geometry

  datatype GradientType = Linear | Radial

  /** A colour stop: `offset` runs from 0 to 1 along the gradient. */
  datatype ColorStop = ColorStop(offset: real, color: string)

  /** The gradient options of one coloured part; `rotation` is in radians and may be absent. */
  datatype GradientOptions = GradientOptions(kind: GradientType, rotation: Option<real>, colorStops: seq<ColorStop>)

  /** The region a fill covers, in canvas units. */
  datatype Box = Box(x: real, y: real, width: real, height: real)

  /** Where the gradient runs toward, one case per quadrant of rotation, plus the case no guard selects. */
  datatype Direction = Rightward | Downward | Leftward | Upward | Unchanged

  /** The gradient's total rotation, reduced by the platform's truncating remainder; it keeps the sign of the sum. */
  function ReducedRotation(rotation: Option<real>, additional: real): (r: real)
    ensures -TwoPi < r < TwoPi
    ensures rotation.GetOr(0.0) + additional >= 0.0 ==> r >= 0.0
    ensures rotation.GetOr(0.0) + additional <= 0.0 ==> r <= 0.0
    ensures var turns := (rotation.GetOr(0.0) + additional - r) / TwoPi; turns.Floor as real == turns
  {
    RemTwoPi(rotation.GetOr(0.0) + additional)
  }

  /** The reduced rotation moved into [0, 2 pi), by adding a full turn and reducing again. */
  function PositiveRotation(reduced: real): (p: real)
    ensures p < TwoPi && (reduced > -TwoPi ==> 0.0 <= p)
    ensures -TwoPi < reduced < TwoPi ==> p == reduced || p == reduced + TwoPi
  {
    var a := reduced + TwoPi;
    var p := RemTwoPi(a);
    if -TwoPi < reduced < TwoPi then
      WholeTurns(a, p);
      p
    else p
  }

  /** Two numbers in (-2 pi, 4 pi) and [0, 2 pi) that differ by whole turns differ by none or by one. */
  lemma WholeTurns(a: real, p: real)
    requires 0.0 < a < 2.0 * TwoPi && 0.0 <= p < TwoPi
    requires ((a - p) / TwoPi).Floor as real == (a - p) / TwoPi
    ensures p == a || p == a - TwoPi
  {
    var q := (a - p) / TwoPi;
    assert -1.0 < q < 2.0;
    var k := q.Floor;
    assert k == 0 || k == 1;
    assert a - p == q * TwoPi;
  }

  /** The four guards on the positive rotation, in the order they are tried. */
  predicate RightwardGuard(p: real) {
    (p >= 0.0 && p <= 0.25 * Pi) || (p > 1.75 * Pi && p <= 2.0 * Pi)
  }

  predicate DownwardGuard(p: real) {
    p > 0.25 * Pi && p <= 0.75 * Pi
  }

  predicate LeftwardGuard(p: real) {
    p > 0.75 * Pi && p <= 1.25 * Pi
  }

  predicate UpwardGuard(p: real) {
    p > 1.25 * Pi && p <= 1.75 * Pi
  }

  /** The first guard that holds picks the direction; none holding leaves the end points at the centre. */
  function Branch(p: real): Direction {
    if RightwardGuard(p) then Rightward
    else if DownwardGuard(p) then Downward
    else if LeftwardGuard(p) then Leftward
    else if UpwardGuard(p) then Upward
    else Unchanged
  }

  /** On a full turn the four guards are mutually exclusive and together cover every rotation. */
  lemma GuardsPartitionTurn(p: real)
    requires 0.0 <= p <= TwoPi
    ensures RightwardGuard(p) || DownwardGuard(p) || LeftwardGuard(p) || UpwardGuard(p)
    ensures !(RightwardGuard(p) && DownwardGuard(p)) && !(RightwardGuard(p) && LeftwardGuard(p))
    ensures !(RightwardGuard(p) && UpwardGuard(p)) && !(DownwardGuard(p) && LeftwardGuard(p))
    ensures !(DownwardGuard(p) && UpwardGuard(p)) && !(LeftwardGuard(p) && UpwardGuard(p))
  {
  }

  /** Whatever the configured and additional rotation, one of the four directions is taken. */
  lemma SomeDirectionTaken(rotation: Option<real>, additional: real)
    ensures Branch(PositiveRotation(ReducedRotation(rotation, additional))) != Unchanged
  {
    GuardsPartitionTurn(PositiveRotation(ReducedRotation(rotation, additional)));
  }

  /** A steep direction divides by the tangent of the rotation. */
  predicate Steep(dir: Direction) {
    dir == Downward || dir == Upward
  }

  /** The gradient line's two end points, before rounding. */
  datatype Line = Line(x0: real, y0: real, x1: real, y1: real)

  /**
   * The end points for a direction, `tan` standing for the tangent of the reduced
   * rotation: flat directions run from one vertical edge to the other, raising the
   * ends by the tangent; steep ones run from one horizontal edge to the other,
   * shifting them by the cotangent.
   */
  function EndPoints(dir: Direction, b: Box, tan: real): (l: Line)
    requires Steep(dir) ==> tan != 0.0
    ensures l.x0 + l.x1 == 2.0 * b.x + b.width && l.y0 + l.y1 == 2.0 * b.y + b.height
  {
    var cx := b.x + b.width / 2.0;
    var cy := b.y + b.height / 2.0;
    match dir
    case Rightward => Line(cx - b.width / 2.0, cy - b.height / 2.0 * tan, cx + b.width / 2.0, cy + b.height / 2.0 * tan)
    case Downward => Line(cx - b.width / 2.0 / tan, cy - b.height / 2.0, cx + b.width / 2.0 / tan, cy + b.height / 2.0)
    case Leftward => Line(cx + b.width / 2.0, cy + b.height / 2.0 * tan, cx - b.width / 2.0, cy - b.height / 2.0 * tan)
    case Upward => Line(cx + b.width / 2.0 / tan, cy + b.height / 2.0, cx - b.width / 2.0 / tan, cy - b.height / 2.0)
    case Unchanged => Line(cx, cy, cx, cy)
  }

  /**
   * Each direction's line runs the full width (flat) or height (steep) of the box,
   * the way its name says; a flat line with no slope lies on the horizontal midline.
   */
  lemma EndPointsSpanBox(dir: Direction, b: Box, tan: real)
    requires Steep(dir) ==> tan != 0.0
    ensures var l := EndPoints(dir, b, tan);
      && (dir == Rightward ==> l.x0 == b.x && l.x1 == b.x + b.width)
      && (dir == Leftward ==> l.x0 == b.x + b.width && l.x1 == b.x)
      && (dir == Downward ==> l.y0 == b.y && l.y1 == b.y + b.height)
      && (dir == Upward ==> l.y0 == b.y + b.height && l.y1 == b.y)
      && ((dir == Rightward || dir == Leftward) && tan == 0.0 ==> l.y0 == l.y1 == b.y + b.height / 2.0)
  {
  }

  /**
   * On a square box the line points along the rotation: its rise is the tangent
   * times its run, in every direction.
   */
  lemma EndPointsFollowSlope(dir: Direction, b: Box, tan: real)
    requires Steep(dir) ==> tan != 0.0
    requires b.width == b.height
    ensures var l := EndPoints(dir, b, tan); l.y1 - l.y0 == tan * (l.x1 - l.x0)
  {
    var h := b.height / 2.0;
    if Steep(dir) {
      assert tan * (h / tan) == h;
    }
  }

  /** Where two neighbouring directions meet (a tangent of 1 or -1), both give the same line. */
  lemma EndPointsContinuous(b: Box)
    ensures EndPoints(Rightward, b, 1.0) == EndPoints(Downward, b, 1.0)
    ensures EndPoints(Downward, b, -1.0) == EndPoints(Leftward, b, -1.0)
    ensures EndPoints(Leftward, b, 1.0) == EndPoints(Upward, b, 1.0)
    ensures EndPoints(Upward, b, -1.0) == EndPoints(Rightward, b, -1.0)
  {
  }

  /** `a / t` is no larger than `a` in magnitude when `t` is at least 1 in magnitude. */
  lemma DivideBySteep(a: real, t: real)
    requires a >= 0.0 && (t >= 1.0 || t <= -1.0)
    ensures -a <= a / t <= a
  {
    var q := a / t;
    assert q * t == a;
    if t >= 1.0 {
      assert q >= 0.0;
      assert q * t >= q * 1.0;
    } else {
      assert q <= 0.0;
      assert q * t >= (-q) * 1.0;
    }
  }

  /** `a * t` is no larger than `a` in magnitude when `t` is at most 1 in magnitude. */
  lemma MultiplyByFlat(a: real, t: real)
    requires a >= 0.0 && -1.0 <= t <= 1.0
    ensures -a <= a * t <= a
  {
    if t >= 0.0 {
      assert a * t <= a * 1.0;
    } else {
      assert a * (-t) <= a * 1.0;
    }
  }

  /** The box's edges, inclusive. */
  predicate OnBox(b: Box, x: real, y: real) {
    b.x <= x <= b.x + b.width && b.y <= y <= b.y + b.height
  }

  /** A flat line's ends lie on the box when the tangent is at most 1 in magnitude. */
  lemma FlatEndPointsOnBox(dir: Direction, b: Box, tan: real)
    requires dir == Rightward || dir == Leftward
    requires b.width >= 0.0 && b.height >= 0.0 && -1.0 <= tan <= 1.0
    ensures var l := EndPoints(dir, b, tan); OnBox(b, l.x0, l.y0) && OnBox(b, l.x1, l.y1)
  {
    var h := b.height / 2.0;
    MultiplyByFlat(h, tan);
    var l := EndPoints(dir, b, tan);
    if dir == Rightward {
      assert l.y0 == b.y + h - h * tan && l.y1 == b.y + h + h * tan;
    } else {
      assert l.y0 == b.y + h + h * tan && l.y1 == b.y + h - h * tan;
    }
  }

  /** A steep line's ends lie on the box when the tangent is at least 1 in magnitude. */
  lemma SteepEndPointsOnBox(dir: Direction, b: Box, tan: real)
    requires dir == Downward || dir == Upward
    requires b.width >= 0.0 && b.height >= 0.0 && (tan >= 1.0 || tan <= -1.0)
    ensures var l := EndPoints(dir, b, tan); OnBox(b, l.x0, l.y0) && OnBox(b, l.x1, l.y1)
  {
    var w := b.width / 2.0;
    DivideBySteep(w, tan);
    var l := EndPoints(dir, b, tan);
    if dir == Downward {
      assert l.x0 == b.x + w - w / tan && l.x1 == b.x + w + w / tan;
    } else {
      assert l.x0 == b.x + w + w / tan && l.x1 == b.x + w - w / tan;
    }
  }

  /** The line of a linear gradient as written out: each end point rounded to the nearest integer. */
  datatype RoundedLine = RoundedLine(x1: int, y1: int, x2: int, y2: int)

  function RoundLine(l: Line): (r: RoundedLine)
    ensures l.x0 - 0.5 < r.x1 as real <= l.x0 + 0.5 && l.y0 - 0.5 < r.y1 as real <= l.y0 + 0.5
    ensures l.x1 - 0.5 < r.x2 as real <= l.x1 + 0.5 && l.y1 - 0.5 < r.y2 as real <= l.y1 + 0.5
  {
    RoundedLine(Round(l.x0), Round(l.y0), Round(l.x1), Round(l.y1))
  }

  /** A gradient stop as written: its offset as a percentage. */
  datatype Stop = Stop(percent: real, color: string)

  function Stops(stops: seq<ColorStop>): (r: seq<Stop>)
    ensures |r| == |stops|
    ensures forall k | 0 <= k < |r| :: r[k].color == stops[k].color && r[k].percent / 100.0 == stops[k].offset
  {
    seq(|stops|, k requires 0 <= k < |stops| => Stop(100.0 * stops[k].offset, stops[k].color))
  }

  /** A gradient definition, named by its id. */
  datatype GradientElement =
    | LinearGradient(id: string, line: RoundedLine, stops: seq<Stop>)
    | RadialGradient(id: string, fx: real, fy: real, cx: real, cy: real, r: real, stops: seq<Stop>)

  /** How the region's rectangle is filled. */
  datatype Fill = GradientFill(ref: string) | ColorFill(color: string) | NoFill

  /** The rectangle that carries the fill, clipped to the shapes drawn for the region. */
  datatype FillRect = FillRect(box: Box, clipPath: string, fill: Fill)

  datatype Coloring = Coloring(rect: FillRect, gradient: Option<GradientElement>)

  /** The reference `url('#<id>')`. */
  function UrlRef(id: string): string {
    "url('#" + id + "')"
  }

  /** A colour string counts as set only when it is present and not empty. */
  predicate ColorSet(color: Option<string>) {
    color.Some? && color.value != ""
  }

  /** The gradient for a region: radial from the box centre, or linear along the rotation. */
  function MakeGradient(g: GradientOptions, additional: real, b: Box, name: string, tan: real): (e: GradientElement)
    requires g.kind == Linear && Steep(Branch(PositiveRotation(ReducedRotation(g.rotation, additional)))) ==> tan != 0.0
    ensures e.id == name && e.stops == Stops(g.colorStops)
    ensures g.kind == Radial <==> e.RadialGradient?
  {
    var size := if b.width > b.height then b.width else b.height;
    if g.kind == Radial then
      RadialGradient(name, b.x + b.width / 2.0, b.y + b.height / 2.0, b.x + b.width / 2.0, b.y + b.height / 2.0,
                     size / 2.0, Stops(g.colorStops))
    else
      var dir := Branch(PositiveRotation(ReducedRotation(g.rotation, additional)));
      LinearGradient(name, RoundLine(EndPoints(dir, b, tan)), Stops(g.colorStops))
  }

  /**
   * Colours a region: the rectangle over the box is clipped to `clip-path-<name>`;
   * gradient options give it a gradient named `name`, failing that a set colour
   * fills it, and otherwise it stays unfilled.
   */
  function CreateColor(g: Option<GradientOptions>, color: Option<string>, additional: real, b: Box, name: string, tan: real)
    : (c: Coloring)
    requires g.Some? && g.value.kind == Linear && Steep(Branch(PositiveRotation(ReducedRotation(g.value.rotation, additional)))) ==> tan != 0.0
    ensures c.rect.box == b && c.rect.clipPath == UrlRef("clip-path-" + name)
    ensures g.Some? <==> c.gradient.Some?
    ensures g.Some? ==> c.rect.fill == GradientFill(UrlRef(c.gradient.value.id)) && c.gradient.value.id == name
    ensures g.None? && ColorSet(color) ==> c.rect.fill == ColorFill(color.value)
    ensures c.rect.fill == NoFill <==> g.None? && !ColorSet(color)
  {
    var rect := FillRect(b, UrlRef("clip-path-" + name), NoFill);
    if g.Some? then
      Coloring(rect.(fill := GradientFill(UrlRef(name))), Some(MakeGradient(g.value, additional, b, name, tan)))
    else if ColorSet(color) then
      Coloring(rect.(fill := ColorFill(color.value)), None)
    else
      Coloring(rect, None)
  }

  /** A radial gradient is centred, with its focus, on the box, and reaches its farther edges. */
  lemma RadialCentred(g: GradientOptions, additional: real, b: Box, name: string, tan: real)
    requires g.kind == Radial
    ensures var e := MakeGradient(g, additional, b, name, tan);
      && e.fx == e.cx && e.fy == e.cy
      && 2.0 * e.cx == 2.0 * b.x + b.width && 2.0 * e.cy == 2.0 * b.y + b.height
      && 2.0 * e.r >= b.width && 2.0 * e.r >= b.height
      && (2.0 * e.r == b.width || 2.0 * e.r == b.height)
  {
  }

  /**
   * A linear gradient's written line is the rounding of the line its direction
   * gives, and that line is centred on the box.
   */
  lemma LinearFollowsDirection(g: GradientOptions, additional: real, b: Box, name: string, tan: real)
    requires g.kind == Linear
    requires Steep(Branch(PositiveRotation(ReducedRotation(g.rotation, additional)))) ==> tan != 0.0
    ensures var e := MakeGradient(g, additional, b, name, tan);
      var l := EndPoints(Branch(PositiveRotation(ReducedRotation(g.rotation, additional))), b, tan);
      && e.LinearGradient?
      && Branch(PositiveRotation(ReducedRotation(g.rotation, additional))) != Unchanged
      && l.x0 + l.x1 == 2.0 * b.x + b.width && l.y0 + l.y1 == 2.0 * b.y + b.height
      && e.line == RoundLine(l)
      && e.line.x1 as real - 0.5 <= l.x0 < e.line.x1 as real + 0.5
      && e.line.y1 as real - 0.5 <= l.y0 < e.line.y1 as real + 0.5
      && e.line.x2 as real - 0.5 <= l.x1 < e.line.x2 as real + 0.5
      && e.line.y2 as real - 0.5 <= l.y1 < e.line.y2 as real + 0.5
  {
    SomeDirectionTaken(g.rotation, additional);
  }
}
