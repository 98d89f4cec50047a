/**
 * Vector path data as a sequence of commands, and where the pen goes when the
 * commands are followed. Lower-case (relative) commands move by a displacement;
 * `MoveTo` is absolute; `Close` returns to the start of the current subpath.
 */
module Paths {

  datatype Point = Point(x: real, y: real)

  datatype Cmd =
    | MoveTo(x: real, y: real)
    | MoveBy(dx: real, dy: real)
    | HorizontalBy(dx: real)
    | VerticalBy(dy: real)
    | ArcBy(rx: real, ry: real, xAxisRotation: real, largeArc: bool, sweep: bool, dx: real, dy: real)
    | Close

  /** The pen: where it is, and where the current subpath began. */
  datatype Pen = Pen(at: Point, start: Point)

  /** The pen after one command. An arc ends at its displacement, whatever its radii. */
  function Step(p: Pen, c: Cmd): Pen {
    match c
    case MoveTo(x, y) => Pen(Point(x, y), Point(x, y))
    case MoveBy(dx, dy) => var q := Point(p.at.x + dx, p.at.y + dy); Pen(q, q)
    case HorizontalBy(dx) => Pen(Point(p.at.x + dx, p.at.y), p.start)
    case VerticalBy(dy) => Pen(Point(p.at.x, p.at.y + dy), p.start)
    case ArcBy(_, _, _, _, _, dx, dy) => Pen(Point(p.at.x + dx, p.at.y + dy), p.start)
    case Close => Pen(p.start, p.start)
  }

  /** The point the pen reaches after each command, in order. */
  function Points(p: Pen, cmds: seq<Cmd>): (pts: seq<Point>)
    ensures |pts| == |cmds|
    decreases |cmds|
  {
    if |cmds| == 0 then []
    else var q := Step(p, cmds[0]); [q.at] + Points(q, cmds[1..])
  }

  /** The pen after all the commands. */
  function Run(p: Pen, cmds: seq<Cmd>): Pen
    decreases |cmds|
  {
    if |cmds| == 0 then p else Run(Step(p, cmds[0]), cmds[1..])
  }

  /** Following one command and then the rest. */
  lemma PointsCons(p: Pen, cmds: seq<Cmd>)
    requires |cmds| > 0
    ensures Points(p, cmds) == [Step(p, cmds[0]).at] + Points(Step(p, cmds[0]), cmds[1..])
  {
  }

  /** Following a concatenation is following each part in turn. */
  lemma {:induction false} PointsAppend(p: Pen, a: seq<Cmd>, b: seq<Cmd>)
    ensures Points(p, a + b) == Points(p, a) + Points(Run(p, a), b)
    decreases |a|
  {
    if |a| > 0 {
      assert (a + b)[1..] == a[1..] + b;
      PointsAppend(Step(p, a[0]), a[1..], b);
    } else {
      assert a + b == b;
    }
  }

  /** Where a subpath starting with an absolute move goes does not depend on the pen before it. */
  lemma PointsAfterMoveTo(p: Pen, q: Pen, cmds: seq<Cmd>)
    requires |cmds| > 0 && cmds[0].MoveTo?
    ensures Points(p, cmds) == Points(q, cmds)
  {
  }

  /** An arc that turns a quarter circle: both radii equal both displacement magnitudes. */
  predicate QuarterArc(c: Cmd) {
    c.ArcBy? && c.rx == c.ry && (c.dx == c.rx || c.dx == -c.rx) && (c.dy == c.rx || c.dy == -c.rx)
  }

  /** All points lie in the box [x0, x1] by [y0, y1]. */
  predicate AllIn(pts: seq<Point>, x0: real, y0: real, x1: real, y1: real) {
    forall k | 0 <= k < |pts| :: x0 <= pts[k].x <= x1 && y0 <= pts[k].y <= y1
  }

  /** Some point touches each side of the box [x0, x1] by [y0, y1]. */
  predicate TouchesSides(pts: seq<Point>, x0: real, y0: real, x1: real, y1: real) {
    && (exists k | 0 <= k < |pts| :: pts[k].x == x0)
    && (exists k | 0 <= k < |pts| :: pts[k].x == x1)
    && (exists k | 0 <= k < |pts| :: pts[k].y == y0)
    && (exists k | 0 <= k < |pts| :: pts[k].y == y1)
  }

  /** The points span exactly the box [x0, x1] by [y0, y1]: within it, and reaching every side. */
  predicate Spans(pts: seq<Point>, x0: real, y0: real, x1: real, y1: real) {
    AllIn(pts, x0, y0, x1, y1) && TouchesSides(pts, x0, y0, x1, y1)
  }
}
