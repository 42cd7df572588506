/** Paths through the points of a line: straight (`none`), cardinal and monotone cubic interpolation. */
module Interpolation {
  import opened Numerals
  import opened PathText
  import opened Segments
  import opened Sequences
  import opened SvgPaths
  import Curve = MonotoneCurve

  type PathElement = Element<Sample>

  function MoveTo(p: Point): PathElement
  {
    Element(Raw("M", [Num(p.x), Num(p.y)]), Data(p.data))
  }

  function LineTo(p: Point): PathElement
  {
    Element(Raw("L", [Num(p.x), Num(p.y)]), Data(p.data))
  }

  function CurveTo(x1: real, y1: real, x2: real, y2: real, p: Point): PathElement
  {
    Element(Raw("C", [Num(x1), Num(y1), Num(x2), Num(y2), Num(p.x), Num(p.y)]), Data(p.data))
  }

  /** The element draws to the point, and moves there if the point starts a segment. */
  predicate Draws(e: PathElement, m: Mark)
  {
    && (e.raw.command == "M" <==> m.start)
    && |e.raw.params| >= 2
    && e.raw.params[|e.raw.params| - 2] == Num(m.p.x) && e.raw.params[|e.raw.params| - 1] == Num(m.p.y)
    && e.data == Data(m.p.data)
  }

  /** One element for each point, in order. */
  predicate DrawsAll(es: seq<PathElement>, marks: seq<Mark>)
  {
    |es| == |marks| && forall i | 0 <= i < |es| :: Draws(es[i], marks[i])
  }

  // ---- straight lines ----

  function LineElement(m: Mark): PathElement
  {
    if m.start then MoveTo(m.p) else LineTo(m.p)
  }

  function LineElements(marks: seq<Mark>): (es: seq<PathElement>)
    ensures DrawsAll(es, marks)
  {
    seq(|marks|, i requires 0 <= i < |marks| => LineElement(marks[i]))
  }

  method DrawPoint(path: SvgPath<Sample>, hole: bool, x: real, y: real, data: Sample)
    requires path.Valid() && path.pos == |path.pathElements|
    modifies path
    ensures path.Valid() && path.pos == |path.pathElements|
    ensures path.pathElements == old(path.pathElements) + [LineElement(Mark(hole, Point(x, y, data)))]
  {
    if hole {
      path.Move(Num(x), Num(y), false, Data(data));
    } else {
      path.Line(Num(x), Num(y), false, Data(data));
    }
  }

  method None(pathCoordinates: seq<real>, valueData: seq<Sample>, fillHoles: bool) returns (path: SvgPath<Sample>)
    requires |pathCoordinates| == 2 * |valueData|
    ensures fresh(path) && path.Valid()
    ensures path.pathElements == LineElements(Marks(Points(pathCoordinates, valueData), false, fillHoles))
  {
    ghost var ps := Points(pathCoordinates, valueData);
    path := new SvgPath(false, DEFAULT_ACCURACY);
    var hole := true;
    ghost var n := 0;
    var i := 0;
    while i < |pathCoordinates|
      invariant i == 2 * n && n <= |ps| && path.Valid() && fresh(path) && path.pos == |path.pathElements|
      invariant hole == (LastDefined(ps[..n]) == -1 || (!fillHoles && !ps[n - 1].data.defined))
      invariant path.pathElements == LineElements(Marks(ps[..n], false, fillHoles))
    {
      var currX, currY, currData := pathCoordinates[i], pathCoordinates[i + 1], valueData[i / 2];
      assert ps[n] == Point(currX, currY, currData);
      MarksNext(ps, n, false, fillHoles);
      if currData.defined {
        DrawPoint(path, hole, currX, currY, currData);
        hole := false;
      } else if !fillHoles {
        hole := true;
      }
      n, i := n + 1, i + 2;
    }
    assert ps[..n] == ps;
  }

  lemma MarksNext(ps: seq<Point>, n: nat, increasingX: bool, fillHoles: bool)
    requires n < |ps|
    ensures Marks(ps[..n + 1], increasingX, fillHoles) == Marks(ps[..n], increasingX, fillHoles)
        + if ps[n].data.defined then [Mark(Starts(ps, n, increasingX, fillHoles), ps[n])] else []
    ensures LastDefined(ps[..n + 1]) == if ps[n].data.defined then n else LastDefined(ps[..n])
  {
    assert ps[..n + 1][..n] == ps[..n];
  }

  // ---- monotone cubic splines ----

  /** No two neighbours have the same x. */
  predicate Stepping(ps: seq<Point>)
  {
    forall i | 1 <= i < |ps| :: ps[i - 1].x != ps[i].x
  }

  function Width(ps: seq<Point>, i: nat): (w: real)
    requires i + 1 < |ps| && Stepping(ps)
    ensures w != 0.0 && (Increasing(ps) ==> w > 0.0)
  {
    ps[i + 1].x - ps[i].x
  }

  function Secant(ps: seq<Point>, i: nat): real
    requires i + 1 < |ps| && Stepping(ps)
  {
    (ps[i + 1].y - ps[i].y) / Width(ps, i)
  }

  /** The slope at a point: the secant at the ends, a mean of both secants in between. */
  function SlopeAt(ps: seq<Point>, i: nat): real
    requires i < |ps| && |ps| >= 2 && Stepping(ps)
  {
    if i == 0 then Secant(ps, 0)
    else if i == |ps| - 1 then Secant(ps, i - 1)
    else Curve.Slope(Width(ps, i - 1), Width(ps, i), Secant(ps, i - 1), Secant(ps, i))
  }

  function Slopes(ps: seq<Point>): (ms: seq<real>)
    requires |ps| >= 2 && Stepping(ps)
    ensures |ms| == |ps| && forall i | 0 <= i < |ps| :: ms[i] == SlopeAt(ps, i)
  {
    seq(|ps|, i requires 0 <= i < |ps| => SlopeAt(ps, i))
  }

  /** The slope at a point between two others, in terms of the coordinates of the three. */
  predicate FitAt(ps: seq<Point>, i: nat, m: real)
    requires 0 < i < |ps| - 1
  {
    Curve.Fits(ps[i].x - ps[i - 1].x, ps[i + 1].x - ps[i].x, ps[i].y - ps[i - 1].y, ps[i + 1].y - ps[i].y, m)
  }

  lemma SlopeFits(ps: seq<Point>, i: nat)
    requires 0 < i < |ps| - 1 && Stepping(ps)
    ensures FitAt(ps, i, SlopeAt(ps, i))
  {
    var a, b, u, v := Width(ps, i - 1), Width(ps, i), ps[i].y - ps[i - 1].y, ps[i + 1].y - ps[i].y;
    Curve.SlopeOfSteps(a, b, u, v, Secant(ps, i - 1), Secant(ps, i));
  }

  /** The slope of the step from one point to the next. */
  predicate SlopeOver(p: Point, q: Point, m: real)
  {
    m * (q.x - p.x) == q.y - p.y
  }

  /** At the ends the slopes are those of the outer steps, in between they fit the steps on both sides. */
  predicate AllFit(ps: seq<Point>, ms: seq<real>)
    requires |ps| == |ms| >= 2
  {
    var n := |ps| - 1;
    && SlopeOver(ps[0], ps[1], ms[0]) && SlopeOver(ps[n - 1], ps[n], ms[n])
    && forall i | 0 < i < n :: FitAt(ps, i, ms[i])
  }

  lemma SlopesFit(ps: seq<Point>)
    requires |ps| >= 2 && Stepping(ps)
    ensures AllFit(ps, Slopes(ps))
  {
    forall i | 0 < i < |ps| - 1 ensures FitAt(ps, i, Slopes(ps)[i]) {
      SlopeFits(ps, i);
    }
  }

  datatype Control = Control(x: real, y: real)

  /** The first control point between two points, with slope `m` at the first. */
  function FirstControl(p: Point, q: Point, m: real): Control
  {
    Control(p.x + (q.x - p.x) / 3.0, p.y + m * (q.x - p.x) / 3.0)
  }

  /** The last one, with slope `n` at the second. */
  function LastControl(p: Point, q: Point, n: real): Control
  {
    Control(q.x - (q.x - p.x) / 3.0, q.y - n * (q.x - p.x) / 3.0)
  }

  /** The curve between two points, with slopes at both. */
  function CurveBetween(p: Point, q: Point, m: real, n: real): PathElement
  {
    var first, last := FirstControl(p, q, m), LastControl(p, q, n);
    CurveTo(first.x, first.y, last.x, last.y, q)
  }

  /** The curves through points with slopes `ms`. */
  function Curves(ps: seq<Point>, ms: seq<real>): (es: seq<PathElement>)
    requires |ms| == |ps| >= 2
    ensures DrawsAll(es, SegmentMarks(ps))
    ensures forall i | 0 < i < |ps| :: es[i] == CurveBetween(ps[i - 1], ps[i], ms[i - 1], ms[i])
  {
    seq(|ps|, i requires 0 <= i < |ps| =>
      if i == 0 then MoveTo(ps[0]) else CurveBetween(ps[i - 1], ps[i], ms[i - 1], ms[i]))
  }

  function Spline(ps: seq<Point>): (es: seq<PathElement>)
    requires |ps| >= 2 && Stepping(ps)
    ensures DrawsAll(es, SegmentMarks(ps))
  {
    Curves(ps, Slopes(ps))
  }

  /** The slope at a point is gentle for the steps on both sides of it. */
  lemma SlopesAreGentle(ps: seq<Point>, i: nat)
    requires i < |ps| && |ps| >= 2 && Increasing(ps)
    ensures i + 1 < |ps| ==> Curve.Gentle(SlopeAt(ps, i), Secant(ps, i))
    ensures i > 0 ==> Curve.Gentle(SlopeAt(ps, i), Secant(ps, i - 1))
  {
    if 0 < i < |ps| - 1 {
      Curve.SlopeIsGentle(Width(ps, i - 1), Width(ps, i), Secant(ps, i - 1), Secant(ps, i));
    }
  }

  /** The curve of a path element, started at `p`. */
  function XAt(p: Point, e: PathElement, t: real): real
    requires IsCurve(e)
  {
    var c := e.raw.params;
    assert forall i | 0 <= i < 6 :: c[i] in c;
    Curve.Bezier([p.x, c[0].value, c[2].value, c[4].value], t)
  }

  function YAt(p: Point, e: PathElement, t: real): real
    requires IsCurve(e)
  {
    var c := e.raw.params;
    assert forall i | 0 <= i < 6 :: c[i] in c;
    Curve.Bezier([p.y, c[1].value, c[3].value, c[5].value], t)
  }

  lemma CurveToCubic(p: Point, x1: real, y1: real, x2: real, y2: real, q: Point, t: real)
    ensures var e := CurveTo(x1, y1, x2, y2, q);
      && IsCurve(e)
      && XAt(p, e, t) == Curve.Bezier([p.x, x1, x2, q.x], t) && YAt(p, e, t) == Curve.Bezier([p.y, y1, y2, q.y], t)
  {}

  /** The curve to `q` moves evenly in x, and in y only from the value at one end towards that at the other. */
  predicate RunsTo(p: Point, e: PathElement, q: Point, s: real, t: real)
  {
    && IsCurve(e)
    && XAt(p, e, t) == p.x + t * (q.x - p.x)
    && Curve.Between(p.y, q.y, YAt(p, e, s), YAt(p, e, t))
  }

  lemma CurveRuns(p: Point, x1: real, y1: real, x2: real, y2: real, q: Point, s: real, t: real)
    requires Curve.Bezier([p.x, x1, x2, q.x], t) == p.x + t * (q.x - p.x)
    requires Curve.Between(p.y, q.y, Curve.Bezier([p.y, y1, y2, q.y], s), Curve.Bezier([p.y, y1, y2, q.y], t))
    ensures RunsTo(p, CurveTo(x1, y1, x2, y2, q), q, s, t)
  {
    CurveToCubic(p, x1, y1, x2, y2, q, s);
    CurveToCubic(p, x1, y1, x2, y2, q, t);
  }

  lemma ControlledCurveRuns(p: Point, a: Control, b: Control, q: Point, m: real, n: real, s: real, t: real)
    requires p.x < q.x && Curve.Gentle(m, (q.y - p.y) / (q.x - p.x)) && Curve.Gentle(n, (q.y - p.y) / (q.x - p.x))
    requires a == FirstControl(p, q, m) && b == LastControl(p, q, n) && 0.0 <= s <= t <= 1.0
    ensures RunsTo(p, CurveTo(a.x, a.y, b.x, b.y, q), q, s, t)
  {
    Curve.BezierMonotone(p.y, a.y, b.y, q.y, q.x - p.x, m, n, s, t);
    Curve.BezierAffine(p.x, a.x, b.x, q.x, t);
    CurveRuns(p, a.x, a.y, b.x, b.y, q, s, t);
  }

  lemma GentleCurveRuns(p: Point, q: Point, m: real, n: real, s: real, t: real)
    requires p.x < q.x && Curve.Gentle(m, (q.y - p.y) / (q.x - p.x)) && Curve.Gentle(n, (q.y - p.y) / (q.x - p.x))
    requires 0.0 <= s <= t <= 1.0
    ensures RunsTo(p, CurveBetween(p, q, m, n), q, s, t)
  {
    ControlledCurveRuns(p, FirstControl(p, q, m), LastControl(p, q, n), q, m, n, s, t);
  }

  /** Every curve of a spline runs evenly in x, and in y only from the value at one end towards that at the other. */
  lemma SplineIsMonotone(ps: seq<Point>, i: nat, s: real, t: real)
    requires i + 1 < |ps| && Increasing(ps) && 0.0 <= s <= t <= 1.0
    ensures RunsTo(ps[i], Spline(ps)[i + 1], ps[i + 1], s, t)
  {
    SlopesAreGentle(ps, i);
    SlopesAreGentle(ps, i + 1);
    GentleCurveRuns(ps[i], ps[i + 1], Slopes(ps)[i], Slopes(ps)[i + 1], s, t);
  }

  predicate IsCurve(e: PathElement)
  {
    |e.raw.params| == 6 && forall c | c in e.raw.params :: c.Num?
  }

  /** The handles of a curve: from its start to its first control point, and from its second to its end. */
  datatype Handle = Handle(x: real, y: real)

  function Outgoing(p: Point, e: PathElement): Handle
    requires IsCurve(e)
  {
    Handle(e.raw.params[0].value - p.x, e.raw.params[1].value - p.y)
  }

  function Incoming(e: PathElement): Handle
    requires IsCurve(e)
  {
    Handle(e.raw.params[4].value - e.raw.params[2].value, e.raw.params[5].value - e.raw.params[3].value)
  }

  /** At `p` one curve ends and the next one starts in the same direction, that of the slope `m`. */
  predicate Smooth(e: PathElement, p: Point, f: PathElement, m: real)
  {
    && IsCurve(e) && IsCurve(f)
    && var a, b := Incoming(e), Outgoing(p, f);
      a.x > 0.0 && b.x > 0.0 && a.y == m * a.x && b.y == m * b.x
  }

  lemma ThirdOf(m: real, w: real)
    ensures m * w / 3.0 == m * (w / 3.0)
  {}

  /** Two curves that have the slope `m` at the point between them. */
  lemma HandlesMatch(o: Point, p: Point, q: Point, l: real, m: real, n: real)
    requires o.x < p.x < q.x
    ensures Smooth(CurveBetween(o, p, l, m), p, CurveBetween(p, q, m, n), m)
  {
    ThirdOf(m, p.x - o.x);
    ThirdOf(m, q.x - p.x);
  }

  /** At every inner point the curves on both sides have the same slope, that of the point. */
  lemma CurvesAreSmooth(ps: seq<Point>, ms: seq<real>, i: nat)
    requires |ms| == |ps| && 0 < i < |ps| - 1 && Increasing(ps)
    ensures Smooth(Curves(ps, ms)[i], ps[i], Curves(ps, ms)[i + 1], ms[i])
  {
    HandlesMatch(ps[i - 1], ps[i], ps[i + 1], ms[i - 1], ms[i], ms[i + 1]);
  }

  /** A segment of two points at most is drawn straight. */
  function MonotonePiece(g: seq<Point>): (es: seq<PathElement>)
    requires |g| <= 2 || Stepping(g)
    ensures DrawsAll(es, SegmentMarks(g))
  {
    if |g| <= 2 then LineElements(SegmentMarks(g)) else Spline(g)
  }

  lemma CurvesOnly(g: seq<Point>, ms: seq<real>)
    requires |ms| == |g| >= 2
    ensures var es := Curves(g, ms); es[0] == MoveTo(g[0]) && forall i | 0 < i < |es| :: IsCurve(es[i])
  {
    var es := Curves(g, ms);
    forall i | 0 < i < |es| ensures IsCurve(es[i]) {
      CurveIsCurve(g[i - 1], g[i], ms[i - 1], ms[i]);
    }
  }

  lemma CurveIsCurve(p: Point, q: Point, m: real, n: real)
    ensures IsCurve(CurveBetween(p, q, m, n))
  {}

  /** It begins with a move; one of two points goes on with a line, and one of more with curves only. */
  lemma PieceShape(g: seq<Point>)
    requires g != [] && AllDefined(g) && (|g| <= 2 || Stepping(g))
    ensures var es := MonotonePiece(g);
      && es[0] == MoveTo(g[0]) && (|g| == 2 ==> es[1] == LineTo(g[1]))
      && (|g| >= 3 ==> forall i | 0 < i < |es| :: IsCurve(es[i]))
  {
    if |g| >= 3 {
      CurvesOnly(g, Slopes(g));
    }
  }

  function MonotonePieces(segments: seq<seq<Point>>): (pieces: seq<seq<PathElement>>)
    requires AllIncreasing(segments)
    ensures |pieces| == |segments| && forall k | 0 <= k < |segments| :: pieces[k] == MonotonePiece(segments[k])
  {
    seq(|segments|, k requires 0 <= k < |segments| => MonotonePiece(segments[k]))
  }

  /** No hole hides that x goes back. */
  predicate Drawable(ps: seq<Point>, fillHoles: bool)
  {
    forall n | 0 <= n < |ps| :: GrowsOrBreaks(ps, n, fillHoles)
  }

  /** Just then every segment of the line has strictly increasing x. */
  lemma DrawableIncreases(ps: seq<Point>, fillHoles: bool)
    ensures Drawable(ps, fillHoles) <==> AllIncreasing(SplitPoints(ps, true, fillHoles).segments)
  {
    SegmentsIncrease(ps, fillHoles);
  }

  /** It is so without fillHoles, and for lines without holes. */
  lemma OftenDrawable(ps: seq<Point>, fillHoles: bool)
    requires !fillHoles || AllDefined(ps)
    ensures Drawable(ps, fillHoles)
  {
    forall n | 0 <= n < |ps| ensures GrowsOrBreaks(ps, n, fillHoles) {
      if n > 0 && AllDefined(ps) {
        assert ps[..n][n - 1].data.defined;
        assert LastDefined(ps[..n]) == n - 1;
      }
    }
  }

  /** The whole path: every segment by itself. */
  function MonotonePath(ps: seq<Point>, fillHoles: bool): seq<PathElement>
    requires Drawable(ps, fillHoles)
  {
    DrawableIncreases(ps, fillHoles);
    Flat(MonotonePieces(SplitPoints(ps, true, fillHoles).segments))
  }

  lemma {:induction false} FlatDraws(pieces: seq<seq<PathElement>>, marks: seq<seq<Mark>>)
    requires |pieces| == |marks| && forall k | 0 <= k < |pieces| :: DrawsAll(pieces[k], marks[k])
    ensures DrawsAll(Flat(pieces), Flat(marks))
  {
    if pieces != [] {
      var n := |pieces| - 1;
      FlatDraws(pieces[..n], marks[..n]);
      assert DrawsAll(pieces[n], marks[n]);
    }
  }

  /** The path has one element for each point with a value, in order, with its coordinates and data, and moves exactly
      at the points that start a segment. */
  lemma MonotonePathDraws(ps: seq<Point>, fillHoles: bool)
    requires Drawable(ps, fillHoles)
    ensures DrawsAll(MonotonePath(ps, fillHoles), Marks(ps, true, fillHoles))
  {
    var segments := SplitPoints(ps, true, fillHoles).segments;
    DrawableIncreases(ps, fillHoles);
    FlatDraws(MonotonePieces(segments), AllMarks(segments));
    SegmentsStart(ps, true, fillHoles);
  }

  // ---- lines where a hole hides that x goes back ----

  /** The recursion deals with those that are split into several segments: split again, without their holes, none hides
      anything.  A single segment of three points or more is drawn as it is, if no two neighbours have the same x. */
  predicate CanDraw(ps: seq<Point>, fillHoles: bool)
  {
    var gs := SplitPoints(ps, true, fillHoles).segments;
    |gs| == 1 && |gs[0]| > 2 ==> Stepping(gs[0])
  }

  lemma DrawableCanDraw(ps: seq<Point>, fillHoles: bool)
    requires Drawable(ps, fillHoles)
    ensures CanDraw(ps, fillHoles)
  {
    DrawableIncreases(ps, fillHoles);
  }

  /** What is left out: with fillHoles, a single segment with a step of width 0, by which its secant is divided. */
  lemma CannotDraw(ps: seq<Point>, fillHoles: bool)
    ensures !CanDraw(ps, fillHoles) <==> var gs := SplitPoints(ps, true, fillHoles).segments;
              |gs| == 1 && |gs[0]| >= 3 && exists i | 1 <= i < |gs[0]| :: gs[0][i].x == gs[0][i - 1].x
    ensures !CanDraw(ps, fillHoles) ==> fillHoles && !Drawable(ps, fillHoles)
  {
    if !fillHoles {
      OftenDrawable(ps, fillHoles);
    }
    if Drawable(ps, fillHoles) {
      DrawableCanDraw(ps, fillHoles);
    }
  }

  /** Points at 2, at `x` after a hole at `h`, and at 3. */
  function AroundHole(h: real, x: real, y: real): seq<Point>
  {
    [Point(2.0, y, Sample(0, true)), Point(h, y, Sample(1, false)), Point(x, y, Sample(2, true)),
     Point(3.0, y, Sample(3, true))]
  }

  lemma OneAroundHole(h: real, x: real, y: real)
    requires h < x <= 2.0
    ensures var ps := AroundHole(h, x, y);
      !Drawable(ps, true) && SplitPoints(ps, true, true).segments == [[ps[0], ps[2], ps[3]]]
  {
    var ps := AroundHole(h, x, y);
    var a, b, c := [ps[0]], [ps[0], ps[1]], [ps[0], ps[1], ps[2]];
    assert ps[..3] == c && ps[..2] == b && c[..2] == b && b[..1] == a && a[..0] == [];
    assert SplitPoints(a, true, true) == Split([a], false);
    assert SplitPoints(b, true, true) == Split([a], false);
    assert a + [ps[2]] == [ps[0], ps[2]] && [a][0 := [ps[0], ps[2]]] == [[ps[0], ps[2]]];
    assert [ps[0], ps[2]] + [ps[3]] == [ps[0], ps[2], ps[3]];
    assert [[ps[0], ps[2]]][0 := [ps[0], ps[2], ps[3]]] == [[ps[0], ps[2], ps[3]]];
    assert SplitPoints(c, true, true) == Split([[ps[0], ps[2]]], false);
    assert SplitPoints(ps, true, true) == Split([[ps[0], ps[2], ps[3]]], false);
    assert LastDefined(a) == 0 && LastDefined(b) == 0;
    assert !GrowsOrBreaks(ps, 2, true);
  }

  /** With a hole at 0 the line goes from 2 back to 1, and is drawn so; with a hole at 1 and the next point at 2 again,
      the code divides by 0. */
  lemma DrawnBackwards(y: real)
    ensures CanDraw(AroundHole(0.0, 1.0, y), true) && !Drawable(AroundHole(0.0, 1.0, y), true)
    ensures !CanDraw(AroundHole(1.0, 2.0, y), true)
  {
    OneAroundHole(0.0, 1.0, y);
    OneAroundHole(1.0, 2.0, y);
    var ps := AroundHole(1.0, 2.0, y);
    var g := SplitPoints(ps, true, true).segments[0];
    assert g[1 - 1].x == g[1].x;
  }

  /** The segments of a line, each drawn by the recursive call. */
  function PiecesAgain(gs: seq<seq<Point>>, fillHoles: bool): (pieces: seq<seq<PathElement>>)
    requires forall g | g in gs :: Drawable(g, fillHoles)
    ensures |pieces| == |gs| && forall k | 0 <= k < |gs| :: pieces[k] == MonotonePath(gs[k], fillHoles)
  {
    seq(|gs|, k requires 0 <= k < |gs| => assert gs[k] in gs; MonotonePath(gs[k], fillHoles))
  }

  lemma SegmentsDrawable(ps: seq<Point>, fillHoles: bool)
    ensures forall g | g in SplitPoints(ps, true, fillHoles).segments :: Drawable(g, fillHoles)
  {
    SegmentsDefined(ps, true, fillHoles);
    forall g | g in SplitPoints(ps, true, fillHoles).segments ensures Drawable(g, fillHoles) {
      OftenDrawable(g, fillHoles);
    }
  }

  function PathOf(ps: seq<Point>, fillHoles: bool): seq<PathElement>
    requires CanDraw(ps, fillHoles)
  {
    var gs := SplitPoints(ps, true, fillHoles).segments;
    DrawableIncreases(ps, fillHoles);
    SegmentsDrawable(ps, fillHoles);
    if |gs| == 1 then MonotonePiece(gs[0]) else Flat(PiecesAgain(gs, fillHoles))
  }

  /** Where nothing is hidden, splitting again changes nothing. */
  lemma PathOfDrawable(ps: seq<Point>, fillHoles: bool)
    requires Drawable(ps, fillHoles)
    ensures CanDraw(ps, fillHoles) && PathOf(ps, fillHoles) == MonotonePath(ps, fillHoles)
  {
    var gs := SplitPoints(ps, true, fillHoles).segments;
    DrawableCanDraw(ps, fillHoles);
    DrawableIncreases(ps, fillHoles);
    SegmentsDrawable(ps, fillHoles);
    SegmentsDefined(ps, true, fillHoles);
    if |gs| == 1 {
      assert gs == [gs[0]];
      OnePiece(gs[0]);
    } else {
      forall k | 0 <= k < |gs| ensures PiecesAgain(gs, fillHoles)[k] == MonotonePieces(gs)[k] {
        assert gs[k] in gs;
        OneSegmentPath(gs[k], fillHoles);
      }
      assert PiecesAgain(gs, fillHoles) == MonotonePieces(gs);
    }
  }

  /** The points of the line with values, and which of them start a curve: the first of each segment, and of each that
      the segment is split into again. */
  function MarksAgain(gs: seq<seq<Point>>, fillHoles: bool): (marks: seq<seq<Mark>>)
    ensures |marks| == |gs| && forall k | 0 <= k < |gs| :: marks[k] == Marks(gs[k], true, fillHoles)
  {
    seq(|gs|, k requires 0 <= k < |gs| => Marks(gs[k], true, fillHoles))
  }

  function PathMarks(ps: seq<Point>, fillHoles: bool): seq<Mark>
  {
    var gs := SplitPoints(ps, true, fillHoles).segments;
    if |gs| == 1 then SegmentMarks(gs[0]) else Flat(MarksAgain(gs, fillHoles))
  }

  /** One element for each point with a value, in order, with its coordinates and data, for all these lines. */
  lemma PathOfDraws(ps: seq<Point>, fillHoles: bool)
    requires CanDraw(ps, fillHoles)
    ensures DrawsAll(PathOf(ps, fillHoles), PathMarks(ps, fillHoles))
  {
    var gs := SplitPoints(ps, true, fillHoles).segments;
    AllHoleFree(ps, fillHoles);
    DrawableIncreases(ps, fillHoles);
    if |gs| != 1 {
      SegmentsDraw(gs, fillHoles);
    }
  }

  lemma PathMarking(ps: seq<Point>, fillHoles: bool)
    ensures Marking(PathMarks(ps, fillHoles), Defined(ps))
  {
    var gs := SplitPoints(ps, true, fillHoles).segments;
    AllHoleFree(ps, fillHoles);
    SegmentsPartition(ps, true, fillHoles);
    if |gs| == 1 {
      FlatOne(gs[0]);
      assert gs == [gs[0]];
    } else {
      SegmentsDraw(gs, fillHoles);
    }
  }

  lemma AllHoleFree(ps: seq<Point>, fillHoles: bool)
    ensures forall g | g in SplitPoints(ps, true, fillHoles).segments :: Drawable(g, fillHoles) && AllDefined(g)
  {
    SegmentsDrawable(ps, fillHoles);
    SegmentsDefined(ps, true, fillHoles);
  }

  lemma SegmentsDraw(gs: seq<seq<Point>>, fillHoles: bool)
    requires forall g | g in gs :: Drawable(g, fillHoles) && AllDefined(g)
    ensures DrawsAll(Flat(PiecesAgain(gs, fillHoles)), Flat(MarksAgain(gs, fillHoles)))
    ensures Marking(Flat(MarksAgain(gs, fillHoles)), Flat(gs))
  {
    var pieces, marks := PiecesAgain(gs, fillHoles), MarksAgain(gs, fillHoles);
    forall k | 0 <= k < |gs| ensures DrawsAll(pieces[k], marks[k]) && Marking(marks[k], gs[k]) {
      assert gs[k] in gs;
      AgainDraws(gs[k], fillHoles);
    }
    FlatDraws(pieces, marks);
    FlatMarking(marks, gs);
  }

  lemma AgainDraws(g: seq<Point>, fillHoles: bool)
    requires Drawable(g, fillHoles) && AllDefined(g)
    ensures DrawsAll(MonotonePath(g, fillHoles), Marks(g, true, fillHoles)) && Marking(Marks(g, true, fillHoles), g)
  {
    MonotonePathDraws(g, fillHoles);
    MarksAreDefined(g, fillHoles);
  }

  /** Marks of just these points, in order. */
  predicate Marking(marks: seq<Mark>, ps: seq<Point>)
  {
    |marks| == |ps| && forall i | 0 <= i < |ps| :: marks[i].p == ps[i]
  }

  lemma {:induction false} MarksAreDefined(g: seq<Point>, fillHoles: bool)
    requires AllDefined(g)
    ensures Marking(Marks(g, true, fillHoles), g)
  {
    if g != [] {
      MarksAreDefined(g[..|g| - 1], fillHoles);
    }
  }

  lemma {:induction false} FlatMarking(marks: seq<seq<Mark>>, gs: seq<seq<Point>>)
    requires |marks| == |gs| && forall k | 0 <= k < |gs| :: Marking(marks[k], gs[k])
    ensures Marking(Flat(marks), Flat(gs))
  {
    if gs != [] {
      var n := |gs| - 1;
      FlatMarking(marks[..n], gs[..n]);
    }
  }

  // ---- drawing a spline ----

  lemma SamePoint(pathCoordinates: seq<real>, valueData: seq<Sample>, i: nat)
    requires |pathCoordinates| == 2 * |valueData| && i < |valueData|
    ensures Points(pathCoordinates, valueData)[i]
            == Point(pathCoordinates[i * 2], pathCoordinates[i * 2 + 1], valueData[i])
  {}

  /** Widths and secants of all steps (the arrays dxs, dys and ds). */
  method FindSecants(xs: array<real>, ys: array<real>, ghost ps: seq<Point>) returns (dxs: array<real>, ds: array<real>)
    requires xs.Length == ys.Length == |ps| >= 2 && Stepping(ps)
    requires forall i | 0 <= i < |ps| :: xs[i] == ps[i].x && ys[i] == ps[i].y
    ensures fresh(dxs) && fresh(ds) && dxs.Length == ds.Length == |ps| - 1
    ensures forall i | 0 <= i < |ps| - 1 :: dxs[i] == Width(ps, i) && ds[i] == Secant(ps, i)
  {
    var n := xs.Length;
    dxs, ds := new real[n - 1], new real[n - 1];
    var dys := new real[n - 1];
    for i := 0 to n - 1
      invariant forall j | 0 <= j < i :: dxs[j] == Width(ps, j) && ds[j] == Secant(ps, j)
      modifies dxs, dys, ds
    {
      dys[i] := ys[i + 1] - ys[i];
      dxs[i] := xs[i + 1] - xs[i];
      assert dxs[i] == Width(ps, i);
      ds[i] := dys[i] / dxs[i];
    }
  }

  method FindSlope(a: real, b: real, p: real, q: real) returns (m: real)
    ensures m == Curve.Slope(a, b, p, q)
  {
    m := 0.0;
    if q != 0.0 && p != 0.0 && (p > 0.0) == (q > 0.0) {
      var s := (2.0 * b + a) / p + (b + 2.0 * a) / q;
      if s != 0.0 {
        m := 3.0 * (a + b) / s;
      }
    }
  }

  /** The slopes at all points (the array ms). */
  method FindSlopes(dxs: array<real>, ds: array<real>, ghost ps: seq<Point>) returns (ms: array<real>)
    requires dxs.Length == ds.Length == |ps| - 1 >= 1 && Stepping(ps)
    requires forall i | 0 <= i < |ps| - 1 :: dxs[i] == Width(ps, i) && ds[i] == Secant(ps, i)
    ensures fresh(ms) && ms[..] == Slopes(ps)
    ensures AllFit(ps, ms[..])
  {
    var n := dxs.Length + 1;
    ms := new real[n];
    ms[0] := ds[0];
    ms[n - 1] := ds[n - 2];
    for i := 1 to n - 1
      invariant ms[0] == SlopeAt(ps, 0) && ms[n - 1] == SlopeAt(ps, n - 1)
      invariant forall j | 0 <= j < i :: ms[j] == SlopeAt(ps, j)
      modifies ms
    {
      ms[i] := FindSlope(dxs[i - 1], dxs[i], ds[i - 1], ds[i]);
    }
    assert ms[..] == Slopes(ps);
    SlopesFit(ps);
  }

  /** The widths of the steps and the slopes. */
  method Slant(xs: array<real>, ys: array<real>, ghost ps: seq<Point>) returns (dxs: array<real>, ms: array<real>)
    requires xs.Length == ys.Length == |ps| >= 2 && Stepping(ps)
    requires forall i | 0 <= i < |ps| :: xs[i] == ps[i].x && ys[i] == ps[i].y
    ensures fresh(dxs) && fresh(ms) && dxs.Length == |ps| - 1
    ensures (forall i | 0 <= i < |ps| - 1 :: dxs[i] == Width(ps, i)) && ms[..] == Slopes(ps)
  {
    var ds;
    dxs, ds := FindSecants(xs, ys, ps);
    ms := FindSlopes(dxs, ds, ps);
  }

  method Columns(pathCoordinates: seq<real>, valueData: seq<Sample>, ghost ps: seq<Point>)
    returns (xs: array<real>, ys: array<real>)
    requires |pathCoordinates| == 2 * |valueData| && ps == Points(pathCoordinates, valueData)
    ensures fresh(xs) && fresh(ys) && xs.Length == ys.Length == |ps|
    ensures forall i | 0 <= i < |ps| :: ps[i] == Point(xs[i], ys[i], valueData[i])
  {
    var n := |pathCoordinates| / 2;
    xs, ys := new real[n], new real[n];
    for i := 0 to n
      invariant forall j | 0 <= j < i :: xs[j] == ps[j].x && ys[j] == ps[j].y
      modifies xs, ys
    {
      SamePoint(pathCoordinates, valueData, i);
      xs[i] := pathCoordinates[i * 2];
      ys[i] := pathCoordinates[i * 2 + 1];
    }
  }

  method DrawSpline(pathCoordinates: seq<real>, valueData: seq<Sample>) returns (path: SvgPath<Sample>)
    requires |pathCoordinates| == 2 * |valueData| && |valueData| >= 3 && Stepping(Points(pathCoordinates, valueData))
    ensures fresh(path) && path.Valid() && path.pathElements == Spline(Points(pathCoordinates, valueData))
  {
    ghost var ps := Points(pathCoordinates, valueData);
    var xs, ys := Columns(pathCoordinates, valueData, ps);
    var dxs, ms := Slant(xs, ys, ps);
    path := DrawCurves(xs, ys, dxs, ms, valueData, ps, Spline(ps));
  }

  method DrawCurves(xs: array<real>, ys: array<real>, dxs: array<real>, ms: array<real>, valueData: seq<Sample>,
                    ghost ps: seq<Point>, ghost es: seq<PathElement>) returns (path: SvgPath<Sample>)
    requires xs.Length == ys.Length == ms.Length == |valueData| == |ps| == dxs.Length + 1 >= 2 && Stepping(ps)
    requires forall i | 0 <= i < |ps| :: ps[i] == Point(xs[i], ys[i], valueData[i])
    requires forall i | 0 <= i < |ps| - 1 :: dxs[i] == Width(ps, i)
    requires |es| == |ps| && es[0] == MoveTo(ps[0])
    requires forall i | 0 < i < |ps| :: es[i] == CurveBetween(ps[i - 1], ps[i], ms[i - 1], ms[i])
    ensures fresh(path) && path.Valid() && path.pathElements == es
  {
    path := new SvgPath(false, DEFAULT_ACCURACY);
    path.Move(Num(xs[0]), Num(ys[0]), false, Data(valueData[0]));
    for i := 0 to xs.Length - 1
      invariant path.Valid() && path.pos == |path.pathElements| == i + 1
      invariant path.pathElements == es[..i + 1]
      modifies path
    {
      DrawCurve(path, ps[i], ps[i + 1], xs[i], ys[i], xs[i + 1], ys[i + 1], dxs[i], ms[i], ms[i + 1], valueData[i + 1]);
      assert es[..i + 2] == es[..i + 1] + [es[i + 1]];
    }
  }

  /** One curve more, to the point (z, u) with data `data`. */
  method DrawCurve(path: SvgPath<Sample>, ghost p: Point, ghost q: Point, x: real, y: real, z: real, u: real, w: real,
                   m: real, n: real, data: Sample)
    requires path.Valid() && path.pos == |path.pathElements|
    requires p.x == x && p.y == y && q == Point(z, u, data) && w == z - x
    modifies path
    ensures path.Valid() && path.pos == |path.pathElements|
    ensures path.pathElements == old(path.pathElements) + [CurveBetween(p, q, m, n)]
  {
    var x1, y1 := x + w / 3.0, y + m * w / 3.0;
    var x2, y2 := z - w / 3.0, u - n * w / 3.0;
    Controls(p, q, w, m, n, x1, y1, x2, y2);
    path.Curve(Num(x1), Num(y1), Num(x2), Num(y2), Num(z), Num(u), false, Data(data));
  }

  lemma Controls(p: Point, q: Point, w: real, m: real, n: real, x1: real, y1: real, x2: real, y2: real)
    requires w == q.x - p.x
    requires x1 == p.x + w / 3.0 && y1 == p.y + m * w / 3.0 && x2 == q.x - w / 3.0 && y2 == q.y - n * w / 3.0
    ensures CurveBetween(p, q, m, n) == CurveTo(x1, y1, x2, y2, q)
  {
    assert m * w == m * (q.x - p.x) && n * w == n * (q.x - p.x);
    assert FirstControl(p, q, m) == Control(x1, y1) && LastControl(p, q, n) == Control(x2, y2);
  }

  // ---- the interpolations ----

  lemma HoldingMore(paths: seq<SvgPath<Sample>>, pieces: seq<seq<PathElement>>, p: SvgPath<Sample>)
    requires Holding(paths, pieces) && p.Valid()
    ensures Holding(paths + [p], pieces + [p.pathElements])
  {}

  lemma HoldingContents(paths: seq<SvgPath<Sample>>, pieces: seq<seq<PathElement>>)
    requires Holding(paths, pieces)
    ensures Contents(paths) == pieces && forall p | p in paths :: p.Valid()
  {}

  /** Monotone cubic interpolation: every segment by itself, joined to one path. */
  method MonotoneCubic(pathCoordinates: seq<real>, valueData: seq<Sample>, fillHoles: bool)
    returns (path: SvgPath<Sample>)
    requires |pathCoordinates| == 2 * |valueData| && CanDraw(Points(pathCoordinates, valueData), fillHoles)
    ensures fresh(path) && path.Valid()
    ensures path.pathElements == PathOf(Points(pathCoordinates, valueData), fillHoles)
    decreases |valueData|, 3
  {
    ghost var ps := Points(pathCoordinates, valueData);
    var segments := SplitIntoSegments(pathCoordinates, valueData, true, fillHoles);
    ghost var gs := SplitPoints(ps, true, fillHoles).segments;
    DrawableIncreases(ps, fillHoles);
    SegmentsDrawable(ps, fillHoles);
    SegmentsDefined(ps, true, fillHoles);
    if |segments| == 0 {
      path := None([], [], false);
      assert Points([], []) == [];
    } else if |segments| > 1 {
      path := MonotoneSegments(segments, fillHoles, gs, PiecesAgain(gs, fillHoles), |valueData|);
    } else {
      path := DrawSegment(segments[0].pathCoordinates, segments[0].valueData, gs[0]);
    }
  }

  /** One call for each of several segments, and the paths joined. */
  method MonotoneSegments(segments: seq<Segment>, fillHoles: bool, ghost gs: seq<seq<Point>>,
                          ghost pieces: seq<seq<PathElement>>,
                          ghost n: nat) returns (path: SvgPath<Sample>)
    requires |segments| == |gs| == |pieces|
    requires forall k | 0 <= k < |gs| :: MonotoneSegment(segments[k], gs[k], pieces[k], n, fillHoles)
    ensures fresh(path) && path.Valid() && path.pathElements == Flat(pieces)
    decreases n, 2
  {
    var paths := MonotonePaths(segments, fillHoles, gs, pieces, n);
    HoldingContents(paths, pieces);
    path := SvgPaths.Join(paths, false, DEFAULT_ACCURACY);
  }

  method MonotonePaths(segments: seq<Segment>, fillHoles: bool, ghost gs: seq<seq<Point>>,
                       ghost pieces: seq<seq<PathElement>>,
                       ghost n: nat) returns (paths: seq<SvgPath<Sample>>)
    requires |segments| == |gs| == |pieces|
    requires forall k | 0 <= k < |gs| :: MonotoneSegment(segments[k], gs[k], pieces[k], n, fillHoles)
    ensures Holding(paths, pieces)
    decreases n, 1
  {
    paths := [];
    for i := 0 to |segments|
      invariant |paths| == i && (forall p | p in paths :: fresh(p)) && Holding(paths, pieces[..i])
    {
      var p := MonotoneAgain(segments[i], fillHoles, gs[i], pieces[i], n);
      TakeOneMore(pieces, i);
      HoldingMore(paths, pieces[..i], p);
      paths := paths + [p];
    }
    assert pieces[..|paths|] == pieces;
  }

  /** A segment of points with values, fewer than `n`. */
  predicate Segmented(s: Segment, g: seq<Point>, n: nat)
  {
    s == Flattened(g) && g != [] && AllDefined(g) && |g| < n
  }

  predicate MonotoneSegment(s: Segment, g: seq<Point>, piece: seq<PathElement>, n: nat, fillHoles: bool)
  {
    Segmented(s, g, n) && Drawable(g, fillHoles) && piece == MonotonePath(g, fillHoles)
  }

  /** The recursive call for a segment: split again, it stays one unless a hole in it hid that x goes back. */
  method MonotoneAgain(s: Segment, fillHoles: bool, ghost g: seq<Point>, ghost piece: seq<PathElement>, ghost n: nat)
    returns (path: SvgPath<Sample>)
    requires MonotoneSegment(s, g, piece, n, fillHoles)
    ensures fresh(path) && path.Valid() && path.pathElements == piece
    decreases n, 0
  {
    PointsFlattened(g);
    PathOfDrawable(g, fillHoles);
    path := MonotoneCubic(s.pathCoordinates, s.valueData, fillHoles);
  }

  /** Two points at most are joined by a line, more by a spline. */
  method DrawSegment(pathCoordinates: seq<real>, valueData: seq<Sample>, ghost g: seq<Point>)
    returns (path: SvgPath<Sample>)
    requires Segment(pathCoordinates, valueData) == Flattened(g) && g != [] && AllDefined(g)
    requires |g| <= 2 || Stepping(g)
    ensures fresh(path) && path.Valid() && path.pathElements == MonotonePiece(g)
  {
    PointsFlattened(g);
    OneSegmentMarks(g);
    if |pathCoordinates| <= 4 {
      path := None(pathCoordinates, valueData, false);
    } else {
      path := DrawSpline(pathCoordinates, valueData);
    }
  }

  /** A segment is drawn as such. */
  lemma OneSegmentPath(g: seq<Point>, fillHoles: bool)
    requires g != [] && AllDefined(g) && Increasing(g)
    ensures Drawable(g, fillHoles)
    ensures MonotonePath(g, fillHoles) == MonotonePiece(g) && Marks(g, false, false) == SegmentMarks(g)
  {
    OneSegment(g, true, fillHoles);
    DrawableIncreases(g, fillHoles);
    OnePiece(g);
    OneSegmentMarks(g);
  }

  lemma OnePiece(g: seq<Point>)
    requires Increasing(g)
    ensures AllIncreasing([g]) && Flat(MonotonePieces([g])) == MonotonePiece(g)
  {
    assert MonotonePieces([g]) == [MonotonePiece(g)];
    FlatOne(MonotonePiece(g));
  }

  lemma OneSegmentMarks(g: seq<Point>)
    requires g != [] && AllDefined(g)
    ensures Marks(g, false, false) == SegmentMarks(g)
  {
    OneSegment(g, false, false);
    SegmentsStart(g, false, false);
    assert AllMarks([g]) == [SegmentMarks(g)];
    FlatOne(SegmentMarks(g));
  }
}
