/** Cardinal interpolation. */
module Cardinal {
  import opened Interpolation
  import opened Numerals
  import opened PathText
  import opened Segments
  import opened Sequences
  import opened SvgPaths

  function Tension(tension: real): real
  {
    if tension < 0.0 then 0.0 else if tension > 1.0 then 1.0 else tension
  }

  /** The tension given, as far as it is between 0 and 1, and the nearer end of that range if it is not. */
  lemma TensionNearest(tension: real, u: real)
    requires 0.0 <= u <= 1.0
    ensures var t := Tension(tension);
      && 0.0 <= t <= 1.0 && (tension <= t <= u || u <= t <= tension)
      && (0.0 <= tension <= 1.0 ==> t == tension)
  {}

  function First(o: real, p: real, q: real, t: real): real
  {
    t * (-o + 6.0 * p + q) / 6.0 + (1.0 - t) * q
  }

  function Last(p: real, q: real, r: real, t: real): real
  {
    t * (p + 6.0 * q - r) / 6.0 + (1.0 - t) * q
  }

  /** The curve from `p` to `q`, where `o` comes before and `r` after. */
  function CardinalCurve(o: Control, p: Control, q: Control, r: Control, t: real, data: Sample): PathElement
  {
    CurveTo(First(o.x, p.x, q.x, t), First(o.y, p.y, q.y, t), Last(p.x, q.x, r.x, t), Last(p.y, q.y, r.y, t),
            Point(q.x, q.y, data))
  }

  function Place(p: Point): Control
  {
    Control(p.x, p.y)
  }

  /** At the ends the missing neighbour is the end itself. */
  function CurveAt(ps: seq<Point>, i: nat, t: real): PathElement
    requires i + 1 < |ps|
  {
    CardinalCurve(Place(ps[if i == 0 then 0 else i - 1]), Place(ps[i]), Place(ps[i + 1]),
                  Place(ps[if i + 2 == |ps| then i + 1 else i + 2]), t, ps[i + 1].data)
  }

  function CardinalCurves(ps: seq<Point>, t: real): (es: seq<PathElement>)
    requires |ps| >= 2
    ensures DrawsAll(es, SegmentMarks(ps))
    ensures forall i | 0 < i < |ps| :: es[i] == CurveAt(ps, i - 1, t)
  {
    [MoveTo(ps[0])] + seq(|ps| - 1, i requires 0 <= i < |ps| - 1 => CurveAt(ps, i, t))
  }

  /** How far a coordinate is from the control points next to it on a curve from `p` to `q`, where `o` comes before and
      `r` after. */
  function HandleFrom(o: real, p: real, q: real, t: real): real
  {
    t * (q - o) / 6.0 + (1.0 - t) * (q - p)
  }

  function HandleTo(p: real, r: real, t: real): real
  {
    t * (r - p) / 6.0
  }

  /** The handles on both sides of a coordinate `p` between `o` and `q`: equal for full tension only, unless the curve
      does not move. */
  lemma HandlesMeet(o: real, p: real, q: real, t: real)
    ensures var before, after := p - Last(o, p, q, t), First(o, p, q, t) - p;
      && before == HandleTo(o, q, t) && after == HandleFrom(o, p, q, t)
      && (before == after <==> t == 1.0 || p == q)
  {
    var u := 1.0 - t;
    assert t * (o + 6.0 * p - q) / 6.0 == t * (o - q) / 6.0 + t * p;
    assert t * (-o + 6.0 * p + q) / 6.0 == t * (q - o) / 6.0 + t * p;
    assert t * (o - q) == -(t * (q - o));
    assert u * p + t * p == p && u * q - u * p == u * (q - p);
    ZeroProduct(u, q - p);
  }

  lemma ZeroProduct(a: real, b: real)
    ensures a * b == 0.0 <==> a == 0.0 || b == 0.0
  {}

  lemma CurveHandles(o: Control, p: Control, q: Control, r: Control, t: real, data: Sample, at: Point)
    requires at.x == p.x && at.y == p.y
    ensures var e := CardinalCurve(o, p, q, r, t, data);
      && IsCurve(e)
      && Outgoing(at, e) == Handle(First(o.x, p.x, q.x, t) - p.x, First(o.y, p.y, q.y, t) - p.y)
      && Incoming(e) == Handle(q.x - Last(p.x, q.x, r.x, t), q.y - Last(p.y, q.y, r.y, t))
  {}

  /** The handles of every curve: at its end a sixth of the way from its start to the point after its end, tensioned,
      and at its start a sixth of the way from the point before it to its end, tensioned, and the untensioned part of
      its own way; at the ends of the line the missing neighbour is the end itself. */
  lemma CardinalHandles(ps: seq<Point>, i: nat, t: real)
    requires i + 1 < |ps|
    ensures var e, p, q := CardinalCurves(ps, t)[i + 1], ps[i], ps[i + 1];
      var o, r := if i == 0 then p else ps[i - 1], if i + 2 == |ps| then q else ps[i + 2];
      && IsCurve(e)
      && Outgoing(p, e) == Handle(HandleFrom(o.x, p.x, q.x, t), HandleFrom(o.y, p.y, q.y, t))
      && Incoming(e) == Handle(HandleTo(p.x, r.x, t), HandleTo(p.y, r.y, t))
  {
    var p, q := ps[i], ps[i + 1];
    var o, r := if i == 0 then p else ps[i - 1], if i + 2 == |ps| then q else ps[i + 2];
    CurveHandles(Place(o), Place(p), Place(q), Place(r), t, q.data, p);
    HandlesMeet(o.x, p.x, q.x, t);
    HandlesMeet(o.y, p.y, q.y, t);
    HandlesMeet(p.x, q.x, r.x, t);
    HandlesMeet(p.y, q.y, r.y, t);
  }

  /** At an inner point the curves on both sides meet with equal handles exactly for full tension, or where the next
      point is the same. */
  lemma CardinalIsSmooth(ps: seq<Point>, i: nat, t: real)
    requires 0 < i < |ps| - 1
    ensures var e, f := CardinalCurves(ps, t)[i], CardinalCurves(ps, t)[i + 1];
      && IsCurve(e) && IsCurve(f)
      && (Incoming(e) == Outgoing(ps[i], f) <==> t == 1.0 || (ps[i].x == ps[i + 1].x && ps[i].y == ps[i + 1].y))
  {
    HandlesMeet(ps[i - 1].x, ps[i].x, ps[i + 1].x, t);
    HandlesMeet(ps[i - 1].y, ps[i].y, ps[i + 1].y, t);
  }

  function CardinalPiece(g: seq<Point>, t: real): (es: seq<PathElement>)
    ensures DrawsAll(es, SegmentMarks(g))
  {
    if |g| <= 2 then LineElements(SegmentMarks(g)) else CardinalCurves(g, t)
  }

  /** It begins with a move; one of two points goes on with a line, and one of more with curves only. */
  lemma CardinalShape(g: seq<Point>, t: real)
    requires g != []
    ensures var es := CardinalPiece(g, t);
      && es[0] == MoveTo(g[0]) && (|g| == 2 ==> es[1] == LineTo(g[1]))
      && (|g| >= 3 ==> forall i | 0 < i < |es| :: IsCurve(es[i]))
  {
    if |g| >= 3 {
      forall i | 0 < i < |g| ensures IsCurve(CardinalCurves(g, t)[i]) {
        CardinalHandles(g, i - 1, t);
      }
    }
  }

  function CardinalPieces(segments: seq<seq<Point>>, t: real): (pieces: seq<seq<PathElement>>)
    ensures |pieces| == |segments| && forall k | 0 <= k < |segments| :: pieces[k] == CardinalPiece(segments[k], t)
  {
    seq(|segments|, k requires 0 <= k < |segments| => CardinalPiece(segments[k], t))
  }

  function CardinalPath(ps: seq<Point>, t: real, fillHoles: bool): seq<PathElement>
  {
    Flat(CardinalPieces(SplitPoints(ps, false, fillHoles).segments, t))
  }

  /** The path has one element for each point with a value, in order, with its coordinates and data, and moves exactly
      at the points that start a segment. */
  lemma CardinalPathDraws(ps: seq<Point>, t: real, fillHoles: bool)
    ensures DrawsAll(CardinalPath(ps, t, fillHoles), Marks(ps, false, fillHoles))
  {
    var segments := SplitPoints(ps, false, fillHoles).segments;
    FlatDraws(CardinalPieces(segments, t), AllMarks(segments));
    SegmentsStart(ps, false, fillHoles);
  }

  lemma OneCardinalSegment(g: seq<Point>, t: real, fillHoles: bool)
    requires g != [] && AllDefined(g)
    ensures CardinalPath(g, t, fillHoles) == CardinalPiece(g, t) && Marks(g, false, false) == SegmentMarks(g)
  {
    OneSegment(g, false, fillHoles);
    assert CardinalPieces([g], t) == [CardinalPiece(g, t)];
    FlatOne(CardinalPiece(g, t));
    OneSegment(g, false, false);
    SegmentsStart(g, false, false);
    assert AllMarks([g]) == [SegmentMarks(g)];
    FlatOne(SegmentMarks(g));
  }

  /** Cardinal interpolation: every segment by itself, joined to one path. */
  method DrawCardinal(pathCoordinates: seq<real>, valueData: seq<Sample>, tension: real, fillHoles: bool)
    returns (path: SvgPath<Sample>)
    requires |pathCoordinates| == 2 * |valueData|
    ensures fresh(path) && path.Valid()
    ensures path.pathElements == CardinalPath(Points(pathCoordinates, valueData), Tension(tension), fillHoles)
    decreases |valueData|, 2
  {
    ghost var ps := Points(pathCoordinates, valueData);
    var t := if tension < 0.0 then 0.0 else if tension > 1.0 then 1.0 else tension;
    var segments := SplitIntoSegments(pathCoordinates, valueData, false, fillHoles);
    ghost var gs := SplitPoints(ps, false, fillHoles).segments;
    SegmentsDefined(ps, false, fillHoles);
    if |segments| == 0 {
      path := None([], [], false);
      assert Points([], []) == [];
    } else if |segments| > 1 {
      path := DrawSegments(segments, tension, fillHoles, gs, CardinalPieces(gs, t), |valueData|);
    } else {
      path := DrawSegment(segments[0].pathCoordinates, segments[0].valueData, t, gs[0]);
      assert CardinalPieces(gs, t) == [CardinalPiece(gs[0], t)];
      FlatOne(CardinalPiece(gs[0], t));
    }
  }

  /** One call for each of several segments, and the paths joined. */
  method DrawSegments(segments: seq<Segment>, tension: real, fillHoles: bool, ghost gs: seq<seq<Point>>,
                      ghost pieces: seq<seq<PathElement>>, ghost n: nat) returns (path: SvgPath<Sample>)
    requires |segments| == |gs| == |pieces|
    requires forall k | 0 <= k < |gs| :: CardinalSegment(segments[k], gs[k], pieces[k], n, tension)
    ensures fresh(path) && path.Valid() && path.pathElements == Flat(pieces)
    decreases n, 1
  {
    var paths: seq<SvgPath<Sample>> := [];
    for i := 0 to |segments|
      invariant |paths| == i && (forall p | p in paths :: fresh(p)) && Holding(paths, pieces[..i])
    {
      var p := DrawAgain(segments[i], tension, fillHoles, gs[i], pieces[i], n);
      TakeOneMore(pieces, i);
      HoldingMore(paths, pieces[..i], p);
      paths := paths + [p];
    }
    assert pieces[..|paths|] == pieces;
    HoldingContents(paths, pieces);
    path := SvgPaths.Join(paths, false, DEFAULT_ACCURACY);
  }

  predicate CardinalSegment(s: Segment, g: seq<Point>, piece: seq<PathElement>, n: nat, tension: real)
  {
    Segmented(s, g, n) && piece == CardinalPiece(g, Tension(tension))
  }

  /** The recursive call for a segment: split again, it stays one. */
  method DrawAgain(s: Segment, tension: real, fillHoles: bool, ghost g: seq<Point>, ghost piece: seq<PathElement>,
                   ghost n: nat)
    returns (path: SvgPath<Sample>)
    requires CardinalSegment(s, g, piece, n, tension)
    ensures fresh(path) && path.Valid() && path.pathElements == piece
    decreases n, 0
  {
    PointsFlattened(g);
    OneCardinalSegment(g, Tension(tension), fillHoles);
    path := DrawCardinal(s.pathCoordinates, s.valueData, tension, fillHoles);
  }

  method DrawSegment(pathCoordinates: seq<real>, valueData: seq<Sample>, t: real, ghost g: seq<Point>)
    returns (path: SvgPath<Sample>)
    requires Segment(pathCoordinates, valueData) == Flattened(g) && g != [] && AllDefined(g)
    ensures fresh(path) && path.Valid() && path.pathElements == CardinalPiece(g, t)
  {
    PointsFlattened(g);
    OneCardinalSegment(g, t, false);
    if |pathCoordinates| <= 4 {
      path := None(pathCoordinates, valueData, false);
    } else {
      path := DrawCurves(pathCoordinates, valueData, t, g, CardinalCurves(g, t));
    }
  }

  method DrawCurves(pathCoordinates: seq<real>, valueData: seq<Sample>, t: real, ghost g: seq<Point>,
                    ghost es: seq<PathElement>)
    returns (path: SvgPath<Sample>)
    requires Segment(pathCoordinates, valueData) == Flattened(g) && |es| == |g| >= 2
    requires es[0] == MoveTo(g[0]) && forall i | 0 < i < |g| :: es[i] == CurveAt(g, i - 1, t)
    ensures fresh(path) && path.Valid() && path.pathElements == es
  {
    path := new SvgPath(false, DEFAULT_ACCURACY);
    path.Move(Num(pathCoordinates[0]), Num(pathCoordinates[1]), false, Data(valueData[0]));
    ghost var n := 0;
    var i, iLen := 0, |pathCoordinates|;
    while iLen - 2 > i
      invariant i == 2 * n && n + 1 <= |g| && path.Valid() && path.pos == |path.pathElements| == n + 1
      invariant path.pathElements == es[..n + 1]
      modifies path
      decreases iLen - i
    {
      var p1, p2 := At(pathCoordinates, i), At(pathCoordinates, i + 2);
      var p0 := if i == 0 then p1 else At(pathCoordinates, i - 2);
      var p3 := if iLen - 4 == i then p2 else At(pathCoordinates, i + 4);
      CurveFrom(g, n, t, p0, p1, p2, p3);
      assert (i + 2) / 2 == n + 1;
      DrawCardinalCurve(path, p0, p1, p2, p3, t, valueData[(i + 2) / 2]);
      TakeOneMore(es, n + 1);
      n, i := n + 1, i + 2;
    }
  }

  lemma CurveFrom(g: seq<Point>, n: nat, t: real, p0: Control, p1: Control, p2: Control, p3: Control)
    requires n + 1 < |g| && p1 == Place(g[n]) && p2 == Place(g[n + 1])
    requires p0 == Place(g[if n == 0 then 0 else n - 1]) && p3 == Place(g[if n + 2 == |g| then n + 1 else n + 2])
    ensures CurveAt(g, n, t) == CardinalCurve(p0, p1, p2, p3, t, g[n + 1].data)
  {}

  method DrawCardinalCurve(path: SvgPath<Sample>, o: Control, p: Control, q: Control, r: Control, t: real, data: Sample)
    requires path.Valid() && path.pos == |path.pathElements|
    modifies path
    ensures path.Valid() && path.pos == |path.pathElements|
    ensures path.pathElements == old(path.pathElements) + [CardinalCurve(o, p, q, r, t, data)]
  {
    var x1, y1 := First(o.x, p.x, q.x, t), First(o.y, p.y, q.y, t);
    var x2, y2 := Last(p.x, q.x, r.x, t), Last(p.y, q.y, r.y, t);
    path.Curve(Num(x1), Num(y1), Num(x2), Num(y2), Num(q.x), Num(q.y), false, Data(data));
  }

  function At(pathCoordinates: seq<real>, i: nat): Control
    requires i + 1 < |pathCoordinates|
  {
    Control(pathCoordinates[i], pathCoordinates[i + 1])
  }
}
