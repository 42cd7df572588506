/** Splitting the points of a line into segments (`splitIntoSegments`). */
module Segments {
  import opened Sequences

  /** The data of a point: with a value, or a hole. */
  datatype Sample = Sample(id: int, defined: bool)

  datatype Point = Point(x: real, y: real, data: Sample)

  /** Points as the functions pass them around: coordinates one after another, and the data apart. */
  datatype Segment = Segment(pathCoordinates: seq<real>, valueData: seq<Sample>)

  function Coordinates(ps: seq<Point>): (c: seq<real>)
    ensures |c| == 2 * |ps| && forall i | 0 <= i < |ps| :: c[2 * i] == ps[i].x && c[2 * i + 1] == ps[i].y
  {
    if ps == [] then [] else Coordinates(ps[..|ps| - 1]) + [ps[|ps| - 1].x, ps[|ps| - 1].y]
  }

  function Samples(ps: seq<Point>): (s: seq<Sample>)
    ensures |s| == |ps| && forall i | 0 <= i < |ps| :: s[i] == ps[i].data
  {
    seq(|ps|, i requires 0 <= i < |ps| => ps[i].data)
  }

  function Flattened(ps: seq<Point>): Segment
  {
    Segment(Coordinates(ps), Samples(ps))
  }

  /** The points that coordinates and data stand for. */
  function Points(pathCoordinates: seq<real>, valueData: seq<Sample>): (ps: seq<Point>)
    requires |pathCoordinates| == 2 * |valueData|
    ensures |ps| == |valueData|
  {
    seq(|valueData|, i requires 0 <= i < |valueData| =>
      Point(pathCoordinates[2 * i], pathCoordinates[2 * i + 1], valueData[i]))
  }

  lemma PointsFlattened(ps: seq<Point>)
    ensures Points(Coordinates(ps), Samples(ps)) == ps
  {}

  /** The segments of some points and whether a new point with a value would start another. */
  datatype Split = Split(segments: seq<seq<Point>>, hole: bool)

  /** The point at `n` does not lie to the right of the one before it. */
  predicate TurnsBack(ps: seq<Point>, n: nat)
    requires n < |ps|
  {
    n >= 1 && ps[n].x <= ps[n - 1].x
  }

  function SplitPoints(ps: seq<Point>, increasingX: bool, fillHoles: bool): (s: Split)
    ensures !s.hole ==> s.segments != []
  {
    if ps == [] then Split([], true)
    else
      var n := |ps| - 1;
      var s, p := SplitPoints(ps[..n], increasingX, fillHoles), ps[n];
      if !p.data.defined then Split(s.segments, s.hole || !fillHoles)
      else if s.hole || (increasingX && TurnsBack(ps, n)) then Split(s.segments + [[p]], false)
      else
        var last := |s.segments| - 1;
        Split(s.segments[last := s.segments[last] + [p]], false)
  }

  /** The points with values. */
  function Defined(ps: seq<Point>): seq<Point>
  {
    if ps == [] then []
    else Defined(ps[..|ps| - 1]) + if ps[|ps| - 1].data.defined then [ps[|ps| - 1]] else []
  }

  /** The segments hold exactly the points with values, in order. */
  lemma {:induction false} SegmentsPartition(ps: seq<Point>, increasingX: bool, fillHoles: bool)
    ensures Flat(SplitPoints(ps, increasingX, fillHoles).segments) == Defined(ps)
  {
    if ps != [] {
      var n := |ps| - 1;
      SegmentsPartition(ps[..n], increasingX, fillHoles);
      var s, p := SplitPoints(ps[..n], increasingX, fillHoles), ps[n];
      if p.data.defined {
        FlatAppended(s.segments, [p]);
        if s.segments != [] {
          FlatExtended(s.segments, p);
        }
      }
    }
  }

  predicate Increasing(ps: seq<Point>)
  {
    forall i | 1 <= i < |ps| :: ps[i - 1].x < ps[i].x
  }

  predicate AllIncreasing(segments: seq<seq<Point>>)
  {
    forall k | 0 <= k < |segments| :: Increasing(segments[k])
  }

  /** The last point with a value, if any. */
  function LastDefined(ps: seq<Point>): (j: int)
    ensures -1 <= j < |ps| && (j >= 0 ==> ps[j].data.defined) && forall i | j < i < |ps| :: !ps[i].data.defined
  {
    if ps == [] then -1
    else if ps[|ps| - 1].data.defined then |ps| - 1
    else LastDefined(ps[..|ps| - 1])
  }

  /** The last segment ends with the last point that has a value. */
  lemma {:induction false} LastOfSegments(ps: seq<Point>, increasingX: bool, fillHoles: bool)
    ensures var s, j := SplitPoints(ps, increasingX, fillHoles), LastDefined(ps);
      && (s.segments == [] <==> j == -1)
      && (j >= 0 ==> var g := s.segments[|s.segments| - 1]; g != [] && g[|g| - 1] == ps[j])
      && s.hole == (j == -1 || (!fillHoles && j != |ps| - 1))
  {
    if ps != [] {
      LastOfSegments(ps[..|ps| - 1], increasingX, fillHoles);
    }
  }

  /** Between a point with a value and the last one with a value before it, x grows or a new segment starts. */
  predicate GrowsOrBreaks(ps: seq<Point>, n: nat, fillHoles: bool)
    requires n < |ps|
  {
    var j := LastDefined(ps[..n]);
    ps[n].data.defined && j >= 0 && (fillHoles || j == n - 1) ==> ps[j].x < ps[n].x || TurnsBack(ps, n)
  }

  lemma AppendIncreasing(g: seq<Point>, p: Point)
    ensures Increasing(g + [p]) <==> Increasing(g) && (g != [] ==> g[|g| - 1].x < p.x)
  {
    if Increasing(g + [p]) {
      forall i | 1 <= i < |g| ensures g[i - 1].x < g[i].x {
        assert (g + [p])[i - 1].x < (g + [p])[i].x;
      }
      if g != [] {
        assert (g + [p])[|g| - 1].x < (g + [p])[|g|].x;
      }
    }
  }

  lemma AllIncreasingAppended(segments: seq<seq<Point>>, p: Point)
    ensures AllIncreasing(segments + [[p]]) <==> AllIncreasing(segments)
  {
    var more := segments + [[p]];
    if AllIncreasing(more) {
      assert forall k | 0 <= k < |segments| :: segments[k] == more[k];
    }
  }

  lemma AllIncreasingExtended(segments: seq<seq<Point>>, p: Point)
    requires segments != [] && segments[|segments| - 1] != []
    ensures var last := |segments| - 1;
      var g := segments[last];
      AllIncreasing(segments[last := g + [p]]) <==> AllIncreasing(segments) && g[|g| - 1].x < p.x
  {
    var last := |segments| - 1;
    var g := segments[last];
    var more := segments[last := g + [p]];
    AppendIncreasing(g, p);
    if AllIncreasing(more) {
      assert Increasing(more[last]);
      assert forall k | 0 <= k < last :: segments[k] == more[k];
    }
  }

  lemma GrowsPrefix(ps: seq<Point>, fillHoles: bool)
    requires ps != []
    ensures var n := |ps| - 1;
      (forall i | 0 <= i < |ps| :: GrowsOrBreaks(ps, i, fillHoles))
      <==> GrowsOrBreaks(ps, n, fillHoles) && forall i | 0 <= i < n :: GrowsOrBreaks(ps[..n], i, fillHoles)
  {
    var n := |ps| - 1;
    forall i | 0 <= i < n ensures GrowsOrBreaks(ps, i, fillHoles) == GrowsOrBreaks(ps[..n], i, fillHoles) {
      assert ps[..n][..i] == ps[..i];
    }
  }

  /** One more point with a value: the segments go on increasing exactly if it grows or breaks. */
  lemma IncreaseNext(ps: seq<Point>, fillHoles: bool)
    requires ps != [] && ps[|ps| - 1].data.defined
    ensures var n := |ps| - 1;
      AllIncreasing(SplitPoints(ps, true, fillHoles).segments)
      <==> AllIncreasing(SplitPoints(ps[..n], true, fillHoles).segments) && GrowsOrBreaks(ps, n, fillHoles)
  {
    var n := |ps| - 1;
    LastOfSegments(ps[..n], true, fillHoles);
    var s, p := SplitPoints(ps[..n], true, fillHoles), ps[n];
    if s.hole || TurnsBack(ps, n) {
      AllIncreasingAppended(s.segments, p);
    } else {
      AllIncreasingExtended(s.segments, p);
    }
  }

  /** With increasingX, every segment has strictly increasing x exactly when x grows from each point with a value to
      the next one with a value, or does not grow from the raw point just before it; a hole in between may lie to the
      left of both. */
  lemma {:induction false} SegmentsIncrease(ps: seq<Point>, fillHoles: bool)
    ensures AllIncreasing(SplitPoints(ps, true, fillHoles).segments) <==>
            forall n | 0 <= n < |ps| :: GrowsOrBreaks(ps, n, fillHoles)
  {
    if ps == [] {
    } else {
      SegmentsIncrease(ps[..|ps| - 1], fillHoles);
      GrowsPrefix(ps, fillHoles);
      if ps[|ps| - 1].data.defined {
        IncreaseNext(ps, fillHoles);
      }
    }
  }

  /** Without fillHoles there is no exception: with increasingX every segment has strictly increasing x. */
  lemma SegmentsIncreaseAlways(ps: seq<Point>)
    ensures AllIncreasing(SplitPoints(ps, true, false).segments)
  {
    SegmentsIncrease(ps, false);
  }

  /** With fillHoles there is one: a hole to the left of both its neighbours hides that x does not grow. */
  lemma HoleHidesDecrease(y: real)
    ensures var ps := [Point(2.0, y, Sample(0, true)), Point(0.0, y, Sample(1, false)), Point(1.0, y, Sample(2, true))];
      !AllIncreasing(SplitPoints(ps, true, true).segments)
  {
    var ps := [Point(2.0, y, Sample(0, true)), Point(0.0, y, Sample(1, false)), Point(1.0, y, Sample(2, true))];
    assert ps[..2][..1] == ps[..1];
    assert LastDefined(ps[..1]) == 0 && LastDefined(ps[..2]) == 0;
    assert !GrowsOrBreaks(ps, 2, true);
    SegmentsIncrease(ps, true);
  }

  predicate AllDefined(ps: seq<Point>)
  {
    forall i | 0 <= i < |ps| :: ps[i].data.defined
  }

  /** A line of points with values, growing in x where that is asked for, is one segment. */
  lemma {:induction false} OneSegment(ps: seq<Point>, increasingX: bool, fillHoles: bool)
    requires ps != [] && AllDefined(ps) && (increasingX ==> Increasing(ps))
    ensures SplitPoints(ps, increasingX, fillHoles) == Split([ps], false)
  {
    var n := |ps| - 1;
    assert ps == ps[..n] + [ps[n]];
    if n > 0 {
      OneSegment(ps[..n], increasingX, fillHoles);
    } else {
      assert ps[..n] == [];
      assert ps == [ps[0]];
    }
  }

  /** Segments of points with values, at most `n` of them each, and fewer where there are several segments. */
  predicate Fit(segments: seq<seq<Point>>, n: nat)
  {
    forall k | 0 <= k < |segments| ::
      AllDefined(segments[k]) && segments[k] != [] && |segments[k]| <= n && (|segments| > 1 ==> |segments[k]| < n)
  }

  lemma FitAppended(segments: seq<seq<Point>>, p: Point, n: nat)
    requires Fit(segments, n) && p.data.defined
    ensures Fit(segments + [[p]], n + 1)
  {
    if segments != [] {
      assert |segments[0]| <= n;
    }
  }

  lemma FitExtended(segments: seq<seq<Point>>, p: Point, n: nat)
    requires Fit(segments, n) && p.data.defined && segments != []
    ensures var last := |segments| - 1; Fit(segments[last := segments[last] + [p]], n + 1)
  {}

  lemma {:induction false} SegmentsDefined(ps: seq<Point>, increasingX: bool, fillHoles: bool)
    ensures Fit(SplitPoints(ps, increasingX, fillHoles).segments, |ps|)
  {
    if ps != [] {
      var n := |ps| - 1;
      SegmentsDefined(ps[..n], increasingX, fillHoles);
      var s := SplitPoints(ps[..n], increasingX, fillHoles);
      if ps[n].data.defined {
        FitAppended(s.segments, ps[n], n);
        if s.segments != [] {
          FitExtended(s.segments, ps[n], n);
        }
      }
    }
  }

  /** Splitting a segment again gives back just that segment. */
  lemma Resplit(ps: seq<Point>, increasingX: bool, k: nat)
    requires k < |SplitPoints(ps, increasingX, false).segments|
    ensures var g := SplitPoints(ps, increasingX, false).segments[k];
      SplitPoints(g, increasingX, false) == Split([g], false)
  {
    SegmentsDefined(ps, increasingX, false);
    SegmentsIncreaseAlways(ps);
    OneSegment(SplitPoints(ps, increasingX, false).segments[k], increasingX, false);
  }

  // ---- where segments start ----

  datatype Mark = Mark(start: bool, p: Point)

  /** A point with a value starts a segment: it is the first one with a value, or it comes after a hole that is not
      filled, or x turns back where it should grow. */
  predicate Starts(ps: seq<Point>, n: nat, increasingX: bool, fillHoles: bool)
    requires n < |ps|
  {
    LastDefined(ps[..n]) == -1 || (!fillHoles && !ps[n - 1].data.defined) || (increasingX && TurnsBack(ps, n))
  }

  /** The points with values, each with whether it starts a segment. */
  function Marks(ps: seq<Point>, increasingX: bool, fillHoles: bool): seq<Mark>
  {
    if ps == [] then []
    else
      var n := |ps| - 1;
      Marks(ps[..n], increasingX, fillHoles)
      + if ps[n].data.defined then [Mark(Starts(ps, n, increasingX, fillHoles), ps[n])] else []
  }

  function SegmentMarks(g: seq<Point>): seq<Mark>
  {
    seq(|g|, i requires 0 <= i < |g| => Mark(i == 0, g[i]))
  }

  function AllMarks(segments: seq<seq<Point>>): seq<seq<Mark>>
  {
    seq(|segments|, k requires 0 <= k < |segments| => SegmentMarks(segments[k]))
  }

  lemma MarksAppended(segments: seq<seq<Point>>, p: Point)
    ensures Flat(AllMarks(segments + [[p]])) == Flat(AllMarks(segments)) + [Mark(true, p)]
  {
    assert SegmentMarks([p]) == [Mark(true, p)];
    assert AllMarks(segments + [[p]]) == AllMarks(segments) + [[Mark(true, p)]];
    FlatAppended(AllMarks(segments), [Mark(true, p)]);
  }

  lemma MarksExtended(segments: seq<seq<Point>>, p: Point)
    requires segments != [] && segments[|segments| - 1] != []
    ensures var last := |segments| - 1;
      Flat(AllMarks(segments[last := segments[last] + [p]])) == Flat(AllMarks(segments)) + [Mark(false, p)]
  {
    var last, a := |segments| - 1, AllMarks(segments);
    assert SegmentMarks(segments[last] + [p]) == SegmentMarks(segments[last]) + [Mark(false, p)];
    assert AllMarks(segments[last := segments[last] + [p]]) == a[last := a[last] + [Mark(false, p)]];
    FlatExtended(a, Mark(false, p));
  }

  /** Segments start exactly where they should. */
  lemma {:induction false} SegmentsStart(ps: seq<Point>, increasingX: bool, fillHoles: bool)
    ensures Flat(AllMarks(SplitPoints(ps, increasingX, fillHoles).segments)) == Marks(ps, increasingX, fillHoles)
  {
    if ps != [] {
      var n := |ps| - 1;
      SegmentsStart(ps[..n], increasingX, fillHoles);
      LastOfSegments(ps[..n], increasingX, fillHoles);
      var s, p := SplitPoints(ps[..n], increasingX, fillHoles), ps[n];
      if !p.data.defined {
      } else if s.hole || (increasingX && TurnsBack(ps, n)) {
        MarksAppended(s.segments, p);
      } else {
        MarksExtended(s.segments, p);
      }
    }
  }

  // ---- the loop ----

  function AllFlattened(segments: seq<seq<Point>>): (fs: seq<Segment>)
    ensures |fs| == |segments| && forall k | 0 <= k < |segments| :: fs[k] == Flattened(segments[k])
  {
    seq(|segments|, k requires 0 <= k < |segments| => Flattened(segments[k]))
  }

  lemma FlattenedAppend(g: seq<Point>, p: Point)
    ensures Coordinates(g + [p]) == Coordinates(g) + [p.x, p.y] && Samples(g + [p]) == Samples(g) + [p.data]
  {
    assert (g + [p])[..|g|] == g;
  }

  lemma AllFlattenedAppended(segments: seq<seq<Point>>, p: Point)
    ensures AllFlattened(segments + [[p]]) == AllFlattened(segments) + [Segment([p.x, p.y], [p.data])]
  {
    FlattenedAppend([], p);
    assert [] + [p] == [p] && [] + [p.x, p.y] == [p.x, p.y] && [] + [p.data] == [p.data];
  }

  lemma AllFlattenedExtended(segments: seq<seq<Point>>, p: Point)
    requires segments != []
    ensures var last, fs := |segments| - 1, AllFlattened(segments);
      AllFlattened(segments[last := segments[last] + [p]])
        == fs[last := Segment(fs[last].pathCoordinates + [p.x, p.y], fs[last].valueData + [p.data])]
  {
    FlattenedAppend(segments[|segments| - 1], p);
  }

  /** One turn of the loop, on points. */
  lemma SplitNext(ps: seq<Point>, n: nat, increasingX: bool, fillHoles: bool)
    requires n < |ps|
    ensures var s, t, p := SplitPoints(ps[..n], increasingX, fillHoles),
            SplitPoints(ps[..n + 1], increasingX, fillHoles), ps[n];
      var last := |s.segments| - 1;
      t == if !p.data.defined then Split(s.segments, s.hole || !fillHoles)
           else if s.hole || (increasingX && TurnsBack(ps, n)) then Split(s.segments + [[p]], false)
           else Split(s.segments[last := s.segments[last] + [p]], false)
  {
    assert ps[..n + 1][..n] == ps[..n];
  }

  /** The last segment with one more point. */
  function AddPoint(segments: seq<Segment>, x: real, y: real, data: Sample): seq<Segment>
    requires segments != []
  {
    var last := |segments| - 1;
    segments[last := Segment(segments[last].pathCoordinates + [x, y], segments[last].valueData + [data])]
  }

  /** What the loop does with a point that has a value. */
  lemma AddPointFlattened(segments: seq<seq<Point>>, p: Point)
    ensures AddPoint(AllFlattened(segments) + [Segment([], [])], p.x, p.y, p.data) == AllFlattened(segments + [[p]])
    ensures segments != [] ==>
      var last := |segments| - 1;
      AddPoint(AllFlattened(segments), p.x, p.y, p.data) == AllFlattened(segments[last := segments[last] + [p]])
  {
    AllFlattenedAppended(segments, p);
    assert [] + [p.x, p.y] == [p.x, p.y] && [] + [p.data] == [p.data];
    if segments != [] {
      AllFlattenedExtended(segments, p);
    }
  }

  /** What the loop has made of the first `n` points. */
  predicate SoFar(ps: seq<Point>, n: nat, increasingX: bool, fillHoles: bool, segments: seq<Segment>, hole: bool)
    requires n <= |ps|
  {
    var s := SplitPoints(ps[..n], increasingX, fillHoles);
    segments == AllFlattened(s.segments) && hole == s.hole
  }

  lemma SoFarNext(ps: seq<Point>, n: nat, increasingX: bool, fillHoles: bool, segments: seq<Segment>, hole: bool)
    requires n < |ps| && SoFar(ps, n, increasingX, fillHoles, segments, hole)
    ensures var p, breaks := ps[n], hole || (increasingX && TurnsBack(ps, n));
      if !p.data.defined then SoFar(ps, n + 1, increasingX, fillHoles, segments, hole || !fillHoles)
      else
        var open := if breaks then segments + [Segment([], [])] else segments;
        open != [] && SoFar(ps, n + 1, increasingX, fillHoles, AddPoint(open, p.x, p.y, p.data), false)
  {
    SplitNext(ps, n, increasingX, fillHoles);
    StateNext(SplitPoints(ps[..n], increasingX, fillHoles), SplitPoints(ps[..n + 1], increasingX, fillHoles), ps[n],
              hole || (increasingX && TurnsBack(ps, n)), segments);
  }

  /** A point with a value in the loop, with the segments it starts from and those it leaves. */
  lemma StateNext(s: Split, t: Split, p: Point, breaks: bool, segments: seq<Segment>)
    requires segments == AllFlattened(s.segments) && (!breaks ==> s.segments != [])
    ensures var open := if breaks then segments + [Segment([], [])] else segments;
      && open != []
      && (t.segments == (var last := |s.segments| - 1;
                         if breaks then s.segments + [[p]] else s.segments[last := s.segments[last] + [p]])
          ==> AddPoint(open, p.x, p.y, p.data) == AllFlattened(t.segments))
  {
    AddPointFlattened(s.segments, p);
  }

  method SplitIntoSegments(pathCoordinates: seq<real>, valueData: seq<Sample>, increasingX: bool, fillHoles: bool)
    returns (segments: seq<Segment>)
    requires |pathCoordinates| == 2 * |valueData|
    ensures segments == AllFlattened(SplitPoints(Points(pathCoordinates, valueData), increasingX, fillHoles).segments)
  {
    ghost var ps, n := Points(pathCoordinates, valueData), 0;
    segments := [];
    var hole := true;
    var i := 0;
    while i < |pathCoordinates|
      invariant i == 2 * n && n <= |ps| && SoFar(ps, n, increasingX, fillHoles, segments, hole)
    {
      SoFarNext(ps, n, increasingX, fillHoles, segments, hole);
      assert i / 2 == n && ps[n] == Point(pathCoordinates[i], pathCoordinates[i + 1], valueData[i / 2]);
      assert TurnsBack(ps, n) <==> i >= 2 && pathCoordinates[i] <= pathCoordinates[i - 2];
      if !valueData[i / 2].defined {
        if !fillHoles {
          hole := true;
        }
      } else {
        if increasingX && i >= 2 && pathCoordinates[i] <= pathCoordinates[i - 2] {
          hole := true;
        }
        if hole {
          segments := segments + [Segment([], [])];
          hole := false;
        }
        segments := AddPoint(segments, pathCoordinates[i], pathCoordinates[i + 1], valueData[i / 2]);
      }
      n, i := n + 1, i + 2;
    }
    assert ps[..n] == ps;
  }
}
