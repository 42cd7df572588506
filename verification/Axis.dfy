/** The chart rectangle and the projection of values on an automatically scaled axis. */
module Axis {
  import opened ScaleArithmetic
  import opened Bounds
  import opened HighLow

  datatype Padding = Padding(top: real, right: real, bottom: real, left: real)

  /** Where the labels of an axis are, and the room they take. */
  datatype Labels = Labels(atStart: bool, offset: real)

  datatype Rect = Rect(x1: real, x2: real, y1: real, y2: real)

  function Max(a: real, b: real): real
  {
    if a < b then b else a
  }

  function Min(a: real, b: real): real
  {
    if a < b then a else b
  }

  /** Chartist.createChartRect; `y2` is the top, `y1` the bottom.  However small the drawing, both sides of the
      rectangle are at least 1 long, it keeps clear of the padding at the top and left, and of the padding at the
      bottom and right unless that would make it shorter than 1. */
  function CreateChartRect(svgWidth: real, svgHeight: real, axisX: Option<Labels>, axisY: Option<Labels>,
                           p: Padding): (r: Rect)
    requires axisX.Some? <==> axisY.Some?
    ensures r.x2 - r.x1 >= 1.0 && r.y1 - r.y2 >= 1.0
    ensures axisX.Some? && axisX.value.offset >= 0.0 && axisY.value.offset >= 0.0 ==> r.x1 >= p.left && r.y2 >= p.top
    ensures axisX.None? ==> r.x1 == p.left && r.y2 == p.top
    ensures r.x2 - r.x1 > 1.0 && axisX.None? ==> r.x2 + p.right == Max(svgWidth, p.left + p.right)
  {
    var yAxisOffset := if axisY.Some? then axisY.value.offset else 0.0;
    var xAxisOffset := if axisX.Some? then axisX.value.offset else 0.0;
    var width := Max(svgWidth, yAxisOffset + p.left + p.right);
    var height := Max(svgHeight, xAxisOffset + p.top + p.bottom);
    if axisX.Some? then
      var y2 := if axisX.value.atStart then p.top + xAxisOffset else p.top;
      var y1 := Max(if axisX.value.atStart then height - p.bottom else height - p.bottom - xAxisOffset, y2 + 1.0);
      var x1 := if axisY.value.atStart then p.left + yAxisOffset else p.left;
      var x2 := Max(if axisY.value.atStart then width - p.right else width - p.right - yAxisOffset, x1 + 1.0);
      Rect(x1, x2, y1, y2)
    else
      Rect(p.left, Max(width - p.right, p.left + 1.0), Max(height - p.bottom, p.top + 1.0), p.top)
  }

  /** The room along one direction, from `from` to `to` of a drawing of length `length`: unless that would leave less
      than 1 (when it is 1 long), what is left of the drawing without padding and labels, with the labels on their
      side; a drawing that is too short for padding and labels counts as just long enough. */
  predicate Fills(from: real, to: real, length: real, before: real, after: real, labels: Option<Labels>)
  {
    var offset := if labels.Some? then labels.value.offset else 0.0;
    var first := labels.Some? && labels.value.atStart;
    && from - before == (if first then offset else 0.0)
    && (length - before - after - offset >= 1.0 ==>
          to - from == length - before - after - offset && length - to == after + (if first then 0.0 else offset))
    && (length - before - after - offset < 1.0 ==> to - from == 1.0)
  }

  /** The chart rectangle fills the drawing in both directions; the labels of the x axis stand above or below it, those
      of the y axis to the left or to the right. */
  lemma ChartRectFills(svgWidth: real, svgHeight: real, axisX: Option<Labels>, axisY: Option<Labels>, p: Padding)
    requires axisX.Some? <==> axisY.Some?
    ensures var r := CreateChartRect(svgWidth, svgHeight, axisX, axisY, p);
      && Fills(r.x1, r.x2, svgWidth, p.left, p.right, axisY)
      && Fills(r.y2, r.y1, svgHeight, p.top, p.bottom, axisX)
  {}

  /** AutoScaleAxis.projectValue. */
  function ProjectValue(axisLength: real, value: real, b: Bounds): real
    requires b.range != 0.0
  {
    axisLength * (value - b.min) / b.range
  }

  predicate OnAxis(axisLength: real, value: real, b: Bounds)
    requires b.range != 0.0
  {
    0.0 <= ProjectValue(axisLength, value, b) <= axisLength
  }

  /** The projection is strictly increasing, and takes the ends of the scale to the ends of the axis. */
  lemma ProjectionGrows(axisLength: real, v: real, w: real, b: Bounds)
    requires axisLength > 0.0 && b.range == b.max - b.min > 0.0 && v < w
    ensures ProjectValue(axisLength, v, b) < ProjectValue(axisLength, w, b)
    ensures ProjectValue(axisLength, b.min, b) == 0.0 && ProjectValue(axisLength, b.max, b) == axisLength
  {
    var r, d := b.range, v - b.min;
    var q, q' := ProjectValue(axisLength, v, b), ProjectValue(axisLength, w, b);
    assert q * r < q' * r by {
      MulMonotone(v - b.min, w - b.min, axisLength);
      assert q * r == axisLength * (v - b.min);
      assert q' * r == axisLength * (w - b.min);
    }
    if q' <= q {
      MulMonotone(q', q, r);
    }
    QuotientIs(axisLength * r, r, axisLength);
  }

  /** The numbers a scale with whole steps is made for. */
  ghost predicate WholeData(data: Data, reference: Option<real>)
  {
    (forall v | v in Leaves(data) :: IsInt(v)) && (reference.Some? ==> IsInt(reference.value))
  }

  lemma WholeEnds()
    ensures IsInt(MAX_VALUE) && IsInt(-MAX_VALUE)
  {
    var m := MAX_INT;
    WholeIsInt(m);
    WholeIsInt(-m);
    assert (-m) as real == -(m as real);
  }

  /** Ends of whole data are at least 1 apart. */
  lemma WholeExtent(data: Data, reference: Option<real>, h: real, l: real)
    requires WholeData(data, reference)
    requires IsTop(h, Highs(data, None, reference)) && IsBottom(l, Lows(data, None, reference))
    ensures SpreadOf(h, l).0 - SpreadOf(h, l).1 >= 1.0
  {
    WholeEnds();
    assert IsInt(h) && IsInt(l);
    var (high, low) := SpreadOf(h, l);
    assert high - low == (high.Floor - low.Floor) as real;
  }

  /** The scale is the one that the step search makes for the ends of the data. */
  ghost predicate MadeFor(b: Bounds, data: Data, reference: Option<real>, axisLength: real, scaleMinSpace: real,
                          onlyInteger: bool)
    requires axisLength > 0.0 && scaleMinSpace > 0.0
  {
    && b.low < b.high
    && (exists h, l :: IsTop(h, Highs(data, None, reference)) && IsBottom(l, Lows(data, None, reference))
                       && (b.high, b.low) == SpreadOf(h, l))
    && var search := SearchOf(axisLength, b.high, b.low, scaleMinSpace, onlyInteger);
      Scales(b, b.low, b.high, search) && search.Chosen(b.step)
  }

  /** From the data to the axis, with no end set in the options: when the step search succeeds, every number of
      the data has its place on the axis, in order.  With `onlyInteger` whole data has whole ticks. */
  method AutoScale(data: Data, reference: Option<real>, axisLength: real, scaleMinSpace: real, onlyInteger: bool)
    returns (r: Outcome<Bounds>)
    requires axisLength >= 1.0 && scaleMinSpace > 0.0
    ensures InProportion(axisLength, scaleMinSpace, ROUNDS) ==> r.Found?
    ensures r.Found? && onlyInteger && WholeData(data, reference) ==> AllWhole(r.value.values)
    ensures r.Found? ==> MadeFor(r.value, data, reference, axisLength, scaleMinSpace, onlyInteger)
    ensures r.Found? ==> var b := r.value;
      && b.range == b.max - b.min > 0.0
      && (forall v | v in Leaves(data) :: OnAxis(axisLength, v, b))
      && (forall v, w | v in Leaves(data) && w in Leaves(data) && v < w ::
          ProjectValue(axisLength, v, b) < ProjectValue(axisLength, w, b))
      && (reference.Some? ==> OnAxis(axisLength, reference.value, b))
  {
    var hl, h, l := GetHighLow(data, None, None, reference);
    r := GetBounds(axisLength, hl.high, hl.low, scaleMinSpace, onlyInteger);
    ghost var search := SearchOf(axisLength, hl.high, hl.low, scaleMinSpace, onlyInteger);
    if InProportion(axisLength, scaleMinSpace, ROUNDS) {
      search.SearchEnds(ROUNDS);
    }
    if r.Found? {
      if onlyInteger && WholeData(data, reference) {
        WholeExtent(data, reference, h, l);
        WholeTicksExactly(axisLength, hl.high, hl.low, scaleMinSpace, r.value);
      }
      DataOnAxis(axisLength, r.value, Leaves(data));
      if reference.Some? {
        ProjectionInside(axisLength, reference.value, r.value);
      }
    }
  }

  lemma DataOnAxis(axisLength: real, b: Bounds, vs: seq<real>)
    requires axisLength > 0.0 && b.range == b.max - b.min > 0.0 && forall v | v in vs :: b.min <= v <= b.max
    ensures forall v | v in vs :: OnAxis(axisLength, v, b)
    ensures forall v, w | v in vs && w in vs && v < w :: ProjectValue(axisLength, v, b) < ProjectValue(axisLength, w, b)
  {
    forall v | v in vs ensures OnAxis(axisLength, v, b) {
      ProjectionInside(axisLength, v, b);
    }
    forall v, w | v in vs && w in vs && v < w ensures ProjectValue(axisLength, v, b) < ProjectValue(axisLength, w, b) {
      ProjectionGrows(axisLength, v, w, b);
    }
  }

  lemma ProjectionInside(axisLength: real, v: real, b: Bounds)
    requires axisLength > 0.0 && b.range == b.max - b.min > 0.0 && b.min <= v <= b.max
    ensures OnAxis(axisLength, v, b)
  {
    ProjectionGrows(axisLength, b.min, b.max, b);
    if b.min < v {
      ProjectionGrows(axisLength, b.min, v, b);
    }
    if v < b.max {
      ProjectionGrows(axisLength, v, b.max, b);
    }
  }
}
