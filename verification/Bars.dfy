/** Stacking the bars of a chart (the bar chart's `createChart`). */
module Bars {
  import opened ScaleArithmetic
  import opened Bounds
  import opened HighLow
  import opened Axis

  function Sum(ds: seq<real>): real
  {
    if ds == [] then 0.0 else Sum(ds[..|ds| - 1]) + ds[|ds| - 1]
  }

  /** Where the bar before starts from: `stackedBarValues[valueIndex] || zeroPoint`, which also falls back to the
      zero point when the stored coordinate is exactly 0. */
  function Previous(stored: Option<real>, zeroPoint: real): real
  {
    if stored.Some? && stored.value != 0.0 then stored.value else zeroPoint
  }

  /** The stored coordinate after bars of (signed) screen lengths `ds`. */
  function Stacked(zeroPoint: real, ds: seq<real>): Option<real>
  {
    if ds == [] then None
    else Some(Previous(Stacked(zeroPoint, ds[..|ds| - 1]), zeroPoint) + ds[|ds| - 1])
  }

  /** How often the stack has started over, having hit coordinate 0. */
  function Restarts(zeroPoint: real, ds: seq<real>): nat
  {
    if ds == [] then 0
    else Restarts(zeroPoint, ds[..|ds| - 1]) + if Stacked(zeroPoint, ds[..|ds| - 1]) == Some(0.0) then 1 else 0
  }

  /** A stack ends at the zero point plus its total length, plus the zero point once more for every restart. */
  lemma {:induction false} StackedIsSum(zeroPoint: real, ds: seq<real>)
    requires ds != []
    ensures Stacked(zeroPoint, ds) == Some(zeroPoint + Sum(ds) + Times(Restarts(zeroPoint, ds), zeroPoint))
  {
    var before := ds[..|ds| - 1];
    if before != [] {
      StackedIsSum(zeroPoint, before);
    }
  }

  lemma {:induction false} RestartsCount(zeroPoint: real, ds: seq<real>)
    ensures Restarts(zeroPoint, ds) == 0 <==> forall k | 0 < k < |ds| :: Stacked(zeroPoint, ds[..k]) != Some(0.0)
  {
    if ds != [] {
      var before := ds[..|ds| - 1];
      RestartsCount(zeroPoint, before);
      assert forall k | 0 < k < |before| :: before[..k] == ds[..k];
      assert |ds| > 1 ==> before == ds[..|ds| - 1];
    }
  }

  lemma NoTimes(n: nat, u: real)
    ensures Times(n, u) == 0.0 <==> n == 0 || u == 0.0
  {
    TimesIsProduct(n, u);
  }

  /** No stack of the first few bars, up to the last but one, is to end at coordinate 0. */
  ghost predicate NoneEndsAtZero(zeroPoint: real, ds: seq<real>)
  {
    forall k | 0 < k < |ds| :: zeroPoint + Sum(ds[..k]) != 0.0
  }

  lemma {:induction false} NoneStandsAtZero(zeroPoint: real, ds: seq<real>)
    ensures NoneEndsAtZero(zeroPoint, ds) <==> forall k | 0 < k < |ds| :: Stacked(zeroPoint, ds[..k]) != Some(0.0)
  {
    if |ds| > 1 {
      var before := ds[..|ds| - 1];
      NoneStandsAtZero(zeroPoint, before);
      assert forall k | 0 < k < |before| :: before[..k] == ds[..k];
      RestartsCount(zeroPoint, before);
      StackedIsSum(zeroPoint, before);
    }
  }

  /** The stack ends where its total length takes it exactly when no part of it before the last bar is to end at
      coordinate 0 (or the zero point is itself at 0). */
  lemma StackedExactly(zeroPoint: real, ds: seq<real>)
    requires ds != []
    ensures Stacked(zeroPoint, ds) == Some(zeroPoint + Sum(ds)) <==> zeroPoint == 0.0 || NoneEndsAtZero(zeroPoint, ds)
  {
    StackedIsSum(zeroPoint, ds);
    RestartsCount(zeroPoint, ds);
    NoneStandsAtZero(zeroPoint, ds);
    NoTimes(Restarts(zeroPoint, ds), zeroPoint);
  }

  /** A bar from coordinate 10 to 0, and one of length 5 on it, which starts over at 10. */
  lemma StackStartsOver()
    ensures Stacked(10.0, [-10.0, 5.0]) == Some(15.0) && 10.0 + Sum([-10.0, 5.0]) == 5.0
  {
    assert [-10.0, 5.0][..1] == [-10.0] && [-10.0][..0] == [];
  }

  /** The value axis on screen: the coordinate of each value (any type of axis), and the limits of the chart
      area in that direction. */
  datatype Screen = Screen(at: real -> real, lo: real, hi: real)
  {
    function Limited(c: real): real
    {
      Min(Max(c, lo), hi)
    }

    predicate Shows(value: real)
    {
      lo <= at(value) <= hi
    }

    /** Adding to a value moves its coordinate as far as the addend alone does. */
    predicate Adds(v: real, w: real)
    {
      at(v) + (at(w) - at(0.0)) == at(v + w)
    }

    /** `v` is on screen between `u` and `w`, whichever way the axis runs. */
    predicate Between(u: real, v: real, w: real)
    {
      at(u) <= at(v) <= at(w) || at(w) <= at(v) <= at(u)
    }

    ghost predicate Linear()
    {
      && (forall v, w {:trigger Adds(v, w)} :: Adds(v, w))
      && (forall u, v, w {:trigger Between(u, v, w)} | u <= v <= w :: Between(u, v, w))
    }

    lemma ShowsBetween(v: real, w: real)
      requires Linear() && Shows(0.0) && Shows(w) && (0.0 <= v <= w || w <= v <= 0.0)
      ensures Shows(v) && Limited(at(v)) == at(v)
    {
      assert 0.0 <= v ==> Between(0.0, v, w);
      assert v <= 0.0 ==> Between(w, v, 0.0);
    }
  }

  /** One series per element; a hole has no value. */
  type Series = seq<seq<Option<real>>>

  function ValueOf(v: Option<real>): real
  {
    if v.Some? then v.value else 0.0
  }

  /** The values at index `i` of the first `n` series. */
  function Column(series: Series, n: nat, i: nat): seq<real>
    requires n <= |series|
  {
    if n == 0 then []
    else Column(series, n - 1, i) + if i < |series[n - 1]| then [ValueOf(series[n - 1][i])] else []
  }

  function Lengths(c: Screen, vs: seq<real>): (ds: seq<real>)
    ensures |ds| == |vs|
  {
    seq(|vs|, k requires 0 <= k < |vs| => c.at(vs[k]) - c.at(0.0))
  }

  /** The stored coordinate at index `i` once `n` series are drawn. */
  function Top(c: Screen, series: Series, n: nat, i: nat): Option<real>
    requires n <= |series|
  {
    Stacked(c.at(0.0), Lengths(c, Column(series, n, i)))
  }

  datatype Bar = Bar(series: nat, index: nat, start: real, end: real)

  function BarAt(c: Screen, series: Series, accumulate: bool, s: nat, i: nat): Bar
    requires s < |series| && i < |series[s]|
  {
    if accumulate then
      Bar(s, i, c.Limited(Previous(Top(c, series, s, i), c.at(0.0))), c.Limited(ValueOf(Top(c, series, s + 1, i))))
    else
      Bar(s, i, c.Limited(c.at(0.0)), c.Limited(c.at(ValueOf(series[s][i]))))
  }

  /** The bars of series `s` before index `m`: one for each value, none for a hole. */
  function BarsOf(c: Screen, series: Series, accumulate: bool, s: nat, m: nat): seq<Bar>
    requires s < |series| && m <= |series[s]|
  {
    if m == 0 then []
    else
      BarsOf(c, series, accumulate, s, m - 1)
      + if series[s][m - 1].Some? then [BarAt(c, series, accumulate, s, m - 1)] else []
  }

  function AllBars(c: Screen, series: Series, accumulate: bool, n: nat): seq<Bar>
    requires n <= |series|
  {
    if n == 0 then [] else AllBars(c, series, accumulate, n - 1) + BarsOf(c, series, accumulate, n - 1, |series[n - 1]|)
  }

  lemma TopNext(c: Screen, series: Series, s: nat, i: nat)
    requires s < |series|
    ensures Top(c, series, s + 1, i) == if i < |series[s]| then Some(NextTop(c, series, s, i)) else Top(c, series, s, i)
  {
    var col, col' := Column(series, s, i), Column(series, s + 1, i);
    if i < |series[s]| {
      assert Lengths(c, col')[..|col|] == Lengths(c, col);
    } else {
      assert col' == col;
    }
  }

  function NextTop(c: Screen, series: Series, s: nat, i: nat): real
    requires s < |series| && i < |series[s]|
  {
    Previous(Top(c, series, s, i), c.at(0.0)) - (c.at(0.0) - c.at(ValueOf(series[s][i])))
  }

  function Stored(stackedBarValues: map<nat, real>, i: nat): Option<real>
  {
    if i in stackedBarValues then Some(stackedBarValues[i]) else None
  }

  /** `stackedBarValues` once series `s` is drawn before index `m`. */
  ghost predicate Tracks(stackedBarValues: map<nat, real>, c: Screen, series: Series, s: nat, m: nat)
    requires s < |series| && m <= |series[s]|
  {
    forall i: nat :: Stored(stackedBarValues, i) == if i < m then Top(c, series, s + 1, i) else Top(c, series, s, i)
  }

  lemma TracksNext(stackedBarValues: map<nat, real>, c: Screen, series: Series, s: nat, m: nat)
    requires s < |series| && m < |series[s]| && Tracks(stackedBarValues, c, series, s, m)
    ensures Tracks(stackedBarValues[m := NextTop(c, series, s, m)], c, series, s, m + 1)
  {
    TopNext(c, series, s, m);
    var next := stackedBarValues[m := NextTop(c, series, s, m)];
    forall i: nat ensures Stored(next, i) == if i < m + 1 then Top(c, series, s + 1, i) else Top(c, series, s, i) {
      assert i != m ==> Stored(next, i) == Stored(stackedBarValues, i);
    }
  }

  lemma TracksSeries(stackedBarValues: map<nat, real>, c: Screen, series: Series, s: nat)
    requires s < |series| && Tracks(stackedBarValues, c, series, s, |series[s]|)
    ensures s + 1 < |series| ==> Tracks(stackedBarValues, c, series, s + 1, 0)
  {
    forall i: nat ensures Stored(stackedBarValues, i) == Top(c, series, s + 1, i) {
      TopNext(c, series, s, i);
    }
  }

  // ---- which bars there are ----

  predicate Earlier(a: Bar, b: Bar)
  {
    a.series < b.series || (a.series == b.series && a.index < b.index)
  }

  predicate OfValue(b: Bar, series: Series)
  {
    b.series < |series| && b.index < |series[b.series]| && series[b.series][b.index].Some?
  }

  ghost predicate HasBar(bars: seq<Bar>, s: nat, i: nat)
  {
    exists k :: 0 <= k < |bars| && bars[k].series == s && bars[k].index == i
  }

  /** One bar for each value of the first `n` series, and none for a hole, series by series and in order. */
  ghost predicate Lists(bars: seq<Bar>, series: Series, n: nat)
    requires n <= |series|
  {
    && (forall k | 0 <= k < |bars| :: OfValue(bars[k], series) && bars[k].series < n)
    && (forall k, l | 0 <= k < l < |bars| :: Earlier(bars[k], bars[l]))
    && (forall s, i | 0 <= s < n && 0 <= i < |series[s]| && series[s][i].Some? :: HasBar(bars, s, i))
  }

  lemma HasBarMore(bars: seq<Bar>, more: seq<Bar>, s: nat, i: nat)
    ensures HasBar(bars, s, i) ==> HasBar(bars + more, s, i)
    ensures HasBar(more, s, i) ==> HasBar(bars + more, s, i)
  {
    if HasBar(bars, s, i) {
      var k :| 0 <= k < |bars| && bars[k].series == s && bars[k].index == i;
      assert (bars + more)[k] == bars[k];
    }
    if HasBar(more, s, i) {
      var k :| 0 <= k < |more| && more[k].series == s && more[k].index == i;
      assert (bars + more)[|bars| + k] == more[k];
    }
  }

  /** The same for series `s` alone, before index `m`. */
  ghost predicate ListsOne(bars: seq<Bar>, series: Series, s: nat, m: nat)
    requires s < |series| && m <= |series[s]|
  {
    && (forall k | 0 <= k < |bars| :: OfValue(bars[k], series) && bars[k].series == s && bars[k].index < m)
    && (forall k, l | 0 <= k < l < |bars| :: Earlier(bars[k], bars[l]))
    && (forall i | 0 <= i < m && series[s][i].Some? :: HasBar(bars, s, i))
  }

  lemma OrderedConcat(a: seq<Bar>, b: seq<Bar>)
    requires forall k, l | 0 <= k < l < |a| :: Earlier(a[k], a[l])
    requires forall k, l | 0 <= k < l < |b| :: Earlier(b[k], b[l])
    requires forall k, l | 0 <= k < |a| && 0 <= l < |b| :: Earlier(a[k], b[l])
    ensures forall k, l | 0 <= k < l < |a + b| :: Earlier((a + b)[k], (a + b)[l])
  {
    forall k, l | 0 <= k < l < |a + b| ensures Earlier((a + b)[k], (a + b)[l]) {
      if k < |a| <= l {
        assert Earlier(a[k], b[l - |a|]);
      } else if l < |a| {
        assert Earlier(a[k], a[l]);
      } else {
        assert Earlier(b[k - |a|], b[l - |a|]);
      }
    }
  }

  ghost predicate Made(bars: seq<Bar>, c: Screen, series: Series, accumulate: bool)
  {
    forall k | 0 <= k < |bars| ::
      OfValue(bars[k], series) && bars[k] == BarAt(c, series, accumulate, bars[k].series, bars[k].index)
  }

  lemma MadeConcat(a: seq<Bar>, b: seq<Bar>, c: Screen, series: Series, accumulate: bool)
    requires Made(a, c, series, accumulate) && Made(b, c, series, accumulate)
    ensures Made(a + b, c, series, accumulate)
  {}

  lemma {:induction false} BarsOfListed(c: Screen, series: Series, accumulate: bool, s: nat, m: nat)
    requires s < |series| && m <= |series[s]|
    ensures var bars := BarsOf(c, series, accumulate, s, m);
      ListsOne(bars, series, s, m) && Made(bars, c, series, accumulate)
  {
    if m > 0 {
      BarsOfListed(c, series, accumulate, s, m - 1);
      var before := BarsOf(c, series, accumulate, s, m - 1);
      var last := if series[s][m - 1].Some? then [BarAt(c, series, accumulate, s, m - 1)] else [];
      OrderedConcat(before, last);
      MadeConcat(before, last, c, series, accumulate);
      forall i | 0 <= i < m && series[s][i].Some? ensures HasBar(before + last, s, i) {
        HasBarMore(before, last, s, i);
        assert i == m - 1 ==> last[0].index == i;
      }
    }
  }

  lemma ListsMore(bars: seq<Bar>, more: seq<Bar>, series: Series, n: nat)
    requires n < |series| && Lists(bars, series, n) && ListsOne(more, series, n, |series[n]|)
    ensures Lists(bars + more, series, n + 1)
  {
    OrderedConcat(bars, more);
    forall s, i | 0 <= s < n + 1 && 0 <= i < |series[s]| && series[s][i].Some? ensures HasBar(bars + more, s, i) {
      HasBarMore(bars, more, s, i);
    }
  }

  lemma {:induction false} AllBarsListed(c: Screen, series: Series, accumulate: bool, n: nat)
    requires n <= |series|
    ensures var bars := AllBars(c, series, accumulate, n);
      Lists(bars, series, n) && Made(bars, c, series, accumulate)
  {
    if n > 0 {
      AllBarsListed(c, series, accumulate, n - 1);
      BarsOfListed(c, series, accumulate, n - 1, |series[n - 1]|);
      var before := AllBars(c, series, accumulate, n - 1);
      var last := BarsOf(c, series, accumulate, n - 1, |series[n - 1]|);
      ListsMore(before, last, series, n - 1);
      MadeConcat(before, last, c, series, accumulate);
    }
  }

  // ---- plain bars ----

  /** `x` is `y`, or the end of the range that `y` is beyond. */
  predicate Clamped(x: real, y: real, lo: real, hi: real)
  {
    && lo <= x <= hi && (lo <= y <= hi ==> x == y) && (y < lo ==> x == lo) && (y > hi ==> x == hi)
  }

  /** The bar goes from the coordinate of 0 to that of its own value, as far as the axis shows them; it does so exactly
      if and only if the axis shows both. */
  predicate IsPlain(c: Screen, series: Series, b: Bar)
    requires OfValue(b, series)
  {
    var v := series[b.series][b.index].value;
    && Clamped(b.start, c.at(0.0), c.lo, c.hi) && Clamped(b.end, c.at(v), c.lo, c.hi)
    && (b.start == c.at(0.0) && b.end == c.at(v) <==> c.Shows(0.0) && c.Shows(v))
  }

  /** Without stacking there is one bar for each value in order, and each is plain. */
  lemma PlainBars(c: Screen, series: Series)
    requires c.lo <= c.hi
    ensures var bars := AllBars(c, series, false, |series|);
      && Lists(bars, series, |series|)
      && forall k | 0 <= k < |bars| :: IsPlain(c, series, bars[k])
  {
    AllBarsListed(c, series, false, |series|);
  }

  lemma PlainSeries(c: Screen, series: Series, accumulate: bool, s: nat)
    requires s < |series|
    ensures var bars := BarsOf(c, series, accumulate, s, |series[s]|);
      && ListsOne(bars, series, s, |series[s]|)
      && (!accumulate && c.lo <= c.hi ==> forall k | 0 <= k < |bars| :: IsPlain(c, series, bars[k]))
  {
    BarsOfListed(c, series, accumulate, s, |series[s]|);
  }

  method DrawSeries(c: Screen, series: Series, accumulate: bool, s: nat, stacked: map<nat, real>)
    returns (bars: seq<Bar>, stackedBarValues: map<nat, real>)
    requires s < |series| && Tracks(stacked, c, series, s, 0)
    ensures bars == BarsOf(c, series, accumulate, s, |series[s]|) && ListsOne(bars, series, s, |series[s]|)
    ensures !accumulate && c.lo <= c.hi ==> forall k | 0 <= k < |bars| :: IsPlain(c, series, bars[k])
    ensures Tracks(stackedBarValues, c, series, s, |series[s]|)
  {
    var zeroPoint := c.at(0.0);
    bars, stackedBarValues := [], stacked;
    for i := 0 to |series[s]|
      invariant bars == BarsOf(c, series, accumulate, s, i)
      invariant Tracks(stackedBarValues, c, series, s, i)
    {
      var value := series[s][i];
      var projected := c.at(ValueOf(value));
      var previousStack := Previous(Stored(stackedBarValues, i), zeroPoint);
      TracksNext(stackedBarValues, c, series, s, i);
      TopNext(c, series, s, i);
      stackedBarValues := stackedBarValues[i := previousStack - (zeroPoint - projected)];
      if value.Some? {
        var bar := if accumulate then Bar(s, i, c.Limited(previousStack), c.Limited(stackedBarValues[i]))
                   else Bar(s, i, c.Limited(zeroPoint), c.Limited(projected));
        bars := bars + [bar];
      }
    }
    PlainSeries(c, series, accumulate, s);
  }

  /** Draws every series, keeping the coordinates the stacks have reached. */
  method DrawBars(c: Screen, series: Series, accumulate: bool) returns (bars: seq<Bar>)
    ensures bars == AllBars(c, series, accumulate, |series|) && Lists(bars, series, |series|)
    ensures !accumulate && c.lo <= c.hi ==> forall k | 0 <= k < |bars| :: IsPlain(c, series, bars[k])
  {
    AllBarsListed(c, series, accumulate, |series|);
    var stackedBarValues: map<nat, real> := map[];
    bars := [];
    for s := 0 to |series|
      invariant bars == AllBars(c, series, accumulate, s)
      invariant s < |series| ==> Tracks(stackedBarValues, c, series, s, 0)
    {
      var drawn;
      drawn, stackedBarValues := DrawSeries(c, series, accumulate, s, stackedBarValues);
      bars := bars + drawn;
      TracksSeries(stackedBarValues, c, series, s);
    }
  }

  // ---- stacked bars ----

  /** What the bars at index `i` of the first `n` series add up to. */
  function Total(series: Series, n: nat, i: nat): real
    requires n <= |series|
  {
    if n == 0 then 0.0
    else Total(series, n - 1, i) + if i < |series[n - 1]| then ValueOf(series[n - 1][i]) else 0.0
  }

  ghost predicate NonNegative(series: Series)
  {
    forall s, i | 0 <= s < |series| && 0 <= i < |series[s]| :: ValueOf(series[s][i]) >= 0.0
  }

  ghost predicate NonPositive(series: Series)
  {
    forall s, i | 0 <= s < |series| && 0 <= i < |series[s]| :: ValueOf(series[s][i]) <= 0.0
  }

  lemma {:induction false} TotalsGrow(series: Series, m: nat, n: nat, i: nat)
    requires m <= n <= |series|
    ensures NonNegative(series) ==> 0.0 <= Total(series, m, i) <= Total(series, n, i)
    ensures NonPositive(series) ==> Total(series, n, i) <= Total(series, m, i) <= 0.0
    decreases n
  {
    if m < n {
      TotalsGrow(series, m, n - 1, i);
    } else if n > 0 {
      TotalsGrow(series, n - 1, n - 1, i);
    }
  }

  /** The axis shows what every series makes of a stack. */
  ghost predicate ShowsAll(c: Screen, series: Series, n: nat, i: nat)
    requires n <= |series|
  {
    forall m: nat | m <= n :: c.Shows(Total(series, m, i))
  }

  /** With coordinates above 0 (a padded chart), and an axis that shows the stack after each series, the stack after `n`
      series is at the coordinate of their sum. */
  lemma {:induction false} TopIsTotal(c: Screen, series: Series, n: nat, i: nat)
    requires c.Linear() && c.lo > 0.0 && n <= |series| && ShowsAll(c, series, n, i)
    ensures c.Limited(c.at(Total(series, n, i))) == c.at(Total(series, n, i))
    ensures Previous(Top(c, series, n, i), c.at(0.0)) == c.at(Total(series, n, i))
    ensures Top(c, series, n, i).Some? ==> Top(c, series, n, i).value == c.at(Total(series, n, i))
    decreases n
  {
    assert c.Shows(Total(series, n, i));
    if n > 0 {
      TopIsTotal(c, series, n - 1, i);
      TopNext(c, series, n - 1, i);
      if i < |series[n - 1]| {
        assert c.Adds(Total(series, n - 1, i), ValueOf(series[n - 1][i]));
      }
    }
  }

  /** The bar goes from the sum of the series before it to the sum including its own. */
  predicate BarIsExact(c: Screen, series: Series, s: nat, i: nat)
    requires s < |series| && i < |series[s]|
  {
    BarAt(c, series, true, s, i) == Bar(s, i, c.at(Total(series, s, i)), c.at(Total(series, s + 1, i)))
  }

  lemma StackedBarsExact(c: Screen, series: Series, s: nat, i: nat)
    requires c.Linear() && c.lo > 0.0 && s < |series| && i < |series[s]| && ShowsAll(c, series, s + 1, i)
    ensures BarIsExact(c, series, s, i)
  {
    TopIsTotal(c, series, s, i);
    TopIsTotal(c, series, s + 1, i);
    TopNext(c, series, s, i);
  }

  /** A bar that is exact ends on screen. */
  lemma ExactIsShown(c: Screen, series: Series, s: nat, i: nat)
    requires c.lo <= c.hi && s < |series| && i < |series[s]|
    ensures BarIsExact(c, series, s, i) ==> c.Shows(Total(series, s, i)) && c.Shows(Total(series, s + 1, i))
  {
  }

  predicate BarsAreExact(c: Screen, series: Series, n: nat, i: nat)
    requires n <= |series|
  {
    forall s | 0 <= s < n && i < |series[s]| && series[s][i].Some? :: BarIsExact(c, series, s, i)
  }

  /** So all bars of a stack are exact, for values of any signs, if and only if the axis shows 0 and what every series
      makes of the stack. */
  lemma {:induction false} StackExactly(c: Screen, series: Series, n: nat, i: nat)
    requires c.Linear() && 0.0 < c.lo <= c.hi && c.Shows(0.0) && n <= |series|
    ensures BarsAreExact(c, series, n, i) <==> ShowsAll(c, series, n, i)
    decreases n
  {
    if n > 0 {
      StackExactly(c, series, n - 1, i);
      BarsNext(c, series, n - 1, i);
      ShowsAllNext(c, series, n - 1, i);
      if ShowsAll(c, series, n - 1, i) {
        NextExactly(c, series, n - 1, i);
      }
    }
  }

  lemma ShowsAllNext(c: Screen, series: Series, s: nat, i: nat)
    requires s < |series|
    ensures ShowsAll(c, series, s + 1, i) <==> ShowsAll(c, series, s, i) && c.Shows(Total(series, s + 1, i))
  {
  }

  lemma BarsNext(c: Screen, series: Series, s: nat, i: nat)
    requires s < |series|
    ensures BarsAreExact(c, series, s + 1, i) <==>
            BarsAreExact(c, series, s, i) && (i < |series[s]| && series[s][i].Some? ==> BarIsExact(c, series, s, i))
  {
  }

  lemma NextExactly(c: Screen, series: Series, s: nat, i: nat)
    requires c.Linear() && 0.0 < c.lo <= c.hi && s < |series| && ShowsAll(c, series, s, i)
    ensures (i < |series[s]| && series[s][i].Some? ==> BarIsExact(c, series, s, i)) <==>
            c.Shows(Total(series, s + 1, i))
  {
    ShowsAllNext(c, series, s, i);
    if i >= |series[s]| || series[s][i].None? {
      assert c.Shows(Total(series, s, i)) && Total(series, s + 1, i) == Total(series, s, i);
    } else {
      if c.Shows(Total(series, s + 1, i)) {
        StackedBarsExact(c, series, s, i);
      }
      ExactIsShown(c, series, s, i);
    }
  }

  /** The bar goes from what the series before its own make of its stack to what they make of it with its own. */
  predicate Stands(c: Screen, series: Series, b: Bar)
  {
    && OfValue(b, series)
    && b.start == c.at(Total(series, b.series, b.index)) && b.end == c.at(Total(series, b.series + 1, b.index))
  }

  /** There is one bar for each value, in order; and all bars of a stack stand where the sums of the series put them if
      and only if the axis shows these sums. */
  lemma StackedBars(c: Screen, series: Series)
    requires c.Linear() && 0.0 < c.lo <= c.hi && c.Shows(0.0)
    ensures var bars := AllBars(c, series, true, |series|);
      && Lists(bars, series, |series|)
      && forall i: nat :: (forall k | 0 <= k < |bars| && bars[k].index == i :: Stands(c, series, bars[k])) <==>
                          ShowsAll(c, series, |series|, i)
  {
    AllBarsListed(c, series, true, |series|);
    var bars := AllBars(c, series, true, |series|);
    forall i: nat
      ensures (forall k | 0 <= k < |bars| && bars[k].index == i :: Stands(c, series, bars[k])) <==>
              ShowsAll(c, series, |series|, i)
    {
      StackExactly(c, series, |series|, i);
      StackListed(c, series, bars, i);
    }
  }

  lemma ExactStands(c: Screen, series: Series, b: Bar)
    requires OfValue(b, series) && b == BarAt(c, series, true, b.series, b.index)
    ensures Stands(c, series, b) <==> BarIsExact(c, series, b.series, b.index)
  {}

  lemma StackListed(c: Screen, series: Series, bars: seq<Bar>, i: nat)
    requires Lists(bars, series, |series|) && Made(bars, c, series, true)
    ensures (forall k | 0 <= k < |bars| && bars[k].index == i :: Stands(c, series, bars[k])) <==>
            BarsAreExact(c, series, |series|, i)
  {
    forall k | 0 <= k < |bars| && bars[k].index == i
      ensures Stands(c, series, bars[k]) <==> BarIsExact(c, series, bars[k].series, i)
    {
      ExactStands(c, series, bars[k]);
    }
    forall s | 0 <= s < |series| && i < |series[s]| && series[s][i].Some?
      ensures exists k :: 0 <= k < |bars| && bars[k].series == s && bars[k].index == i
    {
      assert HasBar(bars, s, i);
    }
  }

  /** With values of one sign it is enough that the axis shows 0 and the whole stack. */
  lemma OneSignShown(c: Screen, series: Series, i: nat)
    requires c.Linear() && (NonNegative(series) || NonPositive(series))
    requires c.Shows(0.0) && c.Shows(Total(series, |series|, i))
    ensures ShowsAll(c, series, |series|, i)
  {
    forall m: nat | m <= |series| ensures c.Shows(Total(series, m, i)) {
      TotalsGrow(series, m, |series|, i);
      c.ShowsBetween(Total(series, m, i), Total(series, |series|, i));
    }
  }

  /** The sum the scale is made for: `prev + (curr && curr.y) || 0` is 0 again after a hole. */
  function SerialSum(series: Series, n: nat, i: nat): real
    requires n <= |series|
  {
    if n == 0 then 0.0
    else if i < |series[n - 1]| && series[n - 1][i].Some? then SerialSum(series, n - 1, i) + series[n - 1][i].value
    else 0.0
  }

  predicate IsHole(series: Series, s: nat, i: nat)
    requires s < |series|
  {
    !(i < |series[s]| && series[s][i].Some?)
  }

  /** What the values before the last hole add up to. */
  function BeforeLastHole(series: Series, n: nat, i: nat): real
    requires n <= |series|
  {
    if n == 0 then 0.0
    else if IsHole(series, n - 1, i) then Total(series, n - 1, i)
    else BeforeLastHole(series, n - 1, i)
  }

  /** So the sum that the scale is made for lacks just the values before the last hole. */
  lemma {:induction false} SerialSumLacks(series: Series, n: nat, i: nat)
    requires n <= |series|
    ensures SerialSum(series, n, i) == Total(series, n, i) - BeforeLastHole(series, n, i)
  {
    if n > 0 {
      SerialSumLacks(series, n - 1, i);
    }
  }

  /** A hole above a bar of 3: the scale is not made for it. */
  lemma HoleHidesBar()
    ensures var series := [[Some(3.0)], [None]]; SerialSum(series, 2, 0) == 0.0 && Total(series, 2, 0) == 3.0
  {
    var series := [[Some(3.0)], [None]];
    assert Total(series, 1, 0) == 3.0;
    assert BeforeLastHole(series, 2, 0) == 3.0;
    SerialSumLacks(series, 2, 0);
  }

  /** With values of both signs the scale can lack the stack on the way: for 5 and -5 it is made for 0. */
  lemma SumHidesStack()
    ensures var series := [[Some(5.0)], [Some(-5.0)]]; SerialSum(series, 2, 0) == 0.0 && Total(series, 1, 0) == 5.0
  {
    var series := [[Some(5.0)], [Some(-5.0)]];
    assert SerialSum(series, 1, 0) == 5.0;
  }

  function Longest(series: Series): nat
  {
    if series == [] then 0
    else
      var l := Longest(series[..|series| - 1]);
      if l < |series[|series| - 1]| then |series[|series| - 1]| else l
  }

  lemma {:induction false} LongestBounds(series: Series, s: nat)
    requires s < |series|
    ensures |series[s]| <= Longest(series)
  {
    if s < |series| - 1 {
      LongestBounds(series[..|series| - 1], s);
    }
  }

  /** The data the scale of a stacked chart is made for: one sum for each index (`serialMap`). */
  function SerialSums(series: Series): Data
  {
    Nested(seq(Longest(series), i requires 0 <= i => Number(SerialSum(series, |series|, i))))
  }

  lemma {:induction false} NumbersAreLeaves(items: seq<Data>, i: nat)
    requires i < |items| && items[i].Number?
    ensures items[i].value in AllLeaves(items)
  {
    var n := |items| - 1;
    if i < n {
      NumbersAreLeaves(items[..n], i);
      assert items[..n][i] == items[i];
    }
  }

  /** The value axis of a bar chart: up from `y1` to `y2`, or right from `x1` to `x2` for horizontal bars. */
  function ScreenOf(rect: Rect, horizontal: bool, b: Bounds): Screen
  {
    if horizontal then Screen(v => rect.x1 + Along(rect.x2 - rect.x1, v, b), rect.x1, rect.x2)
    else Screen(v => rect.y1 - Along(rect.y1 - rect.y2, v, b), rect.y2, rect.y1)
  }

  function Along(axisLength: real, value: real, b: Bounds): real
  {
    if b.range == 0.0 then 0.0 else ProjectValue(axisLength, value, b)
  }

  lemma AlongAdds(axisLength: real, v: real, w: real, b: Bounds)
    requires b.range > 0.0
    ensures Along(axisLength, v, b) + (Along(axisLength, w, b) - Along(axisLength, 0.0, b))
            == Along(axisLength, v + w, b)
  {
    var r, m := b.range, b.min;
    var q, p, o := Along(axisLength, v, b), Along(axisLength, w, b), Along(axisLength, 0.0, b);
    assert axisLength * (v + w - m) == (q + (p - o)) * r by {
      assert q * r == axisLength * (v - m) && p * r == axisLength * (w - m) && o * r == axisLength * (0.0 - m);
    }
    QuotientIs(axisLength * (v + w - m), r, q + (p - o));
  }

  lemma AlongGrows(axisLength: real, v: real, w: real, b: Bounds)
    requires axisLength > 0.0 && b.range == b.max - b.min > 0.0 && v <= w
    ensures Along(axisLength, v, b) <= Along(axisLength, w, b)
  {
    if v < w {
      ProjectionGrows(axisLength, v, w, b);
    }
  }

  lemma ScreenLinear(rect: Rect, horizontal: bool, b: Bounds)
    requires rect.x2 > rect.x1 && rect.y1 > rect.y2 && b.range == b.max - b.min > 0.0
    ensures ScreenOf(rect, horizontal, b).Linear()
  {
    var c, l := ScreenOf(rect, horizontal, b), if horizontal then rect.x2 - rect.x1 else rect.y1 - rect.y2;
    forall v, w ensures c.Adds(v, w) {
      AlongAdds(l, v, w, b);
    }
    forall u, v, w | u <= v <= w ensures c.Between(u, v, w) {
      AlongGrows(l, u, v, b);
      AlongGrows(l, v, w, b);
    }
  }

  /** The ends of the scale are at the ends of the axis, and greater values are further up, or further right. */
  ghost predicate Spans(c: Screen, rect: Rect, horizontal: bool, b: Bounds)
  {
    && c.at(b.min) == (if horizontal then rect.x1 else rect.y1)
    && c.at(b.max) == (if horizontal then rect.x2 else rect.y2)
    && c.lo == (if horizontal then rect.x1 else rect.y2) && c.hi == (if horizontal then rect.x2 else rect.y1)
    && forall v, w | v < w :: if horizontal then c.at(v) < c.at(w) else c.at(v) > c.at(w)
  }

  lemma ScreenSpans(rect: Rect, horizontal: bool, b: Bounds)
    requires rect.x2 > rect.x1 && rect.y1 > rect.y2 && b.range == b.max - b.min > 0.0
    ensures Spans(ScreenOf(rect, horizontal, b), rect, horizontal, b)
  {
    var c, l := ScreenOf(rect, horizontal, b), if horizontal then rect.x2 - rect.x1 else rect.y1 - rect.y2;
    ProjectionGrows(l, b.min, b.max, b);
    forall v, w | v < w ensures if horizontal then c.at(v) < c.at(w) else c.at(v) > c.at(w) {
      ProjectionGrows(l, v, w, b);
    }
  }

  lemma ShownOnScreen(rect: Rect, horizontal: bool, b: Bounds, v: real)
    requires b.range > 0.0
    requires var l := if horizontal then rect.x2 - rect.x1 else rect.y1 - rect.y2; 0.0 <= ProjectValue(l, v, b) <= l
    ensures ScreenOf(rect, horizontal, b).Shows(v)
  {
  }

  /** The axis of a chart, made for `data` with 0 as its reference. */
  ghost predicate AxisFor(c: Screen, data: Data, rect: Rect, horizontal: bool, scaleMinSpace: real, onlyInteger: bool)
    requires rect.x2 > rect.x1 && rect.y1 > rect.y2 && scaleMinSpace > 0.0
  {
    var axisLength := if horizontal then rect.x2 - rect.x1 else rect.y1 - rect.y2;
    && c.Linear() && c.Shows(0.0) && (forall v | v in Leaves(data) :: c.Shows(v))
    && exists b :: MadeFor(b, data, Some(0.0), axisLength, scaleMinSpace, onlyInteger) && Spans(c, rect, horizontal, b)
  }

  /** The value axis, unless its scale is not found. */
  method MakeAxis(data: Data, rect: Rect, horizontal: bool, scaleMinSpace: real, onlyInteger: bool)
    returns (r: Outcome<Screen>)
    requires rect.x2 - rect.x1 >= 1.0 && rect.y1 - rect.y2 >= 1.0 && scaleMinSpace > 0.0
    ensures InProportion(if horizontal then rect.x2 - rect.x1 else rect.y1 - rect.y2, scaleMinSpace, ROUNDS) ==>
            r.Found?
    ensures r.Found? ==> AxisFor(r.value, data, rect, horizontal, scaleMinSpace, onlyInteger)
  {
    var axisLength := if horizontal then rect.x2 - rect.x1 else rect.y1 - rect.y2;
    var b := AutoScale(data, Some(0.0), axisLength, scaleMinSpace, onlyInteger);
    if b.Exceeded? {
      return Exceeded;
    }
    r := Found(ScreenOf(rect, horizontal, b.value));
    ScreenLinear(rect, horizontal, b.value);
    ScreenSpans(rect, horizontal, b.value);
    ShownOnScreen(rect, horizontal, b.value, 0.0);
    forall v | v in Leaves(data) ensures r.value.Shows(v) {
      ShownOnScreen(rect, horizontal, b.value, v);
    }
  }

  /** The data the scale of a plain chart is made for: the values of all series. */
  function SeriesData(series: Series): (d: Data)
  {
    Nested(seq(|series|, s requires 0 <= s < |series| => ValuesData(series[s])))
  }

  function ValuesData(values: seq<Option<real>>): (d: Data)
  {
    Nested(seq(|values|, i requires 0 <= i < |values| => if values[i].Some? then Number(values[i].value) else Missing))
  }

  lemma {:induction false} LeavesOfItem(items: seq<Data>, i: nat, v: real)
    requires i < |items| && v in Leaves(items[i])
    ensures v in AllLeaves(items)
  {
    var n := |items| - 1;
    if i < n {
      LeavesOfItem(items[..n], i, v);
      assert items[..n][i] == items[i];
    }
  }

  lemma ValueIsLeaf(series: Series, s: nat, i: nat)
    requires s < |series| && i < |series[s]| && series[s][i].Some?
    ensures series[s][i].value in Leaves(SeriesData(series))
  {
    NumbersAreLeaves(ValuesData(series[s]).items, i);
    LeavesOfItem(SeriesData(series).items, s, series[s][i].value);
  }

  /** The bar goes from the coordinate of 0 to that of its own value. */
  predicate IsExact(c: Screen, series: Series, b: Bar)
  {
    OfValue(b, series) && b.start == c.at(0.0) && b.end == c.at(series[b.series][b.index].value)
  }

  /** A chart without stacking: unless axis and space are out of all proportion its scale is found, made for the values
      of all series and 0.  Then there is one bar for each value, in order, and each goes exactly from the coordinate of
      0 to that of its value. */
  method PlainChart(series: Series, rect: Rect, horizontal: bool, scaleMinSpace: real, onlyInteger: bool)
    returns (r: Outcome<Screen>, bars: seq<Bar>)
    requires rect.x2 - rect.x1 >= 1.0 && rect.y1 - rect.y2 >= 1.0 && scaleMinSpace > 0.0
    ensures InProportion(if horizontal then rect.x2 - rect.x1 else rect.y1 - rect.y2, scaleMinSpace, ROUNDS) ==>
            r.Found?
    ensures r.Found? ==>
            && AxisFor(r.value, SeriesData(series), rect, horizontal, scaleMinSpace, onlyInteger)
            && Lists(bars, series, |series|) && forall k | 0 <= k < |bars| :: IsExact(r.value, series, bars[k])
  {
    bars := [];
    r := MakeAxis(SeriesData(series), rect, horizontal, scaleMinSpace, onlyInteger);
    if r.Found? {
      bars := DrawBars(r.value, series, false);
      forall k | 0 <= k < |bars| ensures IsExact(r.value, series, bars[k]) {
        ValueIsLeaf(series, bars[k].series, bars[k].index);
        assert IsPlain(r.value, series, bars[k]);
      }
    }
  }

  lemma {:induction false} NothingThere(series: Series, n: nat, i: nat)
    requires n <= |series| && forall s | 0 <= s < |series| :: i >= |series[s]|
    ensures Total(series, n, i) == 0.0
  {
    if n > 0 {
      NothingThere(series, n - 1, i);
    }
  }

  /** A stack's total is among the sums that the scale is made for if the values before its last hole add up to 0. */
  lemma SumIsLeaf(series: Series, s: nat, i: nat)
    requires BeforeLastHole(series, |series|, i) == 0.0 && s < |series| && i < |series[s]|
    ensures Total(series, |series|, i) in Leaves(SerialSums(series))
  {
    SerialSumLacks(series, |series|, i);
    LongestBounds(series, s);
    NumbersAreLeaves(SerialSums(series).items, i);
  }

  lemma StackShown(c: Screen, series: Series, i: nat)
    requires NonNegative(series) || NonPositive(series)
    requires BeforeLastHole(series, |series|, i) == 0.0 && c.Linear() && c.Shows(0.0)
    requires forall v | v in Leaves(SerialSums(series)) :: c.Shows(v)
    ensures ShowsAll(c, series, |series|, i)
  {
    if s :| 0 <= s < |series| && i < |series[s]| {
      SumIsLeaf(series, s, i);
    } else {
      NothingThere(series, |series|, i);
    }
    OneSignShown(c, series, i);
  }

  /** A stacked chart: unless axis and space are out of all proportion its scale is found, made for the sums at each
      index and 0.  Then there is one bar for each value, in order, and the bars of a stack stand where the sums of the
      series put them if and only if the axis shows all these sums; it does if the values are of one sign and those
      before the last hole of the stack add up to 0. */
  method StackedChart(series: Series, rect: Rect, horizontal: bool, scaleMinSpace: real, onlyInteger: bool)
    returns (r: Outcome<Screen>, bars: seq<Bar>)
    requires rect.x2 - rect.x1 >= 1.0 && rect.y1 - rect.y2 >= 1.0 && scaleMinSpace > 0.0
    requires if horizontal then rect.x1 > 0.0 else rect.y2 > 0.0
    ensures InProportion(if horizontal then rect.x2 - rect.x1 else rect.y1 - rect.y2, scaleMinSpace, ROUNDS) ==>
            r.Found?
    ensures r.Found? ==> var c := r.value;
      && AxisFor(c, SerialSums(series), rect, horizontal, scaleMinSpace, onlyInteger)
      && Lists(bars, series, |series|)
      && (forall i: nat :: (forall k | 0 <= k < |bars| && bars[k].index == i :: Stands(c, series, bars[k])) <==>
                           ShowsAll(c, series, |series|, i))
      && (NonNegative(series) || NonPositive(series) ==>
            forall i: nat | BeforeLastHole(series, |series|, i) == 0.0 :: ShowsAll(c, series, |series|, i))
  {
    bars := [];
    r := MakeAxis(SerialSums(series), rect, horizontal, scaleMinSpace, onlyInteger);
    if r.Found? {
      bars := DrawBars(r.value, series, true);
      StackedBars(r.value, series);
      if NonNegative(series) || NonPositive(series) {
        forall i: nat | BeforeLastHole(series, |series|, i) == 0.0 ensures ShowsAll(r.value, series, |series|, i) {
          StackShown(r.value, series, i);
        }
      }
    }
  }
}
