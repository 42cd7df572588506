/** Choosing the scale of a value axis (`Chartist.getBounds`), on exact real numbers. */
module Bounds {
  import opened ScaleArithmetic
  import Rho

  datatype Bounds = Bounds(low: real, high: real, oom: int, min: real, max: real, range: real, numberOfSteps: int,
                           step: real, values: seq<real>)

  /** `Exceeded` is the error thrown when the step search does not end. */
  datatype Outcome<T> = Exceeded | Found(value: T)

  const EPSILON: real := 0.0000000000000002221

  /** Chartist.projectLength. */
  function ProjectLength(axisLength: real, length: real, range: real): real
    requires range != 0.0
  {
    length / range * axisLength
  }

  lemma ProjectGrows(axisLength: real, a: real, b: real, range: real)
    requires axisLength > 0.0 && range > 0.0 && a < b
    ensures ProjectLength(axisLength, a, range) < ProjectLength(axisLength, b, range)
  {
    QuotientGrows(a, b, range);
    MulMonotone(a / range, b / range, axisLength);
  }

  /** The changes of the step after which the search gives up. */
  const ROUNDS := 1001

  /** How the step was chosen: step 1, the divisor found by `rho`, or `k` doublings (halvings when negative). */
  datatype Way = One | Factor | ByTwo(k: int)

  /** The axis and the space a step needs differ by a factor of less than about 2^rounds. */
  ghost predicate InProportion(axisLength: real, space: real, rounds: nat)
    requires axisLength > 0.0 && space > 0.0
  {
    space < Scaled(axisLength / 11.0, rounds) && axisLength < Scaled(space, rounds + 1)
  }

  lemma LengthOfUnit(axisLength: real, unit: real, range: real, n: int)
    requires axisLength > 0.0 && unit > 0.0 && 1 <= n <= 11 && range == n as real * unit
    ensures range > 0.0 && axisLength / 11.0 <= ProjectLength(axisLength, unit, range) <= axisLength
  {
    var q := unit / range;
    assert q * n as real == 1.0 by {
      assert q * range == unit;
      assert q * (n as real * unit) == (q * n as real) * unit;
    }
    assert 1.0 / 11.0 <= q <= 1.0;
  }

  lemma {:induction false} SmallPower(oom: int)
    requires oom < 0
    ensures 10.0 * Pow10(oom) <= 1.0
    decreases -oom
  {
    if oom < -1 {
      SmallPower(oom + 1);
    }
  }

  /** A negative power of ten goes into 1 a number of tens of times. */
  lemma {:induction false} Tens(oom: int) returns (k: nat)
    requires oom < 0
    ensures k > 0 && k % 10 == 0 && Times(k, Pow10(oom)) == 1.0
    decreases -oom
  {
    var u := Pow10(oom);
    if oom == -1 {
      k := 10;
    } else {
      k := Tens(oom + 1);
      TimesIsProduct(k, Pow10(oom + 1));
      k := 10 * k;
    }
    assert Pow10(oom + 1) == 10.0 * u;
    TimesIsProduct(k, u);
  }

  /** A doubling of a tenth or less that is above 1 is more than 11 times as much. */
  lemma AboveEleven(u: real, n: int, k: int)
    requires 0.0 < u <= 0.1 && n <= 11 && Scaled(u, k) > 1.0
    ensures Scaled(u, k) > Times(n, u)
  {
    assert Scaled(u, 1) == 2.0 * u && Scaled(u, 2) == 4.0 * u;
    assert Scaled(u, 3) == 8.0 * u && Scaled(u, 4) == 16.0 * u;
    if k < 3 {
      ScaledGrows(u, k, 3);
    } else if k > 4 {
      ScaledGrows(u, 4, k);
    }
    TimesIsProduct(11, u);
    if n < 11 {
      TimesGrows(n, 11, u);
    }
  }

  lemma ElevenTenths(n: int, u: real)
    requires 1 <= n <= 11 && 0.0 < u <= 0.1
    ensures Times(n, u) <= 1.1
  {
    if n < 11 {
      TimesGrows(n, 11, u);
    }
    TimesIsProduct(11, u);
  }

  lemma WholeMultiple(n: int, d: int)
    requires d > 0 && Rho.Divides(d, n)
    ensures IsMultiple(n as real, d as real)
  {
    var q := n / d;
    assert n == q * d;
    assert (q * d) as real == q as real * d as real;
    TimesIsProduct(q, d as real);
  }

  /** What a search for a step is given: the length of the axis, the space a step needs, the unit 10^oom, and the
      range before it is narrowed, which is so many units. */
  datatype Search = Search(axisLength: real, space: real, oom: int, unit: real, units: int, range: real,
                           onlyInteger: bool)
  {
    ghost predicate Valid()
    {
      && axisLength > 0.0 && space > 0.0
      && unit == Pow10(oom) > 0.0 && 1 <= units <= 11 && range == Times(units, unit) > 0.0
    }

    /** The unit is whole or at most a tenth. */
    lemma WholeOrTenth()
      requires Valid()
      ensures oom >= 0 ==> IsInt(unit) && unit >= 1.0 && IsInt(range) && range >= 1.0
      ensures oom < 0 ==> unit <= 0.1 && !IsInt(unit)
      ensures oom < 0 ==> range <= 1.1
    {
      TimesIsProduct(units, unit);
      if oom >= 0 {
        Pow10Int(oom);
        TimesInt(units, unit);
      } else {
        SmallPower(oom);
        ElevenTenths(units, unit);
      }
    }

    function Length(step: real): real
      requires range != 0.0
    {
      ProjectLength(axisLength, step, range)
    }

    predicate ScaleUp()
      requires range != 0.0
    {
      Length(unit) < space
    }

    lemma LengthGrows(a: real, b: real)
      requires Valid() && a <= b
      ensures Length(a) <= Length(b)
    {
      if a < b {
        ProjectGrows(axisLength, a, b, range);
      }
    }

    /** Doubling stops at the first step that needs no more than its space, halving before the first that
        would (or would not be whole). */
    ghost predicate Settled(k: int)
      requires Valid()
    {
      if ScaleUp() then k >= 1 && Length(Scaled(unit, k)) > space && Length(Scaled(unit, k - 1)) <= space
      else
        && k <= 0 && Length(Scaled(unit, k)) >= space
        && (Length(Scaled(unit, k - 1)) < space || (onlyInteger && !IsInt(Scaled(unit, k - 1))))
        && (onlyInteger && k < 0 ==> IsInt(Scaled(unit, k)))
    }

    /** One more change of the step after `k` of them. */
    ghost predicate GoesOn(k: nat)
      requires Valid()
    {
      if ScaleUp() then Length(Scaled(unit, k)) <= space
      else Length(Scaled(unit, -1 - k)) >= space && (onlyInteger ==> IsInt(Scaled(unit, -1 - k)))
    }

    /** A search that goes on after `k` changes has gone on after all earlier ones. */
    lemma {:induction false} GoesOnBefore(j: nat, k: nat)
      requires Valid() && j <= k && GoesOn(k)
      ensures GoesOn(j)
      decreases k - j
    {
      if j < k {
        GoesOnBefore(j + 1, k);
        if ScaleUp() {
          ScaledDouble(unit, j);
          LengthGrows(Scaled(unit, j), Scaled(unit, j + 1));
        } else {
          var half := Scaled(unit, -2 - j);
          ScaledDouble(unit, -2 - j);
          LengthGrows(half, 2.0 * half);
          if onlyInteger {
            IntDouble(half);
          }
        }
      }
    }

    /** The doubling and halving loop.  It gives up in its 1002nd round. */
    method ByTwo() returns (r: Outcome<real>, ghost k: int)
      requires Valid()
      ensures r.Exceeded? <==> GoesOn(ROUNDS)
      ensures r.Found? ==> r.value == Scaled(unit, k) && Settled(k)
    {
      var step := unit;
      k := 0;
      var optimizationCounter := 0;
      while true
        invariant 0 <= optimizationCounter <= 1001
        invariant k == (if ScaleUp() then optimizationCounter else -optimizationCounter) && step == Scaled(unit, k)
        invariant optimizationCounter > 0 ==> GoesOn(optimizationCounter - 1)
        invariant onlyInteger && k < 0 ==> IsInt(step)
        decreases 1001 - optimizationCounter
      {
        if ScaleUp() && Length(step) <= space {
          step := step * 2.0;
          k := k + 1;
        } else if !ScaleUp() && Length(step / 2.0) >= space {
          step := step / 2.0;
          ScaledDouble(unit, k - 1);
          if onlyInteger && step != step.Floor as real {
            step := step * 2.0;
            break;
          }
          k := k - 1;
        } else {
          ScaledDouble(unit, k - 1);
          break;
        }
        if optimizationCounter > 1000 {
          return Exceeded, k;
        }
        optimizationCounter := optimizationCounter + 1;
      }
      if GoesOn(ROUNDS) {
        GoesOnBefore(optimizationCounter, ROUNDS);
      }
      return Found(step), k;
    }

    /** Math.round(range / 10^oom). */
    method StepCount() returns (numberOfSteps: int)
      requires Valid()
      ensures numberOfSteps == units
    {
      TimesIsProduct(units, unit);
      QuotientIs(range, unit, units as real);
      numberOfSteps := (range / unit + 0.5).Floor;
    }

    /** `rho(range)`, which ends for ranges that are not whole, too; it is no use then. */
    method RangeFactor() returns (f: real)
      requires Valid()
      ensures f > 0.0
      ensures IsInt(range) ==>
                IsInt(f) && f >= 1.0 && Rho.IsRho(range.Floor, f.Floor) && Rho.Divides(f.Floor, range.Floor)
      ensures !IsInt(range) ==> f >= unit
    {
      WholeOrTenth();
      if range == range.Floor as real {
        var divisor, _ := Rho.Rho(range.Floor);
        return divisor as real;
      }
      ghost var k := Tens(oom);
      f := Rho.RhoOfFraction(range, units, k, unit);
      ghost var d: nat :| Rho.PartsOf(f, d, units, unit);
      TimesGrows(0, d, unit);
    }

    /** The step search. */
    method ChooseStep() returns (r: Outcome<real>)
      requires Valid()
      ensures r.Exceeded? <==> !NeedsNoLoop() && GoesOn(ROUNDS)
      ensures r.Found? ==>
                && r.value > 0.0 && Length(r.value) >= space
                && Chosen(if r.value < EPSILON then EPSILON else r.value)
    {
      var smallestFactor := 0.0;
      if onlyInteger {
        smallestFactor := RangeFactor();
        if RhoFits() {
          var d: nat :| Rho.IsRho(range.Floor, d) && d as real < unit && Length(d as real) >= space;
          Rho.RhoUnique(range.Floor, d, smallestFactor.Floor);
        }
      }
      if onlyInteger && Length(1.0) >= space {
        assert IsChosen(1.0, One);
        return Found(1.0);
      } else if onlyInteger && smallestFactor < unit && Length(smallestFactor) >= space {
        assert IsChosen(smallestFactor, Factor);
        return Found(smallestFactor);
      }
      ghost var k;
      r, k := ByTwo();
      if r.Found? {
        assert IsChosen(if r.value < EPSILON then EPSILON else r.value, Way.ByTwo(k));
      }
    }

    /** The range is whole, and the divisor found by `rho` is a step that has its space. */
    ghost predicate RhoFits()
      requires Valid()
    {
      IsInt(range) && exists d: nat | Rho.IsRho(range.Floor, d) :: d as real < unit && Length(d as real) >= space
    }

    /** Step 1 or the divisor found by `rho` will do, so there is no doubling or halving. */
    ghost predicate NeedsNoLoop()
      requires Valid()
    {
      onlyInteger && (Length(1.0) >= space || RhoFits())
    }

    ghost predicate Chosen(step: real)
      requires Valid()
    {
      exists way :: IsChosen(step, way)
    }

    /** In units of a tenth or less, onlyInteger makes the step 1, or longer than the range. */
    lemma LargeStep(step: real)
      requires Valid() && onlyInteger && oom < 0 && Chosen(step)
      ensures step >= 1.0 && (step == 1.0 || step > range)
    {
      WholeOrTenth();
      var way :| IsChosen(step, way);
      if way.ByTwo? {
        if Scaled(unit, way.k) <= 1.0 {
          LengthGrows(Scaled(unit, way.k), 1.0);
        }
        AboveEleven(unit, units, way.k);
      }
    }

    /** What the chosen step is. */
    ghost predicate IsChosen(step: real, way: Way)
      requires Valid()
    {
      match way
      case One => onlyInteger && Length(1.0) >= space && step == 1.0
      case Factor =>
        && onlyInteger && Length(1.0) < space && RhoFits()
        && IsInt(step) && step >= 1.0 && Rho.IsRho(range.Floor, step.Floor) && Rho.Divides(step.Floor, range.Floor)
      case ByTwo(k) =>
        && (onlyInteger ==> Length(1.0) < space && !RhoFits())
        && Settled(k) && step == if Scaled(unit, k) < EPSILON then EPSILON else Scaled(unit, k)
    }

    /** With whole units `onlyInteger` gives a whole step. */
    lemma ChosenWhole(step: real)
      requires Valid() && onlyInteger && oom >= 0 && Chosen(step)
      ensures IsInt(step)
    {
      WholeOrTenth();
      var way :| IsChosen(step, way);
      if way.ByTwo? {
        if way.k >= 0 {
          WholeDoubled(way.k);
        }
        assert Scaled(unit, way.k) >= 1.0;
      }
    }

    lemma {:induction false} WholeDoubled(k: nat)
      requires IsInt(unit) && unit >= 1.0
      ensures IsInt(Scaled(unit, k))
    {
      if k > 0 {
        WholeDoubled(k - 1);
        IntDouble(Scaled(unit, k - 1));
      }
    }

    /** A step of 2^j units would do: it has its space, and is whole if it has to be. */
    ghost predicate Suits(j: int)
      requires Valid()
    {
      Fits(j) && (onlyInteger ==> IsInt(Scaled(unit, j)))
    }

    lemma {:induction false} WholeAbove(j: int, k: int)
      requires Valid() && j <= k && IsInt(Scaled(unit, j))
      ensures IsInt(Scaled(unit, k))
      decreases k - j
    {
      if j < k {
        WholeAbove(j, k - 1);
        IntDouble(Scaled(unit, k - 1));
        ScaledDouble(unit, k - 1);
      }
    }

    /** The doubling and halving finds the least power of two times 10^oom that would do; unless the scale was doubled
        past one that fits exactly. */
    lemma LeastPowerOfTwo(k: int)
      requires Valid() && Settled(k)
      ensures Fits(k)
      ensures (forall j | Suits(j) :: k <= j) <==> !(ScaleUp() && exists j: nat :: Suits(j) && FitsExactly(j))
    {
      forall j | Suits(j) ensures k - 1 <= j {
        if j < k - 1 {
          LengthIncreases(j, k - 1);
          if onlyInteger {
            WholeAbove(j, k - 1);
          }
        }
      }
      if ScaleUp() {
        forall j: nat | FitsExactly(j) ensures j == k - 1 {
          if j > k {
            LengthIncreases(k, j);
          } else if j < k - 1 {
            LengthIncreases(j, k - 1);
          }
        }
        var below: nat := k - 1;
        assert Fits(below) <==> FitsExactly(below);
      } else {
        assert !Suits(k - 1);
      }
    }

    /** With `onlyInteger` the step is 1 if and only if that has its space. */
    lemma StepOneExactly(step: real)
      requires Valid() && onlyInteger && Chosen(step)
      ensures step == 1.0 <==> Length(1.0) >= space
    {
      var way :| IsChosen(step, way);
      if way.Factor? {
        var d: nat :| Rho.IsRho(range.Floor, d) && d as real < unit && Length(d as real) >= space;
        Rho.RhoUnique(range.Floor, d, step.Floor);
      } else if way.ByTwo? {
        LeastPowerOfTwo(way.k);
      }
    }

    /** A step of 2^j units has its space. */
    ghost predicate Fits(j: int)
      requires Valid()
    {
      Length(Scaled(unit, j)) >= space
    }

    /** And no more than that. */
    ghost predicate FitsExactly(j: int)
      requires Valid()
    {
      Length(Scaled(unit, j)) == space
    }

    lemma LengthIncreases(j: int, k: int)
      requires Valid() && j < k
      ensures Length(Scaled(unit, j)) < Length(Scaled(unit, k))
    {
      ScaledGrows(unit, j, k);
      ProjectGrows(axisLength, Scaled(unit, j), Scaled(unit, k), range);
    }

    /** Whole steps, divisors and halvings of 10^oom all divide the range. */
    lemma StepDividesRange(step: real, way: Way)
      requires Valid() && step > 0.0
      requires match way
        case One => IsInt(range) && step == 1.0
        case Factor => IsInt(range) && IsInt(step) && step >= 1.0 && Rho.Divides(step.Floor, range.Floor)
        case ByTwo(k) => k <= 0 && step == Scaled(unit, k)
      ensures IsMultiple(range, step)
    {
      match way
      case One =>
        TimesIsProduct(range.Floor, 1.0);
      case Factor =>
        WholeMultiple(range.Floor, step.Floor);
      case ByTwo(k) =>
        MultipleOfHalving(range, unit, -k);
    }

    /** As the range is 1 to 11 units, the search ends after `rounds` changes at most when axis and space differ by a
        factor below about 2^rounds.  So the number of rounds grows with the logarithm of that factor, and the error
        cannot come up unless it reaches about 2^1000. */
    lemma SearchEnds(rounds: nat)
      requires Valid() && InProportion(axisLength, space, rounds)
      ensures !GoesOn(rounds)
      ensures forall k | Settled(k) :: 0 - rounds <= k <= rounds
    {
      TimesIsProduct(units, unit);
      LengthOfUnit(axisLength, unit, range, units);
      var x := Length(unit);
      if ScaleUp() {
        LengthScales(rounds);
        ScaledMonotone(axisLength / 11.0, x, rounds);
      } else {
        var k := -1 - rounds;
        LengthScales(k);
        ScaledMonotone(x, axisLength, k);
        ScaledMonotone(axisLength, Scaled(space, rounds + 1), k);
        ScaledBack(space, rounds + 1);
      }
      forall k | Settled(k) ensures 0 - rounds <= k <= rounds {
        SettledWentOn(k, rounds);
      }
    }

    /** The changes made before a search settled went on. */
    lemma SettledWentOn(k: int, rounds: nat)
      requires Valid() && Settled(k) && !GoesOn(rounds)
      ensures 0 - rounds <= k <= rounds
    {
      if k > rounds && GoesOn(k - 1) {
        GoesOnBefore(rounds, k - 1);
      } else if k < 0 - rounds && GoesOn(-1 - k) {
        GoesOnBefore(rounds, -1 - k);
      }
    }

    lemma {:induction false} LengthScales(k: int)
      requires axisLength > 0.0 && unit > 0.0 && range > 0.0
      ensures Length(unit) > 0.0 && Length(Scaled(unit, k)) == Scaled(Length(unit), k)
      decreases if k < 0 then -k else k
    {
      if k > 0 {
        LengthScales(k - 1);
      } else if k < 0 {
        LengthScales(k + 1);
      }
    }
  }

  /** Raising the minimum by whole steps while the data still fits. */
  method RaiseMin(min: real, step: real, low: real) returns (newMin: real, ghost m: nat)
    requires step > 0.0 && min <= low
    ensures min <= newMin == min + Times(m, step) && newMin <= low < newMin + step
  {
    newMin, m := min, 0;
    while newMin + step <= low
      invariant min <= newMin == min + Times(m, step) && newMin <= low
      decreases StepsIn(low - newMin, step)
    {
      OneStepLess(low - newMin, step);
      newMin, m := newMin + step, m + 1;
    }
  }

  /** Lowering the maximum likewise. */
  method LowerMax(max: real, step: real, high: real) returns (newMax: real, ghost m: nat)
    requires step > 0.0 && high <= max
    ensures max >= newMax == max - Times(m, step) && newMax - step < high <= newMax
  {
    newMax, m := max, 0;
    while newMax - step >= high
      invariant max >= newMax == max - Times(m, step) && high <= newMax
      decreases StepsIn(newMax - high, step)
    {
      OneStepLess(newMax - high, step);
      newMax, m := newMax - step, m + 1;
    }
  }

  /** The ticks: from the minimum by whole steps as far as the maximum. */
  method Ticks(min: real, max: real, step: real) returns (values: seq<real>)
    requires step > 0.0 && min <= max
    ensures |values| > 0 && forall j | 0 <= j < |values| :: values[j] == min + Times(j, step)
    ensures values[|values| - 1] <= max < values[|values| - 1] + step
  {
    values := [];
    var i := min;
    while i <= max
      invariant i == min + Times(|values|, step)
      invariant forall j | 0 <= j < |values| :: values[j] == min + Times(j, step)
      invariant if |values| > 0 then values[|values| - 1] <= max else i <= max
      decreases StepsIn(max - i + step, step)
    {
      OneStepLess(max - i + step, step);
      values := values + [i];
      i := i + step;
    }
  }

  /** The number of units between the data's ends, each rounded outwards. */
  function Units(low: real, high: real, u: real): int
    requires u > 0.0
  {
    Ceil(high / u) - (low / u).Floor
  }

  /** Before narrowing the range is 1 to 11 units of 10^oom, and encloses the data. */
  lemma InitialRange(low: real, high: real, u: real)
    requires u > 0.0 && u <= high - low < 10.0 * u
    ensures 1 <= Units(low, high, u) <= 11
    ensures Times((low / u).Floor, u) <= low && high <= Times(Ceil(high / u), u)
    ensures Times(Ceil(high / u), u) - Times((low / u).Floor, u) == Times(Units(low, high, u), u)
  {
    WholeUnits(low, u);
    WholeUnits(high, u);
    var n := Units(low, high, u);
    TimesSum((low / u).Floor, n, u);
    TimesIsProduct(12, u);
    if n < 1 {
      TimesGrows(n, 1, u);
    } else if n > 11 {
      TimesGrows(11, n, u);
      TimesIsProduct(11, u);
    }
  }

  /** Narrowing the range or widening the step gives a step more space. */
  lemma SpaceGrows(axisLength: real, step: real, range: real, step': real, range': real)
    requires axisLength > 0.0 && 0.0 < step <= step' && 0.0 < range' <= range
    ensures ProjectLength(axisLength, step, range) <= ProjectLength(axisLength, step', range')
  {
    var q, q' := step / range, step' / range';
    assert q * range' <= q * range by {
      assert q > 0.0;
      MulMonotone(range', range, q);
    }
    CancelMonotone(q, q', range');
    MulMonotone(q, q', axisLength);
  }

  /** The last of the ticks meets the maximum just when the step divides the range before narrowing. */
  lemma LastTick(range: real, d: real, step: real, m: int, c: int)
    requires step > 0.0 && range == d + Times(m, step) && Times(c, step) <= d < Times(c, step) + step
    ensures Times(c, step) == d <==> IsMultiple(range, step)
  {
    TimesSum(c, m, step);
    if IsMultiple(range, step) {
      var n :| range == Times(n, step);
      TimesSum(n - m, m, step);
      if n - m < c {
        TimesGrows(n - m, c, step);
      } else if n - m > c {
        TimesGrows(c, n - m, step);
      }
    }
  }

  /** The step search that `getBounds` makes. */
  ghost function SearchOf(axisLength: real, high: real, low: real, scaleMinSpace: real, onlyInteger: bool): (s: Search)
    requires axisLength > 0.0 && scaleMinSpace > 0.0 && low < high
    ensures s.Valid()
  {
    var oom := OrderOfMagnitude(high - low);
    var unit := Pow10(oom);
    var n := Units(low, high, unit);
    InitialRange(low, high, unit);
    TimesIsProduct(n, unit);
    Search(axisLength, scaleMinSpace, oom, unit, n, Times(n, unit), onlyInteger)
  }

  /** Chartist.getBounds. */
  method GetBounds(axisLength: real, high: real, low: real, scaleMinSpace: real, onlyInteger: bool)
    returns (r: Outcome<Bounds>)
    requires axisLength > 0.0 && scaleMinSpace > 0.0 && low < high
    ensures var search := SearchOf(axisLength, high, low, scaleMinSpace, onlyInteger);
      && (r.Exceeded? <==> !search.NeedsNoLoop() && search.GoesOn(ROUNDS))
      && (r.Found? ==> Scales(r.value, low, high, search) && search.Chosen(r.value.step))
      && (r.Found? ==>
            r.value.oom == OrderOfMagnitude(high - low) && r.value.numberOfSteps == Units(low, high, search.unit))
  {
    var oom := OrderOfMagnitude(high - low);
    var unit := Pow10(oom);
    var min := Times((low / unit).Floor, unit);
    var max := Times(Ceil(high / unit), unit);
    var range := max - min;
    InitialRange(low, high, unit);
    var search := Search(axisLength, scaleMinSpace, oom, unit, Units(low, high, unit), range, onlyInteger);
    assert search == SearchOf(axisLength, high, low, scaleMinSpace, onlyInteger);
    var step := search.ChooseStep();
    if step.Exceeded? {
      return Exceeded;
    }
    var st := if step.value < EPSILON then EPSILON else step.value;
    var b := Narrow(search, low, high, min, max, step.value, st);
    r := Found(b);
  }

  /** The end of `getBounds`: narrowing the range and setting the ticks. */
  method Narrow(s: Search, low: real, high: real, min: real, max: real, step: real, st: real) returns (b: Bounds)
    requires s.Valid() && s.units == Units(low, high, s.unit) && s.range == max - min && low < high
    requires Times((low / s.unit).Floor, s.unit) == min <= low && high <= max == Times(Ceil(high / s.unit), s.unit)
    requires 0.0 < step <= st && s.Length(step) >= s.space && s.Chosen(st)
    ensures Scales(b, low, high, s) && b.step == st && b.oom == s.oom && b.numberOfSteps == Units(low, high, s.unit)
  {
    var numberOfSteps := s.StepCount();
    var newMin, m := RaiseMin(min, st, low);
    var newMax, m' := LowerMax(max, st, high);
    var values := Ticks(newMin, newMax, st);
    b := Bounds(low, high, s.oom, newMin, newMax, newMax - newMin, numberOfSteps, st, values);
    SpaceGrows(s.axisLength, step, s.range, st, newMax - newMin);
    TimesSum(m, m', st);
    LastTick(s.range, newMax - newMin, st, m + m', |values| - 1);
    assert WholeSteps(newMin - min, st) && WholeSteps(max - newMax, st);
    if s.onlyInteger && s.oom >= 0 {
      s.WholeOrTenth();
      s.ChosenWhole(st);
      TimesInt((low / s.unit).Floor, s.unit);
      TimesInt(Ceil(high / s.unit), s.unit);
      WholeTicks(min, max, newMin, newMax, st, m, m', values);
    }
  }

  ghost predicate WholeSteps(x: real, step: real)
  {
    exists m: nat :: x == Times(m, step)
  }

  /** What a scale for data from `low` to `high` is to be. */
  ghost predicate Scales(b: Bounds, low: real, high: real, search: Search)
    requires search.Valid()
  {
    && b.low == low && b.high == high
    && b.step > 0.0 && b.range == b.max - b.min > 0.0
    // the range encloses the data, with less than a step to spare at each end
    && b.min <= low < b.min + b.step
    && b.max - b.step < high <= b.max
    // its ends have moved in by whole steps from multiples of the unit
    && WholeSteps(b.min - Times((low / search.unit).Floor, search.unit), b.step)
    && WholeSteps(Times(Ceil(high / search.unit), search.unit) - b.max, b.step)
    // a step has its space on the final axis
    && ProjectLength(search.axisLength, b.step, b.range) >= search.space
    // the ticks go from the minimum by whole steps, as far as the maximum
    && |b.values| > 0 && (forall j | 0 <= j < |b.values| :: b.values[j] == b.min + Times(j, b.step))
    && b.values[|b.values| - 1] <= b.max < b.values[|b.values| - 1] + b.step
    && (b.values[|b.values| - 1] == b.max <==> IsMultiple(search.range, b.step))
    // they are all whole, if asked, when the data's ends are at least 1 apart
    && (search.onlyInteger && search.oom >= 0 ==> IsInt(b.step) && IsInt(b.min) && IsInt(b.max) && AllWhole(b.values))
  }

  ghost predicate AllWhole(values: seq<real>)
  {
    forall j | 0 <= j < |values| :: IsInt(values[j])
  }

  /** When the last tick is the maximum: always, if the step is the divisor of the range or a halving of 10^oom; for
      step 1 if the range is whole; for `k` doublings if 2^k divides the number of units in the range. */
  lemma TicksEndAtMax(b: Bounds, low: real, high: real, s: Search, way: Way)
    requires s.Valid() && Scales(b, low, high, s) && s.IsChosen(b.step, way)
    requires way.ByTwo? ==> b.step == Scaled(s.unit, way.k)
    ensures b.values[|b.values| - 1] == b.max <==>
            match way
            case One => IsInt(s.range)
            case Factor => true
            case ByTwo(k) => k <= 0 || s.units % PowerOfTwo(k) == 0
  {
    match way
    case One =>
      if IsMultiple(s.range, 1.0) {
        var n :| s.range == Times(n, 1.0);
        TimesIsProduct(n, 1.0);
      } else if IsInt(s.range) {
        s.StepDividesRange(b.step, way);
      }
    case Factor => s.StepDividesRange(b.step, way);
    case ByTwo(k) =>
      if k <= 0 {
        s.StepDividesRange(b.step, way);
      } else {
        ScaledIsTimes(s.unit, k);
        MultipleOfUnits(s.units, PowerOfTwo(k), s.unit);
      }
  }

  /** Whenever the data's ends are at least 1 apart, onlyInteger makes every tick whole.  For ends that are closer it
      does so exactly when the low end, rounded down to the unit, is whole. */
  lemma WholeTicksExactly(axisLength: real, high: real, low: real, space: real, b: Bounds)
    requires axisLength > 0.0 && space > 0.0 && low < high
    requires var s := SearchOf(axisLength, high, low, space, true); Scales(b, low, high, s) && s.Chosen(b.step)
    ensures var u := Pow10(OrderOfMagnitude(high - low));
      AllWhole(b.values) <==> high - low >= 1.0 || IsInt(Times((low / u).Floor, u))
  {
    var s := SearchOf(axisLength, high, low, space, true);
    s.WholeOrTenth();
    if s.oom < 0 {
      SmallPower(s.oom);
      s.LargeStep(b.step);
      InitialRange(low, high, s.unit);
      SmallRange(low, high, s, b);
      assert AllWhole(b.values) <==> IsInt(b.values[0]);
    }
  }

  /** In a range shorter than 1 whose steps are 1 or longer than the range, the minimum stays where it was. */
  lemma SmallRange(low: real, high: real, s: Search, b: Bounds)
    requires s.Valid() && s.unit <= 0.1
    requires s.range == Times(Ceil(high / s.unit), s.unit) - Times((low / s.unit).Floor, s.unit)
    requires Scales(b, low, high, s) && (b.step == 1.0 || b.step > s.range) && b.step >= 1.0
    ensures b.values[0] == Times((low / s.unit).Floor, s.unit) && b.max <= Times(Ceil(high / s.unit), s.unit)
    ensures AllWhole(b.values) <==> IsInt(b.values[0])
  {
    var min, max := Times((low / s.unit).Floor, s.unit), Times(Ceil(high / s.unit), s.unit);
    var m: nat :| b.min - min == Times(m, b.step);
    var m': nat :| max - b.max == Times(m', b.step);
    WholeUnits(low, s.unit);
    if m > 0 {
      TimesGrows(0, m, b.step);
    }
    if m' > 0 {
      TimesGrows(0, m', b.step);
    }
    assert b.min == min && b.max <= max;
    forall j | 0 <= j < |b.values| && IsInt(b.values[0]) ensures IsInt(b.values[j]) {
      if b.step == 1.0 {
        TimesInt(j, 1.0);
        SumInt(b.min, Times(j, 1.0));
      } else if j > 0 {
        TimesGrows(0, |b.values| - 1, b.step);
      }
    }
  }

  /** From 0.2 to 0.9 the only tick is 0.2, however long the axis. */
  lemma TickNotWhole(axisLength: real, space: real, b: Bounds)
    requires axisLength > 0.0 && space > 0.0
    requires var s := SearchOf(axisLength, 0.9, 0.2, space, true); Scales(b, 0.2, 0.9, s) && s.Chosen(b.step)
    ensures b.values == [0.2]
  {
    var s := SearchOf(axisLength, 0.9, 0.2, space, true);
    InTenths();
    s.WholeOrTenth();
    s.LargeStep(b.step);
    SmallRange(0.2, 0.9, s, b);
    if |b.values| > 1 {
      TimesGrows(0, |b.values| - 1, b.step);
    }
  }

  /** From 0 to 8 on an axis of 80, with 20 for each step: 2 would fit exactly, but 1 is doubled twice. */
  lemma DoubledTooFar()
    ensures var s := SearchOf(80.0, 8.0, 0.0, 20.0, false); s.Settled(2) && s.ScaleUp() && s.FitsExactly(1)
  {
    var s := SearchOf(80.0, 8.0, 0.0, 20.0, false);
    assert OrderOfMagnitude(8.0 - 0.0) == 0;
    assert Units(0.0, 8.0, 1.0) == 8;
    TimesIsProduct(8, 1.0);
    assert Scaled(1.0, 1) == 2.0 && Scaled(1.0, 2) == 4.0;
    assert s.Length(1.0) == 10.0 && s.Length(2.0) == 20.0 && s.Length(4.0) == 40.0;
  }

  lemma InTenths()
    ensures OrderOfMagnitude(0.9 - 0.2) == -1 && Pow10(-1) == 0.1
    ensures (0.2 / 0.1).Floor == 2 && Ceil(0.9 / 0.1) == 9 && Times(2, 0.1) == 0.2 && Times(9, 0.1) == 0.9
            && Times(7, 0.1) == 0.7
  {
    assert OrderOfMagnitude(7.0) == 0 && 0.7 * 10.0 == 7.0;
    assert 0.2 / 0.1 == 2.0 && 0.9 / 0.1 == 9.0;
    TimesIsProduct(2, 0.1);
    TimesIsProduct(7, 0.1);
    TimesIsProduct(9, 0.1);
  }

  lemma WholeTicks(min: real, max: real, newMin: real, newMax: real, step: real, m: nat, m': nat, values: seq<real>)
    requires IsInt(min) && IsInt(max) && IsInt(step)
    requires newMin == min + Times(m, step) && newMax == max - Times(m', step)
    requires forall j | 0 <= j < |values| :: values[j] == newMin + Times(j, step)
    ensures IsInt(newMin) && IsInt(newMax) && forall j | 0 <= j < |values| :: IsInt(values[j])
  {
    TimesInt(m, step);
    TimesInt(m', step);
    SumInt(min, Times(m, step));
    SumInt(max, -Times(m', step));
    forall j | 0 <= j < |values| ensures IsInt(values[j]) {
      TimesInt(j, step);
      SumInt(newMin, Times(j, step));
    }
  }
}
