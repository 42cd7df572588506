/** The range of the data of a value axis (`Chartist.getHighLow`). */
module HighLow {

  datatype Option<T> = None | Some(value: T)

  /** Chart data: numbers nested in arrays to any depth.  A leaf that does not coerce to a number is NaN. */
  datatype Data = Missing | Nested(items: seq<Data>) | NotANumber | Number(value: real)

  /** Two to the power `k`. */
  function TwoTo(k: nat): int
  {
    if k == 0 then 1 else 2 * TwoTo(k - 1)
  }

  const MAX_INT: int := TwoTo(1024) - TwoTo(971)

  /** Number.MAX_VALUE. */
  const MAX_VALUE: real := MAX_INT as real

  function Leaves(d: Data): seq<real>
  {
    match d
    case Missing => []
    case NotANumber => []
    case Number(v) => [v]
    case Nested(items) => AllLeaves(items)
  }

  function AllLeaves(items: seq<Data>): seq<real>
  {
    if items == [] then [] else AllLeaves(items[..|items| - 1]) + Leaves(items[|items| - 1])
  }

  ghost predicate IsTop(h: real, vs: seq<real>)
  {
    h in vs && forall v | v in vs :: v <= h
  }

  ghost predicate IsBottom(l: real, vs: seq<real>)
  {
    l in vs && forall v | v in vs :: l <= v
  }

  lemma Join(was: real, a: seq<real>, mid: real, b: seq<real>, end: real)
    ensures IsTop(mid, [was] + a) && IsTop(end, [mid] + b) ==> IsTop(end, [was] + (a + b))
    ensures IsBottom(mid, [was] + a) && IsBottom(end, [mid] + b) ==> IsBottom(end, [was] + (a + b))
  {
    SameMembers(was, a, b);
    SameMembers(mid, [], b);
    assert [mid] + ([] + b) == [mid] + b;
  }

  lemma SameMembers(x: real, a: seq<real>, b: seq<real>)
    ensures forall v :: v in [x] + (a + b) <==> v in [x] + a || v in b
    ensures x in [x] + a
  {
    assert [x] + (a + b) == ([x] + a) + b;
    assert ([x] + a)[0] == x;
  }

  /** Ends that coincide (or are the wrong way round) are spread so that 0 becomes one of them. */
  function SpreadOf(high: real, low: real): (r: (real, real))
    ensures r.0 > r.1
    ensures low == high ==> r.1 <= low <= r.0 && (r.0 == 0.0 || r.1 == 0.0)
  {
    if high > low then (high, low)
    else if low == 0.0 then (1.0, low)
    else if low < 0.0 then (0.0, low)
    else if high > 0.0 then (high, 0.0)
    else (1.0, 0.0)
  }

  class Extent {
    var high: real
    var low: real

    constructor (high: real, low: real)
      ensures this.high == high && this.low == low
    {
      this.high, this.low := high, low;
    }

    /** The inner function: widen the range to every number found, on the sides that are to be found. */
    method Widen(d: Data, findHigh: bool, findLow: bool)
      modifies this
      ensures if findHigh then IsTop(high, [old(high)] + Leaves(d)) else high == old(high)
      ensures if findLow then IsBottom(low, [old(low)] + Leaves(d)) else low == old(low)
      decreases d
    {
      match d
      case Missing =>
      case NotANumber =>
      case Number(value) =>
        if findHigh && value > high {
          high := value;
        }
        if findLow && value < low {
          low := value;
        }
      case Nested(items) =>
        for i := 0 to |items|
          invariant if findHigh then IsTop(high, [old(high)] + AllLeaves(items[..i])) else high == old(high)
          invariant if findLow then IsBottom(low, [old(low)] + AllLeaves(items[..i])) else low == old(low)
        {
          assert AllLeaves(items[..i + 1]) == AllLeaves(items[..i]) + Leaves(items[i]) by {
            assert items[..i + 1][..i] == items[..i];
          }
          ghost var h, l := high, low;
          Widen(items[i], findHigh, findLow);
          Join(old(high), AllLeaves(items[..i]), h, Leaves(items[i]), high);
          Join(old(low), AllLeaves(items[..i]), l, Leaves(items[i]), low);
        }
        assert items[..|items|] == items;
    }

    method Spread()
      modifies this
      ensures (high, low) == SpreadOf(old(high), old(low))
    {
      if high <= low {
        if low == 0.0 {
          high := 1.0;
        } else if low < 0.0 {
          high := 0.0;
        } else if high > 0.0 {
          low := 0.0;
        } else {
          high := 1.0;
          low := 0.0;
        }
      }
    }
  }

  /** The numbers the high end is the greatest of: the data, or the end set in the options; and the reference. */
  function Highs(data: Data, end: Option<real>, reference: Option<real>): seq<real>
  {
    (if end.Some? then [end.value] else [-MAX_VALUE] + Leaves(data)) + if reference.Some? then [reference.value] else []
  }

  function Lows(data: Data, end: Option<real>, reference: Option<real>): seq<real>
  {
    (if end.Some? then [end.value] else [MAX_VALUE] + Leaves(data)) + if reference.Some? then [reference.value] else []
  }

  /** The numbers that count when the options set no end. */
  function Counted(data: Data, reference: Option<real>): seq<real>
  {
    Leaves(data) + if reference.Some? then [reference.value] else []
  }

  ghost predicate AllRepresentable(vs: seq<real>)
  {
    forall v | v in vs :: -MAX_VALUE <= v <= MAX_VALUE
  }

  /** With no end set: two different numbers make their extremes the ends; one and the same number makes an end of it
      and of 0; and from nothing, or nothing but 0, the range is from 0 to 1. */
  lemma EndsOfData(data: Data, reference: Option<real>, h: real, l: real)
    requires IsTop(h, Highs(data, None, reference)) && IsBottom(l, Lows(data, None, reference))
    requires AllRepresentable(Counted(data, reference))
    ensures var vs, (high, low) := Counted(data, reference), SpreadOf(h, l);
      && (forall v, w | v in vs && w in vs && v < w :: IsTop(high, vs) && IsBottom(low, vs))
      && (forall v | v in vs && (forall w | w in vs :: w == v) ::
            (v > 0.0 ==> high == v && low == 0.0) && (v < 0.0 ==> high == 0.0 && low == v))
      && ((forall v | v in vs :: v == 0.0) ==> high == 1.0 && low == 0.0)
  {
    var vs := Counted(data, reference);
    assert forall v :: v in Highs(data, None, reference) <==> v == -MAX_VALUE || v in vs by {
      assert Highs(data, None, reference) == [-MAX_VALUE] + vs;
    }
    assert forall v :: v in Lows(data, None, reference) <==> v == MAX_VALUE || v in vs by {
      assert Lows(data, None, reference) == [MAX_VALUE] + vs;
    }
    MaxPositive();
  }

  lemma MaxPositive()
    ensures MAX_VALUE > 0.0
  {
    TwoToGrows(971, 1024);
  }

  lemma {:induction false} TwoToGrows(j: nat, k: nat)
    requires j < k
    ensures 0 < TwoTo(j) < TwoTo(k)
  {
    if j + 1 < k {
      TwoToGrows(j, k - 1);
    } else {
      TwoToPositive(j);
    }
  }

  lemma {:induction false} TwoToPositive(k: nat)
    ensures TwoTo(k) > 0
  {
    if k > 0 {
      TwoToPositive(k - 1);
    }
  }

  /** The range is never empty.  A side that the options do not set leaves no number of the data out, and the
      reference value is always inside. */
  method GetHighLow(data: Data, high: Option<real>, low: Option<real>, reference: Option<real>)
    returns (hl: Extent, ghost h: real, ghost l: real)
    ensures fresh(hl) && hl.high > hl.low
    ensures IsTop(h, Highs(data, high, reference)) && IsBottom(l, Lows(data, low, reference))
    ensures (hl.high, hl.low) == SpreadOf(h, l)
    ensures high.None? ==> forall v | v in Leaves(data) :: v <= hl.high
    ensures low.None? ==> forall v | v in Leaves(data) :: hl.low <= v
    ensures reference.Some? ==> hl.low <= reference.value <= hl.high
  {
    var findHigh, findLow := high.None?, low.None?;
    hl := new Extent(if findHigh then -MAX_VALUE else high.value, if findLow then MAX_VALUE else low.value);
    if findHigh || findLow {
      hl.Widen(data, findHigh, findLow);
    }
    assert findHigh ==> forall v | v in Leaves(data) :: v in [-MAX_VALUE] + Leaves(data);
    assert findLow ==> forall v | v in Leaves(data) :: v in [MAX_VALUE] + Leaves(data);
    if reference.Some? {
      hl.high := if reference.value > hl.high then reference.value else hl.high;
      hl.low := if reference.value < hl.low then reference.value else hl.low;
    }
    h, l := hl.high, hl.low;
    hl.Spread();
  }
}
