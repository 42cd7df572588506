/** Arithmetic of the chart scale, on exact real numbers. */
module ScaleArithmetic {

  function Ceil(x: real): int
  {
    -(-x).Floor
  }

  ghost predicate IsInt(x: real)
  {
    x == x.Floor as real
  }

  /** `n` times `u`, by repeated addition. */
  function Times(n: int, u: real): real
    decreases if n < 0 then -n else n
  {
    if n == 0 then 0.0 else if n > 0 then Times(n - 1, u) + u else Times(n + 1, u) - u
  }

  ghost predicate IsMultiple(x: real, unit: real)
  {
    exists n :: x == Times(n, unit)
  }

  /** 10 to the power `k`. */
  function Pow10(k: int): (r: real)
    ensures r > 0.0
    decreases if k < 0 then -k else k
  {
    if k == 0 then 1.0 else if k > 0 then 10.0 * Pow10(k - 1) else Pow10(k + 1) / 10.0
  }

  /** `u` times 2 to the power `k`. */
  function Scaled(u: real, k: int): (r: real)
    requires u > 0.0
    ensures r > 0.0
    decreases if k < 0 then -k else k
  {
    if k == 0 then u else if k > 0 then 2.0 * Scaled(u, k - 1) else Scaled(u, k + 1) / 2.0
  }

  lemma ScaledDouble(u: real, k: int)
    requires u > 0.0
    ensures Scaled(u, k + 1) == 2.0 * Scaled(u, k)
  {
  }

  lemma {:induction false} ScaledGrows(u: real, j: int, k: int)
    requires u > 0.0 && j < k
    ensures 2.0 * Scaled(u, j) <= Scaled(u, k)
    decreases k - j
  {
    ScaledDouble(u, j);
    if j + 1 < k {
      ScaledGrows(u, j + 1, k);
    }
  }

  lemma IntDouble(x: real)
    requires IsInt(x)
    ensures IsInt(2.0 * x)
  {
    assert 2.0 * x == (2 * x.Floor) as real;
  }

  lemma FloorDown(x: real)
    requires x > 1.0
    ensures (x / 10.0).Floor < x.Floor
  {
  }

  /** Chartist.orderOfMagnitude: the floor of the decimal logarithm. */
  function OrderOfMagnitude(value: real): (oom: int)
    requires value > 0.0
    ensures Pow10(oom) <= value < 10.0 * Pow10(oom)
    decreases if value >= 10.0 then value.Floor else if value < 1.0 then (1.0 / value).Floor else 0
  {
    if value >= 10.0 then
      FloorDown(value);
      OrderOfMagnitude(value / 10.0) + 1
    else if value < 1.0 then
      assert 1.0 / value > 1.0 && 1.0 / (value * 10.0) == 1.0 / value / 10.0;
      FloorDown(1.0 / value);
      OrderOfMagnitude(value * 10.0) - 1
    else 0
  }

  lemma {:induction false} ScaledLinear(u: real, k: int)
    requires u > 0.0
    ensures Scaled(2.0 * u, k) == 2.0 * Scaled(u, k)
    decreases if k < 0 then -k else k
  {
    if k > 0 {
      ScaledLinear(u, k - 1);
    } else if k < 0 {
      ScaledLinear(u, k + 1);
    }
  }

  lemma {:induction false} ScaledBack(u: real, k: nat)
    requires u > 0.0
    ensures Scaled(Scaled(u, k), 0 - k) == u
  {
    if k > 0 {
      ScaledBack(u, k - 1);
      ScaledLinear(Scaled(u, k - 1), 0 - k);
    }
  }

  lemma {:induction false} ScaledMonotone(a: real, b: real, k: int)
    requires 0.0 < a <= b
    ensures Scaled(a, k) <= Scaled(b, k) && (a < b ==> Scaled(a, k) < Scaled(b, k))
    decreases if k < 0 then -k else k
  {
    if k > 0 {
      ScaledMonotone(a, b, k - 1);
    } else if k < 0 {
      ScaledMonotone(a, b, k + 1);
    }
  }

  lemma {:induction false} TimesIsProduct(n: int, u: real)
    ensures Times(n, u) == n as real * u
    decreases if n < 0 then -n else n
  {
    if n > 0 {
      TimesIsProduct(n - 1, u);
      assert n as real == (n - 1) as real + 1.0;
    } else if n < 0 {
      TimesIsProduct(n + 1, u);
      assert n as real == (n + 1) as real - 1.0;
    }
  }

  lemma TimesNext(n: int, u: real)
    ensures Times(n + 1, u) == Times(n, u) + u
  {
  }

  lemma {:induction false} TimesSum(m: int, n: int, u: real)
    ensures Times(m + n, u) == Times(m, u) + Times(n, u)
    decreases if n < 0 then -n else n
  {
    if n > 0 {
      TimesSum(m, n - 1, u);
      TimesNext(m + n - 1, u);
    } else if n < 0 {
      TimesSum(m, n + 1, u);
      TimesNext(m + n, u);
    }
  }

  lemma {:induction false} TimesGrows(m: int, n: int, u: real)
    requires m < n && u > 0.0
    ensures Times(m, u) + u <= Times(n, u)
    decreases n - m
  {
    TimesNext(m, u);
    if m + 1 < n {
      TimesGrows(m + 1, n, u);
    }
  }

  lemma {:induction false} TimesHalf(n: int, u: real)
    ensures Times(2 * n, u / 2.0) == Times(n, u)
    decreases if n < 0 then -n else n
  {
    if n > 0 {
      TimesHalf(n - 1, u);
      TimesNext(2 * n - 2, u / 2.0);
      TimesNext(2 * n - 1, u / 2.0);
    } else if n < 0 {
      TimesHalf(n + 1, u);
      TimesNext(2 * n, u / 2.0);
      TimesNext(2 * n + 1, u / 2.0);
    }
  }

  lemma {:induction false} TimesInt(n: int, u: real)
    requires IsInt(u)
    ensures IsInt(Times(n, u))
    decreases if n < 0 then -n else n
  {
    if n > 0 {
      TimesInt(n - 1, u);
      SumInt(Times(n - 1, u), u);
    } else if n < 0 {
      TimesInt(n + 1, u);
      SumInt(Times(n + 1, u), -u);
    }
  }

  lemma SumInt(a: real, b: real)
    requires IsInt(a) && (IsInt(b) || IsInt(-b))
    ensures IsInt(a + b)
  {
    var m, n := a.Floor, if IsInt(b) then b.Floor else -(-b).Floor;
    assert a + b == (m + n) as real;
    WholeIsInt(m + n);
  }

  lemma WholeIsInt(n: int)
    ensures IsInt(n as real)
  {
    assert (n as real).Floor == n;
  }

  /** A whole number of units is a whole number of any halving of the unit. */
  lemma {:induction false} MultipleOfHalving(x: real, u: real, k: nat)
    requires u > 0.0 && IsMultiple(x, u)
    ensures IsMultiple(x, Scaled(u, 0 - k))
  {
    if k > 0 {
      MultipleOfHalving(x, u, k - 1);
      var v := Scaled(u, 0 - (k - 1));
      var n :| x == Times(n, v);
      TimesHalf(n, v);
    }
  }

  function PowerOfTwo(k: nat): (p: nat)
    ensures p > 0
  {
    if k == 0 then 1 else 2 * PowerOfTwo(k - 1)
  }

  lemma {:induction false} ScaledIsTimes(u: real, k: nat)
    requires u > 0.0
    ensures Scaled(u, k) == Times(PowerOfTwo(k), u)
  {
    if k > 0 {
      ScaledIsTimes(u, k - 1);
      TimesSum(PowerOfTwo(k - 1), PowerOfTwo(k - 1), u);
    }
  }

  lemma {:induction false} TimesOfTimes(m: int, p: int, u: real)
    ensures Times(m, Times(p, u)) == Times(m * p, u)
    decreases if m < 0 then -m else m
  {
    if m > 0 {
      TimesOfTimes(m - 1, p, u);
      OneTimeMore(m - 1, p);
      TimesSum((m - 1) * p, p, u);
    } else if m < 0 {
      TimesOfTimes(m + 1, p, u);
      OneTimeMore(m, p);
      TimesSum(m * p, p, u);
    }
  }

  lemma OneTimeMore(m: int, p: int)
    ensures (m + 1) * p == m * p + p
  {}

  /** Units are counted by whole numbers: one number of units goes into another just as the numbers do. */
  lemma MultipleOfUnits(n: int, p: int, u: real)
    requires p > 0 && u > 0.0
    ensures IsMultiple(Times(n, u), Times(p, u)) <==> n % p == 0
  {
    if n % p == 0 {
      var q := n / p;
      assert n == q * p;
      TimesOfTimes(q, p, u);
    }
    if IsMultiple(Times(n, u), Times(p, u)) {
      var m :| Times(n, u) == Times(m, Times(p, u));
      TimesOfTimes(m, p, u);
      TimesDistinct(n, m * p, u);
      MultipleHasNoRemainder(m, p);
    }
  }

  lemma TimesDistinct(m: int, n: int, u: real)
    requires u > 0.0 && Times(m, u) == Times(n, u)
    ensures m == n
  {
    if m < n {
      TimesGrows(m, n, u);
    } else if n < m {
      TimesGrows(n, m, u);
    }
  }

  lemma MultipleHasNoRemainder(m: int, p: int)
    requires p > 0
    ensures (m * p) % p == 0
  {
    var q := (m * p) / p;
    var r := (m * p) % p;
    assert (m - q) * p == r;
    assert m - q >= 1 ==> (m - q) * p >= p;
    assert m - q <= -1 ==> (m - q) * p <= -p;
  }

  lemma {:induction false} Pow10Int(k: nat)
    ensures IsInt(Pow10(k)) && Pow10(k) >= 1.0
  {
    if k > 0 {
      Pow10Int(k - 1);
      assert Pow10(k) == (10 * Pow10(k - 1).Floor) as real;
    }
  }

  lemma Product(a: real, b: real)
    requires a >= 0.0 && b >= 0.0
    ensures a * b >= 0.0 && (a > 0.0 && b > 0.0 ==> a * b > 0.0)
  {
  }

  lemma MulMonotone(a: real, b: real, u: real)
    requires a <= b && u > 0.0
    ensures a * u <= b * u && (a < b ==> a * u < b * u)
  {
    Product(b - a, u);
    assert (b - a) * u == b * u - a * u;
  }

  lemma QuotientGrows(a: real, b: real, u: real)
    requires a < b && u > 0.0
    ensures a / u < b / u
  {
    if b / u <= a / u {
      MulMonotone(b / u, a / u, u);
    }
  }

  lemma CancelMonotone(a: real, b: real, u: real)
    requires a * u <= b * u && u > 0.0
    ensures a <= b
  {
    if b < a {
      MulMonotone(b, a, u);
    }
  }

  /** How many whole steps fit. */
  function StepsIn(x: real, step: real): int
    requires step > 0.0
  {
    (x / step).Floor
  }

  lemma OneStepLess(x: real, step: real)
    requires x >= step > 0.0
    ensures 0 <= StepsIn(x - step, step) == StepsIn(x, step) - 1
  {
    QuotientIs(x - step, step, x / step - 1.0);
    assert x / step >= 1.0;
  }

  lemma QuotientIs(x: real, u: real, q: real)
    requires u > 0.0 && x == q * u
    ensures x / u == q
  {
  }

  /** Rounding down and up to whole units. */
  lemma WholeUnits(x: real, u: real)
    requires u > 0.0
    ensures Times((x / u).Floor, u) <= x < Times((x / u).Floor, u) + u
    ensures Times(Ceil(x / u), u) - u < x <= Times(Ceil(x / u), u)
  {
    var q := x / u;
    Between(x, q, q.Floor, u);
    Between(-x, -q, (-q).Floor, u);
    TimesSum((-q).Floor, Ceil(q), u);
  }

  lemma Between(x: real, q: real, f: int, u: real)
    requires u > 0.0 && f as real <= q < f as real + 1.0 && x == q * u
    ensures Times(f, u) <= x < Times(f, u) + u
  {
    TimesIsProduct(f, u);
    var d := q - f as real;
    Fraction(d, u);
    assert x == f as real * u + d * u;
  }

  lemma Fraction(d: real, u: real)
    requires 0.0 <= d < 1.0 && u > 0.0
    ensures 0.0 <= d * u < u
  {
    Product(d, u);
    Product(1.0 - d, u);
    assert (1.0 - d) * u == u - d * u;
  }
}
