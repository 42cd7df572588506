/** The divisor search behind integer chart scales (`Chartist.rho` and its inner `gcd`). */
module Rho {
  import opened ScaleArithmetic

  ghost predicate Divides(d: int, n: int)
    requires d > 0
  {
    n % d == 0
  }

  lemma RemainderUnique(a: int, d: int, q: int, m: int)
    requires 0 <= m < d && a == d * q + m
    ensures a % d == m
  {
    var t := a / d - q;
    assert d * t == m - a % d by {
      assert d * t == d * (a / d) - d * q;
    }
    assert t >= 1 ==> d * t >= d;
    assert t <= -1 ==> d * t <= -d;
  }

  lemma DividesIsMultiple(d: int, k: int, r: int)
    requires d > 0
    ensures (d * k + r) % d == r % d
  {
    var q, m := r / d, r % d;
    assert d * k + r == d * (k + q) + m by {
      assert r == d * q + m;
    }
    RemainderUnique(d * k + r, d, k + q, m);
  }

  /** A number that divides two numbers divides every combination of them. */
  lemma DividesCombination(d: int, a: int, b: int, k: int)
    requires d > 0 && Divides(d, a) && Divides(d, b)
    ensures Divides(d, k * a + b)
  {
    assert k * a + b == d * (k * (a / d)) + b by {
      assert a == d * (a / d);
      assert k * (d * (a / d)) == d * (k * (a / d));
    }
    DividesIsMultiple(d, k * (a / d), b);
  }

  /** Euclid's algorithm as the source has it. */
  function Gcd(p: nat, q: nat): (r: nat)
    requires q > 0
    ensures 0 < r <= q
    decreases q
  {
    if p % q == 0 then q else Gcd(q, p % q)
  }

  /** It is the greatest common divisor, and every common divisor divides it. */
  lemma {:induction false} GcdIsGreatest(p: nat, q: nat)
    requires q > 0
    ensures Divides(Gcd(p, q), p) && Divides(Gcd(p, q), q)
    ensures forall d: nat | d > 0 && Divides(d, p) && Divides(d, q) :: Divides(d, Gcd(p, q)) && d <= Gcd(p, q)
    decreases q
  {
    var k, m := p / q, p % q;
    if m == 0 {
      DividesIsMultiple(q, 1, 0);
    } else {
      GcdIsGreatest(q, m);
      DividesWithRemainder(Gcd(q, m), p, q, k, m);
      forall d: nat | d > 0 && Divides(d, p) && Divides(d, q) ensures Divides(d, m) {
        DividesWithRemainder(d, p, q, k, m);
      }
    }
  }

  /** The common divisors of `p` and `q` are those of `q` and the remainder. */
  lemma DividesWithRemainder(d: nat, p: nat, q: nat, k: int, m: nat)
    requires d > 0 && q > 0 && k == p / q && m == p % q && Divides(d, q)
    ensures Divides(d, p) <==> Divides(d, m)
  {
    assert p == k * q + m && m == -k * q + p;
    if Divides(d, m) {
      DividesCombination(d, q, m, k);
    } else if Divides(d, p) {
      DividesCombination(d, q, p, -k);
    }
  }

  function Step(x: nat): nat
  {
    x * x + 1
  }

  /** Where the slow walker stands after `k` steps. */
  function Orbit(num: nat, k: nat): nat
    requires num > 0
  {
    if k == 0 then 2 else Step(Orbit(num, k - 1)) % num
  }

  /** Reducing between two steps makes no difference. */
  lemma StepModulo(num: nat, x: nat)
    requires num > 0
    ensures Step(Step(x) % num) % num == Step(Step(x)) % num
  {
    StepOfRemainder(num, Step(x));
  }

  lemma StepOfRemainder(num: nat, y: nat)
    requires num > 0
    ensures Step(y % num) % num == Step(y) % num
  {
    var q, m := y / num, y % num;
    assert Step(y) == num * (num * q * q + 2 * q * m) + Step(m) by {
      assert y == num * q + m;
    }
    DividesIsMultiple(num, num * q * q + 2 * q * m, Step(m));
  }

  lemma {:induction false} OrbitBounded(num: nat, k: nat)
    requires num > 2
    ensures Orbit(num, k) < num
  {
  }

  /** From where two positions agree on, the orbit repeats. */
  lemma {:induction false} OrbitRepeats(num: nat, i: nat, p: nat, n: nat)
    requires num > 0 && Orbit(num, i) == Orbit(num, i + p) && i <= n
    ensures Orbit(num, n) == Orbit(num, n + p)
    decreases n - i
  {
    if i < n {
      OrbitRepeats(num, i, p, n - 1);
    }
  }

  /** From step `i` on, `k` further steps lead back to the same place. */
  ghost predicate Period(num: nat, i: nat, k: nat)
    requires num > 0
  {
    forall n: nat | i <= n :: Orbit(num, n) == Orbit(num, n + k)
  }

  lemma {:induction false} AtMost(n: nat, s: set<nat>)
    requires forall x | x in s :: x < n
    ensures |s| <= n
  {
    if n == 0 {
      assert s == {};
    } else {
      AtMost(n - 1, s - {n - 1});
    }
  }

  /** Pigeonhole: two of the first `num + 1` positions agree. */
  lemma OrbitCollides(num: nat) returns (i: nat, j: nat)
    requires num > 2
    ensures i < j <= num && Orbit(num, i) == Orbit(num, j)
  {
    var seen: set<nat>, k := {}, 0;
    while k <= num && Orbit(num, k) !in seen
      invariant 0 <= k <= num + 1 && |seen| == k
      invariant forall x | x in seen :: x < num && exists m | 0 <= m < k :: Orbit(num, m) == x
    {
      OrbitBounded(num, k);
      seen := seen + {Orbit(num, k)};
      k := k + 1;
    }
    if k > num {
      AtMost(num, seen);
      assert false;
    } else {
      i :| 0 <= i < k && Orbit(num, i) == Orbit(num, k);
      j := k;
    }
  }

  /** Floyd: within `num` steps the slow and the fast walker meet. */
  lemma WalkersMeet(num: nat) returns (k: nat)
    requires num > 2
    ensures 1 <= k <= num && Found(num, k) == num
  {
    var i, j := OrbitCollides(num);
    var p := j - i;
    assert Period(num, i, p) by {
      forall n: nat | i <= n ensures Orbit(num, n) == Orbit(num, n + p) {
        OrbitRepeats(num, i, p, n);
      }
    }
    // the first positive multiple of the period that is not before the cycle
    k := p;
    while k < i
      invariant p <= k <= num && Period(num, i, k)
    {
      forall n: nat | i <= n ensures Orbit(num, n) == Orbit(num, n + (k + p)) {
        assert Orbit(num, n + k) == Orbit(num, n + k + p);
      }
      k := k + p;
    }
    assert Orbit(num, k) == Orbit(num, k + k);
    assert Gcd(0, num) == num;
  }

  /** What the search finds with `k` steps. */
  function Found(num: nat, k: nat): nat
    requires num > 0
  {
    var a, b := Orbit(num, k), Orbit(num, 2 * k);
    Gcd(if a < b then b - a else a - b, num)
  }

  /** The step at which the search first finds a divisor. */
  ghost predicate IsFirst(num: nat, k: nat)
    requires num > 0
  {
    k > 0 && Found(num, k) != 1 && forall j | 0 < j < k :: Found(num, j) == 1
  }

  /** What `rho` answers. */
  ghost predicate IsRho(num: nat, d: nat)
  {
    if num == 1 then d == 1 else if num % 2 == 0 then d == 2 else exists k :: IsFirst(num, k) && d == Found(num, k)
  }

  /** The search ends after at most `num` steps, with a divisor that is not 1 (for `num` above 1).  `steps` is
      the number of loop iterations. */
  method Rho(num: nat) returns (divisor: nat, ghost steps: nat)
    ensures divisor > 0 && steps <= num
    ensures num > 0 ==> Divides(divisor, num)
    ensures num > 1 ==> 1 < divisor <= num
    ensures IsRho(num, divisor)
  {
    steps := 0;
    if num == 1 {
      return 1, 0;
    }
    var x1, x2 := 2, 2;
    if num % 2 == 0 {
      return 2, 0;
    }
    ghost var meet := WalkersMeet(num);
    while true
      invariant steps < meet && x1 == Orbit(num, steps) && x2 == Orbit(num, 2 * steps)
      invariant forall k | 0 < k <= steps :: Found(num, k) == 1
      decreases meet - steps
    {
      x1, x2, divisor := Round(num, x1, x2, steps);
      steps := steps + 1;
      if divisor != 1 {
        assert IsFirst(num, steps);
        break;
      }
    }
    FoundDivides(num, steps);
  }

  /** One round of the search: a step of the slow walker, two of the fast one, and the gcd of their distance. */
  method Round(num: nat, x1: nat, x2: nat, ghost k: nat) returns (y1: nat, y2: nat, divisor: nat)
    requires num > 0 && x1 == Orbit(num, k) && x2 == Orbit(num, 2 * k)
    ensures y1 == Orbit(num, k + 1) && y2 == Orbit(num, 2 * (k + 1)) && divisor == Found(num, k + 1)
  {
    TwoSteps(num, k);
    y1 := Step(x1) % num;
    y2 := Step(Step(x2)) % num;
    divisor := Gcd(if y1 < y2 then y2 - y1 else y1 - y2, num);
  }

  lemma TwoSteps(num: nat, k: nat)
    requires num > 0
    ensures Orbit(num, 2 * (k + 1)) == Step(Step(Orbit(num, 2 * k))) % num
  {
    StepModulo(num, Orbit(num, 2 * k));
    assert Orbit(num, 2 * k + 1) == Step(Orbit(num, 2 * k)) % num;
  }

  lemma FoundDivides(num: nat, k: nat)
    requires num > 0
    ensures Divides(Found(num, k), num)
  {
    var a, b := Orbit(num, k), Orbit(num, 2 * k);
    GcdIsGreatest(if a < b then b - a else a - b, num);
  }

  lemma RhoUnique(num: nat, d: nat, d': nat)
    requires IsRho(num, d) && IsRho(num, d')
    ensures d == d'
  {
  }

  // ---- numbers that are not whole ----

  /** JavaScript's `%`, for numbers that are not negative. */
  function Mod(x: real, m: real): real
    requires m > 0.0
  {
    x - (x / m).Floor as real * m
  }

  lemma FloorOf(x: real, m: real, q: int)
    requires m > 0.0 && q as real * m <= x < (q as real + 1.0) * m
    ensures (x / m).Floor == q
  {
    var y := x / m;
    assert y * m == x;
    CancelMonotone(q as real, y, m);
    if q as real + 1.0 <= y {
      MulMonotone(q as real + 1.0, y, m);
    }
    assert q as real <= y < q as real + 1.0;
  }

  lemma TimesPositive(b: int, u: real)
    requires b > 0 && u > 0.0
    ensures Times(b, u) > 0.0
  {
    TimesIsProduct(b, u);
  }

  /** On multiples of a unit it is the remainder of the multiples. */
  lemma ModOfUnits(a: nat, b: nat, u: real)
    requires b > 0 && u > 0.0
    ensures Times(b, u) > 0.0 && Mod(Times(a, u), Times(b, u)) == Times(a % b, u)
  {
    var q, r, m := a / b, a % b, Times(b, u);
    TimesPositive(b, u);
    if r > 0 {
      TimesPositive(r, u);
    }
    TimesGrows(r, b, u);
    TimesOfQuotient(a, b, u);
    ModOfTimes(Times(a, u), m, q);
  }

  lemma ModOfTimes(x: real, m: real, q: int)
    requires m > 0.0 && Times(q, m) <= x < Times(q, m) + m
    ensures Mod(x, m) == x - Times(q, m)
  {
    TimesIsProduct(q, m);
    assert (q as real + 1.0) * m == q as real * m + m;
    FloorOf(x, m, q);
  }

  lemma TimesOfQuotient(a: nat, b: nat, u: real)
    requires b > 0
    ensures Times(a, u) == Times(a / b, Times(b, u)) + Times(a % b, u)
  {
    var q, r := a / b, a % b;
    assert a == q * b + r;
    TimesOfTimes(q, b, u);
    TimesSum(q * b, r, u);
  }

  /** The inner `gcd`, on multiples of a unit. */
  method GcdOf(p: real, q: real, ghost a: nat, ghost b: nat, ghost u: real) returns (g: real)
    requires b > 0 && u > 0.0 && p == Times(a, u) && q == Times(b, u) > 0.0
    ensures g == Times(Gcd(a, b), u)
    decreases b
  {
    ModOfUnits(a, b, u);
    if a % b != 0 {
      TimesPositive(a % b, u);
    }
    if Mod(p, q) == 0.0 {
      return q;
    }
    g := GcdOf(q, Mod(p, q), b, a % b, u);
  }

  function Next(x: real): real
  {
    x * x + 1.0
  }

  /** A number of at most 11 units, each the `k`-th part of 1 for some number of tens `k`, that is not whole: the
      search ends after its first round, with a number of units that divides it. */
  method RhoOfFraction(num: real, ghost n: nat, ghost k: nat, ghost u: real) returns (divisor: real)
    requires 1 <= n <= 11 && k > 0 && k % 10 == 0 && Times(k, u) == 1.0 && u > 0.0
    requires num == Times(n, u) && num != 1.0
    ensures divisor != 1.0 && IsPart(divisor, n, u)
  {
    var x1, x2 := 2.0, 2.0;
    ModOfWhole(5, n, k, u);
    ModOfWhole(26, n, k, u);
    x1, x2 := Mod(Next(x1), num), Mod(Next(Next(x2)), num);
    ghost var c := GapOfUnits((5 * k) % n, (26 * k) % n, u);
    divisor := GcdOf(if x1 < x2 then x2 - x1 else x1 - x2, num, c, n, u);
    GcdIsGreatest(c, n);
    NotOne(n, Gcd(c, n), k, u);
    assert PartsOf(divisor, Gcd(c, n), n, u);
  }

  /** So many units, which go into `n` units a whole number of times. */
  ghost predicate PartsOf(x: real, d: nat, n: nat, u: real)
  {
    d > 0 && Divides(d, n) && x == Times(d, u)
  }

  ghost predicate IsPart(x: real, n: nat, u: real)
  {
    exists d: nat :: PartsOf(x, d, n, u)
  }

  /** A whole number in units. */
  lemma ModOfWhole(c: nat, n: nat, k: nat, u: real)
    requires n > 0 && u > 0.0 && Times(k, u) == 1.0
    ensures Times(n, u) > 0.0 && Mod(c as real, Times(n, u)) == Times((c * k) % n, u)
  {
    InUnits(c, k, u);
    ModOfUnits(c * k, n, u);
  }

  lemma {:induction false} InUnits(c: nat, k: nat, u: real)
    requires Times(k, u) == 1.0
    ensures c * k >= 0 && Times(c * k, u) == c as real
  {
    if c > 0 {
      InUnits(c - 1, k, u);
      TimesSum((c - 1) * k, k, u);
      assert (c - 1) * k + k == c * k;
    }
  }

  lemma GapOfUnits(a: nat, b: nat, u: real) returns (c: nat)
    requires u > 0.0
    ensures c == if a < b then b - a else a - b
    ensures var x, y := Times(a, u), Times(b, u); Times(c, u) == if x < y then y - x else x - y
  {
    if a < b {
      c := b - a;
      TimesSum(a, c, u);
      TimesPositive(c, u);
    } else {
      c := a - b;
      TimesSum(b, c, u);
      if c > 0 {
        TimesPositive(c, u);
      }
    }
  }

  lemma ProperDivisor(d: nat, n: nat)
    requires d > 0 && n > 0 && Divides(d, n)
    ensures d == n || 2 * d <= n
  {
    var q := n / d;
    assert n == d * q;
    if q > 1 {
      assert d * q == d * (q - 2) + 2 * d;
    }
  }

  lemma NotOne(n: nat, d: nat, k: nat, u: real)
    requires 1 <= n <= 11 && k > 0 && k % 10 == 0 && u > 0.0 && Times(k, u) == 1.0 != Times(n, u)
    requires 1 <= d && Divides(d, n)
    ensures Times(d, u) != 1.0
  {
    ProperDivisor(d, n);
    assert k != n && k != d;
    if d < k {
      TimesGrows(d, k, u);
    } else {
      TimesGrows(k, d, u);
    }
  }

  /** It need not be the smallest divisor above 1, as the documentation of `rho` has it: for 25 the search finds
      nothing in two steps and 25 itself in the third. */
  lemma NotTheSmallest()
    ensures IsRho(25, 25) && Divides(5, 25)
  {
    assert Orbit(25, 1) == 5;
    assert Orbit(25, 2) == 1;
    assert Orbit(25, 3) == 2;
    assert Orbit(25, 4) == 5;
    assert Orbit(25, 5) == 1;
    assert Orbit(25, 6) == 2;
    assert IsFirst(25, 3) && Found(25, 3) == 25;
  }

  // ---- when it is the smallest ----

  /** The walkers modulo `d` stand on the same place after `k` rounds. */
  ghost predicate Meet(d: nat, k: nat)
    requires d > 0
  {
    Orbit(d, k) == Orbit(d, 2 * k)
  }

  lemma RemainderOfRemainder(x: nat, n: nat, d: nat)
    requires n > 0 && d > 0 && Divides(d, n)
    ensures x % n % d == x % d
  {
    var k := (n / d) * (x / n);
    assert x == d * k + x % n by {
      assert x == n * (x / n) + x % n && n == d * (n / d);
    }
    DividesIsMultiple(d, k, x % n);
  }

  /** Modulo a divisor, the walkers modulo a number are those modulo the divisor. */
  lemma {:induction false} OrbitModulo(n: nat, d: nat, k: nat)
    requires n > 0 && d > 0 && Divides(d, n) && k > 0
    ensures Orbit(n, k) % d == Orbit(d, k)
  {
    RemainderOfRemainder(Step(Orbit(n, k - 1)), n, d);
    if k > 1 {
      OrbitModulo(n, d, k - 1);
      StepOfRemainder(d, Orbit(n, k - 1));
    }
  }

  lemma SameRemainder(d: nat, a: nat, b: nat)
    requires d > 0
    ensures Divides(d, if a < b then b - a else a - b) <==> a % d == b % d
  {
    var x, y := if a < b then b else a, if a < b then a else b;
    var q, r := x / d - y / d, x % d - y % d;
    assert x - y == d * q + r by {
      assert x == d * (x / d) + x % d && y == d * (y / d) + y % d;
    }
    DividesIsMultiple(d, q, r);
    RemainderUnique(r, d, if r < 0 then -1 else 0, if r < 0 then r + d else r);
  }

  lemma DividesTrans(d: nat, g: nat, n: nat)
    requires d > 0 && g > 0 && Divides(d, g) && Divides(g, n)
    ensures Divides(d, n)
  {
    assert n == (n / g) * g + 0;
    DividesIsMultiple(d, 0, 0);
    DividesCombination(d, g, 0, n / g);
  }

  /** What divides the number that the search looks at in a round: the divisors modulo which the walkers meet. */
  lemma FoundDivisors(n: nat, k: nat, d: nat)
    requires n > 0 && k > 0 && d > 0
    ensures Divides(d, Found(n, k)) <==> Divides(d, n) && Meet(d, k)
  {
    var a, b, g := Orbit(n, k), Orbit(n, 2 * k), Found(n, k);
    var gap := if a < b then b - a else a - b;
    GcdIsGreatest(gap, n);
    SameRemainder(d, a, b);
    if Divides(d, n) {
      OrbitModulo(n, d, k);
      OrbitModulo(n, d, 2 * k);
      if Divides(d, g) {
        DividesTrans(d, g, gap);
      }
    } else if Divides(d, g) {
      DividesTrans(d, g, n);
    }
  }

  ghost predicate IsSmallest(n: nat, p: nat)
  {
    1 < p && Divides(p, n) && forall d: nat | 1 < d && Divides(d, n) :: p <= d
  }

  /** The walkers modulo `p` meet before those modulo `d`. */
  ghost predicate MeetBefore(p: nat, d: nat)
    requires p > 0 && d > 0
  {
    exists k: nat :: k > 0 && Meet(p, k) && NotMetBy(d, k)
  }

  ghost predicate NotMetBy(d: nat, k: nat)
    requires d > 0
  {
    forall j: nat | 0 < j <= k :: !Meet(d, j)
  }

  /** The search for an odd number answers its smallest divisor above 1 if and only if the walkers modulo that meet
      before those modulo any other divisor above 1. */
  lemma SmallestExactly(n: nat, p: nat)
    requires n % 2 == 1 && n > 1 && IsSmallest(n, p)
    ensures IsRho(n, p) <==> forall d: nat | 1 < d && Divides(d, n) && d != p :: MeetBefore(p, d)
  {
    if IsRho(n, p) {
      var k :| IsFirst(n, k) && p == Found(n, k);
      forall d: nat | 1 < d && Divides(d, n) && d != p ensures MeetBefore(p, d) {
        OthersLater(n, p, k, d);
      }
    } else {
      var k, r := FirstOf(n);
      NoneBefore(n, p, k, r);
    }
  }

  lemma NoneBefore(n: nat, p: nat, k: nat, r: nat)
    requires n > 0 && 1 < p && Divides(p, n) && IsFirst(n, k) && r == Found(n, k)
    ensures !MeetBefore(p, r)
  {
    FoundDivisors(n, k, r);
    forall m: nat | m > 0 && Meet(p, m) ensures !NotMetBy(r, m) {
      FoundDivisors(n, m, p);
      assert k <= m && Meet(r, k);
    }
  }

  lemma OthersLater(n: nat, p: nat, k: nat, d: nat)
    requires n > 0 && IsSmallest(n, p) && IsFirst(n, k) && p == Found(n, k)
    requires 1 < d && Divides(d, n) && d != p
    ensures MeetBefore(p, d)
  {
    FoundDivisors(n, k, p);
    forall j: nat | 0 < j <= k ensures !Meet(d, j) {
      FoundDivisors(n, j, d);
      FoundOthers(n, p, k, d, j);
    }
    assert NotMetBy(d, k);
  }

  lemma FoundOthers(n: nat, p: nat, k: nat, d: nat, j: nat)
    requires n > 0 && IsSmallest(n, p) && IsFirst(n, k) && p == Found(n, k) && 0 < j <= k
    requires 1 < d && Divides(d, n) && d != p
    ensures !Divides(d, Found(n, j))
  {
    if j == k {
      NotBelow(d, p);
    } else {
      assert Found(n, j) == 1;
      NotBelow(d, 1);
    }
  }

  lemma NotBelow(d: nat, p: nat)
    requires 0 < p < d
    ensures !Divides(d, p)
  {
  }

  /** The round in which the search ends, and its answer. */
  lemma FirstOf(n: nat) returns (k: nat, r: nat)
    requires n % 2 == 1 && n > 1
    ensures IsFirst(n, k) && r == Found(n, k) > 1 && Divides(r, n) && IsRho(n, r)
  {
    var meet := WalkersMeet(n);
    k := 1;
    while Found(n, k) == 1
      invariant 0 < k <= meet && forall j | 0 < j < k :: Found(n, j) == 1
      decreases meet - k
    {
      k := k + 1;
    }
    r := Found(n, k);
    FoundDivides(n, k);
  }

  /** So it does for every even number and every prime. */
  lemma SmallestForPrimes(n: nat, p: nat, r: nat)
    requires n > 1 && IsSmallest(n, p) && IsRho(n, r)
    requires n % 2 == 0 || p == n
    ensures r == p
  {
    if n % 2 == 0 {
      assert Divides(2, n);
    } else {
      SmallestExactly(n, p);
      forall d: nat | 1 < d && Divides(d, n) ensures d == n {
        ProperDivisor(d, n);
      }
      RhoUnique(n, r, p);
    }
  }

  // ---- the first round ----

  /** The first round looks at what divides 21: the walkers go to 5 and to 26. */
  lemma FirstRound(n: nat, d: nat)
    requires n > 0 && d > 0
    ensures Divides(d, Found(n, 1)) <==> Divides(d, n) && Divides(d, 21)
  {
    FoundDivisors(n, 1, d);
    assert Orbit(d, 1) == 5 % d;
    StepOfRemainder(d, 5);
    assert Orbit(d, 2) == 26 % d;
    SameRemainder(d, 5, 26);
  }

  lemma DivisorsOf21(g: nat)
    requires g > 0 && Divides(g, 21)
    ensures g == if !Divides(3, g) then (if Divides(7, g) then 7 else 1) else if Divides(7, g) then 21 else 3
  {
    assert g <= 21;
  }

  lemma OnlyFirst(n: nat, r: nat, g: nat)
    requires n % 2 == 1 && n != 1 && IsRho(n, r) && g == Found(n, 1) && g != 1
    ensures r == g
  {
    assert IsFirst(n, 1);
    assert IsRho(n, g);
    RhoUnique(n, r, g);
  }

  /** So an odd number with a factor of 3 or 7 is done then: the answer is 21 if it has both, or else the one that it
      has. */
  lemma RhoOfThreeOrSeven(n: nat, r: nat)
    requires n % 2 == 1 && IsRho(n, r) && (Divides(3, n) || Divides(7, n))
    ensures r == if !Divides(7, n) then 3 else if !Divides(3, n) then 7 else 21
  {
    var g := Found(n, 1);
    FirstRound(n, 3);
    FirstRound(n, 7);
    FirstRound(n, g);
    assert Divides(g, g) && Divides(g, 21);
    DivisorsOf21(g);
    OnlyFirst(n, r, g);
  }
}
