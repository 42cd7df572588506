/** The arithmetic of monotone cubic splines: slopes by the method of Fritsch and Carlson, and cubic curves with
    control points. */
module MonotoneCurve {
  import opened ScaleArithmetic

  /** The slope at a point between a step of width `a` and secant `p` and one of width `b` and secant `q`.  A quotient
      by 0 is not finite, and becomes 0. */
  function Slope(a: real, b: real, p: real, q: real): real
  {
    if q == 0.0 || p == 0.0 || (p > 0.0) != (q > 0.0) then 0.0
    else
      var s := (2.0 * b + a) / p + (b + 2.0 * a) / q;
      if s == 0.0 then 0.0 else 3.0 * (a + b) / s
  }

  /** If w = x * p and z = y * q, then w * q + z * p is (x + y) * p * q. */
  lemma CrossSum(w: real, z: real, p: real, q: real, x: real, y: real)
    requires x * p == w && y * q == z
    ensures w * q + z * p == (x + y) * (p * q)
  {
    assert w * q == x * (p * q) by { Product3(x, p, q); }
    assert z * p == y * (p * q) by { Product3(y, q, p); }
    Distribute(x, y, p * q);
  }

  lemma Product3(x: real, p: real, q: real)
    ensures (x * p) * q == x * (p * q)
  {}

  lemma Distribute(x: real, y: real, z: real)
    ensures (x + y) * z == x * z + y * z
  {}

  /** The slope without quotients: for secants of one sign it is their harmonic mean with the weights 2 * b + a and
      b + 2 * a, unless the sum of the weighted inverses is 0; for all others it is 0. */
  lemma SlopeLaw(a: real, b: real, p: real, q: real)
    ensures var m, d := Slope(a, b, p, q), (2.0 * b + a) * q + (b + 2.0 * a) * p;
      if p * q > 0.0 && d != 0.0 then m * d == 3.0 * (a + b) * (p * q) else m == 0.0
  {
    SameSign(p, q);
    if p * q > 0.0 {
      var w, z, c := 2.0 * b + a, b + 2.0 * a, 3.0 * (a + b);
      var x, y := w / p, z / q;
      CrossSum(w, z, p, q, x, y);
      var s, m := x + y, Slope(a, b, p, q);
      if s == 0.0 {
        assert s * (p * q) == 0.0;
      } else {
        assert m == c / s;
        assert m * s == c;
        Product3(m, s, p * q);
        NonzeroProduct(s, p * q);
      }
    }
  }

  lemma SameSign(p: real, q: real)
    ensures p * q > 0.0 <==> p != 0.0 && q != 0.0 && (p > 0.0) == (q > 0.0)
  {
    Product(if p >= 0.0 then p else -p, if q >= 0.0 then q else -q);
    assert (-p) * q == -(p * q) && p * (-q) == -(p * q);
  }

  lemma NonzeroProduct(s: real, t: real)
    requires s != 0.0 && t > 0.0
    ensures s * t != 0.0
  {
    SameSign(s, t);
    SameSign(-s, t);
    assert (-s) * t == -(s * t);
  }

  lemma SignOfQuotient(u: real, p: real)
    requires u > 0.0 && p != 0.0
    ensures if p > 0.0 then u / p > 0.0 else u / p < 0.0
  {
    assert (u / p) * p == u;
  }

  lemma SumNonzero(a: real, b: real, p: real, q: real)
    requires a > 0.0 && b > 0.0 && p != 0.0 && q != 0.0 && (p > 0.0) == (q > 0.0)
    ensures var s := (2.0 * b + a) / p + (b + 2.0 * a) / q; if p > 0.0 then s > 0.0 else s < 0.0
  {
    SignOfQuotient(2.0 * b + a, p);
    SignOfQuotient(b + 2.0 * a, q);
  }

  /** w / p + z / q, times p, is at least w. */
  lemma SumTimes(w: real, z: real, p: real, q: real)
    requires w > 0.0 && z > 0.0 && p > 0.0 && q > 0.0
    ensures p * (w / p + z / q) >= w
  {
    SignOfQuotient(z, q);
    var u, v := w / p, z / q;
    assert p * u == w;
    Product(p, v);
    assert p * (u + v) == p * u + p * v;
  }

  /** If c <= p * s, then c / s <= p. */
  lemma QuotientAtMost(c: real, s: real, p: real)
    requires s > 0.0 && c <= p * s
    ensures c / s <= p
  {
    var r := c / s;
    assert r * s == c;
    if r > p {
      assert (r - p) * s > 0.0;
      assert (r - p) * s == r * s - p * s;
    }
  }

  lemma SlopePositive(a: real, b: real, p: real, q: real)
    requires a > 0.0 && b > 0.0 && p > 0.0 && q > 0.0
    ensures 0.0 < Slope(a, b, p, q) <= 3.0 * p && Slope(a, b, p, q) <= 3.0 * q
  {
    SumNonzero(a, b, p, q);
    var w, z := 2.0 * b + a, b + 2.0 * a;
    var s, c := w / p + z / q, 3.0 * (a + b);
    SumTimes(w, z, p, q);
    SumTimes(z, w, q, p);
    assert c <= 3.0 * w && c <= 3.0 * z;
    assert 3.0 * w <= (3.0 * p) * s;
    assert 3.0 * z <= (3.0 * q) * s;
    QuotientAtMost(c, s, 3.0 * p);
    QuotientAtMost(c, s, 3.0 * q);
    SignOfQuotient(c, s);
  }

  lemma NegatedQuotient(u: real, p: real)
    requires p != 0.0
    ensures u / (-p) == -(u / p)
  {
    var r := u / p;
    assert r * p == u;
    assert (-r) * (-p) == u;
  }

  lemma SlopeNegated(a: real, b: real, p: real, q: real)
    ensures Slope(a, b, -p, -q) == -Slope(a, b, p, q)
  {
    if q != 0.0 && p != 0.0 && (p > 0.0) == (q > 0.0) {
      NegatedQuotient(2.0 * b + a, p);
      NegatedQuotient(b + 2.0 * a, q);
      var s := (2.0 * b + a) / p + (b + 2.0 * a) / q;
      if s != 0.0 {
        NegatedQuotient(3.0 * (a + b), s);
      }
    }
  }

  /** It lies between the secants, strictly if they differ. */
  lemma SlopeBetween(a: real, b: real, p: real, q: real)
    requires a > 0.0 && b > 0.0 && p * q > 0.0
    ensures if p == q then Slope(a, b, p, q) == p else p < Slope(a, b, p, q) < q || q < Slope(a, b, p, q) < p
  {
    SameSign(p, q);
    if p > 0.0 {
      PositiveBetween(a, b, p, q);
    } else {
      SlopeNegated(a, b, p, q);
      PositiveBetween(a, b, -p, -q);
    }
  }

  lemma PositiveBetween(a: real, b: real, p: real, q: real)
    requires a > 0.0 && b > 0.0 && p > 0.0 && q > 0.0
    ensures if p == q then Slope(a, b, p, q) == p else p < Slope(a, b, p, q) < q || q < Slope(a, b, p, q) < p
  {
    SlopeLaw(a, b, p, q);
    MeanBetween(2.0 * b + a, b + 2.0 * a, p, q, Slope(a, b, p, q));
  }

  lemma MeanBetween(w: real, z: real, p: real, q: real, m: real)
    requires w > 0.0 && z > 0.0 && p > 0.0 && q > 0.0
    requires p * q > 0.0 && w * q + z * p != 0.0 ==> m * (w * q + z * p) == (w + z) * (p * q)
    ensures if p == q then m == p else p < m < q || q < m < p
  {
    Product(w, q);
    Product(z, p);
    Product(p, q);
    var d := w * q + z * p;
    assert (m - p) * d == (z * p) * (q - p) by {
      MeanDistance(w, z, p, q, m, d);
    }
    assert (m - q) * d == (w * q) * (p - q) by {
      MeanDistance(z, w, q, p, m, d);
    }
    SignKept(m - p, d, z * p, q - p);
    SignKept(m - q, d, w * q, p - q);
  }

  lemma MeanDistance(w: real, z: real, p: real, q: real, m: real, d: real)
    requires d == w * q + z * p && m * d == (w + z) * (p * q)
    ensures (m - p) * d == (z * p) * (q - p)
  {
    assert (m - p) * d == m * d - p * d;
    assert p * d == w * (p * q) + (z * p) * p;
    Distribute(w, z, p * q);
    assert z * (p * q) == (z * p) * q;
  }

  lemma SignKept(x: real, d: real, u: real, y: real)
    requires d > 0.0 && u > 0.0 && x * d == u * y
    ensures (x > 0.0 <==> y > 0.0) && (x < 0.0 <==> y < 0.0)
  {
    if x > 0.0 {
      Product(x, d);
      Product(u, if y > 0.0 then y else -y);
    } else if x < 0.0 {
      Product(-x, d);
      Product(u, if y > 0.0 then y else -y);
    }
  }

  /** The secant of the shorter step weighs more: the slope lies on its side of the harmonic mean without weights,
      2 * p * q / (p + q), and is that mean if and only if the steps are equally long or the secants equal. */
  lemma ShorterWeighsMore(a: real, b: real, p: real, q: real)
    requires a > 0.0 && b > 0.0 && p > 0.0 && q > 0.0
    ensures var m := Slope(a, b, p, q);
      && (m * (p + q) < 2.0 * (p * q) <==> (b - a) * (q - p) > 0.0)
      && (m * (p + q) > 2.0 * (p * q) <==> (b - a) * (q - p) < 0.0)
  {
    SlopeLaw(a, b, p, q);
    SlopePositive(a, b, p, q);
    var m, k, l := Slope(a, b, p, q), (a + b) * 1.5, (b - a) * (q - p);
    Product(a, q);
    Product(b, q);
    Product(a, p);
    Product(b, p);
    var d := (2.0 * b + a) * q + (b + 2.0 * a) * p;
    assert d == k * (p + q) + 0.5 * l;
    assert m * d == m * (k * (p + q)) + m * (0.5 * l);
    assert m * (k * (p + q)) == k * (m * (p + q));
    assert k * (2.0 * (p * q) - m * (p + q)) == m * (0.5 * l);
    SignKept(2.0 * (p * q) - m * (p + q), k, m, 0.5 * l);
  }

  lemma FourFactors(p: real, a: real, q: real, b: real)
    ensures (p * a) * (q * b) == (p * q) * (a * b)
  {
    assert (p * a) * (q * b) == p * (a * (q * b));
    assert a * (q * b) == q * (a * b);
  }

  lemma Scaled(w: real, a: real, q: real, b: real)
    ensures w * (a * (q * b)) == (w * q) * (a * b)
  {
    assert a * (q * b) == q * (a * b);
  }

  lemma NonzeroBoth(a: real, b: real)
    requires a != 0.0 && b != 0.0
    ensures a * b != 0.0
  {
    if b > 0.0 {
      NonzeroProduct(a, b);
    } else {
      NonzeroProduct(a, -b);
      assert a * (-b) == -(a * b);
    }
  }

  lemma SignOfScaled(x: real, k: real)
    requires k != 0.0
    ensures k * (x * k) > 0.0 <==> x > 0.0
  {
    SameSign(k, k);
    assert k * (x * k) == x * (k * k);
    SameSign(x, k * k);
  }

  /** An equation between a mean and products, scaled. */
  lemma ScaledMean(m: real, w: real, z: real, p: real, q: real, c: real, k: real)
    requires k != 0.0
    ensures ((w * q) * k + (z * p) * k != 0.0 <==> w * q + z * p != 0.0)
    ensures m * (w * q + z * p) == c * (p * q) ==> m * ((w * q) * k + (z * p) * k) == c * ((p * q) * k)
  {
    var e := w * q + z * p;
    Distribute(w * q, z * p, k);
    if e != 0.0 {
      NonzeroBoth(e, k);
    }
    Product3(m, e, k);
    Product3(c, p * q, k);
  }

  /** `m` is the slope between a step of `u` up in a width `a` and one of `v` up in a width `b`: the weighted harmonic
      mean of u / a and v / b, multiplied out, or 0 if these do not go the same way. */
  predicate Fits(a: real, b: real, u: real, v: real, m: real)
  {
    var d := (2.0 * b + a) * (a * v) + (b + 2.0 * a) * (b * u);
    if (a * b) * (u * v) > 0.0 && d != 0.0 then m * d == 3.0 * (a + b) * (u * v) else m == 0.0
  }

  /** The same in terms of the steps themselves. */
  lemma SlopeOfSteps(a: real, b: real, u: real, v: real, p: real, q: real)
    requires a != 0.0 && b != 0.0 && p * a == u && q * b == v
    ensures Fits(a, b, u, v, Slope(a, b, p, q))
  {
    SlopeLaw(a, b, p, q);
    FourFactors(p, a, q, b);
    NonzeroBoth(a, b);
    SignOfScaled(p * q, a * b);
    Scaled(2.0 * b + a, a, q, b);
    Scaled(b + 2.0 * a, b, p, a);
    ScaledMean(Slope(a, b, p, q), 2.0 * b + a, b + 2.0 * a, p, q, 3.0 * (a + b), a * b);
  }

  /** A slope that keeps a curve over a step with secant `d` monotone: it has the sign of `d` and at most three times
      its size. */
  predicate Gentle(m: real, d: real)
  {
    if d >= 0.0 then 0.0 <= m <= 3.0 * d else 3.0 * d <= m <= 0.0
  }

  /** The slope has the sign of both secants, and at most three times the size of either. */
  lemma SlopeIsGentle(a: real, b: real, p: real, q: real)
    requires a > 0.0 && b > 0.0
    ensures Gentle(Slope(a, b, p, q), p) && Gentle(Slope(a, b, p, q), q)
  {
    if p > 0.0 && q > 0.0 {
      SlopePositive(a, b, p, q);
    } else if p < 0.0 && q < 0.0 {
      SlopePositive(a, b, -p, -q);
      SlopeNegated(a, b, p, q);
    }
  }

  /** The cubic curve with the given control values, at `t`. */
  function Cubic(p0: real, p1: real, p2: real, p3: real, t: real): real
  {
    var s := 1.0 - t;
    s * s * s * p0 + 3.0 * (s * s * t) * p1 + 3.0 * (s * t * t) * p2 + t * t * t * p3
  }

  /** Control values at a third and two thirds of the way make the curve a straight one. */
  lemma CubicAffine(x: real, x1: real, x2: real, z: real, t: real)
    requires x1 == x + (z - x) / 3.0 && x2 == z - (z - x) / 3.0
    ensures Cubic(x, x1, x2, z, t) == x + t * (z - x)
  {
    var v := (z - x) / 3.0;
    CubicSplit(x, v, t);
    assert z - x == 3.0 * v && x1 == x + v && x2 == x + 2.0 * v && z == x + 3.0 * v;
    assert t * (z - x) == 3.0 * (t * v);
  }

  lemma CubicSplit(x: real, v: real, t: real)
    ensures Cubic(x, x + v, x + 2.0 * v, x + 3.0 * v, t) == x + 3.0 * (t * v)
  {
    var s := 1.0 - t;
    var a, b, c, d := s * s * s, s * s * t, s * t * t, t * t * t;
    assert a + 3.0 * b + 3.0 * c + d == 1.0;
    assert 3.0 * b + 6.0 * c + 3.0 * d == 3.0 * t;
  }

  // ---- four curves from 0 to 1 of which every gentle one is a mixture ----

  function Ease(t: real): real { 3.0 * (t * t) - 2.0 * (t * t * t) }

  function Early(t: real): real { 3.0 * t - 3.0 * (t * t) + t * t * t }

  function Late(t: real): real { t * t * t }

  function Wave(t: real): real { 4.0 * (t * t * t) - 6.0 * (t * t) + 3.0 * t }

  lemma ProductSmaller(x: real, y: real) returns (p: real)
    requires 0.0 <= x <= 1.0 && 0.0 <= y
    ensures p == x * y && p <= y
  {
    Product(1.0 - x, y);
    p := x * y;
  }

  lemma EaseGrows(s: real, t: real)
    requires 0.0 <= s <= t <= 1.0
    ensures Ease(s) <= Ease(t)
  {
    var a := ProductSmaller(t, t);
    var c := ProductSmaller(s, s);
    var b := ProductSmaller(t, s);
    var b' := ProductSmaller(s, t);
    assert b == b';
    var w := EaseFactor(s, t, a, b, c);
    EaseChange(s, t, w);
    Product(t - s, w);
  }

  lemma EaseFactor(s: real, t: real, a: real, b: real, c: real) returns (w: real)
    requires a <= t && c <= s && b <= s && b <= t
    ensures w == 3.0 * (t + s) - 2.0 * (a + b + c) >= 0.0
  {
    w := 3.0 * (t + s) - 2.0 * (a + b + c);
  }

  lemma EaseChange(s: real, t: real, w: real)
    requires w == 3.0 * (t + s) - 2.0 * (t * t + t * s + s * s)
    ensures (t - s) * w == Ease(t) - Ease(s)
  {
  }

  lemma LateGrows(s: real, t: real)
    requires 0.0 <= s <= t <= 1.0
    ensures Late(s) <= Late(t)
  {
    var w := t * t + t * s + s * s;
    Product(t, t);
    Product(t, s);
    Product(s, s);
    Product(t - s, w);
    assert (t - s) * w == Late(t) - Late(s);
  }

  lemma EarlyGrows(s: real, t: real)
    requires 0.0 <= s <= t <= 1.0
    ensures Early(s) <= Early(t)
  {
    LateGrows(1.0 - t, 1.0 - s);
    assert Early(t) == 1.0 - Late(1.0 - t) && Early(s) == 1.0 - Late(1.0 - s);
  }

  lemma Square(x: real)
    ensures x * x >= 0.0
  {}

  lemma WaveGrows(s: real, t: real)
    requires 0.0 <= s <= t <= 1.0
    ensures Wave(s) <= Wave(t)
  {
    var u, v := t - 0.5, s - 0.5;
    var w := u * u + u * v + v * v;
    Square(u);
    Square(v);
    Square(u + v);
    assert 2.0 * w == u * u + v * v + (u + v) * (u + v);
    Product(t - s, 4.0 * w);
    assert (t - s) * (4.0 * w) == Wave(t) - Wave(s);
  }

  lemma CubicMixture(y: real, d: real, u: real, v: real, t: real)
    ensures Cubic(y, y + u, y + d - v, y + d, t) == y + (d - u - v) * Ease(t) + u * Early(t) + v * Late(t)
    ensures Cubic(y, y + u, y + d - v, y + d, t) == y + (u + v - d) * Wave(t) + (d - u) * Late(t) + (d - v) * Early(t)
  {
    var s := 1.0 - t;
    var a, b, c, e := s * s * s, s * s * t, s * t * t, t * t * t;
    assert a + 3.0 * b + 3.0 * c + e == 1.0;
    assert b == t - 2.0 * (t * t) + e && c == t * t - e;
    assert Cubic(y, y + u, y + d - v, y + d, t) == y + 3.0 * b * u + 3.0 * c * (d - v) + e * d;
  }

  datatype Four = Four(ease: real, early: real, late: real, wave: real)
  {
    /** `c` as a mixture of values of the four curves; the weights are not negative when `u + v <= d`. */
    predicate MixesNear(y: real, d: real, u: real, v: real, c: real)
    {
      c == y + (d - u - v) * ease + u * early + v * late
    }

    /** The same for `u + v >= d`. */
    predicate MixesFar(y: real, d: real, u: real, v: real, c: real)
    {
      c == y + (u + v - d) * wave + (d - u) * late + (d - v) * early
    }

    predicate Below(b: Four)
    {
      ease <= b.ease && early <= b.early && late <= b.late && wave <= b.wave
    }
  }

  function FourAt(t: real): Four
  {
    Four(Ease(t), Early(t), Late(t), Wave(t))
  }

  lemma CubicMixed(y: real, d: real, u: real, v: real, t: real) returns (a: Four, c: real)
    ensures a == FourAt(t) && c == Cubic(y, y + u, y + d - v, y + d, t) && a.MixesNear(y, d, u, v, c)
            && a.MixesFar(y, d, u, v, c)
  {
    CubicMixture(y, d, u, v, t);
    a, c := FourAt(t), Cubic(y, y + u, y + d - v, y + d, t);
  }

  /** None of the four curves moves back. */
  lemma FourGrow(s: real, t: real)
    requires 0.0 <= s <= t <= 1.0
    ensures FourAt(s).Below(FourAt(t))
  {
    EaseGrows(s, t);
    EarlyGrows(s, t);
    LateGrows(s, t);
    WaveGrows(s, t);
  }
  /** A mixture of values that grow grows. */
  lemma MixtureGrows(k: real, l: real, m: real, a: real, b: real, c: real, d: real, e: real, f: real, y: real, p: real,
                     q: real)
    requires k >= 0.0 && l >= 0.0 && m >= 0.0 && a <= b && c <= d && e <= f
    requires p == y + k * a + l * c + m * e && q == y + k * b + l * d + m * f
    ensures p <= q
  {
    assert k * a <= k * b;
    assert l * c <= l * d;
    assert m * e <= m * f;
  }

  /** Rising, with control values that rise from the ends by no more than the whole: the curve only rises. */
  lemma CubicRises(y: real, d: real, u: real, v: real, s: real, t: real)
    requires 0.0 <= u <= d && 0.0 <= v <= d && 0.0 <= s <= t <= 1.0
    ensures Cubic(y, y + u, y + d - v, y + d, s) <= Cubic(y, y + u, y + d - v, y + d, t)
  {
    var a, p := CubicMixed(y, d, u, v, s);
    var b, q := CubicMixed(y, d, u, v, t);
    FourGrow(s, t);
    if u + v <= d {
      NearRises(y, d, u, v, a, b, p, q);
    } else {
      FarRises(y, d, u, v, a, b, p, q);
    }
  }

  lemma NearRises(y: real, d: real, u: real, v: real, a: Four, b: Four, p: real, q: real)
    requires 0.0 <= u && 0.0 <= v && u + v <= d && a.Below(b)
    requires a.MixesNear(y, d, u, v, p) && b.MixesNear(y, d, u, v, q)
    ensures p <= q
  {
    MixtureGrows(d - u - v, u, v, a.ease, b.ease, a.early, b.early, a.late, b.late, y, p, q);
  }

  lemma FarRises(y: real, d: real, u: real, v: real, a: Four, b: Four, p: real, q: real)
    requires u <= d && v <= d && d <= u + v && a.Below(b)
    requires a.MixesFar(y, d, u, v, p) && b.MixesFar(y, d, u, v, q)
    ensures p <= q
  {
    MixtureGrows(u + v - d, d - u, d - v, a.wave, b.wave, a.late, b.late, a.early, b.early, y, p, q);
  }

  lemma CubicNegated(p0: real, p1: real, p2: real, p3: real, t: real)
    ensures Cubic(-p0, -p1, -p2, -p3, t) == -Cubic(p0, p1, p2, p3, t)
  {
    var s := 1.0 - t;
    var a, b, c, d := s * s * s, 3.0 * (s * s * t), 3.0 * (s * t * t), t * t * t;
    assert a * (-p0) == -(a * p0) && b * (-p1) == -(b * p1) && c * (-p2) == -(c * p2) && d * (-p3) == -(d * p3);
  }

  lemma CubicFalls(y: real, d: real, u: real, v: real, s: real, t: real)
    requires d <= u <= 0.0 && d <= v <= 0.0 && 0.0 <= s <= t <= 1.0
    ensures Cubic(y, y + u, y + d - v, y + d, s) >= Cubic(y, y + u, y + d - v, y + d, t)
  {
    CubicRises(-y, -d, -u, -v, s, t);
    CubicNegated(y, y + u, y + d - v, y + d, s);
    CubicNegated(y, y + u, y + d - v, y + d, t);
  }

  lemma GentleHandle(m: real, w: real, d: real)
    requires w > 0.0 && Gentle(m, d / w)
    ensures if d >= 0.0 then 0.0 <= m * w / 3.0 <= d else d <= m * w / 3.0 <= 0.0
  {
    var q := d / w;
    assert q * w == d;
    if d < 0.0 {
      assert q < 0.0;
      Product(m - 3.0 * q, w);
      assert m * w <= 0.0;
    } else {
      assert q >= 0.0;
      Product(3.0 * q - m, w);
      Product(m, w);
    }
  }

  predicate Between(a: real, b: real, y: real, z: real)
  {
    if a <= b then a <= y <= z <= b else a >= y >= z >= b
  }

  /** A curve over a step of width `w` with control values by the slopes `m` and `n` at its ends: with gentle slopes it
      moves only from the value at one end towards that at the other. */
  lemma CurveIsMonotone(y: real, y1: real, y2: real, z: real, w: real, m: real, n: real, s: real, t: real)
    requires w > 0.0 && Gentle(m, (z - y) / w) && Gentle(n, (z - y) / w) && 0.0 <= s <= t <= 1.0
    requires y1 == y + m * w / 3.0 && y2 == z - n * w / 3.0
    ensures Between(y, z, Cubic(y, y1, y2, z, s), Cubic(y, y1, y2, z, t))
  {
    var d, u, v := z - y, m * w / 3.0, n * w / 3.0;
    GentleHandle(m, w, d);
    GentleHandle(n, w, d);
    HandlesAreMonotone(y, d, u, v, s, t);
  }

  lemma HandlesAreMonotone(y: real, d: real, u: real, v: real, s: real, t: real)
    requires if d >= 0.0 then 0.0 <= u <= d && 0.0 <= v <= d else d <= u <= 0.0 && d <= v <= 0.0
    requires 0.0 <= s <= t <= 1.0
    ensures Between(y, y + d, Cubic(y, y + u, y + d - v, y + d, s), Cubic(y, y + u, y + d - v, y + d, t))
  {
    CubicEnds(y, y + u, y + d - v, y + d);
    if d >= 0.0 {
      CubicRises(y, d, u, v, 0.0, s);
      CubicRises(y, d, u, v, s, t);
      CubicRises(y, d, u, v, t, 1.0);
    } else {
      CubicFalls(y, d, u, v, 0.0, s);
      CubicFalls(y, d, u, v, s, t);
      CubicFalls(y, d, u, v, t, 1.0);
    }
  }

  lemma CubicEnds(p0: real, p1: real, p2: real, p3: real)
    ensures Cubic(p0, p1, p2, p3, 0.0) == p0 && Cubic(p0, p1, p2, p3, 1.0) == p3
  {}

  /** The curve with the given control values at `t`, by halving towards the ends (de Casteljau). */
  function Bezier(c: seq<real>, t: real): real
    requires c != []
    decreases |c|
  {
    if |c| == 1 then c[0] else (1.0 - t) * Bezier(c[..|c| - 1], t) + t * Bezier(c[1..], t)
  }

  function Mix(a: real, b: real, t: real): real { (1.0 - t) * a + t * b }

  lemma BezierTwo(a: real, b: real, t: real)
    ensures Bezier([a, b], t) == Mix(a, b, t)
  {
    assert [a, b][..1] == [a] && [a, b][1..] == [b];
  }

  lemma BezierThree(a: real, b: real, c: real, t: real)
    ensures Bezier([a, b, c], t) == Mix(Mix(a, b, t), Mix(b, c, t), t)
  {
    assert [a, b, c][..2] == [a, b] && [a, b, c][1..] == [b, c];
    BezierTwo(a, b, t);
    BezierTwo(b, c, t);
  }

  lemma BezierFour(a: real, b: real, c: real, d: real, t: real)
    ensures Bezier([a, b, c, d], t) == Cubic(a, b, c, d, t)
  {
    assert [a, b, c, d][..3] == [a, b, c] && [a, b, c, d][1..] == [b, c, d];
    BezierThree(a, b, c, t);
    BezierThree(b, c, d, t);
    MixCubic(a, b, c, d, t);
  }

  lemma MixCubic(a: real, b: real, c: real, d: real, t: real)
    ensures Mix(Mix(Mix(a, b, t), Mix(b, c, t), t), Mix(Mix(b, c, t), Mix(c, d, t), t), t) == Cubic(a, b, c, d, t)
  {
    var s := 1.0 - t;
    MixSquare(a, b, c, t);
    MixSquare(b, c, d, t);
    assert s * (s * s * a + 2.0 * (s * t) * b + t * t * c) == s * s * s * a + 2.0 * (s * s * t) * b + s * t * t * c;
    assert t * (s * s * b + 2.0 * (s * t) * c + t * t * d) == s * s * t * b + 2.0 * (s * t * t) * c + t * t * t * d;
  }

  lemma MixSquare(a: real, b: real, c: real, t: real)
    ensures var s := 1.0 - t; Mix(Mix(a, b, t), Mix(b, c, t), t) == s * s * a + 2.0 * (s * t) * b + t * t * c
  {}

  lemma BezierAffine(x: real, x1: real, x2: real, z: real, t: real)
    requires x1 == x + (z - x) / 3.0 && x2 == z - (z - x) / 3.0
    ensures Bezier([x, x1, x2, z], t) == x + t * (z - x)
  {
    CubicAffine(x, x1, x2, z, t);
    BezierFour(x, x1, x2, z, t);
  }

  lemma BezierMonotone(y: real, y1: real, y2: real, z: real, w: real, m: real, n: real, s: real, t: real)
    requires w > 0.0 && Gentle(m, (z - y) / w) && Gentle(n, (z - y) / w) && 0.0 <= s <= t <= 1.0
    requires y1 == y + m * w / 3.0 && y2 == z - n * w / 3.0
    ensures Between(y, z, Bezier([y, y1, y2, z], s), Bezier([y, y1, y2, z], t))
  {
    CurveIsMonotone(y, y1, y2, z, w, m, n, s, t);
    BezierFour(y, y1, y2, z, s);
    BezierFour(y, y1, y2, z, t);
  }
}
