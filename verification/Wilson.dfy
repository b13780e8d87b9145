/** The Wilson score interval of a Monte-Carlo yield, and the run count that inverts it.  */
module Wilson {
  import opened Reals

  /** The 97.5th percentile of the standard normal distribution. */
  const Z95 := 1.959963984540054
  const Z95_SQ := Z95 * Z95

  /** A percentile, its square, and the square root in use. */
  datatype Parameters = Parameters(z: real, zz: real, sqrt: real -> real)

  type Engine = e: Parameters | e.zz > 0.0 witness Parameters(1.0, 1.0, v => v)

  ghost predicate IsExact(engine: Engine) {
    engine.z > 0.0 && engine.zz == engine.z * engine.z && IsSqrt(engine.sqrt)
  }

  /** The engine of the source. */
  function Engine95(sqrt: real -> real): Engine {
    Parameters(Z95, Z95_SQ, sqrt)
  }

  lemma Engine95IsExact(sqrt: real -> real)
    requires IsSqrt(sqrt)
    ensures IsExact(Engine95(sqrt)) && 3.84 < Engine95(sqrt).zz < 3.842
    ensures 1.95996398454 < Engine95(sqrt).z < 1.959963984541
  {
  }

  datatype Interval = Interval(low: real, high: real)

  function Share(passed: int, n: int): real
    requires n > 0
  {
    passed as real / n as real
  }

  function FourSquares(m: real): (mm: real)
    requires m > 0.0
    ensures mm > 0.0
  {
    ScalePositive(m, m);
    4.0 * m * m
  }

  /** Variance of a share over m samples, with the correction for few of them. */
  function Variance(p: real, m: real, zz: real): real
    requires m > 0.0
  {
    p * (1.0 - p) / m + zz / FourSquares(m)
  }

  /** Centre less and plus half the width, before anything is clamped, for any z and its square. */
  function Score(z: real, zz: real, p: real, m: real, sqrt: real -> real): Interval
    requires m > 0.0 && zz > 0.0
  {
    Spanning(Centre(p, zz, m), HalfWidth(z, zz, p, m, sqrt), Denominator(zz, m))
  }

  /** Numerators and denominator of the two fractions. */
  function Centre(p: real, zz: real, m: real): real
    requires m > 0.0
  {
    p + zz / (2.0 * m)
  }

  function HalfWidth(z: real, zz: real, p: real, m: real, sqrt: real -> real): real
    requires m > 0.0
  {
    z * sqrt(Variance(p, m, zz))
  }

  function Denominator(zz: real, m: real): (d: real)
    requires m > 0.0 && zz > 0.0
    ensures d > 1.0
  {
    ScalePositive(m, zz / m);
    1.0 + zz / m
  }

  function Spanning(c: real, t: real, denom: real): Interval
    requires denom > 0.0
  {
    var centre, half := c / denom, t / denom;
    Interval(centre - half, centre + half)
  }

  function Unclamped(passed: int, n: int, engine: Engine): Interval
    requires n > 0
  {
    Score(engine.z, engine.zz, Share(passed, n), n as real, engine.sqrt)
  }

  /** z squared over the number of samples. */
  function Spread(n: int, engine: Engine): real
    requires n > 0
  {
    engine.zz / n as real
  }

  /** The interval for `passed` of `n` samples, as the engine computes it, clamps included. */
  function Wilson95(passed: int, n: int, engine: Engine): Interval {
    if n <= 0 then Interval(0.0, 1.0)
    else
      var i := Unclamped(passed, n, engine);
      Interval(Max(0.0, i.low), Min(1.0, i.high))
  }

  // ------------------------------------------------------------------------------------------------------
  // The quadratic behind the interval
  // ------------------------------------------------------------------------------------------------------

  /** Squared distance of `v` from the sample share `p`, less the variance it would have; `w` is z squared over n. */
  function Excess(p: real, w: real, v: real): real {
    (p - v) * (p - v) - w * (v * (1.0 - v))
  }

  /** The ends in terms of the share, w and the root of the discriminant. */
  ghost predicate AreEnds(e: Interval, p: real, w: real, t: real) {
    && t >= 0.0
    && IsRoot(t, p, w)
    && AroundCentre(e, 1.0 + w, p + w / 2.0, t)
  }

  ghost predicate IsRoot(t: real, p: real, w: real) {
    t * t == w * (p * (1.0 - p)) + w * w / 4.0
  }

  ghost predicate AroundCentre(e: Interval, d: real, c: real, t: real) {
    d * e.low == c - t && d * e.high == c + t
  }

  /** `d * x` is the completed square: how far `d * v` is from `c`, squared, less the square of `t`. */
  ghost predicate Completes(x: real, d: real, c: real, v: real, t: real) {
    d * x == Square(d * v - c) - t * t
  }

  /** Completing the square. */
  lemma ExcessSquared(p: real, w: real, t: real, v: real)
    requires IsRoot(t, p, w)
    ensures Completes(Excess(p, w, v), 1.0 + w, p + w / 2.0, v, t)
  {
    var d, c := 1.0 + w, p + w / 2.0;
    assert Excess(p, w, v) == d * (v * v) - 2.0 * (c * v) + p * p by {
      assert w * (v * (1.0 - v)) == w * v - w * (v * v);
      assert (p - v) * (p - v) == p * p - 2.0 * (p * v) + v * v;
    }
    assert c * c - t * t == d * (p * p) by {
      assert c * c == p * p + p * w + w * w / 4.0;
      assert w * (p * (1.0 - p)) == w * p - w * (p * p);
    }
    assert Square(d * v - c) == (d * v) * (d * v) - 2.0 * (c * (d * v)) + c * c;
    assert d * (d * (v * v)) == (d * v) * (d * v);
    assert d * (c * v) == c * (d * v);
  }

  /** Outside the ends the sample share is too far away; between them it is near enough. */
  lemma ExcessSign(e: Interval, p: real, w: real, t: real, v: real)
    requires w > 0.0 && AreEnds(e, p, w, t)
    ensures Excess(p, w, v) >= 0.0 <==> v <= e.low || v >= e.high
    ensures Excess(p, w, v) <= 0.0 <==> e.low <= v <= e.high
  {
    hide Excess, IsRoot, AroundCentre, Completes;
    ExcessSquared(p, w, t, v);
    RootsBoundSign(Excess(p, w, v), 1.0 + w, p + w / 2.0, t, v, e);
  }

  /** A completed square is as large as the root's square exactly outside the two roots. */
  lemma RootsBoundSign(x: real, d: real, c: real, t: real, v: real, e: Interval)
    requires d > 0.0 && t >= 0.0 && AroundCentre(e, d, c, t)
    requires Completes(x, d, c, v, t)
    ensures x >= 0.0 <==> v <= e.low || v >= e.high
    ensures x <= 0.0 <==> e.low <= v <= e.high
  {
    hide Square;
    var y := d * v - c;
    ScalePositive(d, x);
    SquareAgainst(y, t);
    Order(d, v, e.low);
    Order(d, v, e.high);
    SignFromSquare(x, d * x, v, e.low, e.high, d * v, d * e.low, d * e.high, c, t, Square(y), t * t);
  }

  /** The sign argument with every product named. */
  lemma SignFromSquare(x: real, dx: real, v: real, lo: real, hi: real, dv: real, dlo: real, dhi: real, c: real, t: real,
                       yy: real, tt: real)
    requires dx == yy - tt && (dx >= 0.0 <==> x >= 0.0) && (dx <= 0.0 <==> x <= 0.0)
    requires dlo == c - t && dhi == c + t
    requires yy >= tt <==> dv - c >= t || dv - c <= -t
    requires yy <= tt <==> -t <= dv - c <= t
    requires (dv <= dlo <==> v <= lo) && (dv >= dlo <==> v >= lo)
    requires (dv <= dhi <==> v <= hi) && (dv >= dhi <==> v >= hi)
    ensures x >= 0.0 <==> v <= lo || v >= hi
    ensures x <= 0.0 <==> lo <= v <= hi
  {
  }

  lemma Order(d: real, x: real, y: real)
    requires d > 0.0
    ensures (d * x <= d * y <==> x <= y) && (d * x >= d * y <==> x >= y)
  {
    ScalePositive(d, x - y);
    assert d * (x - y) == d * x - d * y;
  }

  lemma SquareAgainst(y: real, t: real)
    requires t >= 0.0
    ensures Square(y) >= t * t <==> y >= t || y <= -t
    ensures Square(y) <= t * t <==> -t <= y <= t
  {
    if y >= 0.0 {
      SquareOrder(y, t);
      SquareOrder(t, y);
    } else {
      assert Square(y) == (-y) * (-y);
      SquareOrder(-y, t);
      SquareOrder(t, -y);
    }
  }

  /** The ends are the two roots, they surround the sample share, and they stay within the unit interval. */
  lemma EndsSurround(e: Interval, p: real, w: real, t: real)
    requires w > 0.0 && 0.0 <= p <= 1.0 && AreEnds(e, p, w, t)
    ensures Excess(p, w, e.low) == 0.0 && Excess(p, w, e.high) == 0.0
    ensures 0.0 <= e.low <= p <= e.high <= 1.0
  {
    Order(1.0 + w, e.low, e.high);
    ExcessSign(e, p, w, t, e.low);
    ExcessSign(e, p, w, t, e.high);
    ExcessSign(e, p, w, t, p);
    ExcessAtShare(p, w);
    LowNotNegative(e, p, w, t);
    HighAtMostOne(e, p, w, t);
    hide Excess;
  }

  lemma ExcessAtShare(p: real, w: real)
    requires w > 0.0 && 0.0 <= p <= 1.0
    ensures Excess(p, w, p) <= 0.0
  {
    ProductMonotone(0.0, 0.0, p, 1.0 - p);
    ProductMonotone(0.0, 0.0, w, p * (1.0 - p));
  }

  lemma LowNotNegative(e: Interval, p: real, w: real, t: real)
    requires w > 0.0 && 0.0 <= p <= 1.0 && AreEnds(e, p, w, t)
    ensures e.low >= 0.0
  {
    var c := p + w / 2.0;
    assert c * c - t * t == (1.0 + w) * (p * p) by {
      assert c * c == p * p + p * w + w * w / 4.0;
      assert w * (p * (1.0 - p)) == w * p - w * (p * p);
    }
    assert (1.0 + w) * (p * p) >= 0.0;
    SquareOrder(t, c);
    ScalePositive(1.0 + w, e.low);
  }

  lemma HighAtMostOne(e: Interval, p: real, w: real, t: real)
    requires w > 0.0 && 0.0 <= p <= 1.0 && AreEnds(e, p, w, t)
    ensures e.high <= 1.0
  {
    var q := 1.0 - p;
    assert q * (1.0 - q) == p * (1.0 - p);
    LowNotNegative(Interval(1.0 - e.high, 1.0 - e.low), q, w, t);
  }

  /** At a fixed number of samples, a larger share moves neither end down. */
  lemma EndsMonotone(e: Interval, p: real, t: real, e': Interval, p': real, t': real, w: real)
    requires w > 0.0 && 0.0 <= p <= p' <= 1.0 && AreEnds(e, p, w, t) && AreEnds(e', p', w, t')
    ensures e.low <= e'.low && e.high <= e'.high
  {
    EndsSurround(e, p, w, t);
    EndsSurround(e', p', w, t');
    if p == p' {
      SquareOrder(t, t');
      SquareOrder(t', t);
      Order(1.0 + w, e.low, e'.low);
      Order(1.0 + w, e.high, e'.high);
    } else {
      ExcessShift(p, p', w, e.low);
      ExcessShift(p, p', w, e'.high);
      ExcessSign(e', p', w, t', e.low);
      ExcessSign(e, p, w, t, e'.high);
      hide Excess, AreEnds;
    }
  }

  /** Moving the share away from a point raises the excess there. */
  lemma ExcessShift(p: real, p': real, w: real, v: real)
    requires p <= p'
    ensures v <= p ==> Excess(p', w, v) >= Excess(p, w, v)
    ensures v >= p' ==> Excess(p, w, v) >= Excess(p', w, v)
  {
    var a, b := p' - p, (p' - v) + (p - v);
    assert (p' - v) * (p' - v) - (p - v) * (p - v) == a * b;
    assert v <= p ==> a * b >= 0.0;
    assert v >= p' ==> a * b <= 0.0;
  }

  // ------------------------------------------------------------------------------------------------------
  // The engine's interval
  // ------------------------------------------------------------------------------------------------------

  lemma QuotientIs(a: real, b: real, c: real)
    requires b != 0.0 && a == c * b
    ensures a / b == c
  {
  }

  /** With z squared as `w` times the sample count, z squared times the variance is the discriminant. */
  lemma ScaledVariance(zz: real, m: real, w: real, q: real, a: real, b: real)
    requires m > 0.0 && zz == w * m && a * m == q && b * (4.0 * m * m) == zz
    ensures zz * (a + b) == w * q + w * w / 4.0
  {
    assert zz * a == w * q by {
      assert (w * m) * a == w * (a * m);
    }
    assert b * (4.0 * m) == w by {
      assert (b * (4.0 * m)) * m == b * (4.0 * m * m);
      QuotientIs(w * m, m, w);
      QuotientIs(w * m, m, b * (4.0 * m));
    }
    assert zz * b == (b * m) * w by {
      assert (w * m) * b == (b * m) * w;
    }
    assert b * (4.0 * m) == 4.0 * (b * m);
    assert 4.0 * ((b * m) * w) == (4.0 * (b * m)) * w;
  }

  /** The formula, for any z, yields the two ends. */
  lemma ScoreGivesEnds(z: real, zz: real, p: real, m: real, sqrt: real -> real)
    requires z > 0.0 && zz == z * z && zz > 0.0 && m > 0.0 && 0.0 <= p <= 1.0 && IsSqrt(sqrt)
    ensures AreEnds(Score(z, zz, p, m, sqrt), p, zz / m, HalfWidth(z, zz, p, m, sqrt))
  {
    HalvedQuotient(zz, m, zz / m);
    HalfWidthIsRoot(z, zz, p, m, sqrt);
    hide HalfWidth, AreEnds, AroundCentre, IsRoot, Spanning;
    var d, c, t := Denominator(zz, m), Centre(p, zz, m), HalfWidth(z, zz, p, m, sqrt);
    CentredEnds(d, c, t);
    Assemble(Spanning(c, t, d), p, zz / m, t, c, d);
  }

  lemma HalfWidthIsRoot(z: real, zz: real, p: real, m: real, sqrt: real -> real)
    requires z > 0.0 && zz == z * z && zz > 0.0 && m > 0.0 && 0.0 <= p <= 1.0 && IsSqrt(sqrt)
    ensures HalfWidth(z, zz, p, m, sqrt) >= 0.0 && IsRoot(HalfWidth(z, zz, p, m, sqrt), p, zz / m)
  {
    var w, v := zz / m, Variance(p, m, zz);
    VarianceNotNegative(p, m, zz);
    ProductMonotone(0.0, 0.0, z, sqrt(v));
    hide IsRoot;
    RootOfFormula(z, zz, m, FourSquares(m), w, p, sqrt(v));
  }

  lemma Assemble(e: Interval, p: real, w: real, t: real, c: real, d: real)
    requires t >= 0.0 && IsRoot(t, p, w) && AroundCentre(e, d, c, t) && d == 1.0 + w && c == p + w / 2.0
    ensures AreEnds(e, p, w, t)
  {
  }

  lemma VarianceNotNegative(p: real, m: real, zz: real)
    requires 0.0 <= p <= 1.0 && m > 0.0 && zz > 0.0
    ensures Variance(p, m, zz) >= 0.0
  {
    VarianceParts(p, m, zz, FourSquares(m));
  }

  lemma VarianceParts(p: real, m: real, zz: real, mm: real)
    requires 0.0 <= p <= 1.0 && m > 0.0 && mm > 0.0 && zz > 0.0
    ensures p * (1.0 - p) / m + zz / mm >= 0.0
  {
    ProductMonotone(0.0, 0.0, p, 1.0 - p);
    var a := p * (1.0 - p);
    QuotientTimes(a, m);
    ScalePositive(m, a / m);
    QuotientTimes(zz, mm);
    ScalePositive(mm, zz / mm);
  }

  lemma RootOfFormula(z: real, zz: real, m: real, mm: real, w: real, p: real, r: real)
    requires zz == z * z && m > 0.0 && w == zz / m && mm > 0.0 && mm == 4.0 * m * m
    requires r * r == p * (1.0 - p) / m + zz / mm
    ensures IsRoot(z * r, p, w)
  {
    var q := p * (1.0 - p);
    QuotientTimes(zz, m);
    QuotientTimes(q, m);
    QuotientTimes(zz, mm);
    ScaledVariance(zz, m, w, q, q / m, zz / mm);
    assert (z * r) * (z * r) == (z * z) * (r * r);
  }

  lemma HalvedQuotient(zz: real, m: real, w: real)
    requires m > 0.0 && w == zz / m
    ensures zz / (2.0 * m) == w / 2.0
  {
    QuotientTimes(zz, m);
    QuotientIs(zz, 2.0 * m, w / 2.0);
  }

  lemma CentredEnds(d: real, c: real, t: real)
    requires d > 0.0
    ensures AroundCentre(Spanning(c, t, d), d, c, t)
  {
    QuotientTimes(c, d);
    QuotientTimes(t, d);
  }

  lemma ShareInUnit(passed: int, n: int)
    requires n > 0 && 0 <= passed <= n
    ensures 0.0 <= Share(passed, n) <= 1.0
  {
    ScalePositive(n as real, Share(passed, n));
    ScalePositive(n as real, 1.0 - Share(passed, n));
    QuotientTimes(passed as real, n as real);
  }

  lemma SpreadPositive(n: int, engine: Engine)
    requires n > 0
    ensures Spread(n, engine) > 0.0
  {
    QuotientTimes(engine.zz, n as real);
    ScalePositive(n as real, Spread(n, engine));
  }

  /** The square root the interval is built from. */
  function Root(passed: int, n: int, engine: Engine): real
    requires n > 0
  {
    HalfWidth(engine.z, engine.zz, Share(passed, n), n as real, engine.sqrt)
  }

  /** The unclamped interval is the pair of ends. */
  lemma UnclampedEnds(passed: int, n: int, engine: Engine)
    requires n > 0 && 0 <= passed <= n && IsExact(engine)
    ensures AreEnds(Unclamped(passed, n, engine), Share(passed, n), Spread(n, engine), Root(passed, n, engine))
  {
    hide AreEnds, HalfWidth, Score, Share;
    ShareInUnit(passed, n);
    ScoreGivesEnds(engine.z, engine.zz, Share(passed, n), n as real, engine.sqrt);
  }

  /** The bounds are the two points as far from the share as their own spread allows, and clamping changes nothing. */
  lemma BoundsAreTheRoots(passed: int, n: int, engine: Engine)
    requires n > 0 && 0 <= passed <= n && IsExact(engine)
    ensures var i, p := Wilson95(passed, n, engine), Share(passed, n); 0.0 <= i.low <= p <= i.high <= 1.0
    ensures Wilson95(passed, n, engine) == Unclamped(passed, n, engine)
    ensures forall v :: Excess(Share(passed, n), Spread(n, engine), v) == 0.0 <==>
              v == Wilson95(passed, n, engine).low || v == Wilson95(passed, n, engine).high
    ensures forall v :: Excess(Share(passed, n), Spread(n, engine), v) < 0.0 <==>
              Wilson95(passed, n, engine).low < v < Wilson95(passed, n, engine).high
  {
    var i, p, w, t := Unclamped(passed, n, engine), Share(passed, n), Spread(n, engine), Root(passed, n, engine);
    UnclampedEnds(passed, n, engine);
    SpreadPositive(n, engine);
    ShareInUnit(passed, n);
    hide AreEnds, Excess, Share, Spread, Root, Unclamped;
    EndsSurround(i, p, w, t);
    forall v
      ensures Excess(p, w, v) >= 0.0 <==> v <= i.low || v >= i.high
      ensures Excess(p, w, v) <= 0.0 <==> i.low <= v <= i.high
    {
      ExcessSign(i, p, w, t, v);
    }
  }

  /** One more pass at the same number of samples moves neither bound down. */
  lemma BoundsMonotone(passed: int, more: int, n: int, engine: Engine)
    requires n > 0 && 0 <= passed <= more <= n && IsExact(engine)
    ensures Wilson95(passed, n, engine).low <= Wilson95(more, n, engine).low
    ensures Wilson95(passed, n, engine).high <= Wilson95(more, n, engine).high
  {
    BoundsAreTheRoots(passed, n, engine);
    BoundsAreTheRoots(more, n, engine);
    UnclampedEnds(passed, n, engine);
    UnclampedEnds(more, n, engine);
    SpreadPositive(n, engine);
    ShareInUnit(passed, n);
    ShareInUnit(more, n);
    ShareMonotone(passed, more, n);
    hide AreEnds, Share, Spread, Root, Unclamped, Wilson95;
    EndsMonotone(Unclamped(passed, n, engine), Share(passed, n), Root(passed, n, engine),
                 Unclamped(more, n, engine), Share(more, n), Root(more, n, engine), Spread(n, engine));
  }

  lemma ShareMonotone(passed: int, more: int, n: int)
    requires n > 0 && passed <= more
    ensures Share(passed, n) <= Share(more, n)
  {
    QuotientTimes(passed as real, n as real);
    QuotientTimes(more as real, n as real);
    Order(n as real, Share(passed, n), Share(more, n));
  }

  /** Without samples nothing is known. */
  lemma NoSamples(passed: int, engine: Engine)
    ensures Wilson95(passed, 0, engine) == Interval(0.0, 1.0)
  {
  }

  /** The lower bound of `n` clean samples. */
  function CleanBound(n: int, engine: Engine): real
    requires n > 0
  {
    n as real / (n as real + engine.zz)
  }

  /** When every sample passes, the lower bound is n over n plus z squared, and the upper bound is one. */
  lemma AllPassing(n: int, engine: Engine)
    requires n > 0 && IsExact(engine)
    ensures Wilson95(n, n, engine) == Interval(CleanBound(n, engine), 1.0)
  {
    AllShare(n);
    CleanRoots(n, engine);
    hide Wilson95, Excess, Share, Spread, CleanBound, Unclamped, IsExact;
    BoundsAreTheRoots(n, n, engine);
    assert Excess(Share(n, n), Spread(n, engine), 1.0) == 0.0
      && Excess(Share(n, n), Spread(n, engine), CleanBound(n, engine)) == 0.0;
  }

  lemma AllShare(n: int)
    requires n > 0
    ensures Share(n, n) == 1.0
  {
  }

  lemma CleanRoots(n: int, engine: Engine)
    requires n > 0
    ensures CleanBound(n, engine) < 1.0
    ensures Excess(1.0, Spread(n, engine), 1.0) == 0.0 && Excess(1.0, Spread(n, engine), CleanBound(n, engine)) == 0.0
  {
    QuotientTimes(n as real, n as real + engine.zz);
    QuotientTimes(engine.zz, n as real);
    hide Excess;
    AllPassingRoots(n as real, engine.zz, Spread(n, engine), CleanBound(n, engine));
  }

  lemma AllPassingRoots(m: real, zz: real, w: real, low: real)
    requires m > 0.0 && zz > 0.0 && w * m == zz && low * (m + zz) == m
    ensures low < 1.0 && Excess(1.0, w, 1.0) == 0.0 && Excess(1.0, w, low) == 0.0
  {
    ScalePositive(m + zz, 1.0 - low);
    assert m * (1.0 - low - w * low) == 0.0 by {
      assert m * (w * low) == (w * m) * low;
    }
    assert Excess(1.0, w, low) == (1.0 - low) * (1.0 - low - w * low);
  }
}
