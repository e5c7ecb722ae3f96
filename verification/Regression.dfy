/** internal/transport/costmodel.go: the regression behind the cost model, over reals. Times of samples are counted
    in half-lives on the model's own clock, and `decay(t)` stands for exp(-t ln 2); only its algebraic laws are used. */
module Regression {

  /** What the proofs use of exponential decay. */
  ghost predicate IsDecay(decay: real -> real) {
    && decay(0.0) == 1.0
    && (forall t: real :: t >= 0.0 ==> 0.0 < decay(t) <= 1.0)
    && forall s: real, t: real :: s >= 0.0 && t >= 0.0 ==> decay(s + t) == decay(s) * decay(t)
  }

  lemma DecayAt(decay: real -> real, t: real)
    requires IsDecay(decay) && t >= 0.0
    ensures 0.0 < decay(t) <= 1.0
  {}

  lemma DecayAdds(decay: real -> real, s: real, t: real)
    requires IsDecay(decay) && s >= 0.0 && t >= 0.0
    ensures decay(s + t) == decay(s) * decay(t)
  {}

  /** A recorded transfer: size, elapsed milliseconds, and the model's own clock when it was recorded. */
  datatype Sample = Sample(x: real, y: real, at: real)

  /** Samples in order of recording, none later than `now`. */
  ghost predicate IsHistory(h: seq<Sample>, now: real) {
    && (forall i :: 0 <= i < |h| ==> 0.0 <= h[i].at <= now)
    && forall i, j :: 0 <= i < j < |h| ==> h[i].at <= h[j].at
  }

  /** What is summed: the five statistics of the running fit, and the two errors the proofs speak of. */
  datatype Statistic = One | X | Y | XX | XY | YY | SquaredFrom(x: real) | Residual(a: real, b: real)

  function Value(f: Statistic, x: real, y: real): real {
    match f
    case One => 1.0
    case X => x
    case Y => y
    case XX => x * x
    case XY => x * y
    case YY => y * y
    case SquaredFrom(c) => (x - c) * (x - c)
    case Residual(a, b) => (y - a - b * x) * (y - a - b * x)
  }

  function Weighted(w: real, v: real): real {
    w * v
  }

  /** The sum of `f` over the history, each sample weighted by the decay since it was recorded. */
  ghost function Sum(decay: real -> real, h: seq<Sample>, now: real, f: Statistic): real {
    if h == [] then 0.0
    else
      var s := h[|h| - 1];
      Sum(decay, h[..|h| - 1], now, f) + Weighted(decay(now - s.at), Value(f, s.x, s.y))
  }

  ghost function N(d: real -> real, h: seq<Sample>, now: real): real {
    Sum(d, h, now, One)
  }

  lemma EmptySum(d: real -> real, now: real, f: Statistic)
    ensures Sum(d, [], now, f) == 0.0
  {}

  /** The last sample's share of a sum. */
  lemma SumStep(d: real -> real, h: seq<Sample>, now: real, f: Statistic)
    requires h != []
    ensures
      var s := h[|h| - 1];
      Sum(d, h, now, f) == Sum(d, h[..|h| - 1], now, f) + Weighted(d(now - s.at), Value(f, s.x, s.y))
  {}

  // ---------------------------------------------------------------- sums under decay

  lemma HistoryPrefix(h: seq<Sample>, now: real)
    requires IsHistory(h, now) && h != []
    ensures IsHistory(h[..|h| - 1], now) && 0.0 <= h[|h| - 1].at <= now
  {}

  /** Scaling every running sum by the decay of the elapsed time re-weights every sample. */
  lemma {:induction false} DecayScalesSum(d: real -> real, h: seq<Sample>, now: real, dt: real, f: Statistic)
    requires IsDecay(d) && IsHistory(h, now) && dt >= 0.0
    ensures Sum(d, h, now + dt, f) == Weighted(d(dt), Sum(d, h, now, f))
  {
    hide IsDecay, IsHistory, Sum, Weighted, Value;
    if h == [] {
      EmptySum(d, now, f);
      EmptySum(d, now + dt, f);
      Distribute(d(dt), 0.0, 0.0, 0.0, 0.0);
    } else {
      var s, t := h[|h| - 1], h[..|h| - 1];
      HistoryPrefix(h, now);
      DecayScalesSum(d, t, now, dt, f);
      SumStep(d, h, now, f);
      SumStep(d, h, now + dt, f);
      DecayAdds(d, dt, now - s.at);
      assert d(now + dt - s.at) == d(dt) * d(now - s.at) by { assert now + dt - s.at == dt + (now - s.at); }
      Distribute(d(dt), Sum(d, t, now, f), d(now - s.at), Value(f, s.x, s.y), d(now + dt - s.at));
    }
  }

  lemma Distribute(k: real, a: real, w: real, v: real, kw: real)
    requires kw == k * w
    ensures Weighted(k, a + Weighted(w, v)) == Weighted(k, a) + Weighted(kw, v)
    ensures Weighted(k, 0.0) == 0.0
  {
    assert k * (w * v) == (k * w) * v;
  }

  lemma SumOneMore(d: real -> real, h: seq<Sample>, s: Sample, f: Statistic)
    requires IsDecay(d)
    ensures Sum(d, h + [s], s.at, f) == Sum(d, h, s.at, f) + Value(f, s.x, s.y)
  {}

  lemma ProductPositive(a: real, b: real)
    requires a > 0.0 && b > 0.0
    ensures a * b > 0.0
  {}

  // ---------------------------------------------------------------- the spread of sizes

  /** n * sumXX - sumX * sumX. */
  ghost function Denominator(d: real -> real, h: seq<Sample>, now: real): real {
    N(d, h, now) * Sum(d, h, now, XX) - Sum(d, h, now, X) * Sum(d, h, now, X)
  }

  /** The sum of squared distances from `x`, expanded. */
  ghost predicate SpreadExpands(q: real, sxx: real, sx: real, n: real, x: real) {
    q == sxx - 2.0 * x * sx + x * x * n
  }

  lemma {:induction false} SpreadFrom(d: real -> real, h: seq<Sample>, now: real, x: real)
    ensures SpreadExpands(Sum(d, h, now, SquaredFrom(x)), Sum(d, h, now, XX), Sum(d, h, now, X), N(d, h, now), x)
  {
    hide Sum, Value, Weighted, SpreadExpands;
    if h == [] {
      EmptySum(d, now, SquaredFrom(x));
      EmptySum(d, now, XX);
      EmptySum(d, now, X);
      EmptySum(d, now, One);
      NoSpreadYet(x);
    } else {
      var s, t := h[|h| - 1], h[..|h| - 1];
      SpreadFrom(d, t, now, x);
      SumStep(d, h, now, SquaredFrom(x));
      SumStep(d, h, now, XX);
      SumStep(d, h, now, X);
      SumStep(d, h, now, One);
      SpreadOneMore(Sum(d, t, now, SquaredFrom(x)), Sum(d, t, now, XX), Sum(d, t, now, X), N(d, t, now),
                    d(now - s.at), s.x, s.y, x);
    }
  }

  lemma NoSpreadYet(x: real)
    ensures SpreadExpands(0.0, 0.0, 0.0, 0.0, x)
  {}

  lemma SpreadOneMore(q: real, sxx: real, sx: real, n: real, w: real, a: real, y: real, x: real)
    requires SpreadExpands(q, sxx, sx, n, x)
    ensures SpreadExpands(q + Weighted(w, Value(SquaredFrom(x), a, y)), sxx + Weighted(w, Value(XX, a, y)),
                          sx + Weighted(w, Value(X, a, y)), n + Weighted(w, Value(One, a, y)), x)
  {
    hide SpreadExpands, Weighted, Value;
    SpreadOfOne(w, a, y, x);
    SpreadsAdd(q, sxx, sx, n, Weighted(w, Value(SquaredFrom(x), a, y)), Weighted(w, Value(XX, a, y)),
               Weighted(w, Value(X, a, y)), Weighted(w, Value(One, a, y)), x);
  }

  lemma SpreadOfOne(w: real, a: real, y: real, x: real)
    ensures SpreadExpands(Weighted(w, Value(SquaredFrom(x), a, y)), Weighted(w, Value(XX, a, y)),
                          Weighted(w, Value(X, a, y)), Weighted(w, Value(One, a, y)), x)
  {}

  lemma SpreadsAdd(q: real, sxx: real, sx: real, n: real, q': real, sxx': real, sx': real, n': real, x: real)
    requires SpreadExpands(q, sxx, sx, n, x) && SpreadExpands(q', sxx', sx', n', x)
    ensures SpreadExpands(q + q', sxx + sxx', sx + sx', n + n', x)
  {}

  /** Adding a sample adds its weight times the spread around it: Lagrange's identity, one step at a time. */
  lemma DenominatorOneMore(n: real, sx: real, sxx: real, w: real, a: real, y: real, spread: real)
    requires SpreadExpands(spread, sxx, sx, n, a)
    ensures
      var n', sx' := n + Weighted(w, Value(One, a, y)), sx + Weighted(w, Value(X, a, y));
      var sxx' := sxx + Weighted(w, Value(XX, a, y));
      n' * sxx' - sx' * sx' == (n * sxx - sx * sx) + w * spread
  {}

  ghost predicate SameSize(h: seq<Sample>) {
    forall i, j :: 0 <= i < |h| && 0 <= j < |h| ==> h[i].x == h[j].x
  }

  ghost predicate AllAt(h: seq<Sample>, x: real) {
    forall i :: 0 <= i < |h| ==> h[i].x == x
  }

  lemma AllAtOneMore(t: seq<Sample>, s: Sample, x: real)
    ensures AllAt(t + [s], x) <==> AllAt(t, x) && s.x == x
  {
    var h := t + [s];
    if AllAt(h, x) {
      assert h[|t|] == s;
      forall i | 0 <= i < |t| ensures t[i].x == x { assert h[i] == t[i]; }
    }
  }

  /** The spread around `x` is zero only if every sample is at `x`. */
  lemma {:induction false} NoSpread(d: real -> real, h: seq<Sample>, now: real, x: real)
    requires IsDecay(d) && IsHistory(h, now)
    ensures Sum(d, h, now, SquaredFrom(x)) >= 0.0
    ensures Sum(d, h, now, SquaredFrom(x)) == 0.0 <==> AllAt(h, x)
  {
    hide IsDecay, IsHistory, AllAt, Sum, Value, Weighted;
    if h == [] {
      EmptySum(d, now, SquaredFrom(x));
      assert AllAt(h, x) by { NoneAt(x); }
    } else {
      var s, t := h[|h| - 1], h[..|h| - 1];
      HistoryPrefix(h, now);
      SumStep(d, h, now, SquaredFrom(x));
      NoSpread(d, t, now, x);
      DecayAt(d, now - s.at);
      assert h == t + [s];
      AllAtOneMore(t, s, x);
      AddSquare(Sum(d, t, now, SquaredFrom(x)), d(now - s.at), s.x, s.y, x);
    }
  }

  lemma NoneAt(x: real)
    ensures AllAt([], x) && SameSize([])
  {}

  lemma AddSquare(sum: real, w: real, a: real, y: real, x: real)
    requires sum >= 0.0 && w > 0.0
    ensures
      var sum' := sum + Weighted(w, Value(SquaredFrom(x), a, y));
      sum' >= 0.0 && (sum' == 0.0 <==> sum == 0.0 && a == x)
  {
    hide Weighted, Value;
    DistanceIsPositive(a, y, x);
    WeightedIsPositive(w, Value(SquaredFrom(x), a, y));
  }

  lemma DistanceIsPositive(a: real, y: real, x: real)
    ensures if a == x then Value(SquaredFrom(x), a, y) == 0.0 else Value(SquaredFrom(x), a, y) > 0.0
  {
    hide Value;
    var u, v := a - x, Value(SquaredFrom(x), a, y);
    DistanceSquared(a, y, x, u);
    SquareSign(u, v);
  }

  lemma DistanceSquared(a: real, y: real, x: real, u: real)
    requires u == a - x
    ensures Value(SquaredFrom(x), a, y) == u * u
  {}

  lemma SquareSign(a: real, v: real)
    requires v == a * a
    ensures if a == 0.0 then v == 0.0 else v > 0.0
  {
    if a > 0.0 {
      ProductSign(a, a, v);
    } else if a < 0.0 {
      NegatedSquare(a, -a);
      ProductSign(-a, -a, v);
    }
  }

  lemma ProductSign(a: real, b: real, v: real)
    requires a > 0.0 && b > 0.0 && v == a * b
    ensures v > 0.0
  {}

  lemma WeightedIsPositive(w: real, u: real)
    requires w > 0.0 && u >= 0.0
    ensures Weighted(w, u) >= 0.0 && (Weighted(w, u) == 0.0 <==> u == 0.0)
  {
    ScaledIsPositive(w, u);
  }

  lemma ScaledIsPositive(w: real, u: real)
    requires w > 0.0 && u >= 0.0
    ensures w * u >= 0.0 && (w * u == 0.0 <==> u == 0.0)
  {
    if u > 0.0 { ProductPositive(w, u); }
  }

  lemma NegatedSquare(a: real, b: real)
    requires b == -a
    ensures b * b == a * a
  {}

  /** The denominator of the fit is never negative, and zero exactly when all sizes are equal. */
  lemma {:induction false} DenominatorIsSpread(d: real -> real, h: seq<Sample>, now: real)
    requires IsDecay(d) && IsHistory(h, now)
    ensures Denominator(d, h, now) >= 0.0
    ensures Denominator(d, h, now) == 0.0 <==> SameSize(h)
  {
    hide IsDecay, IsHistory, SameSize, AllAt, Sum, Value, Weighted, SpreadExpands;
    if h == [] {
      EmptySum(d, now, One);
      EmptySum(d, now, X);
      EmptySum(d, now, XX);
      NoneAt(0.0);
      assert 0.0 * 0.0 == 0.0;
    } else {
      var s, t := h[|h| - 1], h[..|h| - 1];
      HistoryPrefix(h, now);
      DenominatorIsSpread(d, t, now);
      SpreadFrom(d, t, now, s.x);
      NoSpread(d, t, now, s.x);
      DecayAt(d, now - s.at);
      assert h == t + [s];
      SameSizeOneMore(t, s);
      DenominatorGrows(d, h, now);
      ScaledIsPositive(d(now - s.at), Sum(d, t, now, SquaredFrom(s.x)));
    }
  }

  lemma DenominatorGrows(d: real -> real, h: seq<Sample>, now: real)
    requires h != []
    ensures
      var s, t := h[|h| - 1], h[..|h| - 1];
      Denominator(d, h, now) == Denominator(d, t, now) + d(now - s.at) * Sum(d, t, now, SquaredFrom(s.x))
  {
    hide Sum, Value, Weighted, SpreadExpands;
    var s, t := h[|h| - 1], h[..|h| - 1];
    SumStep(d, h, now, One);
    SumStep(d, h, now, X);
    SumStep(d, h, now, XX);
    SpreadFrom(d, t, now, s.x);
    DenominatorOneMore(N(d, t, now), Sum(d, t, now, X), Sum(d, t, now, XX), d(now - s.at), s.x, s.y,
                       Sum(d, t, now, SquaredFrom(s.x)));
  }

  lemma SameSizeOneMore(t: seq<Sample>, s: Sample)
    ensures SameSize(t + [s]) <==> SameSize(t) && AllAt(t, s.x)
  {
    var h := t + [s];
    if SameSize(h) {
      assert h[|t|] == s;
      forall i | 0 <= i < |t| ensures t[i].x == s.x { assert h[i].x == h[|t|].x; }
      forall i, j | 0 <= i < |t| && 0 <= j < |t| ensures t[i].x == t[j].x { assert h[i].x == h[j].x; }
    }
  }

  // ---------------------------------------------------------------- least squares

  /** The weighted squared error of the line `a + b x`. */
  ghost function Loss(d: real -> real, h: seq<Sample>, now: real, a: real, b: real): real {
    Sum(d, h, now, Residual(a, b))
  }

  /** The error in terms of the running sums. */
  ghost function Quadratic(n: real, sx: real, sy: real, sxx: real, sxy: real, syy: real, a: real, b: real): real {
    syy - 2.0 * a * sy - 2.0 * b * sxy + a * a * n + 2.0 * a * b * sx + b * b * sxx
  }

  lemma {:induction false} LossIsQuadratic(d: real -> real, h: seq<Sample>, now: real, a: real, b: real)
    ensures Loss(d, h, now, a, b) ==
            Quadratic(N(d, h, now), Sum(d, h, now, X), Sum(d, h, now, Y), Sum(d, h, now, XX), Sum(d, h, now, XY),
                      Sum(d, h, now, YY), a, b)
  {
    hide Sum, Quadratic, Value, Weighted;
    if h == [] {
      EmptySum(d, now, Residual(a, b));
      EmptySum(d, now, One);
      EmptySum(d, now, X);
      EmptySum(d, now, Y);
      EmptySum(d, now, XX);
      EmptySum(d, now, XY);
      EmptySum(d, now, YY);
      NoLossYet(a, b);
    } else {
      var s, t := h[|h| - 1], h[..|h| - 1];
      var w := d(now - s.at);
      LossIsQuadratic(d, t, now, a, b);
      SumStep(d, h, now, Residual(a, b));
      SumStep(d, h, now, One);
      SumStep(d, h, now, X);
      SumStep(d, h, now, Y);
      SumStep(d, h, now, XX);
      SumStep(d, h, now, XY);
      SumStep(d, h, now, YY);
      LossOneMore(N(d, t, now), Sum(d, t, now, X), Sum(d, t, now, Y), Sum(d, t, now, XX), Sum(d, t, now, XY),
                  Sum(d, t, now, YY), w, s.x, s.y, a, b);
    }
  }

  lemma NoLossYet(a: real, b: real)
    ensures Quadratic(0.0, 0.0, 0.0, 0.0, 0.0, 0.0, a, b) == 0.0
  {}

  lemma LossOneMore(n: real, sx: real, sy: real, sxx: real, sxy: real, syy: real,
                    w: real, x: real, y: real, a: real, b: real)
    ensures Quadratic(n + Weighted(w, Value(One, x, y)), sx + Weighted(w, Value(X, x, y)),
                      sy + Weighted(w, Value(Y, x, y)),
                      sxx + Weighted(w, Value(XX, x, y)), sxy + Weighted(w, Value(XY, x, y)),
                      syy + Weighted(w, Value(YY, x, y)), a, b)
         == Quadratic(n, sx, sy, sxx, sxy, syy, a, b) + Weighted(w, Value(Residual(a, b), x, y))
  {
    ResidualExpands(w, x, y, a, b);
    QuadraticOneMore(n, sx, sy, sxx, sxy, syy, w, x, y, a, b);
    assert Value(One, x, y) == 1.0 && Value(X, x, y) == x && Value(Y, x, y) == y;
    assert Value(XX, x, y) == x * x && Value(XY, x, y) == x * y && Value(YY, x, y) == y * y;
    hide Quadratic, Value;
  }

  lemma ResidualExpands(w: real, x: real, y: real, a: real, b: real)
    ensures w * Value(Residual(a, b), x, y) ==
            Quadratic(w * 1.0, w * x, w * y, w * (x * x), w * (x * y), w * (y * y), a, b)
  {}

  lemma QuadraticOneMore(n: real, sx: real, sy: real, sxx: real, sxy: real, syy: real,
                         w: real, x: real, y: real, a: real, b: real)
    ensures Quadratic(n + w * 1.0, sx + w * x, sy + w * y, sxx + w * (x * x), sxy + w * (x * y),
                      syy + w * (y * y), a, b)
         == Quadratic(n, sx, sy, sxx, sxy, syy, a, b)
            + Quadratic(w * 1.0, w * x, w * y, w * (x * x), w * (x * y), w * (y * y), a, b)
  {}

  function Slope(n: real, sx: real, sy: real, sxx: real, sxy: real): real
    requires n * sxx - sx * sx != 0.0
  {
    (n * sxy - sx * sy) / (n * sxx - sx * sx)
  }

  function Intercept(n: real, sx: real, sy: real, sxx: real, sxy: real): real
    requires n * sxx - sx * sx != 0.0 && n != 0.0
  {
    (sy - Slope(n, sx, sy, sxx, sxy) * sx) / n
  }

  /** The fitted coefficients solve the normal equations. */
  lemma NormalEquations(n: real, sx: real, sy: real, sxx: real, sxy: real)
    requires n * sxx - sx * sx != 0.0 && n != 0.0
    ensures
      var b := Slope(n, sx, sy, sxx, sxy);
      var a := Intercept(n, sx, sy, sxx, sxy);
      a * n + b * sx == sy && a * sx + b * sxx == sxy
  {}

  /** How far a line's error exceeds that of a solution of the normal equations. */
  lemma ExcessLoss(n: real, sx: real, sy: real, sxx: real, sxy: real, syy: real, a: real, b: real, p: real, q: real)
    requires a * n + b * sx == sy && a * sx + b * sxx == sxy
    ensures Quadratic(n, sx, sy, sxx, sxy, syy, a + p, b + q) - Quadratic(n, sx, sy, sxx, sxy, syy, a, b)
         == p * p * n + 2.0 * p * q * sx + q * q * sxx
  {}

  /** The excess is a positive definite quadratic form. */
  lemma ExcessIsPositive(n: real, sx: real, sxx: real, p: real, q: real)
    requires n > 0.0 && n * sxx - sx * sx > 0.0 && (p != 0.0 || q != 0.0)
    ensures p * p * n + 2.0 * p * q * sx + q * q * sxx > 0.0
  {
    var e := p * p * n + 2.0 * p * q * sx + q * q * sxx;
    var u, den := p * n + q * sx, n * sxx - sx * sx;
    assert e * n == u * u + q * q * den by {
      assert u * u == (p * n) * (p * n) + 2.0 * ((p * n) * (q * sx)) + (q * sx) * (q * sx);
      assert (p * n) * (p * n) == (p * p * n) * n;
      assert (p * n) * (q * sx) == (p * q * sx) * n;
      assert (q * sx) * (q * sx) == q * q * (sx * sx);
      assert (q * q * sxx) * n == q * q * (n * sxx);
    }
    CompletedSquare(u, q, den, p, n, u * u, q * q, p * n, q * sx);
    PositiveFactor(e, n, e * n);
  }

  lemma CompletedSquare(u: real, q: real, den: real, p: real, n: real, uu: real, qq: real, pn: real, qs: real)
    requires uu == u * u && qq == q * q && pn == p * n && u == pn + qs && (q == 0.0 ==> qs == 0.0)
    requires n > 0.0 && den > 0.0 && (p != 0.0 || q != 0.0)
    ensures uu + qq * den > 0.0
  {
    SquareSign(u, uu);
    SquareSign(q, qq);
    if q == 0.0 {
      NonZeroProduct(p, n, pn);
      assert u != 0.0;
      assert qq * den == 0.0;
    } else {
      ProductSign(qq, den, qq * den);
    }
  }

  lemma NonZeroProduct(p: real, n: real, pn: real)
    requires p != 0.0 && n > 0.0 && pn == p * n
    ensures pn != 0.0
  {}

  lemma PositiveFactor(e: real, n: real, en: real)
    requires n > 0.0 && en == e * n && en > 0.0
    ensures e > 0.0
  {
    if e <= 0.0 { NonPositiveProduct(e, n, en); }
  }

  lemma NonPositiveProduct(e: real, n: real, en: real)
    requires e <= 0.0 && n > 0.0 && en == e * n
    ensures en <= 0.0
  {}

  lemma FitBeatsEveryLine(n: real, sx: real, sy: real, sxx: real, sxy: real, syy: real, a: real, b: real)
    requires n > 0.0 && n * sxx - sx * sx > 0.0
    requires (a, b) != (Intercept(n, sx, sy, sxx, sxy), Slope(n, sx, sy, sxx, sxy))
    ensures Quadratic(n, sx, sy, sxx, sxy, syy, Intercept(n, sx, sy, sxx, sxy), Slope(n, sx, sy, sxx, sxy))
          < Quadratic(n, sx, sy, sxx, sxy, syy, a, b)
  {
    var a0, b0 := Intercept(n, sx, sy, sxx, sxy), Slope(n, sx, sy, sxx, sxy);
    hide Slope, Intercept, Quadratic;
    NormalEquations(n, sx, sy, sxx, sxy);
    var p, q := a - a0, b - b0;
    ExcessLoss(n, sx, sy, sxx, sxy, syy, a0, b0, p, q);
    assert a0 + p == a && b0 + q == b;
    ExcessIsPositive(n, sx, sxx, p, q);
  }

  /** The regression line of the weighted history. */
  ghost function FittedIntercept(d: real -> real, h: seq<Sample>, now: real): real
    requires N(d, h, now) > 0.0 && Denominator(d, h, now) > 0.0
  {
    Intercept(N(d, h, now), Sum(d, h, now, X), Sum(d, h, now, Y), Sum(d, h, now, XX), Sum(d, h, now, XY))
  }

  ghost function FittedSlope(d: real -> real, h: seq<Sample>, now: real): real
    requires N(d, h, now) > 0.0 && Denominator(d, h, now) > 0.0
  {
    Slope(N(d, h, now), Sum(d, h, now, X), Sum(d, h, now, Y), Sum(d, h, now, XX), Sum(d, h, now, XY))
  }

  /** The intercept and slope computed before blending are the one line that minimises the decayed squared error. */
  lemma FitIsLeastSquares(d: real -> real, h: seq<Sample>, now: real, a: real, b: real)
    requires N(d, h, now) > 0.0 && Denominator(d, h, now) > 0.0
    requires (a, b) != (FittedIntercept(d, h, now), FittedSlope(d, h, now))
    ensures Loss(d, h, now, FittedIntercept(d, h, now), FittedSlope(d, h, now)) < Loss(d, h, now, a, b)
  {
    hide Sum, Slope, Intercept, Quadratic;
    LossIsQuadratic(d, h, now, FittedIntercept(d, h, now), FittedSlope(d, h, now));
    LossIsQuadratic(d, h, now, a, b);
    FitBeatsEveryLine(N(d, h, now), Sum(d, h, now, X), Sum(d, h, now, Y), Sum(d, h, now, XX), Sum(d, h, now, XY),
                      Sum(d, h, now, YY), a, b);
  }

  // ---------------------------------------------------------------- exact data

  ghost predicate OnLine(h: seq<Sample>, alpha: real, beta: real) {
    forall i :: 0 <= i < |h| ==> h[i].y == alpha + beta * h[i].x
  }

  /** What the running sums of samples on one line satisfy. */
  ghost predicate Linear(n: real, sx: real, sy: real, sxx: real, sxy: real, alpha: real, beta: real) {
    sy == alpha * n + beta * sx && sxy == alpha * sx + beta * sxx
  }

  lemma {:induction false} LinearSums(d: real -> real, h: seq<Sample>, now: real, alpha: real, beta: real)
    requires OnLine(h, alpha, beta)
    ensures Linear(N(d, h, now), Sum(d, h, now, X), Sum(d, h, now, Y), Sum(d, h, now, XX), Sum(d, h, now, XY),
                   alpha, beta)
  {
    hide Sum, Value, Weighted, Linear;
    if h == [] {
      EmptySum(d, now, One);
      EmptySum(d, now, X);
      EmptySum(d, now, Y);
      EmptySum(d, now, XX);
      EmptySum(d, now, XY);
      LinearFromNothing(alpha, beta);
    } else {
      var s, t := h[|h| - 1], h[..|h| - 1];
      LinearSums(d, t, now, alpha, beta);
      SumStep(d, h, now, One);
      SumStep(d, h, now, X);
      SumStep(d, h, now, Y);
      SumStep(d, h, now, XX);
      SumStep(d, h, now, XY);
      LinearOneMore(N(d, t, now), Sum(d, t, now, X), Sum(d, t, now, Y), Sum(d, t, now, XX), Sum(d, t, now, XY),
                    d(now - s.at), s.x, s.y, alpha, beta);
    }
  }

  lemma LinearFromNothing(alpha: real, beta: real)
    ensures Linear(0.0, 0.0, 0.0, 0.0, 0.0, alpha, beta)
  {}

  lemma LinearOneMore(n: real, sx: real, sy: real, sxx: real, sxy: real, w: real, x: real, y: real, alpha: real,
                      beta: real)
    requires Linear(n, sx, sy, sxx, sxy, alpha, beta) && y == alpha + beta * x
    ensures Linear(n + Weighted(w, Value(One, x, y)), sx + Weighted(w, Value(X, x, y)),
                   sy + Weighted(w, Value(Y, x, y)),
                   sxx + Weighted(w, Value(XX, x, y)), sxy + Weighted(w, Value(XY, x, y)), alpha, beta)
  {}

  /** On exact linear data the regression recovers the line. */
  lemma RecoversTheLine(n: real, sx: real, sy: real, sxx: real, sxy: real, alpha: real, beta: real)
    requires n * sxx - sx * sx != 0.0 && n != 0.0
    requires Linear(n, sx, sy, sxx, sxy, alpha, beta)
    ensures Slope(n, sx, sy, sxx, sxy) == beta && Intercept(n, sx, sy, sxx, sxy) == alpha
  {}

  /** A weighted average of what was fitted and what was assumed. */
  function Blend(n: real, fitted: real, w: real, assumed: real): real
    requires n + w != 0.0
  {
    (n * fitted + w * assumed) / (n + w)
  }

  /** Blending leaves exactly the prior's share w/(n+w) of the prior's error. */
  lemma BlendKeepsShareOfError(n: real, w: real, fitted: real, prior: real)
    requires n + w != 0.0
    ensures Blend(n, fitted, w, prior) - fitted == (w / (n + w)) * (prior - fitted)
  {}

  // ---------------------------------------------------------------- how many samples are remembered

  /** Every gap between neighbouring samples decays by at most `r`. */
  ghost predicate GapsDecayBy(d: real -> real, h: seq<Sample>, r: real) {
    forall i :: 0 < i < |h| ==> h[i - 1].at <= h[i].at && d(h[i].at - h[i - 1].at) <= r
  }

  /** The effective sample count just after the last record stays below 1/(1-r). */
  lemma {:induction false} SparseSamplesAreForgotten(d: real -> real, h: seq<Sample>, r: real)
    requires IsDecay(d) && h != [] && IsHistory(h, h[|h| - 1].at) && 0.0 < r < 1.0 && GapsDecayBy(d, h, r)
    ensures 0.0 < N(d, h, h[|h| - 1].at)
    ensures N(d, h, h[|h| - 1].at) * (1.0 - r) < 1.0
  {
    hide IsDecay, Sum, Value, Weighted, IsHistory, GapsDecayBy;
    var s, t := h[|h| - 1], h[..|h| - 1];
    assert h == t + [s];
    SumOneMore(d, t, s, One);
    CountsOne(s.x, s.y);
    if t == [] {
      EmptySum(d, s.at, One);
    } else {
      var p := t[|t| - 1];
      SparsePrefix(d, h, r);
      SparseSamplesAreForgotten(d, t, r);
      DecayScalesSum(d, t, p.at, s.at - p.at, One);
      DecayAt(d, s.at - p.at);
      assert p.at + (s.at - p.at) == s.at;
      BoundedStep(N(d, t, p.at), d(s.at - p.at), r, N(d, h, s.at));
    }
  }

  lemma CountsOne(x: real, y: real)
    ensures Value(One, x, y) == 1.0
  {}

  lemma SparsePrefix(d: real -> real, h: seq<Sample>, r: real)
    requires |h| > 1 && IsHistory(h, h[|h| - 1].at) && GapsDecayBy(d, h, r)
    ensures
      var t := h[..|h| - 1];
      && IsHistory(t, t[|t| - 1].at) && GapsDecayBy(d, t, r)
      && t[|t| - 1].at <= h[|h| - 1].at && d(h[|h| - 1].at - t[|t| - 1].at) <= r
  {}

  lemma BoundedStep(n: real, k: real, r: real, n': real)
    requires n > 0.0 && n * (1.0 - r) < 1.0 && 0.0 < k <= r < 1.0 && n' == Weighted(k, n) + 1.0
    ensures n' > 0.0 && n' * (1.0 - r) < 1.0
  {
    var m := n * (1.0 - r);
    ProductPositive(k, n);
    ProductPositive(k, 1.0 - m);
    assert k * (1.0 - m) == k - k * m;
    assert n' * (1.0 - r) == (k * n) * (1.0 - r) + (1.0 - r);
    assert (k * n) * (1.0 - r) == k * m;
  }
}
