/** internal/transport/costmodel.go: CostModel, Record, refit, Predict. */
module CostModels {
  import opened Regression

  datatype CostPrior = CostPrior(setupMS: real, msPerByte: real, weight: real, halfLifeSec: real)

  datatype Line = Line(setupMS: real, msPerByte: real)

  /** Too few effective samples, or no spread of sizes to recover a slope from. */
  ghost predicate UsesPrior(d: real -> real, h: seq<Sample>, now: real) {
    N(d, h, now) < 2.0 || Denominator(d, h, now) <= 0.0
  }

  /** The coefficients computed from running sums. */
  function Fit(n: real, sx: real, sy: real, sxx: real, sxy: real, prior: CostPrior): Line
    requires prior.weight >= 0.0
  {
    if n < 2.0 || n * sxx - sx * sx <= 0.0 then Line(prior.setupMS, prior.msPerByte)
    else Line(Blend(n, Intercept(n, sx, sy, sxx, sxy), prior.weight, prior.setupMS),
              Blend(n, Slope(n, sx, sy, sxx, sxy), prior.weight, prior.msPerByte))
  }

  /** The coefficients a model with this history predicts from. */
  ghost function Coefficients(d: real -> real, h: seq<Sample>, now: real, prior: CostPrior): Line
    requires prior.weight >= 0.0
  {
    Fit(N(d, h, now), Sum(d, h, now, X), Sum(d, h, now, Y), Sum(d, h, now, XX), Sum(d, h, now, XY), prior)
  }

  /** The prior is used exactly when fewer than two samples remain effective or all recorded sizes agree. */
  lemma PriorExactlyWhenUninformed(d: real -> real, h: seq<Sample>, now: real)
    requires IsDecay(d) && IsHistory(h, now)
    ensures UsesPrior(d, h, now) <==> N(d, h, now) < 2.0 || SameSize(h)
  {
    hide IsDecay, IsHistory, SameSize, Sum;
    DenominatorIsSpread(d, h, now);
  }

  /** Samples a half-life or more apart never move the model off its prior. */
  lemma SparseSamplesKeepThePrior(d: real -> real, h: seq<Sample>, prior: CostPrior)
    requires IsDecay(d) && d(1.0) == 0.5 && prior.weight >= 0.0
    requires h != [] && IsHistory(h, h[|h| - 1].at) && forall i :: 0 < i < |h| ==> h[i].at - h[i - 1].at >= 1.0
    ensures Coefficients(d, h, h[|h| - 1].at, prior) == Line(prior.setupMS, prior.msPerByte)
  {
    HalfLifeGaps(d, h);
    hide *;
    SparseSamplesAreForgotten(d, h, 0.5);
    FewSamplesKeepThePrior(d, h, h[|h| - 1].at, prior);
  }

  lemma FewSamplesKeepThePrior(d: real -> real, h: seq<Sample>, now: real, prior: CostPrior)
    requires prior.weight >= 0.0 && N(d, h, now) < 2.0
    ensures Coefficients(d, h, now, prior) == Line(prior.setupMS, prior.msPerByte)
  {
    hide Sum, N, Slope, Intercept, Blend;
  }

  lemma HalfLifeGaps(d: real -> real, h: seq<Sample>)
    requires IsDecay(d) && d(1.0) == 0.5 && h != [] && IsHistory(h, h[|h| - 1].at)
    requires forall i :: 0 < i < |h| ==> h[i].at - h[i - 1].at >= 1.0
    ensures GapsDecayBy(d, h, 0.5)
  {
    hide IsDecay, IsHistory;
    forall i | 0 < i < |h| ensures d(h[i].at - h[i - 1].at) <= 0.5 {
      AtLeastAHalfLife(d, h[i].at - h[i - 1].at);
    }
  }

  lemma AtLeastAHalfLife(d: real -> real, t: real)
    requires IsDecay(d) && d(1.0) == 0.5 && t >= 1.0
    ensures d(t) <= 0.5
  {
    DecayAdds(d, 1.0, t - 1.0);
    assert 1.0 + (t - 1.0) == t;
    DecayAt(d, t - 1.0);
  }

  /** On exact linear data each coefficient keeps exactly the share w/(n+w) of the prior's error. */
  lemma ExactDataLeavesShareOfPriorError(d: real -> real, h: seq<Sample>, now: real, prior: CostPrior, alpha: real,
                                         beta: real)
    requires prior.weight >= 0.0 && !UsesPrior(d, h, now) && OnLine(h, alpha, beta)
    ensures
      var n, w, line := N(d, h, now), prior.weight, Coefficients(d, h, now, prior);
      && line.setupMS - alpha == (w / (n + w)) * (prior.setupMS - alpha)
      && line.msPerByte - beta == (w / (n + w)) * (prior.msPerByte - beta)
  {
    hide Sum, Slope, Intercept, OnLine, Linear, Blend;
    LinearSums(d, h, now, alpha, beta);
    RecoversTheLine(N(d, h, now), Sum(d, h, now, X), Sum(d, h, now, Y), Sum(d, h, now, XX), Sum(d, h, now, XY),
                    alpha, beta);
    BlendKeepsShareOfError(N(d, h, now), prior.weight, alpha, prior.setupMS);
    BlendKeepsShareOfError(N(d, h, now), prior.weight, beta, prior.msPerByte);
  }

  // ---------------------------------------------------------------- the running model

  /** So many milliseconds in whole nanoseconds, none below zero. */
  predicate RoundsDown(ns: int, ms: real) {
    if ms < 0.0 then ns == 0 else ns as real <= ms * 1000000.0 < (ns + 1) as real
  }

  /** CostModel. Times are seconds, durations nanoseconds; the history and the clock are only for the proofs. */
  class CostModel {
    const prior: CostPrior
    const exp2: real -> real  // u => math.Exp(-u * math.Ln2)
    var weightedN: real
    var weightedSumX: real
    var weightedSumY: real
    var weightedSumXX: real
    var weightedSumXY: real
    var lastUpdate: real
    var fitted: Line
    ghost var history: seq<Sample>
    ghost var clock: real

    /** The running sums are the decayed sums over everything recorded. */
    ghost predicate SumsUpToDate()
      reads this
    {
      && IsDecay(exp2) && prior.weight >= 0.0
      && clock >= 0.0 && IsHistory(history, clock)
      && weightedN == Sum(exp2, history, clock, One)
      && weightedSumX == Sum(exp2, history, clock, X)
      && weightedSumY == Sum(exp2, history, clock, Y)
      && weightedSumXX == Sum(exp2, history, clock, XX)
      && weightedSumXY == Sum(exp2, history, clock, XY)
    }

    ghost predicate Valid()
      reads this
    {
      && SumsUpToDate()
      && fitted == Coefficients(exp2, history, clock, prior)
      && (history != [] ==> history[|history| - 1].at == clock)
    }

    constructor (prior: CostPrior, exp2: real -> real, now: real)
      requires IsDecay(exp2) && prior.weight >= 0.0
      ensures Valid() && history == [] && clock == 0.0 && lastUpdate == now && this.prior == prior && this.exp2 == exp2
      ensures fitted == Line(prior.setupMS, prior.msPerByte)
    {
      this.prior, this.exp2 := prior, exp2;
      weightedN, weightedSumX, weightedSumY, weightedSumXX, weightedSumXY := 0.0, 0.0, 0.0, 0.0, 0.0;
      lastUpdate := now;
      fitted := Line(prior.setupMS, prior.msPerByte);
      history, clock := [], 0.0;
    }

    /** The predicted duration: the fitted line, negative coefficients replaced by the prior's, cut off at zero. */
    function Predict(size: int): (ns: int)
      reads this
      ensures ns >= 0
      ensures fitted.setupMS >= 0.0 && fitted.msPerByte >= 0.0 ==>
        RoundsDown(ns, fitted.setupMS + size as real * fitted.msPerByte)
      ensures fitted.setupMS < 0.0 <= fitted.msPerByte ==>
        RoundsDown(ns, prior.setupMS + size as real * fitted.msPerByte)
      ensures fitted.msPerByte < 0.0 <= fitted.setupMS ==>
        RoundsDown(ns, fitted.setupMS + size as real * prior.msPerByte)
      ensures (fitted.setupMS < 0.0 && fitted.msPerByte < 0.0) || fitted == Line(prior.setupMS, prior.msPerByte) ==>
        RoundsDown(ns, prior.setupMS + size as real * prior.msPerByte)
    {
      var setup := if fitted.setupMS < 0.0 then prior.setupMS else fitted.setupMS;
      var perByte := if fitted.msPerByte < 0.0 then prior.msPerByte else fitted.msPerByte;
      var ms := setup + size as real * perByte;
      ((if ms < 0.0 then 0.0 else ms) * 1000000.0).Floor
    }

    /** Half-lives the model's clock advances by: none backwards, and none without a half-life. */
    function Elapsed(now: real): (gap: real)
      reads this
      ensures gap >= 0.0
    {
      var dt := now - lastUpdate;
      if dt > 0.0 && prior.halfLifeSec > 0.0 then
        NonNegativeRatio(dt, prior.halfLifeSec);
        dt / prior.halfLifeSec
      else 0.0
    }

    method Record(sizeBytes: int, elapsedNs: int, now: real)
      requires Valid()
      modifies this
      ensures Valid()
      ensures sizeBytes < 0 || elapsedNs < 0 ==>
        history == old(history) && clock == old(clock) && lastUpdate == old(lastUpdate) && fitted == old(fitted)
      ensures sizeBytes >= 0 && elapsedNs >= 0 ==>
        && clock == old(clock) + old(Elapsed(now)) && lastUpdate == now
        && history == old(history) + [Sample(sizeBytes as real, elapsedNs as real / 1000000.0, clock)]
    {
      if sizeBytes < 0 || elapsedNs < 0 {
        return;
      }
      var x, y := sizeBytes as real, elapsedNs as real / 1000000.0;
      Age(now);
      Add(x, y);
      Refit();
    }

    /** Scales every running sum by the decay since the last update. */
    method Age(now: real)
      requires SumsUpToDate()
      modifies this
      ensures SumsUpToDate() && history == old(history) && fitted == old(fitted)
      ensures clock == old(clock) + old(Elapsed(now)) && lastUpdate == now
    {
      hide IsDecay, IsHistory, Sum, Weighted, Value;
      var dt := now - lastUpdate;
      ghost var gap := Elapsed(now);
      SumsDecay(exp2, history, clock, gap);
      if dt > 0.0 && prior.halfLifeSec > 0.0 {
        var decay := exp2(dt / prior.halfLifeSec);
        weightedN := Weighted(decay, weightedN);
        weightedSumX := Weighted(decay, weightedSumX);
        weightedSumY := Weighted(decay, weightedSumY);
        weightedSumXX := Weighted(decay, weightedSumXX);
        weightedSumXY := Weighted(decay, weightedSumXY);
      }
      lastUpdate, clock := now, clock + gap;
    }

    method Add(x: real, y: real)
      requires SumsUpToDate()
      modifies this
      ensures SumsUpToDate() && clock == old(clock) && lastUpdate == old(lastUpdate)
      ensures history == old(history) + [Sample(x, y, clock)]
    {
      hide IsDecay, IsHistory, Sum, Value;
      ghost var s := Sample(x, y, clock);
      SumsGrow(exp2, history, s);
      weightedN := weightedN + 1.0;
      weightedSumX := weightedSumX + x;
      weightedSumY := weightedSumY + y;
      weightedSumXX := weightedSumXX + x * x;
      weightedSumXY := weightedSumXY + x * y;
      history := history + [s];
    }

    /** refit: least squares from the running sums, blended with the prior. */
    method Refit()
      requires SumsUpToDate()
      modifies this`fitted
      ensures SumsUpToDate() && fitted == Coefficients(exp2, history, clock, prior)
    {
      hide IsDecay, IsHistory, Sum, Fit;
      FitIsBlend(weightedN, weightedSumX, weightedSumY, weightedSumXX, weightedSumXY, prior);
      if weightedN < 2.0 {
        fitted := Line(prior.setupMS, prior.msPerByte);
        return;
      }
      var denom := weightedN * weightedSumXX - weightedSumX * weightedSumX;
      if denom <= 0.0 {
        fitted := Line(prior.setupMS, prior.msPerByte);
        return;
      }
      var realSlope := (weightedN * weightedSumXY - weightedSumX * weightedSumY) / denom;
      var realIntercept := (weightedSumY - realSlope * weightedSumX) / weightedN;
      var total := weightedN + prior.weight;
      fitted := Line((weightedN * realIntercept + prior.weight * prior.setupMS) / total,
                     (weightedN * realSlope + prior.weight * prior.msPerByte) / total);
    }
  }

  lemma FitIsBlend(n: real, sx: real, sy: real, sxx: real, sxy: real, prior: CostPrior)
    requires prior.weight >= 0.0
    ensures n < 2.0 || n * sxx - sx * sx <= 0.0 ==>
            Fit(n, sx, sy, sxx, sxy, prior) == Line(prior.setupMS, prior.msPerByte)
    ensures n >= 2.0 && n * sxx - sx * sx > 0.0 ==>
      var b := (n * sxy - sx * sy) / (n * sxx - sx * sx);
      var a := (sy - b * sx) / n;
      Fit(n, sx, sy, sxx, sxy, prior) ==
        Line((n * a + prior.weight * prior.setupMS) / (n + prior.weight),
             (n * b + prior.weight * prior.msPerByte) / (n + prior.weight))
  {}

  lemma NonNegativeRatio(a: real, b: real)
    requires a > 0.0 && b > 0.0
    ensures a / b > 0.0
  {}

  lemma SumsDecay(d: real -> real, h: seq<Sample>, clock: real, gap: real)
    requires IsDecay(d) && IsHistory(h, clock) && gap >= 0.0
    ensures IsHistory(h, clock + gap)
    ensures forall f: Statistic :: Sum(d, h, clock + gap, f) == Weighted(d(gap), Sum(d, h, clock, f))
    ensures gap == 0.0 ==> forall f: Statistic :: Sum(d, h, clock + gap, f) == Sum(d, h, clock, f)
  {
    hide IsDecay, Sum, Weighted;
    forall f: Statistic ensures Sum(d, h, clock + gap, f) == Weighted(d(gap), Sum(d, h, clock, f)) {
      DecayScalesSum(d, h, clock, gap, f);
    }
    if gap == 0.0 { assert clock + gap == clock; }
  }

  lemma SumsGrow(d: real -> real, h: seq<Sample>, s: Sample)
    requires IsDecay(d) && IsHistory(h, s.at) && s.at >= 0.0
    ensures
      var h', now := h + [s], s.at;
      && IsHistory(h', now)
      && Sum(d, h', now, One) == Sum(d, h, now, One) + 1.0
      && Sum(d, h', now, X) == Sum(d, h, now, X) + s.x
      && Sum(d, h', now, Y) == Sum(d, h, now, Y) + s.y
      && Sum(d, h', now, XX) == Sum(d, h, now, XX) + s.x * s.x
      && Sum(d, h', now, XY) == Sum(d, h, now, XY) + s.x * s.y
  {
    hide IsDecay, Sum;
    SumOneMore(d, h, s, One);
    SumOneMore(d, h, s, X);
    SumOneMore(d, h, s, Y);
    SumOneMore(d, h, s, XX);
    SumOneMore(d, h, s, XY);
  }
}
