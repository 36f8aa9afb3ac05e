/** How tight the budget is. A calibrated estimate can be one byte short of a
    peak its own fit was made from, so what covers every peak outright is the
    byte the host overhead adds. */
module BudgetTightness {
  import opened Wrappers
  import opened Numbers
  import opened Regression
  import opened Calibration

  /** The recorded peak of a kept sample against the whole estimate for it. */
  ghost predicate Covered(run: Run, s: Sample, metadata: Metadata, base: ComputeModel)
    requires PointOf(s).Some?
  {
    var fit := FitOf(run, KeyOf(run, s), PointsFor(run, run.samples, KeyOf(run, s)));
    Apply(fit, metadata, base).Ok? ==>
      var model := Apply(fit, metadata, base).value.model;
      SaturatingAdd(EngineEstimate(s.predicted.value.ExactWithin(s.peakKind, s.params), model, metadata,
                                   s.params.nUbatch), model.hostOverhead)
      >= s.peakRss.value
  }

  /** Every kept sample of every run is covered outright exactly when the base
      model charges at least one byte for the host. */
  lemma CoveredOutrightIffHostOverhead(hostOverhead: nat)
    ensures (forall run: Run, s: Sample, metadata: Metadata, base: ComputeModel ::
               s in run.samples && PointOf(s).Some? && s.peakRss.value <= U64_MAX && base.hostOverhead == hostOverhead
               ==> Covered(run, s, metadata, base))
        <==> hostOverhead >= 1
  {
    if hostOverhead >= 1 {
      forall run: Run, s, metadata, base: ComputeModel
        | s in run.samples && PointOf(s).Some? && s.peakRss.value <= U64_MAX && base.hostOverhead == hostOverhead
        ensures Covered(run, s, metadata, base)
      {
        hide EngineEstimate;
        if Apply(FitOf(run, KeyOf(run, s), PointsFor(run, run.samples, KeyOf(run, s))), metadata, base).Ok? {
          CoveredOutrightWithHostOverhead(run, s, metadata, base);
        }
      }
    } else {
      var run, s, metadata, base := OneByteUnderIsReachable();
    }
  }

  function Measured(nUbatch: nat, peak: nat): Sample {
    Sample(Params(0, 1, nUbatch, "", "", false), Some(peak), ResidentSet, Some(Prediction(0, 0)))
  }

  const MEASURED_RUN: Run :=
    Run(0, Machine(None, 1, 1, [], 0, "", ""), Engine("", None, None), "", "",
        [Measured(1, 110), Measured(2, 121), Measured(4, 140)])
  const MEASURED_KEY: BucketKey := BucketKey("", "", 0, 1, "", "")
  const MEASURED_POINTS: seq<ResidualPoint> :=
    [ResidualPoint(1, 110, 110), ResidualPoint(2, 121, 121), ResidualPoint(4, 140, 140)]
  const MEASURED_PEAKS: seq<Peak> := [Peak(1, 110), Peak(2, 121), Peak(4, 140)]

  lemma MeasuredPointsAreKept()
    ensures PointsFor(MEASURED_RUN, MEASURED_RUN.samples, MEASURED_KEY) == MEASURED_POINTS
  {
    var all := MEASURED_RUN.samples;
    assert all[..2] == [all[0], all[1]] && all[..2][..1] == [all[0]] && all[..2][..1][..0] == [];
    assert PointsFor(MEASURED_RUN, [all[0]], MEASURED_KEY) == [MEASURED_POINTS[0]];
    assert PointsFor(MEASURED_RUN, [all[0], all[1]], MEASURED_KEY) == [MEASURED_POINTS[0], MEASURED_POINTS[1]];
  }

  lemma ThreeInOrder(es: seq<Peak>, a: Peak, b: Peak, c: Peak)
    requires |es| == 3 && es[0].ubatch < es[1].ubatch < es[2].ubatch
    requires a in es && b in es && c in es && a.ubatch < b.ubatch < c.ubatch
    ensures es == [a, b, c]
  {
  }

  lemma MeasuredPeakMap()
    ensures PeakMap(MEASURED_POINTS) == map[1 := 110, 2 := 121, 4 := 140]
  {
    var ps := MEASURED_POINTS;
    assert ps[..2] == [ps[0], ps[1]] && ps[..2][..1] == [ps[0]] && ps[..2][..1][..0] == [];
    assert PeakMap([ps[0]]) == map[1 := 110];
    assert PeakMap([ps[0], ps[1]]) == map[1 := 110, 2 := 121];
  }

  lemma MeasuredPeaksAreEntries()
    ensures Entries(PeakMap(MEASURED_POINTS)) == MEASURED_PEAKS
  {
    MeasuredPeakMap();
    hide PeakMap;
    var peaks: map<nat, nat> := map[1 := 110, 2 := 121, 4 := 140];
    var es := Entries(peaks);
    hide Entries;
    assert |peaks| == 3;
    assert Peak(1, 110) in es && Peak(2, 121) in es && Peak(4, 140) in es;
    ThreeInOrder(es, Peak(1, 110), Peak(2, 121), Peak(4, 140));
  }

  lemma ThreeSums(a: Peak, b: Peak, c: Peak, mx: real, my: real, slope: real, intercept: real)
    ensures var es := [a, b, c];
            && SumX(es) == X(a) + X(b) + X(c)
            && SumY(es) == Y(a) + Y(b) + Y(c)
            && Variance(es, mx)
               == Times(X(a) - mx, X(a) - mx) + Times(X(b) - mx, X(b) - mx) + Times(X(c) - mx, X(c) - mx)
            && Covariance(es, mx, my)
               == Times(X(a) - mx, Y(a) - my) + Times(X(b) - mx, Y(b) - my) + Times(X(c) - mx, Y(c) - my)
            && TotalSum(es, my)
               == Times(Y(a) - my, Y(a) - my) + Times(Y(b) - my, Y(b) - my) + Times(Y(c) - my, Y(c) - my)
            && SquaredError(es, slope, intercept)
               == Times(Error(a, slope, intercept), Error(a, slope, intercept))
                  + Times(Error(b, slope, intercept), Error(b, slope, intercept))
                  + Times(Error(c, slope, intercept), Error(c, slope, intercept))
  {
    hide Times;
    hide Error;
    var es := [a, b, c];
    assert es[1..] == [b, c] && [b, c][1..] == [c] && [c][1..] == [];
    assert SumX([c]) == X(c) && SumY([c]) == Y(c);
    assert Variance([c], mx) == Times(X(c) - mx, X(c) - mx);
    assert Covariance([c], mx, my) == Times(X(c) - mx, Y(c) - my);
    assert TotalSum([c], my) == Times(Y(c) - my, Y(c) - my);
    assert SquaredError([c], slope, intercept) == Times(Error(c, slope, intercept), Error(c, slope, intercept));
  }

  lemma MeasuredLine()
    ensures LineThrough(MEASURED_PEAKS)
         == Some(LineFit(139.0 / 14.0, 100.5, 1.0 - (9.0 / 14.0) / (1382.0 / 3.0)))
  {
    var es := MEASURED_PEAKS;
    var mx, my, slope, intercept := 7.0 / 3.0, 371.0 / 3.0, 139.0 / 14.0, 100.5;
    ThreeSums(es[0], es[1], es[2], mx, my, slope, intercept);
    assert MeanX(es) == mx && MeanY(es) == my;
    assert Variance(es, mx) == 14.0 / 3.0;
    assert Covariance(es, mx, my) == 139.0 / 3.0;
    assert my - Times(slope, mx) == intercept;
    assert SquaredError(es, slope, intercept) == 9.0 / 14.0;
    assert TotalSum(es, my) == 1382.0 / 3.0;
  }

  lemma MeasuredShortfall()
    ensures Shortfall(MEASURED_POINTS, 139.0 / 14.0, 100.5) == 9.0 / 14.0
    ensures |UbatchValues(MEASURED_POINTS)| == 3
  {
    var ps, slope, intercept := MEASURED_POINTS, 139.0 / 14.0, 100.5;
    assert ps[..2] == [ps[0], ps[1]] && ps[..2][..1] == [ps[0]] && ps[..2][..1][..0] == [];
    assert Above(ps[0], slope, intercept) < 0.0 && Above(ps[1], slope, intercept) == 9.0 / 14.0
        && Above(ps[2], slope, intercept) < 0.0;
    assert Shortfall([ps[0]], slope, intercept) == 0.0;
    assert Shortfall([ps[0], ps[1]], slope, intercept) == 9.0 / 14.0;
    assert ps[0] in ps && ps[1] in ps && ps[2] in ps;
    assert UbatchValues(ps) == {1, 2, 4};
  }

  lemma MeasuredFit()
    ensures var fit := FitOf(MEASURED_RUN, MEASURED_KEY, PointsFor(MEASURED_RUN, MEASURED_RUN.samples, MEASURED_KEY));
            && fit.points == MEASURED_POINTS
            && fit.computePerUbatch == Some(139.0 / 14.0) && fit.overhead == Some(100.5)
            && fit.rSquared == Some(1.0 - (9.0 / 14.0) / (1382.0 / 3.0))
  {
    MeasuredPointsAreKept();
    MeasuredPeaksAreEntries();
    MeasuredLine();
    hide PointsFor;
    hide Entries;
    hide PeakMap;
    hide LineThrough;
    hide MaxResidual;
  }

  /** A run whose own accepted fit prices one of its samples a byte short. */
  lemma OneByteUnderIsReachable() returns (run: Run, s: Sample, metadata: Metadata, base: ComputeModel)
    ensures s in run.samples && PointOf(s).Some? && s.peakRss.value <= U64_MAX && base.hostOverhead == 0
    ensures !Covered(run, s, metadata, base)
  {
    run, s := MEASURED_RUN, Measured(2, 121);
    metadata := Metadata("", "", Some(0), Some(1), None);
    base := ComputeModel(1.0, 0.0, 0, 0, false);
    hide *;
    MeasuredSample(s);
    MeasuredFit();
    var fit := FitOf(run, MEASURED_KEY, PointsFor(run, run.samples, MEASURED_KEY));
    MeasuredFitIsAccepted(fit, metadata, base);
    MeasuredEstimate(fit, metadata, base);
    ShortOfPeak(run, s, metadata, base);
  }

  lemma MeasuredSample(s: Sample)
    requires s == Measured(2, 121)
    ensures s in MEASURED_RUN.samples && KeyOf(MEASURED_RUN, s) == MEASURED_KEY && PointOf(s).Some?
    ensures s.predicted == Some(Prediction(0, 0)) && s.peakRss == Some(121) && s.params.nUbatch == 2
  {
    assert MEASURED_RUN.samples[1] == s;
  }

  lemma ShortOfPeak(run: Run, s: Sample, metadata: Metadata, base: ComputeModel)
    requires PointOf(s).Some? && s.predicted == Some(Prediction(0, 0))
    requires var fit := FitOf(run, KeyOf(run, s), PointsFor(run, run.samples, KeyOf(run, s)));
             && Apply(fit, metadata, base).Ok?
             && var model := Apply(fit, metadata, base).value.model;
                model.hostOverhead == 0 && EngineEstimate(0, model, metadata, s.params.nUbatch) < s.peakRss.value
    ensures !Covered(run, s, metadata, base)
  {
    hide EngineEstimate;
    hide Apply;
    hide FitOf;
    hide PointsFor;
  }

  lemma MeasuredEstimate(fit: Fit, metadata: Metadata, base: ComputeModel)
    requires Apply(fit, metadata, base).Ok? && fit.computePerUbatch == Some(139.0 / 14.0)
    requires Apply(fit, metadata, base).value.model.engineBaseline == 101
    ensures EngineEstimate(0, Apply(fit, metadata, base).value.model, metadata, 2) == 120
  {
    hide Apply;
    hide Times;
    hide ComputeReal;
    CalibratedCompute(fit, metadata, base, 2);
    TimesTwo(139.0 / 14.0);
    assert (139.0 / 14.0 + 139.0 / 14.0).Floor == 19;
  }

  lemma TimesTwo(x: real)
    ensures Times(x, 2.0) == x + x
  {
  }

  lemma MeasuredFitIsAccepted(fit: Fit, metadata: Metadata, base: ComputeModel)
    requires fit.points == MEASURED_POINTS && fit.computePerUbatch == Some(139.0 / 14.0) && fit.overhead == Some(100.5)
    requires fit.rSquared == Some(1.0 - (9.0 / 14.0) / (1382.0 / 3.0))
    requires metadata.vocab == Some(0) && metadata.embedding == Some(1) && metadata.ffn.None?
    requires base.activation == 1.0 && base.scratch == 0.0
    ensures Apply(fit, metadata, base).Ok?
    ensures Apply(fit, metadata, base).value.model.engineBaseline == 101
    ensures Apply(fit, metadata, base).value.model.hostOverhead == base.hostOverhead
  {
    MeasuredShortfall();
    hide Shortfall;
    hide UbatchValues;
    assert ShapePerUbatch(base, 1, 0) == 4.0;
    hide ShapePerUbatch;
    assert RoundToBytes(100.5 + 9.0 / 14.0) == 101;
  }
}
