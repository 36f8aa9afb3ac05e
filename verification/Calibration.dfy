/** From a benchmark run to a memory budget: `fit_run` turns samples into one
    fit per bucket, `apply` spends a fit on the estimator's coefficients, and
    the estimator prices a load with them. Floating point is exact here; the
    conversions to whole bytes are not. */
module Calibration {
  import opened Wrappers
  import opened Numbers
  import opened Regression

  const MIN_UBATCH_VALUES: nat := 3
  const MIN_R_SQUARED: real := 0.95

  function SaturatingAdd(a: nat, b: nat): nat {
    if a + b > U64_MAX then U64_MAX else a + b
  }

  /** `value as u64`: towards zero, saturating. */
  function TruncateToU64(value: real): nat {
    if value <= 0.0 then 0 else if value >= U64_MAX as real then U64_MAX else value.Floor
  }

  /** `bytes`: to nearest, never below zero. */
  function RoundToBytes(value: real): nat {
    if value <= 0.0 then 0 else TruncateToU64((value + 0.5).Floor as real)
  }

  // ----------------------------------------------------------------- records

  datatype PeakKind = ResidentSet | Footprint

  datatype Params = Params(nCtx: nat, nParallel: nat, nUbatch: nat, cacheK: string, cacheV: string, locksWeights: bool)

  datatype Prediction = Prediction(weights: nat, kvCache: nat)
  {
    function Exact(): nat { SaturatingAdd(weights, kvCache) }

    /** The exact part a peak of this kind contains. */
    function ExactWithin(peak: PeakKind, params: Params): nat {
      if peak.ResidentSet? || params.locksWeights then Exact() else kvCache
    }
  }

  datatype Sample = Sample(params: Params, peakRss: Option<nat>, peakKind: PeakKind, predicted: Option<Prediction>)

  datatype Machine = Machine(cpuModel: Option<string>, physicalCores: nat, logicalCores: nat,
                             isaFeatures: seq<string>, totalMemory: nat, os: string, architecture: string)
  {
    predicate Matches(other: Machine) {
      && cpuModel == other.cpuModel
      && physicalCores == other.physicalCores
      && logicalCores == other.logicalCores
      && isaFeatures == other.isaFeatures
      && architecture == other.architecture
      && os == other.os
    }
  }

  datatype Engine = Engine(backend: string, build: Option<string>, ggmlVariant: Option<string>)
  {
    predicate Matches(other: Engine) {
      backend == other.backend && build == other.build && ggmlVariant == other.ggmlVariant
    }
  }

  datatype BucketKey = BucketKey(architecture: string, quantization: string, nCtx: nat, nParallel: nat,
                                 cacheK: string, cacheV: string)

  datatype Run = Run(atUnix: nat, machine: Machine, engine: Engine, architecture: string, quantization: string,
                     samples: seq<Sample>)

  datatype Fit = Fit(atUnix: nat, machine: Machine, engine: Engine, bucket: BucketKey,
                     computePerUbatch: Option<real>, overhead: Option<real>, maxResidual: nat,
                     rSquared: Option<real>, points: seq<ResidualPoint>)

  datatype Metadata = Metadata(architecture: string, quantization: string, vocab: Option<nat>,
                               embedding: Option<nat>, ffn: Option<nat>)

  datatype ComputeModel = ComputeModel(activation: real, scratch: real, engineBaseline: nat, hostOverhead: nat,
                                       measured: bool)

  datatype Calibrated = Calibrated(model: ComputeModel, fitAtUnix: nat, floorRaisedBy: nat)

  datatype Untrusted =
    | NoFit | TooFewUbatchValues(have: nat) | NoSlope | NotAffine(rSquared: real) | NoGoodnessOfFit
    | NegativeTerm | ShapeUnknown | SlopeBelowLogits

  // ----------------------------------------------------------------- fit_run

  function KeyOf(run: Run, s: Sample): BucketKey {
    BucketKey(run.architecture, run.quantization, s.params.nCtx, s.params.nParallel, s.params.cacheK, s.params.cacheV)
  }

  /** The observation a sample contributes, when it has both halves and its
      peak is not below the exact half. */
  function PointOf(s: Sample): Option<ResidualPoint> {
    match (s.predicted, s.peakRss)
    case (Some(p), Some(peak)) =>
      var exact := p.ExactWithin(s.peakKind, s.params);
      if peak < exact then None else Some(ResidualPoint(s.params.nUbatch, peak - exact, peak))
    case _ => None
  }

  /** What one bucket keeps, in the order the samples were taken. */
  function PointsFor(run: Run, samples: seq<Sample>, key: BucketKey): seq<ResidualPoint> {
    if samples == [] then []
    else
      var before := PointsFor(run, samples[..|samples| - 1], key);
      var s := samples[|samples| - 1];
      if PointOf(s).Some? && KeyOf(run, s) == key then before + [PointOf(s).value] else before
  }

  function MaxResidual(points: seq<ResidualPoint>): nat {
    if points == [] then 0 else Max(points[0].residual, MaxResidual(points[1..]))
  }

  function FitOf(run: Run, key: BucketKey, points: seq<ResidualPoint>): Fit {
    var line := Line(points);
    Fit(run.atUnix, run.machine, run.engine, key,
        if line.Some? then Some(line.value.slope) else None,
        if line.Some? then Some(line.value.intercept) else None,
        MaxResidual(points),
        if line.Some? then Some(line.value.rSquared) else None,
        points)
  }

  ghost predicate IsFitMap(run: Run, samples: seq<Sample>, buckets: map<BucketKey, seq<ResidualPoint>>) {
    forall key :: (key in buckets <==> PointsFor(run, samples, key) != [])
               && (key in buckets ==> buckets[key] == PointsFor(run, samples, key))
  }

  /** Fit every bucket a run covers. */
  method FitRun(run: Run) returns (fits: map<BucketKey, Fit>)
    ensures forall key :: key in fits <==> PointsFor(run, run.samples, key) != []
    ensures forall key :: key in fits ==> fits[key] == FitOf(run, key, PointsFor(run, run.samples, key))
  {
    hide Line;
    var buckets: map<BucketKey, seq<ResidualPoint>> := map[];
    for i := 0 to |run.samples|
      invariant IsFitMap(run, run.samples[..i], buckets)
    {
      var s := run.samples[i];
      assert run.samples[..i + 1][..i] == run.samples[..i];
      var point := PointOf(s);
      if point.Some? {
        var key := KeyOf(run, s);
        buckets := buckets[key := (if key in buckets then buckets[key] else []) + [point.value]];
      }
    }
    assert run.samples[..|run.samples|] == run.samples;
    fits := map key | key in buckets :: FitOf(run, key, buckets[key]);
  }

  /** A kept sample is an observation of its own bucket. */
  lemma {:induction false} KeptSampleIsAPoint(run: Run, samples: seq<Sample>, s: Sample)
    requires s in samples && PointOf(s).Some?
    ensures PointOf(s).value in PointsFor(run, samples, KeyOf(run, s))
  {
    var last := samples[|samples| - 1];
    if s == last {
    } else {
      assert samples == samples[..|samples| - 1] + [last];
      KeptSampleIsAPoint(run, samples[..|samples| - 1], s);
    }
  }

  /** A sample is kept exactly when it has a prediction and a peak and the peak is
      not below the exact part it contains: the cache, and the weights too unless
      it is a footprint of unlocked ones. What is kept is the rest of the peak. */
  lemma SampleKeptIff(s: Sample)
    ensures PointOf(s).Some? <==>
              && s.predicted.Some? && s.peakRss.Some?
              && var p := s.predicted.value;
                 s.peakRss.value >= if s.peakKind == Footprint && !s.params.locksWeights then p.kvCache
                                    else Min(p.weights + p.kvCache, 0xFFFF_FFFF_FFFF_FFFF)
    ensures PointOf(s).Some? ==>
              var p, point := s.predicted.value, PointOf(s).value;
              && point.ubatch == s.params.nUbatch
              && point.peakRss == s.peakRss.value
              && s.peakRss.value == point.residual
                   + (if s.peakKind == Footprint && !s.params.locksWeights then p.kvCache
                      else Min(p.weights + p.kvCache, 0xFFFF_FFFF_FFFF_FFFF))
  {
  }

  /** Two samples fall into one bucket exactly when their runs' models are labelled
      alike and their context, slots and cache types are the same. */
  lemma SameBucketIff(run: Run, s: Sample, other: Run, t: Sample)
    ensures KeyOf(run, s) == KeyOf(other, t) <==>
              && run.architecture == other.architecture && run.quantization == other.quantization
              && s.params.nCtx == t.params.nCtx && s.params.nParallel == t.params.nParallel
              && s.params.cacheK == t.params.cacheK && s.params.cacheV == t.params.cacheV
  {
  }

  /** A bucket gets the samples' points one by one, each exactly once, in order:
      one sample gives its point to its own bucket only, and a run taken in two
      parts gives the points of the one and then of the other. */
  lemma {:induction false} PointsSplit(run: Run, a: seq<Sample>, b: seq<Sample>, key: BucketKey)
    ensures PointsFor(run, a + b, key) == PointsFor(run, a, key) + PointsFor(run, b, key)
    ensures |a| == 1 ==>
              PointsFor(run, a, key)
              == if PointOf(a[0]).Some? && KeyOf(run, a[0]) == key then [PointOf(a[0]).value] else []
  {
    hide PointOf;
    hide KeyOf;
    if |a| == 1 {
      assert a[..0] == [];
    }
    if b == [] {
      assert a + b == a;
    } else {
      var init := b[..|b| - 1];
      assert (a + b)[..|a + b| - 1] == a + init;
      PointsSplit(run, a, init, key);
    }
  }

  // ------------------------------------------------------------------- apply

  function UbatchValues(points: seq<ResidualPoint>): set<nat> {
    set p | p in points :: p.ubatch
  }

  function Larger(a: real, b: real): real { if a < b then b else a }

  /** How far the line lies under its worst observation, or zero. */
  function Shortfall(points: seq<ResidualPoint>, slope: real, intercept: real): real {
    if points == [] then 0.0
    else Larger(Shortfall(points[..|points| - 1], slope, intercept), Above(points[|points| - 1], slope, intercept))
  }

  function Above(p: ResidualPoint, slope: real, intercept: real): real {
    p.residual as real - (Times(slope, p.ubatch as real) + intercept)
  }

  /** The estimator's coefficient-dependent bytes per unit of batch size. */
  function ShapePerUbatch(model: ComputeModel, embedding: nat, ffn: nat): real {
    Times(model.activation, embedding as real * 4.0) + Times(model.scratch, Max(embedding, ffn) as real * 4.0)
  }

  function FfnOf(metadata: Metadata): nat {
    if metadata.ffn.Some? then metadata.ffn.value else 0
  }

  function Apply(fit: Fit, metadata: Metadata, base: ComputeModel): Result<Calibrated, Untrusted> {
    var have := |UbatchValues(fit.points)|;
    if have < MIN_UBATCH_VALUES then Err(TooFewUbatchValues(have))
    else if fit.computePerUbatch.None? || fit.overhead.None? then Err(NoSlope)
    else if fit.rSquared.None? then Err(NoGoodnessOfFit)
    else if fit.rSquared.value < MIN_R_SQUARED then Err(NotAffine(fit.rSquared.value))
    else
      var slope, intercept := fit.computePerUbatch.value, fit.overhead.value;
      if slope < 0.0 || intercept < 0.0 then Err(NegativeTerm)
      else if metadata.vocab.None? || metadata.embedding.None? then Err(ShapeUnknown)
      else if metadata.embedding.value == 0 then Err(ShapeUnknown)
      else
        var shape := ShapePerUbatch(base, metadata.embedding.value, FfnOf(metadata));
        if shape <= 0.0 then Err(ShapeUnknown)
        else
          var fitted := slope - metadata.vocab.value as real * 4.0;
          if fitted < 0.0 then Err(SlopeBelowLogits)
          else
            var scale := fitted / shape;
            var shortfall := Shortfall(fit.points, slope, intercept);
            Ok(Calibrated(
                 ComputeModel(Times(base.activation, scale), Times(base.scratch, scale),
                              RoundToBytes(intercept + shortfall), base.hostOverhead, true),
                 fit.atUnix, RoundToBytes(shortfall)))
  }

  // --------------------------------------------------------------- estimator

  /** `Estimator::compute_bytes`, before its conversion to bytes. */
  function ComputeReal(model: ComputeModel, metadata: Metadata, nUbatch: nat): real {
    var ubatch := Max(nUbatch, 1) as real;
    var embedding := if metadata.embedding.Some? then metadata.embedding.value else 0;
    var vocab := if metadata.vocab.Some? then metadata.vocab.value else 0;
    vocab as real * ubatch * 4.0
    + model.activation * ubatch * (embedding as real) * 4.0
    + model.scratch * ubatch * (Max(embedding, FfnOf(metadata)) as real) * 4.0
  }

  function ComputeBytes(model: ComputeModel, metadata: Metadata, nUbatch: nat): nat {
    TruncateToU64(ComputeReal(model, metadata, nUbatch))
  }

  /** The estimate for the engine process: the exact half, the compute buffers
      and the engine's baseline. */
  function EngineEstimate(exact: nat, model: ComputeModel, metadata: Metadata, nUbatch: nat): nat {
    SaturatingAdd(SaturatingAdd(exact, ComputeBytes(model, metadata, nUbatch)), model.engineBaseline)
  }

  // ------------------------------------------------------ when apply accepts

  /** The bytes per unit of batch size the shipped coefficients would charge, read
      off the model's header; a missing feed-forward length counts as zero. */
  function ShippedShape(base: ComputeModel, embedding: nat, ffn: Option<nat>): real {
    base.activation * (embedding as real * 4.0)
    + base.scratch * ((if ffn.Some? && ffn.value > embedding then ffn.value else embedding) as real * 4.0)
  }

  /** A fit is accepted exactly when it rests on three batch sizes, has a slope, an
      intercept and a score of at least 0.95, neither term is negative, the header
      gives a vocabulary and a positive embedding, the shipped shape is positive,
      and the slope covers the logits. */
  lemma AcceptedIff(fit: Fit, metadata: Metadata, base: ComputeModel)
    ensures Apply(fit, metadata, base).Ok? <==>
              && |set p | p in fit.points :: p.ubatch| >= 3
              && fit.computePerUbatch.Some? && fit.overhead.Some? && fit.rSquared.Some?
              && fit.rSquared.value >= 0.95
              && fit.computePerUbatch.value >= 0.0 && fit.overhead.value >= 0.0
              && metadata.vocab.Some? && metadata.embedding.Some? && metadata.embedding.value > 0
              && ShippedShape(base, metadata.embedding.value, metadata.ffn) > 0.0
              && fit.computePerUbatch.value >= 4.0 * metadata.vocab.value as real
  {
    VerdictSays(fit, metadata, base);
  }

  /** What each answer means. The cases exclude one another, so each refusal is
      given exactly when its condition is the first to fail. */
  lemma VerdictSays(fit: Fit, metadata: Metadata, base: ComputeModel)
    ensures var have := |set p | p in fit.points :: p.ubatch|;
            var judged := have >= 3 && fit.computePerUbatch.Some? && fit.overhead.Some? && fit.rSquared.Some?;
            var trusted := judged && fit.rSquared.value >= 0.95;
            var usable := trusted && fit.computePerUbatch.value >= 0.0 && fit.overhead.value >= 0.0;
            var shaped := && metadata.vocab.Some? && metadata.embedding.Some? && metadata.embedding.value > 0
                          && ShippedShape(base, metadata.embedding.value, metadata.ffn) > 0.0;
            match Apply(fit, metadata, base)
            case Err(TooFewUbatchValues(n)) => n == have < 3
            case Err(NoSlope) => have >= 3 && (fit.computePerUbatch.None? || fit.overhead.None?)
            case Err(NoGoodnessOfFit) =>
              have >= 3 && fit.computePerUbatch.Some? && fit.overhead.Some? && fit.rSquared.None?
            case Err(NotAffine(r)) => judged && fit.rSquared.value == r < 0.95
            case Err(NegativeTerm) => trusted && !usable
            case Err(ShapeUnknown) => usable && !shaped
            case Err(SlopeBelowLogits) =>
              usable && shaped && fit.computePerUbatch.value < 4.0 * metadata.vocab.value as real
            case Err(NoFit) => false
            case Ok(_) => usable && shaped && fit.computePerUbatch.value >= 4.0 * metadata.vocab.value as real
  {
    hide Shortfall;
    hide RoundToBytes;
    assert UbatchValues(fit.points) == set p | p in fit.points :: p.ubatch;
    if metadata.vocab.Some? && metadata.embedding.Some? {
      assert ShapePerUbatch(base, metadata.embedding.value, FfnOf(metadata))
          == ShippedShape(base, metadata.embedding.value, metadata.ffn);
      hide ShapePerUbatch;
      hide ShippedShape;
    }
  }

  // ---------------------------------------------------- what apply guarantees

  lemma {:induction false} ShortfallIsLargest(points: seq<ResidualPoint>, slope: real, intercept: real)
    ensures Shortfall(points, slope, intercept) >= 0.0
    ensures forall p :: p in points ==> Above(p, slope, intercept) <= Shortfall(points, slope, intercept)
    ensures Shortfall(points, slope, intercept) > 0.0 ==>
              exists p :: p in points && Above(p, slope, intercept) == Shortfall(points, slope, intercept)
  {
    hide Above;
    if points == [] {
    } else {
      var init, last := points[..|points| - 1], points[|points| - 1];
      ShortfallIsLargest(init, slope, intercept);
      assert points == init + [last];
      assert forall p :: p in points <==> p in init || p == last;
    }
  }

  /** Raising the intercept by the shortfall covers every observation, and no
      smaller non-negative raise does. */
  lemma SmallestRaise(points: seq<ResidualPoint>, slope: real, intercept: real, raise: real)
    requires raise >= 0.0
    ensures (forall p :: p in points ==> p.residual as real <= Times(slope, p.ubatch as real) + (intercept + raise))
        <==> raise >= Shortfall(points, slope, intercept)
  {
    hide Times;
    ShortfallIsLargest(points, slope, intercept);
    if forall p :: p in points ==> p.residual as real <= Times(slope, p.ubatch as real) + (intercept + raise) {
      if Shortfall(points, slope, intercept) > 0.0 {
        var p :| p in points && Above(p, slope, intercept) == Shortfall(points, slope, intercept);
      }
    } else {
      var p :| p in points && !(p.residual as real <= Times(slope, p.ubatch as real) + (intercept + raise));
      assert Above(p, slope, intercept) <= Shortfall(points, slope, intercept);
    }
  }

  lemma ScaledShape(activation: real, scratch: real, e4: real, m4: real, fitted: real, shape: real)
    requires shape == Times(activation, e4) + Times(scratch, m4) && shape > 0.0
    ensures Times(Times(activation, fitted / shape), e4) + Times(Times(scratch, fitted / shape), m4) == fitted
  {
    var scale := fitted / shape;
    assert scale * shape == fitted;
    assert (activation * scale) * e4 == scale * (activation * e4);
    assert (scratch * scale) * m4 == scale * (scratch * m4);
  }

  lemma SameRatio(a: real, b: real, scale: real)
    ensures Times(Times(a, scale), b) == Times(Times(b, scale), a)
  {
    assert (a * scale) * b == (b * scale) * a;
  }

  /** The calibrated model's slope is the measured slope, the two compute
      coefficients keep the ratio they shipped with, and the host overhead is
      not touched. */
  lemma ApplySpendsTheSlope(fit: Fit, metadata: Metadata, base: ComputeModel)
    requires Apply(fit, metadata, base).Ok?
    ensures var model := Apply(fit, metadata, base).value.model;
            && fit.computePerUbatch.Some? && metadata.vocab.Some? && metadata.embedding.Some?
            && metadata.vocab.value as real * 4.0 + ShapePerUbatch(model, metadata.embedding.value, FfnOf(metadata))
               == fit.computePerUbatch.value
            && Times(model.activation, base.scratch) == Times(model.scratch, base.activation)
            && model.hostOverhead == base.hostOverhead
            && model.measured
  {
    hide Times;
    hide Shortfall;
    hide RoundToBytes;
    hide UbatchValues;
    var e4, m4 := metadata.embedding.value as real * 4.0, Max(metadata.embedding.value, FfnOf(metadata)) as real * 4.0;
    var shape := ShapePerUbatch(base, metadata.embedding.value, FfnOf(metadata));
    var fitted := fit.computePerUbatch.value - metadata.vocab.value as real * 4.0;
    ScaledShape(base.activation, base.scratch, e4, m4, fitted, shape);
    SameRatio(base.activation, base.scratch, fitted / shape);
  }

  lemma PerUbatchTerms(activation: real, scratch: real, vocab: real, embedding: real, widest: real, ubatch: real)
    ensures vocab * ubatch * 4.0 + activation * ubatch * embedding * 4.0 + scratch * ubatch * widest * 4.0
         == Times(vocab * 4.0 + (Times(activation, embedding * 4.0) + Times(scratch, widest * 4.0)), ubatch)
  {
    assert activation * ubatch * embedding * 4.0 == (activation * (embedding * 4.0)) * ubatch;
    assert scratch * ubatch * widest * 4.0 == (scratch * (widest * 4.0)) * ubatch;
    assert vocab * ubatch * 4.0 == (vocab * 4.0) * ubatch;
  }

  /** The estimator, given the calibrated model, charges the measured slope. */
  lemma CalibratedCompute(fit: Fit, metadata: Metadata, base: ComputeModel, nUbatch: nat)
    requires Apply(fit, metadata, base).Ok?
    ensures fit.computePerUbatch.Some?
    ensures ComputeReal(Apply(fit, metadata, base).value.model, metadata, nUbatch)
         == Times(fit.computePerUbatch.value, Max(nUbatch, 1) as real)
  {
    hide Apply;
    ApplySpendsTheSlope(fit, metadata, base);
    var model := Apply(fit, metadata, base).value.model;
    PerUbatchTerms(model.activation, model.scratch, metadata.vocab.value as real, metadata.embedding.value as real,
                   Max(metadata.embedding.value, FfnOf(metadata)) as real, Max(nUbatch, 1) as real);
    hide Times;
  }

  /** What the trust rules leave: a non-negative slope and intercept, at least
      three batch sizes, and the raised baseline. */
  lemma Trusted(fit: Fit, metadata: Metadata, base: ComputeModel)
    requires Apply(fit, metadata, base).Ok?
    ensures |UbatchValues(fit.points)| >= MIN_UBATCH_VALUES
    ensures fit.rSquared.Some? && fit.rSquared.value >= MIN_R_SQUARED
    ensures fit.computePerUbatch.Some? && fit.computePerUbatch.value >= 0.0
    ensures fit.overhead.Some? && fit.overhead.value >= 0.0
    ensures Apply(fit, metadata, base).value.model.engineBaseline
         == RoundToBytes(fit.overhead.value + Shortfall(fit.points, fit.computePerUbatch.value, fit.overhead.value))
    ensures Apply(fit, metadata, base).value.floorRaisedBy
         == RoundToBytes(Shortfall(fit.points, fit.computePerUbatch.value, fit.overhead.value))
    ensures Apply(fit, metadata, base).value.fitAtUnix == fit.atUnix
  {
  }

  /** What a caller is told about the floor: it was raised exactly when some
      observation lies at least half a byte above the measured line. */
  lemma FloorRaisedIff(fit: Fit, metadata: Metadata, base: ComputeModel)
    requires Apply(fit, metadata, base).Ok?
    ensures fit.computePerUbatch.Some? && fit.overhead.Some?
    ensures Apply(fit, metadata, base).value.floorRaisedBy > 0
       <==> exists p :: p in fit.points && Above(p, fit.computePerUbatch.value, fit.overhead.value) >= 0.5
  {
    hide Apply;
    hide Above;
    hide UbatchValues;
    Trusted(fit, metadata, base);
    ShortfallIsLargest(fit.points, fit.computePerUbatch.value, fit.overhead.value);
    hide Shortfall;
    RoundsUpIff(Shortfall(fit.points, fit.computePerUbatch.value, fit.overhead.value));
    hide RoundToBytes;
  }

  lemma RoundsUpIff(x: real)
    ensures RoundToBytes(x) > 0 <==> x >= 0.5
  {
  }

  lemma {:induction false} MaxResidualIsLargest(points: seq<ResidualPoint>)
    ensures forall p :: p in points ==> p.residual <= MaxResidual(points)
    ensures points != [] ==> exists p :: p in points && p.residual == MaxResidual(points)
  {
    if points == [] {
    } else {
      MaxResidualIsLargest(points[1..]);
      assert points == [points[0]] + points[1..];
      assert forall p :: p in points <==> p == points[0] || p in points[1..];
      if points[0].residual < MaxResidual(points[1..]) {
        var p :| p in points[1..] && p.residual == MaxResidual(points[1..]);
        assert p in points && p.residual == MaxResidual(points);
      } else {
        assert points[0] in points && points[0].residual == MaxResidual(points);
      }
    }
  }

  /** The fits of a run are only ever refused for what was measured: with three
      batch sizes there is always a slope, an intercept and a score, so those
      two refusals are for files written by something else. */
  lemma RunFitsAreNeverSlopeless(run: Run, key: BucketKey, metadata: Metadata, base: ComputeModel)
    ensures var r := Apply(FitOf(run, key, PointsFor(run, run.samples, key)), metadata, base);
            && r != Err(NoSlope) && r != Err(NoGoodnessOfFit)
            && (r.Err? && r.error.NotAffine? ==> 0.0 <= r.error.rSquared < MIN_R_SQUARED)
  {
    hide Apply;
    hide PointsFor;
    var points := PointsFor(run, run.samples, key);
    UbatchValuesAreKeys(points);
    LineExists(points);
    hide LineThrough;
    if Line(points).Some? {
      GoodnessOfFit(points);
    }
    RefusedForCause(FitOf(run, key, points), metadata, base);
  }

  lemma RefusedForCause(fit: Fit, metadata: Metadata, base: ComputeModel)
    requires |UbatchValues(fit.points)| >= MIN_UBATCH_VALUES ==>
               fit.computePerUbatch.Some? && fit.overhead.Some? && fit.rSquared.Some? && fit.rSquared.value >= 0.0
    ensures var r := Apply(fit, metadata, base);
            && r != Err(NoSlope) && r != Err(NoGoodnessOfFit)
            && (r.Err? && r.error.NotAffine? ==> 0.0 <= r.error.rSquared < MIN_R_SQUARED)
  {
    hide UbatchValues;
    hide Shortfall;
    hide ShapePerUbatch;
    hide RoundToBytes;
    hide Times;
  }

  // ------------------------------------------------- when the floor is raised

  function SumOfErrors(es: seq<Peak>, slope: real, intercept: real): real {
    if es == [] then 0.0 else Error(es[0], slope, intercept) + SumOfErrors(es[1..], slope, intercept)
  }

  lemma {:induction false} ErrorsFromDeviations(es: seq<Peak>, a: real, b: real, mx: real, my: real)
    requires b == my - Times(a, mx)
    ensures SumOfErrors(es, a, b) == DeviationY(es, my) - Times(a, DeviationX(es, mx))
  {
    if es == [] {
      ZeroProduct(a);
    } else {
      hide Times;
      ErrorsFromDeviations(es[1..], a, b, mx, my);
      ErrorFromCentre(es[0], a, b, mx, my, 0.0);
      Distribute(a, X(es[0]) - mx, DeviationX(es[1..], mx));
    }
  }

  lemma {:induction false} NonPositiveErrorsVanish(es: seq<Peak>, a: real, b: real)
    requires forall p :: p in es ==> Error(p, a, b) <= 0.0
    ensures SumOfErrors(es, a, b) <= 0.0
    ensures SumOfErrors(es, a, b) == 0.0 ==> OnLine(es, a, b)
  {
    if es == [] {
    } else {
      hide Error;
      assert es == [es[0]] + es[1..];
      assert es[0] in es && forall p :: p in es[1..] ==> p in es;
      assert forall p :: p in es ==> p == es[0] || p in es[1..];
      NonPositiveErrorsVanish(es[1..], a, b);
    }
  }

  /** The errors of a least-squares line cancel out. */
  lemma ErrorsCancel(points: seq<ResidualPoint>)
    requires Line(points).Some?
    ensures SumOfErrors(Entries(PeakMap(points)), Line(points).value.slope, Line(points).value.intercept) == 0.0
  {
    hide Times;
    hide Line;
    NormalEquation(points);
    var es, l := Entries(PeakMap(points)), Line(points).value;
    MeansCentre(es);
    ErrorsFromDeviations(es, l.slope, l.intercept, MeanX(es), MeanY(es));
    ZeroProduct(l.slope);
  }

  lemma PeakIsAPoint(points: seq<ResidualPoint>, e: Peak)
    requires e in Entries(PeakMap(points))
    ensures exists p :: p in points && p.ubatch == e.ubatch && p.residual == e.residual
  {
    PeakMapIsLargestResidual(points, e.ubatch);
    assert Reaches(points, e.ubatch, e.residual);
  }

  lemma PointIsUnderItsPeak(points: seq<ResidualPoint>, p: ResidualPoint) returns (e: Peak)
    requires p in points
    ensures e in Entries(PeakMap(points)) && e.ubatch == p.ubatch && p.residual <= e.residual
  {
    PeakMapIsLargestResidual(points, p.ubatch);
    assert AtMost(points, p.ubatch, PeakMap(points)[p.ubatch]);
    e := Peak(p.ubatch, PeakMap(points)[p.ubatch]);
  }

  /** No floor is needed exactly when every batch size's peak lies on the line:
      least squares leaves a point above the line in every other case. */
  lemma NoShortfallIffExact(points: seq<ResidualPoint>)
    requires Line(points).Some?
    ensures var l := Line(points).value;
            Shortfall(points, l.slope, l.intercept) == 0.0 <==> l.rSquared == 1.0
  {
    hide Line;
    hide Times;
    GoodnessOfFit(points);
    var es, l := Entries(PeakMap(points)), Line(points).value;
    hide Entries;
    hide PeakMap;
    ShortfallIsLargest(points, l.slope, l.intercept);
    hide Shortfall;
    if Shortfall(points, l.slope, l.intercept) == 0.0 {
      forall e | e in es ensures Error(e, l.slope, l.intercept) <= 0.0 {
        PeakIsAPoint(points, e);
        var p :| p in points && p.ubatch == e.ubatch && p.residual == e.residual;
        assert Above(p, l.slope, l.intercept) <= 0.0;
      }
      NonPositiveErrorsVanish(es, l.slope, l.intercept);
      ErrorsCancel(points);
    }
    if OnLine(es, l.slope, l.intercept) {
      forall p | p in points ensures Above(p, l.slope, l.intercept) <= 0.0 {
        var e := PointIsUnderItsPeak(points, p);
        assert Error(e, l.slope, l.intercept) == 0.0;
      }
    }
  }

  // ----------------------------------------------------- covering every peak

  lemma Monotone(slope: real, a: nat, b: nat)
    requires slope >= 0.0 && a <= b
    ensures Times(slope, a as real) <= Times(slope, b as real)
  {
    assert slope * (b as real) - slope * (a as real) == slope * ((b - a) as real);
  }

  lemma Conversions(x: real, y: real)
    ensures TruncateToU64(x) == U64_MAX || TruncateToU64(x) as real > x - 1.0
    ensures RoundToBytes(y) == U64_MAX || RoundToBytes(y) as real >= y - 0.5
  {
  }

  /** Real-valued coverage: the calibrated compute plus the rounded baseline is
      within half a byte of every observation the fit rests on. */
  lemma CoversToHalfAByte(fit: Fit, metadata: Metadata, base: ComputeModel, p: ResidualPoint)
    requires Apply(fit, metadata, base).Ok? && p in fit.points
    ensures var model := Apply(fit, metadata, base).value.model;
            || model.engineBaseline == U64_MAX
            || ComputeReal(model, metadata, p.ubatch) + model.engineBaseline as real >= p.residual as real - 0.5
  {
    hide Times;
    hide Apply;
    hide ComputeReal;
    hide RoundToBytes;
    hide UbatchValues;
    Trusted(fit, metadata, base);
    CalibratedCompute(fit, metadata, base, p.ubatch);
    var slope, intercept := fit.computePerUbatch.value, fit.overhead.value;
    Monotone(slope, p.ubatch, Max(p.ubatch, 1));
    ShortfallIsLargest(fit.points, slope, intercept);
    assert Above(p, slope, intercept) <= Shortfall(fit.points, slope, intercept);
    Conversions(0.0, intercept + Shortfall(fit.points, slope, intercept));
  }

  /** In whole bytes, the estimate is never more than one byte under a peak:
      half a byte of rounding in the baseline and less than one byte truncated
      from the compute term. */
  lemma NeverUnderByMoreThanAByte(fit: Fit, metadata: Metadata, base: ComputeModel, p: ResidualPoint, exact: nat)
    requires Apply(fit, metadata, base).Ok? && p in fit.points
    requires exact + p.residual <= U64_MAX
    ensures EngineEstimate(exact, Apply(fit, metadata, base).value.model, metadata, p.ubatch) + 1 >= exact + p.residual
  {
    hide Apply;
    hide ComputeReal;
    hide RoundToBytes;
    var model := Apply(fit, metadata, base).value.model;
    CoversToHalfAByte(fit, metadata, base, p);
    Conversions(ComputeReal(model, metadata, p.ubatch), 0.0);
    hide TruncateToU64;
    var compute := ComputeBytes(model, metadata, p.ubatch);
    if compute != U64_MAX && model.engineBaseline != U64_MAX {
      assert (compute + model.engineBaseline) as real > p.residual as real - 1.5;
      assert compute + model.engineBaseline >= p.residual - 1;
    }
  }

  lemma ConversionsAbove(x: real, y: real)
    requires x >= 0.0 && y >= 0.0
    ensures TruncateToU64(x) as real <= x
    ensures RoundToBytes(y) as real <= y + 0.5
  {
  }

  /** The estimate is the exact part plus the measured line raised by its
      shortfall, in whole bytes: never more than half a byte above it nor, unless
      saturated, a byte and a half below. */
  lemma EstimateIsTheRaisedLine(fit: Fit, metadata: Metadata, base: ComputeModel, exact: nat, nUbatch: nat)
    requires Apply(fit, metadata, base).Ok? && exact <= U64_MAX
    ensures fit.computePerUbatch.Some? && fit.overhead.Some?
    ensures var slope, intercept := fit.computePerUbatch.value, fit.overhead.value;
            var raised := Times(slope, Max(nUbatch, 1) as real) + (intercept + Shortfall(fit.points, slope, intercept));
            var estimate := EngineEstimate(exact, Apply(fit, metadata, base).value.model, metadata, nUbatch);
            && estimate as real <= exact as real + raised + 0.5
            && (estimate == U64_MAX || estimate as real > exact as real + raised - 1.5)
  {
    hide Apply;
    hide ComputeReal;
    hide UbatchValues;
    Trusted(fit, metadata, base);
    CalibratedCompute(fit, metadata, base, nUbatch);
    var slope, intercept := fit.computePerUbatch.value, fit.overhead.value;
    Monotone(slope, 0, Max(nUbatch, 1));
    ZeroProduct(slope);
    ShortfallIsLargest(fit.points, slope, intercept);
    hide Times;
    hide Shortfall;
    var compute := Times(slope, Max(nUbatch, 1) as real);
    var baseline := intercept + Shortfall(fit.points, slope, intercept);
    Conversions(compute, baseline);
    ConversionsAbove(compute, baseline);
    hide TruncateToU64;
    hide RoundToBytes;
  }

  /** End to end: for every run, every sample the fit kept, and every accepted
      fit of that sample's bucket, the estimate for the sample's own parameters
      is at least its recorded peak less one byte. */
  lemma NeverUnderBudget(run: Run, s: Sample, metadata: Metadata, base: ComputeModel)
    requires s in run.samples && PointOf(s).Some? && s.peakRss.value <= U64_MAX
    requires Apply(FitOf(run, KeyOf(run, s), PointsFor(run, run.samples, KeyOf(run, s))), metadata, base).Ok?
    ensures var fit := FitOf(run, KeyOf(run, s), PointsFor(run, run.samples, KeyOf(run, s)));
            EngineEstimate(s.predicted.value.ExactWithin(s.peakKind, s.params),
                           Apply(fit, metadata, base).value.model, metadata, s.params.nUbatch) + 1
            >= s.peakRss.value
  {
    hide Apply;
    hide Line;
    hide PointsFor;
    hide EngineEstimate;
    var fit := FitOf(run, KeyOf(run, s), PointsFor(run, run.samples, KeyOf(run, s)));
    KeptSampleIsAPoint(run, run.samples, s);
    NeverUnderByMoreThanAByte(fit, metadata, base, PointOf(s).value,
                              s.predicted.value.ExactWithin(s.peakKind, s.params));
  }

  /** The whole estimate adds the host's own overhead, so with any overhead at
      all the recorded peak is covered outright. */
  lemma CoveredOutrightWithHostOverhead(run: Run, s: Sample, metadata: Metadata, base: ComputeModel)
    requires s in run.samples && PointOf(s).Some? && s.peakRss.value <= U64_MAX
    requires base.hostOverhead >= 1
    requires Apply(FitOf(run, KeyOf(run, s), PointsFor(run, run.samples, KeyOf(run, s))), metadata, base).Ok?
    ensures var fit := FitOf(run, KeyOf(run, s), PointsFor(run, run.samples, KeyOf(run, s)));
            var model := Apply(fit, metadata, base).value.model;
            SaturatingAdd(EngineEstimate(s.predicted.value.ExactWithin(s.peakKind, s.params), model, metadata,
                                         s.params.nUbatch), model.hostOverhead)
            >= s.peakRss.value
  {
    hide EngineEstimate;
    var fit := FitOf(run, KeyOf(run, s), PointsFor(run, run.samples, KeyOf(run, s)));
    NeverUnderBudget(run, s, metadata, base);
    ApplySpendsTheSlope(fit, metadata, base);
    hide Apply;
  }

  /** A fit made by `fit_run` and accepted rests on a least-squares line over at
      least three batch sizes that explains 95% of their spread. */
  lemma AcceptedFitIsLeastSquares(run: Run, key: BucketKey, metadata: Metadata, base: ComputeModel, a: real, b: real)
    requires Apply(FitOf(run, key, PointsFor(run, run.samples, key)), metadata, base).Ok?
    ensures var fit := FitOf(run, key, PointsFor(run, run.samples, key));
            var es := Entries(PeakMap(fit.points));
            && |es| >= 3
            && fit.computePerUbatch.Some? && fit.overhead.Some?
            && SquaredError(es, fit.computePerUbatch.value, fit.overhead.value) <= SquaredError(es, a, b)
            && 20.0 * SquaredError(es, fit.computePerUbatch.value, fit.overhead.value) <= TotalSum(es, MeanY(es))
  {
    hide PointsFor;
    hide LineThrough;
    hide SquaredError;
    var fit := FitOf(run, key, PointsFor(run, run.samples, key));
    Trusted(fit, metadata, base);
    hide Apply;
    UbatchValuesAreKeys(fit.points);
    Optimal(fit.points, a, b);
    hide TotalSum;
    ExplainsNineteenInTwenty(fit.points);
  }

  lemma ExplainsNineteenInTwenty(points: seq<ResidualPoint>)
    requires Line(points).Some? && Line(points).value.rSquared >= 0.95
    ensures var es, l := Entries(PeakMap(points)), Line(points).value;
            es != [] && 20.0 * SquaredError(es, l.slope, l.intercept) <= TotalSum(es, MeanY(es))
  {
    hide *;
    ScoreIsTheShareExplained(points);
    var es := Entries(PeakMap(points));
    TotalSumNonNegative(es, MeanY(es));
    AtLeastNineteenInTwenty(Line(points).value.rSquared, TotalSum(es, MeanY(es)));
  }

  lemma AtLeastNineteenInTwenty(score: real, total: real)
    requires score >= 0.95 && total >= 0.0
    ensures 20.0 * Times(1.0 - score, total) <= total
  {
    assert (1.0 - score) * total <= 0.05 * total;
  }

  lemma UbatchValuesAreKeys(points: seq<ResidualPoint>)
    ensures UbatchValues(points) == PeakMap(points).Keys
    ensures |UbatchValues(points)| == |Entries(PeakMap(points))|
  {
    forall u: nat ensures u in UbatchValues(points) <==> u in PeakMap(points) {
      PeakMapIsLargestResidual(points, u);
    }
    assert UbatchValues(points) == PeakMap(points).Keys;
  }

  // ------------------------------------------------------- the calibration file

  /** What a fit is filed under: the machine without its memory size, the
      engine and the bucket. */
  datatype FitKey = FitKey(machine: Machine, engine: Engine, bucket: BucketKey)

  function KeyFor(machine: Machine, engine: Engine, bucket: BucketKey): FitKey {
    FitKey(machine.(totalMemory := 0), engine, bucket)
  }

  function KeyOfFit(fit: Fit): FitKey { KeyFor(fit.machine, fit.engine, fit.bucket) }

  predicate Describes(fit: Fit, machine: Machine, engine: Engine, bucket: BucketKey) {
    fit.machine.Matches(machine) && fit.engine.Matches(engine) && fit.bucket == bucket
  }

  /** The comparison `find` and `insert` make is equality of keys. */
  lemma DescribesIsSameKey(fit: Fit, machine: Machine, engine: Engine, bucket: BucketKey)
    ensures Describes(fit, machine, engine, bucket) <==> KeyOfFit(fit) == KeyFor(machine, engine, bucket)
  {
  }

  /** A fit describes a machine, an engine and a bucket exactly when all of these
      agree; the memory size of the machine is not among them. */
  lemma DescribesIff(fit: Fit, machine: Machine, engine: Engine, bucket: BucketKey)
    ensures Describes(fit, machine, engine, bucket) <==>
              && fit.machine.cpuModel == machine.cpuModel
              && fit.machine.physicalCores == machine.physicalCores
              && fit.machine.logicalCores == machine.logicalCores
              && fit.machine.isaFeatures == machine.isaFeatures
              && fit.machine.architecture == machine.architecture
              && fit.machine.os == machine.os
              && fit.engine.backend == engine.backend
              && fit.engine.build == engine.build
              && fit.engine.ggmlVariant == engine.ggmlVariant
              && fit.bucket == bucket
  {
  }

  /** `Vec::retain`: the fits not under `key`, in order. */
  function Without(fits: seq<Fit>, fit: Fit): seq<Fit> {
    if fits == [] then []
    else (if Describes(fits[0], fit.machine, fit.engine, fit.bucket) then [] else [fits[0]]) + Without(fits[1..], fit)
  }

  function Find(fits: seq<Fit>, machine: Machine, engine: Engine, bucket: BucketKey): Option<Fit> {
    if fits == [] then None
    else if Describes(fits[0], machine, engine, bucket) then Some(fits[0])
    else Find(fits[1..], machine, engine, bucket)
  }

  function Inserted(fits: seq<Fit>, fit: Fit): seq<Fit> { Without(fits, fit) + [fit] }

  ghost predicate OnePerKey(fits: seq<Fit>) {
    forall i, j :: 0 <= i < j < |fits| ==> KeyOfFit(fits[i]) != KeyOfFit(fits[j])
  }

  class CalibrationFile {
    var fits: seq<Fit>

    constructor ()
      ensures fits == []
    {
      fits := [];
    }

    method Insert(fit: Fit)
      modifies this
      ensures fits == Inserted(old(fits), fit)
      ensures old(OnePerKey(fits)) ==> OnePerKey(fits)
    {
      hide Describes;
      hide Without;
      hide OnePerKey;
      InsertKeepsOnePerKey(fits, fit);
      var kept: seq<Fit> := [];
      assert fits[0..] == fits;
      for i := 0 to |fits|
        invariant fits == old(fits)
        invariant kept + Without(fits[i..], fit) == Without(fits, fit)
      {
        WithoutSteps(fits, i, fit);
        if !Describes(fits[i], fit.machine, fit.engine, fit.bucket) {
          assert kept + ([fits[i]] + Without(fits[i + 1..], fit)) == (kept + [fits[i]]) + Without(fits[i + 1..], fit);
          kept := kept + [fits[i]];
        }
      }
      NothingLeft(fits, fit);
      assert kept == Without(fits, fit);
      fits := kept + [fit];
    }
  }

  lemma NothingLeft(fits: seq<Fit>, fit: Fit)
    ensures Without(fits[|fits|..], fit) == []
  {
  }

  lemma WithoutSteps(fits: seq<Fit>, i: nat, fit: Fit)
    requires i < |fits|
    ensures Without(fits[i..], fit)
         == if Describes(fits[i], fit.machine, fit.engine, fit.bucket) then Without(fits[i + 1..], fit)
            else [fits[i]] + Without(fits[i + 1..], fit)
  {
    hide Describes;
    assert fits[i..][1..] == fits[i + 1..];
  }

  lemma {:induction false} WithoutHolds(fits: seq<Fit>, fit: Fit)
    ensures forall f :: f in Without(fits, fit) <==> f in fits && KeyOfFit(f) != KeyOfFit(fit)
  {
    if fits == [] {
    } else {
      WithoutHolds(fits[1..], fit);
      DescribesIsSameKey(fits[0], fit.machine, fit.engine, fit.bucket);
      assert KeyFor(fit.machine, fit.engine, fit.bucket) == KeyOfFit(fit);
      hide KeyOfFit;
      hide Describes;
      assert fits == [fits[0]] + fits[1..];
      assert forall f :: f in fits <==> f == fits[0] || f in fits[1..];
    }
  }

  lemma OnePerKeySplits(first: Fit, rest: seq<Fit>)
    ensures OnePerKey([first] + rest) <==> OnePerKey(rest) && forall f :: f in rest ==> KeyOfFit(f) != KeyOfFit(first)
  {
    hide KeyOfFit;
    var all := [first] + rest;
    assert forall i :: 0 <= i < |rest| ==> all[i + 1] == rest[i];
    if OnePerKey(all) {
      forall f | f in rest ensures KeyOfFit(f) != KeyOfFit(first) {
        var i :| 0 <= i < |rest| && rest[i] == f;
        assert all[0] == first && all[i + 1] == f;
      }
      forall i, j | 0 <= i < j < |rest| ensures KeyOfFit(rest[i]) != KeyOfFit(rest[j]) {
        assert all[i + 1] == rest[i] && all[j + 1] == rest[j];
      }
    }
    if OnePerKey(rest) && forall f :: f in rest ==> KeyOfFit(f) != KeyOfFit(first) {
      forall i, j | 0 <= i < j < |all| ensures KeyOfFit(all[i]) != KeyOfFit(all[j]) {
        assert all[j] == rest[j - 1] && rest[j - 1] in rest;
        assert i > 0 ==> all[i] == rest[i - 1];
      }
    }
  }

  lemma {:induction false} WithoutKeepsOnePerKey(fits: seq<Fit>, fit: Fit)
    requires OnePerKey(fits)
    ensures OnePerKey(Without(fits, fit))
  {
    if fits == [] {
    } else {
      hide KeyOfFit;
      hide Describes;
      hide OnePerKey;
      var rest, kept := fits[1..], Without(fits[1..], fit);
      assert fits == [fits[0]] + rest;
      OnePerKeySplits(fits[0], rest);
      WithoutKeepsOnePerKey(rest, fit);
      WithoutHolds(rest, fit);
      OnePerKeySplits(fits[0], kept);
      assert fits[0..] == fits;
      WithoutSteps(fits, 0, fit);
      hide Without;
    }
  }

  /** Retaining keeps exactly the fits under other keys, and keeps one per key. */
  lemma WithoutIsFilter(fits: seq<Fit>, fit: Fit)
    ensures forall f :: f in Without(fits, fit) <==> f in fits && KeyOfFit(f) != KeyOfFit(fit)
    ensures OnePerKey(fits) ==> OnePerKey(Without(fits, fit))
  {
    hide *;
    WithoutHolds(fits, fit);
    if OnePerKey(fits) {
      WithoutKeepsOnePerKey(fits, fit);
    }
  }

  /** Retaining keeps the order, and the new fit goes last. */
  lemma {:induction false} InsertKeepsOrder(a: seq<Fit>, b: seq<Fit>, fit: Fit)
    ensures Without(a + b, fit) == Without(a, fit) + Without(b, fit)
    ensures |Inserted(a, fit)| > 0 && Inserted(a, fit)[|Inserted(a, fit)| - 1] == fit
  {
    hide Describes;
    if a == [] {
      assert a + b == b;
    } else {
      assert (a + b)[1..] == a[1..] + b;
      InsertKeepsOrder(a[1..], b, fit);
    }
  }

  lemma InsertKeepsOnePerKey(fits: seq<Fit>, fit: Fit)
    ensures OnePerKey(fits) ==> OnePerKey(Inserted(fits, fit))
  {
    WithoutIsFilter(fits, fit);
    var kept := Without(fits, fit);
    if OnePerKey(fits) {
      forall i | 0 <= i < |kept| ensures KeyOfFit(kept[i]) != KeyOfFit(fit) {
        assert kept[i] in kept;
      }
    }
  }

  lemma {:induction false} FindSplits(a: seq<Fit>, b: seq<Fit>, machine: Machine, engine: Engine, bucket: BucketKey)
    ensures Find(a + b, machine, engine, bucket)
         == if Find(a, machine, engine, bucket).Some? then Find(a, machine, engine, bucket)
            else Find(b, machine, engine, bucket)
  {
    if a == [] {
      assert a + b == b;
    } else {
      assert (a + b)[1..] == a[1..] + b;
      FindSplits(a[1..], b, machine, engine, bucket);
    }
  }

  lemma {:induction false} FindWithout(fits: seq<Fit>, fit: Fit, machine: Machine, engine: Engine, bucket: BucketKey)
    ensures Find(Without(fits, fit), machine, engine, bucket)
         == if KeyOfFit(fit) == KeyFor(machine, engine, bucket) then None else Find(fits, machine, engine, bucket)
  {
    if fits == [] {
    } else {
      FindWithout(fits[1..], fit, machine, engine, bucket);
      DescribesIsSameKey(fits[0], fit.machine, fit.engine, fit.bucket);
      DescribesIsSameKey(fits[0], machine, engine, bucket);
      var head: seq<Fit> := if Describes(fits[0], fit.machine, fit.engine, fit.bucket) then [] else [fits[0]];
      FindSplits(head, Without(fits[1..], fit), machine, engine, bucket);
    }
  }

  /** One insertion is one map update: the inserted key finds the new fit and
      every other key finds what it found before. */
  lemma InsertIsUpdate(fits: seq<Fit>, fit: Fit, machine: Machine, engine: Engine, bucket: BucketKey)
    ensures Find(Inserted(fits, fit), machine, engine, bucket)
         == if KeyOfFit(fit) == KeyFor(machine, engine, bucket) then Some(fit) else Find(fits, machine, engine, bucket)
  {
    FindSplits(Without(fits, fit), [fit], machine, engine, bucket);
    FindWithout(fits, fit, machine, engine, bucket);
    DescribesIsSameKey(fit, machine, engine, bucket);
  }

  function InsertAll(fits: seq<Fit>): seq<Fit> {
    if fits == [] then [] else Inserted(InsertAll(fits[..|fits| - 1]), fits[|fits| - 1])
  }

  /** The map a history of insertions denotes. */
  function LastPerKey(fits: seq<Fit>): map<FitKey, Fit> {
    if fits == [] then map[] else LastPerKey(fits[..|fits| - 1])[KeyOfFit(fits[|fits| - 1]) := fits[|fits| - 1]]
  }

  /** After any history of insertions the list holds at most one fit per key
      and `find` returns the last one inserted under it. */
  lemma {:induction false} CalibrationRefinesMap(history: seq<Fit>, machine: Machine, engine: Engine, bucket: BucketKey)
    ensures OnePerKey(InsertAll(history))
    ensures var key := KeyFor(machine, engine, bucket);
            Find(InsertAll(history), machine, engine, bucket)
            == if key in LastPerKey(history) then Some(LastPerKey(history)[key]) else None
  {
    if history == [] {
    } else {
      var init, last := history[..|history| - 1], history[|history| - 1];
      CalibrationRefinesMap(init, machine, engine, bucket);
      InsertKeepsOnePerKey(InsertAll(init), last);
      InsertIsUpdate(InsertAll(init), last, machine, engine, bucket);
    }
  }

  // ------------------------------------------------------ looked up at a load

  function BucketFor(metadata: Metadata, params: Params): BucketKey {
    BucketKey(metadata.architecture, metadata.quantization, params.nCtx, params.nParallel, params.cacheK, params.cacheV)
  }

  function ComputeModelFor(fits: seq<Fit>, machine: Machine, engine: Engine, metadata: Metadata, params: Params,
                           base: ComputeModel): Result<Calibrated, Untrusted> {
    match Find(fits, machine, engine, BucketFor(metadata, params))
    case None => Err(NoFit)
    case Some(fit) => Apply(fit, metadata, base)
  }

  /** The bucket a load asks for is the one a sample was filed under exactly when
      the header's labels are the run's and the parameters agree. */
  lemma LoadBucketIff(metadata: Metadata, params: Params, run: Run, s: Sample)
    ensures BucketFor(metadata, params) == KeyOf(run, s) <==>
              && metadata.architecture == run.architecture && metadata.quantization == run.quantization
              && params.nCtx == s.params.nCtx && params.nParallel == s.params.nParallel
              && params.cacheK == s.params.cacheK && params.cacheV == s.params.cacheV
  {
  }

  /** A load is told there is no fit exactly when none was ever inserted for its
      hardware, engine and bucket. */
  lemma NoFitIff(history: seq<Fit>, machine: Machine, engine: Engine, metadata: Metadata, params: Params,
                 base: ComputeModel)
    ensures ComputeModelFor(InsertAll(history), machine, engine, metadata, params, base) == Err(NoFit)
       <==> KeyFor(machine, engine, BucketFor(metadata, params)) !in LastPerKey(history)
  {
    CalibrationRefinesMap(history, machine, engine, BucketFor(metadata, params));
    var found := Find(InsertAll(history), machine, engine, BucketFor(metadata, params));
    if found.Some? {
      VerdictSays(found.value, metadata, base);
    }
    hide Apply;
    hide InsertAll;
    hide LastPerKey;
  }

  /** A run's fit, filed last, is what a load of its model on its hardware reads,
      whatever else the file holds and however much memory the machine has. */
  lemma LoadReadsTheRunsFit(history: seq<Fit>, run: Run, s: Sample, memory: nat, metadata: Metadata,
                            base: ComputeModel)
    requires metadata.architecture == run.architecture && metadata.quantization == run.quantization
    ensures var key := KeyOf(run, s);
            var fit := FitOf(run, key, PointsFor(run, run.samples, key));
            && fit.atUnix == run.atUnix && fit.points == PointsFor(run, run.samples, key)
            && fit.maxResidual == MaxResidual(fit.points)
            && ComputeModelFor(InsertAll(history + [fit]), run.machine.(totalMemory := memory), run.engine, metadata,
                               s.params, base)
               == Apply(fit, metadata, base)
  {
    hide Apply;
    hide PointsFor;
    hide Line;
    hide MaxResidual;
    var key := KeyOf(run, s);
    var fit := FitOf(run, key, PointsFor(run, run.samples, key));
    var machine := run.machine.(totalMemory := memory);
    assert (history + [fit])[..|history|] == history;
    InsertIsUpdate(InsertAll(history), fit, machine, run.engine, key);
  }

  /** The whole pipeline. A calibration file with any history, whose latest fit
      for a run's bucket is that run's, read back on matching hardware (whatever
      its memory size): if the load is calibrated at all, every sample the run
      kept at these parameters is covered to within one byte. */
  lemma CalibratedLoadCoversItsRun(history: seq<Fit>, run: Run, s: Sample, machine: Machine, metadata: Metadata,
                                   base: ComputeModel)
    requires s in run.samples && PointOf(s).Some? && s.peakRss.value <= U64_MAX
    requires machine.Matches(run.machine)
    requires metadata.architecture == run.architecture && metadata.quantization == run.quantization
    requires var key := KeyFor(run.machine, run.engine, KeyOf(run, s));
             key in LastPerKey(history)
             && LastPerKey(history)[key] == FitOf(run, KeyOf(run, s), PointsFor(run, run.samples, KeyOf(run, s)))
    requires ComputeModelFor(InsertAll(history), machine, run.engine, metadata, s.params, base).Ok?
    ensures var calibrated := ComputeModelFor(InsertAll(history), machine, run.engine, metadata, s.params, base).value;
            EngineEstimate(s.predicted.value.ExactWithin(s.peakKind, s.params), calibrated.model, metadata,
                           s.params.nUbatch) + 1
            >= s.peakRss.value
  {
    hide Apply;
    hide FitOf;
    hide EngineEstimate;
    CalibrationRefinesMap(history, machine, run.engine, KeyOf(run, s));
    NeverUnderBudget(run, s, metadata, base);
  }
}
