/** `regress`: the least-squares line through one point per batch size, in exact
    arithmetic. Each batch size contributes its largest residual. */
module Regression {
  import opened Wrappers
  import opened Numbers

  /** One observation kept in a bucket. */
  datatype ResidualPoint = ResidualPoint(ubatch: nat, residual: nat, peakRss: nat)

  /** One entry of the ordered map from batch size to its largest residual. */
  datatype Peak = Peak(ubatch: nat, residual: nat)

  datatype LineFit = LineFit(slope: real, intercept: real, rSquared: real)

  // ------------------------------------------------------------- the peaks

  /** What the map holds for a batch size, with the `or_default` zero. */
  function Held(peaks: map<nat, nat>, ubatch: nat): nat {
    if ubatch in peaks then peaks[ubatch] else 0
  }

  function PeakMap(points: seq<ResidualPoint>): map<nat, nat> {
    if points == [] then map[]
    else
      var before := PeakMap(points[..|points| - 1]);
      var last := points[|points| - 1];
      before[last.ubatch := Max(Held(before, last.ubatch), last.residual)]
  }

  ghost predicate AtMost(points: seq<ResidualPoint>, ubatch: nat, bound: nat) {
    forall p :: p in points && p.ubatch == ubatch ==> p.residual <= bound
  }

  ghost predicate Reaches(points: seq<ResidualPoint>, ubatch: nat, bound: nat) {
    exists p :: p in points && p.ubatch == ubatch && p.residual == bound
  }

  /** The map is exactly "largest residual per batch size measured". */
  lemma {:induction false} PeakMapIsLargestResidual(points: seq<ResidualPoint>, ubatch: nat)
    ensures ubatch in PeakMap(points) <==> exists p :: p in points && p.ubatch == ubatch
    ensures ubatch in PeakMap(points) ==>
              AtMost(points, ubatch, PeakMap(points)[ubatch]) && Reaches(points, ubatch, PeakMap(points)[ubatch])
  {
    if points == [] {
    } else {
      var init, last := points[..|points| - 1], points[|points| - 1];
      PeakMapIsLargestResidual(init, ubatch);
      assert points == init + [last];
      assert forall p :: p in points <==> p in init || p == last;
      if ubatch == last.ubatch {
        assert last in points;
        if ubatch in PeakMap(init) && last.residual <= PeakMap(init)[ubatch] {
          var p :| p in init && p.ubatch == ubatch && p.residual == PeakMap(init)[ubatch];
          assert p in points;
        }
      } else if ubatch in PeakMap(init) {
        var p :| p in init && p.ubatch == ubatch && p.residual == PeakMap(init)[ubatch];
        assert p in points;
      }
    }
  }

  /** Every observation of one list is matched or exceeded, at its own batch
      size, by one of the other. */
  ghost predicate Dominated(points: seq<ResidualPoint>, others: seq<ResidualPoint>) {
    forall p :: p in points ==> exists q :: q in others && q.ubatch == p.ubatch && p.residual <= q.residual
  }

  lemma DominatedKeepsPeak(points: seq<ResidualPoint>, others: seq<ResidualPoint>, ubatch: nat)
    requires Dominated(points, others) && ubatch in PeakMap(points)
    ensures ubatch in PeakMap(others) && PeakMap(points)[ubatch] <= PeakMap(others)[ubatch]
  {
    PeakMapIsLargestResidual(points, ubatch);
    var p :| p in points && p.ubatch == ubatch && p.residual == PeakMap(points)[ubatch];
    var q :| q in others && q.ubatch == p.ubatch && p.residual <= q.residual;
    PeakMapIsLargestResidual(others, ubatch);
  }

  lemma SamePeaksDominate(points: seq<ResidualPoint>, others: seq<ResidualPoint>)
    requires PeakMap(points) == PeakMap(others)
    ensures Dominated(points, others)
  {
    forall p | p in points
      ensures exists q :: q in others && q.ubatch == p.ubatch && p.residual <= q.residual
    {
      PeakMapIsLargestResidual(points, p.ubatch);
      PeakMapIsLargestResidual(others, p.ubatch);
      assert Reaches(others, p.ubatch, PeakMap(others)[p.ubatch]);
    }
  }

  /** Order, repeats and dominated samples change nothing, and nothing else is
      ignored: the map is the same exactly when each list dominates the other. */
  lemma SameEnvelopeSamePeaks(points: seq<ResidualPoint>, others: seq<ResidualPoint>)
    ensures Dominated(points, others) && Dominated(others, points) <==> PeakMap(points) == PeakMap(others)
  {
    hide Dominated;
    hide PeakMap;
    if Dominated(points, others) && Dominated(others, points) {
      SamePeaks(points, others);
    }
    if PeakMap(points) == PeakMap(others) {
      SamePeaksDominate(points, others);
      SamePeaksDominate(others, points);
    }
  }

  lemma SamePeaks(points: seq<ResidualPoint>, others: seq<ResidualPoint>)
    requires Dominated(points, others) && Dominated(others, points)
    ensures PeakMap(points) == PeakMap(others)
  {
    hide PeakMap;
    hide Dominated;
    var a, b := PeakMap(points), PeakMap(others);
    forall u ensures u in a ==> u in b && a[u] <= b[u] {
      if u in a {
        DominatedKeepsPeak(points, others, u);
      }
    }
    forall u ensures u in b ==> u in a && b[u] <= a[u] {
      if u in b {
        DominatedKeepsPeak(others, points, u);
      }
    }
    assert forall u :: u in a ==> a[u] == b[u];
    assert a == b;
  }

  // ------------------------------------------------- the ordered map's walk

  lemma {:induction false} LeastKeyExists(keys: set<nat>) returns (k: nat)
    requires keys != {}
    ensures k in keys && forall j :: j in keys ==> k <= j
  {
    var x :| x in keys;
    var rest := keys - {x};
    assert forall j :: j in keys ==> j == x || j in rest;
    k := x;
    if rest == {} {
    } else {
      var m := LeastKeyExists(rest);
      k := if m < x then m else x;
    }
  }

  function LeastKey(keys: set<nat>): (k: nat)
    requires keys != {}
    ensures k in keys && forall j :: j in keys ==> k <= j
  {
    assert exists k :: k in keys && forall j :: j in keys ==> k <= j by {
      var k := LeastKeyExists(keys);
    }
    var k :| k in keys && forall j :: j in keys ==> k <= j;
    k
  }

  /** The entries in key order, as a `BTreeMap` yields them. */
  function Entries(peaks: map<nat, nat>): (entries: seq<Peak>)
    ensures |entries| == |peaks|
    ensures forall e :: e in entries <==> e.ubatch in peaks && peaks[e.ubatch] == e.residual
    ensures forall i, j :: 0 <= i < j < |entries| ==> entries[i].ubatch < entries[j].ubatch
    decreases |peaks|
  {
    if |peaks| == 0 then []
    else
      var k := LeastKey(peaks.Keys);
      var rest := peaks - {k};
      assert peaks.Keys == rest.Keys + {k};
      [Peak(k, peaks[k])] + Entries(rest)
  }

  // ------------------------------------------------------------------ sums

  /** Multiplication under a name, so that sums of products can be rearranged
      without the solver opening every product. */
  function Times(a: real, b: real): real { a * b }

  function X(p: Peak): real { p.ubatch as real }
  function Y(p: Peak): real { p.residual as real }

  function SumX(es: seq<Peak>): real { if es == [] then 0.0 else X(es[0]) + SumX(es[1..]) }
  function SumY(es: seq<Peak>): real { if es == [] then 0.0 else Y(es[0]) + SumY(es[1..]) }

  /** Centred second moments about `(mx, my)`. */
  function Variance(es: seq<Peak>, mx: real): real {
    if es == [] then 0.0 else Times(X(es[0]) - mx, X(es[0]) - mx) + Variance(es[1..], mx)
  }

  function Covariance(es: seq<Peak>, mx: real, my: real): real {
    if es == [] then 0.0 else Times(X(es[0]) - mx, Y(es[0]) - my) + Covariance(es[1..], mx, my)
  }

  /** Sum of squared deviations from `my`. */
  function TotalSum(es: seq<Peak>, my: real): real {
    if es == [] then 0.0 else Times(Y(es[0]) - my, Y(es[0]) - my) + TotalSum(es[1..], my)
  }

  function Error(p: Peak, slope: real, intercept: real): real {
    Y(p) - (Times(slope, X(p)) + intercept)
  }

  /** The squared error of an arbitrary line. */
  function SquaredError(es: seq<Peak>, slope: real, intercept: real): real {
    if es == [] then 0.0
    else Times(Error(es[0], slope, intercept), Error(es[0], slope, intercept)) + SquaredError(es[1..], slope, intercept)
  }

  function MeanX(es: seq<Peak>): real requires es != [] { SumX(es) / (|es| as real) }
  function MeanY(es: seq<Peak>): real requires es != [] { SumY(es) / (|es| as real) }

  ghost predicate OnLine(es: seq<Peak>, slope: real, intercept: real) {
    forall p :: p in es ==> Error(p, slope, intercept) == 0.0
  }

  // ---------------------------------------------------------------- regress

  /** R squared, with the flat case that is described perfectly. */
  function Explained(error: real, total: real): real {
    if total == 0.0 then 1.0 else 1.0 - error / total
  }

  /** The closed form the loop below computes. */
  function LineThrough(es: seq<Peak>): Option<LineFit> {
    if |es| < 2 then None
    else
      var mx, my := MeanX(es), MeanY(es);
      var v := Variance(es, mx);
      if v == 0.0 then None
      else
        var slope := Covariance(es, mx, my) / v;
        var intercept := my - Times(slope, mx);
        Some(LineFit(slope, intercept, Explained(SquaredError(es, slope, intercept), TotalSum(es, my))))
  }

  function Line(points: seq<ResidualPoint>): Option<LineFit> {
    LineThrough(Entries(PeakMap(points)))
  }

  /** The accumulating loop over the ordered entries. */
  method Moments(es: seq<Peak>, mx: real, my: real) returns (covariance: real, variance: real)
    ensures covariance == Covariance(es, mx, my)
    ensures variance == Variance(es, mx)
  {
    hide Times;
    covariance, variance := 0.0, 0.0;
    assert es[0..] == es;
    for i := 0 to |es|
      invariant covariance + Covariance(es[i..], mx, my) == Covariance(es, mx, my)
      invariant variance + Variance(es[i..], mx) == Variance(es, mx)
    {
      var dx := X(es[i]) - mx;
      covariance := covariance + Times(dx, Y(es[i]) - my);
      variance := variance + Times(dx, dx);
      assert es[i..][1..] == es[i + 1..];
    }
  }

  /** The loop that keeps each batch size's largest residual. */
  method Peaks(points: seq<ResidualPoint>) returns (peaks: map<nat, nat>)
    ensures peaks == PeakMap(points)
  {
    peaks := map[];
    for i := 0 to |points|
      invariant peaks == PeakMap(points[..i])
    {
      peaks := peaks[points[i].ubatch := Max(Held(peaks, points[i].ubatch), points[i].residual)];
      assert points[..i + 1][..i] == points[..i];
    }
    assert points[..|points|] == points;
  }

  method Regress(points: seq<ResidualPoint>) returns (line: Option<LineFit>)
    ensures line == Line(points)
  {
    hide Times;
    hide SquaredError;
    hide TotalSum;
    var peaks := Peaks(points);
    var es := Entries(peaks);
    if |peaks| < 2 {
      return None;
    }
    var mx, my := MeanX(es), MeanY(es);
    var covariance, variance := Moments(es, mx, my);
    if variance == 0.0 {
      return None;
    }
    var slope := covariance / variance;
    var intercept := my - Times(slope, mx);
    var total := TotalSum(es, my);
    var rSquared := Explained(SquaredError(es, slope, intercept), total);
    line := Some(LineFit(slope, intercept, rSquared));
  }

  // --------------------------------------------------- the algebra behind it

  lemma PositiveProduct(a: real, b: real)
    requires a > 0.0 && b > 0.0
    ensures Times(a, b) > 0.0
  {
  }

  lemma Square(a: real)
    ensures Times(a, a) >= 0.0
    ensures Times(a, a) == 0.0 <==> a == 0.0
  {
    if a > 0.0 {
      PositiveProduct(a, a);
    } else if a < 0.0 {
      PositiveProduct(-a, -a);
      assert Times(a, a) == Times(-a, -a);
    }
  }

  lemma {:induction false} VarianceNonNegative(es: seq<Peak>, mx: real)
    ensures Variance(es, mx) >= 0.0
    ensures Variance(es, mx) == 0.0 ==> forall p :: p in es ==> X(p) == mx
  {
    hide Times;
    if es == [] {
    } else {
      Square(X(es[0]) - mx);
      VarianceNonNegative(es[1..], mx);
      assert forall p :: p in es ==> p == es[0] || p in es[1..];
    }
  }

  lemma {:induction false} TotalSumNonNegative(es: seq<Peak>, my: real)
    ensures TotalSum(es, my) >= 0.0
    ensures TotalSum(es, my) == 0.0 ==> forall p :: p in es ==> Y(p) == my
  {
    hide Times;
    if es == [] {
    } else {
      Square(Y(es[0]) - my);
      TotalSumNonNegative(es[1..], my);
      assert forall p :: p in es ==> p == es[0] || p in es[1..];
    }
  }

  lemma {:induction false} ZeroErrorMeansOnLine(es: seq<Peak>, slope: real, intercept: real)
    ensures SquaredError(es, slope, intercept) >= 0.0
    ensures SquaredError(es, slope, intercept) == 0.0 <==> OnLine(es, slope, intercept)
  {
    hide Times;
    if es == [] {
    } else {
      Square(Error(es[0], slope, intercept));
      ZeroErrorMeansOnLine(es[1..], slope, intercept);
      assert es == [es[0]] + es[1..];
      assert forall p :: p in es <==> p == es[0] || p in es[1..];
      if OnLine(es, slope, intercept) {
        assert Error(es[0], slope, intercept) == 0.0;
      }
    }
  }

  function DeviationX(es: seq<Peak>, mx: real): real {
    if es == [] then 0.0 else (X(es[0]) - mx) + DeviationX(es[1..], mx)
  }

  function DeviationY(es: seq<Peak>, my: real): real {
    if es == [] then 0.0 else (Y(es[0]) - my) + DeviationY(es[1..], my)
  }

  lemma {:induction false} DeviationsFromMean(es: seq<Peak>, mx: real, my: real)
    ensures DeviationX(es, mx) == SumX(es) - Times(|es| as real, mx)
    ensures DeviationY(es, my) == SumY(es) - Times(|es| as real, my)
  {
    if es == [] {
    } else {
      DeviationsFromMean(es[1..], mx, my);
    }
  }

  lemma MeansCentre(es: seq<Peak>)
    requires es != []
    ensures DeviationX(es, MeanX(es)) == 0.0 && DeviationY(es, MeanY(es)) == 0.0
  {
    DeviationsFromMean(es, MeanX(es), MeanY(es));
  }

  /** An error sum in terms of the centred moments `t`, `cov`, `v` and the
      deviations `sx`, `sy`, for a line of slope `a` that misses the point the
      moments are taken about by `c`. */
  function Expanded(t: real, cov: real, v: real, sy: real, sx: real, n: real, a: real, c: real): real {
    t - 2.0 * Times(a, cov) + Times(Times(a, a), v)
    - 2.0 * Times(c, sy) + 2.0 * Times(Times(a, c), sx) + Times(n, Times(c, c))
  }

  lemma Distribute(k: real, p: real, q: real)
    ensures Times(k, p + q) == Times(k, p) + Times(k, q)
    ensures Times(p + q, k) == Times(p, k) + Times(q, k)
  {
  }

  lemma SquareOfDifference(u: real, w: real)
    ensures Times(u - w, u - w) == Times(u, u) - 2.0 * Times(w, u) + Times(w, w)
  {
  }

  lemma Regrouped(a: real, b: real, x: real, y: real)
    ensures Times(Times(a, x), y) == Times(a, Times(x, y))
    ensures Times(Times(a, x), Times(b, y)) == Times(Times(a, b), Times(x, y))
    ensures Times(b, Times(a, x)) == Times(Times(a, b), x)
  {
    assert (a * x) * y == a * (x * y);
    assert (a * x) * (b * y) == (a * b) * (x * y);
    assert b * (a * x) == (a * b) * x;
  }

  lemma ErrorSquared(a: real, c: real, dx: real, dy: real)
    ensures var e := dy - Times(a, dx) - c;
      Times(e, e) == Times(dy, dy) - 2.0 * Times(a, Times(dx, dy)) + Times(Times(a, a), Times(dx, dx))
                     - 2.0 * Times(c, dy) + 2.0 * Times(Times(a, c), dx) + Times(c, c)
  {
    hide Times;
    var w := Times(a, dx);
    SquareOfDifference(dy - w, c);
    SquareOfDifference(dy, w);
    Distribute(c, dy - w, w);
    Regrouped(a, a, dx, dx);
    Regrouped(a, a, dx, dy);
    Regrouped(a, c, dx, dy);
  }

  lemma ExpandedStep(t: real, cov: real, v: real, sy: real, sx: real, n: real, a: real, c: real, dx: real, dy: real)
    ensures var e := dy - Times(a, dx) - c;
      Expanded(t, cov, v, sy, sx, n, a, c) + Times(e, e)
      == Expanded(t + Times(dy, dy), cov + Times(dx, dy), v + Times(dx, dx), sy + dy, sx + dx, n + 1.0, a, c)
  {
    hide Times;
    ErrorSquared(a, c, dx, dy);
    Distribute(a, cov, Times(dx, dy));
    Distribute(Times(a, a), v, Times(dx, dx));
    Distribute(c, sy, dy);
    Distribute(Times(a, c), sx, dx);
    Distribute(Times(c, c), n, 1.0);
    One(Times(c, c));
  }

  lemma One(k: real)
    ensures Times(1.0, k) == k
  {
  }

  lemma ErrorFromCentre(p: Peak, a: real, b: real, mx: real, my: real, c: real)
    requires c == b + Times(a, mx) - my
    ensures Error(p, a, b) == (Y(p) - my) - Times(a, X(p) - mx) - c
  {
  }

  /** Any line's squared error, in terms of the centred moments. */
  lemma {:induction false} ErrorExpands(es: seq<Peak>, a: real, b: real, mx: real, my: real, c: real)
    requires c == b + Times(a, mx) - my
    ensures SquaredError(es, a, b) == Expanded(TotalSum(es, my), Covariance(es, mx, my), Variance(es, mx),
                                               DeviationY(es, my), DeviationX(es, mx), |es| as real, a, c)
  {
    if es == [] {
    } else {
      hide Times;
      hide Expanded;
      var rest := es[1..];
      ErrorExpands(rest, a, b, mx, my, c);
      var dx, dy := X(es[0]) - mx, Y(es[0]) - my;
      ErrorFromCentre(es[0], a, b, mx, my, c);
      ExpandedStep(TotalSum(rest, my), Covariance(rest, mx, my), Variance(rest, mx),
                   DeviationY(rest, my), DeviationX(rest, mx), |rest| as real, a, c, dx, dy);
    }
  }

  // ------------------------------------------------------------ the theorems

  /** Two entries of the ordered map have different batch sizes, so the
      variance is positive and `regress`'s second test never fires. */
  lemma VariancePositive(peaks: map<nat, nat>)
    requires |peaks| >= 2
    ensures var es := Entries(peaks); Variance(es, MeanX(es)) > 0.0
  {
    var es := Entries(peaks);
    VarianceNonNegative(es, MeanX(es));
    assert es[0] in es && es[1] in es && es[0].ubatch < es[1].ubatch;
  }

  /** A line exists exactly when two distinct batch sizes were measured. */
  lemma LineExists(points: seq<ResidualPoint>)
    ensures Line(points).Some? <==> |PeakMap(points)| >= 2
  {
    if |PeakMap(points)| >= 2 {
      VariancePositive(PeakMap(points));
    }
  }

  lemma CompleteTheSquare(t: real, cov: real, v: real, n: real, a: real, s: real, c: real)
    requires cov == Times(s, v)
    ensures Expanded(t, cov, v, 0.0, 0.0, n, a, c)
         == Expanded(t, cov, v, 0.0, 0.0, n, s, 0.0) + Times(v, Times(a - s, a - s)) + Times(n, Times(c, c))
  {
    hide Times;
    ZeroProduct(c);
    ZeroProduct(Times(a, c));
    ZeroProduct(Times(s, 0.0));
    ZeroProduct(0.0);
    ZeroProduct(n);
    SquareOfDifference(a, s);
    Distribute(v, Times(a, a) - 2.0 * Times(s, a), Times(s, s));
    Distribute(v, Times(a, a) - Times(s, a), -Times(s, a));
    Distribute(v, Times(a, a), -Times(s, a));
    Negate(v, Times(s, a));
    Commutes(v, Times(a, a));
    Commutes(v, Times(s, s));
    Products(a, s, v);
  }

  lemma Negate(k: real, p: real)
    ensures Times(k, -p) == -Times(k, p)
  {
  }

  lemma Commutes(p: real, q: real)
    ensures Times(p, q) == Times(q, p)
  {
  }

  lemma Products(a: real, s: real, v: real)
    ensures Times(a, Times(s, v)) == Times(v, Times(s, a))
    ensures Times(s, Times(s, v)) == Times(Times(s, s), v)
  {
    assert a * (s * v) == v * (s * a);
    assert s * (s * v) == (s * s) * v;
  }

  /** By how much any line misses the line of slope `s` through the means, when
      `s` solves the normal equation `cov = s * v`. */
  lemma ExcessError(es: seq<Peak>, s: real, a: real, b: real)
    requires es != [] && Covariance(es, MeanX(es), MeanY(es)) == Times(s, Variance(es, MeanX(es)))
    ensures var mx, my := MeanX(es), MeanY(es);
            var c := b + Times(a, mx) - my;
            SquaredError(es, a, b)
              == SquaredError(es, s, my - Times(s, mx))
                 + Times(Variance(es, mx), Times(a - s, a - s)) + Times(|es| as real, Times(c, c))
  {
    hide Times;
    hide Expanded;
    var mx, my := MeanX(es), MeanY(es);
    var t, cov, v := TotalSum(es, my), Covariance(es, mx, my), Variance(es, mx);
    var c := b + Times(a, mx) - my;
    MeansCentre(es);
    ErrorExpands(es, a, b, mx, my, c);
    ErrorExpands(es, s, my - Times(s, mx), mx, my, 0.0);
    CompleteTheSquare(t, cov, v, |es| as real, a, s, c);
  }

  lemma ScaledSquare(k: real, a: real)
    requires k > 0.0
    ensures Times(k, Times(a, a)) >= 0.0
    ensures Times(k, Times(a, a)) == 0.0 <==> a == 0.0
  {
    hide Times;
    Square(a);
    if a != 0.0 {
      PositiveProduct(k, Times(a, a));
    } else {
      ZeroProduct(k);
    }
  }

  lemma ZeroProduct(k: real)
    ensures Times(k, 0.0) == 0.0
  {
  }

  /** The slope solves the normal equation and the line passes through the means. */
  lemma NormalEquation(points: seq<ResidualPoint>)
    requires Line(points).Some?
    ensures var es, l := Entries(PeakMap(points)), Line(points).value;
            && es != []
            && Variance(es, MeanX(es)) > 0.0
            && Covariance(es, MeanX(es), MeanY(es)) == Times(l.slope, Variance(es, MeanX(es)))
            && l.intercept == MeanY(es) - Times(l.slope, MeanX(es))
  {
    hide Times;
    hide Explained;
    hide Variance;
    hide Covariance;
    VariancePositive(PeakMap(points));
    var es := Entries(PeakMap(points));
    QuotientTimes(Covariance(es, MeanX(es), MeanY(es)), Variance(es, MeanX(es)));
  }

  lemma QuotientTimes(c: real, v: real)
    requires v != 0.0
    ensures c == Times(c / v, v)
  {
  }

  /** Least squares: no line has a smaller squared error over the peaks, and
      only the fitted line attains it. */
  lemma Optimal(points: seq<ResidualPoint>, a: real, b: real)
    requires Line(points).Some?
    ensures var es, l := Entries(PeakMap(points)), Line(points).value;
            && SquaredError(es, l.slope, l.intercept) <= SquaredError(es, a, b)
            && (SquaredError(es, a, b) == SquaredError(es, l.slope, l.intercept) ==> a == l.slope && b == l.intercept)
  {
    hide Times;
    hide SquaredError;
    hide Variance;
    hide Covariance;
    NormalEquation(points);
    var es, l := Entries(PeakMap(points)), Line(points).value;
    ExcessError(es, l.slope, a, b);
    var mx, my := MeanX(es), MeanY(es);
    ScaledSquare(Variance(es, mx), a - l.slope);
    ScaledSquare(|es| as real, b + Times(a, mx) - my);
  }

  /** The flat line through the mean scores the total sum, so it bounds the fit. */
  lemma {:induction false} FlatLineError(es: seq<Peak>, my: real)
    ensures SquaredError(es, 0.0, my) == TotalSum(es, my)
  {
    if es == [] {
    } else {
      FlatLineError(es[1..], my);
      assert Error(es[0], 0.0, my) == Y(es[0]) - my by {
        assert Times(0.0, X(es[0])) == 0.0;
      }
      hide Times;
    }
  }

  lemma RatioBounds(error: real, total: real)
    requires 0.0 <= error <= total
    ensures 0.0 <= Explained(error, total) <= 1.0
    ensures Explained(error, total) == 1.0 <==> error == 0.0
  {
    if total != 0.0 {
      assert error / total <= 1.0;
    }
  }

  /** Goodness of fit lies in [0, 1], and is 1 exactly when every peak is on
      the line. */
  lemma GoodnessOfFit(points: seq<ResidualPoint>)
    requires Line(points).Some?
    ensures var es, l := Entries(PeakMap(points)), Line(points).value;
            && 0.0 <= l.rSquared <= 1.0
            && (l.rSquared == 1.0 <==> OnLine(es, l.slope, l.intercept))
  {
    hide *;
    var es, l := Entries(PeakMap(points)), Line(points).value;
    ScoreOfLine(points);
    var my := MeanY(es);
    Optimal(points, 0.0, my);
    FlatLineError(es, my);
    ZeroErrorMeansOnLine(es, l.slope, l.intercept);
    RatioBounds(SquaredError(es, l.slope, l.intercept), TotalSum(es, my));
  }

  lemma ScoreOfLine(points: seq<ResidualPoint>)
    requires Line(points).Some?
    ensures var es, l := Entries(PeakMap(points)), Line(points).value;
            es != [] && l.rSquared == Explained(SquaredError(es, l.slope, l.intercept), TotalSum(es, MeanY(es)))
  {
    hide SquaredError;
    hide TotalSum;
    hide Times;
    hide Explained;
    hide Variance;
    hide Covariance;
    hide PeakMap;
    hide Entries;
    hide SumX;
    hide SumY;
  }

  /** The score is the share of the spread the line accounts for: what it leaves
      over is its squared error, for good fits, poor ones and flat ones. */
  lemma ScoreIsTheShareExplained(points: seq<ResidualPoint>)
    requires Line(points).Some?
    ensures var es, l := Entries(PeakMap(points)), Line(points).value;
            es != [] && Times(1.0 - l.rSquared, TotalSum(es, MeanY(es))) == SquaredError(es, l.slope, l.intercept)
  {
    hide *;
    var es, l := Entries(PeakMap(points)), Line(points).value;
    ScoreOfLine(points);
    var my := MeanY(es);
    var error, total := SquaredError(es, l.slope, l.intercept), TotalSum(es, my);
    Optimal(points, 0.0, my);
    FlatLineError(es, my);
    ZeroErrorMeansOnLine(es, l.slope, l.intercept);
    LeftOver(error, total);
  }

  lemma LeftOver(error: real, total: real)
    requires 0.0 <= error <= total
    ensures Times(1.0 - Explained(error, total), total) == error
  {
    if total != 0.0 {
      QuotientTimes(error, total);
    }
  }

  lemma LineThroughTwoPoints(p: Peak, q: Peak) returns (a: real, b: real)
    requires p.ubatch != q.ubatch
    ensures OnLine([p, q], a, b)
  {
    var run := X(q) - X(p);
    a := (Y(q) - Y(p)) / run;
    b := Y(p) - Times(a, X(p));
    assert a * run == Y(q) - Y(p);
    assert a * X(q) == a * X(p) + a * run;
    assert Error(p, a, b) == 0.0 && Error(q, a, b) == 0.0;
  }

  /** Two batch sizes always score a perfect 1: the number carries no
      information before the third. */
  lemma TwoBatchSizesScoreOne(points: seq<ResidualPoint>)
    requires |PeakMap(points)| == 2
    ensures Line(points).Some? && Line(points).value.rSquared == 1.0
  {
    LineExists(points);
    hide Times;
    hide Error;
    hide SquaredError;
    hide LineThrough;
    var es, l := Entries(PeakMap(points)), Line(points).value;
    var a, b := LineThroughTwoPoints(es[0], es[1]);
    assert es == [es[0], es[1]];
    ZeroErrorMeansOnLine(es, a, b);
    ZeroErrorMeansOnLine(es, l.slope, l.intercept);
    Optimal(points, a, b);
    GoodnessOfFit(points);
  }

  /** Lists with the same upper envelope get the same line. */
  lemma LineDependsOnlyOnPeaks(points: seq<ResidualPoint>, others: seq<ResidualPoint>)
    requires Dominated(points, others) && Dominated(others, points)
    ensures Line(points) == Line(others)
  {
    SameEnvelopeSamePeaks(points, others);
  }
}
