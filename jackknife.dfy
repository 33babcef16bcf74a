/**
 * `jacknife_covariance`: one covariance/mean evaluation per left-out point, then
 * their element-wise averages, and errors from the squared deviations around those
 * averages (divided by n for the covariance, by the fixed constant 20 for the mean).
 * The square root is the caller's `sqrt`.
 */
module Jackknife {
  import opened Results
  import opened Stats
  import opened Matrices
  import opened Experiments
  import opened Normalize

  datatype Estimate = Estimate(covariance: Matrix, covarianceError: Matrix, mean: seq<real>, meanError: seq<real>)

  /** The mean error divides by this constant whatever the number of points. */
  const MeanErrorDivisor: real := 20.0

  /** Every column as long as the first, normalisable, and at least three points. */
  predicate JackknifeReady(e: Experiment)
  {
    CovReady(e) && Uniform(e) && PointsIn(e) >= 3
  }

  /** Every evaluation holds a 3 x 3 covariance and a mean of length 3. */
  predicate Shaped(results: seq<CovMean>)
  {
    forall i :: 0 <= i < |results| ==> IsMatrix(results[i].covariance, 3, 3) && |results[i].mean| == 3
  }

  /** The evaluation with observation `i` left out of the 3 x n normalised matrix `m`. */
  function LeaveOneOut(m: Matrix, n: nat, i: nat): (r: CovMean)
    requires n >= 3 && IsMatrix(m, 3, n) && i < n
    ensures IsMatrix(r.covariance, 3, 3) && |r.mean| == 3
  {
    Evaluate(WithoutColumn(m, i), n - 1)
  }

  /** The n leave-one-out evaluations, in order of the observation left out. */
  function LeaveOneOuts(m: Matrix, n: nat): (r: seq<CovMean>)
    requires n >= 3 && IsMatrix(m, 3, n)
    ensures |r| == n && Shaped(r)
    ensures forall i :: 0 <= i < n ==> r[i] == LeaveOneOut(m, n, i)
  {
    seq(n, i requires 0 <= i < n => LeaveOneOut(m, n, i))
  }

  /** Entry (a, b) of every evaluation's covariance. */
  function CovEntries(results: seq<CovMean>, a: nat, b: nat): (r: seq<real>)
    requires Shaped(results) && a < 3 && b < 3
    ensures |r| == |results|
  {
    seq(|results|, i requires 0 <= i < |results| => results[i].covariance[a][b])
  }

  /** Entry a of every evaluation's mean. */
  function MeanEntries(results: seq<CovMean>, a: nat): (r: seq<real>)
    requires Shaped(results) && a < 3
    ensures |r| == |results|
  {
    seq(|results|, i requires 0 <= i < |results| => results[i].mean[a])
  }

  /** Entry-wise average of the covariances. */
  function AveragedCovariance(results: seq<CovMean>): (r: Matrix)
    requires Shaped(results) && results != []
    ensures IsMatrix(r, 3, 3)
  {
    seq(3, a requires 0 <= a < 3 => seq(3, b requires 0 <= b < 3 => Average(CovEntries(results, a, b))))
  }

  /** Entry-wise root of the squared deviations from `cov`, over the number of evaluations. */
  function CovarianceSpread(results: seq<CovMean>, cov: Matrix, sqrt: real -> real): (r: Matrix)
    requires Shaped(results) && results != [] && IsMatrix(cov, 3, 3)
    ensures IsMatrix(r, 3, 3)
  {
    seq(3, a requires 0 <= a < 3 => seq(3, b requires 0 <= b < 3 =>
      sqrt(SumSqDev(CovEntries(results, a, b), cov[a][b]) / (|results| as real))))
  }

  /** Entry-wise average of the means. */
  function AveragedMean(results: seq<CovMean>): (r: seq<real>)
    requires Shaped(results) && results != []
    ensures |r| == 3
  {
    seq(3, a requires 0 <= a < 3 => Average(MeanEntries(results, a)))
  }

  /** Entry-wise root of the squared deviations from `mean`, over the fixed divisor. */
  function MeanSpread(results: seq<CovMean>, mean: seq<real>, sqrt: real -> real): (r: seq<real>)
    requires Shaped(results) && |mean| == 3
    ensures |r| == 3
  {
    seq(3, a requires 0 <= a < 3 => sqrt(SumSqDev(MeanEntries(results, a), mean[a]) / MeanErrorDivisor))
  }

  /** The estimate built from the evaluations: a 3 x 3 covariance and error, three means and three errors. */
  function Aggregate(results: seq<CovMean>, sqrt: real -> real): (r: Estimate)
    requires Shaped(results) && results != []
    ensures IsMatrix(r.covariance, 3, 3) && IsMatrix(r.covarianceError, 3, 3)
    ensures |r.mean| == 3 && |r.meanError| == 3
  {
    var cov := AveragedCovariance(results);
    var mean := AveragedMean(results);
    Estimate(cov, CovarianceSpread(results, cov, sqrt), mean, MeanSpread(results, mean, sqrt))
  }

  /**
   * The jackknife estimate over the columns of a 3 x n matrix: its mean is the mean
   * of the whole matrix, and its covariance and covariance error are symmetric.
   */
  function JackknifeOfMatrix(m: Matrix, n: nat, sqrt: real -> real): (r: Estimate)
    requires n >= 3 && IsMatrix(m, 3, n)
    ensures r.mean == RowMeans(m, n)
    ensures Symmetric(r.covariance, 3) && Symmetric(r.covarianceError, 3) && |r.meanError| == 3
  {
    JackknifeMeanIsFullMean(m, n);
    JackknifeSymmetric(m, n, sqrt);
    Aggregate(LeaveOneOuts(m, n), sqrt)
  }

  /**
   * The value `jacknife_covariance` returns: the jackknife over the normalised matrix.
   * Its mean is the mean `covariance_and_mean` gives for the whole experiment.
   */
  function JackknifeOf(e: Experiment, sqrt: real -> real): (r: Estimate)
    requires JackknifeReady(e)
    ensures r.mean == CovMeanOf(e).mean
    ensures Symmetric(r.covariance, 3) && Symmetric(r.covarianceError, 3)
  {
    JackknifeOfMatrix(NormalizedMatrix(e, PointsIn(e)), PointsIn(e), sqrt)
  }

  lemma SumStep(xs: seq<real>, i: nat)
    requires i < |xs|
    ensures Sum(xs[..i + 1]) == Sum(xs[..i]) + xs[i]
  {
    assert xs[..i + 1][..i] == xs[..i];
  }

  lemma SumSqDevStep(xs: seq<real>, c: real, i: nat)
    requires i < |xs|
    ensures SumSqDev(xs[..i + 1], c) == SumSqDev(xs[..i], c) + (xs[i] - c) * (xs[i] - c)
  {
    assert xs[..i + 1][..i] == xs[..i];
  }

  lemma MatrixEquality(p: Matrix, q: Matrix)
    requires IsMatrix(p, 3, 3) && IsMatrix(q, 3, 3)
    requires forall a, b :: 0 <= a < 3 && 0 <= b < 3 ==> p[a][b] == q[a][b]
    ensures p == q
  {
    assert p[0] == q[0] && p[1] == q[1] && p[2] == q[2];
  }

  /**
   * Leaving point `i` out with `copy_experiment` and evaluating the copy gives the
   * evaluation with column `i` deleted from the normalised matrix.
   */
  lemma CopyEvaluates(e: Experiment, i: nat)
    requires JackknifeReady(e) && i < PointsIn(e)
    ensures CovReady(CopyExperiment(e, Some(i)))
    ensures CovMeanOf(CopyExperiment(e, Some(i))) == LeaveOneOut(NormalizedMatrix(e, PointsIn(e)), PointsIn(e), i)
  {
    NormalizeCopy(e, i);
  }

  /** One covariance/mean evaluation per left-out point. */
  method EvaluateLeaveOneOuts(e: Experiment) returns (covAndMean: seq<CovMean>)
    requires JackknifeReady(e)
    ensures covAndMean == LeaveOneOuts(NormalizedMatrix(e, PointsIn(e)), PointsIn(e))
  {
    var nPoints := PointsIn(e);
    ghost var spec := LeaveOneOuts(NormalizedMatrix(e, nPoints), nPoints);
    covAndMean := [];
    for i := 0 to nPoints
      invariant covAndMean == spec[..i]
    {
      CopyEvaluates(e, i);
      var tmp := CopyExperiment(e, Some(i));
      var cm := CovarianceAndMean(tmp);
      assert spec[..i + 1] == spec[..i] + [cm];
      covAndMean := covAndMean + [cm];
    }
  }

  /** The element-wise average of the covariances. */
  method AverageCovariance(covAndMean: seq<CovMean>) returns (covarianceAvg: Matrix)
    requires Shaped(covAndMean) && covAndMean != []
    ensures covarianceAvg == AveragedCovariance(covAndMean)
  {
    var nPoints := |covAndMean|;
    covarianceAvg := Sub(covAndMean[0].covariance, covAndMean[0].covariance);
    for i := 0 to nPoints
      invariant IsMatrix(covarianceAvg, 3, 3)
      invariant forall a, b :: 0 <= a < 3 && 0 <= b < 3 ==>
        covarianceAvg[a][b] == Sum(CovEntries(covAndMean, a, b)[..i])
    {
      ghost var prev := covarianceAvg;
      var c := covAndMean[i].covariance;
      covarianceAvg := Add(covarianceAvg, c);
      forall a, b | 0 <= a < 3 && 0 <= b < 3
        ensures covarianceAvg[a][b] == Sum(CovEntries(covAndMean, a, b)[..i + 1])
      {
        SumStep(CovEntries(covAndMean, a, b), i);
        assert covarianceAvg[a][b] == prev[a][b] + c[a][b];
      }
    }
    forall a, b | 0 <= a < 3 && 0 <= b < 3
      ensures covarianceAvg[a][b] == Sum(CovEntries(covAndMean, a, b))
    {
      assert CovEntries(covAndMean, a, b)[..nPoints] == CovEntries(covAndMean, a, b);
    }
    covarianceAvg := Divide(covarianceAvg, nPoints as real);
    MatrixEquality(covarianceAvg, AveragedCovariance(covAndMean));
  }

  /** `acc` holds the squared deviations of the first `i` covariances from `avg`, entry by entry. */
  predicate CovSqDevSoFar(acc: Matrix, covAndMean: seq<CovMean>, avg: Matrix, i: nat)
    requires Shaped(covAndMean) && IsMatrix(avg, 3, 3) && i <= |covAndMean|
  {
    IsMatrix(acc, 3, 3) && forall a, b :: 0 <= a < 3 && 0 <= b < 3 ==>
      acc[a][b] == SumSqDev(CovEntries(covAndMean, a, b)[..i], avg[a][b])
  }

  /** Adding `(covariance - avg) ** 2` of evaluation `i` accounts for one more evaluation. */
  lemma CovSqDevStep(acc: Matrix, covAndMean: seq<CovMean>, avg: Matrix, i: nat)
    requires Shaped(covAndMean) && IsMatrix(avg, 3, 3) && i < |covAndMean|
    requires CovSqDevSoFar(acc, covAndMean, avg, i)
    ensures CovSqDevSoFar(Add(acc, Square(Sub(covAndMean[i].covariance, avg))), covAndMean, avg, i + 1)
  {
    var c := covAndMean[i].covariance;
    var dev := Sub(c, avg);
    var sq := Square(dev);
    var next := Add(acc, sq);
    forall a, b | 0 <= a < 3 && 0 <= b < 3
      ensures next[a][b] == SumSqDev(CovEntries(covAndMean, a, b)[..i + 1], avg[a][b])
    {
      var xs := CovEntries(covAndMean, a, b);
      var d := xs[i] - avg[a][b];
      SumSqDevStep(xs, avg[a][b], i);
      assert xs[i] == c[a][b];
      assert dev[a][b] == d;
      assert sq[a][b] == dev[a][b] * dev[a][b];
      assert dev[a][b] * dev[a][b] == d * d;
      assert next[a][b] == acc[a][b] + sq[a][b];
    }
  }

  /** Once every evaluation is accounted for, the root of the sums over n is the covariance error. */
  lemma CovSqDevDone(acc: Matrix, covAndMean: seq<CovMean>, avg: Matrix, sqrt: real -> real)
    requires Shaped(covAndMean) && covAndMean != [] && IsMatrix(avg, 3, 3)
    requires CovSqDevSoFar(acc, covAndMean, avg, |covAndMean|)
    ensures Root(Divide(acc, |covAndMean| as real), sqrt) == CovarianceSpread(covAndMean, avg, sqrt)
  {
    var n := |covAndMean|;
    forall a, b | 0 <= a < 3 && 0 <= b < 3
      ensures acc[a][b] == SumSqDev(CovEntries(covAndMean, a, b), avg[a][b])
    {
      assert CovEntries(covAndMean, a, b)[..n] == CovEntries(covAndMean, a, b);
    }
    MatrixEquality(Root(Divide(acc, n as real), sqrt), CovarianceSpread(covAndMean, avg, sqrt));
  }

  /** Root of the summed squared deviations from the average, over n. */
  method CovarianceError(covAndMean: seq<CovMean>, covarianceAvg: Matrix, sqrt: real -> real)
    returns (covarianceStd: Matrix)
    requires Shaped(covAndMean) && covAndMean != [] && IsMatrix(covarianceAvg, 3, 3)
    ensures covarianceStd == CovarianceSpread(covAndMean, covarianceAvg, sqrt)
  {
    var nPoints := |covAndMean|;
    covarianceStd := Sub(covAndMean[0].covariance, covAndMean[0].covariance);
    for i := 0 to nPoints
      invariant CovSqDevSoFar(covarianceStd, covAndMean, covarianceAvg, i)
    {
      CovSqDevStep(covarianceStd, covAndMean, covarianceAvg, i);
      covarianceStd := Add(covarianceStd, Square(Sub(covAndMean[i].covariance, covarianceAvg)));
    }
    CovSqDevDone(covarianceStd, covAndMean, covarianceAvg, sqrt);
    covarianceStd := Root(Divide(covarianceStd, nPoints as real), sqrt);
  }

  /** The element-wise average of the means. */
  method AverageMean(covAndMean: seq<CovMean>) returns (meanAvg: seq<real>)
    requires Shaped(covAndMean) && covAndMean != []
    ensures meanAvg == AveragedMean(covAndMean)
  {
    var nPoints := |covAndMean|;
    meanAvg := VecSub(covAndMean[0].mean, covAndMean[0].mean);
    for i := 0 to nPoints
      invariant |meanAvg| == 3
      invariant forall a :: 0 <= a < 3 ==> meanAvg[a] == Sum(MeanEntries(covAndMean, a)[..i])
    {
      ghost var prev := meanAvg;
      var x := covAndMean[i].mean;
      meanAvg := VecAdd(meanAvg, x);
      forall a | 0 <= a < 3
        ensures meanAvg[a] == Sum(MeanEntries(covAndMean, a)[..i + 1])
      {
        SumStep(MeanEntries(covAndMean, a), i);
        assert meanAvg[a] == prev[a] + x[a];
      }
    }
    forall a | 0 <= a < 3
      ensures meanAvg[a] == Sum(MeanEntries(covAndMean, a))
    {
      assert MeanEntries(covAndMean, a)[..nPoints] == MeanEntries(covAndMean, a);
    }
    meanAvg := VecDivide(meanAvg, nPoints as real);
  }

  /** `acc` holds the squared deviations of the first `i` means from `avg`, entry by entry. */
  predicate MeanSqDevSoFar(acc: seq<real>, covAndMean: seq<CovMean>, avg: seq<real>, i: nat)
    requires Shaped(covAndMean) && |avg| == 3 && i <= |covAndMean|
  {
    |acc| == 3 && forall a :: 0 <= a < 3 ==> acc[a] == SumSqDev(MeanEntries(covAndMean, a)[..i], avg[a])
  }

  /** Adding `(mean - avg) ** 2` of evaluation `i` accounts for one more evaluation. */
  lemma MeanSqDevStep(acc: seq<real>, covAndMean: seq<CovMean>, avg: seq<real>, i: nat)
    requires Shaped(covAndMean) && |avg| == 3 && i < |covAndMean|
    requires MeanSqDevSoFar(acc, covAndMean, avg, i)
    ensures MeanSqDevSoFar(VecAdd(acc, VecSquare(VecSub(covAndMean[i].mean, avg))), covAndMean, avg, i + 1)
  {
    var x := covAndMean[i].mean;
    var dev := VecSub(x, avg);
    var sq := VecSquare(dev);
    var next := VecAdd(acc, sq);
    forall a | 0 <= a < 3
      ensures next[a] == SumSqDev(MeanEntries(covAndMean, a)[..i + 1], avg[a])
    {
      var xs := MeanEntries(covAndMean, a);
      var d := xs[i] - avg[a];
      SumSqDevStep(xs, avg[a], i);
      assert xs[i] == x[a];
      assert dev[a] == d;
      assert sq[a] == dev[a] * dev[a];
      assert dev[a] * dev[a] == d * d;
      assert next[a] == acc[a] + sq[a];
    }
  }

  /** Root of the summed squared deviations from the average mean, over 20. */
  method MeanError(covAndMean: seq<CovMean>, meanAvg: seq<real>, sqrt: real -> real)
    returns (meanStd: seq<real>)
    requires Shaped(covAndMean) && covAndMean != [] && |meanAvg| == 3
    ensures meanStd == MeanSpread(covAndMean, meanAvg, sqrt)
  {
    var nPoints := |covAndMean|;
    meanStd := VecSub(covAndMean[0].mean, covAndMean[0].mean);
    for i := 0 to nPoints
      invariant MeanSqDevSoFar(meanStd, covAndMean, meanAvg, i)
    {
      MeanSqDevStep(meanStd, covAndMean, meanAvg, i);
      meanStd := VecAdd(meanStd, VecSquare(VecSub(covAndMean[i].mean, meanAvg)));
    }
    forall a | 0 <= a < 3
      ensures meanStd[a] == SumSqDev(MeanEntries(covAndMean, a), meanAvg[a])
    {
      assert MeanEntries(covAndMean, a)[..nPoints] == MeanEntries(covAndMean, a);
    }
    meanStd := VecRoot(VecDivide(meanStd, 20.0), sqrt);
  }

  /** `jacknife_covariance`. */
  method JacknifeCovariance(e: Experiment, sqrt: real -> real) returns (r: Estimate)
    requires JackknifeReady(e)
    ensures r == JackknifeOf(e, sqrt)
  {
    var covAndMean := EvaluateLeaveOneOuts(e);
    var covarianceAvg := AverageCovariance(covAndMean);
    var covarianceStd := CovarianceError(covAndMean, covarianceAvg, sqrt);
    var meanAvg := AverageMean(covAndMean);
    var meanStd := MeanError(covAndMean, meanAvg, sqrt);
    r := Estimate(covarianceAvg, covarianceStd, meanAvg, meanStd);
  }

  /** Leaving observation `i` out: the row mean is the full row sum less entry `i`, over n - 1. */
  lemma {:induction false} LeaveOneOutMean(m: Matrix, n: nat, i: nat, a: nat)
    requires n >= 3 && IsMatrix(m, 3, n) && i < n && a < 3
    ensures LeaveOneOut(m, n, i).mean[a] == (Sum(m[a]) - m[a][i]) / ((n - 1) as real)
  {
    var row := WithoutColumn(m, i)[a];
    assert LeaveOneOut(m, n, i).mean[a] == Average(row);
    AverageAfterDelete(m[a], i, row);
  }

  /** Averaging the leave-one-out means of row `a` gives the mean of row `a`. */
  lemma {:induction false} JackknifeRowMean(m: Matrix, n: nat, a: nat)
    requires n >= 3 && IsMatrix(m, 3, n) && a < 3
    ensures Average(MeanEntries(LeaveOneOuts(m, n), a)) == Average(m[a])
  {
    LeaveOneOutMeans(m, n, a);
    AverageOfDeletedAverages(m[a], MeanEntries(LeaveOneOuts(m, n), a));
  }

  /** Entry `k` of the leave-one-out means of row `a` is the average of the row without entry `k`. */
  lemma {:induction false} LeaveOneOutMeans(m: Matrix, n: nat, a: nat)
    requires n >= 3 && IsMatrix(m, 3, n) && a < 3
    ensures forall k :: 0 <= k < n ==>
      MeanEntries(LeaveOneOuts(m, n), a)[k] == (Sum(m[a]) - m[a][k]) / ((n - 1) as real)
  {
    forall k | 0 <= k < n
      ensures MeanEntries(LeaveOneOuts(m, n), a)[k] == (Sum(m[a]) - m[a][k]) / ((n - 1) as real)
    {
      LeaveOneOutMeanEntry(m, n, k, a);
    }
  }

  lemma LeaveOneOutMeanEntry(m: Matrix, n: nat, k: nat, a: nat)
    requires n >= 3 && IsMatrix(m, 3, n) && k < n && a < 3
    ensures MeanEntries(LeaveOneOuts(m, n), a)[k] == (Sum(m[a]) - m[a][k]) / ((n - 1) as real)
  {
    LeaveOneOutMean(m, n, k, a);
    assert MeanEntries(LeaveOneOuts(m, n), a)[k] == LeaveOneOut(m, n, k).mean[a];
  }

  /** The averaged leave-one-out means are the row means of the whole matrix. */
  lemma {:induction false} JackknifeMeanIsFullMean(m: Matrix, n: nat)
    requires n >= 3 && IsMatrix(m, 3, n)
    ensures AveragedMean(LeaveOneOuts(m, n)) == RowMeans(m, n)
  {
    forall a | 0 <= a < 3
      ensures Average(MeanEntries(LeaveOneOuts(m, n), a)) == Average(m[a])
    {
      JackknifeRowMean(m, n, a);
    }
  }

  /** Every leave-one-out covariance is symmetric, so their average and spread are too. */
  lemma {:induction false} JackknifeSymmetric(m: Matrix, n: nat, sqrt: real -> real)
    requires n >= 3 && IsMatrix(m, 3, n)
    ensures var results := LeaveOneOuts(m, n);
      && Symmetric(AveragedCovariance(results), 3)
      && Symmetric(CovarianceSpread(results, AveragedCovariance(results), sqrt), 3)
  {
    var results := LeaveOneOuts(m, n);
    forall a, b | 0 <= a < 3 && 0 <= b < 3
      ensures CovEntries(results, a, b) == CovEntries(results, b, a)
    {
      forall i | 0 <= i < n
        ensures CovEntries(results, a, b)[i] == CovEntries(results, b, a)[i]
      {
        CovarianceSymmetric(WithoutColumn(m, i), n - 1);
      }
    }
  }

  /** With constant rows, leaving any observation out still leaves constant rows. */
  lemma {:induction false} LeaveOneOutOfConstantData(m: Matrix, n: nat, v: seq<real>, i: nat)
    requires n >= 3 && IsMatrix(m, 3, n) && |v| == 3 && i < n
    requires forall a, j :: 0 <= a < 3 && 0 <= j < n ==> m[a][j] == v[a]
    ensures LeaveOneOut(m, n, i).mean == v
    ensures forall a, b :: 0 <= a < 3 && 0 <= b < 3 ==> LeaveOneOut(m, n, i).covariance[a][b] == 0.0
  {
    var mi := WithoutColumn(m, i);
    forall a, k | 0 <= a < 3 && 0 <= k < n - 1
      ensures mi[a][k] == v[a]
    {
      assert mi[a][k] == m[a][if k < i then k else k + 1];
    }
    ConstantRows(mi, n - 1, v);
  }

  /**
   * When every observation has the value `v[a]` in row `a`, each evaluation sees
   * constant rows: the estimate is mean `v` and zero covariance, and both errors are
   * the root of zero.
   */
  lemma {:induction false} JackknifeOfConstantData(m: Matrix, n: nat, sqrt: real -> real, v: seq<real>)
    requires n >= 3 && IsMatrix(m, 3, n) && |v| == 3
    requires forall a, j :: 0 <= a < 3 && 0 <= j < n ==> m[a][j] == v[a]
    ensures JackknifeOfMatrix(m, n, sqrt).mean == v
    ensures forall a :: 0 <= a < 3 ==> JackknifeOfMatrix(m, n, sqrt).meanError[a] == sqrt(0.0)
    ensures forall a, b :: 0 <= a < 3 && 0 <= b < 3 ==>
      JackknifeOfMatrix(m, n, sqrt).covariance[a][b] == 0.0
      && JackknifeOfMatrix(m, n, sqrt).covarianceError[a][b] == sqrt(0.0)
  {
    var results := LeaveOneOuts(m, n);
    var r := Aggregate(results, sqrt);
    assert JackknifeOfMatrix(m, n, sqrt) == r;
    forall i | 0 <= i < n
      ensures results[i].mean == v
      ensures forall a, b :: 0 <= a < 3 && 0 <= b < 3 ==> results[i].covariance[a][b] == 0.0
    {
      LeaveOneOutOfConstantData(m, n, v, i);
    }
    forall a | 0 <= a < 3
      ensures r.mean[a] == v[a] && r.meanError[a] == sqrt(0.0)
    {
      MeanErrorOfEqualMeans(results, a, v[a], sqrt);
    }
    forall a, b | 0 <= a < 3 && 0 <= b < 3
      ensures r.covariance[a][b] == 0.0 && r.covarianceError[a][b] == sqrt(0.0)
    {
      CovarianceErrorOfEqualCovariances(results, a, b, 0.0, sqrt);
    }
  }

  /** When every evaluation has the same mean entry `a`, that is the jackknife mean and its error is the root of zero. */
  lemma MeanErrorOfEqualMeans(results: seq<CovMean>, a: nat, c: real, sqrt: real -> real)
    requires Shaped(results) && results != [] && a < 3
    requires forall i :: 0 <= i < |results| ==> results[i].mean[a] == c
    ensures Aggregate(results, sqrt).mean[a] == c
    ensures Aggregate(results, sqrt).meanError[a] == sqrt(0.0)
  {
    AverageConstant(MeanEntries(results, a), c);
    SumSqDevConstant(MeanEntries(results, a), c);
  }

  /** When every evaluation has the same covariance entry (a, b), that is the jackknife covariance and its error is the root of zero. */
  lemma CovarianceErrorOfEqualCovariances(results: seq<CovMean>, a: nat, b: nat, c: real, sqrt: real -> real)
    requires Shaped(results) && results != [] && a < 3 && b < 3
    requires forall i :: 0 <= i < |results| ==> results[i].covariance[a][b] == c
    ensures Aggregate(results, sqrt).covariance[a][b] == c
    ensures Aggregate(results, sqrt).covarianceError[a][b] == sqrt(0.0)
  {
    AverageConstant(CovEntries(results, a, b), c);
    SumSqDevConstant(CovEntries(results, a, b), c);
  }
}
