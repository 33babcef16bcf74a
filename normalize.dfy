/**
 * `get_data_obs` and `covariance_and_mean`: each observable is normalised against
 * its randomised controls, `(x - random) / random_sigma`, into a 3 x n matrix whose
 * rows are width, c/a ratio and b/a ratio; `covariance_and_mean` then takes the
 * sample covariance and the row means of that matrix.
 */
module Normalize {
  import opened Stats
  import opened Matrices
  import opened Experiments
  import opened Results

  /** The normalised fields, by row: 0 = width, 1 = ca_ratio, 2 = ba_ratio. */
  const NormFields: seq<string> := ["width", "ca_ratio", "ba_ratio"]

  /** `f`, `f_random` and `f_random_sigma` are present with `n` entries each, and no sigma is zero. */
  predicate FieldNormalizable(e: Experiment, f: string, n: nat)
  {
    && f in e.columns && f + "_random" in e.columns && f + "_random_sigma" in e.columns
    && |e.columns[f]| == n && |e.columns[f + "_random"]| == n && |e.columns[f + "_random_sigma"]| == n
    && forall j :: 0 <= j < n ==> e.columns[f + "_random_sigma"][j] != 0.0
  }

  predicate Normalizable(e: Experiment, n: nat)
  {
    forall i :: 0 <= i < |NormFields| ==> FieldNormalizable(e, NormFields[i], n)
  }

  /** `(e[f] - e[f + '_random']) / e[f + '_random_sigma']`, element-wise. */
  function NormalizedRow(e: Experiment, f: string, n: nat): (row: seq<real>)
    requires FieldNormalizable(e, f, n)
    ensures |row| == n
  {
    var x, random, sigma := e.columns[f], e.columns[f + "_random"], e.columns[f + "_random_sigma"];
    seq(n, j requires 0 <= j < n => (x[j] - random[j]) / sigma[j])
  }

  /** Multiplying a normalised value back by the sigma and adding the random average recovers the value. */
  lemma NormalizedRowRecovers(e: Experiment, f: string, n: nat, j: nat)
    requires FieldNormalizable(e, f, n) && j < n
    ensures NormalizedRow(e, f, n)[j] * e.columns[f + "_random_sigma"][j] + e.columns[f + "_random"][j]
      == e.columns[f][j]
  {
    var x, random, sigma := e.columns[f], e.columns[f + "_random"], e.columns[f + "_random_sigma"];
    QuotientTimesDivisor(NormalizedRow(e, f, n)[j], x[j] - random[j], sigma[j]);
  }

  /** The 3 x n matrix of normalised values, one row per entry of `NormFields`. */
  function NormalizedMatrix(e: Experiment, n: nat): (m: Matrix)
    requires Normalizable(e, n)
    ensures IsMatrix(m, |NormFields|, n)
  {
    seq(|NormFields|, i requires 0 <= i < |NormFields| => NormalizedRow(e, NormFields[i], n))
  }

  /** The rows loop shared by both functions: fill a zero matrix row by row. */
  method FillNormalized(e: Experiment, n: nat) returns (data: Matrix)
    requires Normalizable(e, n)
    ensures data == NormalizedMatrix(e, n)
  {
    var fields := NormFields;
    var nFields := |fields|;
    data := seq(nFields, _ => seq(n, _ => 0.0));
    for i := 0 to nFields
      invariant |data| == nFields
      invariant forall a :: 0 <= a < i ==> data[a] == NormalizedRow(e, fields[a], n)
    {
      var field := fields[i];
      var x := NormalizedRow(e, field, n);
      data := data[i := x];
    }
  }

  datatype DataObs = DataObs(dataObs: Matrix, fields: seq<string>)

  /** `get_data_obs`: the normalised matrix, its width taken from the `width` column. */
  method GetDataObs(obs: Experiment) returns (r: DataObs)
    requires "width" in obs.columns && Normalizable(obs, |obs.columns["width"]|)
    ensures r.fields == NormFields
    ensures r.dataObs == NormalizedMatrix(obs, |obs.columns["width"]|)
    ensures IsMatrix(r.dataObs, 3, |obs.columns["width"]|)
    ensures forall i, j :: 0 <= i < 3 && 0 <= j < |obs.columns["width"]| ==>
      var f := NormFields[i];
      r.dataObs[i][j] == (obs.columns[f][j] - obs.columns[f + "_random"][j]) / obs.columns[f + "_random_sigma"][j]
  {
    var data := FillNormalized(obs, |obs.columns["width"]|);
    return DataObs(data, NormFields);
  }

  datatype CovMean = CovMean(covariance: Matrix, mean: seq<real>, fields: seq<string>)

  /** The covariance and row means of a 3 x n normalised matrix. */
  function Evaluate(m: Matrix, n: nat): (r: CovMean)
    requires n >= 2 && IsMatrix(m, 3, n)
    ensures IsMatrix(r.covariance, 3, 3) && |r.mean| == 3
  {
    CovMean(Covariance(m, n), RowMeans(m, n), NormFields)
  }

  /** What `covariance_and_mean` needs: a first key, normalisable columns, at least two points. */
  predicate CovReady(e: Experiment)
  {
    WellFormed(e) && e.keys != [] && PointsIn(e) >= 2 && Normalizable(e, PointsIn(e))
  }

  /** The value `covariance_and_mean` returns: a symmetric 3 x 3 covariance, three means and the field mapping. */
  function CovMeanOf(e: Experiment): (r: CovMean)
    requires CovReady(e)
    ensures Symmetric(r.covariance, 3) && |r.mean| == 3 && r.fields == NormFields
  {
    CovarianceSymmetric(NormalizedMatrix(e, PointsIn(e)), PointsIn(e));
    Evaluate(NormalizedMatrix(e, PointsIn(e)), PointsIn(e))
  }

  /**
   * `covariance_and_mean`: the sample covariance (symmetric, 3 x 3) and the row means
   * of the normalised matrix, its width taken from the first key.
   */
  method CovarianceAndMean(e: Experiment) returns (r: CovMean)
    requires CovReady(e)
    ensures r == CovMeanOf(e)
    ensures Symmetric(r.covariance, 3)
    ensures |r.mean| == 3 && forall a :: 0 <= a < 3 ==> r.mean[a] == Average(NormalizedMatrix(e, PointsIn(e))[a])
  {
    var n := PointsIn(e);
    var dataSim := FillNormalized(e, n);
    var cov := Covariance(dataSim, n);
    var mean := RowMeans(dataSim, n);
    CovarianceSymmetric(dataSim, n);
    return CovMean(cov, mean, NormFields);
  }

  /** Deleting position `i` from the inputs of an element-wise normalisation deletes it from the output. */
  lemma NormalizedRowDelete(e: Experiment, c: Experiment, f: string, n: nat, i: nat)
    requires n >= 1 && i < n
    requires FieldNormalizable(e, f, n) && FieldNormalizable(c, f, n - 1)
    requires var x, r, s := e.columns[f], e.columns[f + "_random"], e.columns[f + "_random_sigma"];
      && c.columns[f] == x[..i] + x[i + 1..]
      && c.columns[f + "_random"] == r[..i] + r[i + 1..]
      && c.columns[f + "_random_sigma"] == s[..i] + s[i + 1..]
    ensures NormalizedRow(c, f, n - 1) == NormalizedRow(e, f, n)[..i] + NormalizedRow(e, f, n)[i + 1..]
  {
    var row, row' := NormalizedRow(e, f, n), NormalizedRow(c, f, n - 1);
    var x, r, s := e.columns[f], e.columns[f + "_random"], e.columns[f + "_random_sigma"];
    forall j | 0 <= j < n - 1
      ensures row'[j] == (row[..i] + row[i + 1..])[j]
    {
      var j' := if j < i then j else j + 1;
      assert row'[j] == (x[j'] - r[j']) / s[j'];
    }
  }

  /** Leaving point `i` out with `copy_experiment` keeps the experiment ready for `covariance_and_mean`. */
  lemma CopyKeepsReady(e: Experiment, i: nat)
    requires CovReady(e) && Uniform(e) && PointsIn(e) >= 3 && i < PointsIn(e)
    ensures var c := CopyExperiment(e, Some(i));
      CovReady(c) && PointsIn(c) == PointsIn(e) - 1
  {
    var n := PointsIn(e);
    var c := CopyExperiment(e, Some(i));
    CopyRemovesPoint(e, i);
    forall a | 0 <= a < |NormFields|
      ensures FieldNormalizable(c, NormFields[a], n - 1)
    {
      var f := NormFields[a];
      assert FieldNormalizable(e, f, n);
      var s := e.columns[f + "_random_sigma"];
      forall j | 0 <= j < n - 1
        ensures c.columns[f + "_random_sigma"][j] != 0.0
      {
        assert c.columns[f + "_random_sigma"][j] == s[if j < i then j else j + 1];
      }
    }
  }

  /** Row `a` of the normalised matrix of a leave-one-out copy is row `a` with entry `i` deleted. */
  lemma CopyNormalizedRow(e: Experiment, i: nat, a: nat)
    requires CovReady(e) && Uniform(e) && PointsIn(e) >= 3 && i < PointsIn(e) && a < |NormFields|
    ensures var c, n := CopyExperiment(e, Some(i)), PointsIn(e);
      && CovReady(c) && PointsIn(c) == n - 1
      && NormalizedMatrix(c, n - 1)[a] == WithoutColumn(NormalizedMatrix(e, n), i)[a]
  {
    var c, n := CopyExperiment(e, Some(i)), PointsIn(e);
    CopyKeepsReady(e, i);
    CopyRemovesPoint(e, i);
    var f := NormFields[a];
    assert FieldNormalizable(e, f, n) && FieldNormalizable(c, f, n - 1);
    NormalizedRowDelete(e, c, f, n, i);
  }

  /** The normalised matrix of a leave-one-out copy is the original one with column `i` deleted. */
  lemma NormalizeCopy(e: Experiment, i: nat)
    requires CovReady(e) && Uniform(e) && PointsIn(e) >= 3 && i < PointsIn(e)
    ensures var c := CopyExperiment(e, Some(i));
      && CovReady(c) && PointsIn(c) == PointsIn(e) - 1
      && NormalizedMatrix(c, PointsIn(c)) == WithoutColumn(NormalizedMatrix(e, PointsIn(e)), i)
  {
    var c, n := CopyExperiment(e, Some(i)), PointsIn(e);
    CopyNormalizedRow(e, i, 0);
    CopyNormalizedRow(e, i, 1);
    CopyNormalizedRow(e, i, 2);
    var mc, w := NormalizedMatrix(c, n - 1), WithoutColumn(NormalizedMatrix(e, n), i);
    ThreeRows(mc, w);
  }

  /** Two sequences of three equal entries are equal. */
  lemma ThreeRows<T>(p: seq<T>, q: seq<T>)
    requires |p| == 3 && |q| == 3 && p[0] == q[0] && p[1] == q[1] && p[2] == q[2]
    ensures p == q
  {
  }
}
