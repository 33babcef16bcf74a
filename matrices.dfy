/**
 * Dense real matrices as sequences of rows, with the numpy operations the
 * jackknife uses: element-wise arithmetic, `np.mean(m, axis=1)` and `np.cov(m)`
 * (rows are variables, columns are observations, normalised by n - 1).
 */
module Matrices {
  import opened Stats

  type Matrix = seq<seq<real>>

  /** `m` has `rows` rows of `cols` entries each. */
  predicate IsMatrix(m: Matrix, rows: nat, cols: nat)
  {
    |m| == rows && forall a :: 0 <= a < rows ==> |m[a]| == cols
  }

  predicate Symmetric(m: Matrix, d: nat)
  {
    IsMatrix(m, d, d) && forall a, b :: 0 <= a < d && 0 <= b < d ==> m[a][b] == m[b][a]
  }

  /** Two matrices of the same shape. */
  predicate SameShape(p: Matrix, q: Matrix)
  {
    |p| == |q| && forall a :: 0 <= a < |p| ==> |p[a]| == |q[a]|
  }

  /** numpy's `p + q`. */
  function Add(p: Matrix, q: Matrix): (r: Matrix)
    requires SameShape(p, q)
    ensures SameShape(r, p)
    ensures forall a, b :: 0 <= a < |p| && 0 <= b < |p[a]| ==> r[a][b] == p[a][b] + q[a][b]
  {
    seq(|p|, a requires 0 <= a < |p| => seq(|p[a]|, b requires 0 <= b < |p[a]| => p[a][b] + q[a][b]))
  }

  /** numpy's `p - q`. */
  function Sub(p: Matrix, q: Matrix): (r: Matrix)
    requires SameShape(p, q)
    ensures SameShape(r, p)
    ensures forall a, b :: 0 <= a < |p| && 0 <= b < |p[a]| ==> r[a][b] == p[a][b] - q[a][b]
  {
    seq(|p|, a requires 0 <= a < |p| => seq(|p[a]|, b requires 0 <= b < |p[a]| => p[a][b] - q[a][b]))
  }

  /** numpy's `p ** 2`. */
  function Square(p: Matrix): (r: Matrix)
    ensures SameShape(r, p)
    ensures forall a, b :: 0 <= a < |p| && 0 <= b < |p[a]| ==> r[a][b] == p[a][b] * p[a][b]
  {
    seq(|p|, a requires 0 <= a < |p| => seq(|p[a]|, b requires 0 <= b < |p[a]| => p[a][b] * p[a][b]))
  }

  /** numpy's `p / k`. */
  function Divide(p: Matrix, k: real): (r: Matrix)
    requires k != 0.0
    ensures SameShape(r, p)
    ensures forall a, b :: 0 <= a < |p| && 0 <= b < |p[a]| ==> r[a][b] == p[a][b] / k
  {
    seq(|p|, a requires 0 <= a < |p| => seq(|p[a]|, b requires 0 <= b < |p[a]| => p[a][b] / k))
  }

  /** `np.sqrt(p)`, with the square root supplied by the caller. */
  function Root(p: Matrix, sqrt: real -> real): (r: Matrix)
    ensures SameShape(r, p)
    ensures forall a, b :: 0 <= a < |p| && 0 <= b < |p[a]| ==> r[a][b] == sqrt(p[a][b])
  {
    seq(|p|, a requires 0 <= a < |p| => seq(|p[a]|, b requires 0 <= b < |p[a]| => sqrt(p[a][b])))
  }

  /** numpy's `u + v` on vectors. */
  function VecAdd(u: seq<real>, v: seq<real>): (r: seq<real>)
    requires |u| == |v|
    ensures |r| == |u| && forall a :: 0 <= a < |u| ==> r[a] == u[a] + v[a]
  {
    seq(|u|, a requires 0 <= a < |u| => u[a] + v[a])
  }

  /** numpy's `u - v` on vectors. */
  function VecSub(u: seq<real>, v: seq<real>): (r: seq<real>)
    requires |u| == |v|
    ensures |r| == |u| && forall a :: 0 <= a < |u| ==> r[a] == u[a] - v[a]
  {
    seq(|u|, a requires 0 <= a < |u| => u[a] - v[a])
  }

  /** numpy's `u ** 2` on vectors. */
  function VecSquare(u: seq<real>): (r: seq<real>)
    ensures |r| == |u| && forall a :: 0 <= a < |u| ==> r[a] == u[a] * u[a]
  {
    seq(|u|, a requires 0 <= a < |u| => u[a] * u[a])
  }

  /** numpy's `u / k` on vectors. */
  function VecDivide(u: seq<real>, k: real): (r: seq<real>)
    requires k != 0.0
    ensures |r| == |u| && forall a :: 0 <= a < |u| ==> r[a] == u[a] / k
  {
    seq(|u|, a requires 0 <= a < |u| => u[a] / k)
  }

  /** `np.sqrt(u)` on vectors. */
  function VecRoot(u: seq<real>, sqrt: real -> real): (r: seq<real>)
    ensures |r| == |u| && forall a :: 0 <= a < |u| ==> r[a] == sqrt(u[a])
  {
    seq(|u|, a requires 0 <= a < |u| => sqrt(u[a]))
  }

  /** The matrix with column `i` deleted from every row (one observation left out). */
  function WithoutColumn(m: Matrix, i: nat): (r: Matrix)
    requires forall a :: 0 <= a < |m| ==> i < |m[a]|
    ensures |r| == |m| && forall a :: 0 <= a < |m| ==> r[a] == m[a][..i] + m[a][i + 1..]
  {
    seq(|m|, a requires 0 <= a < |m| => m[a][..i] + m[a][i + 1..])
  }

  /** Sum over observations k of `(xs[k] - mx) * (ys[k] - my)`. */
  function CrossDev(xs: seq<real>, ys: seq<real>, mx: real, my: real): real
    requires |xs| == |ys|
  {
    if xs == [] then 0.0
    else
      var k := |xs| - 1;
      CrossDev(xs[..k], ys[..k], mx, my) + (xs[k] - mx) * (ys[k] - my)
  }

  /** `np.mean(m, axis=1)`: the mean of every row. */
  function RowMeans(m: Matrix, n: nat): (r: seq<real>)
    requires n >= 1 && forall a :: 0 <= a < |m| ==> |m[a]| == n
    ensures |r| == |m|
  {
    seq(|m|, a requires 0 <= a < |m| => Average(m[a]))
  }

  /** `np.cov(m)`: sample covariance of the rows of `m`, each holding `n >= 2` observations. */
  function Covariance(m: Matrix, n: nat): (c: Matrix)
    requires n >= 2 && forall a :: 0 <= a < |m| ==> |m[a]| == n
    ensures IsMatrix(c, |m|, |m|)
  {
    seq(|m|, a requires 0 <= a < |m| =>
      seq(|m|, b requires 0 <= b < |m| =>
        CrossDev(m[a], m[b], Average(m[a]), Average(m[b])) / ((n - 1) as real)))
  }

  lemma {:induction false} CrossDevSymmetric(xs: seq<real>, ys: seq<real>, mx: real, my: real)
    requires |xs| == |ys|
    ensures CrossDev(xs, ys, mx, my) == CrossDev(ys, xs, my, mx)
  {
    if xs != [] {
      CrossDevSymmetric(xs[..|xs| - 1], ys[..|ys| - 1], mx, my);
    }
  }

  lemma {:induction false} CrossDevSelf(xs: seq<real>, c: real)
    ensures CrossDev(xs, xs, c, c) == SumSqDev(xs, c)
  {
    if xs != [] {
      CrossDevSelf(xs[..|xs| - 1], c);
    }
  }

  /** Observations that all sit at the mean `mx` contribute nothing to the cross sum. */
  lemma {:induction false} CrossDevConstant(xs: seq<real>, ys: seq<real>, mx: real, my: real)
    requires |xs| == |ys|
    requires forall k :: 0 <= k < |xs| ==> xs[k] == mx
    ensures CrossDev(xs, ys, mx, my) == 0.0
  {
    if xs != [] {
      CrossDevConstant(xs[..|xs| - 1], ys[..|ys| - 1], mx, my);
    }
  }

  /** The covariance matrix is symmetric. */
  lemma CovarianceSymmetric(m: Matrix, n: nat)
    requires n >= 2 && forall a :: 0 <= a < |m| ==> |m[a]| == n
    ensures Symmetric(Covariance(m, n), |m|)
  {
    var c := Covariance(m, n);
    forall a, b | 0 <= a < |m| && 0 <= b < |m|
      ensures c[a][b] == c[b][a]
    {
      CrossDevSymmetric(m[a], m[b], Average(m[a]), Average(m[b]));
    }
  }

  /**
   * The diagonal holds each row's variance with the n - 1 divisor: the population
   * variance (the square of `np.std`) scaled by n / (n - 1); in particular it is never negative.
   */
  lemma CovarianceDiagonal(m: Matrix, n: nat, a: nat)
    requires n >= 2 && forall a :: 0 <= a < |m| ==> |m[a]| == n
    requires a < |m|
    ensures Covariance(m, n)[a][a] == PopVariance(m[a]) * (n as real) / ((n - 1) as real)
    ensures Covariance(m, n)[a][a] >= 0.0
  {
    CrossDevSelf(m[a], Average(m[a]));
    var s := SumSqDev(m[a], Average(m[a]));
    assert PopVariance(m[a]) * (n as real) == s;
  }

  /** Rows that are constant have zero covariance with everything, and their own value as mean. */
  lemma ConstantRows(m: Matrix, n: nat, v: seq<real>)
    requires n >= 2 && forall a :: 0 <= a < |m| ==> |m[a]| == n
    requires |v| == |m|
    requires forall a, k :: 0 <= a < |m| && 0 <= k < n ==> m[a][k] == v[a]
    ensures RowMeans(m, n) == v
    ensures forall a, b :: 0 <= a < |m| && 0 <= b < |m| ==> Covariance(m, n)[a][b] == 0.0
  {
    forall a | 0 <= a < |m|
      ensures Average(m[a]) == v[a]
    {
      AverageConstant(m[a], v[a]);
    }
    forall a, b | 0 <= a < |m| && 0 <= b < |m|
      ensures Covariance(m, n)[a][b] == 0.0
    {
      CrossDevConstant(m[a], m[b], Average(m[a]), Average(m[b]));
    }
  }
}
