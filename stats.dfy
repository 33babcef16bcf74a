/**
 * Scalar statistics over sequences of reals, as numpy computes them with exact arithmetic:
 * `np.sum`, `np.average`/`np.mean`, and the population variance that `np.std` takes the
 * square root of. Square roots are not computed here: callers pass the square root as a
 * function, and properties are stated on the quantity under it.
 */
module Stats {

  /** Sum of `xs`, accumulated left to right. */
  function Sum(xs: seq<real>): real
  {
    if xs == [] then 0.0 else Sum(xs[..|xs| - 1]) + xs[|xs| - 1]
  }

  /** Every value is the first one. */
  predicate AllEqual(xs: seq<real>)
    requires xs != []
  {
    forall k :: 0 <= k < |xs| ==> xs[k] == xs[0]
  }

  /** Arithmetic mean (`np.average` / `np.mean` without weights): n copies of it add up to the sum. */
  function Average(xs: seq<real>): (r: real)
    requires xs != []
    ensures r * (|xs| as real) == Sum(xs)
  {
    Sum(xs) / (|xs| as real)
  }

  /** Sum of squared deviations of `xs` from `c`. */
  function SumSqDev(xs: seq<real>, c: real): (r: real)
    ensures r >= 0.0
  {
    if xs == [] then 0.0
    else
      var d := xs[|xs| - 1] - c;
      SumSqDev(xs[..|xs| - 1], c) + d * d
  }

  /** No deviation at all when every value equals the centre. */
  lemma {:induction false} SumSqDevConstant(xs: seq<real>, c: real)
    requires forall k :: 0 <= k < |xs| ==> xs[k] == c
    ensures SumSqDev(xs, c) == 0.0
    decreases |xs|
  {
    if xs != [] {
      SumSqDevConstant(xs[..|xs| - 1], c);
    }
  }

  /** Population variance (ddof = 0), the square of `np.std`. */
  function PopVariance(xs: seq<real>): (r: real)
    requires xs != []
    ensures r >= 0.0
  {
    SumSqDev(xs, Average(xs)) / (|xs| as real)
  }

  /** `np.std(xs)`, with the square root supplied by the caller; equal values have the root of zero. */
  function Std(xs: seq<real>, sqrt: real -> real): (r: real)
    requires xs != []
    ensures AllEqual(xs) ==> r == sqrt(0.0)
  {
    PopVarianceOfEqual(xs);
    sqrt(PopVariance(xs))
  }

  /** Equal values have no variance. */
  lemma PopVarianceOfEqual(xs: seq<real>)
    requires xs != []
    ensures AllEqual(xs) ==> PopVariance(xs) == 0.0
  {
    if AllEqual(xs) {
      AverageConstant(xs, xs[0]);
      SumSqDevConstant(xs, Average(xs));
    }
  }

  /** The standard deviation of a single value is the square root of zero. */
  lemma StdOfSingleValue(x: real, sqrt: real -> real)
    ensures Std([x], sqrt) == sqrt(0.0)
  {
    assert [x][..0] == [];
    assert Sum([x]) == x;
    assert Average([x]) == x;
    assert SumSqDev([x], x) == 0.0;
  }

  lemma {:induction false} SumAppend(a: seq<real>, b: seq<real>)
    ensures Sum(a + b) == Sum(a) + Sum(b)
    decreases |b|
  {
    if b == [] {
      assert a + b == a;
    } else {
      var b' := b[..|b| - 1];
      assert (a + b)[..|a + b| - 1] == a + b';
      SumAppend(a, b');
    }
  }

  /** Removing position `i` removes exactly `xs[i]` from the sum. */
  lemma {:induction false} SumDeleteAt(xs: seq<real>, i: nat)
    requires i < |xs|
    ensures Sum(xs[..i] + xs[i + 1..]) == Sum(xs) - xs[i]
  {
    var pre, mid, post := xs[..i], [xs[i]], xs[i + 1..];
    assert xs == pre + (mid + post);
    SumAppend(pre, mid + post);
    SumAppend(mid, post);
    SumAppend(pre, post);
    assert mid[..0] == [];
    assert Sum(mid) == xs[i];
  }

  /** Averaging what is left after deleting position `i`: the sum less `xs[i]`, over one fewer. */
  lemma {:induction false} AverageAfterDelete(xs: seq<real>, i: nat, rest: seq<real>)
    requires i < |xs| && |xs| >= 2 && rest == xs[..i] + xs[i + 1..]
    ensures Average(rest) == (Sum(xs) - xs[i]) / ((|xs| - 1) as real)
  {
    SumDeleteAt(xs, i);
  }

  lemma CancelFactor(x: real, y: real, k: real)
    requires k != 1.0 && x * (k - 1.0) == k * y - y
    ensures x == y
  {
    var d := k - 1.0;
    var inv := 1.0 / d;
    assert d * inv == 1.0;
    assert x * d == y * d;
    calc {
      x;
      x * (d * inv);
      (x * d) * inv;
      (y * d) * inv;
      y * (d * inv);
      y;
    }
  }

  lemma QuotientTimesDivisor(q: real, s: real, k: real)
    requires k != 0.0 && q == s / k
    ensures q * k == s
  {
  }

  /** A sequence whose entries all equal `c` sums to `|xs| * c`. */
  lemma {:induction false} SumConstant(xs: seq<real>, c: real)
    requires forall k :: 0 <= k < |xs| ==> xs[k] == c
    ensures Sum(xs) == (|xs| as real) * c
  {
    if xs != [] {
      SumConstant(xs[..|xs| - 1], c);
    }
  }

  /** The average of a constant sequence is that constant. */
  lemma AverageConstant(xs: seq<real>, c: real)
    requires xs != []
    requires forall k :: 0 <= k < |xs| ==> xs[k] == c
    ensures Average(xs) == c
  {
    SumConstant(xs, c);
  }

  /**
   * Summing values `ys[k]` with `ys[k] * d == c - xs[k]`: the sum is linear in the summands.
   * This is the step that makes leave-one-out means average back to the full mean.
   */
  lemma {:induction false} SumOfShifted(xs: seq<real>, c: real, d: real, ys: seq<real>)
    requires |ys| == |xs|
    requires forall k :: 0 <= k < |xs| ==> ys[k] * d == c - xs[k]
    ensures Sum(ys) * d == (|xs| as real) * c - Sum(xs)
  {
    if xs != [] {
      var m := |xs| - 1;
      SumOfShifted(xs[..m], c, d, ys[..m]);
      assert ys[..m][..] == ys[..m];
      calc {
        Sum(ys) * d;
        (Sum(ys[..m]) + ys[m]) * d;
        Sum(ys[..m]) * d + ys[m] * d;
        (m as real) * c - Sum(xs[..m]) + (c - xs[m]);
      }
    }
  }

  /**
   * The averages of `xs` with one entry deleted, one per entry: their average is the
   * average of `xs`.
   */
  lemma AverageOfDeletedAverages(xs: seq<real>, ys: seq<real>)
    requires |xs| >= 2 && |ys| == |xs|
    requires forall k :: 0 <= k < |xs| ==> ys[k] == (Sum(xs) - xs[k]) / ((|xs| - 1) as real)
    ensures Average(ys) == Average(xs)
  {
    var total := Sum(xs);
    var k := |xs| as real;
    var d := k - 1.0;
    forall j | 0 <= j < |xs|
      ensures ys[j] * d == total - xs[j]
    {
      QuotientTimesDivisor(ys[j], total - xs[j], d);
    }
    SumOfShifted(xs, total, d, ys);
    CancelFactor(Sum(ys), total, k);
  }
}
