/**
 * An experiment is a Python dict from key strings (`width`, `width_random`, ...) to
 * numpy arrays. Python dicts remember insertion order, and `points_in_experiment`
 * depends on it (it reads the first key), so the model keeps the key order beside
 * the contents.
 */
module Experiments {
  import opened Results

  datatype Experiment = Experiment(keys: seq<string>, columns: map<string, seq<real>>)

  /** The key order lists every key of the contents exactly once. */
  predicate WellFormed(e: Experiment)
  {
    && (forall i, j :: 0 <= i < j < |e.keys| ==> e.keys[i] != e.keys[j])
    && (forall k :: k in e.columns ==> k in e.keys)
    && (forall k :: k in e.keys ==> k in e.columns)
  }

  /** Every column has the same number of entries. */
  predicate Uniform(e: Experiment)
  {
    forall k, k' :: k in e.columns && k' in e.columns ==> |e.columns[k]| == |e.columns[k']|
  }

  /** `d[k] = v`: a new key goes to the end of the order, an existing key keeps its place. */
  function Assign(e: Experiment, k: string, v: seq<real>): (r: Experiment)
    ensures WellFormed(e) ==> WellFormed(r)
    ensures r.columns == e.columns[k := v]
    ensures k in e.columns ==> r.keys == e.keys
    ensures k !in e.columns ==> r.keys == e.keys + [k]
  {
    Experiment(if k in e.columns then e.keys else e.keys + [k], e.columns[k := v])
  }

  /** `points_in_experiment`: the length of the column stored under the first key. */
  function PointsIn(e: Experiment): (n: nat)
    requires WellFormed(e) && e.keys != []
    ensures n == |e.columns[e.keys[0]]|
    ensures Uniform(e) ==> forall k :: k in e.columns ==> |e.columns[k]| == n
  {
    |e.columns[e.keys[0]]|
  }

  /**
   * `s[np.arange(len(s)) != i]`: the entries at every position other than `i`,
   * which deletes position `i` when it is in range and keeps everything otherwise.
   */
  function Masked(s: seq<real>, i: int): (r: seq<real>)
    ensures 0 <= i < |s| ==> r == s[..i] + s[i + 1..]
    ensures !(0 <= i < |s|) ==> r == s
  {
    if s == [] then []
    else
      var m := |s| - 1;
      assert s[..m] + [s[m]] == s;
      Masked(s[..m], i) + (if m == i then [] else [s[m]])
  }

  /**
   * `copy_experiment`: with no id, a copy of every column; with id `i`, every column
   * masked by `np.arange(n_points) != i`, where `n_points` comes from the first key
   * (so the columns must all be that long for the mask to apply).
   */
  function CopyExperiment(e: Experiment, idToRemove: Option<int>): (r: Experiment)
    requires WellFormed(e) && e.keys != []
    requires idToRemove.Some? ==> Uniform(e)
    ensures WellFormed(r) && r.keys == e.keys && r.columns.Keys == e.columns.Keys
    ensures idToRemove.None? ==> r.columns == e.columns
    ensures idToRemove.Some? ==> forall k :: k in r.columns ==> r.columns[k] == Masked(e.columns[k], idToRemove.value)
  {
    var copy := map k | k in e.columns ::
      if idToRemove.None? then e.columns[k] else Masked(e.columns[k], idToRemove.value);
    Experiment(e.keys, copy)
  }

  /** Without an id the copy equals the original. */
  lemma CopyWithoutId(e: Experiment)
    requires WellFormed(e) && e.keys != []
    ensures CopyExperiment(e, None) == e
  {
    assert CopyExperiment(e, None).columns == e.columns;
  }

  /** An id that is not a position leaves every column as it was. */
  lemma CopyWithAbsentId(e: Experiment, i: int)
    requires WellFormed(e) && e.keys != [] && Uniform(e) && !(0 <= i < PointsIn(e))
    ensures CopyExperiment(e, Some(i)) == e
  {
    var r := CopyExperiment(e, Some(i));
    assert forall k :: k in r.columns ==> r.columns[k] == e.columns[k];
  }

  /**
   * An id in range deletes that position from every column: the copy is still
   * uniform and holds one point fewer.
   */
  lemma CopyRemovesPoint(e: Experiment, i: nat)
    requires WellFormed(e) && e.keys != [] && Uniform(e) && i < PointsIn(e)
    ensures var r := CopyExperiment(e, Some(i));
      && Uniform(r) && PointsIn(r) == PointsIn(e) - 1
      && forall k :: k in r.columns ==> r.columns[k] == e.columns[k][..i] + e.columns[k][i + 1..]
  {
  }
}
