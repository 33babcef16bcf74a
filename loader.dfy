/**
 * `load_experiment`: discover the group ids from the listed M31 summary files, load
 * the MW and M31 summary table of every group, and collect five observables per host
 * into an experiment. In summary mode every column has one entry per group (the
 * observed value, its spread, the average and spread of its random controls); in
 * full mode the observed values are appended one per group and the controls are
 * concatenated.
 */
module Loader {
  import opened Results
  import opened Stats
  import opened Groups
  import opened Experiments
  import opened Normalize
  import opened Jackknife

  /** One row of a summary table, with the columns in file order. */
  datatype Row = Row(minr: real, maxr: real, caRatio: real, baRatio: real, a: real, center: real, width: real, mu: real)

  /** A loaded summary file: row 0 is the observed system, the rows after it are its random controls. */
  type Table = seq<Row>

  datatype Host = M31 | MW

  datatype LoadError =
    | BadName(nameError: NameError)
    | MissingFile(host: Host, groupId: int)
    | ShortTable(host: Host, groupId: int)

  /** The tables of every discovered group, in group order. */
  datatype Tables = Tables(m31: seq<Table>, mw: seq<Table>)

  /** The two experiments `load_experiment` returns. */
  datatype Loaded = Loaded(m31: Experiment, mw: Experiment)

  /** The observables collected, in the order their keys are created. */
  const Fields: seq<string> := ["width", "mu", "a", "ba_ratio", "ca_ratio"]

  /** Keys per field in summary mode: the value, its sigma, the random average, the random sigma. */
  const SummarySuffixes: seq<string> := ["", "_sigma", "_random", "_random_sigma"]

  /** Keys per field in full mode: the values and the random controls. */
  const FullSuffixes: seq<string> := ["", "_random"]

  function Suffixes(fullData: bool): seq<string>
  {
    if fullData then FullSuffixes else SummarySuffixes
  }

  function HostName(h: Host): string
  {
    match h
    case M31 => "M31"
    case MW => "MW"
  }

  /** `data[field]` on one row. */
  function Value(row: Row, f: string): (v: real)
    requires f in Fields
    ensures f == Fields[0] ==> v == row.width
    ensures f == Fields[1] ==> v == row.mu
    ensures f == Fields[2] ==> v == row.a
    ensures f == Fields[3] ==> v == row.baRatio
    ensures f == Fields[4] ==> v == row.caRatio
  {
    if f == "width" then row.width
    else if f == "mu" then row.mu
    else if f == "a" then row.a
    else if f == "ba_ratio" then row.baRatio
    else row.caRatio
  }

  /**
   * `data[field][1:101]`: the values of the rows after row 0, at most 100 of them
   * (Python slicing stops at the end of a shorter table).
   */
  function Controls(t: Table, f: string): (r: seq<real>)
    requires f in Fields
    ensures |r| == (if |t| <= 1 then 0 else if |t| > 101 then 100 else |t| - 1)
    ensures forall k :: 0 <= k < |r| ==> r[k] == Value(t[k + 1], f)
  {
    var stop := if |t| < 101 then |t| else 101;
    if stop <= 1 then [] else seq(stop - 1, k requires 0 <= k < stop - 1 => Value(t[k + 1], f))
  }

  /** `np.ones(n)`. */
  function Ones(n: nat): (r: seq<real>)
    ensures |r| == n && forall j :: 0 <= j < n ==> r[j] == 1.0
  {
    seq(n, _ => 1.0)
  }

  // ---------------------------------------------------------------- file names

  /** `os.path.join(dir, name)` for a relative `name`: a `/` goes between unless `dir` is empty or ends in one. */
  function JoinPath(dir: string, name: string): (path: string)
    ensures |dir| + |name| <= |path| <= |dir| + |name| + 1
    ensures path[..|dir|] == dir && path[|path| - |name|..] == name
    ensures path == dir + name || path == dir + "/" + name
  {
    if dir == [] || dir[|dir| - 1] == '/' then dir + name else dir + "/" + name
  }

  /**
   * The summary file of one host and group. Its name reads back as group `g` when
   * parsed for an id, whatever the directory.
   */
  function SummaryPath(dir: string, h: Host, g: int, nSat: int): (path: string)
    ensures GroupToken(path) == Success(g)
  {
    var name := FileName(HostName(h), g, nSat);
    if dir == [] || dir[|dir| - 1] == '/' then
      GroupTokenOfFileName(dir, HostName(h), g, nSat);
      JoinPath(dir, name)
    else
      assert dir + "/" + name == (dir + "/") + name;
      GroupTokenOfFileName(dir + "/", HostName(h), g, nSat);
      JoinPath(dir, name)
  }

  // ---------------------------------------------------------------- loading the tables

  /** The summary file of each host and group, for one directory and satellite count. */
  function PathOf(dir: string, nSat: int): (path: (Host, int) -> string)
    ensures forall h, g :: path(h, g) == SummaryPath(dir, h, g, nSat)
  {
    (h, g) => SummaryPath(dir, h, g, nSat)
  }

  /**
   * The tables of every group, or the first group (in id order) whose file is missing;
   * within a group the MW file is opened before the M31 file. `path` names the file of
   * a host and group.
   */
  function LoadTables(fs: map<string, Table>, path: (Host, int) -> string, ids: seq<int>): (r: Result<Tables, LoadError>)
    ensures r.Success? ==> |r.value.m31| == |ids| && |r.value.mw| == |ids|
  {
    if ids == [] then Success(Tables([], []))
    else
      match LoadTables(fs, path, ids[..|ids| - 1])
      case Failure(e) => Failure(e)
      case Success(t) =>
        var g := ids[|ids| - 1];
        if path(MW, g) !in fs then Failure(MissingFile(MW, g))
        else if path(M31, g) !in fs then Failure(MissingFile(M31, g))
        else Success(Tables(t.m31 + [fs[path(M31, g)]], t.mw + [fs[path(MW, g)]]))
  }

  /** Every file of every group exists. */
  predicate AllPresent(fs: map<string, Table>, path: (Host, int) -> string, ids: seq<int>)
  {
    forall g :: 0 <= g < |ids| ==> path(MW, ids[g]) in fs && path(M31, ids[g]) in fs
  }

  /** Loading succeeds exactly when both files of every group exist. */
  lemma {:induction false} LoadTablesSucceeds(fs: map<string, Table>, path: (Host, int) -> string, ids: seq<int>)
    ensures LoadTables(fs, path, ids).Success? <==> AllPresent(fs, path, ids)
    decreases |ids|
  {
    if ids != [] {
      var m := |ids| - 1;
      var pre := ids[..m];
      LoadTablesSucceeds(fs, path, pre);
      assert forall g :: 0 <= g < m ==> pre[g] == ids[g];
    }
  }

  /** After a successful load, table `g` of each host is the file of group `ids[g]`. */
  lemma {:induction false} LoadedTablesAreFiles(fs: map<string, Table>, path: (Host, int) -> string, ids: seq<int>)
    requires LoadTables(fs, path, ids).Success?
    ensures AllPresent(fs, path, ids)
    ensures var t := LoadTables(fs, path, ids).value;
      forall g :: 0 <= g < |ids| ==> t.m31[g] == fs[path(M31, ids[g])] && t.mw[g] == fs[path(MW, ids[g])]
    decreases |ids|
  {
    LoadTablesSucceeds(fs, path, ids);
    if ids != [] {
      var m := |ids| - 1;
      var pre := ids[..m];
      LoadedTablesAreFiles(fs, path, pre);
      assert forall g :: 0 <= g < m ==> pre[g] == ids[g];
    }
  }

  /** One more group: the load of the longer prefix opens that group's MW file, then its M31 file. */
  lemma LoadStep(fs: map<string, Table>, path: (Host, int) -> string, ids: seq<int>, g: nat, t: Tables)
    requires g < |ids| && LoadTables(fs, path, ids[..g]) == Success(t)
    ensures LoadTables(fs, path, ids[..g + 1]) ==
      if path(MW, ids[g]) !in fs then Failure(MissingFile(MW, ids[g]))
      else if path(M31, ids[g]) !in fs then Failure(MissingFile(M31, ids[g]))
      else Success(Tables(t.m31 + [fs[path(M31, ids[g])]], t.mw + [fs[path(MW, ids[g])]]))
  {
    assert ids[..g + 1][..g] == ids[..g];
  }

  /** Open the MW and the M31 table of every group, in group order; `path` names the file of a host and group. */
  method ReadTables(fs: map<string, Table>, path: (Host, int) -> string, ids: seq<int>) returns (r: Result<Tables, LoadError>)
    ensures r == LoadTables(fs, path, ids)
  {
    var m31Summary, mwSummary := [], [];
    for g := 0 to |ids|
      invariant LoadTables(fs, path, ids[..g]) == Success(Tables(m31Summary, mwSummary))
    {
      LoadStep(fs, path, ids, g, Tables(m31Summary, mwSummary));
      var filenameMW := path(MW, ids[g]);
      var filenameM31 := path(M31, ids[g]);
      if filenameMW !in fs {
        LoadFailurePersists(fs, path, ids, g + 1);
        return Failure(MissingFile(MW, ids[g]));
      }
      if filenameM31 !in fs {
        LoadFailurePersists(fs, path, ids, g + 1);
        return Failure(MissingFile(M31, ids[g]));
      }
      mwSummary := mwSummary + [fs[filenameMW]];
      m31Summary := m31Summary + [fs[filenameM31]];
    }
    assert ids[..|ids|] == ids;
    return Success(Tables(m31Summary, mwSummary));
  }

  /** Once a prefix of the groups fails to load, the whole load fails the same way. */
  lemma {:induction false} LoadFailurePersists(fs: map<string, Table>, path: (Host, int) -> string, ids: seq<int>, k: nat)
    requires k <= |ids| && LoadTables(fs, path, ids[..k]).Failure?
    ensures LoadTables(fs, path, ids) == LoadTables(fs, path, ids[..k])
    decreases |ids|
  {
    if k < |ids| {
      var m := |ids| - 1;
      assert ids[..m][..k] == ids[..k];
      LoadFailurePersists(fs, path, ids[..m], k);
    } else {
      assert ids[..k] == ids;
    }
  }

  // ---------------------------------------------------------------- tables too short to index

  /**
   * `data[field][0]` fails on a table with fewer than two rows (numpy squeezes a
   * single row to a scalar). The first group with such a table is the error; the
   * M31 table of a group is indexed before its MW table.
   */
  function FirstShort(m31s: seq<Table>, mws: seq<Table>, ids: seq<int>): (r: Option<LoadError>)
    requires |m31s| == |ids| && |mws| == |ids|
    ensures r.Some? ==> exists g :: 0 <= g < |ids| && ShortAt(m31s, mws, ids, g, r.value)
  {
    if ids == [] then None
    else
      var m := |ids| - 1;
      ShortAtPrefix(m31s, mws, ids, m);
      var before := FirstShort(m31s[..m], mws[..m], ids[..m]);
      if before.Some? then before
      else if |m31s[m]| < 2 then
        assert ShortAt(m31s, mws, ids, m, ShortTable(M31, ids[m]));
        Some(ShortTable(M31, ids[m]))
      else if |mws[m]| < 2 then
        assert ShortAt(m31s, mws, ids, m, ShortTable(MW, ids[m]));
        Some(ShortTable(MW, ids[m]))
      else None
  }

  /** `e` is the error for group `g`: its M31 table, or failing that its MW table, has fewer than two rows. */
  predicate ShortAt(m31s: seq<Table>, mws: seq<Table>, ids: seq<int>, g: nat, e: LoadError)
    requires |m31s| == |ids| && |mws| == |ids| && g < |ids|
  {
    || (e == ShortTable(M31, ids[g]) && |m31s[g]| < 2)
    || (e == ShortTable(MW, ids[g]) && |m31s[g]| >= 2 && |mws[g]| < 2)
  }

  lemma ShortAtPrefix(m31s: seq<Table>, mws: seq<Table>, ids: seq<int>, m: nat)
    requires |m31s| == |ids| && |mws| == |ids| && m <= |ids|
    ensures forall g, e :: 0 <= g < m && ShortAt(m31s[..m], mws[..m], ids[..m], g, e) ==> ShortAt(m31s, mws, ids, g, e)
  {
    assert forall g :: 0 <= g < m ==> m31s[..m][g] == m31s[g] && mws[..m][g] == mws[g] && ids[..m][g] == ids[g];
  }

  predicate AllLong(ts: seq<Table>)
  {
    forall g :: 0 <= g < |ts| ==> |ts[g]| >= 2
  }

  /** No error exactly when every table of both hosts has at least two rows. */
  lemma {:induction false} FirstShortNone(m31s: seq<Table>, mws: seq<Table>, ids: seq<int>)
    requires |m31s| == |ids| && |mws| == |ids|
    ensures FirstShort(m31s, mws, ids).None? <==> AllLong(m31s) && AllLong(mws)
    decreases |ids|
  {
    if ids != [] {
      var m := |ids| - 1;
      FirstShortNone(m31s[..m], mws[..m], ids[..m]);
      assert forall g :: 0 <= g < m ==> m31s[..m][g] == m31s[g] && mws[..m][g] == mws[g];
    }
  }

  /** While filling the first field: index row 0 of every table, stopping at the first that is too short. */
  method CheckTables(m31s: seq<Table>, mws: seq<Table>, ids: seq<int>) returns (r: Option<LoadError>)
    requires |m31s| == |ids| && |mws| == |ids|
    ensures r == FirstShort(m31s, mws, ids)
  {
    for g := 0 to |ids|
      invariant FirstShort(m31s[..g], mws[..g], ids[..g]).None?
    {
      assert m31s[..g + 1][..g] == m31s[..g] && mws[..g + 1][..g] == mws[..g] && ids[..g + 1][..g] == ids[..g];
      if |m31s[g]| < 2 {
        ShortPersists(m31s, mws, ids, g + 1);
        return Some(ShortTable(M31, ids[g]));
      }
      if |mws[g]| < 2 {
        ShortPersists(m31s, mws, ids, g + 1);
        return Some(ShortTable(MW, ids[g]));
      }
    }
    assert m31s[..|ids|] == m31s && mws[..|ids|] == mws && ids[..|ids|] == ids;
    return None;
  }

  lemma {:induction false} ShortPersists(m31s: seq<Table>, mws: seq<Table>, ids: seq<int>, k: nat)
    requires |m31s| == |ids| && |mws| == |ids| && k <= |ids|
    requires FirstShort(m31s[..k], mws[..k], ids[..k]).Some?
    ensures FirstShort(m31s, mws, ids) == FirstShort(m31s[..k], mws[..k], ids[..k])
    decreases |ids|
  {
    if k < |ids| {
      var m := |ids| - 1;
      assert m31s[..m][..k] == m31s[..k] && mws[..m][..k] == mws[..k] && ids[..m][..k] == ids[..k];
      ShortPersists(m31s[..m], mws[..m], ids[..m], k);
    } else {
      assert m31s[..k] == m31s && mws[..k] == mws && ids[..k] == ids;
    }
  }

  // ---------------------------------------------------------------- keys

  /** The keys of one field: the field name followed by each suffix. */
  function Block(f: string, sfx: seq<string>): seq<string>
  {
    seq(|sfx|, q requires 0 <= q < |sfx| => f + sfx[q])
  }

  /** The keys created for the fields `fs`, field by field. */
  function KeysFor(fs: seq<string>, sfx: seq<string>): seq<string>
  {
    if fs == [] then [] else KeysFor(fs[..|fs| - 1], sfx) + Block(fs[|fs| - 1], sfx)
  }

  /** `Fields[p] + sfx[q]` is a key of `KeysFor(Fields, sfx)`. */
  lemma {:induction false} KeyListed(fs: seq<string>, sfx: seq<string>, p: nat, q: nat)
    requires p < |fs| && q < |sfx|
    ensures fs[p] + sfx[q] in KeysFor(fs, sfx)
    decreases |fs|
  {
    var m := |fs| - 1;
    if p < m {
      KeyListed(fs[..m], sfx, p, q);
      assert fs[..m][p] == fs[p];
    } else {
      var block := seq(|sfx|, j requires 0 <= j < |sfx| => fs[m] + sfx[j]);
      assert block[q] == fs[p] + sfx[q];
    }
  }

  /** The first letters of the five fields, in order. */
  const Initials: string := "wmabc"

  /** The five fields start with five different letters. */
  lemma FieldInitials(p: nat, p': nat)
    requires p < |Fields| && p' < |Fields| && Fields[p][0] == Fields[p'][0]
    ensures p == p'
  {
    assert forall i :: 0 <= i < |Fields| ==> Fields[i] != [] && Fields[i][0] == Initials[i];
  }

  /** A suffix list whose entries all have different lengths. */
  predicate DistinctLengths(sfx: seq<string>)
  {
    forall q, q' :: 0 <= q < |sfx| && 0 <= q' < |sfx| && |sfx[q]| == |sfx[q']| ==> q == q'
  }

  /** Both suffix lists have suffixes of different lengths, so a field's keys differ from each other. */
  lemma SuffixLengths(fullData: bool)
    ensures DistinctLengths(Suffixes(fullData))
  {
  }

  /** Different (field, suffix) pairs give different keys. */
  lemma KeyInjective(sfx: seq<string>, p: nat, q: nat, p': nat, q': nat)
    requires DistinctLengths(sfx)
    requires p < |Fields| && p' < |Fields| && q < |sfx| && q' < |sfx|
    requires Fields[p] + sfx[q] == Fields[p'] + sfx[q']
    ensures p == p' && q == q'
  {
    var k := Fields[p] + sfx[q];
    assert k[0] == Fields[p][0];
    assert k[0] == Fields[p'][0];
    FieldInitials(p, p');
  }

  /** The keys of field `p` are new to the keys of the fields before it. */
  lemma BlockFresh(sfx: seq<string>, p: nat, q: nat)
    requires DistinctLengths(sfx) && p < |Fields| && q < |sfx|
    ensures Fields[p] + sfx[q] !in KeysFor(Fields[..p], sfx)
  {
    var k := Fields[p] + sfx[q];
    if k in KeysFor(Fields[..p], sfx) {
      var i, q' := KeysForMember(Fields[..p], sfx, k);
      assert Fields[..p][i] == Fields[i];
      KeyInjective(sfx, p, q, i, q');
    }
  }

  /** One more field appends its block of keys. */
  lemma KeysStep(sfx: seq<string>, p: nat)
    requires p < |Fields|
    ensures KeysFor(Fields[..p + 1], sfx) == KeysFor(Fields[..p], sfx) + Block(Fields[p], sfx)
  {
    assert Fields[..p + 1][..p] == Fields[..p];
  }

  lemma SummaryBlock(f: string)
    ensures Block(f, SummarySuffixes) == [f, f + "_sigma", f + "_random", f + "_random_sigma"]
  {
    assert f + "" == f;
  }

  lemma FullBlock(f: string)
    ensures Block(f, FullSuffixes) == [f, f + "_random"]
  {
    assert f + "" == f;
  }

  /** The four summary keys of field `p` are new, and they are what the field appends. */
  lemma SummaryKeysFresh(keys: seq<string>, p: nat)
    requires p < |Fields| && keys == KeysFor(Fields[..p], SummarySuffixes)
    ensures var f := Fields[p];
      && f !in keys && f + "_sigma" !in keys && f + "_random" !in keys && f + "_random_sigma" !in keys
      && KeysFor(Fields[..p + 1], SummarySuffixes) == keys + [f, f + "_sigma", f + "_random", f + "_random_sigma"]
  {
    var f, sfx := Fields[p], SummarySuffixes;
    SuffixLengths(false);
    KeysStep(sfx, p);
    var b := Block(f, sfx);
    SummaryBlock(f);
    BlockFresh(sfx, p, 0);
    BlockFresh(sfx, p, 1);
    BlockFresh(sfx, p, 2);
    BlockFresh(sfx, p, 3);
    assert b[0] == f + sfx[0] && b[1] == f + sfx[1] && b[2] == f + sfx[2] && b[3] == f + sfx[3];
  }

  /** The two full-mode keys of field `p` are new, and they are what the field appends. */
  lemma FullKeysFresh(keys: seq<string>, p: nat)
    requires p < |Fields| && keys == KeysFor(Fields[..p], FullSuffixes)
    ensures var f := Fields[p];
      && f !in keys && f + "_random" !in keys
      && KeysFor(Fields[..p + 1], FullSuffixes) == keys + [f, f + "_random"]
  {
    var f, sfx := Fields[p], FullSuffixes;
    SuffixLengths(true);
    KeysStep(sfx, p);
    var b := Block(f, sfx);
    FullBlock(f);
    BlockFresh(sfx, p, 0);
    BlockFresh(sfx, p, 1);
    assert b[0] == f + sfx[0] && b[1] == f + sfx[1];
  }

  // ---------------------------------------------------------------- creating the keys

  /** `np.empty(0)` in full mode, `np.ones(n_groups)` in summary mode. */
  function Blank(nGroups: nat, fullData: bool): seq<real>
  {
    if fullData then [] else Ones(nGroups)
  }

  /**
   * Create the keys of every field in order, each holding `np.empty(0)`
   * in full mode and `np.ones(n_groups)` in summary mode.
   */
  method InitExperiment(nGroups: nat, fullData: bool) returns (e: Experiment)
    ensures WellFormed(e) && e.keys == KeysFor(Fields, Suffixes(fullData))
    ensures forall k :: k in e.columns ==> e.columns[k] == Blank(nGroups, fullData)
  {
    if fullData {
      e := InitFull();
    } else {
      e := InitSummary(nGroups);
    }
  }

  /** Full mode: every field gets an empty column and an empty `_random` column. */
  method InitFull() returns (e: Experiment)
    ensures WellFormed(e) && e.keys == KeysFor(Fields, FullSuffixes)
    ensures forall k :: k in e.columns ==> e.columns[k] == []
  {
    e := Experiment([], map[]);
    for p := 0 to |Fields|
      invariant WellFormed(e) && e.keys == KeysFor(Fields[..p], FullSuffixes)
      invariant forall k :: k in e.columns ==> e.columns[k] == []
    {
      var field := Fields[p];
      ghost var before := e;
      e := Assign(e, field, []);
      e := Assign(e, field + "_random", []);
      FullKeysFresh(before.keys, p);
      assert |field + "_random"| == |field| + 7;
      AddTwoKeys(before, field, field + "_random", []);
    }
    assert Fields[..|Fields|] == Fields;
  }

  /** Creating two new keys holding `v` appends them to the key order. */
  lemma AddTwoKeys(e: Experiment, k1: string, k2: string, v: seq<real>)
    requires WellFormed(e) && k1 !in e.columns && k2 !in e.columns && k1 != k2
    requires forall k :: k in e.columns ==> e.columns[k] == v
    ensures var r := Assign(Assign(e, k1, v), k2, v);
      && WellFormed(r) && r.keys == e.keys + [k1, k2] && r.columns.Keys == e.columns.Keys + {k1, k2}
      && forall k :: k in r.columns ==> r.columns[k] == v
  {
  }

  /** Creating four new keys holding `v`, in order, appends them to the key order. */
  lemma AddFourKeys(e: Experiment, k1: string, k2: string, k3: string, k4: string, v: seq<real>)
    requires WellFormed(e) && forall k :: k in e.columns ==> e.columns[k] == v
    requires k1 !in e.columns && k2 !in e.columns && k3 !in e.columns && k4 !in e.columns
    requires k1 != k2 && k1 != k3 && k1 != k4 && k2 != k3 && k2 != k4 && k3 != k4
    ensures var r := Assign(Assign(Assign(Assign(e, k1, v), k2, v), k3, v), k4, v);
      && WellFormed(r) && r.keys == e.keys + [k1, k2, k3, k4]
      && forall k :: k in r.columns ==> r.columns[k] == v
  {
    AddTwoKeys(e, k1, k2, v);
    var e2 := Assign(Assign(e, k1, v), k2, v);
    AddTwoKeys(e2, k3, k4, v);
    AppendPairs(e.keys, k1, k2, k3, k4);
  }

  lemma AppendPairs<T>(s: seq<T>, x1: T, x2: T, x3: T, x4: T)
    ensures (s + [x1, x2]) + [x3, x4] == s + [x1, x2, x3, x4]
  {
  }

  /** Summary mode: every field gets four columns of `n_groups` ones. */
  method InitSummary(nGroups: nat) returns (e: Experiment)
    ensures WellFormed(e) && e.keys == KeysFor(Fields, SummarySuffixes)
    ensures forall k :: k in e.columns ==> e.columns[k] == Ones(nGroups)
  {
    e := Experiment([], map[]);
    var ones := Ones(nGroups);
    for p := 0 to |Fields|
      invariant WellFormed(e) && e.keys == KeysFor(Fields[..p], SummarySuffixes)
      invariant forall k :: k in e.columns ==> e.columns[k] == ones
    {
      var field := Fields[p];
      ghost var before := e;
      e := Assign(e, field, ones);
      e := Assign(e, field + "_sigma", ones);
      e := Assign(e, field + "_random", ones);
      e := Assign(e, field + "_random_sigma", ones);
      SummaryKeysFresh(before.keys, p);
      assert |field + "_sigma"| == |field| + 6 && |field + "_random"| == |field| + 7;
      assert |field + "_random_sigma"| == |field| + 13;
      AddFourKeys(before, field, field + "_sigma", field + "_random", field + "_random_sigma", ones);
    }
    assert Fields[..|Fields|] == Fields;
  }

  /** Every key of `KeysFor(fs, sfx)` is one of the fields followed by one of the suffixes. */
  lemma {:induction false} KeysForMember(fs: seq<string>, sfx: seq<string>, k: string) returns (p: nat, q: nat)
    requires k in KeysFor(fs, sfx)
    ensures p < |fs| && q < |sfx| && k == fs[p] + sfx[q]
    decreases |fs|
  {
    var m := |fs| - 1;
    if k in KeysFor(fs[..m], sfx) {
      p, q := KeysForMember(fs[..m], sfx, k);
      assert fs[..m][p] == fs[p];
    } else {
      p := m;
      q :| 0 <= q < |sfx| && k == Block(fs[m], sfx)[q];
    }
  }

  /** Different (field, suffix) pairs give different keys. */
  lemma KeyDiffers(sfx: seq<string>, p: nat, q: nat, p': nat, q': nat)
    requires DistinctLengths(sfx)
    requires p < |Fields| && p' < |Fields| && q < |sfx| && q' < |sfx|
    requires p != p' || q != q'
    ensures Fields[p] + sfx[q] != Fields[p'] + sfx[q']
  {
    if Fields[p] + sfx[q] == Fields[p'] + sfx[q'] {
      KeyInjective(sfx, p, q, p', q');
    }
  }

  // ---------------------------------------------------------------- filling the columns

  /**
   * Entry `g` of column `f + SummarySuffixes[q]` in summary mode, from the table of
   * group `g`: `np.average` and `np.std` of the observed value, then of its controls.
   */
  function SummaryEntry(t: Table, f: string, q: nat, sqrt: real -> real): (r: real)
    requires f in Fields && q < |SummarySuffixes| && |t| >= 2
    ensures q == 0 ==> r == Value(t[0], f)
    ensures q == 1 ==> r == sqrt(0.0)
  {
    var x, controls := Value(t[0], f), Controls(t, f);
    AverageConstant([x], x);
    StdOfSingleValue(x, sqrt);
    if q == 0 then Average([x])
    else if q == 1 then Std([x], sqrt)
    else if q == 2 then Average(controls)
    else Std(controls, sqrt)
  }

  /** Column `f + SummarySuffixes[q]` in summary mode: one entry per group. */
  function SummaryColumn(ts: seq<Table>, f: string, q: nat, sqrt: real -> real): (c: seq<real>)
    requires f in Fields && q < |SummarySuffixes| && AllLong(ts)
    ensures |c| == |ts|
  {
    seq(|ts|, g requires 0 <= g < |ts| => SummaryEntry(ts[g], f, q, sqrt))
  }

  /** The observed values of field `f`, one per group (full mode). */
  function FullValues(ts: seq<Table>, f: string): (c: seq<real>)
    requires f in Fields && AllLong(ts)
    ensures |c| == |ts| && forall g :: 0 <= g < |ts| ==> c[g] == Value(ts[g][0], f)
  {
    seq(|ts|, g requires 0 <= g < |ts| => Value(ts[g][0], f))
  }

  /** The controls of field `f` of every group, concatenated in group order (full mode). */
  function FullControls(ts: seq<Table>, f: string): (c: seq<real>)
    requires f in Fields
    ensures |c| <= 100 * |ts|
    ensures AllLong(ts) ==> |c| >= |ts|
  {
    if ts == [] then [] else FullControls(ts[..|ts| - 1], f) + Controls(ts[|ts| - 1], f)
  }

  /** Column `f + FullSuffixes[q]` in full mode. */
  function FullColumn(ts: seq<Table>, f: string, q: nat): seq<real>
    requires f in Fields && q < |FullSuffixes| && AllLong(ts)
  {
    if q == 0 then FullValues(ts, f) else FullControls(ts, f)
  }

  /** `k` is a key of `e` holding `c`. */
  predicate HasColumn(e: Experiment, k: string, c: seq<real>)
  {
    k in e.columns && e.columns[k] == c
  }

  /** `e` is the summary-mode experiment built from the tables `ts`. */
  predicate IsSummaryOf(e: Experiment, ts: seq<Table>, sqrt: real -> real)
    requires AllLong(ts)
    ensures IsSummaryOf(e, ts, sqrt) ==> e.keys != [] && e.keys[0] == "width"
  {
    KeysForHead(Fields, SummarySuffixes);
    assert "width" + SummarySuffixes[0] == "width";
    && WellFormed(e) && e.keys == KeysFor(Fields, SummarySuffixes)
    && forall p, q :: 0 <= p < |Fields| && 0 <= q < |SummarySuffixes| ==>
      HasColumn(e, Fields[p] + SummarySuffixes[q], SummaryColumn(ts, Fields[p], q, sqrt))
  }

  /** `e` is the full-mode experiment built from the tables `ts`. */
  predicate IsFullOf(e: Experiment, ts: seq<Table>)
    requires AllLong(ts)
    ensures IsFullOf(e, ts) ==> e.keys != [] && e.keys[0] == "width"
  {
    KeysForHead(Fields, FullSuffixes);
    assert "width" + FullSuffixes[0] == "width";
    && WellFormed(e) && e.keys == KeysFor(Fields, FullSuffixes)
    && forall p, q :: 0 <= p < |Fields| && 0 <= q < |FullSuffixes| ==>
      HasColumn(e, Fields[p] + FullSuffixes[q], FullColumn(ts, Fields[p], q))
  }

  /**
   * The fields before `p` hold their summary columns; the others still hold the
   * `np.ones(n_groups)` they were created with.
   */
  predicate SummaryFilled(e: Experiment, ts: seq<Table>, sqrt: real -> real, p: nat)
    requires AllLong(ts)
  {
    forall p', q :: 0 <= p' < |Fields| && 0 <= q < |SummarySuffixes| ==>
      HasColumn(e, Fields[p'] + SummarySuffixes[q], if p' < p then SummaryColumn(ts, Fields[p'], q, sqrt) else Ones(|ts|))
  }

  /** The four columns of the next field are there, still all ones. */
  lemma SummaryPending(e: Experiment, ts: seq<Table>, sqrt: real -> real, p: nat)
    requires AllLong(ts) && p < |Fields| && SummaryFilled(e, ts, sqrt, p)
    ensures var f, n := Fields[p], |ts|;
      && HasColumn(e, f, Ones(n)) && HasColumn(e, f + "_sigma", Ones(n))
      && HasColumn(e, f + "_random", Ones(n)) && HasColumn(e, f + "_random_sigma", Ones(n))
  {
    SummaryBlock(Fields[p]);
    var b := Block(Fields[p], SummarySuffixes);
    assert b[0] == Fields[p] + SummarySuffixes[0] && b[1] == Fields[p] + SummarySuffixes[1];
    assert b[2] == Fields[p] + SummarySuffixes[2] && b[3] == Fields[p] + SummarySuffixes[3];
  }

  /** Four updates at distinct keys: each key holds its value, every other key is untouched. */
  lemma FourUpdates<K, V>(m: map<K, V>, k0: K, k1: K, k2: K, k3: K, v0: V, v1: V, v2: V, v3: V, x: K)
    requires k0 != k1 && k0 != k2 && k0 != k3 && k1 != k2 && k1 != k3 && k2 != k3
    ensures var m' := m[k0 := v0][k1 := v1][k2 := v2][k3 := v3];
      && (x == k0 ==> m'[x] == v0) && (x == k1 ==> m'[x] == v1)
      && (x == k2 ==> m'[x] == v2) && (x == k3 ==> m'[x] == v3)
      && (x != k0 && x != k1 && x != k2 && x != k3 && x in m ==> x in m' && m'[x] == m[x])
  {
  }

  /** Storing the four finished columns of field `p` moves the boundary past it. */
  lemma SummaryStored(before: Experiment, e: Experiment, ts: seq<Table>, sqrt: real -> real, p: nat)
    requires AllLong(ts) && p < |Fields| && SummaryFilled(before, ts, sqrt, p)
    requires var f := Fields[p];
      e.columns == before.columns[f := SummaryColumn(ts, f, 0, sqrt)][f + "_sigma" := SummaryColumn(ts, f, 1, sqrt)]
        [f + "_random" := SummaryColumn(ts, f, 2, sqrt)][f + "_random_sigma" := SummaryColumn(ts, f, 3, sqrt)]
    ensures SummaryFilled(e, ts, sqrt, p + 1)
  {
    var sfx := SummarySuffixes;
    var f := Fields[p];
    SummaryBlock(f);
    var b := Block(f, sfx);
    var c := seq(4, q requires 0 <= q < 4 => SummaryColumn(ts, f, q, sqrt));
    assert b == [f, f + "_sigma", f + "_random", f + "_random_sigma"];
    assert e.columns == before.columns[b[0] := c[0]][b[1] := c[1]][b[2] := c[2]][b[3] := c[3]];
    SuffixLengths(false);
    KeyDiffers(sfx, p, 0, p, 1);
    KeyDiffers(sfx, p, 0, p, 2);
    KeyDiffers(sfx, p, 0, p, 3);
    KeyDiffers(sfx, p, 1, p, 2);
    KeyDiffers(sfx, p, 1, p, 3);
    KeyDiffers(sfx, p, 2, p, 3);
    forall p', q | 0 <= p' < |Fields| && 0 <= q < |sfx|
      ensures HasColumn(e, Fields[p'] + sfx[q], if p' < p + 1 then SummaryColumn(ts, Fields[p'], q, sqrt) else Ones(|ts|))
    {
      var k := Fields[p'] + sfx[q];
      FourUpdates(before.columns, b[0], b[1], b[2], b[3], c[0], c[1], c[2], c[3], k);
      if p' != p {
        KeyDiffers(sfx, p', q, p, 0);
        KeyDiffers(sfx, p', q, p, 1);
        KeyDiffers(sfx, p', q, p, 2);
        KeyDiffers(sfx, p', q, p, 3);
      } else {
        assert k == b[q];
      }
    }
  }

  /** One field in summary mode: entry `g` of the four columns from the table of group `g`. */
  method SummarizeField(ts: seq<Table>, field: string, sqrt: real -> real,
                        a0: seq<real>, aSigma0: seq<real>, aRandom0: seq<real>, aRandomSigma0: seq<real>)
    returns (a: seq<real>, aSigma: seq<real>, aRandom: seq<real>, aRandomSigma: seq<real>)
    requires field in Fields && AllLong(ts)
    requires |a0| == |ts| && |aSigma0| == |ts| && |aRandom0| == |ts| && |aRandomSigma0| == |ts|
    ensures a == SummaryColumn(ts, field, 0, sqrt) && aSigma == SummaryColumn(ts, field, 1, sqrt)
    ensures aRandom == SummaryColumn(ts, field, 2, sqrt) && aRandomSigma == SummaryColumn(ts, field, 3, sqrt)
  {
    a, aSigma, aRandom, aRandomSigma := a0, aSigma0, aRandom0, aRandomSigma0;
    for g := 0 to |ts|
      invariant |a| == |ts| && |aSigma| == |ts| && |aRandom| == |ts| && |aRandomSigma| == |ts|
      invariant forall j :: 0 <= j < g ==>
        && a[j] == SummaryEntry(ts[j], field, 0, sqrt) && aSigma[j] == SummaryEntry(ts[j], field, 1, sqrt)
        && aRandom[j] == SummaryEntry(ts[j], field, 2, sqrt) && aRandomSigma[j] == SummaryEntry(ts[j], field, 3, sqrt)
    {
      var data := ts[g];
      var x := Value(data[0], field);
      var xRandom := Controls(data, field);
      a := a[g := Average([x])];
      aSigma := aSigma[g := Std([x], sqrt)];
      aRandom := aRandom[g := Average(xRandom)];
      aRandomSigma := aRandomSigma[g := Std(xRandom, sqrt)];
    }
  }

  /**
   * Summary mode: for each field, write entry `g` of its four columns
   * from the table of group `g`. The arrays are updated in place inside the dict; here
   * each column is taken out, updated entry by entry, and stored back.
   */
  method FillSummary(init: Experiment, ts: seq<Table>, sqrt: real -> real) returns (e: Experiment)
    requires AllLong(ts)
    requires WellFormed(init) && init.keys == KeysFor(Fields, SummarySuffixes)
    requires forall k :: k in init.columns ==> init.columns[k] == Ones(|ts|)
    ensures IsSummaryOf(e, ts, sqrt)
  {
    e := init;
    forall p, q | 0 <= p < |Fields| && 0 <= q < |SummarySuffixes|
      ensures HasColumn(e, Fields[p] + SummarySuffixes[q], Ones(|ts|))
    {
      KeyListed(Fields, SummarySuffixes, p, q);
    }
    for p := 0 to |Fields|
      invariant WellFormed(e) && e.keys == init.keys
      invariant SummaryFilled(e, ts, sqrt, p)
    {
      var field := Fields[p];
      SummaryPending(e, ts, sqrt, p);
      var a, aSigma, aRandom, aRandomSigma := SummarizeField(ts, field, sqrt,
        e.columns[field], e.columns[field + "_sigma"], e.columns[field + "_random"], e.columns[field + "_random_sigma"]);
      ghost var before := e;
      e := Assign(e, field, a);
      e := Assign(e, field + "_sigma", aSigma);
      e := Assign(e, field + "_random", aRandom);
      e := Assign(e, field + "_random_sigma", aRandomSigma);
      SummaryStored(before, e, ts, sqrt, p);
    }
  }

  /** The fields before `p` hold their full-mode columns; the others are still empty. */
  predicate FullFilled(e: Experiment, ts: seq<Table>, p: nat)
    requires AllLong(ts)
  {
    forall p', q :: 0 <= p' < |Fields| && 0 <= q < |FullSuffixes| ==>
      HasColumn(e, Fields[p'] + FullSuffixes[q], if p' < p then FullColumn(ts, Fields[p'], q) else [])
  }

  /** The two columns of the next field are there, still empty. */
  lemma FullPending(e: Experiment, ts: seq<Table>, p: nat)
    requires AllLong(ts) && p < |Fields| && FullFilled(e, ts, p)
    ensures HasColumn(e, Fields[p], []) && HasColumn(e, Fields[p] + "_random", [])
  {
    FullBlock(Fields[p]);
    var b := Block(Fields[p], FullSuffixes);
    assert b[0] == Fields[p] + FullSuffixes[0] && b[1] == Fields[p] + FullSuffixes[1];
  }

  /** Storing the two finished columns of field `p` moves the boundary past it. */
  lemma FullStored(before: Experiment, e: Experiment, ts: seq<Table>, p: nat)
    requires AllLong(ts) && p < |Fields| && FullFilled(before, ts, p)
    requires var f := Fields[p];
      e.columns == before.columns[f := FullValues(ts, f)][f + "_random" := FullControls(ts, f)]
    ensures FullFilled(e, ts, p + 1)
  {
    var sfx := FullSuffixes;
    var f := Fields[p];
    FullBlock(f);
    var b := Block(f, sfx);
    assert b[0] == f + sfx[0] && b[1] == f + sfx[1];
    forall p', q | 0 <= p' < |Fields| && 0 <= q < |sfx|
      ensures HasColumn(e, Fields[p'] + sfx[q], if p' < p + 1 then FullColumn(ts, Fields[p'], q) else [])
    {
      if p' != p {
        KeyDiffers(sfx, p', q, p, 0);
        KeyDiffers(sfx, p', q, p, 1);
      } else {
        assert Fields[p'] + sfx[q] == b[q];
      }
    }
  }

  /** One more group: its value and its controls go at the end of the full-mode columns. */
  lemma FullStep(ts: seq<Table>, f: string, g: nat)
    requires f in Fields && AllLong(ts) && g < |ts|
    ensures AllLong(ts[..g]) && AllLong(ts[..g + 1])
    ensures FullValues(ts[..g + 1], f) == FullValues(ts[..g], f) + [Value(ts[g][0], f)]
    ensures FullControls(ts[..g + 1], f) == FullControls(ts[..g], f) + Controls(ts[g], f)
  {
    assert ts[..g + 1][..g] == ts[..g];
  }

  /** One field in full mode: append every group's value and its controls. */
  method CollectField(ts: seq<Table>, field: string, a0: seq<real>, aRandom0: seq<real>)
    returns (a: seq<real>, aRandom: seq<real>)
    requires field in Fields && AllLong(ts)
    ensures a == a0 + FullValues(ts, field)
    ensures aRandom == aRandom0 + FullControls(ts, field)
  {
    a, aRandom := a0, aRandom0;
    assert ts[..0] == [];
    for g := 0 to |ts|
      invariant AllLong(ts[..g])
      invariant a == a0 + FullValues(ts[..g], field)
      invariant aRandom == aRandom0 + FullControls(ts[..g], field)
    {
      FullStep(ts, field, g);
      var data := ts[g];
      var x := Value(data[0], field);
      var xRandom := Controls(data, field);
      AppendAssoc(a0, FullValues(ts[..g], field), [x]);
      AppendAssoc(aRandom0, FullControls(ts[..g], field), xRandom);
      a := a + [x];
      aRandom := aRandom + xRandom;
    }
    assert ts[..|ts|] == ts;
  }

  /**
   * Full mode: for each field, append the observed value of every
   * group to its column and the group's controls to its `_random` column.
   */
  method FillFull(init: Experiment, ts: seq<Table>) returns (e: Experiment)
    requires AllLong(ts)
    requires WellFormed(init) && init.keys == KeysFor(Fields, FullSuffixes)
    requires forall k :: k in init.columns ==> init.columns[k] == []
    ensures IsFullOf(e, ts)
  {
    e := init;
    forall p, q | 0 <= p < |Fields| && 0 <= q < |FullSuffixes|
      ensures HasColumn(e, Fields[p] + FullSuffixes[q], [])
    {
      KeyListed(Fields, FullSuffixes, p, q);
    }
    for p := 0 to |Fields|
      invariant WellFormed(e) && e.keys == init.keys
      invariant FullFilled(e, ts, p)
    {
      var field := Fields[p];
      FullPending(e, ts, p);
      var a, aRandom := CollectField(ts, field, e.columns[field], e.columns[field + "_random"]);
      assert a == FullValues(ts, field) && aRandom == FullControls(ts, field);
      ghost var before := e;
      e := Assign(e, field, a);
      e := Assign(e, field + "_random", aRandom);
      FullStored(before, e, ts, p);
    }
  }

  // ---------------------------------------------------------------- load_experiment

  /** The group ids and their tables, once every file was found and is long enough. */
  datatype Found = Found(ids: seq<int>, tables: Tables)

  /**
   * What `load_experiment` finds before it fills the columns: the first bad file
   * name, else the first missing file, else the first table too short to index.
   */
  function LoadOutcome(files: seq<string>, fs: map<string, Table>, dir: string, nSat: int): (r: Result<Found, LoadError>)
    ensures r.Success? ==>
      && |r.value.tables.m31| == |r.value.ids| && |r.value.tables.mw| == |r.value.ids|
      && AllLong(r.value.tables.m31) && AllLong(r.value.tables.mw)
  {
    match GroupIds(files)
    case Failure(e) => Failure(BadName(e))
    case Success(ids) =>
      match LoadTables(fs, PathOf(dir, nSat), ids)
      case Failure(e) => Failure(e)
      case Success(t) =>
        var short := FirstShort(t.m31, t.mw, ids);
        if short.Some? then Failure(short.value)
        else
          FirstShortNone(t.m31, t.mw, ids);
          Success(Found(ids, t))
  }

  /** Both files of every group exist and have at least two rows. */
  predicate FilesUsable(fs: map<string, Table>, path: (Host, int) -> string, ids: seq<int>)
  {
    forall g :: 0 <= g < |ids| ==>
      && path(M31, ids[g]) in fs && path(MW, ids[g]) in fs
      && |fs[path(M31, ids[g])]| >= 2 && |fs[path(MW, ids[g])]| >= 2
  }

  /** Opening and indexing the tables both succeed exactly when every file exists and is long enough. */
  lemma TablesUsable(fs: map<string, Table>, path: (Host, int) -> string, ids: seq<int>)
    ensures (LoadTables(fs, path, ids).Success? &&
             FirstShort(LoadTables(fs, path, ids).value.m31, LoadTables(fs, path, ids).value.mw, ids).None?)
      <==> FilesUsable(fs, path, ids)
  {
    LoadTablesSucceeds(fs, path, ids);
    if LoadTables(fs, path, ids).Success? {
      var t := LoadTables(fs, path, ids).value;
      LoadedTablesAreFiles(fs, path, ids);
      FirstShortNone(t.m31, t.mw, ids);
    }
  }

  /**
   * Loading succeeds exactly when every listed name yields an id and both files of
   * every group exist at their summary paths with at least two rows.
   */
  lemma LoadOutcomeSucceeds(files: seq<string>, fs: map<string, Table>, dir: string, nSat: int)
    ensures LoadOutcome(files, fs, dir, nSat).Success? <==>
      GroupIds(files).Success? && FilesUsable(fs, PathOf(dir, nSat), GroupIds(files).value)
  {
    if GroupIds(files).Success? {
      TablesUsable(fs, PathOf(dir, nSat), GroupIds(files).value);
    }
  }

  /** After a successful load, the ids are the parsed ones and the tables are the files of those groups. */
  lemma LoadOutcomeTables(files: seq<string>, fs: map<string, Table>, dir: string, nSat: int)
    requires LoadOutcome(files, fs, dir, nSat).Success?
    ensures var found := LoadOutcome(files, fs, dir, nSat).value;
      && found.ids == GroupIds(files).value
      && forall g :: 0 <= g < |found.ids| ==>
        && SummaryPath(dir, M31, found.ids[g], nSat) in fs && SummaryPath(dir, MW, found.ids[g], nSat) in fs
        && found.tables.m31[g] == fs[SummaryPath(dir, M31, found.ids[g], nSat)]
        && found.tables.mw[g] == fs[SummaryPath(dir, MW, found.ids[g], nSat)]
  {
    var ids := GroupIds(files).value;
    LoadedTablesAreFiles(fs, PathOf(dir, nSat), ids);
  }

  /**
   * `load_experiment`: the group ids from the file names, then the key creation,
   * the tables, and the columns filled in summary or in full mode. File access is
   * the map `fs` from paths to tables, `files` is what the glob returned, and
   * `sqrt` is the square root `np.std` uses.
   */
  method LoadExperiment(files: seq<string>, fs: map<string, Table>, dir: string, nSat: int,
                        fullData: bool, sqrt: real -> real) returns (r: Result<Loaded, LoadError>)
    ensures r.Failure? <==> LoadOutcome(files, fs, dir, nSat).Failure?
    ensures r.Failure? ==> r.error == LoadOutcome(files, fs, dir, nSat).error
    ensures r.Success? ==>
      var t := LoadOutcome(files, fs, dir, nSat).value.tables;
      if fullData then IsFullOf(r.value.m31, t.m31) && IsFullOf(r.value.mw, t.mw)
      else IsSummaryOf(r.value.m31, t.m31, sqrt) && IsSummaryOf(r.value.mw, t.mw, sqrt)
  {
    var groupId := DiscoverGroups(files);
    if groupId.Failure? {
      return Failure(BadName(groupId.error));
    }
    var ids := groupId.value;
    var nGroups := |ids|;
    var m31All := InitExperiment(nGroups, fullData);
    var mwAll := InitExperiment(nGroups, fullData);
    var summaries := ReadTables(fs, PathOf(dir, nSat), ids);
    if summaries.Failure? {
      return Failure(summaries.error);
    }
    var t := summaries.value;
    var short := CheckTables(t.m31, t.mw, ids);
    if short.Some? {
      return Failure(short.value);
    }
    FirstShortNone(t.m31, t.mw, ids);
    if fullData {
      m31All := FillFull(m31All, t.m31);
      mwAll := FillFull(mwAll, t.mw);
    } else {
      m31All := FillSummary(m31All, t.m31, sqrt);
      mwAll := FillSummary(mwAll, t.mw, sqrt);
    }
    return Success(Loaded(m31All, mwAll));
  }

  // ---------------------------------------------------------------- what the loaded columns hold

  /** The first key created is the first field with the first suffix. */
  lemma {:induction false} KeysForHead(fs: seq<string>, sfx: seq<string>)
    requires fs != [] && sfx != []
    ensures KeysFor(fs, sfx) != [] && KeysFor(fs, sfx)[0] == fs[0] + sfx[0]
    decreases |fs|
  {
    var m := |fs| - 1;
    if m > 0 {
      KeysForHead(fs[..m], sfx);
    }
  }

  /**
   * In summary mode, entry `g` of a field's columns is the observed value of group
   * `g` (row 0), a zero spread (the square root of 0), and the average and
   * spread of its controls (rows 1 to 100).
   */
  lemma {:induction false} SummaryEntries(e: Experiment, ts: seq<Table>, sqrt: real -> real, f: string, g: nat)
    requires AllLong(ts) && IsSummaryOf(e, ts, sqrt) && f in Fields && g < |ts|
    ensures f in e.columns && f + "_sigma" in e.columns && f + "_random" in e.columns && f + "_random_sigma" in e.columns
    ensures |e.columns[f]| == |ts| && e.columns[f][g] == Value(ts[g][0], f)
    ensures |e.columns[f + "_sigma"]| == |ts| && e.columns[f + "_sigma"][g] == sqrt(0.0)
    ensures |e.columns[f + "_random"]| == |ts| && e.columns[f + "_random"][g] == Average(Controls(ts[g], f))
    ensures |e.columns[f + "_random_sigma"]| == |ts| && e.columns[f + "_random_sigma"][g] == Std(Controls(ts[g], f), sqrt)
  {
    var p :| 0 <= p < |Fields| && Fields[p] == f;
    SummaryBlock(f);
    var b := Block(f, SummarySuffixes);
    assert b[0] == f + SummarySuffixes[0] && b[1] == f + SummarySuffixes[1];
    assert b[2] == f + SummarySuffixes[2] && b[3] == f + SummarySuffixes[3];
  }

  /**
   * In summary mode every column has one entry per group, so the experiment is
   * uniform and `points_in_experiment` (which reads `width`, the first key) counts the groups.
   */
  lemma {:induction false} SummaryShape(e: Experiment, ts: seq<Table>, sqrt: real -> real)
    requires AllLong(ts) && IsSummaryOf(e, ts, sqrt)
    ensures e.keys != [] && e.keys[0] == "width"
    ensures Uniform(e) && PointsIn(e) == |ts|
  {
    KeysForHead(Fields, SummarySuffixes);
    assert "width" + "" == "width";
    forall k | k in e.columns
      ensures |e.columns[k]| == |ts|
    {
      var p, q := KeysForMember(Fields, SummarySuffixes, k);
    }
  }

  /**
   * A summary experiment of at least three groups whose normalised fields have
   * nonzero control spreads is ready for `jacknife_covariance`.
   */
  lemma {:induction false} SummaryJackknifeReady(e: Experiment, ts: seq<Table>, sqrt: real -> real)
    requires AllLong(ts) && IsSummaryOf(e, ts, sqrt) && |ts| >= 3
    requires forall g, i :: 0 <= g < |ts| && 0 <= i < |NormFields| ==> Std(Controls(ts[g], NormFields[i]), sqrt) != 0.0
    ensures JackknifeReady(e) && PointsIn(e) == |ts|
  {
    SummaryShape(e, ts, sqrt);
    forall i | 0 <= i < |NormFields|
      ensures FieldNormalizable(e, NormFields[i], |ts|)
    {
      var f := NormFields[i];
      assert f in Fields;
      SummaryEntries(e, ts, sqrt, f, 0);
      forall g | 0 <= g < |ts|
        ensures e.columns[f + "_random_sigma"][g] != 0.0
      {
        SummaryEntries(e, ts, sqrt, f, g);
      }
    }
  }

  /**
   * In full mode each field holds one observed value per group, its `_random` key
   * holds every group's controls one after another, and there are no sigma keys.
   */
  lemma {:induction false} FullShape(e: Experiment, ts: seq<Table>, f: string)
    requires AllLong(ts) && IsFullOf(e, ts) && f in Fields
    ensures f in e.columns && |e.columns[f]| == |ts|
    ensures forall g :: 0 <= g < |ts| ==> e.columns[f][g] == Value(ts[g][0], f)
    ensures f + "_random" in e.columns && e.columns[f + "_random"] == FullControls(ts, f)
    ensures f + "_sigma" !in e.columns && f + "_random_sigma" !in e.columns
  {
    var p :| 0 <= p < |Fields| && Fields[p] == f;
    FullBlock(f);
    var b := Block(f, FullSuffixes);
    assert b[0] == f + FullSuffixes[0] && b[1] == f + FullSuffixes[1];
    NotFullKey(f, "_sigma");
    NotFullKey(f, "_random_sigma");
  }

  /** A field followed by a suffix of neither full-mode length is not a full-mode key. */
  lemma NotFullKey(f: string, sfx: string)
    requires f in Fields && |sfx| != 0 && |sfx| != 7
    ensures f + sfx !in KeysFor(Fields, FullSuffixes)
  {
    var p :| 0 <= p < |Fields| && Fields[p] == f;
    if f + sfx in KeysFor(Fields, FullSuffixes) {
      var p', q := KeysForMember(Fields, FullSuffixes, f + sfx);
      assert Fields[p'] != [] && f != [];
      assert (f + sfx)[0] == f[0];
      assert (Fields[p'] + FullSuffixes[q])[0] == Fields[p'][0];
      FieldInitials(p, p');
    }
  }

  /** A summary and a full load of the same tables hold the same column for every field. */
  lemma ModesAgreeOnValues(ts: seq<Table>, sqrt: real -> real, summary: Experiment, full: Experiment, f: string)
    requires AllLong(ts) && IsSummaryOf(summary, ts, sqrt) && IsFullOf(full, ts) && f in Fields
    ensures f in summary.columns && f in full.columns && summary.columns[f] == full.columns[f]
  {
    var p :| 0 <= p < |Fields| && Fields[p] == f;
    assert f + "" == f;
    assert HasColumn(summary, Fields[p] + SummarySuffixes[0], SummaryColumn(ts, f, 0, sqrt));
    assert HasColumn(full, Fields[p] + FullSuffixes[0], FullColumn(ts, f, 0));
    assert SummaryColumn(ts, f, 0, sqrt) == FullValues(ts, f);
  }
}
