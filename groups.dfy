/**
 * Group discovery in `load_experiment`: every matched summary file name is split on
 * '_', the third-from-last piece is read as a decimal integer, and the ids are kept
 * once each, in the order they are first seen (no sorting).
 */
module Groups {
  import opened Results

  /** Why a file name yields no group id (Python's IndexError and ValueError). */
  datatype NameError =
    | TooFewPieces(name: string)   // fewer than three '_'-separated pieces: `[-3]` is out of range
    | NotAnInteger(name: string)   // the third-from-last piece is not a decimal integer

  /** Python's `s.split(sep)`: the pieces between separators, empty pieces included. */
  function Split(s: string, sep: char): (r: seq<string>)
    ensures |r| >= 1
    ensures forall k :: 0 <= k < |r| ==> sep !in r[k]
  {
    if s == [] then [[]]
    else
      var rest := Split(s[1..], sep);
      if s[0] == sep then [[]] + rest
      else [[s[0]] + rest[0]] + rest[1..]
  }

  /** Python's `sep.join(pieces)`, the inverse of `Split`. */
  function Join(pieces: seq<string>, sep: char): string
  {
    if pieces == [] then []
    else if |pieces| == 1 then pieces[0]
    else pieces[0] + [sep] + Join(pieces[1..], sep)
  }

  /** Joining the pieces of a split gives back the original string. */
  lemma {:induction false} SplitJoin(s: string, sep: char)
    ensures Join(Split(s, sep), sep) == s
  {
    if s != [] {
      var rest := Split(s[1..], sep);
      SplitJoin(s[1..], sep);
      if s[0] == sep {
        assert Join([[]] + rest, sep) == [] + [sep] + Join(rest, sep);
      } else if |rest| == 1 {
        assert Split(s, sep) == [[s[0]] + rest[0]];
      } else {
        assert Join(rest, sep) == rest[0] + [sep] + Join(rest[1..], sep);
        assert ([[s[0]] + rest[0]] + rest[1..])[1..] == rest[1..];
      }
    }
  }

  lemma {:induction false} SplitWithoutSeparator(s: string, sep: char)
    requires sep !in s
    ensures Split(s, sep) == [s]
  {
    if s != [] {
      SplitWithoutSeparator(s[1..], sep);
      assert [s[0]] + s[1..] == s;
    }
  }

  lemma AppendAssoc<T>(s: seq<T>, u: seq<T>, v: seq<T>)
    ensures (s + u) + v == s + (u + v)
  {
  }

  /** Splitting at one separator splits each side independently. */
  lemma {:induction false} SplitConcat(a: string, b: string, sep: char)
    ensures Split(a + [sep] + b, sep) == Split(a, sep) + Split(b, sep)
  {
    var s := a + [sep] + b;
    var rb := Split(b, sep);
    if a == [] {
      assert s == [sep] + b;
      assert s[1..] == b;
      assert Split(s, sep) == [[]] + rb;
    } else {
      assert s[0] == a[0] && s[1..] == a[1..] + [sep] + b;
      SplitConcat(a[1..], b, sep);
      var ra := Split(a[1..], sep);
      var rest := Split(s[1..], sep);
      assert rest == ra + rb;
      if a[0] == sep {
        assert Split(s, sep) == [[]] + rest;
        assert Split(a, sep) == [[]] + ra;
        AppendAssoc([[]], ra, rb);
      } else {
        assert Split(s, sep) == [[s[0]] + rest[0]] + rest[1..];
        assert Split(a, sep) == [[a[0]] + ra[0]] + ra[1..];
        assert rest[0] == ra[0];
        assert rest[1..] == ra[1..] + rb;
        AppendAssoc([[a[0]] + ra[0]], ra[1..], rb);
      }
    }
  }

  /** Splitting a join of separator-free pieces gives back the pieces. */
  lemma {:induction false} JoinSplit(pieces: seq<string>, sep: char)
    requires |pieces| >= 1
    requires forall k :: 0 <= k < |pieces| ==> sep !in pieces[k]
    ensures Split(Join(pieces, sep), sep) == pieces
  {
    if |pieces| == 1 {
      SplitWithoutSeparator(pieces[0], sep);
    } else {
      JoinSplit(pieces[1..], sep);
      SplitConcat(pieces[0], Join(pieces[1..], sep), sep);
      SplitWithoutSeparator(pieces[0], sep);
    }
  }

  predicate IsDigit(c: char)
  {
    '0' <= c <= '9'
  }

  predicate AllDigits(s: string)
  {
    forall k :: 0 <= k < |s| ==> IsDigit(s[k])
  }

  function DigitChar(d: nat): (c: char)
    requires d < 10
    ensures IsDigit(c) && c as int - '0' as int == d
  {
    ('0' as int + d) as char
  }

  /** Value of a string of decimal digits, most significant first. */
  function DigitsValue(s: string): nat
    requires AllDigits(s)
  {
    if s == [] then 0
    else DigitsValue(s[..|s| - 1]) * 10 + (s[|s| - 1] as int - '0' as int)
  }

  /** The tokens `int()` accepts here: an optional sign followed by at least one decimal digit. */
  predicate IntText(s: string)
  {
    s != [] && if s[0] == '-' || s[0] == '+' then |s| > 1 && AllDigits(s[1..]) else AllDigits(s)
  }

  /** Python's `int(s)` on an optional sign followed by decimal digits; `None` where it raises ValueError. */
  function ParseInt(s: string): (r: Option<int>)
    ensures r.Some? <==> IntText(s)
    ensures r.Some? ==> s != [] && (s[0] == '-' ==> r.value <= 0) && (s[0] != '-' ==> r.value >= 0)
  {
    if s != [] && (s[0] == '-' || s[0] == '+') then
      var digits := s[1..];
      if digits != [] && AllDigits(digits) then
        var v: int := DigitsValue(digits);
        Some(if s[0] == '-' then -v else v)
      else None
    else if s != [] && AllDigits(s) then Some(DigitsValue(s))
    else None
  }

  /** Decimal digits of `n`, as `str(n)` and `"{}".format(n)` print it. */
  function ShowNat(n: nat): (s: string)
    ensures s != [] && AllDigits(s)
  {
    if n < 10 then [DigitChar(n)] else ShowNat(n / 10) + [DigitChar(n % 10)]
  }

  function ShowInt(i: int): (s: string)
    ensures s != [] && '_' !in s
  {
    if i < 0 then "-" + ShowNat(-i) else ShowNat(i)
  }

  lemma {:induction false} DigitsOfShowNat(n: nat)
    ensures DigitsValue(ShowNat(n)) == n
  {
    if n >= 10 {
      DigitsOfShowNat(n / 10);
      var s := ShowNat(n);
      assert s[..|s| - 1] == ShowNat(n / 10);
    }
  }

  /** A string of digits, with or without a leading sign, parses to its value. */
  lemma ParseDigits(s: string)
    requires s != [] && AllDigits(s)
    ensures ParseInt(s) == Some(DigitsValue(s))
    ensures ParseInt("-" + s) == Some(-(DigitsValue(s) as int))
    ensures ParseInt("+" + s) == Some(DigitsValue(s))
  {
    assert ("-" + s)[0] == '-' && ("-" + s)[1..] == s;
    assert ("+" + s)[0] == '+' && ("+" + s)[1..] == s;
  }

  /** Parsing a printed integer gives the integer back. */
  lemma ParseShowInt(i: int)
    ensures ParseInt(ShowInt(i)) == Some(i)
  {
    if i < 0 {
      DigitsOfShowNat(-i);
      ParseDigits(ShowNat(-i));
    } else {
      DigitsOfShowNat(i);
      ParseDigits(ShowNat(i));
    }
  }

  /** The group id in a file name: `int(f.split("_")[-3])`. */
  function GroupToken(name: string): (r: Result<int, NameError>)
    ensures r.Failure? ==> r.error.name == name
    ensures (r.Failure? && r.error.TooFewPieces?) <==> |Split(name, '_')| < 3
    ensures r.Success? ==> ParseInt(Split(name, '_')[|Split(name, '_')| - 3]) == Some(r.value)
    ensures |Split(name, '_')| >= 3 ==> (r.Success? <==> ParseInt(Split(name, '_')[|Split(name, '_')| - 3]).Some?)
  {
    var pieces := Split(name, '_');
    if |pieces| < 3 then Failure(TooFewPieces(name))
    else match ParseInt(pieces[|pieces| - 3])
      case None => Failure(NotAnInteger(name))
      case Some(i) => Success(i)
  }

  /** The summary file name of one host, group and satellite count: `"{host}_group_{g}_nsat_{n}.dat"`. */
  function FileName(host: string, group: int, nSat: int): (name: string)
    ensures MatchesGlob(name, host, nSat)
  {
    var g, n := ShowInt(group), ShowInt(nSat);
    var name := host + "_group_" + g + "_nsat_" + n + ".dat";
    assert name == (host + "_group_") + g + ("_nsat_" + n + ".dat");
    name
  }

  /** `name` matches the pattern `{host}_group_*_nsat_{nSat}.dat`, the `*` standing for at least one character. */
  predicate MatchesGlob(name: string, host: string, nSat: int)
  {
    var prefix, suffix := host + "_group_", "_nsat_" + ShowInt(nSat) + ".dat";
    && |name| > |prefix| + |suffix|
    && name[..|prefix|] == prefix
    && name[|name| - |suffix|..] == suffix
  }

  /** The pieces of a file name after the host, before joining with '_'. */
  function FileNameTail(group: int, nSat: int): seq<string>
  {
    ["group", ShowInt(group), "nsat", ShowInt(nSat) + ".dat"]
  }

  /** The four-piece join behind a file name, for any piece strings. */
  lemma NameShape(dir: string, host: string, g: string, n: string)
    ensures dir + (host + "_group_" + g + "_nsat_" + n + ".dat")
      == (dir + host) + ['_'] + Join(["group", g, "nsat", n + ".dat"], '_')
  {
    var tail := ["group", g, "nsat", n + ".dat"];
    assert tail[1..][1..][1..] == [n + ".dat"];
    assert Join(tail[1..][1..], '_') == "nsat" + ['_'] + (n + ".dat");
    assert Join(tail[1..], '_') == g + ['_'] + ("nsat" + ['_'] + (n + ".dat"));
    assert Join(tail, '_') == "group" + ['_'] + (g + ['_'] + ("nsat" + ['_'] + (n + ".dat")));
  }

  lemma FileNameJoined(dir: string, host: string, group: int, nSat: int)
    ensures dir + FileName(host, group, nSat) == (dir + host) + ['_'] + Join(FileNameTail(group, nSat), '_')
  {
    NameShape(dir, host, ShowInt(group), ShowInt(nSat));
  }

  lemma FileNameTailSplits(group: int, nSat: int)
    ensures Split(Join(FileNameTail(group, nSat), '_'), '_') == FileNameTail(group, nSat)
  {
    var tail := FileNameTail(group, nSat);
    assert forall k :: 0 <= k < |tail| ==> '_' !in tail[k];
    JoinSplit(tail, '_');
  }

  /** Discovery reads back the group id that the file name was formatted with, whatever the directory. */
  lemma GroupTokenOfFileName(dir: string, host: string, group: int, nSat: int)
    ensures GroupToken(dir + FileName(host, group, nSat)) == Success(group)
  {
    var tail := FileNameTail(group, nSat);
    FileNameJoined(dir, host, group, nSat);
    FileNameTailSplits(group, nSat);
    SplitConcat(dir + host, Join(tail, '_'), '_');
    var pieces := Split(dir + FileName(host, group, nSat), '_');
    assert pieces == Split(dir + host, '_') + tail;
    assert pieces[|pieces| - 3] == tail[1] == ShowInt(group);
    ParseShowInt(group);
  }

  /** The ids of all files in listing order; the first name that yields none is the error. */
  function ParseAll(files: seq<string>): (r: Result<seq<int>, NameError>)
    ensures r.Success? ==>
      |r.value| == |files| && forall k :: 0 <= k < |files| ==> GroupToken(files[k]) == Success(r.value[k])
    ensures r.Failure? ==> FirstBadName(files, r.error)
  {
    if files == [] then Success([])
    else
      var m := |files| - 1;
      var pre := files[..m];
      assert forall k :: 0 <= k < m ==> pre[k] == files[k];
      match ParseAll(pre)
      case Failure(e) => Failure(e)
      case Success(ids) =>
        match GroupToken(files[m])
        case Failure(e) => Failure(e)
        case Success(i) => Success(ids + [i])
  }

  /** `e` is the error of some listed name, and every name listed before it yields an id. */
  predicate FirstBadName(files: seq<string>, e: NameError)
  {
    exists k :: 0 <= k < |files| && GroupToken(files[k]) == Failure(e)
      && forall j :: 0 <= j < k ==> GroupToken(files[j]).Success?
  }

  predicate NoDuplicates(s: seq<int>)
  {
    forall i, j :: 0 <= i < j < |s| ==> s[i] != s[j]
  }

  /** Each id once, kept where it is first seen: the `if i not in group_id: append` loop. */
  function Dedup(s: seq<int>): (r: seq<int>)
    ensures NoDuplicates(r)
    ensures forall x :: x in r <==> x in s
    ensures |r| <= |s|
  {
    if s == [] then []
    else
      var d := Dedup(s[..|s| - 1]);
      var x := s[|s| - 1];
      if x in d then d else d + [x]
  }

  /** Position of the first occurrence of `x` in `s`. */
  function FirstIndex(s: seq<int>, x: int): (k: nat)
    requires x in s
    ensures k < |s| && s[k] == x && x !in s[..k]
  {
    if s[0] == x then 0 else 1 + FirstIndex(s[1..], x)
  }

  lemma FirstIndexInPrefix(s: seq<int>, m: nat, x: int)
    requires m <= |s| && x in s[..m]
    ensures FirstIndex(s, x) == FirstIndex(s[..m], x)
  {
    var k, k' := FirstIndex(s, x), FirstIndex(s[..m], x);
    assert s[..m][k'] == s[k'];
    assert s[..m][..k'] == s[..k'];
  }

  /** The ids are ordered by where each is first seen in the listing. */
  lemma {:induction false} DedupKeepsFirstSeenOrder(s: seq<int>)
    ensures forall i, j :: 0 <= i < j < |Dedup(s)| ==>
      FirstIndex(s, Dedup(s)[i]) < FirstIndex(s, Dedup(s)[j])
  {
    if s != [] {
      var m := |s| - 1;
      var p := s[..m];
      DedupKeepsFirstSeenOrder(p);
      var d := Dedup(p);
      var r := Dedup(s);
      forall i, j | 0 <= i < j < |r|
        ensures FirstIndex(s, r[i]) < FirstIndex(s, r[j])
      {
        assert r[i] in d && r[i] in p;
        FirstIndexInPrefix(s, m, r[i]);
        if j < |d| {
          FirstIndexInPrefix(s, m, r[j]);
        } else {
          assert r[j] == s[m] && r[j] !in p;
          assert FirstIndex(s, r[j]) == m;
        }
      }
    }
  }

  /** Ids that are already distinct come out unchanged and in the same order. */
  lemma {:induction false} DedupOfDistinct(s: seq<int>)
    requires NoDuplicates(s)
    ensures Dedup(s) == s
  {
    if s != [] {
      var m := |s| - 1;
      DedupOfDistinct(s[..m]);
      assert s[m] !in s[..m];
      assert s[..m] + [s[m]] == s;
    }
  }

  /** The ids `load_experiment` discovers from the listed file names. */
  function GroupIds(files: seq<string>): (r: Result<seq<int>, NameError>)
    ensures r.Success? <==> forall k :: 0 <= k < |files| ==> GroupToken(files[k]).Success?
    ensures r.Failure? ==> FirstBadName(files, r.error)
    ensures r.Success? ==> NoDuplicates(r.value)
    ensures r.Success? ==> forall x :: x in r.value <==> exists k :: 0 <= k < |files| && GroupToken(files[k]) == Success(x)
  {
    match ParseAll(files)
    case Failure(e) => Failure(e)
    case Success(ids) => Success(Dedup(ids))
  }

  lemma {:induction false} ParseAllFailurePersists(files: seq<string>, k: nat)
    requires k <= |files| && ParseAll(files[..k]).Failure?
    ensures ParseAll(files) == ParseAll(files[..k])
  {
    if k < |files| {
      var m := |files| - 1;
      assert files[..m][..k] == files[..k];
      ParseAllFailurePersists(files[..m], k);
    } else {
      assert files[..k] == files;
    }
  }

  /** The discovery loop over the listed file names. */
  method DiscoverGroups(files: seq<string>) returns (r: Result<seq<int>, NameError>)
    ensures r == GroupIds(files)
  {
    var groupId: seq<int> := [];
    for k := 0 to |files|
      invariant ParseAll(files[..k]).Success?
      invariant groupId == Dedup(ParseAll(files[..k]).value)
    {
      assert files[..k + 1][..k] == files[..k];
      var i := GroupToken(files[k]);
      if i.Failure? {
        ParseAllFailurePersists(files, k + 1);
        return Failure(i.error);
      }
      if i.value !in groupId {
        groupId := groupId + [i.value];
      }
    }
    assert files[..|files|] == files;
    return Success(groupId);
  }

  /** Ids come out in listing order, not sorted. */
  lemma DedupDoesNotSort()
    ensures Dedup([7, 3, 7]) == [7, 3]
  {
    assert [7, 3, 7][..2] == [7, 3];
    assert [7, 3][..1] == [7];
    assert [7][..0] == [];
  }
}
