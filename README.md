# Asphericity statistics: a verified model of the loading and jackknife core

This project models the statistical core of `code/asphericity_stats.py`. That code
compares the flattening of satellite planes around M31 and the Milky Way against
randomised controls.

- `load_experiment` finds the group ids among the summary file names. For each host
  it loads the two summary tables of every group. It collects five observables per
  host (`width`, `mu`, `a`, `ba_ratio`, `ca_ratio`) into an *experiment*: a dict of
  numpy arrays. In summary mode each group contributes one entry per column. In full
  mode the observed values are appended and the random controls are concatenated.
- `points_in_experiment` reads the length of the first key's column.
- `copy_experiment` copies every column, optionally leaving one position out.
- `get_data_obs` and `covariance_and_mean` normalise width, c/a and b/a against their
  controls into a 3 x n matrix, `(x - random) / random_sigma`. `covariance_and_mean`
  then takes the sample covariance (`np.cov`, n - 1 divisor) and the row means.
- `jacknife_covariance` evaluates the experiment with each point left out in turn. It
  returns the averaged covariance and mean, with their spreads as errors: the
  covariance spread over n, the mean spread over the constant 20.

The Dafny modules follow those pieces:

- `Results`: Option and Result.
- `Stats`: sums, averages, `np.std`.
- `Matrices`: element-wise numpy arithmetic, `np.cov`, `np.mean(axis=1)`.
- `Groups`: file-name parsing and first-seen deduplication.
- `Loader`: `load_experiment`.
- `Experiments`: the insertion-ordered dict, `points_in_experiment`, `copy_experiment`.
- `Normalize`: `get_data_obs`, `covariance_and_mean`.
- `Jackknife`: `jacknife_covariance`.

The loops of the source are methods. Each method is proved equal to a specification
function, and lemmas prove properties of those functions:

- a file name reads back as the id it was formatted with;
- errors come out in the source's order;
- a summary experiment is uniform and holds one point per group;
- a leave-one-out copy normalises to the normalised matrix with one column deleted;
- the jackknife mean is the full-sample mean;
- the jackknife covariance and its error are symmetric;
- constant data gives zero covariance.

An experiment is modelled as a key order plus a map, so that "the first key" means
what it means in Python. numpy arrays are values (`seq<real>`, and a matrix is a
sequence of rows). Nothing in this code aliases an array after storing it, except the
summary-mode columns, which are written in place; that case is handled in
"## Left out".

## Model

| member | source | states |
|---|---|---|
| Groups.Split | code/asphericity_stats.py:23 | `str.split('_')` gives at least one piece and no piece contains the separator |
| Groups.SplitJoin | code/asphericity_stats.py:23 | joining the pieces of a split with the separator restores the string |
| Groups.JoinSplit | code/asphericity_stats.py:23 | splitting a join of separator-free pieces gives back the pieces |
| Groups.SplitConcat | code/asphericity_stats.py:23 | splitting `a + '_' + b` gives the pieces of `a` followed by those of `b` |
| Groups.ParseDigits | code/asphericity_stats.py:23 | `int()` of decimal digits, bare or after a leading `+`, is their value; after a leading minus it is its negation |
| Groups.ShowNat | code/asphericity_stats.py:54-55 | `"{}".format` of a natural number is a nonempty string of decimal digits |
| Groups.ShowInt | code/asphericity_stats.py:54-55 | `"{}".format` of an integer is a nonempty string without `_`, so it stays one piece of the file name |
| Groups.ParseShowInt | code/asphericity_stats.py:23 | `int()` reads back the decimal text of every integer, negative ones included |
| Groups.ParseInt | code/asphericity_stats.py:23 | `int()` succeeds iff the token satisfies `IntText` (an optional sign followed by at least one digit); otherwise it is the ValueError path; a success is never positive after a minus and never negative otherwise |
| Groups.GroupToken | code/asphericity_stats.py:23 | `f.split("_")[-3]`: fewer than three pieces is the index error, every error names the file; with three or more pieces it succeeds iff `int()` accepts the third-from-last piece, and a success is that piece's value |
| Groups.FileName | code/asphericity_stats.py:20 | a formatted summary name satisfies `MatchesGlob`: it matches the glob `{host}_group_*_nsat_{n}.dat`, with a nonempty part in place of the `*` |
| Groups.GroupTokenOfFileName | code/asphericity_stats.py:20-23 | a file named `{host}_group_{g}_nsat_{n}.dat` in any directory yields group `g` from the third-from-last `_` piece |
| Groups.Dedup | code/asphericity_stats.py:21-25 | the kept ids have no repetition, are exactly the parsed ids as a set, and are no more numerous |
| Groups.DedupKeepsFirstSeenOrder | code/asphericity_stats.py:21-25 | kept ids are ordered by the position of their first occurrence in the listing |
| Groups.DedupOfDistinct | code/asphericity_stats.py:21-25 | a listing without repeated ids is kept unchanged, in order |
| Groups.DedupDoesNotSort | code/asphericity_stats.py:21-25 | the listing order is kept rather than sorted: ids 7, 3, 7 give 7, 3 |
| Groups.ParseAllFailurePersists | code/asphericity_stats.py:22-23 | once a name fails to parse, the whole discovery fails with that name's error |
| Groups.ParseAll | code/asphericity_stats.py:22-23 | either every name yields its id, in listing order, or the error is that of the first name that fails |
| Groups.GroupIds | code/asphericity_stats.py:21-25 | the ids are found iff every name parses; a failure is the first bad name; found ids have no repeats and are exactly the parsed ids |
| Groups.DiscoverGroups | code/asphericity_stats.py:21-25 | the loop returns the first bad name's error or the deduplicated ids, as `GroupIds` defines them |
| Loader.Controls | code/asphericity_stats.py:70 | `data[field][1:101]` holds min(rows - 1, 100) values, the field of rows 1, 2, ... in order |
| Loader.Ones | code/asphericity_stats.py:41 | `np.ones(n)` has n entries, all 1 |
| Loader.JoinPath | code/asphericity_stats.py:54-55 | `os.path.join` is the directory followed by the name, with one `/` between them or none |
| Loader.Value | code/asphericity_stats.py:8-15 | `data[field]` on a row: each of the five fields reads its own column of the table's dtype |
| Loader.SummaryPath | code/asphericity_stats.py:54-55 | the path opened for group `g` (directory joined as `os.path.join` does) parses back to `g` |
| Loader.LoadTables | code/asphericity_stats.py:53-58 | a successful load has one M31 table and one MW table per group |
| Loader.LoadTablesSucceeds | code/asphericity_stats.py:53-58 | loading succeeds iff both files of every group exist |
| Loader.LoadedTablesAreFiles | code/asphericity_stats.py:53-58 | after a successful load both files of every group exist, and table `g` of each host is the file of group `ids[g]` |
| Loader.LoadFailurePersists | code/asphericity_stats.py:53-58 | once a file is missing, the load fails with that file's error |
| Loader.ReadTables | code/asphericity_stats.py:53-58 | the loop returns what `LoadTables` defines for the summary paths it is given: MW is opened before M31, and the first missing file is the error |
| Loader.FirstShortNone | code/asphericity_stats.py:67-74 | no table is too short to index iff every table of both hosts has at least two rows |
| Loader.FirstShort | code/asphericity_stats.py:67-74 | a reported error belongs to a group whose M31 table is too short, or whose MW table is too short while its M31 table is long enough |
| Loader.TablesUsable | code/asphericity_stats.py:53-74 | opening and indexing the tables both succeed iff both files of every group exist with at least two rows |
| Loader.ShortPersists | code/asphericity_stats.py:67-74 | the first table that is too short decides the error |
| Loader.CheckTables | code/asphericity_stats.py:67-74 | indexing row 0 stops at the first group whose M31 (then MW) table has fewer than two rows |
| Loader.KeyListed | code/asphericity_stats.py:30-49 | every (field, suffix) key is among the created keys |
| Loader.KeysForMember | code/asphericity_stats.py:30-49 | every created key is some field followed by some suffix of its mode |
| Loader.KeysForHead | code/asphericity_stats.py:30-49 | the first created key is the first field with the first suffix (`width`) |
| Loader.FieldInitials | code/asphericity_stats.py:30 | the five fields start with five different letters |
| Loader.SuffixLengths | code/asphericity_stats.py:33-49 | the suffixes of each mode have pairwise different lengths |
| Loader.KeyInjective | code/asphericity_stats.py:30-49 | equal keys come from the same field and the same suffix |
| Loader.KeyDiffers | code/asphericity_stats.py:30-49 | different (field, suffix) pairs give different keys |
| Loader.BlockFresh | code/asphericity_stats.py:30-49 | a field's keys are new to the keys of the fields before it |
| Loader.SummaryKeysFresh | code/asphericity_stats.py:40-49 | the four summary keys of the next field are new and are appended in order |
| Loader.FullKeysFresh | code/asphericity_stats.py:33-38 | the two full-mode keys of the next field are new and are appended in order |
| Loader.AddTwoKeys | code/asphericity_stats.py:35-38 | assigning two new keys appends them to the key order and keeps the dict well formed |
| Loader.AddFourKeys | code/asphericity_stats.py:41-49 | assigning four new keys appends them in assignment order |
| Loader.InitExperiment | code/asphericity_stats.py:30-49 | key creation yields a well-formed experiment whose keys are `KeysFor(Fields, suffixes)`: the fields in order, each followed by its suffixes; every column is `Blank` (`np.empty((0))` in full mode, `np.ones(n_groups)` in summary mode) |
| Loader.InitFull | code/asphericity_stats.py:33-38 | full mode: keys `f`, `f_random` per field, all empty |
| Loader.InitSummary | code/asphericity_stats.py:40-49 | summary mode: keys `f`, `f_sigma`, `f_random`, `f_random_sigma` per field, all `np.ones(n_groups)` |
| Loader.SummaryColumn | code/asphericity_stats.py:84-91 | a summary column has one entry per group |
| Loader.SummaryEntry | code/asphericity_stats.py:84-87 | the value entry is the observed value itself and its sigma is `sqrt(0)`, because `np.average` and `np.std` see one value |
| Loader.FullControls | code/asphericity_stats.py:80-81 | the concatenated controls hold at most 100 values per group, and at least one per group when every table has two rows |
| Loader.IsSummaryOf | code/asphericity_stats.py:40-49 | a summary-mode experiment has `width` as its first key |
| Loader.IsFullOf | code/asphericity_stats.py:33-38 | a full-mode experiment has `width` as its first key |
| Loader.FullValues | code/asphericity_stats.py:67-78 | the full-mode value column holds row 0 of each group's table, in group order |
| Loader.SummaryPending | code/asphericity_stats.py:61-91 | before a field is filled, its four summary columns still hold the ones they were created with |
| Loader.SummaryStored | code/asphericity_stats.py:84-91 | storing a field's four finished columns changes no other field's columns |
| Loader.SummarizeField | code/asphericity_stats.py:67-91 | after the group loop, entry `g` of the four columns is the average/std of row 0 and of rows 1-100 of group `g` |
| Loader.FillSummary | code/asphericity_stats.py:61-91 | the summary fill yields exactly the summary experiment of the tables (`IsSummaryOf`) |
| Loader.FullPending | code/asphericity_stats.py:61-81 | before a field is filled, its two full-mode columns are still empty |
| Loader.FullStored | code/asphericity_stats.py:78-81 | storing a field's two finished columns changes no other field's columns |
| Loader.CollectField | code/asphericity_stats.py:67-81 | the group loop appends each group's row-0 value, and concatenates the groups' controls in order |
| Loader.FillFull | code/asphericity_stats.py:61-81 | the full fill yields exactly the full-mode experiment of the tables (`IsFullOf`) |
| Loader.LoadOutcome | code/asphericity_stats.py:19-74 | on success there is one table per group and host, each with at least two rows |
| Loader.LoadOutcomeSucceeds | code/asphericity_stats.py:19-74 | loading succeeds iff every name yields an id and both files of every group exist at their summary paths with two or more rows |
| Loader.LoadOutcomeTables | code/asphericity_stats.py:19-58 | after a successful load the ids are the parsed ones, and each table is the file at the summary path of its host and group |
| Loader.LoadExperiment | code/asphericity_stats.py:19-93 | `load_experiment` fails exactly when the outcome is an error, with the same error; otherwise both experiments are the summary or full-mode experiments of their tables |
| Loader.SummaryEntries | code/asphericity_stats.py:84-91 | in summary mode entry `g` is the observed value, a spread of `sqrt(0)` (np.std of one value), and the average and std of the controls |
| Loader.SummaryShape | code/asphericity_stats.py:40-49 | a summary experiment has `width` as first key, equal-length columns, and as many points as groups |
| Loader.SummaryJackknifeReady | code/asphericity_stats.py:84-91 | a summary experiment with three or more groups and nonzero control spreads meets every precondition of `jacknife_covariance` |
| Loader.FullShape | code/asphericity_stats.py:33-38 | in full mode a field holds each group's value, its `_random` key holds the concatenated controls, and no sigma keys exist |
| Loader.NotFullKey | code/asphericity_stats.py:33-38 | a field followed by a suffix other than `""` or `_random` is not a full-mode key |
| Loader.ModesAgreeOnValues | code/asphericity_stats.py:77-84 | a summary load and a full load of the same tables hold the same value column for every field |
| Experiments.Assign | code/asphericity_stats.py:35-49 | `d[k] = v` keeps the dict well formed, replaces the value, keeps the place of an existing key, and appends a new key |
| Experiments.PointsIn | code/asphericity_stats.py:95-98 | the number of points is the length of the first key's column, and of every column when all have the same length |
| Experiments.Masked | code/asphericity_stats.py:107-108 | the mask `arange(n) != i` deletes position `i` when it is in range and keeps the column otherwise |
| Experiments.CopyExperiment | code/asphericity_stats.py:100-109 | the copy keeps key order and key set; with no id it holds the same columns, with an id every column masked |
| Experiments.CopyWithoutId | code/asphericity_stats.py:104-105 | copying with no id returns an equal experiment |
| Experiments.CopyWithAbsentId | code/asphericity_stats.py:106-108 | an id outside 0..n-1 removes nothing |
| Experiments.CopyRemovesPoint | code/asphericity_stats.py:106-108 | an id in range deletes that position from every column, leaving a uniform experiment with n - 1 points |
| Normalize.NormalizedRow | code/asphericity_stats.py:118 | the normalised row has one entry per point |
| Normalize.NormalizedRowRecovers | code/asphericity_stats.py:118 | normalised value times `random_sigma` plus `random` gives back the observed value |
| Normalize.NormalizedMatrix | code/asphericity_stats.py:114-120 | the normalised data is a 3 x n matrix |
| Normalize.FillNormalized | code/asphericity_stats.py:116-119 | the row loop fills row `i` with the normalisation of field `i` (width, ca_ratio, ba_ratio) |
| Normalize.GetDataObs | code/asphericity_stats.py:111-121 | `get_data_obs` returns the 3 x n matrix whose entry (i, j) is `(x - random) / random_sigma` of field i at point j (the same matrix `covariance_and_mean` builds), plus the field mapping |
| Normalize.Evaluate | code/asphericity_stats.py:134-137 | the evaluation holds a 3 x 3 covariance and a 3-entry mean |
| Normalize.CovMeanOf | code/asphericity_stats.py:124-137 | the covariance is symmetric, the mean has three entries, and the fields are width, ca_ratio, ba_ratio |
| Normalize.CovarianceAndMean | code/asphericity_stats.py:124-137 | `covariance_and_mean` returns `np.cov` and the row means of the normalised matrix; the covariance is symmetric and mean `a` is the average of row `a` |
| Normalize.NormalizedRowDelete | code/asphericity_stats.py:129-132 | deleting point `i` from the inputs deletes it from the normalised row |
| Normalize.CopyKeepsReady | code/asphericity_stats.py:144-145 | a leave-one-out copy is still ready for `covariance_and_mean`, with one point fewer |
| Normalize.CopyNormalizedRow | code/asphericity_stats.py:143-145 | row `a` of the leave-one-out copy's normalised matrix is row `a` of the original without entry `i` |
| Normalize.NormalizeCopy | code/asphericity_stats.py:144-145 | the normalised matrix of the leave-one-out copy is the original normalised matrix without column `i` |
| Matrices.WithoutColumn | code/asphericity_stats.py:108 | every row loses entry `i` and keeps the others in order |
| Matrices.Add | code/asphericity_stats.py:149 | `+=` of equal-shape matrices keeps the shape and adds entry by entry |
| Matrices.Sub | code/asphericity_stats.py:154 | matrix `-` keeps the shape and subtracts entry by entry |
| Matrices.Square | code/asphericity_stats.py:154 | `**2` keeps the shape and squares every entry |
| Matrices.Divide | code/asphericity_stats.py:150 | division by a nonzero count keeps the shape and divides every entry |
| Matrices.Root | code/asphericity_stats.py:155 | `np.sqrt` keeps the shape and takes the root of every entry |
| Matrices.VecAdd | code/asphericity_stats.py:159 | vector `+=` adds entry by entry |
| Matrices.VecSub | code/asphericity_stats.py:164 | vector `-` subtracts entry by entry |
| Matrices.VecSquare | code/asphericity_stats.py:164 | vector `**2` squares every entry |
| Matrices.VecDivide | code/asphericity_stats.py:160 | division by a nonzero count divides every entry |
| Matrices.VecRoot | code/asphericity_stats.py:165 | `np.sqrt` takes the root of every entry |
| Matrices.RowMeans | code/asphericity_stats.py:135 | `np.mean(axis=1)` has one mean per row |
| Matrices.Covariance | code/asphericity_stats.py:134 | `np.cov` of m rows is an m x m matrix |
| Matrices.CrossDevSymmetric | code/asphericity_stats.py:134 | the cross-deviation sum is symmetric in its two rows |
| Matrices.CrossDevSelf | code/asphericity_stats.py:134 | the cross-deviation of a row with itself is its sum of squared deviations |
| Matrices.CrossDevConstant | code/asphericity_stats.py:134 | a row sitting at its mean contributes no cross-deviation |
| Matrices.CovarianceSymmetric | code/asphericity_stats.py:134 | `np.cov` is symmetric |
| Matrices.CovarianceDiagonal | code/asphericity_stats.py:134 | the diagonal is the population variance times n / (n - 1), never negative |
| Matrices.ConstantRows | code/asphericity_stats.py:134-135 | constant rows have their value as mean and zero covariance with every row |
| Stats.SumSqDev | code/asphericity_stats.py:155 | a sum of squared deviations is never negative |
| Stats.SumSqDevConstant | code/asphericity_stats.py:155 | values all equal to the centre have zero squared deviation |
| Stats.Average | code/asphericity_stats.py:84 | `np.average` is the value whose n copies add up to the sum |
| Stats.Std | code/asphericity_stats.py:86 | `np.std` of values that are all equal is the root of zero |
| Stats.PopVarianceOfEqual | code/asphericity_stats.py:86 | values that are all equal have population variance zero |
| Stats.PopVariance | code/asphericity_stats.py:86 | the population variance (`np.std` squared) is never negative |
| Stats.StdOfSingleValue | code/asphericity_stats.py:86 | `np.std` of a single value is the root of zero |
| Stats.SumAppend | code/asphericity_stats.py:149 | the sum of a concatenation is the sum of the sums |
| Stats.SumDeleteAt | code/asphericity_stats.py:108 | deleting entry `i` lowers the sum by that entry |
| Stats.AverageAfterDelete | code/asphericity_stats.py:135 | the mean without entry `i` is the sum less that entry over n - 1 |
| Stats.SumConstant | code/asphericity_stats.py:150 | the sum of n copies of c is n c |
| Stats.AverageConstant | code/asphericity_stats.py:84 | the average of copies of c is c (so `np.average` of one value is that value) |
| Stats.SumOfShifted | code/asphericity_stats.py:158-160 | if each y times d is c less the matching x, the sum of the ys times d is n c less the sum of the xs |
| Stats.AverageOfDeletedAverages | code/asphericity_stats.py:157-160 | the average of the n means that each leave one entry out is the mean of all entries |
| Jackknife.LeaveOneOut | code/asphericity_stats.py:144-145 | each leave-one-out evaluation holds a 3 x 3 covariance and a 3-entry mean |
| Jackknife.LeaveOneOuts | code/asphericity_stats.py:143-145 | there are n evaluations, the i-th leaving out observation i |
| Jackknife.CovEntries | code/asphericity_stats.py:149 | one covariance entry per evaluation |
| Jackknife.MeanEntries | code/asphericity_stats.py:159 | one mean entry per evaluation |
| Jackknife.AveragedCovariance | code/asphericity_stats.py:147-150 | the averaged covariance is 3 x 3 |
| Jackknife.CovarianceSpread | code/asphericity_stats.py:152-155 | the covariance error is 3 x 3 |
| Jackknife.AveragedMean | code/asphericity_stats.py:157-160 | the averaged mean has 3 entries |
| Jackknife.MeanSpread | code/asphericity_stats.py:162-165 | the mean error has 3 entries |
| Jackknife.Aggregate | code/asphericity_stats.py:147-165 | the averaged covariance and its error are 3 x 3, the averaged mean and its error have 3 entries |
| Jackknife.CopyEvaluates | code/asphericity_stats.py:144-145 | evaluating the leave-one-out copy gives the evaluation of the normalised matrix without column `i` |
| Jackknife.EvaluateLeaveOneOuts | code/asphericity_stats.py:141-145 | the first loop returns the n leave-one-out evaluations, in order |
| Jackknife.AverageCovariance | code/asphericity_stats.py:147-150 | the accumulation loop returns the entry-wise average of the covariances |
| Jackknife.CovarianceError | code/asphericity_stats.py:152-155 | the accumulation loop returns the root of the squared deviations from the average, over n |
| Jackknife.AverageMean | code/asphericity_stats.py:157-160 | the accumulation loop returns the entry-wise average of the means |
| Jackknife.MeanError | code/asphericity_stats.py:162-165 | the accumulation loop returns the root of the squared deviations from the averaged mean, over 20 |
| Jackknife.JacknifeCovariance | code/asphericity_stats.py:140-168 | `jacknife_covariance` returns the jackknife estimate of the normalised matrix |
| Jackknife.LeaveOneOutMean | code/asphericity_stats.py:143-145 | the mean left without observation `i` is the row sum less entry `i`, over n - 1 |
| Jackknife.LeaveOneOutMeanEntry | code/asphericity_stats.py:143-159 | entry `k` of the collected means of row `a` is the row sum less entry `k`, over n - 1 |
| Jackknife.LeaveOneOutMeans | code/asphericity_stats.py:143-159 | the collected means of row `a` hold one entry per point, entry `k` the row sum less entry `k` over n - 1 |
| Jackknife.JackknifeRowMean | code/asphericity_stats.py:157-160 | averaging the leave-one-out means of a row gives that row's full mean |
| Jackknife.JackknifeMeanIsFullMean | code/asphericity_stats.py:157-160 | the jackknife mean equals the row means of the whole normalised matrix |
| Jackknife.JackknifeSymmetric | code/asphericity_stats.py:147-155 | the averaged covariance and its error are symmetric |
| Jackknife.MeanErrorOfEqualMeans | code/asphericity_stats.py:157-165 | when every leave-one-out mean of row `a` is c, the averaged mean is c and its error is the root of zero |
| Jackknife.CovarianceErrorOfEqualCovariances | code/asphericity_stats.py:147-155 | when every leave-one-out covariance entry (a, b) is c, the averaged entry is c and its error is the root of zero |
| Jackknife.JackknifeOfMatrix | code/asphericity_stats.py:140-168 | the jackknife mean of a normalised matrix is its row means, and the covariance and its error are symmetric |
| Jackknife.LeaveOneOutOfConstantData | code/asphericity_stats.py:144-145 | with constant rows each leave-one-out evaluation has mean `v` and zero covariance |
| Jackknife.JackknifeOfConstantData | code/asphericity_stats.py:140-168 | constant rows give mean `v`, zero covariance, and errors equal to the root of zero |
| Jackknife.JackknifeOf | code/asphericity_stats.py:140-168 | the jackknife mean of an experiment equals the mean `covariance_and_mean` gives for the whole experiment, and the covariance and its error are symmetric |

## Left out

- File system and glob: the listing `glob.glob` returns is the parameter `files`, and reading a file is a lookup in the map `fs` from paths to tables. Which names the glob pattern matches is not modelled.
- `np.loadtxt` parsing: a table is a sequence of already-parsed rows. Malformed lines and a wrong column count are not modelled. A missing file is the `MissingFile` error.
- `print` of the group ids and of progress, plotting, corner plots and the report functions of the same file are not modelled. They produce no value the core returns.
- Floating point: values are mathematical reals. Rounding, NaN and infinity are not modelled, and the square root is the parameter `sqrt` because it is a numpy routine. Properties that depend on the square root are stated on its argument, or as `sqrt(0.0)`.
- `int()` is modelled on an optional sign and ASCII digits. Python also accepts surrounding whitespace and non-ASCII digits; those names are not modelled.
- numpy broadcasting of columns with mismatched lengths is not modelled. Each operation requires the shapes the source relies on.
- Loader.FillSummary: numpy writes the four summary columns in place inside the dict. The model takes each column out, updates it entry by entry and stores it back after the group loop. The final dicts are the same; aliasing is not modelled.
- Loader.CheckTables: a table with fewer than two rows fails inside the fill loop at the first field, when `data[field][0]` is indexed. The model checks the tables in a separate pass before filling, in the same group order and M31-before-MW order, with the same error. The dicts built up to that point are discarded in both cases.
- Normalize.GetDataObs, Normalize.CovarianceAndMean: these require every `random_sigma` of the normalised fields to be nonzero. The source divides anyway and numpy yields infinities or NaN, which this real-number model cannot represent. The code has no division-by-zero check.
- Normalize.CovarianceAndMean: this requires at least two points. With fewer, `np.cov` divides by zero and numpy returns NaN.
- Jackknife.JacknifeCovariance: this requires at least three points, so that every leave-one-out evaluation has two. With zero points the source raises a `KeyError` at `cov_and_mean[0]` (line 147); with one or two, `np.cov` of the copies divides by zero. It also requires all columns to have the same length, which the mask of `copy_experiment` needs.
- Experiments.CopyExperiment: with an id, this requires all columns to have the same length. numpy raises an error when a mask of the first column's length is applied to a column of another length, for example a full-mode `_random` column. That error path is not modelled.
- Jackknife.MeanError: the mean error divides by the constant 20 whatever the number of points, as the code does. The covariance error divides by n. The model keeps this as written.
- Groups.Dedup: group ids are kept in the order they are first seen in the listing, as the code does; the code does not sort them.
- Experiments.PointsIn, Experiments.CopyExperiment, Normalize.Normalizable: these require a nonempty dict, and normalisation requires the summary-mode `_sigma` keys. On an empty dict `list(exp.keys())[0]` raises `IndexError`, and a full-mode dict given to `get_data_obs` raises `KeyError`; no call in the modelled code reaches either, so those error paths are not modelled.
- Loader.ReadTables: a missing M31 file is an error as well as a missing MW file, because `np.loadtxt` raises for either. MW is opened first.
