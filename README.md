# Verified model of the clustering core of geodata-engine-tensorflow

`clustering.py` labels GPS measurement points and feature tables with
clustering libraries and then reasons about the labels it gets back. This
project models that label logic in Dafny and proves what it promises:

- **Agreement metric** (`compute_clustering_metrics_pointfraction`): the rows'
  `(Label1, Label2)` pairs are cross-tabulated into the nested count
  dictionary `{Label1: {Label2: count}}`; every Label1 group adds its largest
  count to `correct` and the counts strictly below that largest count to
  `false`; the result is `correct / (correct + false)`.
- **Small-cluster suppression** (the end of `distance_clustering_agglomerative`):
  each point's `track_ID` becomes its cluster label if that label occurs at
  least `min_points` times, and -1 otherwise.
- **Partitions** (`cluster_split`, `split_by_cluster`): one list per label.
- **Adaptive eps search** (`distance_clustering_dbscan`,
  `clustering_feature_space_dbscan`): DBSCAN is rerun with a growing eps until
  the fraction of noise points is at most `max_unlabeled`; the labels are
  written back and `n_clusters + 1` is returned.
- **Distance aggregation** (`agglomerative_clustering_mean_distance`): the
  largest distance between two unequal rows of each Label2 cluster, then the
  mean, maximum and minimum of those per-cluster maxima.
- **Refinement driver** (`agglomerative_clustering_with_metrics`): feature-space
  clustering with a cluster budget that shrinks by 5% of `nb_clusters` per
  pass, until the agreement metric exceeds a goal.

The libraries the code calls (sklearn's `AgglomerativeClustering` and `DBSCAN`,
`StandardScaler`, geopy's distance) are function-typed parameters; the only
thing assumed about the clustering and scaling functions is that they return
one entry per input sample. Python exceptions are modelled as `Err` values of
a `Result` type (`ZeroDivisionError`, `IndexError`, `KeyError`, `ValueError`,
`UnboundLocalError`). Dictionary updates of point records become assignments
to an `array<Point>`; pandas tables are sequences of `Row` values.

Modules, one per component: `Common` (records, errors, oracles, label
counting), `Agreement` and `AgreementProperties` (agreement.dfy), `Hierarchical`
(hierarchical.dfy), `Partition` (partition.dfy), `Density` (density.dfy),
`IntraDistance` (intradistance.dfy) and `Refinement` (refinement.dfy).

A Label1 group split evenly over two Label2 values might be expected to score
0.5. The code counts only the counts strictly below the group's largest count
as false, so such a split scores 1.0; the model follows the code
(`AgreementProperties.EvenSplitScoresOne`).

## Model

| member | source | states |
|---|---|---|
| Agreement.CountPairs | clustering.py:294-303 | the nested count dictionary built row by row is the cross-tabulation of the pairs: exactly the Label1 values present as groups, and each count the number of rows with that pair |
| Agreement.IncrementKeepsCrossTab | clustering.py:296-303 | `Agreement.Increment`, the update of lines 297-303: one row's update (new group, new bucket, or bumped count) keeps the dictionary the cross-tabulation of the rows seen so far |
| Agreement.CrossTabUnique | clustering.py:294-303 | any dictionary that cross-tabulates the pairs is the same dictionary, so the loop's result does not depend on how it was built |
| Agreement.Majority | clustering.py:310-314 | the majority loop of one group, starting from 0, yields the group's largest count (0 for no buckets), which bounds every count and is attained |
| Agreement.MinorityTotal | clustering.py:318-320 | the false loop of one group adds exactly the counts strictly below the majority |
| Agreement.Totals | clustering.py:307-320 | the totals over all groups are the sum of the group majorities and the sum of the below-majority counts |
| Agreement.RatioRange | clustering.py:321 | `Agreement.Ratio`, the division of line 321: once something is correct, the ratio is defined, lies in (0, 1], and is 1.0 exactly when nothing is false |
| Agreement.PointFraction | clustering.py:292-321 | the method's result is the agreement metric of the rows' (Label1, Label2) pairs |
| AgreementProperties.MetricRange | clustering.py:292-321 | the metric raises ZeroDivisionError exactly on a table with no rows; otherwise it lies in (0, 1] |
| AgreementProperties.CrossTabIsCrossTab | clustering.py:294-303 | the closed-form cross-tabulation has every property the counting loop establishes |
| AgreementProperties.CorrectPositive | clustering.py:307-316 | a table with at least one row has a positive correct total |
| AgreementProperties.EmptyTotals | clustering.py:307-320 | a table with no rows has zero correct and zero false |
| AgreementProperties.GroupTied | clustering.py:310-320 | within one group nothing is counted false exactly when every bucket holds the majority count |
| AgreementProperties.WrongZero | clustering.py:318-320 | the false total is zero exactly when every group contributes zero |
| AgreementProperties.GroupAtMajority | clustering.py:310-314 | when all buckets of each group are tied, each bucket holds the majority count |
| AgreementProperties.NoWrongWhenTied | clustering.py:318-320 | buckets tied at the maximum are never counted as false |
| AgreementProperties.TiedWhenNoWrong | clustering.py:318-320 | conversely, a zero false total means every group's buckets are tied |
| AgreementProperties.MetricOneIffTied | clustering.py:292-321 | on a non-empty table the metric is 1.0 if and only if every Label1 group's Label2 buckets are equally large |
| AgreementProperties.MetricOneWhenConsistent | clustering.py:292-321 | the metric is 1.0 whenever every Label1 value co-occurs with a single Label2 value |
| AgreementProperties.EvenSplitScoresOne | clustering.py:310-321 | two groups each split evenly over two Label2 values score 1.0 |
| Hierarchical.Suppressed | clustering.py:118-122 | the relabelled sequence has the input's length and order, and each entry is either the original label or -1 |
| Hierarchical.SuppressedCount | clustering.py:113-122 | a label other than -1 keeps all its occurrences if it occurred at least `min_points` times, and loses all of them otherwise |
| Hierarchical.SuppressedSurvivors | clustering.py:113-122 | every label other than -1 that survives occurs at least `min_points` times in the output |
| Hierarchical.SuppressedIdempotent | clustering.py:113-122 | applying the suppression rule again changes nothing |
| Hierarchical.DistanceClusteringAgglomerative | clustering.py:92-124 | point i's `track_ID` becomes the suppressed average-linkage label of point i; nothing else in the point changes |
| Hierarchical.FeatureSpaceAgglomerative | clustering.py:206-232 | the table keeps its rows and columns and gains as `Label2` the Ward labels computed with `int(nb_clusters)` clusters, on standardised features when `normalize` is set |
| Common.Trunc | clustering.py:213 | Python's `int()` of a float truncates toward zero |
| Common.PyIndex | clustering.py:335 | a list index is accepted exactly when it lies in `-len .. len-1`, and then it selects the one slot in `0 .. len-1` congruent to it modulo `len` |
| Partition.ClusterSplit | clustering.py:127-133 | on success there are `nb_clusters` lists and list c is exactly the points with `track_ID` c, in input order; a missing `track_ID` is a KeyError and a `track_ID >= nb_clusters` an IndexError, reported for the first such point |
| Partition.ClusterSplitSizes | clustering.py:127-133 | the list sizes add up to the number of points with a non-negative `track_ID` |
| Partition.ClusterSplitMembers | clustering.py:130-132 | list c holds each point with `track_ID` c as often as the dataset does and no other point, so points with a negative id are in no list |
| Partition.MaxLabel | clustering.py:148 | the largest label bounds every row's label and is some row's label |
| Partition.SplitByCluster | clustering.py:146-153 | an empty table raises ValueError; otherwise n is the largest label, there are n+1 sub-tables and sub-table c holds only rows labelled c |
| Partition.SplitByClusterPartition | clustering.py:150-153 | sub-table c holds every row labelled c, in order and as often as the table does; rows labelled -1 are in none and the sizes add up to the number of non-negative rows |
| Density.NoiseFraction | clustering.py:70-75 | the noise fraction raises ZeroDivisionError exactly on an empty labelling, lies in [0, 1] and is 0 exactly when no point is noise |
| Density.ClusterCountDistinct | clustering.py:68 | `Density.ClusterCount`, the expression of line 68: `n_clusters` is the number of distinct labels other than -1 |
| Density.SearchFromSpec | clustering.py:59-77 | the search stops at the first pass whose noise fraction is within the bound, with every earlier pass rejected; or it divides by zero on the first empty labelling; or every pass within the bound was rejected |
| Density.SearchFromFinds | clustering.py:64-77 | conversely, an accepted pass preceded only by rejected passes is the one the search stops at |
| Density.EpsSearch | clustering.py:59-77 | the loop ends with the labels of the first accepted pass, eps one step beyond it, the number of noise points and the number of clusters; with `max_unlabeled >= 1.0` the body never runs and the unbound labels are an UnboundLocalError |
| Density.DistanceClusteringDbscan | clustering.py:44-89 | each point's `track_ID` becomes its label from the first accepted pass (eps 0.00005, step 0.00001, `min_samples` 2) and the result is `n_clusters + 1`; on an error nothing is written |
| Density.FeatureSpaceDbscan | clustering.py:234-289 | the table gains the labels of the first accepted pass as `Label2` (eps 2 step 0.1 on standardised features, or eps 120 step 5 on raw ones) and the result is `n_clusters + 1` |
| IntraDistance.MaxPairwise | clustering.py:340-348 | the nested loops yield the largest distance between two unequal rows of the cluster, or 0 when there is no such pair |
| IntraDistance.MaxPairDistUnique | clustering.py:340-348 | that maximum is uniquely determined by the cluster |
| IntraDistance.MaxPairDistSingleton | clustering.py:340-348 | a cluster whose rows are all equal yields 0 |
| IntraDistance.ClusterMaxima | clustering.py:338-349 | one maximum per cluster, in cluster order |
| IntraDistance.FileByLabel | clustering.py:331-335 | `IntraDistance.SlotKey` gives the slot `cluster_array[int(point[0])]` of line 335 selects; a label outside the list's index range is an IndexError; otherwise list c holds exactly the rows whose label indexes slot c, in order |
| IntraDistance.Summary | clustering.py:350 | no clusters is a ZeroDivisionError; otherwise min <= mean <= max, max and min are among the distances and bound all of them |
| IntraDistance.MinMeanMax | clustering.py:350 | the mean of a non-empty list lies between its minimum and its maximum |
| IntraDistance.AgglomerativeClusteringMeanDistance | clustering.py:327-350 | with `int(n * cl_size)` clusters the result is an IndexError exactly when some label is out of range; otherwise it summarises one maximum per cluster, and the summary satisfies 0 <= min <= mean <= max |
| Refinement.Pass | clustering.py:366-367 | one pass labels the table with budget `nb_clusters * cl_size` and scores it; the score fails exactly on an empty table and otherwise lies in (0, 1] |
| Refinement.Refine | clustering.py:354-380 | `Refinement.PassSize(k)`, the `cl_size` of pass k (lines 355, 373), is recorded with pass k; the loop appends one entry per pass, stops after the first pass scoring above the goal or after the pass with cluster size 0.05, and returns the last pass's table |
| Refinement.AgglomerativeClusteringWithMetrics | clustering.py:354-380 | entry i of the history is `(2.0 - 0.05 i, score of pass i)`; every entry but the last is at most the goal and the last exceeds it unless all 40 passes ran; the returned table is the last pass's; an empty table raises ZeroDivisionError |

## Left out

- sklearn's `AgglomerativeClustering` and `DBSCAN`, `StandardScaler` and geopy's Vincenty distance are parameters; nothing is assumed of them except that the clustering and scaling functions return one entry per sample. sklearn's own rejection of empty input or of a cluster count below 1 is not modelled, so an empty input reaches the division by zero of the code that follows.
- `normalize_data_one`, `normalize_data` and `split_train_test` are not part of this model: they are library statistics and a random shuffle.
- `get_gateways`, `clustering_matrix` and `add_esp_array` are not part of this model: they are stubs that print or reference undefined names; `compute_clustering_metrics_distance` only prints.
- Printing and plotting are left out, including the diagnostic prints after the DBSCAN loop of `distance_clustering_dbscan` (of `db`, the counts, the imported `metrics` module and the labels).
- The unused `minority` variable of the agreement metric is left out.
- Dictionary keys are `str()` of the labels in the code and integers here; distinct integer labels give distinct keys, so the counts are the same.
- pandas plumbing: column names (`Lat`/`Lon` against `cLat`/`rLat`), the `drop` of label and coordinate columns (a `Row` keeps its features separately) and the index alignment of `pd.concat`; a table that already has a `Label2` column is modelled as having it replaced.
- Floats are exact reals: the eps of pass k is `eps0 + k * step`, without rounding.
- Refinement.AgglomerativeClusteringWithMetrics: the cluster size of pass k is the exact `2.0 - 0.05 k`, so the model runs at most 40 passes, the last at `cl_size == 0.05`. Repeatedly subtracting the float 0.05 drifts below these values (1.6999999999999997 at pass 6, 0.0999999999999988 at pass 38), so the original stops after at most 39 passes and never runs the pass at 0.05.
- Refinement.PassRows: the budget is `Trunc(nb_clusters * (2.0 - 0.05 k))` on exact reals. With the drifted float `cl_size`, `int(nb_clusters * cl_size)` is one lower on many passes: for `nb_clusters` 10 on passes 6, 8, ..., 38 (16 instead of 17, ..., 0 instead of 1), for `nb_clusters` 4 on passes 5, 10, ..., 35.
- Density.EpsSearch: the original loops forever when no eps is ever accepted; the model runs at most `fuel` passes and then reports NoConvergence, so it says nothing about runs longer than the fuel.
- Refinement.AgglomerativeClusteringWithMetrics: the original keeps the `(cl_size, metric)` history in a local list; the model returns it as a second result so that it can be specified.
- Density.DistanceClusteringDbscan: numpy's integer label type is modelled as an unbounded integer.
