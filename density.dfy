/** Density-based clustering (DBSCAN) with the adaptive search for the
    neighbourhood radius eps: eps starts at a fixed value and grows by a fixed
    step until at most a given fraction of the points is left as noise. */
module Density {
  import opened Common

  /** One eps search: the clustering library, the samples, `min_samples`, the
      first eps and the step by which eps grows after every pass. */
  datatype Run = Run(dbscan: Dbscan, data: seq<seq<real>>, minSamples: nat, eps0: real, step: real)

  /** The eps of pass k (counting from 0). */
  function Eps(run: Run, k: nat): real {
    run.eps0 + k as real * run.step
  }

  /** The labels DBSCAN assigns in pass k. */
  function LabelsAt(run: Run, k: nat): seq<int> {
    run.dbscan(run.data, Eps(run, k), run.minSamples)
  }

  /** `float(n_outliers) / len(labels)`: the fraction of points labelled -1. */
  function NoiseFraction(labels: seq<int>): (r: Result<real>)
    ensures r.Err? <==> labels == []
    ensures r.Err? ==> r.error == ZeroDivisionError
    ensures r.Ok? ==> 0.0 <= r.value <= 1.0
    ensures r.Ok? ==> (r.value == 0.0 <==> -1 !in labels)
  {
    if labels == [] then Err(ZeroDivisionError)
    else Ok(Count(labels, -1) as real / |labels| as real)
  }

  /** A pass whose noise fraction is still above the bound: the loop goes on. */
  predicate Rejected(labels: seq<int>, maxUnlabeled: real) {
    NoiseFraction(labels).Ok? && NoiseFraction(labels).value > maxUnlabeled
  }

  /** `len(set(labels)) - (1 if -1 in labels else 0)`. */
  function ClusterCount(labels: seq<int>): int {
    |set x | x in labels| - (if -1 in labels then 1 else 0)
  }

  /** The cluster count is the number of distinct labels other than -1. */
  lemma ClusterCountDistinct(labels: seq<int>)
    ensures ClusterCount(labels) == |set x | x in labels && x != -1|
  {
    var all := set x | x in labels;
    var clusters := set x | x in labels && x != -1;
    if -1 in labels {
      assert all == clusters + {-1};
    } else {
      assert all == clusters;
    }
  }

  /** The outcome of the search from pass k on, when at most `fuel` passes run in
      total: the index of the first pass whose noise fraction is within the bound. */
  function SearchFrom(run: Run, maxUnlabeled: real, k: nat, fuel: nat): Result<nat>
    decreases fuel - k
  {
    if k >= fuel then Err(NoConvergence)
    else
      var labels := LabelsAt(run, k);
      if labels == [] then Err(ZeroDivisionError)
      else if NoiseFraction(labels).value > maxUnlabeled then SearchFrom(run, maxUnlabeled, k + 1, fuel)
      else Ok(k)
  }

  /** The outcome of the whole search. The loop variable starts at 1.0, so with
      a bound of 1.0 or more the loop body never runs and `labels` is unbound. */
  function Outcome(run: Run, maxUnlabeled: real, fuel: nat): Result<nat> {
    if maxUnlabeled >= 1.0 then Err(UnboundLocalError) else SearchFrom(run, maxUnlabeled, 0, fuel)
  }

  /** What the search from pass k finds: the first accepted pass, a division by
      zero on the first empty labelling, or no convergence within the fuel;
      every pass before the one it stops at was rejected. */
  lemma {:induction false} SearchFromSpec(run: Run, maxUnlabeled: real, k: nat, fuel: nat)
    ensures var o := SearchFrom(run, maxUnlabeled, k, fuel);
      && (o.Ok? ==> k <= o.value < fuel && !Rejected(LabelsAt(run, o.value), maxUnlabeled)
                    && NoiseFraction(LabelsAt(run, o.value)).Ok?
                    && forall j :: k <= j < o.value ==> Rejected(LabelsAt(run, j), maxUnlabeled))
      && (o.Err? ==> o.error == NoConvergence || o.error == ZeroDivisionError)
      && (o.Err? && o.error == NoConvergence ==>
            forall j :: k <= j < fuel ==> Rejected(LabelsAt(run, j), maxUnlabeled))
      && (o.Err? && o.error == ZeroDivisionError ==>
            exists p :: k <= p < fuel && LabelsAt(run, p) == [] &&
              forall j :: k <= j < p ==> Rejected(LabelsAt(run, j), maxUnlabeled))
    decreases fuel - k
  {
    if k < fuel && LabelsAt(run, k) != [] && NoiseFraction(LabelsAt(run, k)).value > maxUnlabeled {
      SearchFromSpec(run, maxUnlabeled, k + 1, fuel);
      var o := SearchFrom(run, maxUnlabeled, k + 1, fuel);
      if o.Err? && o.error == ZeroDivisionError {
        var p :| k + 1 <= p < fuel && LabelsAt(run, p) == [] &&
          forall j :: k + 1 <= j < p ==> Rejected(LabelsAt(run, j), maxUnlabeled);
        assert forall j :: k <= j < p ==> Rejected(LabelsAt(run, j), maxUnlabeled);
      }
    }
  }

  /** Conversely, a pass within the fuel that is accepted after only rejected
      passes is the one the search finds. */
  lemma {:induction false} SearchFromFinds(run: Run, maxUnlabeled: real, k: nat, p: nat, fuel: nat)
    requires k <= p < fuel
    requires NoiseFraction(LabelsAt(run, p)).Ok? && !Rejected(LabelsAt(run, p), maxUnlabeled)
    requires forall j :: k <= j < p ==> Rejected(LabelsAt(run, j), maxUnlabeled)
    ensures SearchFrom(run, maxUnlabeled, k, fuel) == Ok(p)
    decreases p - k
  {
    if k < p {
      SearchFromFinds(run, maxUnlabeled, k + 1, p, fuel);
    }
  }

  /** The state the search leaves behind when it succeeds. */
  datatype Search = Search(labels: seq<int>, eps: real, passes: nat, nClusters: int, nOutliers: nat)

  /** The `while unlabeled > max_unlabeled` loop, with at most `fuel` passes:
      each pass runs DBSCAN at the current eps, counts clusters and outliers,
      updates the noise fraction and grows eps by one step. */
  method EpsSearch(run: Run, maxUnlabeled: real, fuel: nat) returns (r: Result<Search>)
    ensures r.Err? <==> Outcome(run, maxUnlabeled, fuel).Err?
    ensures r.Err? ==> r.error == Outcome(run, maxUnlabeled, fuel).error
    ensures r.Ok? ==> var s := r.value;
      && s.passes == Outcome(run, maxUnlabeled, fuel).value + 1
      && s.labels == LabelsAt(run, s.passes - 1)
      && s.eps == Eps(run, s.passes)
      && s.nOutliers == Count(s.labels, -1)
      && s.nClusters == ClusterCount(s.labels)
  {
    var unlabeled := 1.0;
    var eps := run.eps0;
    var passes: nat := 0;
    var labels: seq<int> := [];
    var nClusters := 0;
    var nOutliers: nat := 0;
    while unlabeled > maxUnlabeled
      invariant eps == Eps(run, passes)
      invariant passes <= fuel
      invariant passes == 0 ==> unlabeled == 1.0
      invariant passes > 0 ==> maxUnlabeled < 1.0
      invariant passes > 0 ==> labels == LabelsAt(run, passes - 1) && labels != []
      invariant passes > 0 ==> unlabeled == NoiseFraction(labels).value
      invariant passes > 0 ==> nOutliers == Count(labels, -1) && nClusters == ClusterCount(labels)
      invariant maxUnlabeled < 1.0 ==>
        forall j :: 0 <= j < passes - 1 ==> Rejected(LabelsAt(run, j), maxUnlabeled)
      invariant maxUnlabeled < 1.0 && passes > 0 ==>
        SearchFrom(run, maxUnlabeled, 0, fuel) == SearchFrom(run, maxUnlabeled, passes - 1, fuel)
      decreases fuel - passes
    {
      if passes == fuel {
        SearchFromSpec(run, maxUnlabeled, 0, fuel);
        if passes > 0 {
          assert Rejected(LabelsAt(run, passes - 1), maxUnlabeled);
        }
        return Err(NoConvergence);
      }
      labels := run.dbscan(run.data, eps, run.minSamples);
      nClusters := ClusterCount(labels);
      nOutliers := Count(labels, -1);
      if |labels| == 0 {
        SearchFromSpec(run, maxUnlabeled, 0, fuel);
        return Err(ZeroDivisionError);
      }
      unlabeled := nOutliers as real / |labels| as real;
      eps := eps + run.step;
      passes := passes + 1;
    }
    if passes == 0 {
      return Err(UnboundLocalError);
    }
    SearchFromFinds(run, maxUnlabeled, 0, passes - 1, fuel);
    return Ok(Search(labels, eps, passes, nClusters, nOutliers));
  }

  /** The search of distance_clustering_dbscan: DBSCAN on the points'
      coordinates with `min_samples` 2, eps from 0.00005 in steps of 0.00001. */
  function DistanceRun(dbscan: Dbscan, points: seq<Point>): Run {
    Run(dbscan, GeoData(points), 2, 0.00005, 0.00001)
  }

  /** distance_clustering_dbscan: runs the eps search on the coordinates, then
      writes each point's DBSCAN label into its `track_ID` and returns the
      number of clusters plus one. When the search fails nothing is written. */
  method DistanceClusteringDbscan(dataset: array<Point>, dbscan: Dbscan, fuel: nat,
                                  maxUnlabeled: real := 0.05) returns (r: Result<int>)
    requires DbscanKeepsLength(dbscan)
    modifies dataset
    ensures var o := Outcome(DistanceRun(dbscan, old(dataset[..])), maxUnlabeled, fuel);
      && (r.Err? <==> o.Err?)
      && (r.Err? ==> r.error == o.error && dataset[..] == old(dataset[..]))
      && (r.Ok? ==> var labels := LabelsAt(DistanceRun(dbscan, old(dataset[..])), o.value);
            && r.value == ClusterCount(labels) + 1
            && forall i :: 0 <= i < dataset.Length ==> dataset[i] == old(dataset[i]).(track := Some(labels[i])))
  {
    var run := DistanceRun(dbscan, dataset[..]);
    var search := EpsSearch(run, maxUnlabeled, fuel);
    if search.Err? {
      return Err(search.error);
    }
    var labels := search.value.labels;
    assert |labels| == |run.data| == dataset.Length;
    ghost var before := dataset[..];
    for i := 0 to dataset.Length
      invariant forall j :: 0 <= j < i ==> dataset[j] == before[j].(track := Some(labels[j]))
      invariant forall j :: i <= j < dataset.Length ==> dataset[j] == before[j]
    {
      dataset[i] := dataset[i].(track := Some(labels[i]));
    }
    return Ok(search.value.nClusters + 1);
  }

  /** The search of clustering_feature_space_dbscan: DBSCAN on the feature
      columns, standardised and searched from eps 2 in steps of 0.1 when
      `normalize` holds, raw and searched from eps 120 in steps of 5 otherwise. */
  function FeatureRun(dbscan: Dbscan, scale: Scaler, rows: seq<Row>, minSamples: nat, normalize: bool): Run {
    if normalize then Run(dbscan, scale(Features(rows)), minSamples, 2.0, 0.1)
    else Run(dbscan, Features(rows), minSamples, 120.0, 5.0)
  }

  /** clustering_feature_space_dbscan: runs the eps search on the feature
      columns and returns the table with the final labels as its `Label2`
      column, together with the number of clusters plus one. */
  method FeatureSpaceDbscan(rows: seq<Row>, dbscan: Dbscan, scale: Scaler, fuel: nat,
                            maxUnlabeled: real := 0.05, minSamples: nat := 5, normalize: bool := true)
    returns (r: Result<(seq<Row>, int)>)
    requires DbscanKeepsLength(dbscan) && ScalerKeepsLength(scale)
    ensures var run := FeatureRun(dbscan, scale, rows, minSamples, normalize);
      var o := Outcome(run, maxUnlabeled, fuel);
      && (r.Err? <==> o.Err?)
      && (r.Err? ==> r.error == o.error)
      && (r.Ok? ==> var labels := LabelsAt(run, o.value);
            && r.value.1 == ClusterCount(labels) + 1
            && |r.value.0| == |rows|
            && forall i :: 0 <= i < |rows| ==>
                 r.value.0[i].label2 == labels[i] && r.value.0[i].(label2 := rows[i].label2) == rows[i])
  {
    var run := FeatureRun(dbscan, scale, rows, minSamples, normalize);
    var search := EpsSearch(run, maxUnlabeled, fuel);
    if search.Err? {
      return Err(search.error);
    }
    var labels := search.value.labels;
    assert |labels| == |run.data| == |rows|;
    return Ok((WithLabel2(rows, labels), search.value.nClusters + 1));
  }
}
