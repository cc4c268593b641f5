/** Hierarchical (agglomerative) clustering: the geographic clustering with
    small-cluster suppression, and the feature-space clustering that attaches a
    second-stage label to a table. */
module Hierarchical {
  import opened Common

  /** The label a point keeps after suppression: its cluster id when the
      cluster has at least `minPoints` members in `clusters`, otherwise -1. */
  function KeepOrNoise(x: int, clusters: seq<int>, minPoints: int): int {
    if Count(clusters, x) >= minPoints then x else -1
  }

  /** Small-cluster suppression of a whole label sequence. */
  function Suppressed(clusters: seq<int>, minPoints: int): (r: seq<int>)
    ensures |r| == |clusters|
    ensures forall i :: 0 <= i < |r| ==> r[i] == clusters[i] || r[i] == -1
  {
    seq(|clusters|, i requires 0 <= i < |clusters| => KeepOrNoise(clusters[i], clusters, minPoints))
  }

  /** Counting a label other than -1 in a pointwise-suppressed sequence: each
      occurrence survives exactly when its cluster is large enough in `full`. */
  lemma {:induction false} CountKept(p: seq<int>, q: seq<int>, full: seq<int>, minPoints: int, x: int)
    requires |p| == |q|
    requires forall i :: 0 <= i < |p| ==> q[i] == KeepOrNoise(p[i], full, minPoints)
    requires x != -1
    ensures Count(q, x) == if Count(full, x) >= minPoints then Count(p, x) else 0
  {
    if p != [] {
      var n := |p| - 1;
      CountKept(p[..n], q[..n], full, minPoints, x);
    }
  }

  /** A label other than -1 occurs in the suppressed sequence as often as in
      the input when its cluster is large enough, and not at all otherwise. */
  lemma SuppressedCount(clusters: seq<int>, minPoints: int, x: int)
    requires x != -1
    ensures Count(Suppressed(clusters, minPoints), x) ==
            if Count(clusters, x) >= minPoints then Count(clusters, x) else 0
  {
    CountKept(clusters, Suppressed(clusters, minPoints), clusters, minPoints, x);
  }

  /** Every label that survives suppression (other than -1) labels at least
      `minPoints` points of the result. */
  lemma SuppressedSurvivors(clusters: seq<int>, minPoints: int)
    ensures var r := Suppressed(clusters, minPoints);
      forall i :: 0 <= i < |r| && r[i] != -1 ==> Count(r, r[i]) >= minPoints
  {
    var r := Suppressed(clusters, minPoints);
    forall i | 0 <= i < |r| && r[i] != -1
      ensures Count(r, r[i]) >= minPoints
    {
      SuppressedCount(clusters, minPoints, r[i]);
    }
  }

  /** Suppressing an already suppressed labelling changes nothing. */
  lemma SuppressedIdempotent(clusters: seq<int>, minPoints: int)
    ensures Suppressed(Suppressed(clusters, minPoints), minPoints) == Suppressed(clusters, minPoints)
  {
    var r := Suppressed(clusters, minPoints);
    var rr := Suppressed(r, minPoints);
    forall i | 0 <= i < |r|
      ensures rr[i] == r[i]
    {
      if r[i] != -1 {
        SuppressedCount(clusters, minPoints, r[i]);
      }
    }
  }

  /** distance_clustering_agglomerative: clusters the points' coordinates with
      average linkage into `nbClusters` clusters, then writes into every point
      its cluster id, or -1 when that cluster has fewer than `minPoints` points. */
  method DistanceClusteringAgglomerative(dataset: array<Point>, agglo: Agglomerative,
                                         nbClusters: int := 10, minPoints: int := 5)
    requires AgglomerativeKeepsLength(agglo)
    modifies dataset
    ensures var clusters := agglo(GeoData(old(dataset[..])), nbClusters, Average);
      forall i :: 0 <= i < dataset.Length ==>
        dataset[i] == old(dataset[i]).(track := Some(Suppressed(clusters, minPoints)[i]))
  {
    var clusters := agglo(GeoData(dataset[..]), nbClusters, Average);
    ghost var before := dataset[..];
    for i := 0 to dataset.Length
      invariant forall j :: 0 <= j < i ==>
        dataset[j] == before[j].(track := Some(Suppressed(clusters, minPoints)[j]))
      invariant forall j :: i <= j < dataset.Length ==> dataset[j] == before[j]
    {
      if Count(clusters, clusters[i]) >= minPoints {
        dataset[i] := dataset[i].(track := Some(clusters[i]));
      } else {
        dataset[i] := dataset[i].(track := Some(-1));
      }
    }
  }

  /** clustering_feature_space_agglomerative: Ward-linkage clustering of the
      feature columns (standardised first when `normalize` holds) into
      `int(nbClusters)` clusters; the labels become the `Label2` column. */
  function FeatureSpaceAgglomerative(rows: seq<Row>, agglo: Agglomerative, scale: Scaler,
                                     nbClusters: real := 10.0, normalize: bool := false): (out: seq<Row>)
    requires AgglomerativeKeepsLength(agglo) && ScalerKeepsLength(scale)
    ensures |out| == |rows|
    ensures forall i :: 0 <= i < |rows| ==> out[i].(label2 := rows[i].label2) == rows[i]
    ensures var data := if normalize then scale(Features(rows)) else Features(rows);
      forall i :: 0 <= i < |rows| ==> out[i].label2 == agglo(data, Trunc(nbClusters), Ward)[i]
  {
    var data := if normalize then scale(Features(rows)) else Features(rows);
    WithLabel2(rows, agglo(data, Trunc(nbClusters), Ward))
  }
}
