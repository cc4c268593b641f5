/** The intra-cluster distance measure of a second-stage clustering: for every
    cluster the largest distance between two different points of it, summarised
    as (mean, maximum, minimum) over the clusters. */
module IntraDistance {
  import opened Common
  import opened Partition
  import opened Hierarchical

  /** A row of `df.loc[:, ['Label2', 'Lat', 'Lon']]`. */
  datatype DistRow = DistRow(label2: int, lat: real, lon: real)

  /** Geodesic distance in metres between two coordinates (geopy's Vincenty
      distance in kilometres, times 1000). */
  type Distance = (Coord, Coord) -> real

  function Coords(p: DistRow): Coord {
    (p.lat, p.lon)
  }

  function DistRows(rows: seq<Row>): (d: seq<DistRow>)
    ensures |d| == |rows|
    ensures forall i :: 0 <= i < |rows| ==> d[i] == DistRow(rows[i].label2, rows[i].lat, rows[i].lon)
  {
    seq(|rows|, i requires 0 <= i < |rows| => DistRow(rows[i].label2, rows[i].lat, rows[i].lon))
  }

  /** `m` is the value the nested loops leave in `maximum`: 0 when the cluster
      has no two different rows, otherwise the largest distance between two
      different rows (or 0 if every such distance is at most 0). */
  ghost predicate IsMaxPairDist(cluster: seq<DistRow>, dist: Distance, m: real) {
    && m >= 0.0
    && (forall i, j :: 0 <= i < |cluster| && 0 <= j < |cluster| && cluster[i] != cluster[j] ==>
          dist(Coords(cluster[i]), Coords(cluster[j])) <= m)
    && (m == 0.0 || exists i, j :: (0 <= i < |cluster| && 0 <= j < |cluster| && cluster[i] != cluster[j] &&
          dist(Coords(cluster[i]), Coords(cluster[j])) == m))
  }

  /** The value is determined by the cluster and the distance. */
  lemma MaxPairDistUnique(cluster: seq<DistRow>, dist: Distance, m1: real, m2: real)
    requires IsMaxPairDist(cluster, dist, m1) && IsMaxPairDist(cluster, dist, m2)
    ensures m1 == m2
  {
    if m1 != 0.0 {
      var i, j :| 0 <= i < |cluster| && 0 <= j < |cluster| && cluster[i] != cluster[j] &&
        dist(Coords(cluster[i]), Coords(cluster[j])) == m1;
    }
    if m2 != 0.0 {
      var i, j :| 0 <= i < |cluster| && 0 <= j < |cluster| && cluster[i] != cluster[j] &&
        dist(Coords(cluster[i]), Coords(cluster[j])) == m2;
    }
  }

  /** A cluster without two different rows (at most one distinct row) measures 0. */
  lemma MaxPairDistSingleton(cluster: seq<DistRow>, dist: Distance, m: real)
    requires IsMaxPairDist(cluster, dist, m)
    requires forall i, j :: 0 <= i < |cluster| && 0 <= j < |cluster| ==> cluster[i] == cluster[j]
    ensures m == 0.0
  {
  }

  /** The nested loops over all ordered pairs of a cluster. */
  method MaxPairwise(cluster: seq<DistRow>, dist: Distance) returns (maximum: real)
    ensures IsMaxPairDist(cluster, dist, maximum)
  {
    maximum := 0.0;
    for i := 0 to |cluster|
      invariant maximum >= 0.0
      invariant forall a, b :: 0 <= a < i && 0 <= b < |cluster| && cluster[a] != cluster[b] ==>
        dist(Coords(cluster[a]), Coords(cluster[b])) <= maximum
      invariant maximum == 0.0 || exists a, b :: (0 <= a < |cluster| && 0 <= b < |cluster| && cluster[a] != cluster[b] &&
        dist(Coords(cluster[a]), Coords(cluster[b])) == maximum)
    {
      var p1 := cluster[i];
      for j := 0 to |cluster|
        invariant maximum >= 0.0
        invariant forall a, b :: 0 <= a < i && 0 <= b < |cluster| && cluster[a] != cluster[b] ==>
          dist(Coords(cluster[a]), Coords(cluster[b])) <= maximum
        invariant forall b :: 0 <= b < j && p1 != cluster[b] ==> dist(Coords(p1), Coords(cluster[b])) <= maximum
        invariant maximum == 0.0 || exists a, b :: (0 <= a < |cluster| && 0 <= b < |cluster| && cluster[a] != cluster[b] &&
          dist(Coords(cluster[a]), Coords(cluster[b])) == maximum)
      {
        var p2 := cluster[j];
        if p1 != p2 {
          var d := dist(Coords(p1), Coords(p2));
          if d > maximum {
            maximum := d;
          }
        }
      }
    }
  }

  function Sum(s: seq<real>): real {
    if s == [] then 0.0 else s[0] + Sum(s[1..])
  }

  /** Python's max() of a non-empty list. */
  function SeqMax(s: seq<real>): (m: real)
    requires s != []
    ensures m in s
    ensures forall i :: 0 <= i < |s| ==> s[i] <= m
  {
    if |s| == 1 then s[0]
    else
      var rest := SeqMax(s[1..]);
      assert forall i :: 1 <= i < |s| ==> s[i] == s[1..][i - 1];
      if s[0] >= rest then s[0] else rest
  }

  /** Python's min() of a non-empty list. */
  function SeqMin(s: seq<real>): (m: real)
    requires s != []
    ensures m in s
    ensures forall i :: 0 <= i < |s| ==> m <= s[i]
  {
    if |s| == 1 then s[0]
    else
      var rest := SeqMin(s[1..]);
      assert forall i :: 1 <= i < |s| ==> s[i] == s[1..][i - 1];
      if s[0] <= rest then s[0] else rest
  }

  /** A sum of |s| values between lo and hi lies between |s|·lo and |s|·hi. */
  lemma {:induction false} SumBounds(s: seq<real>, lo: real, hi: real)
    requires forall i :: 0 <= i < |s| ==> lo <= s[i] <= hi
    ensures |s| as real * lo <= Sum(s) <= |s| as real * hi
  {
    if s != [] {
      assert forall i :: 0 <= i < |s| - 1 ==> s[1..][i] == s[i + 1];
      SumBounds(s[1..], lo, hi);
      assert |s| as real * lo == (|s| - 1) as real * lo + lo;
      assert |s| as real * hi == (|s| - 1) as real * hi + hi;
    }
  }

  lemma DivideBounds(total: real, n: real, lo: real, hi: real)
    requires n > 0.0
    requires n * lo <= total <= n * hi
    ensures lo <= total / n <= hi
  {
  }

  /** The mean of values between lo and hi is between lo and hi. */
  lemma MeanBetween(s: seq<real>, lo: real, hi: real)
    requires s != []
    requires forall i :: 0 <= i < |s| ==> lo <= s[i] <= hi
    ensures lo <= Sum(s) / |s| as real <= hi
  {
    var n, total := |s| as real, Sum(s);
    SumBounds(s, lo, hi);
    DivideBounds(total, n, lo, hi);
  }

  /** The mean of a non-empty list lies between its minimum and its maximum. */
  lemma MinMeanMax(s: seq<real>)
    requires s != []
    ensures SeqMin(s) <= Sum(s) / |s| as real <= SeqMax(s)
  {
    MeanBetween(s, SeqMin(s), SeqMax(s));
  }

  /** The list `cluster_array[int(label)]` a row is appended to, -1 when the
      index is out of range for a list of `max(nb, 0)` lists. */
  function SlotKey(nb: int): DistRow -> int {
    (p: DistRow) => match PyIndex(p.label2, Slots(nb)) case Some(c) => c case None => -1
  }

  /** The number of second-stage clusters, `int(n * cl_size)`. */
  function ClusterBudget(n: int, clSize: real): int {
    Trunc(n as real * clSize)
  }

  /** The distance rows of the second-stage clustering run with that budget. */
  function Labelled(rows: seq<Row>, n: int, clSize: real, agglo: Agglomerative): seq<DistRow>
    requires AgglomerativeKeepsLength(agglo)
  {
    DistRows(FeatureSpaceAgglomerative(rows, agglo, Unscaled, ClusterBudget(n, clSize) as real, false))
  }

  /** The filing loop: `cluster_array[int(label)].append(point)` for every row,
      into `max(nb, 0)` lists; an index out of range raises IndexError. */
  method FileByLabel(points: seq<DistRow>, nb: int) returns (r: Result<seq<seq<DistRow>>>)
    ensures r.Err? <==> exists i :: 0 <= i < |points| && PyIndex(points[i].label2, Slots(nb)).None?
    ensures r.Err? ==> r.error == IndexError
    ensures r.Ok? ==> |r.value| == Slots(nb)
    ensures r.Ok? ==> forall c :: 0 <= c < |r.value| ==> r.value[c] == Bucket(points, SlotKey(nb), c)
  {
    var key := SlotKey(nb);
    var clusterArray: seq<seq<DistRow>> := seq(Slots(nb), _ => []);
    for i := 0 to |points|
      invariant |clusterArray| == Slots(nb)
      invariant forall j :: 0 <= j < i ==> PyIndex(points[j].label2, Slots(nb)).Some?
      invariant forall c :: 0 <= c < |clusterArray| ==> clusterArray[c] == Bucket(points[..i], key, c)
    {
      var point := points[i];
      assert points[..i + 1] == points[..i] + [point];
      forall c ensures Bucket(points[..i + 1], key, c) ==
          Bucket(points[..i], key, c) + (if key(point) == c then [point] else []) {
        BucketSnoc(points[..i], point, key, c);
      }
      var slot := PyIndex(point.label2, |clusterArray|);
      if slot.None? {
        return Err(IndexError);
      }
      clusterArray := clusterArray[slot.value := clusterArray[slot.value] + [point]];
    }
    assert points[..|points|] == points;
    return Ok(clusterArray);
  }

  /** The measure of every cluster, in order (`distances.append(maximum)`). */
  method ClusterMaxima(clusters: seq<seq<DistRow>>, dist: Distance) returns (distances: seq<real>)
    ensures |distances| == |clusters|
    ensures forall c :: 0 <= c < |clusters| ==> IsMaxPairDist(clusters[c], dist, distances[c])
  {
    distances := [];
    for c := 0 to |clusters|
      invariant |distances| == c
      invariant forall k :: 0 <= k < c ==> IsMaxPairDist(clusters[k], dist, distances[k])
    {
      var maximum := MaxPairwise(clusters[c], dist);
      distances := distances + [maximum];
    }
  }

  /** `(sum(distances)/len(distances), max(distances), min(distances))`; the
      division comes first, so an empty list raises ZeroDivisionError. */
  function Summary(distances: seq<real>): (r: Result<(real, real, real)>)
    ensures r.Err? <==> distances == []
    ensures r.Err? ==> r.error == ZeroDivisionError
    ensures r.Ok? ==> r.value.2 <= r.value.0 <= r.value.1
    ensures r.Ok? ==> r.value.1 in distances && r.value.2 in distances
    ensures r.Ok? ==> forall i :: 0 <= i < |distances| ==> r.value.2 <= distances[i] <= r.value.1
  {
    if distances == [] then Err(ZeroDivisionError)
    else
      MinMeanMax(distances);
      Ok((Sum(distances) / |distances| as real, SeqMax(distances), SeqMin(distances)))
  }

  /** agglomerative_clustering_mean_distance: clusters the feature space into
      `int(n * cl_size)` clusters, files the rows by `Label2`, measures every
      cluster and returns the mean, the largest and the smallest measure. */
  method AgglomerativeClusteringMeanDistance(rows: seq<Row>, n: int, clSize: real,
                                             agglo: Agglomerative, dist: Distance)
    returns (r: Result<(real, real, real)>, ghost maxima: seq<real>)
    requires AgglomerativeKeepsLength(agglo)
    ensures var nb := ClusterBudget(n, clSize); var points := Labelled(rows, n, clSize, agglo);
      && ((r.Err? && r.error == IndexError) <==>
            exists i :: 0 <= i < |points| && PyIndex(points[i].label2, Slots(nb)).None?)
      && (r.Err? ==> r.error == IndexError || r.error == ZeroDivisionError)
      && (r.Ok? || r.error == ZeroDivisionError ==> (
            && |maxima| == Slots(nb)
            && (forall c :: 0 <= c < |maxima| ==> IsMaxPairDist(Bucket(points, SlotKey(nb), c), dist, maxima[c]))
            && r == Summary(maxima)))
    ensures r.Ok? ==> 0.0 <= r.value.2 <= r.value.0 <= r.value.1
  {
    var nb := ClusterBudget(n, clSize);
    var points := DistRows(FeatureSpaceAgglomerative(rows, agglo, Unscaled, nb as real, false));
    assert points == Labelled(rows, n, clSize, agglo);
    maxima := [];
    var clusterArray := FileByLabel(points, nb);
    if clusterArray.Err? {
      return Err(clusterArray.error), maxima;
    }
    var distances := ClusterMaxima(clusterArray.value, dist);
    maxima := distances;
    r := Summary(distances);
    if r.Ok? {
      assert r.value.2 in distances;
    }
  }
}
