/** Splitting a labelled collection into one list per cluster label. */
module Partition {
  import opened Common

  /** The elements of `s` whose key is `c`, in their original order. */
  function Bucket<T>(s: seq<T>, key: T -> int, c: int): (b: seq<T>)
    ensures |b| <= |s|
    ensures forall x :: x in b ==> x in s && key(x) == c
  {
    if s == [] then []
    else Bucket(s[..|s| - 1], key, c) + (if key(s[|s| - 1]) == c then [s[|s| - 1]] else [])
  }

  /** Number of elements of `s` with a non-negative key (the non-noise ones). */
  function Assigned<T>(s: seq<T>, key: T -> int): (n: nat)
    ensures n <= |s|
  {
    if s == [] then 0
    else Assigned(s[..|s| - 1], key) + (if key(s[|s| - 1]) >= 0 then 1 else 0)
  }

  /** Total size of buckets 0 .. n-1. */
  function SizeSum<T>(s: seq<T>, key: T -> int, n: int): nat
    decreases if n > 0 then n else 0
  {
    if n <= 0 then 0 else SizeSum(s, key, n - 1) + |Bucket(s, key, n - 1)|
  }

  lemma BucketSnoc<T>(s: seq<T>, x: T, key: T -> int, c: int)
    ensures Bucket(s + [x], key, c) == Bucket(s, key, c) + (if key(x) == c then [x] else [])
  {
    assert (s + [x])[..|s|] == s;
  }

  /** A bucket holds every copy of each element with its key, and nothing else. */
  lemma {:induction false} BucketMultiset<T>(s: seq<T>, key: T -> int, c: int, x: T)
    ensures multiset(Bucket(s, key, c))[x] == if key(x) == c then multiset(s)[x] else 0
  {
    if s != [] {
      var init, last := s[..|s| - 1], s[|s| - 1];
      assert s == init + [last];
      BucketMultiset(init, key, c, x);
    }
  }

  /** Adding one element grows exactly one of the buckets 0 .. n-1, if its key is in range. */
  lemma {:induction false} SizeSumSnoc<T>(s: seq<T>, x: T, key: T -> int, n: int)
    ensures SizeSum(s + [x], key, n) == SizeSum(s, key, n) + (if 0 <= key(x) < n then 1 else 0)
    decreases if n > 0 then n else 0
  {
    if n > 0 {
      SizeSumSnoc(s, x, key, n - 1);
      BucketSnoc(s, x, key, n - 1);
    }
  }

  /** When every key is below `n`, buckets 0 .. n-1 together hold exactly the
      elements with a non-negative key. */
  lemma {:induction false} BucketSizes<T>(s: seq<T>, key: T -> int, n: int)
    requires forall i :: 0 <= i < |s| ==> key(s[i]) < n
    ensures SizeSum(s, key, n) == Assigned(s, key)
  {
    if s == [] {
      assert SizeSum(s, key, n) == 0 by { EmptySizeSum(key, n); }
    } else {
      var init, last := s[..|s| - 1], s[|s| - 1];
      assert s == init + [last];
      BucketSizes(init, key, n);
      SizeSumSnoc(init, last, key, n);
    }
  }

  lemma {:induction false} EmptySizeSum<T>(key: T -> int, n: int)
    ensures SizeSum([], key, n) == 0
    decreases if n > 0 then n else 0
  {
    if n > 0 { EmptySizeSum(key, n - 1); }
  }

  // ---------------------------------------------------------------------------
  // cluster_split

  /** The bucket index of a point: its `track_ID`, with -1 standing for a point
      that has none (such a point makes cluster_split fail before it is bucketed). */
  function TrackKey(p: Point): int {
    if p.track.Some? then p.track.value else -1
  }

  /** cluster_split can file this point: it has a `track_ID` and that id is
      a valid list index (negative ids are skipped, so only the upper bound matters). */
  predicate Fileable(p: Point, nbClusters: int) {
    p.track.Some? && p.track.value < Slots(nbClusters)
  }

  /** The error cluster_split raises on the first point it cannot file. */
  function SplitError(p: Point): PyError {
    if p.track.None? then KeyError else IndexError
  }

  /** cluster_split: `nb_clusters` lists, list c holding, in order, the points
      whose `track_ID` is c; points with a negative id are skipped. */
  method ClusterSplit(dataset: seq<Point>, nbClusters: int) returns (r: Result<seq<seq<Point>>>)
    ensures r.Ok? <==> forall i :: 0 <= i < |dataset| ==> Fileable(dataset[i], nbClusters)
    ensures r.Ok? ==> |r.value| == Slots(nbClusters)
    ensures r.Ok? ==> forall c :: 0 <= c < |r.value| ==> r.value[c] == Bucket(dataset, TrackKey, c)
    ensures r.Err? ==> exists i :: (0 <= i < |dataset| && !Fileable(dataset[i], nbClusters) &&
      (forall j :: 0 <= j < i ==> Fileable(dataset[j], nbClusters)) && r.error == SplitError(dataset[i]))
  {
    var buckets: seq<seq<Point>> := seq(Slots(nbClusters), _ => []);
    for i := 0 to |dataset|
      invariant |buckets| == Slots(nbClusters)
      invariant forall j :: 0 <= j < i ==> Fileable(dataset[j], nbClusters)
      invariant forall c :: 0 <= c < |buckets| ==> buckets[c] == Bucket(dataset[..i], TrackKey, c)
    {
      var point := dataset[i];
      assert dataset[..i + 1] == dataset[..i] + [point];
      forall c ensures Bucket(dataset[..i + 1], TrackKey, c) ==
          Bucket(dataset[..i], TrackKey, c) + (if TrackKey(point) == c then [point] else []) {
        BucketSnoc(dataset[..i], point, TrackKey, c);
      }
      if point.track.None? {
        return Err(KeyError);
      }
      var clusterId := point.track.value;
      if clusterId >= 0 {
        if clusterId >= |buckets| {
          return Err(IndexError);
        }
        buckets := buckets[clusterId := buckets[clusterId] + [point]];
      }
    }
    assert dataset[..|dataset|] == dataset;
    return Ok(buckets);
  }

  /** Once cluster_split succeeds, its list sizes add up to the number of
      points with a non-negative `track_ID`: every such point is filed once. */
  lemma ClusterSplitSizes(dataset: seq<Point>, nbClusters: int)
    requires forall i :: 0 <= i < |dataset| ==> Fileable(dataset[i], nbClusters)
    ensures SizeSum(dataset, TrackKey, Slots(nbClusters)) == Assigned(dataset, TrackKey)
  {
    BucketSizes(dataset, TrackKey, Slots(nbClusters));
  }

  /** List c of cluster_split holds each point whose `track_ID` is c exactly as
      often as the dataset does, and no other point; so a point with a
      negative id is in no list. */
  lemma ClusterSplitMembers(dataset: seq<Point>, c: int, p: Point)
    requires c >= 0
    ensures multiset(Bucket(dataset, TrackKey, c))[p] ==
            if p.track == Some(c) then multiset(dataset)[p] else 0
  {
    BucketMultiset(dataset, TrackKey, c, p);
  }

  // ---------------------------------------------------------------------------
  // split_by_cluster

  /** The key of a row in the chosen label column. */
  function ColumnKey(col: LabelColumn): Row -> int {
    r => LabelOf(r, col)
  }

  /** The largest label of a non-empty column (`db.loc[:, [metrics]].max()`). */
  function MaxLabel(rows: seq<Row>, col: LabelColumn): (n: int)
    requires rows != []
    ensures forall i :: 0 <= i < |rows| ==> LabelOf(rows[i], col) <= n
    ensures exists i :: 0 <= i < |rows| && LabelOf(rows[i], col) == n
  {
    if |rows| == 1 then LabelOf(rows[0], col)
    else
      var m := MaxLabel(rows[..|rows| - 1], col);
      assert forall i :: 0 <= i < |rows| - 1 ==> rows[..|rows| - 1][i] == rows[i];
      var last := LabelOf(rows[|rows| - 1], col);
      if last > m then last else m
  }

  /** split_by_cluster: with n the largest label, the n + 1 sub-tables of the
      rows labelled 0, 1, ..., n (each in the original order), and n itself.
      An empty table has no maximum to convert, which raises ValueError. */
  function SplitByCluster(rows: seq<Row>, col: LabelColumn := Label1): (r: Result<(seq<seq<Row>>, int)>)
    ensures r.Err? <==> rows == []
    ensures r.Err? ==> r.error == ValueError
    ensures r.Ok? ==> forall i :: 0 <= i < |rows| ==> LabelOf(rows[i], col) <= r.value.1
    ensures r.Ok? ==> exists i :: 0 <= i < |rows| && LabelOf(rows[i], col) == r.value.1
    ensures r.Ok? ==> |r.value.0| == Slots(r.value.1 + 1)
    ensures r.Ok? ==> forall c :: 0 <= c < |r.value.0| ==>
      forall x :: x in r.value.0[c] ==> x in rows && LabelOf(x, col) == c
  {
    if rows == [] then Err(ValueError)
    else
      var n := MaxLabel(rows, col);
      Ok((seq(Slots(n + 1), c requires 0 <= c < Slots(n + 1) => Bucket(rows, ColumnKey(col), c)), n))
  }

  /** The sub-tables of split_by_cluster partition the rows with a non-negative
      label: their sizes add up to the number of such rows, and sub-table c
      holds every row labelled c, as often as the table does, and nothing else.
      Rows labelled -1 therefore appear in none of them. */
  lemma SplitByClusterPartition(rows: seq<Row>, col: LabelColumn)
    requires rows != []
    ensures var (buckets, n) := SplitByCluster(rows, col).value;
      && SizeSum(rows, ColumnKey(col), |buckets|) == Assigned(rows, ColumnKey(col))
      && forall c, x :: 0 <= c < |buckets| ==>
           multiset(buckets[c])[x] == if LabelOf(x, col) == c then multiset(rows)[x] else 0
  {
    var (buckets, n) := SplitByCluster(rows, col).value;
    BucketSizes(rows, ColumnKey(col), |buckets|);
    forall c, x | 0 <= c < |buckets|
      ensures multiset(buckets[c])[x] == if LabelOf(x, col) == c then multiset(rows)[x] else 0
    {
      BucketMultiset(rows, ColumnKey(col), c, x);
    }
  }
}
