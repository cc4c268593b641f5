/** The second-stage refinement driver: re-clusters the feature space with a
    shrinking cluster budget until the agreement with the first-stage labels
    exceeds a goal. */
module Refinement {
  import opened Common
  import opened Agreement
  import opened AgreementProperties
  import opened Hierarchical

  /** `cl_size` starts at 2.0 and drops by 0.05 after each pass; the loop stops
      once it falls below 0.05. With exact arithmetic the last possible pass
      runs at `cl_size == 0.05`, so there are at most this many passes. */
  const MaxPasses: nat := 40

  /** `cl_size` during pass k, counting passes from 0. */
  function PassSize(k: int): real {
    2.0 - k as real * 0.05
  }

  /** The table labelled by pass k, clustered with budget `nb_clusters * cl_size`. */
  function PassRows(rows: seq<Row>, nbClusters: int, agglo: Agglomerative, k: int): (out: seq<Row>)
    requires AgglomerativeKeepsLength(agglo)
    ensures |out| == |rows|
  {
    FeatureSpaceAgglomerative(rows, agglo, Unscaled, nbClusters as real * PassSize(k), false)
  }

  /** The agreement score of pass k. */
  ghost function PassMetric(rows: seq<Row>, nbClusters: int, agglo: Agglomerative, k: int): Result<real>
    requires AgglomerativeKeepsLength(agglo)
  {
    Metric(Pairs(PassRows(rows, nbClusters, agglo, k)))
  }

  /** A history entry records pass k: the cluster size of that pass and the
      agreement score it reached. */
  ghost predicate Recorded(rows: seq<Row>, nbClusters: int, agglo: Agglomerative, k: int, entry: (real, real))
    requires AgglomerativeKeepsLength(agglo)
  {
    entry.0 == PassSize(k) && PassMetric(rows, nbClusters, agglo, k) == Ok(entry.1)
  }

  /** `history` records passes 0, 1, ..., |history| - 1, in order. */
  ghost predicate Records(rows: seq<Row>, nbClusters: int, agglo: Agglomerative, history: seq<(real, real)>)
    requires AgglomerativeKeepsLength(agglo)
  {
    forall i {:trigger Recorded(rows, nbClusters, agglo, i, history[i])} ::
      0 <= i < |history| ==> Recorded(rows, nbClusters, agglo, i, history[i])
  }

  /** `outcome(k)` is what pass k produces: its labelled table and its
      agreement score, for every k. */
  ghost predicate Outcomes(rows: seq<Row>, nbClusters: int, agglo: Agglomerative,
                           outcome: int -> (seq<Row>, Result<real>))
    requires AgglomerativeKeepsLength(agglo)
  {
    forall k {:trigger PassRows(rows, nbClusters, agglo, k)} ::
      outcome(k) == (PassRows(rows, nbClusters, agglo, k), PassMetric(rows, nbClusters, agglo, k))
  }

  /** The outcomes of all passes as one value. Callers see only its contract,
      which keeps the definitions of the clustering pass and of the agreement
      metric out of the loop's reasoning. */
  lemma PassOutcomes(rows: seq<Row>, nbClusters: int, agglo: Agglomerative)
    returns (outcome: int -> (seq<Row>, Result<real>))
    requires AgglomerativeKeepsLength(agglo)
    ensures Outcomes(rows, nbClusters, agglo, outcome)
  {
    outcome := k => (PassRows(rows, nbClusters, agglo, k), PassMetric(rows, nbClusters, agglo, k));
  }

  /** A history whose entry i holds the cluster size and the score of pass i
      records the passes. */
  lemma RecordsByOutcome(rows: seq<Row>, nbClusters: int, agglo: Agglomerative,
                         outcome: int -> (seq<Row>, Result<real>), history: seq<(real, real)>)
    requires AgglomerativeKeepsLength(agglo)
    requires Outcomes(rows, nbClusters, agglo, outcome)
    requires forall i :: 0 <= i < |history| ==> history[i].0 == PassSize(i)
    requires forall i :: 0 <= i < |history| ==> outcome(i).1 == Ok(history[i].1)
    ensures Records(rows, nbClusters, agglo, history)
  {
  }

  /** One pass of the loop body: the table labelled by pass k and its
      agreement score, which fails exactly on an empty table. */
  method Pass(rows: seq<Row>, nbClusters: int, agglo: Agglomerative, k: nat,
              ghost outcome: int -> (seq<Row>, Result<real>))
    returns (labelled: seq<Row>, metric: Result<real>)
    requires AgglomerativeKeepsLength(agglo)
    requires Outcomes(rows, nbClusters, agglo, outcome)
    ensures (labelled, metric) == outcome(k)
    ensures metric.Err? <==> rows == []
    ensures metric.Err? ==> metric.error == ZeroDivisionError
    ensures metric.Ok? ==> 0.0 < metric.value <= 1.0
  {
    labelled := PassRows(rows, nbClusters, agglo, k);
    metric := PointFraction(labelled);
    assert metric == PassMetric(rows, nbClusters, agglo, k);
    MetricRange(Pairs(labelled));
  }

  /** The loop of agglomerative_clustering_with_metrics, with what pass k
      produces given as `outcome(k)`. */
  method Refine(rows: seq<Row>, nbClusters: int, agglo: Agglomerative, goal: real,
                ghost outcome: int -> (seq<Row>, Result<real>))
    returns (r: Result<seq<Row>>, history: seq<(real, real)>)
    requires AgglomerativeKeepsLength(agglo)
    requires Outcomes(rows, nbClusters, agglo, outcome)
    ensures r.Err? <==> rows == []
    ensures r.Err? ==> r.error == ZeroDivisionError && history == []
    ensures r.Ok? ==> 1 <= |history| <= MaxPasses
    ensures r.Ok? ==> forall i :: 0 <= i < |history| ==> history[i].0 == PassSize(i)
    ensures r.Ok? ==> forall i :: 0 <= i < |history| ==> outcome(i).1 == Ok(history[i].1)
    ensures r.Ok? ==> forall i :: 0 <= i < |history| ==> 0.0 < history[i].1 <= 1.0
    ensures r.Ok? ==> forall i :: 0 <= i < |history| - 1 ==> history[i].1 <= goal
    ensures r.Ok? ==> history[|history| - 1].1 > goal || |history| == MaxPasses
    ensures r.Ok? ==> r.value == outcome(|history| - 1).0
  {
    var clSize := 2.0;
    history := [];
    var labelled := rows;
    while true
      invariant |history| < MaxPasses
      invariant clSize == PassSize(|history|)
      invariant history != [] ==> rows != []
      invariant history != [] ==> labelled == outcome(|history| - 1).0
      invariant forall i :: 0 <= i < |history| ==> history[i].0 == PassSize(i)
      invariant forall i :: 0 <= i < |history| ==> outcome(i).1 == Ok(history[i].1)
      invariant forall i :: 0 <= i < |history| ==> 0.0 < history[i].1 <= 1.0
      invariant forall i :: 0 <= i < |history| ==> history[i].1 <= goal
      decreases MaxPasses - |history|
    {
      var metric;
      labelled, metric := Pass(rows, nbClusters, agglo, |history|, outcome);
      if metric.Err? {
        return Err(metric.error), history;
      }
      history := history + [(clSize, metric.value)];
      clSize := clSize - 0.05;
      if clSize < 0.0 + 0.05 || metric.value > goal {
        break;
      }
    }
    return Ok(labelled), history;
  }

  /** agglomerative_clustering_with_metrics: one clustering pass per cluster
      size, from 2.0 downwards in steps of 0.05, recording `(cl_size, metric)`
      for each, until a pass scores above `goal` or the cluster size drops
      below one step; the table of the last pass is returned. The original
      keeps the history in a local list; here it is returned as well so that
      it can be specified. */
  method AgglomerativeClusteringWithMetrics(rows: seq<Row>, nbClusters: int, agglo: Agglomerative,
                                            goal: real := 0.96)
    returns (r: Result<seq<Row>>, history: seq<(real, real)>)
    requires AgglomerativeKeepsLength(agglo)
    ensures r.Err? <==> rows == []
    ensures r.Err? ==> r.error == ZeroDivisionError && history == []
    ensures r.Ok? ==> 1 <= |history| <= MaxPasses
    ensures r.Ok? ==> Records(rows, nbClusters, agglo, history)
    ensures r.Ok? ==> forall i :: 0 <= i < |history| ==> 0.0 < history[i].1 <= 1.0
    ensures r.Ok? ==> forall i :: 0 <= i < |history| - 1 ==> history[i].1 <= goal
    ensures r.Ok? ==> history[|history| - 1].1 > goal || |history| == MaxPasses
    ensures r.Ok? ==> r.value == PassRows(rows, nbClusters, agglo, |history| - 1)
    ensures r.Ok? && goal >= 1.0 ==> |history| == MaxPasses
  {
    ghost var outcome := PassOutcomes(rows, nbClusters, agglo);
    r, history := Refine(rows, nbClusters, agglo, goal, outcome);
    if r.Ok? {
      RecordsByOutcome(rows, nbClusters, agglo, outcome, history);
    }
  }
}
