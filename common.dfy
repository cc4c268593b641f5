/** Shared vocabulary of the clustering core: the records it labels, the Python
    errors its operations can raise, the library calls it treats as oracles, and
    small label-counting functions used by every component. */
module Common {

  /** The Python exceptions that the core's operations can raise on bad input.
      NoConvergence is not raised by the original: it reports that the explicit
      pass bound of the eps search was exhausted (the original loops forever). */
  datatype PyError =
    | ZeroDivisionError
    | IndexError
    | KeyError
    | ValueError
    | UnboundLocalError
    | NoConvergence

  datatype Result<T> = Ok(value: T) | Err(error: PyError)

  datatype Option<T> = None | Some(value: T)

  /** A (latitude, longitude) pair. */
  type Coord = (real, real)

  /** A point record of the geographic dataset. `track` is the `track_ID` key,
      absent until a clustering has labelled the point. */
  datatype Point = Point(lat: real, lon: real, track: Option<int>)

  /** A row of a feature table: the numeric feature columns, the first-stage
      label `Label1`, the second-stage label `Label2` and the coordinates. */
  datatype Row = Row(features: seq<real>, label1: int, label2: int, lat: real, lon: real)

  /** Which label column an operation reads (`metrics='Label1'` or `'Label2'`). */
  datatype LabelColumn = Label1 | Label2

  /** Linkage criterion handed to the hierarchical clustering library. */
  datatype Linkage = Average | Ward

  /** sklearn's AgglomerativeClustering(n_clusters, linkage).fit_predict(X). */
  type Agglomerative = (seq<seq<real>>, int, Linkage) -> seq<int>

  /** sklearn's DBSCAN(eps, min_samples).fit(X).labels_. */
  type Dbscan = (seq<seq<real>>, real, nat) -> seq<int>

  /** StandardScaler().fit_transform(X). */
  type Scaler = seq<seq<real>> -> seq<seq<real>>

  /** A clustering library returns one label per input sample. */
  ghost predicate AgglomerativeKeepsLength(agglo: Agglomerative) {
    forall X, k, l :: |agglo(X, k, l)| == |X|
  }

  ghost predicate DbscanKeepsLength(dbscan: Dbscan) {
    forall X, e, m :: |dbscan(X, e, m)| == |X|
  }

  ghost predicate ScalerKeepsLength(scale: Scaler) {
    forall X :: |scale(X)| == |X|
  }

  /** The identity transformation, used where the original passes `normalize=False`. */
  function Unscaled(X: seq<seq<real>>): seq<seq<real>> { X }

  function LabelOf(r: Row, col: LabelColumn): int {
    match col
    case Label1 => r.label1
    case Label2 => r.label2
  }

  /** Some element of a non-empty set: the witness that a `:|` choice needs. */
  lemma Pick<T>(s: set<T>) returns (x: T)
    requires s != {}
    ensures x in s
  {
    if forall y :: y !in s {
      assert false;
    }
    x :| x in s;
  }

  /** Number of occurrences of `x` in `s`. */
  function Count(s: seq<int>, x: int): (n: nat)
    ensures n <= |s|
    ensures n > 0 <==> x in s
  {
    if s == [] then 0
    else Count(s[..|s| - 1], x) + (if s[|s| - 1] == x then 1 else 0)
  }

  /** Python's int() applied to a float: truncation toward zero. */
  function Trunc(x: real): (r: int)
    ensures 0.0 <= x ==> 0 <= r && r as real <= x < r as real + 1.0
    ensures x < 0.0 ==> r <= 0 && r as real - 1.0 < x <= r as real
  {
    if x >= 0.0 then x.Floor else -((-x).Floor)
  }

  /** Python list indexing `xs[i]` into a list of length `len`: negative indices
      count from the end; anything else raises IndexError (None here). */
  function PyIndex(i: int, len: int): (r: Option<nat>)
    ensures r.Some? <==> -len <= i < len
    ensures r.Some? ==> r.value < len && (i - r.value) % len == 0
  {
    if 0 <= i < len then Some(i)
    else if -len <= i < 0 then Some(len + i)
    else None
  }

  /** Length of `[[] for i in range(n)]`. */
  function Slots(n: int): nat {
    if n > 0 then n else 0
  }

  /** The feature matrix of a table (the columns that are not labels or coordinates). */
  function Features(rows: seq<Row>): (X: seq<seq<real>>)
    ensures |X| == |rows|
  {
    seq(|rows|, i requires 0 <= i < |rows| => rows[i].features)
  }

  /** The coordinate matrix `[[gps_lat, gps_lon], ...]` of a geographic dataset. */
  function GeoData(points: seq<Point>): (X: seq<seq<real>>)
    ensures |X| == |points|
  {
    seq(|points|, i requires 0 <= i < |points| => [points[i].lat, points[i].lon])
  }

  /** The table with `labels` attached as its `Label2` column (pd.concat, axis=1). */
  function WithLabel2(rows: seq<Row>, labels: seq<int>): (out: seq<Row>)
    requires |labels| == |rows|
    ensures |out| == |rows|
    ensures forall i :: 0 <= i < |rows| ==>
      out[i].label2 == labels[i] && out[i].(label2 := rows[i].label2) == rows[i]
  {
    seq(|rows|, i requires 0 <= i < |rows| => rows[i].(label2 := labels[i]))
  }
}
