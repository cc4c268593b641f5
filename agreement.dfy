/** The cluster-agreement metric: how well the second-stage labelling (Label2)
    keeps together the points of each first-stage cluster (Label1). */
module Agreement {
  import opened Common

  /** One row's (Label1, Label2). */
  type Pair = (int, int)

  /** The nested count dictionary `{Label1: {Label2: count}}`. */
  type Table = map<int, map<int, nat>>

  /** The (Label1, Label2) pairs of a table, row by row (`values.tolist()`). */
  function Pairs(rows: seq<Row>): (ps: seq<Pair>)
    ensures |ps| == |rows|
    ensures forall i :: 0 <= i < |rows| ==> ps[i] == (rows[i].label1, rows[i].label2)
  {
    seq(|rows|, i requires 0 <= i < |rows| => (rows[i].label1, rows[i].label2))
  }

  /** Number of rows whose label pair is (a, b). */
  function PairCount(pairs: seq<Pair>, a: int, b: int): (n: nat)
    ensures n <= |pairs|
    ensures n > 0 <==> (a, b) in pairs
  {
    if pairs == [] then 0
    else PairCount(pairs[..|pairs| - 1], a, b) + (if pairs[|pairs| - 1] == (a, b) then 1 else 0)
  }

  lemma PairCountSnoc(ps: seq<Pair>, p: Pair, a: int, b: int)
    ensures PairCount(ps + [p], a, b) == PairCount(ps, a, b) + (if p == (a, b) then 1 else 0)
  {
    assert (ps + [p])[..|ps|] == ps;
  }

  /** `t` is the cross-tabulation of `pairs`: its groups are exactly the Label1
      values present, each group's keys exactly the Label2 values seen with it,
      and each entry the number of rows carrying that pair. */
  ghost predicate IsCrossTab(t: Table, pairs: seq<Pair>) {
    && (forall i :: 0 <= i < |pairs| ==> pairs[i].0 in t && pairs[i].1 in t[pairs[i].0])
    && (forall a :: a in t ==> t[a] != map[])
    && (forall a, b :: a in t && b in t[a] ==> t[a][b] == PairCount(pairs, a, b) > 0)
  }

  /** The Label1 values present. */
  ghost function Firsts(pairs: seq<Pair>): set<int> {
    set i | 0 <= i < |pairs| :: pairs[i].0
  }

  /** The Label2 values seen together with Label1 value `a`. */
  ghost function SecondsOf(pairs: seq<Pair>, a: int): set<int> {
    set i | 0 <= i < |pairs| && pairs[i].0 == a :: pairs[i].1
  }

  /** The cross-tabulation of `pairs`, as one closed-form value. */
  ghost function CrossTab(pairs: seq<Pair>): Table {
    map a | a in Firsts(pairs) :: map b | b in SecondsOf(pairs, a) :: PairCount(pairs, a, b)
  }

  /** The cross-tabulation is unique: whatever satisfies IsCrossTab is CrossTab. */
  lemma CrossTabUnique(t: Table, pairs: seq<Pair>)
    requires IsCrossTab(t, pairs)
    ensures t == CrossTab(pairs)
  {
    var ct := CrossTab(pairs);
    forall a | a in t ensures a in ct && t[a] == ct[a] {
      assert t[a].Keys != {};
      var b := Pick(t[a].Keys);
      assert (a, b) in pairs;
      var i :| 0 <= i < |pairs| && pairs[i] == (a, b);
      assert a in Firsts(pairs);
      forall b' | b' in t[a] ensures b' in SecondsOf(pairs, a) {
        assert (a, b') in pairs;
        var j :| 0 <= j < |pairs| && pairs[j] == (a, b');
      }
      forall b' | b' in SecondsOf(pairs, a) ensures b' in t[a] {
        var j :| 0 <= j < |pairs| && pairs[j].0 == a && pairs[j].1 == b';
      }
      assert t[a].Keys == ct[a].Keys;
    }
    forall a | a in ct ensures a in t {
      var i :| 0 <= i < |pairs| && pairs[i].0 == a;
    }
    assert t.Keys == ct.Keys;
  }

  // ---------------------------------------------------------------------------
  // Sums over dictionaries, independent of iteration order

  /** Sum of the values of `m`. */
  ghost function MapSum(m: map<int, nat>): nat
    decreases |m|
  {
    if forall k :: k !in m then 0
    else
      var k :| k in m;
      assert |m - {k}| < |m| by { assert m.Keys - {k} < m.Keys; assert (m - {k}).Keys == m.Keys - {k}; }
      m[k] + MapSum(m - {k})
  }

  /** Removing any key takes exactly its value off the sum. */
  lemma {:induction false} MapSumRemove(m: map<int, nat>, k: int)
    requires k in m
    ensures MapSum(m) == m[k] + MapSum(m - {k})
    decreases |m|
  {
    var j :| j in m && MapSum(m) == m[j] + MapSum(m - {j});
    if j != k {
      assert (m - {j}).Keys == m.Keys - {j};
      assert (m - {k}).Keys == m.Keys - {k};
      assert |m - {j}| < |m| by { assert m.Keys - {j} < m.Keys; }
      assert |m - {k}| < |m| by { assert m.Keys - {k} < m.Keys; }
      MapSumRemove(m - {j}, k);
      MapSumRemove(m - {k}, j);
      assert m - {j} - {k} == m - {k} - {j};
    }
  }

  /** A sum of naturals is zero exactly when every value is zero. */
  lemma {:induction false} MapSumZero(m: map<int, nat>)
    ensures MapSum(m) == 0 <==> forall k :: k in m ==> m[k] == 0
    decreases |m|
  {
    if m != map[] {
      var k := Pick(m.Keys);
      MapSumRemove(m, k);
      assert |m - {k}| < |m| by { assert (m - {k}).Keys == m.Keys - {k}; assert m.Keys - {k} < m.Keys; }
      MapSumZero(m - {k});
      assert forall j :: j in m && j != k ==> j in m - {k};
    }
  }

  /** A sum of naturals is at least each of its values. */
  lemma MapSumAtLeast(m: map<int, nat>, k: int)
    requires k in m
    ensures MapSum(m) >= m[k]
  {
    MapSumRemove(m, k);
  }

  /** `m` restricted to the keys in `keys`. */
  ghost function Restrict(m: map<int, nat>, keys: set<int>): map<int, nat> {
    map k | k in keys && k in m :: m[k]
  }

  lemma RestrictAll(m: map<int, nat>)
    ensures Restrict(m, m.Keys) == m
  {
  }

  lemma RestrictNone(m: map<int, nat>)
    ensures Restrict(m, {}) == map[]
  {
  }

  /** One step of a loop that drains `rest` key by key. */
  lemma RestrictRemove(m: map<int, nat>, rest: set<int>, k: int)
    requires k in rest
    ensures MapSum(Restrict(m, rest)) ==
            (if k in m then m[k] else 0) + MapSum(Restrict(m, rest - {k}))
  {
    var r := Restrict(m, rest);
    if k in m {
      MapSumRemove(r, k);
      assert r - {k} == Restrict(m, rest - {k});
    } else {
      assert r == Restrict(m, rest - {k});
    }
  }

  // ---------------------------------------------------------------------------
  // The per-group majority and minority counts

  /** The majority count of one Label1 group: its largest Label2 count, 0 for
      a group without buckets. */
  ghost function GroupMax(g: map<int, nat>): (m: nat)
    ensures forall b :: b in g ==> g[b] <= m
    ensures m == 0 || exists b :: b in g && g[b] == m
    ensures g == map[] ==> m == 0
    decreases |g|
  {
    if forall b :: b !in g then 0
    else
      var b :| b in g;
      assert |g - {b}| < |g| by { assert g.Keys - {b} < g.Keys; assert (g - {b}).Keys == g.Keys - {b}; }
      var rest := GroupMax(g - {b});
      assert forall c :: c in g ==> c == b || c in g - {b};
      if g[b] > rest then g[b] else rest
  }

  /** The buckets of a group whose count is strictly below `majority`. */
  ghost function Below(g: map<int, nat>, majority: nat): map<int, nat> {
    map b | b in g && g[b] < majority :: g[b]
  }

  /** Per group: the majority count, added to the "correct" total. */
  ghost function MajorityMap(t: Table): map<int, nat> {
    map a | a in t :: GroupMax(t[a])
  }

  /** Per group: the sum of the counts strictly below the majority, added to
      the "false" total. */
  ghost function MinorityMap(t: Table): map<int, nat> {
    map a | a in t :: MapSum(Below(t[a], GroupMax(t[a])))
  }

  ghost function Correct(t: Table): nat { MapSum(MajorityMap(t)) }

  ghost function Wrong(t: Table): nat { MapSum(MinorityMap(t)) }

  /** `float(correct) / float(correct + false)`, which raises on a zero denominator. */
  function Ratio(correct: nat, wrong: nat): Result<real> {
    if correct + wrong == 0 then Err(ZeroDivisionError)
    else Ok(correct as real / (correct + wrong) as real)
  }

  /** The ratio lies in (0, 1] once something is correct, and is 1 exactly
      when nothing is false. */
  lemma RatioRange(correct: nat, wrong: nat)
    requires correct >= 1
    ensures Ratio(correct, wrong).Ok?
    ensures 0.0 < Ratio(correct, wrong).value <= 1.0
    ensures Ratio(correct, wrong).value == 1.0 <==> wrong == 0
  {
    var c, d := correct as real, (correct + wrong) as real;
    assert 0.0 < c <= d;
    var q := c / d;
    assert q * d == c;
    if wrong != 0 {
      assert c < d;
    }
  }

  /** The score of a count dictionary. */
  ghost function Score(t: Table): Result<real> {
    Ratio(Correct(t), Wrong(t))
  }

  /** The metric of a sequence of label pairs. */
  ghost function Metric(pairs: seq<Pair>): Result<real> {
    Score(CrossTab(pairs))
  }

  // ---------------------------------------------------------------------------
  // The operations

  /** One row's update of the nested count dictionary: bump an existing
      count, open a new Label2 bucket, or open a new Label1 group. */
  function Increment(t: Table, a: int, b: int): Table {
    if a in t then
      if b in t[a] then t[a := t[a][b := t[a][b] + 1]]
      else t[a := t[a][b := 1]]
    else t[a := map[b := 1]]
  }

  /** Counting one more row keeps the dictionary the cross-tabulation of the rows seen. */
  lemma IncrementKeepsCrossTab(t: Table, ps: seq<Pair>, a: int, b: int)
    requires IsCrossTab(t, ps)
    ensures IsCrossTab(Increment(t, a, b), ps + [(a, b)])
  {
    forall a', b' ensures PairCount(ps + [(a, b)], a', b') ==
        PairCount(ps, a', b') + (if (a, b) == (a', b') then 1 else 0) {
      PairCountSnoc(ps, (a, b), a', b');
    }
    var t' := Increment(t, a, b);
    var ps' := ps + [(a, b)];
    forall i | 0 <= i < |ps'| ensures ps'[i].0 in t' && ps'[i].1 in t'[ps'[i].0] {
      if i < |ps| { assert ps'[i] == ps[i]; }
    }
  }

  /** Builds the nested count dictionary one row at a time. */
  method CountPairs(pairs: seq<Pair>) returns (t: Table)
    ensures IsCrossTab(t, pairs)
  {
    t := map[];
    for i := 0 to |pairs|
      invariant IsCrossTab(t, pairs[..i])
    {
      var (a, b) := pairs[i];
      assert pairs[..i + 1] == pairs[..i] + [(a, b)];
      IncrementKeepsCrossTab(t, pairs[..i], a, b);
      t := Increment(t, a, b);
    }
    assert pairs[..|pairs|] == pairs;
  }

  /** The majority loop of one group: the largest Label2 count, starting from 0. */
  method Majority(g: map<int, nat>) returns (majority: nat)
    ensures majority == GroupMax(g)
  {
    majority := 0;
    var rest := g.Keys;
    while rest != {}
      invariant rest <= g.Keys
      invariant forall b :: b in g && b !in rest ==> g[b] <= majority
      invariant majority == 0 || exists b :: b in g && b !in rest && g[b] == majority
      decreases rest
    {
      ghost var w := Pick(rest);
      var b :| b in rest;
      if g[b] > majority {
        majority := g[b];
      }
      rest := rest - {b};
    }
  }

  /** The minority loop of one group: the sum of the counts strictly below `majority`. */
  method MinorityTotal(g: map<int, nat>, majority: nat) returns (f: nat)
    ensures f == MapSum(Below(g, majority))
  {
    f := 0;
    var below := Below(g, majority);
    var rest := g.Keys;
    RestrictAll(below);
    assert Restrict(below, rest) == below;
    while rest != {}
      invariant rest <= g.Keys
      invariant f + MapSum(Restrict(below, rest)) == MapSum(below)
      decreases rest
    {
      ghost var w := Pick(rest);
      var b :| b in rest;
      RestrictRemove(below, rest, b);
      if g[b] < majority {
        f := f + g[b];
      }
      rest := rest - {b};
    }
    RestrictNone(below);
  }

  /** The accumulation loop over the groups of the count dictionary: every
      group adds its majority count to `correct` and the counts strictly below
      that majority to `wrong`. */
  method Totals(t: Table) returns (correct: nat, wrong: nat)
    ensures correct == Correct(t) && wrong == Wrong(t)
  {
    ghost var majorities, minorities := MajorityMap(t), MinorityMap(t);
    correct, wrong := 0, 0;
    var rest := t.Keys;
    assert majorities.Keys == t.Keys && minorities.Keys == t.Keys;
    RestrictAll(majorities);
    RestrictAll(minorities);
    while rest != {}
      invariant rest <= t.Keys
      invariant correct + MapSum(Restrict(majorities, rest)) == MapSum(majorities)
      invariant wrong + MapSum(Restrict(minorities, rest)) == MapSum(minorities)
      decreases rest
    {
      ghost var w := Pick(rest);
      var a :| a in rest;
      RestrictRemove(majorities, rest, a);
      RestrictRemove(minorities, rest, a);
      var majority := Majority(t[a]);
      correct := correct + majority;
      var f := MinorityTotal(t[a], majority);
      wrong := wrong + f;
      rest := rest - {a};
    }
    RestrictNone(majorities);
    RestrictNone(minorities);
  }

  /** compute_clustering_metrics_pointfraction: cross-tabulates the rows'
      (Label1, Label2) pairs and returns correct / (correct + false). */
  method PointFraction(rows: seq<Row>) returns (r: Result<real>)
    ensures r == Metric(Pairs(rows))
  {
    var pairs := Pairs(rows);
    var t := CountPairs(pairs);
    CrossTabUnique(t, pairs);
    var correct, wrong := Totals(t);
    r := Ratio(correct, wrong);
  }
}

/** What the agreement metric promises, proved about its specification. */
module AgreementProperties {
  import opened Common
  import opened Agreement

  /** The closed-form cross-tabulation has the properties the counting loop establishes. */
  lemma CrossTabIsCrossTab(pairs: seq<Pair>)
    ensures IsCrossTab(CrossTab(pairs), pairs)
  {
    var t := CrossTab(pairs);
    forall i | 0 <= i < |pairs| ensures pairs[i].0 in t && pairs[i].1 in t[pairs[i].0] {
      assert pairs[i].0 in Firsts(pairs);
      assert pairs[i].1 in SecondsOf(pairs, pairs[i].0);
    }
    forall a | a in t ensures t[a] != map[] {
      var i :| 0 <= i < |pairs| && pairs[i].0 == a;
      assert pairs[i].1 in t[a];
    }
    forall a, b | a in t && b in t[a] ensures t[a][b] == PairCount(pairs, a, b) > 0 {
      var j :| 0 <= j < |pairs| && pairs[j].0 == a && pairs[j].1 == b;
      assert pairs[j] == (a, b);
    }
  }

  /** Every non-empty table has a positive "correct" total. */
  lemma {:induction false} CorrectPositive(pairs: seq<Pair>)
    requires pairs != []
    ensures Correct(CrossTab(pairs)) >= 1
  {
    var t := CrossTab(pairs);
    CrossTabIsCrossTab(pairs);
    var (a, b) := pairs[0];
    assert a in t && b in t[a];
    assert GroupMax(t[a]) >= t[a][b] >= 1;
    assert MajorityMap(t)[a] >= 1;
    MapSumAtLeast(MajorityMap(t), a);
  }

  /** A table with no rows has nothing to count. */
  lemma EmptyTotals(pairs: seq<Pair>)
    requires pairs == []
    ensures Correct(CrossTab(pairs)) == 0 && Wrong(CrossTab(pairs)) == 0
  {
    assert Firsts(pairs) == {};
    assert CrossTab(pairs) == map[];
    assert MajorityMap(CrossTab(pairs)) == map[];
    assert MinorityMap(CrossTab(pairs)) == map[];
  }

  /** The metric fails with a division by zero exactly on the empty table;
      otherwise it lies in (0, 1]. */
  lemma MetricRange(pairs: seq<Pair>)
    ensures Metric(pairs).Err? <==> pairs == []
    ensures Metric(pairs).Err? ==> Metric(pairs).error == ZeroDivisionError
    ensures Metric(pairs).Ok? ==> 0.0 < Metric(pairs).value <= 1.0
  {
    if pairs == [] {
      EmptyTotals(pairs);
    } else {
      CorrectPositive(pairs);
      RatioRange(Correct(CrossTab(pairs)), Wrong(CrossTab(pairs)));
    }
  }

  /** Within one group, nothing is counted as false exactly when every bucket
      holds the majority count: ties at the maximum never count as false. */
  lemma GroupTied(g: map<int, nat>)
    requires forall b :: b in g ==> g[b] > 0
    ensures MapSum(Below(g, GroupMax(g))) == 0 <==> forall b :: b in g ==> g[b] == GroupMax(g)
  {
    var below := Below(g, GroupMax(g));
    MapSumZero(below);
    if MapSum(below) == 0 {
      forall b | b in g ensures g[b] == GroupMax(g) {
        assert b !in below;
      }
    } else {
      assert below != map[];
      var b := Pick(below.Keys);
      assert g[b] < GroupMax(g);
    }
  }

  /** The "false" total is zero exactly when every group contributes zero. */
  lemma WrongZero(t: Table)
    ensures Wrong(t) == 0 <==> forall a :: a in t ==> MapSum(Below(t[a], GroupMax(t[a]))) == 0
  {
    MapSumZero(MinorityMap(t));
    if Wrong(t) == 0 {
      forall a | a in t ensures MapSum(Below(t[a], GroupMax(t[a]))) == 0 {
        assert MinorityMap(t)[a] == 0;
      }
    }
  }

  /** Within every Label1 group, all Label2 buckets hold the same number of rows. */
  ghost predicate BucketsTied(pairs: seq<Pair>) {
    forall i, j :: 0 <= i < |pairs| && 0 <= j < |pairs| && pairs[i].0 == pairs[j].0 ==>
      PairCount(pairs, pairs[i].0, pairs[i].1) == PairCount(pairs, pairs[j].0, pairs[j].1)
  }

  /** In a tied table, every bucket of a group holds its majority count. */
  lemma GroupAtMajority(t: Table, pairs: seq<Pair>, a: int)
    requires IsCrossTab(t, pairs) && BucketsTied(pairs) && a in t
    ensures forall b :: b in t[a] ==> t[a][b] == GroupMax(t[a])
  {
    forall b | b in t[a] ensures t[a][b] == GroupMax(t[a]) {
      var b' :| b' in t[a] && t[a][b'] == GroupMax(t[a]);
      assert (a, b) in pairs && (a, b') in pairs;
      var i :| 0 <= i < |pairs| && pairs[i] == (a, b);
      var j :| 0 <= j < |pairs| && pairs[j] == (a, b');
      assert PairCount(pairs, pairs[i].0, pairs[i].1) == PairCount(pairs, pairs[j].0, pairs[j].1);
    }
  }

  lemma NoWrongWhenTied(pairs: seq<Pair>)
    requires BucketsTied(pairs)
    ensures Wrong(CrossTab(pairs)) == 0
  {
    var t := CrossTab(pairs);
    CrossTabIsCrossTab(pairs);
    forall a | a in t ensures MapSum(Below(t[a], GroupMax(t[a]))) == 0 {
      GroupTied(t[a]);
      GroupAtMajority(t, pairs, a);
    }
    WrongZero(t);
  }

  lemma TiedWhenNoWrong(pairs: seq<Pair>)
    requires Wrong(CrossTab(pairs)) == 0
    ensures BucketsTied(pairs)
  {
    var t := CrossTab(pairs);
    CrossTabIsCrossTab(pairs);
    WrongZero(t);
    forall i, j | 0 <= i < |pairs| && 0 <= j < |pairs| && pairs[i].0 == pairs[j].0
      ensures PairCount(pairs, pairs[i].0, pairs[i].1) == PairCount(pairs, pairs[j].0, pairs[j].1)
    {
      var a := pairs[i].0;
      assert a in t && pairs[i].1 in t[a] && pairs[j].1 in t[a];
      GroupTied(t[a]);
    }
  }

  /** The metric is exactly 1.0 if and only if, within every Label1 group, all
      Label2 buckets hold the same number of rows. In particular a group split
      evenly over several Label2 values adds nothing to the "false" count, and
      any group with a bucket below its majority pulls the metric under 1.0. */
  lemma MetricOneIffTied(pairs: seq<Pair>)
    requires pairs != []
    ensures Metric(pairs) == Ok(1.0) <==> BucketsTied(pairs)
  {
    var t := CrossTab(pairs);
    CorrectPositive(pairs);
    RatioRange(Correct(t), Wrong(t));
    if Wrong(t) == 0 {
      TiedWhenNoWrong(pairs);
    } else if BucketsTied(pairs) {
      NoWrongWhenTied(pairs);
    }
  }

  /** When every Label1 value co-occurs with a single Label2 value, the metric is 1.0. */
  lemma MetricOneWhenConsistent(pairs: seq<Pair>)
    requires pairs != []
    requires forall i, j :: 0 <= i < |pairs| && 0 <= j < |pairs| && pairs[i].0 == pairs[j].0 ==>
      pairs[i].1 == pairs[j].1
    ensures Metric(pairs) == Ok(1.0)
  {
    MetricOneIffTied(pairs);
  }

  /** Two first-stage clusters, each split evenly over two second-stage labels:
      the metric counts no point as false and returns 1.0. */
  lemma EvenSplitScoresOne()
    ensures Metric([(0, 0), (0, 1), (1, 2), (1, 3)]) == Ok(1.0)
  {
    var pairs: seq<Pair> := [(0, 0), (0, 1), (1, 2), (1, 3)];
    forall i, j | 0 <= i < |pairs| && 0 <= j < |pairs| && pairs[i].0 == pairs[j].0
      ensures PairCount(pairs, pairs[i].0, pairs[i].1) == PairCount(pairs, pairs[j].0, pairs[j].1)
    {
      assert PairCount(pairs, pairs[i].0, pairs[i].1) == 1;
      assert PairCount(pairs, pairs[j].0, pairs[j].1) == 1;
    }
    assert BucketsTied(pairs);
    MetricOneIffTied(pairs);
  }
}
