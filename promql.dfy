/** The fragment of PromQL instant-vector semantics that the dashboard's power
    queries use: label selection, `and on(node_name)`, `unless on(node_name)`,
    `or`, `sum` / `sum by (...)`, `or vector(0)`, `+` between vectors, `> 0` and
    `topk`. An aggregated vector is a map from output label set to value. */
module PromQL {
  import opened Samples

  type Vector = seq<Sample>

  /** An aggregation result: one value per distinct output label set. */
  type Grouped = map<LabelSet, real>

  /** The selector `{label="value"}`: the samples whose label reads `value`. */
  function Select(v: Vector, name: string, value: string): (r: Vector)
    ensures |r| <= |v|
    ensures forall s :: s in r <==> s in v && Label(s.metric, name) == value
  {
    if v == [] then []
    else (if Label(v[0].metric, name) == value then [v[0]] else []) + Select(v[1..], name, value)
  }

  /** A dashboard filter's selector: no matcher for `All`, `{label="f"}` otherwise. */
  function Filtered(v: Vector, name: string, f: string): (r: Vector)
    ensures forall s :: s in r <==> s in v && (f == All || Label(s.metric, name) == f)
  {
    if f == All then v else Select(v, name, f)
  }

  lemma {:induction false} SelectAppend(a: Vector, b: Vector, name: string, value: string)
    ensures Select(a + b, name, value) == Select(a, name, value) + Select(b, name, value)
  {
    if a == [] {
      assert a + b == b;
    } else {
      assert (a + b)[1..] == a[1..] + b;
      SelectAppend(a[1..], b, name, value);
    }
  }

  /** The `node_name` values of a vector, as `on(node_name)` matching sees them. */
  function NodeKeys(v: Vector): set<string>
  {
    set s | s in v :: Label(s.metric, NodeName)
  }

  /** The samples of `v` whose node is in `keys` (`inside`) or not in `keys`. */
  function WhereNode(v: Vector, keys: set<string>, inside: bool): (r: Vector)
    ensures |r| <= |v|
    ensures forall s :: s in r <==> s in v && (Label(s.metric, NodeName) in keys <==> inside)
  {
    if v == [] then []
    else
      (if (Label(v[0].metric, NodeName) in keys) == inside then [v[0]] else [])
      + WhereNode(v[1..], keys, inside)
  }

  /** `a and on(node_name) b`. */
  function AndOnNode(a: Vector, b: Vector): (r: Vector)
  {
    WhereNode(a, NodeKeys(b), true)
  }

  /** `a unless on(node_name) b`. */
  function UnlessOnNode(a: Vector, b: Vector): (r: Vector)
  {
    WhereNode(a, NodeKeys(b), false)
  }

  /** The samples of `v` whose label set is not in `metrics`. */
  function WhereMetricNotIn(v: Vector, metrics: set<LabelSet>): (r: Vector)
    ensures forall s :: s in r <==> s in v && s.metric !in metrics
  {
    if v == [] then []
    else (if v[0].metric !in metrics then [v[0]] else []) + WhereMetricNotIn(v[1..], metrics)
  }

  /** `a or b`: all of `a`, and the elements of `b` whose label set no element of
      `a` has. */
  function Or(a: Vector, b: Vector): (r: Vector)
  {
    a + WhereMetricNotIn(b, set s | s in a :: s.metric)
  }

  /** When every sample of `a` reads `x` and every sample of `b` reads `y != x`
      for one label, no label set is shared and `or` keeps everything. */
  lemma OrDisjoint(a: Vector, b: Vector, name: string, x: string, y: string)
    requires x != y
    requires forall s :: s in a ==> Label(s.metric, name) == x
    requires forall s :: s in b ==> Label(s.metric, name) == y
    ensures Or(a, b) == a + b
  {
    var ms := set s | s in a :: s.metric;
    WhereMetricNotInNone(b, ms, name, x);
  }

  lemma {:induction false} WhereMetricNotInNone(b: Vector, ms: set<LabelSet>, name: string, x: string)
    requires forall m :: m in ms ==> Label(m, name) == x
    requires forall s :: s in b ==> Label(s.metric, name) != x
    ensures WhereMetricNotIn(b, ms) == b
  {
    if b != [] {
      assert b[0] in b;
      assert forall s :: s in b[1..] ==> s in b;
      WhereMetricNotInNone(b[1..], ms, name, x);
      assert b == [b[0]] + b[1..];
    }
  }

  /** The output label set of `sum by (grouping)`: the grouping labels the sample
      carries with a non-empty value. */
  function Project(m: LabelSet, grouping: set<string>): LabelSet
  {
    map k | k in grouping && k in m && m[k] != "" :: m[k]
  }

  /** The total of the samples of `v` that fall in output group `g`. */
  function SumKey(v: Vector, grouping: set<string>, g: LabelSet): real
  {
    if v == [] then 0.0
    else (if Project(v[0].metric, grouping) == g then v[0].value else 0.0) + SumKey(v[1..], grouping, g)
  }

  lemma {:induction false} SumKeyAppend(a: Vector, b: Vector, grouping: set<string>, g: LabelSet)
    ensures SumKey(a + b, grouping, g) == SumKey(a, grouping, g) + SumKey(b, grouping, g)
  {
    if a == [] {
      assert a + b == b;
    } else {
      assert (a + b)[1..] == a[1..] + b;
      SumKeyAppend(a[1..], b, grouping, g);
    }
  }

  /** `sum by (grouping) (v)`: one element per group that has a sample, holding the total
      of that group; `sum (v)` is `grouping = {}`. An empty vector gives an empty result. */
  function SumBy(v: Vector, grouping: set<string>): Grouped
  {
    if v == [] then map[]
    else
      var t := SumBy(v[1..], grouping);
      var g := Project(v[0].metric, grouping);
      t[g := v[0].value + (if g in t then t[g] else 0.0)]
  }

  /** The groups of `sum by` are exactly the projections of the input samples, and
      each holds the total of the samples that project onto it. */
  lemma {:induction false} SumByMeaning(v: Vector, grouping: set<string>)
    ensures forall g :: g in SumBy(v, grouping) <==> exists s :: s in v && Project(s.metric, grouping) == g
    ensures forall g :: g in SumBy(v, grouping) ==> SumBy(v, grouping)[g] == SumKey(v, grouping, g)
  {
    if v != [] {
      SumByMeaning(v[1..], grouping);
      assert forall s :: s in v <==> s == v[0] || s in v[1..];
      var g := Project(v[0].metric, grouping);
      if g !in SumBy(v[1..], grouping) {
        SumKeyAbsent(v[1..], grouping, g);
      }
    }
  }

  lemma {:induction false} SumKeyAbsent(v: Vector, grouping: set<string>, g: LabelSet)
    requires forall s :: s in v ==> Project(s.metric, grouping) != g
    ensures SumKey(v, grouping, g) == 0.0
  {
    if v != [] {
      assert v[0] in v;
      assert forall s :: s in v[1..] ==> s in v;
      SumKeyAbsent(v[1..], grouping, g);
    }
  }

  /** `a or b` between aggregated vectors: all of `a`, and the elements of `b`
      whose label set `a` does not have. */
  function OrGrouped(a: Grouped, b: Grouped): (r: Grouped)
    ensures forall k :: k in r <==> k in a || k in b
    ensures forall k :: k in a ==> r[k] == a[k]
    ensures forall k :: k in b && k !in a ==> r[k] == b[k]
  {
    map k | k in a.Keys + b.Keys :: if k in a then a[k] else b[k]
  }

  /** `vector(0)`: one label-less element with value 0. */
  const Vector0: Grouped := map[NoLabels := 0.0]

  /** `x or vector(0)`: adds a label-less 0 exactly when `x` has no label-less
      element, and leaves every element of `x` as it is. */
  function OrVector0(g: Grouped): (r: Grouped)
    ensures forall k :: k in r <==> k in g || k == NoLabels
    ensures forall k :: k in g ==> r[k] == g[k]
    ensures NoLabels !in g ==> r[NoLabels] == 0.0
  {
    OrGrouped(g, Vector0)
  }

  /** `a + b` between two vectors: one-to-one matching on the full label set;
      an element without a partner on the other side is dropped. */
  function Plus(a: Grouped, b: Grouped): (r: Grouped)
    ensures forall k :: k in r <==> k in a && k in b
    ensures forall k :: k in r ==> r[k] == a[k] + b[k]
  {
    map k | k in a.Keys * b.Keys :: a[k] + b[k]
  }

  /** `x > 0` (filtering comparison): the elements whose value is positive. */
  function Positive(g: Grouped): (r: Grouped)
    ensures forall k :: k in r <==> k in g && g[k] > 0.0
    ensures forall k :: k in r ==> r[k] == g[k]
  {
    map k | k in g && g[k] > 0.0 :: g[k]
  }

  /** `r` lists the elements of `g`, each once, in some order: how the query API
      returns an instant vector. */
  ghost predicate Lists(g: Grouped, r: seq<Sample>)
  {
    && |r| == |g|
    && (forall i :: 0 <= i < |r| ==> r[i].metric in g && g[r[i].metric] == r[i].value)
    && (forall i, j :: 0 <= i < j < |r| ==> r[i].metric != r[j].metric)
  }

  function MetricsOf(r: seq<Sample>): set<LabelSet>
  {
    set i | 0 <= i < |r| :: r[i].metric
  }

  /** Every element of `r` is an element of `g`, with its value. */
  ghost predicate Drawn(g: Grouped, r: seq<Sample>)
  {
    forall i :: 0 <= i < |r| ==> r[i].metric in g && g[r[i].metric] == r[i].value
  }

  /** No two elements of `r` share a label set. */
  ghost predicate DistinctMetrics(r: seq<Sample>)
  {
    forall i, j :: 0 <= i < j < |r| ==> r[i].metric != r[j].metric
  }

  /** No element of `g` left out of `r` exceeds an element of `r`. */
  ghost predicate NoneLarger(g: Grouped, r: seq<Sample>)
  {
    forall key, i :: key in g && key !in MetricsOf(r) && 0 <= i < |r| ==> g[key] <= r[i].value
  }

  /** What `topk(k, g)` returns: `min(k, |g|)` distinct elements of `g` with their
      values, none smaller than any element left out. The order among equal
      values, and the order of the result, are not specified. */
  ghost predicate IsTopK(g: Grouped, k: nat, r: seq<Sample>)
  {
    |r| == Min(k, |g|) && Drawn(g, r) && DistinctMetrics(r) && NoneLarger(g, r)
  }

  lemma MaxKeyExists(g: Grouped)
    requires |g| > 0
    ensures exists m :: m in g && forall x :: x in g ==> g[x] <= g[m]
  {
    assert |g.Keys| == |g|;
    MaxKeyAmong(g, g.Keys);
  }

  /** Among a non-empty set of keys of `g` one has the largest value. */
  lemma {:induction false} MaxKeyAmong(g: Grouped, keys: set<LabelSet>)
    requires keys != {} && keys <= g.Keys
    ensures exists m :: m in keys && forall x :: x in keys ==> g[x] <= g[m]
    decreases |keys|
  {
    var x :| x in keys;
    var rest := keys - {x};
    if rest == {} {
      forall y | y in keys ensures g[y] <= g[x] {
        assert y !in rest;
      }
    } else {
      MaxKeyAmong(g, rest);
      var m :| m in rest && forall y :: y in rest ==> g[y] <= g[m];
      var top := if g[x] > g[m] then x else m;
      forall y | y in keys ensures g[y] <= g[top] {
        if y != x {
          assert y in rest;
        }
      }
    }
  }

  /** One admissible answer of `topk(k, g)`: repeatedly take some element of
      largest value. Which of several equal elements is taken is left open. */
  ghost function TopK(g: Grouped, k: nat): (r: seq<Sample>)
    ensures |r| == Min(k, |g|)
    decreases |g|
  {
    if k == 0 || |g| == 0 then []
    else
      MaxKeyExists(g);
      var m :| m in g && forall x :: x in g ==> g[x] <= g[m];
      var rest := g - {m};
      assert rest.Keys == g.Keys - {m};
      [Sample(m, g[m])] + TopK(rest, k - 1)
  }

  lemma TopKUnfold(g: Grouped, k: nat) returns (m: LabelSet)
    requires k != 0 && |g| != 0
    ensures m in g && forall x :: x in g ==> g[x] <= g[m]
    ensures |g - {m}| == |g| - 1
    ensures TopK(g, k) == [Sample(m, g[m])] + TopK(g - {m}, k - 1)
  {
    m := TopK(g, k)[0].metric;
    assert (g - {m}).Keys == g.Keys - {m};
  }

  lemma MetricsOfCons(x: Sample, t: seq<Sample>)
    ensures MetricsOf([x] + t) == {x.metric} + MetricsOf(t)
  {
    var r := [x] + t;
    assert r[0].metric == x.metric;
    forall key | key in MetricsOf(r) ensures key in {x.metric} + MetricsOf(t) {
      var i :| 0 <= i < |r| && r[i].metric == key;
      if i > 0 { assert t[i - 1].metric == key; }
    }
    forall key | key in MetricsOf(t) ensures key in MetricsOf(r) {
      var i :| 0 <= i < |t| && t[i].metric == key;
      assert r[i + 1].metric == key;
    }
  }

  lemma DrawnCons(g: Grouped, m: LabelSet, t: seq<Sample>)
    requires m in g && Drawn(g - {m}, t)
    ensures Drawn(g, [Sample(m, g[m])] + t)
  {
    var r := [Sample(m, g[m])] + t;
    forall i | 0 < i < |r| ensures r[i].metric in g && g[r[i].metric] == r[i].value {
      assert r[i] == t[i - 1] && t[i - 1].metric in g - {m};
    }
  }

  lemma DistinctMetricsCons(g: Grouped, m: LabelSet, t: seq<Sample>)
    requires m in g && Drawn(g - {m}, t) && DistinctMetrics(t)
    ensures DistinctMetrics([Sample(m, g[m])] + t)
  {
    var r := [Sample(m, g[m])] + t;
    forall i, j | 0 <= i < j < |r| ensures r[i].metric != r[j].metric {
      assert r[j] == t[j - 1] && t[j - 1].metric in g - {m};
      if i > 0 {
        assert r[i] == t[i - 1];
      }
    }
  }

  lemma NoneLargerCons(g: Grouped, m: LabelSet, t: seq<Sample>)
    requires m in g && forall x :: x in g ==> g[x] <= g[m]
    requires NoneLarger(g - {m}, t)
    ensures NoneLarger(g, [Sample(m, g[m])] + t)
  {
    var r := [Sample(m, g[m])] + t;
    MetricsOfCons(Sample(m, g[m]), t);
    forall key, i | key in g && key !in MetricsOf(r) && 0 <= i < |r| ensures g[key] <= r[i].value {
      assert key in g - {m} && key !in MetricsOf(t);
      if i > 0 {
        assert r[i] == t[i - 1];
      }
    }
  }

  /** Putting a largest element of `g` in front of a top-(k-1) of the rest gives
      a top-k of `g`. */
  lemma TopKStep(g: Grouped, k: nat, m: LabelSet, t: seq<Sample>)
    requires k != 0 && m in g && forall x :: x in g ==> g[x] <= g[m]
    requires |g - {m}| == |g| - 1
    requires IsTopK(g - {m}, k - 1, t)
    ensures IsTopK(g, k, [Sample(m, g[m])] + t)
  {
    DrawnCons(g, m, t);
    DistinctMetricsCons(g, m, t);
    NoneLargerCons(g, m, t);
  }

  /** `TopK` meets the description of `topk`. */
  lemma {:induction false} TopKIsTopK(g: Grouped, k: nat)
    ensures IsTopK(g, k, TopK(g, k))
    decreases |g|
  {
    if k != 0 && |g| != 0 {
      var m := TopKUnfold(g, k);
      var t := TopK(g - {m}, k - 1);
      TopKIsTopK(g - {m}, k - 1);
      TopKStep(g, k, m, t);
    }
  }

  lemma {:induction false} MetricsOfSize(r: seq<Sample>)
    requires DistinctMetrics(r)
    ensures |MetricsOf(r)| == |r|
  {
    if r != [] {
      var t := r[1..];
      assert r == [r[0]] + t;
      MetricsOfCons(r[0], t);
      forall i | 0 <= i < |t| ensures t[i].metric != r[0].metric {
        assert r[i + 1] == t[i];
      }
      assert DistinctMetrics(t) by {
        forall i, j | 0 <= i < j < |t| ensures t[i].metric != t[j].metric {
          assert r[i + 1] == t[i] && r[j + 1] == t[j];
        }
      }
      MetricsOfSize(t);
    }
  }

  /** If `topk` leaves out an element of `g`, the result is full (`k` elements)
      and every element in it is at least as large as the one left out. */
  lemma TopKOmitted(g: Grouped, k: nat, r: seq<Sample>, key: LabelSet)
    requires IsTopK(g, k, r)
    requires key in g && key !in MetricsOf(r)
    ensures |r| == k
    ensures forall i :: 0 <= i < |r| ==> g[key] <= r[i].value
  {
    MetricsOfSize(r);
    var rest := g.Keys - {key};
    assert MetricsOf(r) <= rest;
    assert |rest| == |g| - 1;
    SubsetSize(MetricsOf(r), rest);
  }

  lemma {:induction false} SubsetSize<T>(a: set<T>, b: set<T>)
    requires a <= b
    ensures |a| <= |b|
  {
    assert b == a + (b - a);
  }
}
