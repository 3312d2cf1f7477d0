/** The cluster-total gauges: one query per metric (total, active, idle watts),
    each the sum of three terms — `psys`, `package` of the nodes without `psys`,
    and `dram` — where a term with no samples counts as 0. */
module ClusterPower {
  import opened Samples
  import opened PromQL
  import opened DomainResolver
  import Rows

  /** `(sum(x) or vector(0)) + (sum(y) or vector(0)) + (sum(z) or vector(0))`. */
  function AddedSums(x: Vector, y: Vector, z: Vector): Grouped
  {
    Plus(Plus(OrVector0(SumBy(x, {})), OrVector0(SumBy(y, {}))), OrVector0(SumBy(z, {})))
  }

  /** The query, over the `{job="power-monitor"}` samples `v` of one metric:
      `(sum(psys) or vector(0)) + (sum(package unless on(node_name) psys) or vector(0))
       + (sum(dram) or vector(0))`. */
  function ClusterTotalQuery(v: Vector): Grouped
  {
    var psys := Select(v, Zone, Psys);
    AddedSums(psys, UnlessOnNode(Select(v, Zone, Package), psys), Select(v, Zone, Dram))
  }

  lemma {:induction false} SumKeyUngrouped(x: Vector)
    ensures SumKey(x, {}, NoLabels) == SumValues(x)
  {
    if x != [] {
      assert Project(x[0].metric, {}).Keys == {};
      SumKeyUngrouped(x[1..]);
    }
  }

  /** `sum(x) or vector(0)` is one label-less element holding the total of `x`,
      0 when `x` is empty. */
  lemma SumOrZero(x: Vector)
    ensures forall k :: k in OrVector0(SumBy(x, {})) <==> k == NoLabels
    ensures OrVector0(SumBy(x, {}))[NoLabels] == SumValues(x)
  {
    var g := SumBy(x, {});
    SumByMeaning(x, {});
    forall k | k in g ensures k == NoLabels {
      var s :| s in x && Project(s.metric, {}) == k;
      assert Project(s.metric, {}).Keys == {};
    }
    SumKeyUngrouped(x);
    if x != [] {
      assert x[0] in x && Project(x[0].metric, {}).Keys == {};
      assert NoLabels in g;
    }
  }

  /** The three query terms add up to the per-sample weighting, for any fixed set
      of `psys` nodes. */
  lemma {:induction false} TermsAreWeighted(v: Vector, p: set<string>)
    ensures SumValues(Select(v, Zone, Psys))
          + SumValues(WhereNode(Select(v, Zone, Package), p, false))
          + SumValues(Select(v, Zone, Dram))
         == WeightedSum(v, p)
  {
    if v != [] {
      var s := v[0];
      var rest := v[1..];
      TermsAreWeighted(rest, p);
      var ps, pk, dr := Select(rest, Zone, Psys), Select(rest, Zone, Package), Select(rest, Zone, Dram);
      if ZoneOf(s) == Psys {
        assert Select(v, Zone, Psys) == [s] + ps;
        assert Select(v, Zone, Package) == pk && Select(v, Zone, Dram) == dr;
      } else if ZoneOf(s) == Package {
        assert Select(v, Zone, Package) == [s] + pk;
        assert ([s] + pk)[1..] == pk;
        assert Select(v, Zone, Psys) == ps && Select(v, Zone, Dram) == dr;
        assert WhereNode([s] + pk, p, false)
            == (if NodeOf(s) in p then [] else [s]) + WhereNode(pk, p, false);
        SumValuesAppend(if NodeOf(s) in p then [] else [s], WhereNode(pk, p, false));
      } else if ZoneOf(s) == Dram {
        assert Select(v, Zone, Dram) == [s] + dr;
        assert Select(v, Zone, Psys) == ps && Select(v, Zone, Package) == pk;
      } else {
        assert Select(v, Zone, Psys) == ps && Select(v, Zone, Package) == pk && Select(v, Zone, Dram) == dr;
      }
    }
  }

  lemma PsysNodeKeys(v: Vector)
    ensures NodeKeys(Select(v, Zone, Psys)) == PsysNodes(v)
  {
  }

  /** Three `sum(...) or vector(0)` terms added: one label-less element holding
      the three totals added. */
  lemma AddedSumsValue(x: Vector, y: Vector, z: Vector)
    ensures forall k :: k in AddedSums(x, y, z) <==> k == NoLabels
    ensures AddedSums(x, y, z)[NoLabels] == SumValues(x) + SumValues(y) + SumValues(z)
  {
    SumOrZero(x);
    SumOrZero(y);
    SumOrZero(z);
  }

  lemma TermsAreResolvedTotal(v: Vector)
    ensures SumValues(Select(v, Zone, Psys))
          + SumValues(UnlessOnNode(Select(v, Zone, Package), Select(v, Zone, Psys)))
          + SumValues(Select(v, Zone, Dram))
         == ResolvedTotal(v)
  {
    PsysNodeKeys(v);
    TermsAreWeighted(v, PsysNodes(v));
    WeightedSumIsResolvedTotal(v);
  }

  /** The cluster-total query yields exactly one element, label-less, whose value
      is the sum over nodes of each node's resolved power: `psys` if the node has
      it, else `package`, plus `dram`. */
  lemma ClusterTotalValue(v: Vector)
    ensures forall k :: k in ClusterTotalQuery(v) <==> k == NoLabels
    ensures ClusterTotalQuery(v)[NoLabels] == ResolvedTotal(v)
  {
    var psys := Select(v, Zone, Psys);
    AddedSumsValue(psys, UnlessOnNode(Select(v, Zone, Package), psys), Select(v, Zone, Dram));
    TermsAreResolvedTotal(v);
  }

  lemma SingletonMap(g: Grouped, x: real)
    requires forall k :: k in g <==> k == NoLabels
    requires g[NoLabels] == x
    ensures g == map[NoLabels := x]
  {
  }

  /** The same, as one equation. */
  lemma ClusterTotalIsResolved(v: Vector)
    ensures ClusterTotalQuery(v) == map[NoLabels := ResolvedTotal(v)]
  {
    ClusterTotalValue(v);
    SingletonMap(ClusterTotalQuery(v), ResolvedTotal(v));
  }

  /** The gauge shows the resolved cluster total, whatever order the API lists
      the (single-element) result in. */
  lemma GaugeShowsResolvedTotal(v: Vector, r: seq<Sample>)
    requires Lists(ClusterTotalQuery(v), r)
    ensures Rows.ScalarOrZero(Some(r)) == ResolvedTotal(v)
  {
    ClusterTotalValue(v);
    assert r[0].metric in ClusterTotalQuery(v);
  }

  /** With no samples at all the total is a present element of value 0, not an
      empty result. */
  lemma EmptyClusterIsZero()
    ensures ClusterTotalQuery([]) == map[NoLabels := 0.0]
  {
    ClusterTotalIsResolved([]);
  }

  lemma TotalWithoutPackage(v: Vector, s: Sample)
    requires ZoneOf(s) == Package && NodeOf(s) in PsysNodes(v)
    ensures ResolvedTotal(v + [s]) == ResolvedTotal(v)
  {
    assert PsysNodes(v + [s]) == PsysNodes(v);
    WeightedSumIsResolvedTotal(v);
    WeightedSumIsResolvedTotal(v + [s]);
    WeightedSumAppend(v, [s], PsysNodes(v));
  }

  /** A `package` reading of a node that reports `psys` never changes the total. */
  lemma PackageIgnoredOnPsysNode(v: Vector, s: Sample)
    requires ZoneOf(s) == Package && NodeOf(s) in PsysNodes(v)
    ensures NoLabels in ClusterTotalQuery(v) && NoLabels in ClusterTotalQuery(v + [s])
    ensures ClusterTotalQuery(v + [s])[NoLabels] == ClusterTotalQuery(v)[NoLabels]
  {
    ClusterTotalValue(v);
    ClusterTotalValue(v + [s]);
    TotalWithoutPackage(v, s);
  }

  lemma TotalWithDram(v: Vector, s: Sample)
    requires ZoneOf(s) == Dram
    ensures ResolvedTotal(v + [s]) == ResolvedTotal(v) + s.value
  {
    assert PsysNodes(v + [s]) == PsysNodes(v);
    WeightedSumIsResolvedTotal(v);
    WeightedSumIsResolvedTotal(v + [s]);
    WeightedSumAppend(v, [s], PsysNodes(v));
  }

  /** A `dram` reading is always added, whichever rail its node's SoC power
      comes from. */
  lemma DramAlwaysAdded(v: Vector, s: Sample)
    requires ZoneOf(s) == Dram
    ensures NoLabels in ClusterTotalQuery(v) && NoLabels in ClusterTotalQuery(v + [s])
    ensures ClusterTotalQuery(v + [s])[NoLabels] == ClusterTotalQuery(v)[NoLabels] + s.value
  {
    ClusterTotalValue(v);
    ClusterTotalValue(v + [s]);
    TotalWithDram(v, s);
  }

  lemma {:induction false} WeightedSumNewPsysNode(v: Vector, p: set<string>, n: string)
    requires n !in p
    ensures WeightedSum(v, p + {n}) == WeightedSum(v, p) - ZoneNodeSum(v, Package, n)
  {
    if v != [] {
      WeightedSumNewPsysNode(v[1..], p, n);
    }
  }

  lemma TotalWithFirstPsys(v: Vector, s: Sample)
    requires ZoneOf(s) == Psys && NodeOf(s) !in PsysNodes(v)
    ensures ResolvedTotal(v + [s]) == ResolvedTotal(v) - ZoneNodeSum(v, Package, NodeOf(s)) + s.value
  {
    assert PsysNodes(v + [s]) == PsysNodes(v) + {NodeOf(s)};
    WeightedSumIsResolvedTotal(v);
    WeightedSumIsResolvedTotal(v + [s]);
    WeightedSumAppend(v, [s], PsysNodes(v) + {NodeOf(s)});
    WeightedSumNewPsysNode(v, PsysNodes(v), NodeOf(s));
  }

  /** The first `psys` reading of a node replaces that node's `package` readings
      in the total instead of adding to them. */
  lemma PsysSupersedesPackage(v: Vector, s: Sample)
    requires ZoneOf(s) == Psys && NodeOf(s) !in PsysNodes(v)
    ensures NoLabels in ClusterTotalQuery(v) && NoLabels in ClusterTotalQuery(v + [s])
    ensures ClusterTotalQuery(v + [s])[NoLabels]
         == ClusterTotalQuery(v)[NoLabels] - ZoneNodeSum(v, Package, NodeOf(s)) + s.value
  {
    ClusterTotalValue(v);
    ClusterTotalValue(v + [s]);
    TotalWithFirstPsys(v, s);
  }

  function ScenarioReadings(): Vector
  {
    [Reading("n1", Psys, 50.0), Reading("n1", Package, 80.0), Reading("n1", Dram, 10.0),
     Reading("n2", Package, 30.0), Reading("n2", Dram, 5.0)]
  }

  lemma ScenarioTotal()
    ensures ResolvedTotal(ScenarioReadings()) == 95.0
  {
    var v := ScenarioReadings();
    assert v[0] in v;
    forall n | n in PsysNodes(v) ensures n == "n1" {
      var s :| s in v && ZoneOf(s) == Psys && NodeOf(s) == n;
      var i :| 0 <= i < |v| && v[i] == s;
    }
    var p := PsysNodes(v);
    assert p == {"n1"};
    assert Weight(v[0], p) == 50.0 && Weight(v[1], p) == 0.0 && Weight(v[2], p) == 10.0;
    assert Weight(v[3], p) == 30.0 && Weight(v[4], p) == 5.0;
    assert WeightedSum(v[4..], p) == 5.0;
    assert WeightedSum(v[3..], p) == 35.0 by { assert v[3..][1..] == v[4..]; }
    assert WeightedSum(v[2..], p) == 45.0 by { assert v[2..][1..] == v[3..]; }
    assert WeightedSum(v[1..], p) == 45.0 by { assert v[1..][1..] == v[2..]; }
    WeightedSumIsResolvedTotal(v);
  }

  /** Node n1 reports psys 50, package 80 and dram 10; node n2 reports package 30
      and dram 5. The gauge reads 50 + 30 + (10 + 5) = 95, not 175. */
  lemma TwoNodeScenario()
    ensures forall k :: k in ClusterTotalQuery(ScenarioReadings()) <==> k == NoLabels
    ensures ClusterTotalQuery(ScenarioReadings())[NoLabels] == 95.0
  {
    ClusterTotalValue(ScenarioReadings());
    ScenarioTotal();
  }
}
