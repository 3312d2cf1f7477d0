/** The "Top 5 Power Consuming Nodes" card: `topk(5, (soc + dram) > 0)` with the
    SoC part summed by `node_name` under the psys-over-package rule. */
module TopNodes {
  import opened Samples
  import opened PromQL
  import opened DomainResolver
  import opened GroupedPower
  import Rows

  const NodeGrouping: set<string> := {NodeName}

  /** The output label set of `sum by (node_name)` for node `n`; a sample without
      a node name falls in the label-less group. */
  function NodeKey(n: string): LabelSet
  {
    if n == "" then NoLabels else map[NodeName := n]
  }

  lemma NodeKeyLabel(n: string)
    ensures Label(NodeKey(n), NodeName) == n
  {
  }

  lemma NodeKeyNoLabels(n: string)
    ensures NodeKey(n) == NoLabels <==> n == ""
  {
    if n != "" {
      assert NodeName in NodeKey(n);
    }
  }

  lemma NodeKeyProject(m: LabelSet)
    ensures Project(m, NodeGrouping) == NodeKey(Label(m, NodeName))
  {
    var p := Project(m, NodeGrouping);
    if Label(m, NodeName) == "" {
      assert p.Keys == {};
    } else {
      assert p.Keys == {NodeName};
    }
  }

  /** Every group of a `sum by (node_name)` is the key of the node it names. */
  lemma ByNodeKeys(x: Vector)
    ensures forall k :: k in SumBy(x, NodeGrouping) ==> k == NodeKey(Label(k, NodeName))
  {
    SumByMeaning(x, NodeGrouping);
    forall k | k in SumBy(x, NodeGrouping) ensures k == NodeKey(Label(k, NodeName)) {
      var s :| s in x && Project(s.metric, NodeGrouping) == k;
      NodeKeyProject(s.metric);
      NodeKeyLabel(Label(s.metric, NodeName));
    }
  }

  lemma {:induction false} GroupZoneSumAtNode(v: Vector, z: string, n: string)
    ensures GroupZoneSum(v, z, NodeGrouping, NodeKey(n)) == ZoneNodeSum(v, z, n)
  {
    if v != [] {
      NodeKeyProject(v[0].metric);
      NodeKeyLabel(n);
      NodeKeyLabel(NodeOf(v[0]));
      GroupZoneSumAtNode(v[1..], z, n);
    }
  }

  lemma GroupHasZoneAtNode(v: Vector, z: string, n: string)
    ensures GroupHasZone(v, z, NodeGrouping, NodeKey(n)) <==> HasZoneNode(v, z, n)
  {
    NodeKeyLabel(n);
    if GroupHasZone(v, z, NodeGrouping, NodeKey(n)) {
      var s :| s in v && ZoneOf(s) == z && Project(s.metric, NodeGrouping) == NodeKey(n);
      NodeKeyProject(s.metric);
      NodeKeyLabel(NodeOf(s));
    }
    if HasZoneNode(v, z, n) {
      var s :| s in v && ZoneOf(s) == z && NodeOf(s) == n;
      NodeKeyProject(s.metric);
    }
  }

  lemma {:induction false} WhereNodeAll(x: Vector, keys: set<string>)
    requires forall s :: s in x ==> Label(s.metric, NodeName) in keys
    ensures WhereNode(x, keys, true) == x
  {
    if x != [] {
      assert x[0] in x;
      assert forall s :: s in x[1..] ==> s in x;
      WhereNodeAll(x[1..], keys);
      assert x == [x[0]] + x[1..];
    }
  }

  /** `x and on(node_name) x` is `x`. */
  lemma AndOnSelf(x: Vector)
    ensures AndOnNode(x, x) == x
  {
    WhereNodeAll(x, NodeKeys(x));
  }

  lemma PsysKeys(v: Vector, n: string)
    ensures n in NodeKeys(Select(v, Zone, Psys)) <==> n in PsysNodes(v)
  {
    if n in PsysNodes(v) {
      var s :| s in v && ZoneOf(s) == Psys && NodeOf(s) == n;
      assert s in Select(v, Zone, Psys);
    }
  }

  /** Part A: `sum by (node_name) (psys or (package unless on(node_name) psys))`. */
  function SocByNode(v: Vector): Grouped
  {
    var psys := Select(v, Zone, Psys);
    SumBy(Or(psys, UnlessOnNode(Select(v, Zone, Package), psys)), NodeGrouping)
  }

  /** Part B: `sum by (node_name) (dram)`. */
  function DramByNode(v: Vector): Grouped
  {
    SumBy(Select(v, Zone, Dram), NodeGrouping)
  }

  /** The card's inner expression, as written. */
  function NodeTotalsAsWritten(v: Vector): Grouped
  {
    AddedOrZero(SocByNode(v), DramByNode(v))
  }

  /** The inner expression with the missing-side case corrected. */
  function NodeTotals(v: Vector): Grouped
  {
    AddedEither(SocByNode(v), DramByNode(v))
  }

  /** Node `n`'s resolved power: SoC by the precedence rule, plus `dram`. */
  function NodeWatts(v: Vector, n: string): real
  {
    Resolve(v, n).soc + Resolve(v, n).dram
  }

  predicate HasSoc(v: Vector, n: string)
  {
    HasZoneNode(v, Psys, n) || HasZoneNode(v, Package, n)
  }

  /** Node `n` has any CPU reading. */
  predicate HasReading(v: Vector, n: string)
  {
    HasSoc(v, n) || HasZoneNode(v, Dram, n)
  }

  /** A node has a Part A element exactly when it has a `psys` or a `package`
      reading, and the element holds its resolved SoC power. */
  lemma SocByNodeAt(v: Vector, n: string)
    ensures NodeKey(n) in SocByNode(v) <==> HasSoc(v, n)
    ensures NodeKey(n) in SocByNode(v) ==> SocByNode(v)[NodeKey(n)] == Resolve(v, n).soc
  {
    var psys := Select(v, Zone, Psys);
    AndOnSelf(psys);
    assert SocByNode(v) == SumBy(SocVector(v, psys), NodeGrouping);
    SocGroups(v, psys, NodeGrouping, NodeKey(n));
    NodeKeyLabel(n);
    PsysKeys(v, n);
    PsysNodesMeaning(v, n);
    GroupZoneSumAtNode(v, Psys, n);
    GroupZoneSumAtNode(v, Package, n);
    GroupHasZoneAtNode(v, Psys, n);
    GroupHasZoneAtNode(v, Package, n);
  }

  /** A node has a Part B element exactly when it has a `dram` reading, holding
      its `dram` total. */
  lemma DramByNodeAt(v: Vector, n: string)
    ensures NodeKey(n) in DramByNode(v) <==> HasZoneNode(v, Dram, n)
    ensures NodeKey(n) in DramByNode(v) ==> DramByNode(v)[NodeKey(n)] == Resolve(v, n).dram
  {
    DramGroups(v, NodeGrouping, NodeKey(n));
    GroupZoneSumAtNode(v, Dram, n);
    GroupHasZoneAtNode(v, Dram, n);
  }

  /** Both parts at node `n`, with the part a node lacks counting as 0. */
  lemma PartsAt(v: Vector, n: string)
    ensures NodeKey(n) in SocByNode(v) <==> HasSoc(v, n)
    ensures NodeKey(n) in DramByNode(v) <==> HasZoneNode(v, Dram, n)
    ensures NodeKey(n) in SocByNode(v) ==> SocByNode(v)[NodeKey(n)] == Resolve(v, n).soc
    ensures NodeKey(n) !in SocByNode(v) ==> Resolve(v, n).soc == 0.0
    ensures NodeKey(n) in DramByNode(v) ==> DramByNode(v)[NodeKey(n)] == Resolve(v, n).dram
    ensures NodeKey(n) !in DramByNode(v) ==> Resolve(v, n).dram == 0.0
  {
    SocByNodeAt(v, n);
    DramByNodeAt(v, n);
    PsysNodesMeaning(v, n);
    if !HasSoc(v, n) {
      NoZoneNoSum(v, Package, n);
    }
    if !HasZoneNode(v, Dram, n) {
      NoZoneNoSum(v, Dram, n);
    }
  }

  /** Corrected: every node with a reading has an element, holding its resolved power. */
  lemma NodeTotalsAt(v: Vector, n: string)
    ensures NodeKey(n) in NodeTotals(v) <==> HasReading(v, n)
    ensures NodeKey(n) in NodeTotals(v) ==> NodeTotals(v)[NodeKey(n)] == NodeWatts(v, n)
  {
    PartsAt(v, n);
    EitherAt(SocByNode(v), DramByNode(v), NodeKey(n), Resolve(v, n).soc, Resolve(v, n).dram);
  }

  /** As written: a named node has an element only when it has both a SoC and a
      `dram` reading; the label-less element is always there. Any element holds
      the node's resolved power. */
  lemma NodeTotalsAsWrittenAt(v: Vector, n: string)
    ensures NodeKey(n) in NodeTotalsAsWritten(v) <==> n == "" || (HasSoc(v, n) && HasZoneNode(v, Dram, n))
    ensures NodeKey(n) in NodeTotalsAsWritten(v) ==> NodeTotalsAsWritten(v)[NodeKey(n)] == NodeWatts(v, n)
  {
    AsWrittenKept(v, n);
    AsWrittenValue(v, n);
  }

  lemma AsWrittenKept(v: Vector, n: string)
    ensures NodeKey(n) in NodeTotalsAsWritten(v) <==> n == "" || (HasSoc(v, n) && HasZoneNode(v, Dram, n))
  {
    PartsAt(v, n);
    NodeKeyNoLabels(n);
    AddedOrZeroAt(SocByNode(v), DramByNode(v), NodeKey(n));
  }

  lemma AsWrittenValue(v: Vector, n: string)
    ensures NodeKey(n) in NodeTotalsAsWritten(v) ==> NodeTotalsAsWritten(v)[NodeKey(n)] == NodeWatts(v, n)
  {
    PartsAt(v, n);
    OrZeroAt(SocByNode(v), DramByNode(v), NodeKey(n), Resolve(v, n).soc, Resolve(v, n).dram);
  }

  lemma NodeTotalsKeys(v: Vector)
    ensures forall k :: k in NodeTotals(v) ==> k == NodeKey(Label(k, NodeName))
  {
    var psys := Select(v, Zone, Psys);
    ByNodeKeys(Or(psys, UnlessOnNode(Select(v, Zone, Package), psys)));
    ByNodeKeys(Select(v, Zone, Dram));
  }

  lemma NodeTotalsAsWrittenKeys(v: Vector)
    ensures forall k :: k in NodeTotalsAsWritten(v) ==> k == NodeKey(Label(k, NodeName))
  {
    var psys := Select(v, Zone, Psys);
    ByNodeKeys(Or(psys, UnlessOnNode(Select(v, Zone, Package), psys)));
    ByNodeKeys(Select(v, Zone, Dram));
    assert NodeKey("") == NoLabels;
  }

  /** What any answer `r` of the corrected `topk(5, ... > 0)` shows: at most five
      distinct nodes, each with a reading and shown with its resolved power, which
      is positive; and a node with positive power is left out only when five nodes
      at least as large are shown. */
  lemma TopNodesMeaning(v: Vector, r: seq<Sample>)
    requires IsTopK(Positive(NodeTotals(v)), 5, r)
    ensures |r| <= 5
    ensures forall i :: 0 <= i < |r| ==>
      && r[i].metric == NodeKey(NodeOf(r[i]))
      && HasReading(v, NodeOf(r[i]))
      && r[i].value == NodeWatts(v, NodeOf(r[i]))
      && r[i].value > 0.0
    ensures forall i, j :: 0 <= i < j < |r| ==> NodeOf(r[i]) != NodeOf(r[j])
    ensures forall n :: HasReading(v, n) && NodeWatts(v, n) > 0.0 && NodeKey(n) !in MetricsOf(r) ==>
      |r| == 5 && forall i :: 0 <= i < |r| ==> NodeWatts(v, n) <= r[i].value
  {
    var g := Positive(NodeTotals(v));
    NodeTotalsKeys(v);
    forall i | 0 <= i < |r|
      ensures r[i].metric == NodeKey(NodeOf(r[i]))
      ensures HasReading(v, NodeOf(r[i])) && r[i].value == NodeWatts(v, NodeOf(r[i]))
      ensures r[i].value > 0.0
    {
      NodeTotalsAt(v, NodeOf(r[i]));
    }
    forall n | HasReading(v, n) && NodeWatts(v, n) > 0.0 && NodeKey(n) !in MetricsOf(r)
      ensures |r| == 5 && forall i :: 0 <= i < |r| ==> NodeWatts(v, n) <= r[i].value
    {
      NodeTotalsAt(v, n);
      TopKOmitted(g, 5, r, NodeKey(n));
    }
  }

  /** The rows the card renders from such an answer: one per element, showing the
      node's name (`unknown` for an unnamed node) and its resolved power. */
  lemma TopNodeRowsMeaning(v: Vector, r: seq<Sample>)
    requires IsTopK(Positive(NodeTotals(v)), 5, r)
    ensures |Rows.NodeRows(Some(r))| <= 5
    ensures forall i :: 0 <= i < |r| ==>
      && Rows.NodeRows(Some(r))[i].node == (if NodeOf(r[i]) == "" then Unknown else NodeOf(r[i]))
      && Rows.NodeRows(Some(r))[i].watts == NodeWatts(v, NodeOf(r[i]))
      && Rows.NodeRows(Some(r))[i].watts > 0.0
  {
    TopNodesMeaning(v, r);
  }

  /** As written, a named node without a `dram` reading is never shown, whatever
      its SoC power: no element of any top-5 answer belongs to it. */
  lemma NodeWithoutDramDropped(v: Vector, n: string, r: seq<Sample>)
    requires IsTopK(Positive(NodeTotalsAsWritten(v)), 5, r)
    requires n != "" && !HasZoneNode(v, Dram, n)
    ensures forall i :: 0 <= i < |r| ==> NodeOf(r[i]) != n
  {
    NodeTotalsAsWrittenKeys(v);
    AsWrittenKept(v, n);
    forall i | 0 <= i < |r| ensures NodeOf(r[i]) != n {
      assert r[i].metric in NodeTotalsAsWritten(v);
    }
  }

  /** A named node with a SoC reading but no `dram` reading: the query as written
      has no element for it, the corrected one has, holding its SoC power. */
  lemma NodeWithoutDramKept(v: Vector, n: string)
    requires n != "" && HasSoc(v, n) && !HasZoneNode(v, Dram, n)
    ensures NodeKey(n) !in NodeTotalsAsWritten(v)
    ensures NodeKey(n) in NodeTotals(v) && NodeTotals(v)[NodeKey(n)] == Resolve(v, n).soc
  {
    NodeTotalsAt(v, n);
    NodeTotalsAsWrittenAt(v, n);
    NoZoneNoSum(v, Dram, n);
  }
}
