/** The power-domain precedence rule, stated per node and independently of the
    query language: a node's SoC power is its `psys` reading when it has one and
    its `package` reading otherwise; its `dram` reading is always added. */
module DomainResolver {
  import opened Samples
  import Ordering

  /** One node's resolved power. */
  datatype NodePower = NodePower(node: string, soc: real, dram: real)

  function NodeOf(s: Sample): string
  {
    Label(s.metric, NodeName)
  }

  function ZoneOf(s: Sample): string
  {
    Label(s.metric, Zone)
  }

  /** The total of the readings of zone `z` on node `n`. */
  function ZoneNodeSum(v: seq<Sample>, z: string, n: string): real
  {
    if v == [] then 0.0
    else (if ZoneOf(v[0]) == z && NodeOf(v[0]) == n then v[0].value else 0.0)
         + ZoneNodeSum(v[1..], z, n)
  }

  predicate HasZoneNode(v: seq<Sample>, z: string, n: string)
  {
    exists s :: s in v && ZoneOf(s) == z && NodeOf(s) == n
  }

  /** The nodes that report a `psys` reading. */
  function PsysNodes(v: seq<Sample>): set<string>
  {
    set s | s in v && ZoneOf(s) == Psys :: NodeOf(s)
  }

  /** A node-level reading `{node_name=node, zone=zone}`, for worked examples. */
  function Reading(node: string, zone: string, watts: real): Sample
  {
    Sample(map[NodeName := node, Zone := zone], watts)
  }

  lemma PsysNodesMeaning(v: seq<Sample>, n: string)
    ensures n in PsysNodes(v) <==> HasZoneNode(v, Psys, n)
  {
  }

  /** Node `n`'s resolved power. */
  function Resolve(v: seq<Sample>, n: string): (p: NodePower)
  {
    NodePower(n,
      if n in PsysNodes(v) then ZoneNodeSum(v, Psys, n) else ZoneNodeSum(v, Package, n),
      ZoneNodeSum(v, Dram, n))
  }

  /** The distinct nodes that have any reading. */
  function NodesOf(v: seq<Sample>): (ns: seq<string>)
    ensures Ordering.Distinct(ns)
    ensures forall n :: n in ns <==> exists s :: s in v && NodeOf(s) == n
  {
    if v == [] then []
    else
      var t := NodesOf(v[1..]);
      assert forall s :: s in v <==> s == v[0] || s in v[1..];
      if NodeOf(v[0]) in t then t else [NodeOf(v[0])] + t
  }

  /** The cluster total as a reduction over resolved nodes. */
  function ResolvedSum(v: seq<Sample>, ns: seq<string>): real
  {
    if ns == [] then 0.0
    else Resolve(v, ns[0]).soc + Resolve(v, ns[0]).dram + ResolvedSum(v, ns[1..])
  }

  function ResolvedTotal(v: seq<Sample>): real
  {
    ResolvedSum(v, NodesOf(v))
  }

  /** What one sample contributes to the cluster total, given the nodes that
      report `psys`. */
  function Weight(s: Sample, psysNodes: set<string>): real
  {
    if ZoneOf(s) == Psys then s.value
    else if ZoneOf(s) == Package then (if NodeOf(s) in psysNodes then 0.0 else s.value)
    else if ZoneOf(s) == Dram then s.value
    else 0.0
  }

  function WeightedSum(v: seq<Sample>, psysNodes: set<string>): real
  {
    if v == [] then 0.0 else Weight(v[0], psysNodes) + WeightedSum(v[1..], psysNodes)
  }

  function NodeWeightedSum(v: seq<Sample>, n: string, psysNodes: set<string>): real
  {
    if v == [] then 0.0
    else (if NodeOf(v[0]) == n then Weight(v[0], psysNodes) else 0.0)
         + NodeWeightedSum(v[1..], n, psysNodes)
  }

  lemma {:induction false} WeightedSumAppend(a: seq<Sample>, b: seq<Sample>, p: set<string>)
    ensures WeightedSum(a + b, p) == WeightedSum(a, p) + WeightedSum(b, p)
  {
    if a == [] {
      assert a + b == b;
    } else {
      assert (a + b)[1..] == a[1..] + b;
      WeightedSumAppend(a[1..], b, p);
    }
  }

  lemma {:induction false} ZoneNodeSumAppend(a: seq<Sample>, b: seq<Sample>, z: string, n: string)
    ensures ZoneNodeSum(a + b, z, n) == ZoneNodeSum(a, z, n) + ZoneNodeSum(b, z, n)
  {
    if a == [] {
      assert a + b == b;
    } else {
      assert (a + b)[1..] == a[1..] + b;
      ZoneNodeSumAppend(a[1..], b, z, n);
    }
  }

  /** Summing the per-node sums over a duplicate-free list of nodes: a sample of a
      listed node is counted once, a sample of an unlisted node not at all. */
  function ListedWeight(s: Sample, ns: seq<string>, p: set<string>): real
  {
    if NodeOf(s) in ns then Weight(s, p) else 0.0
  }

  function NodeSums(v: seq<Sample>, ns: seq<string>, p: set<string>): real
  {
    if ns == [] then 0.0 else NodeWeightedSum(v, ns[0], p) + NodeSums(v, ns[1..], p)
  }

  lemma {:induction false} NodeSumsCons(s: Sample, v: seq<Sample>, ns: seq<string>, p: set<string>)
    requires Ordering.Distinct(ns)
    ensures NodeSums([s] + v, ns, p) == ListedWeight(s, ns, p) + NodeSums(v, ns, p)
  {
    if ns != [] {
      assert ([s] + v)[1..] == v;
      NodeSumsCons(s, v, ns[1..], p);
      assert NodeOf(s) == ns[0] ==> NodeOf(s) !in ns[1..];
      assert NodeOf(s) in ns <==> NodeOf(s) == ns[0] || NodeOf(s) in ns[1..];
    }
  }

  /** Partition: the weighted sum of the samples equals the sum, over a
      duplicate-free list covering all their nodes, of the per-node sums. */
  lemma {:induction false} WeightedSumByNodes(v: seq<Sample>, ns: seq<string>, p: set<string>)
    requires Ordering.Distinct(ns)
    requires forall s :: s in v ==> NodeOf(s) in ns
    ensures WeightedSum(v, p) == NodeSums(v, ns, p)
  {
    if v == [] {
      NodeSumsEmpty(ns, p);
    } else {
      assert v == [v[0]] + v[1..];
      assert v[0] in v;
      WeightedSumByNodes(v[1..], ns, p);
      NodeSumsCons(v[0], v[1..], ns, p);
    }
  }

  lemma {:induction false} NodeSumsEmpty(ns: seq<string>, p: set<string>)
    ensures NodeSums([], ns, p) == 0.0
  {
    if ns != [] {
      NodeSumsEmpty(ns[1..], p);
    }
  }

  /** One node's weighted sum splits into its three zone sums, the `package` sum
      counting only when the node is not a `psys` node. */
  lemma {:induction false} NodeWeightedSumByZone(v: seq<Sample>, n: string, p: set<string>)
    ensures NodeWeightedSum(v, n, p)
         == ZoneNodeSum(v, Psys, n)
          + (if n in p then 0.0 else ZoneNodeSum(v, Package, n))
          + ZoneNodeSum(v, Dram, n)
  {
    if v != [] {
      NodeWeightedSumByZone(v[1..], n, p);
    }
  }

  lemma {:induction false} NoZoneNoSum(v: seq<Sample>, z: string, n: string)
    requires !HasZoneNode(v, z, n)
    ensures ZoneNodeSum(v, z, n) == 0.0
  {
    if v != [] {
      assert v[0] in v;
      assert forall s :: s in v[1..] ==> s in v;
      NoZoneNoSum(v[1..], z, n);
    }
  }

  /** With the actual `psys` nodes, a node's weighted sum is its resolved power. */
  lemma NodeWeightedSumIsResolved(v: seq<Sample>, n: string)
    ensures NodeWeightedSum(v, n, PsysNodes(v)) == Resolve(v, n).soc + Resolve(v, n).dram
  {
    NodeWeightedSumByZone(v, n, PsysNodes(v));
    if n !in PsysNodes(v) {
      NoZoneNoSum(v, Psys, n);
    }
  }

  lemma {:induction false} NodeSumsIsResolvedSum(v: seq<Sample>, ns: seq<string>)
    ensures NodeSums(v, ns, PsysNodes(v)) == ResolvedSum(v, ns)
  {
    if ns != [] {
      NodeWeightedSumIsResolved(v, ns[0]);
      NodeSumsIsResolvedSum(v, ns[1..]);
    }
  }

  /** The per-sample weighting and the per-node resolution give the same cluster
      total: summing resolved nodes counts every reading the weighting counts. */
  lemma WeightedSumIsResolvedTotal(v: seq<Sample>)
    ensures WeightedSum(v, PsysNodes(v)) == ResolvedTotal(v)
  {
    WeightedSumByNodes(v, NodesOf(v), PsysNodes(v));
    NodeSumsIsResolvedSum(v, NodesOf(v));
  }
}
