/** The "Top 10 Power Consuming Namespaces" card: pod attributions summed by
    `(pod_namespace, node_name)`, SoC power taken from `psys` attributions on nodes
    that report node-level `psys` and from `package` attributions elsewhere, plus
    `dram`, then `topk(10, ... > 0)`. The namespace filter narrows every pod selector. */
module TopNamespaces {
  import opened Samples
  import opened PromQL
  import opened DomainResolver
  import opened GroupedPower
  import Rows

  const PodGrouping: set<string> := {PodNamespace, NodeName}

  /** The namespace filter's selector: none for `All`, `pod_namespace="f"` otherwise. */
  function Scope(u: Vector, f: string): Vector
  {
    Filtered(u, PodNamespace, f)
  }

  /** `kepler_pod_cpu_watts{zone="z"<namespace selector>}`. */
  function PodSelector(u: Vector, z: string, f: string): Vector
  {
    Scope(Select(u, Zone, z), f)
  }

  /** `kepler_node_cpu_watts{zone="psys"}`: the node-level rail that decides precedence. */
  function NodePsys(v: Vector): Vector
  {
    Select(v, Zone, Psys)
  }

  lemma {:induction false} SelectCommutes(u: Vector, a: string, x: string, b: string, y: string)
    ensures Select(Select(u, a, x), b, y) == Select(Select(u, b, y), a, x)
  {
    if u != [] {
      SelectCommutes(u[1..], a, x, b, y);
      var hx := if Label(u[0].metric, a) == x then [u[0]] else [];
      var hy := if Label(u[0].metric, b) == y then [u[0]] else [];
      SelectAppend(hx, Select(u[1..], a, x), b, y);
      SelectAppend(hy, Select(u[1..], b, y), a, x);
    }
  }

  /** The namespace selector and the zone selector commute. */
  lemma ScopeSelect(u: Vector, z: string, f: string)
    ensures PodSelector(u, z, f) == Select(Scope(u, f), Zone, z)
  {
    if f != All {
      SelectCommutes(u, PodNamespace, f, Zone, z);
    }
  }

  /** Part A, as the query writes it. */
  function PodSocVector(u: Vector, v: Vector, f: string): Vector
  {
    Or(AndOnNode(PodSelector(u, Psys, f), NodePsys(v)), UnlessOnNode(PodSelector(u, Package, f), NodePsys(v)))
  }

  function PodSoc(u: Vector, v: Vector, f: string): Grouped
  {
    SumBy(PodSocVector(u, v, f), PodGrouping)
  }

  /** Part B: `sum by (pod_namespace, node_name) (dram attributions)`. */
  function PodDram(u: Vector, f: string): Grouped
  {
    SumBy(PodSelector(u, Dram, f), PodGrouping)
  }

  function NamespaceTotalsAsWritten(u: Vector, v: Vector, f: string): Grouped
  {
    AddedOrZero(PodSoc(u, v, f), PodDram(u, f))
  }

  function NamespaceTotals(u: Vector, v: Vector, f: string): Grouped
  {
    AddedEither(PodSoc(u, v, f), PodDram(u, f))
  }

  /** The reference power of output group `g` (one namespace on one node): its
      pods' SoC attributions under the node's precedence rule, plus `dram`. */
  function GroupWatts(u: Vector, v: Vector, f: string, g: LabelSet): real
  {
    GroupSoc(Scope(u, f), PsysNodes(v), PodGrouping, g) + GroupZoneSum(Scope(u, f), Dram, PodGrouping, g)
  }

  predicate GroupHasDram(u: Vector, f: string, g: LabelSet)
  {
    GroupHasZone(Scope(u, f), Dram, PodGrouping, g)
  }

  predicate GroupHasReading(u: Vector, v: Vector, f: string, g: LabelSet)
  {
    GroupHasSoc(Scope(u, f), PsysNodes(v), PodGrouping, g) || GroupHasDram(u, f, g)
  }

  lemma PsysKeys(v: Vector, n: string)
    ensures n in NodeKeys(NodePsys(v)) <==> n in PsysNodes(v)
  {
    if n in PsysNodes(v) {
      var s :| s in v && ZoneOf(s) == Psys && NodeOf(s) == n;
      assert s in NodePsys(v);
    }
  }

  /** A group has a Part A element exactly when the rail its node uses has an
      attribution in it, holding that rail's total. */
  lemma PodSocAt(u: Vector, v: Vector, f: string, g: LabelSet)
    ensures g in PodSoc(u, v, f) <==> GroupHasSoc(Scope(u, f), PsysNodes(v), PodGrouping, g)
    ensures g in PodSoc(u, v, f) ==> PodSoc(u, v, f)[g] == GroupSoc(Scope(u, f), PsysNodes(v), PodGrouping, g)
  {
    ScopeSelect(u, Psys, f);
    ScopeSelect(u, Package, f);
    assert PodSocVector(u, v, f) == SocVector(Scope(u, f), NodePsys(v));
    SocGroups(Scope(u, f), NodePsys(v), PodGrouping, g);
    PsysKeys(v, Label(g, NodeName));
  }

  lemma PodDramAt(u: Vector, f: string, g: LabelSet)
    ensures g in PodDram(u, f) <==> GroupHasDram(u, f, g)
    ensures g in PodDram(u, f) ==> PodDram(u, f)[g] == GroupZoneSum(Scope(u, f), Dram, PodGrouping, g)
  {
    ScopeSelect(u, Dram, f);
    DramGroups(Scope(u, f), PodGrouping, g);
  }

  /** Both parts at group `g`, with a part the group lacks counting as 0. */
  lemma PodPartsAt(u: Vector, v: Vector, f: string, g: LabelSet)
    ensures g in PodSoc(u, v, f) <==> GroupHasSoc(Scope(u, f), PsysNodes(v), PodGrouping, g)
    ensures g in PodDram(u, f) <==> GroupHasDram(u, f, g)
    ensures g in PodSoc(u, v, f) ==> PodSoc(u, v, f)[g] == GroupSoc(Scope(u, f), PsysNodes(v), PodGrouping, g)
    ensures g !in PodSoc(u, v, f) ==> GroupSoc(Scope(u, f), PsysNodes(v), PodGrouping, g) == 0.0
    ensures g in PodDram(u, f) ==> PodDram(u, f)[g] == GroupZoneSum(Scope(u, f), Dram, PodGrouping, g)
    ensures g !in PodDram(u, f) ==> GroupZoneSum(Scope(u, f), Dram, PodGrouping, g) == 0.0
  {
    PodSocAt(u, v, f, g);
    PodDramAt(u, f, g);
    if g !in PodSoc(u, v, f) {
      NoSocNoSum(Scope(u, f), PsysNodes(v), PodGrouping, g);
    }
    if g !in PodDram(u, f) {
      NoGroupNoSum(Scope(u, f), Dram, PodGrouping, g);
    }
  }

  /** Corrected: every (namespace, node) group with an attribution has an element,
      holding its reference power. */
  lemma NamespaceTotalsAt(u: Vector, v: Vector, f: string, g: LabelSet)
    ensures g in NamespaceTotals(u, v, f) <==> GroupHasReading(u, v, f, g)
    ensures g in NamespaceTotals(u, v, f) ==> NamespaceTotals(u, v, f)[g] == GroupWatts(u, v, f, g)
  {
    CorrectedKept(u, v, f, g);
    CorrectedValue(u, v, f, g);
  }

  lemma CorrectedKept(u: Vector, v: Vector, f: string, g: LabelSet)
    ensures g in NamespaceTotals(u, v, f) <==> GroupHasReading(u, v, f, g)
  {
    PodSocAt(u, v, f, g);
    PodDramAt(u, f, g);
    AddedEitherAt(PodSoc(u, v, f), PodDram(u, f), g);
  }

  lemma CorrectedValue(u: Vector, v: Vector, f: string, g: LabelSet)
    ensures g in NamespaceTotals(u, v, f) ==> NamespaceTotals(u, v, f)[g] == GroupWatts(u, v, f, g)
  {
    PodPartsAt(u, v, f, g);
    EitherAt(PodSoc(u, v, f), PodDram(u, f), g,
             GroupSoc(Scope(u, f), PsysNodes(v), PodGrouping, g),
             GroupZoneSum(Scope(u, f), Dram, PodGrouping, g));
  }

  /** As written: a labelled group has an element only when it has both a SoC and
      a `dram` attribution; the label-less element is always there. Any element
      holds the group's reference power. */
  lemma NamespaceTotalsAsWrittenAt(u: Vector, v: Vector, f: string, g: LabelSet)
    ensures g in NamespaceTotalsAsWritten(u, v, f)
        <==> g == NoLabels || (GroupHasSoc(Scope(u, f), PsysNodes(v), PodGrouping, g) && GroupHasDram(u, f, g))
    ensures g in NamespaceTotalsAsWritten(u, v, f) ==> NamespaceTotalsAsWritten(u, v, f)[g] == GroupWatts(u, v, f, g)
  {
    AsWrittenKept(u, v, f, g);
    AsWrittenValue(u, v, f, g);
  }

  lemma AsWrittenKept(u: Vector, v: Vector, f: string, g: LabelSet)
    ensures g in NamespaceTotalsAsWritten(u, v, f)
        <==> g == NoLabels || (GroupHasSoc(Scope(u, f), PsysNodes(v), PodGrouping, g) && GroupHasDram(u, f, g))
  {
    PodSocAt(u, v, f, g);
    PodDramAt(u, f, g);
    AddedOrZeroAt(PodSoc(u, v, f), PodDram(u, f), g);
  }

  lemma AsWrittenValue(u: Vector, v: Vector, f: string, g: LabelSet)
    ensures g in NamespaceTotalsAsWritten(u, v, f) ==> NamespaceTotalsAsWritten(u, v, f)[g] == GroupWatts(u, v, f, g)
  {
    PodPartsAt(u, v, f, g);
    OrZeroAt(PodSoc(u, v, f), PodDram(u, f), g,
             GroupSoc(Scope(u, f), PsysNodes(v), PodGrouping, g),
             GroupZoneSum(Scope(u, f), Dram, PodGrouping, g));
  }

  /** Every group of a `sum by (pod_namespace, node_name)` carries only those two
      labels, and under a namespace filter it is of that namespace. */
  lemma ByPodGroupKeys(x: Vector, f: string)
    requires f != All ==> forall s :: s in x ==> Label(s.metric, PodNamespace) == f
    ensures forall k :: k in SumBy(x, PodGrouping) ==> k == Project(k, PodGrouping)
    ensures f != All ==> forall k :: k in SumBy(x, PodGrouping) ==> Label(k, PodNamespace) == f
  {
    SumByMeaning(x, PodGrouping);
    forall k | k in SumBy(x, PodGrouping)
      ensures k == Project(k, PodGrouping)
      ensures f != All ==> Label(k, PodNamespace) == f
    {
      var s :| s in x && Project(s.metric, PodGrouping) == k;
      ProjectLabel(s.metric, PodGrouping, PodNamespace);
      assert Project(k, PodGrouping) == k;
    }
  }

  lemma NamespaceTotalsKeys(u: Vector, v: Vector, f: string)
    ensures forall k :: k in NamespaceTotals(u, v, f) ==> k == Project(k, PodGrouping)
    ensures f != All ==> forall k :: k in NamespaceTotals(u, v, f) ==> Label(k, PodNamespace) == f
  {
    var a := AndOnNode(PodSelector(u, Psys, f), NodePsys(v));
    var b := UnlessOnNode(PodSelector(u, Package, f), NodePsys(v));
    var x := PodSocVector(u, v, f);
    assert forall s :: s in x ==> s in a || s in PodSelector(u, Package, f);
    ByPodGroupKeys(x, f);
    ByPodGroupKeys(PodSelector(u, Dram, f), f);
  }

  /** As written, the label-less `vector(0)` group is always an element, and it
      carries no namespace; every other group carries only a namespace and a
      node, and under a namespace filter it is of that namespace. */
  lemma NamespaceTotalsAsWrittenKeys(u: Vector, v: Vector, f: string)
    ensures NoLabels in NamespaceTotalsAsWritten(u, v, f) && Label(NoLabels, PodNamespace) == ""
    ensures forall k :: k in NamespaceTotalsAsWritten(u, v, f) && k != NoLabels ==> k == Project(k, PodGrouping)
    ensures f != All ==> forall k :: k in NamespaceTotalsAsWritten(u, v, f) && k != NoLabels ==>
                                     Label(k, PodNamespace) == f
  {
    AddedOrZeroAt(PodSoc(u, v, f), PodDram(u, f), NoLabels);
    ByPodGroupKeys(PodSelector(u, Dram, f), f);
    forall k | k in NamespaceTotalsAsWritten(u, v, f) && k != NoLabels
      ensures k in PodDram(u, f)
    {
      AddedOrZeroAt(PodSoc(u, v, f), PodDram(u, f), k);
    }
  }

  /** The namespace filter lets the pod sample through. */
  predicate InScope(s: Sample, f: string)
  {
    f == All || Label(s.metric, PodNamespace) == f
  }

  /** The attribution rule for one pod sample: `psys` counts only on a node that
      reports node-level `psys`, `package` only on a node that does not, `dram`
      always; any other zone never. */
  predicate Counts(s: Sample, v: Vector)
  {
    || (ZoneOf(s) == Psys && NodeOf(s) in PsysNodes(v))
    || (ZoneOf(s) == Package && NodeOf(s) !in PsysNodes(v))
    || ZoneOf(s) == Dram
  }

  lemma ScopeAppend(u: Vector, s: Sample, f: string)
    ensures Scope(u + [s], f) == Scope(u, f) + (if InScope(s, f) then [s] else [])
  {
    if f != All {
      SelectAppend(u, [s], PodNamespace, f);
      assert [s][1..] == [];
    }
  }

  lemma GroupZoneSumOne(s: Sample, z: string, g: LabelSet)
    ensures GroupZoneSum([s], z, PodGrouping, g)
         == if ZoneOf(s) == z && Project(s.metric, PodGrouping) == g then s.value else 0.0
  {
    assert [s][1..] == [];
  }

  /** Adding one pod sample changes the reference power of exactly its own group,
      by its value when the attribution rule counts it and by nothing otherwise. */
  lemma PodAttribution(u: Vector, v: Vector, f: string, s: Sample, g: LabelSet)
    ensures GroupWatts(u + [s], v, f, g)
         == GroupWatts(u, v, f, g)
            + (if InScope(s, f) && Project(s.metric, PodGrouping) == g && Counts(s, v) then s.value else 0.0)
  {
    var w := Scope(u, f);
    var t := if InScope(s, f) then [s] else [];
    ScopeAppend(u, s, f);
    GroupZoneSumAppend(w, t, Psys, PodGrouping, g);
    GroupZoneSumAppend(w, t, Package, PodGrouping, g);
    GroupZoneSumAppend(w, t, Dram, PodGrouping, g);
    if InScope(s, f) {
      GroupZoneSumOne(s, Psys, g);
      GroupZoneSumOne(s, Package, g);
      GroupZoneSumOne(s, Dram, g);
      ProjectLabel(s.metric, PodGrouping, NodeName);
    }
  }

  /** What any answer `r` of the corrected `topk(10, ... > 0)` shows: at most ten
      distinct (namespace, node) groups, each with an attribution, of the filtered
      namespace, and shown with its reference power, which is positive; a group
      with positive power is left out only when ten groups at least as large are shown. */
  lemma TopNamespacesMeaning(u: Vector, v: Vector, f: string, r: seq<Sample>)
    requires IsTopK(Positive(NamespaceTotals(u, v, f)), 10, r)
    ensures |r| <= 10
    ensures forall i :: 0 <= i < |r| ==>
      && r[i].metric == Project(r[i].metric, PodGrouping)
      && (f != All ==> Label(r[i].metric, PodNamespace) == f)
      && GroupHasReading(u, v, f, r[i].metric)
      && r[i].value == GroupWatts(u, v, f, r[i].metric)
      && r[i].value > 0.0
    ensures forall i, j :: 0 <= i < j < |r| ==> r[i].metric != r[j].metric
    ensures forall g :: GroupHasReading(u, v, f, g) && GroupWatts(u, v, f, g) > 0.0 && g !in MetricsOf(r) ==>
      |r| == 10 && forall i :: 0 <= i < |r| ==> GroupWatts(u, v, f, g) <= r[i].value
  {
    var t := Positive(NamespaceTotals(u, v, f));
    NamespaceTotalsKeys(u, v, f);
    forall i | 0 <= i < |r|
      ensures GroupHasReading(u, v, f, r[i].metric) && r[i].value == GroupWatts(u, v, f, r[i].metric)
    {
      NamespaceTotalsAt(u, v, f, r[i].metric);
    }
    forall g | GroupHasReading(u, v, f, g) && GroupWatts(u, v, f, g) > 0.0 && g !in MetricsOf(r)
      ensures |r| == 10 && forall i :: 0 <= i < |r| ==> GroupWatts(u, v, f, g) <= r[i].value
    {
      NamespaceTotalsAt(u, v, f, g);
      TopKOmitted(t, 10, r, g);
    }
  }

  /** The table rows rendered from such an answer: the group's namespace and node
      (`unknown` when missing) and its reference power; under a filter on a
      non-empty namespace every row shows that namespace. */
  lemma TopNamespaceRowsMeaning(u: Vector, v: Vector, f: string, r: seq<Sample>)
    requires IsTopK(Positive(NamespaceTotals(u, v, f)), 10, r)
    ensures |Rows.NamespaceRows(Some(r))| <= 10
    ensures forall i :: 0 <= i < |r| ==>
      && Rows.NamespaceRows(Some(r))[i].watts == GroupWatts(u, v, f, r[i].metric)
      && Rows.NamespaceRows(Some(r))[i].watts > 0.0
      && (f != All && f != "" ==> Rows.NamespaceRows(Some(r))[i].namespace == f)
  {
    TopNamespacesMeaning(u, v, f, r);
  }

  /** A group with a SoC attribution but no `dram` attribution: the query as
      written has no element for it, the corrected one has, holding its SoC power. */
  lemma NamespaceWithoutDramKept(u: Vector, v: Vector, f: string, g: LabelSet)
    requires g != NoLabels
    requires GroupHasSoc(Scope(u, f), PsysNodes(v), PodGrouping, g) && !GroupHasDram(u, f, g)
    ensures g !in NamespaceTotalsAsWritten(u, v, f)
    ensures g in NamespaceTotals(u, v, f)
    ensures NamespaceTotals(u, v, f)[g] == GroupSoc(Scope(u, f), PsysNodes(v), PodGrouping, g)
  {
    NamespaceTotalsAt(u, v, f, g);
    AsWrittenKept(u, v, f, g);
    NoGroupNoSum(Scope(u, f), Dram, PodGrouping, g);
  }

  /** As written, a (namespace, node) group without a `dram` attribution is never
      listed, whatever its SoC power: no element of any top-10 answer is it. */
  lemma NamespaceWithoutDramDropped(u: Vector, v: Vector, f: string, g: LabelSet, r: seq<Sample>)
    requires IsTopK(Positive(NamespaceTotalsAsWritten(u, v, f)), 10, r)
    requires g != NoLabels && !GroupHasDram(u, f, g)
    ensures forall i :: 0 <= i < |r| ==> r[i].metric != g
  {
    AsWrittenKept(u, v, f, g);
  }
}
