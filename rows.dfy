/** Turning query results into table rows. Every label read goes through the
    `|| 'unknown'` fallback; parsing the value strings is not modelled, the values
    arrive as numbers. */
module Rows {
  import opened Samples
  import Ordering

  /** `result?.[0]?.value ? parseFloat(result[0].value[1]) : 0`: the gauge value. */
  function ScalarOrZero(result: Option<seq<Sample>>): real
  {
    if result.Some? && |result.value| > 0 then result.value[0].value else 0.0
  }

  datatype NodeRow = NodeRow(node: string, watts: real)

  /** The Top-5 node rows: `{node: node_name || 'unknown', watts}` per element. */
  function NodeRows(result: Option<seq<Sample>>): (rows: seq<NodeRow>)
    ensures result.None? ==> rows == []
    ensures result.Some? ==> |rows| == |result.value|
    ensures result.Some? ==> forall i :: 0 <= i < |rows| ==>
      && (Label(result.value[i].metric, NodeName) != "" ==> rows[i].node == result.value[i].metric[NodeName])
      && (Label(result.value[i].metric, NodeName) == "" ==> rows[i].node == Unknown)
      && rows[i].watts == result.value[i].value
  {
    if result.None? then []
    else
      seq(|result.value|, i requires 0 <= i < |result.value| =>
        NodeRow(LabelOr(result.value[i].metric, NodeName, Unknown), result.value[i].value))
  }

  datatype NamespaceRow = NamespaceRow(namespace: string, node: string, watts: real)

  /** The Top-10 namespace rows: `{namespace, node, watts}` per element. */
  function NamespaceRows(result: Option<seq<Sample>>): (rows: seq<NamespaceRow>)
    ensures result.None? ==> rows == []
    ensures result.Some? ==> |rows| == |result.value|
    ensures result.Some? ==> forall i :: 0 <= i < |rows| ==>
      && (Label(result.value[i].metric, PodNamespace) != "" ==> rows[i].namespace == result.value[i].metric[PodNamespace])
      && (Label(result.value[i].metric, PodNamespace) == "" ==> rows[i].namespace == Unknown)
      && (Label(result.value[i].metric, NodeName) != "" ==> rows[i].node == result.value[i].metric[NodeName])
      && (Label(result.value[i].metric, NodeName) == "" ==> rows[i].node == Unknown)
      && rows[i].watts == result.value[i].value
  {
    if result.None? then []
    else
      seq(|result.value|, i requires 0 <= i < |result.value| =>
        NamespaceRow(LabelOr(result.value[i].metric, PodNamespace, Unknown),
                     LabelOr(result.value[i].metric, NodeName, Unknown),
                     result.value[i].value))
  }

  datatype ZoneRow = ZoneRow(zone: string, node: string, watts: real)

  /** The by-zone table rows: `{zone, node, watts}` per element, none dropped. */
  function ZoneRows(result: Option<seq<Sample>>): (rows: seq<ZoneRow>)
    ensures result.None? ==> rows == []
    ensures result.Some? ==> |rows| == |result.value|
    ensures result.Some? ==> forall i :: 0 <= i < |rows| ==>
      && (Label(result.value[i].metric, Zone) != "" ==> rows[i].zone == result.value[i].metric[Zone])
      && (Label(result.value[i].metric, Zone) == "" ==> rows[i].zone == Unknown)
      && (Label(result.value[i].metric, NodeName) != "" ==> rows[i].node == result.value[i].metric[NodeName])
      && (Label(result.value[i].metric, NodeName) == "" ==> rows[i].node == Unknown)
      && rows[i].watts == result.value[i].value
  {
    if result.None? then []
    else
      seq(|result.value|, i requires 0 <= i < |result.value| =>
        ZoneRow(LabelOr(result.value[i].metric, Zone, Unknown),
                LabelOr(result.value[i].metric, NodeName, Unknown),
                result.value[i].value))
  }

  datatype CpuRow = CpuRow(instance: string, model: string, cores: int)

  function CpuRowOf(s: Sample): CpuRow
  {
    CpuRow(LabelOr(s.metric, Instance, Unknown), LabelOr(s.metric, ModelName, Unknown), s.value.Floor)
  }

  function InstanceOf(r: CpuRow): string
  {
    r.instance
  }

  /** The CPU-info rows, sorted by instance under the collation `le`. */
  function CpuInfoRows(result: Option<seq<Sample>>, le: (string, string) -> bool): (rows: seq<CpuRow>)
    requires Ordering.TotalPreorder(le)
    ensures result.None? ==> rows == []
    ensures result.Some? ==> multiset(rows) == multiset(seq(|result.value|, i requires 0 <= i < |result.value| => CpuRowOf(result.value[i])))
    ensures Ordering.SortedBy(rows, Ordering.On(le, InstanceOf))
  {
    if result.None? then []
    else
      var mapped := seq(|result.value|, i requires 0 <= i < |result.value| => CpuRowOf(result.value[i]));
      Ordering.OnTotalPreorder(le, InstanceOf);
      Ordering.SortBySorted(mapped, Ordering.On(le, InstanceOf));
      Ordering.SortBy(mapped, Ordering.On(le, InstanceOf))
  }
}
