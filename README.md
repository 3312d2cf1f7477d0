# Power monitoring dashboard: the data-shaping core

The power monitoring dashboard is a single React page. It shows Kepler's
RAPL power metrics: a cluster total, the top-5 nodes, the top-10 namespaces,
zone tables, charts and system-information cards. It builds PromQL queries
from four filters and reshapes the answers into table rows and chart lines.
This project models that data-shaping layer and proves what it computes.

- **Power-domain precedence.** Each node's SoC power comes from its `psys`
  reading when the node reports `psys`, and from `package` otherwise. `dram`
  is always added. The cluster total (`ClusterPower`), the per-node top-5
  (`TopNodes`) and the per-(namespace, node) top-10 (`TopNamespaces`) are
  written as PromQL set operations (`PromQL`). The cluster total is proved
  equal to a reference definition that reads the rule directly
  (`DomainResolver`, `GroupedPower`). The two top-N queries as written are
  not: they lose every group that lacks either a SoC or a `dram` part (see
  "## Findings"), and only the groups that survive hold their reference
  power. Their corrected forms are proved equal to the reference.
- **Zone views** (`ZonePower`): the three zone tables and the zone trend, under
  the zone filter.
- **Filters** (`Filters`): the four filter cells as a class whose setters
  change state. Choosing a namespace resets the pod. Each filter becomes a
  label-matcher fragment.
- **Select vocabularies** (`Vocabulary`): loops that fill a set seeded with
  `All`, then sort it.
- **RAPL info** (`Rapl`): a loop that builds a node → zones map, then sorted
  rows.
- **Rows and chart lines** (`Rows`, `Series`): result rows with `unknown`
  fallbacks, CPU-info rows sorted by instance, and chart lines with the
  ten-line cap.

Samples arrive already parsed: a label map and a `real` value (`Samples`).
An absent label reads as the empty string, as PromQL matchers see it. A
`topk` answer is any sequence that satisfies `IsTopK`, because Prometheus
fixes neither the order of an answer nor how ties are broken. The locale
collation behind `localeCompare` is a parameter `le`, required to be a total
preorder. The default `.sort()` is the code-unit order `CodeUnitLe`.

Three behaviours of the code that shape the model:

- An absent label and an empty one are treated alike: PromQL matchers and the
  `||` fallbacks both do so.
- Ties in the top-N cards are not broken in any fixed order: `topk` leaves
  them open.
- Values that do not parse as numbers are kept: each value is whatever
  `parseFloat` returns.

## Model

| member | source | states |
|---|---|---|
| ClusterPower.ClusterTotalIsResolved | src/components/PowerMonitoringDashboard.tsx:85-100 | The total query has exactly one, label-less element. Its value is the sum over nodes of `psys` (or `package` when the node has no `psys`) plus `dram`. |
| ClusterPower.GaugeShowsResolvedTotal | src/components/PowerMonitoringDashboard.tsx:138-140 | The gauge value read from any listing of the answer is that resolved total. |
| ClusterPower.EmptyClusterIsZero | src/components/PowerMonitoringDashboard.tsx:85-100 | With no readings, `or vector(0)` still gives a single element worth 0. |
| ClusterPower.PackageIgnoredOnPsysNode | src/components/PowerMonitoringDashboard.tsx:90-94 | Adding a `package` reading for a node that reports `psys` leaves the total unchanged. |
| ClusterPower.DramAlwaysAdded | src/components/PowerMonitoringDashboard.tsx:96-100 | Adding any `dram` reading raises the total by exactly its value. |
| ClusterPower.PsysSupersedesPackage | src/components/PowerMonitoringDashboard.tsx:85-94 | A node's first `psys` reading replaces all of its `package` readings in the total. |
| ClusterPower.TwoNodeScenario | src/components/PowerMonitoringDashboard.tsx:85-100 | Worked example: a `psys` node and a `package` node give one element of 95 W. |
| DomainResolver.WeightedSumIsResolvedTotal | src/components/PowerMonitoringDashboard.tsx:85-100 | Weighting each sample by the precedence rule and summing gives the same total as summing per node. No sample is counted twice. |
| DomainResolver.NodeWeightedSumIsResolved | src/components/PowerMonitoringDashboard.tsx:85-100 | One node's weighted samples sum to its SoC power plus its `dram`. |
| PromQL.SumByMeaning | src/components/PowerMonitoringDashboard.tsx:188-200 | `sum by` has one element per non-empty projection of the grouping labels, holding the total of the samples that project to it. |
| PromQL.TopKIsTopK | src/components/PowerMonitoringDashboard.tsx:184-210 | `topk` always has an answer: `min(k, n)` distinct elements with their values, none smaller than an element left out. |
| PromQL.TopKOmitted | src/components/PowerMonitoringDashboard.tsx:184-210 | An element left out of a `topk` answer means the answer is full and every shown value is at least the omitted one. |
| GroupedPower.SocGroups | src/components/PowerMonitoringDashboard.tsx:269-282 | Summing the SoC vector by a grouping that includes `node_name` gives each group the `psys` or `package` total its node's rail selects. |
| GroupedPower.DramGroups | src/components/PowerMonitoringDashboard.tsx:288-290 | Summing `dram` by a grouping gives each group its `dram` total. |
| GroupedPower.AddedOrZeroAt | src/components/PowerMonitoringDashboard.tsx:188-208 | `(a or vector(0)) + (b or vector(0))` keeps a labelled group only when both sides have it, adding the two values. |
| GroupedPower.AddedEitherAt | src/components/PowerMonitoringDashboard.tsx:188-208 | The corrected combination keeps every group that either side has. A missing side counts as 0. |
| TopNodes.NodeTotalsAsWrittenAt | src/components/PowerMonitoringDashboard.tsx:186-208 | As written, a node has an element only with both a SoC and a `dram` reading. The element holds the node's resolved power. |
| TopNodes.NodeTotalsAt | src/components/PowerMonitoringDashboard.tsx:186-208 | Corrected: every node with any reading has an element holding SoC (`psys`, else `package`) plus `dram`. |
| TopNodes.TopNodesMeaning | src/components/PowerMonitoringDashboard.tsx:184-210 | Corrected: at most 5 distinct nodes, each with its resolved power, which is positive. A positive node is left out only when 5 nodes at least as large are shown. |
| TopNodes.TopNodeRowsMeaning | src/components/PowerMonitoringDashboard.tsx:214-219 | Corrected: the card's rows show those nodes (`unknown` when unnamed) with their resolved, positive power, at most 5 of them. |
| TopNodes.NodeWithoutDramDropped | src/components/PowerMonitoringDashboard.tsx:184-210 | As written, a named node without a `dram` reading is in no top-5 answer, whatever its SoC power. |
| TopNodes.NodeWithoutDramKept | src/components/PowerMonitoringDashboard.tsx:184-210 | A named node with SoC but no `dram` is missing as written. Corrected, it is present with its SoC power. |
| TopNamespaces.PodAttribution | src/components/PowerMonitoringDashboard.tsx:270-290 | One more pod sample adds its value to its (namespace, node) group exactly when it passes the namespace filter and counts. It counts when it is `psys` on a `psys` node, `package` on a node without `psys`, or `dram`. Otherwise it adds nothing. |
| TopNamespaces.NamespaceTotalsAsWrittenAt | src/components/PowerMonitoringDashboard.tsx:265-293 | As written, a group has an element only with both a SoC and a `dram` attribution. |
| TopNamespaces.NamespaceTotalsAt | src/components/PowerMonitoringDashboard.tsx:265-293 | Corrected: every group with an attribution has an element holding its attributed SoC plus `dram` power. |
| TopNamespaces.NamespaceTotalsAsWrittenKeys | src/components/PowerMonitoringDashboard.tsx:263-293 | As written, the label-less `vector(0)` group is always an element and carries no namespace. Every other group is labelled by namespace and node only, and under a namespace filter it is in that namespace. |
| TopNamespaces.NamespaceTotalsKeys | src/components/PowerMonitoringDashboard.tsx:263-290 | Corrected: every group is labelled by namespace and node only. Under a namespace filter it is in that namespace. |
| TopNamespaces.TopNamespacesMeaning | src/components/PowerMonitoringDashboard.tsx:265-293 | Corrected: at most 10 distinct groups in the filtered namespace, each with its positive reference power. A positive group is left out only when 10 groups at least as large are shown. |
| TopNamespaces.TopNamespaceRowsMeaning | src/components/PowerMonitoringDashboard.tsx:297-303 | Corrected: the rows show each group's reference power, which is positive. Under a namespace filter every row shows that namespace. |
| TopNamespaces.NamespaceWithoutDramDropped | src/components/PowerMonitoringDashboard.tsx:265-293 | As written, a (namespace, node) group without a `dram` attribution is in no top-10 answer, whatever its SoC power. |
| TopNamespaces.NamespaceWithoutDramKept | src/components/PowerMonitoringDashboard.tsx:265-293 | A group with SoC but no `dram` attribution is missing as written. Corrected, it is present with its SoC power. |
| ZonePower.ZoneTableAt | src/components/PowerMonitoringDashboard.tsx:452-456 | One element per (zone, node) pair that has a reading and passes the zone filter. It holds the pair's full total, since the filter drops whole groups. |
| ZonePower.ZoneTrendAt | src/components/PowerMonitoringDashboard.tsx:527-529 | One trend element per zone that has a reading and passes the filter, holding the zone's total. |
| ZonePower.ZoneTableRowsMeaning | src/components/PowerMonitoringDashboard.tsx:470-476 | One row per table element with its total. Under a filter on a non-empty zone every row shows that zone. |
| Rows.NodeRows | src/components/PowerMonitoringDashboard.tsx:214-219 | No result gives no rows. Otherwise row `i` is element `i`'s node (`unknown` if absent or empty) and value. |
| Rows.NamespaceRows | src/components/PowerMonitoringDashboard.tsx:297-303 | Row `i` is element `i`'s namespace and node (each `unknown` if absent or empty) and value. |
| Rows.ZoneRows | src/components/PowerMonitoringDashboard.tsx:470-476 | Row `i` is element `i`'s zone and node (each `unknown` if absent or empty) and value. |
| Rows.CpuInfoRows | src/components/PowerMonitoringDashboard.tsx:711-724 | The CPU rows are a permutation of the mapped result, sorted by instance under the collation. |
| Ordering.SortBySorted | src/components/PowerMonitoringDashboard.tsx:724 | The sort used for `.sort(...)` yields a sorted sequence under any total preorder. |
| Ordering.SortedUnique | src/components/PowerMonitoringDashboard.tsx:911 | Two duplicate-free sequences sorted by code unit that hold the same strings are equal. So `Array.from(set).sort()` does not depend on insertion order. |
| Ordering.CodeUnitTotalOrder | src/components/PowerMonitoringDashboard.tsx:911 | The default sort's code-unit order is total, transitive and antisymmetric. |
| Filters.FragmentShape | src/components/PowerMonitoringDashboard.tsx:358-360 | `All` gives the empty fragment and nothing else does. Any other value gives `,label op "value"` with the value verbatim. |
| Filters.FragmentRoundTrip | src/components/PowerMonitoringDashboard.tsx:358-360 | The filter value is read back unchanged from its fragment. |
| Filters.FragmentInjective | src/components/PowerMonitoringDashboard.tsx:611-612 | Different filter values never give the same fragment. |
| Filters.FilterState.constructor | src/components/PowerMonitoringDashboard.tsx:871-874 | All four filters start at `All`. |
| Filters.FilterState.SetNamespace | src/components/PowerMonitoringDashboard.tsx:987-990 | Setting the namespace also sets the pod to `All`, leaving zone and node unchanged. A pod is then never chosen outside a namespace. |
| Filters.FilterState.SetPod | src/components/PowerMonitoringDashboard.tsx:1008 | Setting the pod changes only the pod. Done while a namespace is chosen, it keeps the pod scoped. |
| Filters.FilterState.SetZone | src/components/PowerMonitoringDashboard.tsx:969 | Setting the zone changes only the zone and keeps the pod scoped. |
| Filters.FilterState.SetNode | src/components/PowerMonitoringDashboard.tsx:1027 | Setting the node changes only the node and keeps the pod scoped. |
| Filters.ChooseNamespace | src/components/PowerMonitoringDashboard.tsx:987-990 | Choosing a namespace sets it and resets the pod to `All`, leaving zone and node unchanged. The pod chart's matchers are then the namespace and zone fragments only. |
| Vocabulary.Derive | src/components/PowerMonitoringDashboard.tsx:902-911 | No result gives `[All]`. Otherwise the output holds exactly `All` plus the non-empty label values, has no duplicates and is sorted. |
| Vocabulary.NoSamplesOfferAll | src/components/PowerMonitoringDashboard.tsx:902-911 | An empty result also offers only `All`. |
| Vocabulary.OfferedOrderFree | src/components/PowerMonitoringDashboard.tsx:902-911 | The offered list depends only on which samples occur, not on their order. |
| Vocabulary.Pods | src/components/PowerMonitoringDashboard.tsx:926-935 | Every offered pod other than `All` has a sample in the chosen namespace. |
| Rapl.CollectZones | src/components/PowerMonitoringDashboard.tsx:798-810 | The loop's map has one key per node with both labels. Each key holds that node's distinct zones. |
| Rapl.RaplInfo | src/components/PowerMonitoringDashboard.tsx:790-818 | One row per node with both labels, no node twice, rows sorted by node. Each row's zones are the node's distinct zones, sorted and joined by `", "`. No response gives no rows. |
| Rapl.RaplNodesMeaning | src/components/PowerMonitoringDashboard.tsx:801-810 | A node gets a row exactly when some sample names it together with a non-empty zone. |
| Rapl.ZonesOfMeaning | src/components/PowerMonitoringDashboard.tsx:801-810 | A node's zones are exactly the zones that some sample pairs with it. |
| Series.PodChartMeaning | src/components/PowerMonitoringDashboard.tsx:370-386 | There are `min(10, n)` pod lines. Line `i` is built from series `i`, named `zone - pod`, with its points one for one. |
| Series.PodChartPrefix | src/components/PowerMonitoringDashboard.tsx:386 | Series after the tenth never change the pod chart. |
| Series.SameNamesKept | src/components/PowerMonitoringDashboard.tsx:374-386 | Two series with the same labels give two lines with the same name, not one. |
| Series.PointsRoundTrip | src/components/PowerMonitoringDashboard.tsx:543-546 | Each point gives back its sample: `x / 1000` is the time and `y` the value, in order. |
| Series.Lines | src/components/PowerMonitoringDashboard.tsx:539-548 | One line per series, in order, named from its labels. |
| Series.NodeLineNameMeaning | src/components/PowerMonitoringDashboard.tsx:636-641 | A node line is named `zone - ` followed by its instance, else its node name, else `unknown`. |
| Series.NodeChartMeaning | src/components/PowerMonitoringDashboard.tsx:674-692 | The node chart keeps every series and draws only the first ten. |

## Left out

- Everything rendered: cards, tables, charts, the gauge donut, the toolbar,
  and the loading, error and empty-data alerts.
- `usePrometheusPoll`, polling and re-rendering. These are network I/O and
  React scheduling. Each query answer is a parameter: `None` when there is no
  data, otherwise the list of samples or series.
- Evaluating PromQL in general. Only the operations the queries use are
  modelled: selectors, `sum`, `sum by`, `or`, `or vector(0)`, `and on` and
  `unless on(node_name)`, one-to-one `+`, `> 0` and `topk`.
- The `job="power-monitor"` matcher. Inputs are taken as already restricted to
  that job.
- The active and idle variants of the cluster total and the zone table. They
  have the same shape over other metrics, and the model's functions take any
  metric's samples.
- The `count by (instance, model_name)` query behind the CPU card. Its rows
  take the count as returned.
- The regular-expression matchers `pod_name=~` and `instance=~`. Their
  fragments are modelled, but matching is not evaluated: the pod and node
  chart answers are parameters.
- Filter values are spliced into queries without escaping. The effect of a
  value containing `"` on the query is not evaluated.
- `parseFloat`, `parseInt`, `toFixed` and the `W` suffix. Values arrive as
  reals. Rows.CpuInfoRows takes the floor of the count, which matches
  `parseInt` for the non-negative counts a `count` returns.
- `Date` conversion and axis tick formatting. A chart point keeps `x` as
  milliseconds.
- The range query's window (`endTime`, `timespan`, `samples`).
- Rows.CpuInfoRows: locale collation is a caller-supplied total preorder. The
  result is stated as sorted and a permutation; the tie order is not fixed.
  The same applies to Rapl.RaplInfo.
- The default `.sort()` compares UTF-16 code units. Dafny characters compare
  by code point, which differs only for characters beyond U+FFFF.
- The order of a `topk` answer and its tie-breaking are not defined by
  Prometheus. TopNodes.TopNodesMeaning and TopNamespaces.TopNamespacesMeaning
  hold for every answer allowed by `IsTopK`.
- Filters.FilterState.SetPod: the pod select is disabled while the namespace
  is `All`. This is a precondition of the scoping guarantee, not a check the
  setter makes.

## Findings

| source | as written | input that shows it | evidently intended | confidence | as-written member | corrected member |
|---|---|---|---|---|---|---|
| src/components/PowerMonitoringDashboard.tsx:184-210 | `(sum by (node_name)(soc) or vector(0)) + (sum by (node_name)(dram) or vector(0))`: `or vector(0)` only adds a label-less element, so `+` drops every node that lacks either a SoC or a `dram` series | one node `n1` with a `psys` reading of 50 W and no `dram` reading: the top-5 is empty | each node shows SoC plus `dram`, a missing part counting as 0 (`(soc + dram) or soc or dram`) | high; not executed | TopNodes.NodeWithoutDramDropped | TopNodes.NodeTotalsAt |
| src/components/PowerMonitoringDashboard.tsx:265-293 | the same `... or vector(0)) + (... or vector(0))` shape per (namespace, node) group drops every group that lacks either a SoC or a `dram` attribution | one pod of `ns1` on node `n1` with only a `package` attribution of 20 W: the top-10 is empty | each group shows its SoC plus `dram` attribution, a missing part counting as 0 | high; not executed | TopNamespaces.NamespaceWithoutDramDropped | TopNamespaces.NamespaceTotalsAt |
