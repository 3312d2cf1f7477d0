/** The sample model: what the metrics backend hands back to the dashboard.
    A label set maps label names to values; an instant-vector sample carries one
    already-parsed reading, a range series an ordered list of points. */
module Samples {

  datatype Option<+T> = None | Some(value: T)

  type LabelSet = map<string, string>

  /** The empty label set `{}`, as carried by the result of a plain `sum(...)`. */
  const NoLabels: LabelSet := map[]

  /** One element of an instant-query result: `{metric, value: [t, v]}`. */
  datatype Sample = Sample(metric: LabelSet, value: real)

  /** One `[t, v]` pair of a range-query result, `t` in seconds. */
  datatype Point = Point(time: real, value: real)

  /** One element of a range-query result: `{metric, values}`. */
  datatype RangeSeries = RangeSeries(metric: LabelSet, values: seq<Point>)

  const All: string := "All"
  const Unknown: string := "unknown"

  const NodeName: string := "node_name"
  const Zone: string := "zone"
  const PodNamespace: string := "pod_namespace"
  const PodName: string := "pod_name"
  const Instance: string := "instance"
  const ModelName: string := "model_name"

  const Psys: string := "psys"
  const Package: string := "package"
  const Dram: string := "dram"

  /** The value a label matcher sees: an absent label reads as the empty string. */
  function Label(m: LabelSet, k: string): string
  {
    if k in m then m[k] else ""
  }

  /** `metric.k || fallback`: both an absent label and an empty value take the fallback. */
  function LabelOr(m: LabelSet, k: string, fallback: string): (r: string)
    ensures r == fallback || (k in m && r == m[k] && r != "")
    ensures k in m && m[k] != "" ==> r == m[k]
    ensures fallback != "" ==> r != ""
  {
    if Label(m, k) != "" then m[k] else fallback
  }

  /** The sum of the readings of a list of samples (0 for no samples). */
  function SumValues(v: seq<Sample>): real
  {
    if v == [] then 0.0 else v[0].value + SumValues(v[1..])
  }

  lemma {:induction false} SumValuesAppend(a: seq<Sample>, b: seq<Sample>)
    ensures SumValues(a + b) == SumValues(a) + SumValues(b)
  {
    if a != [] {
      assert (a + b)[1..] == a[1..] + b;
      SumValuesAppend(a[1..], b);
    } else {
      assert a + b == b;
    }
  }

  function Min(a: int, b: int): int
  {
    if a <= b then a else b
  }
}
