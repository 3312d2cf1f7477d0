/** The choices offered by the four filter selects: `All` and every non-empty
    value of one label in a query result, without duplicates and in the default
    sort order. */
module Vocabulary {
  import opened Samples
  import opened Ordering
  import PromQL

  /** The values a select offers for label `key` of the samples `v`. */
  ghost function Offered(v: seq<Sample>, key: string): set<string>
  {
    {All} + set s | s in v && Label(s.metric, key) != "" :: Label(s.metric, key)
  }

  /** Seeds a set with `All`, adds each sample's non-empty `key` value, and sorts
      the set's elements. With no result only `All` is offered. */
  method Derive(result: Option<seq<Sample>>, key: string) returns (values: seq<string>)
    ensures result.None? ==> values == [All]
    ensures result.Some? ==> values == SortedElements(Offered(result.value, key))
    ensures result.Some? ==> forall x :: x in values <==>
      x == All || exists s :: s in result.value && Label(s.metric, key) == x && x != ""
    ensures All in values
    ensures SortedBy(values, CodeUnitLe) && Distinct(values)
  {
    if result.None? {
      values := [All];
      return;
    }
    var v := result.value;
    var unique := [All];
    var i := 0;
    while i < |v|
      invariant 0 <= i <= |v|
      invariant Distinct(unique)
      invariant forall x :: x in unique <==> x in Offered(v[..i], key)
    {
      assert v[..i + 1] == v[..i] + [v[i]];
      var x := Label(v[i].metric, key);
      if x != "" && x !in unique {
        unique := unique + [x];
      }
      i := i + 1;
    }
    assert v[..i] == v;
    CodeUnitTotalOrder();
    values := SortBy(unique, CodeUnitLe);
    SortBySorted(unique, CodeUnitLe);
    SortByDistinct(unique, CodeUnitLe);
    assert forall x :: x in values <==> x in multiset(unique);
    SortedUnique(values, SortedElements(Offered(v, key)));
  }

  /** An empty result offers only `All`, as no result does. */
  lemma NoSamplesOfferAll(key: string)
    ensures SortedElements(Offered([], key)) == [All]
  {
    assert Offered([], key) == {All};
    SortedUnique(SortedElements(Offered([], key)), [All]);
  }

  /** The offered list depends only on which values occur, not on the order or
      multiplicity of the samples. */
  lemma OfferedOrderFree(v: seq<Sample>, w: seq<Sample>, key: string)
    requires forall s :: s in v <==> s in w
    ensures SortedElements(Offered(v, key)) == SortedElements(Offered(w, key))
  {
    assert Offered(v, key) == Offered(w, key);
  }

  /** The zone select: zones of the node power samples. */
  method Zones(nodeWatts: Option<seq<Sample>>) returns (zones: seq<string>)
    ensures nodeWatts.None? ==> zones == [All]
    ensures nodeWatts.Some? ==> zones == SortedElements(Offered(nodeWatts.value, Zone))
  {
    zones := Derive(nodeWatts, Zone);
  }

  /** The namespace select: namespaces of the pod power samples. */
  method Namespaces(podWatts: Option<seq<Sample>>) returns (namespaces: seq<string>)
    ensures podWatts.None? ==> namespaces == [All]
    ensures podWatts.Some? ==> namespaces == SortedElements(Offered(podWatts.value, PodNamespace))
  {
    namespaces := Derive(podWatts, PodNamespace);
  }

  /** The pod select: pods of the pod power samples of the chosen namespace
      (`pod_namespace="..."` unless the namespace filter is `All`). */
  method Pods(podWatts: Option<seq<Sample>>, namespace: string) returns (pods: seq<string>)
    ensures podWatts.None? ==> pods == [All]
    ensures podWatts.Some? ==>
      pods == SortedElements(Offered(PromQL.Filtered(podWatts.value, PodNamespace, namespace), PodName))
    ensures podWatts.Some? ==> forall x :: x in pods && x != All ==>
      exists s :: s in podWatts.value && Label(s.metric, PodName) == x &&
        (namespace == All || Label(s.metric, PodNamespace) == namespace)
  {
    if podWatts.None? {
      pods := Derive(None, PodName);
    } else {
      var scoped := PromQL.Filtered(podWatts.value, PodNamespace, namespace);
      pods := Derive(Some(scoped), PodName);
      forall x | x in pods && x != All
        ensures exists s :: s in podWatts.value && Label(s.metric, PodName) == x &&
                            (namespace == All || Label(s.metric, PodNamespace) == namespace)
      {
        var s :| s in scoped && Label(s.metric, PodName) == x && x != "";
      }
    }
  }

  /** The node select: instances of the CPU-info samples. */
  method Nodes(cpuInfo: Option<seq<Sample>>) returns (nodes: seq<string>)
    ensures cpuInfo.None? ==> nodes == [All]
    ensures cpuInfo.Some? ==> nodes == SortedElements(Offered(cpuInfo.value, Instance))
  {
    nodes := Derive(cpuInfo, Instance);
  }
}
