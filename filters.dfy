/** The dashboard's four filters and the label-matcher fragments they splice
    into the queries. */
module Filters {
  import opened Samples

  /** A matcher fragment `,key<op>"value"`, or nothing for `All`. The value is
      spliced verbatim: no quoting or escaping is applied. */
  function Fragment(key: string, op: string, f: string): string
  {
    if f == All then "" else "," + key + op + "\"" + f + "\""
  }

  /** The text a fragment starts with, before the value. */
  function Prefix(key: string, op: string): string
  {
    "," + key + op + "\""
  }

  /** Reads the filter back from a fragment: the inverse of `Fragment`. */
  function Unfragment(key: string, op: string, fragment: string): string
  {
    var p := Prefix(key, op);
    if |fragment| < |p| + 1 then All else fragment[|p|..|fragment| - 1]
  }

  /** `,pod_namespace="v"`: an equality matcher. */
  function NamespaceFragment(f: string): string
  {
    Fragment(PodNamespace, "=", f)
  }

  /** `,zone="v"`: an equality matcher. */
  function ZoneFragment(f: string): string
  {
    Fragment(Zone, "=", f)
  }

  /** `,pod_name=~"v"`: a regular-expression matcher. */
  function PodFragment(f: string): string
  {
    Fragment(PodName, "=~", f)
  }

  /** `,instance=~"v"`: a regular-expression matcher. */
  function NodeFragment(f: string): string
  {
    Fragment(Instance, "=~", f)
  }

  /** `All` adds no matcher; any other value yields the key, the operator and
      the value quoted verbatim. */
  lemma FragmentShape(key: string, op: string, f: string)
    ensures f == All <==> Fragment(key, op, f) == ""
    ensures f != All ==> Fragment(key, op, f) == Prefix(key, op) + f + "\""
    ensures f != All ==> |Fragment(key, op, f)| == |key| + |op| + |f| + 3
  {
  }

  /** Every filter value, `All` included, is read back unchanged from its fragment. */
  lemma FragmentRoundTrip(key: string, op: string, f: string)
    ensures Unfragment(key, op, Fragment(key, op, f)) == f
  {
    if f != All {
      var p := Prefix(key, op);
      var fr := Fragment(key, op, f);
      assert fr == p + f + "\"";
      assert fr[|p|..|fr| - 1] == f;
    }
  }

  /** So two different filter values never give the same query. */
  lemma FragmentInjective(key: string, op: string, f: string, g: string)
    requires Fragment(key, op, f) == Fragment(key, op, g)
    ensures f == g
  {
    FragmentRoundTrip(key, op, f);
    FragmentRoundTrip(key, op, g);
  }

  /** The four filters, the state cells of the dashboard (each starting at `All`). */
  class FilterState {
    var zone: string
    var namespace: string
    var pod: string
    var node: string

    /** A pod is only ever chosen inside a chosen namespace, as the pod select is
        disabled while the namespace filter is `All`. */
    predicate PodScoped()
      reads this
    {
      pod == All || namespace != All
    }

    constructor()
      ensures zone == All && namespace == All && pod == All && node == All
      ensures PodScoped()
    {
      zone := All;
      namespace := All;
      pod := All;
      node := All;
    }

    method SetZone(z: string)
      modifies this
      ensures zone == z
      ensures namespace == old(namespace) && pod == old(pod) && node == old(node)
      ensures old(PodScoped()) ==> PodScoped()
    {
      zone := z;
    }

    /** Choosing a namespace also sends the pod filter back to `All`. */
    method SetNamespace(ns: string)
      modifies this
      ensures namespace == ns && pod == All
      ensures zone == old(zone) && node == old(node)
      ensures PodScoped()
      ensures PodFragment(pod) == ""
    {
      namespace := ns;
      pod := All;
    }

    method SetPod(p: string)
      modifies this
      ensures pod == p
      ensures zone == old(zone) && namespace == old(namespace) && node == old(node)
      ensures old(namespace) != All ==> PodScoped()
    {
      pod := p;
    }

    method SetNode(n: string)
      modifies this
      ensures node == n
      ensures zone == old(zone) && namespace == old(namespace) && pod == old(pod)
      ensures old(PodScoped()) ==> PodScoped()
    {
      node := n;
    }

    /** The matchers of the pod chart's query, in the order they are spliced. */
    function PodChartMatchers(): string
      reads this
    {
      NamespaceFragment(namespace) + PodFragment(pod) + ZoneFragment(zone)
    }
  }

  /** Right after a namespace is chosen the pod chart is filtered by that
      namespace and zone alone. */
  method ChooseNamespace(st: FilterState, ns: string) returns (matchers: string)
    modifies st
    ensures st.namespace == ns && st.pod == All
    ensures st.zone == old(st.zone) && st.node == old(st.node)
    ensures matchers == NamespaceFragment(ns) + ZoneFragment(old(st.zone))
    ensures matchers == st.PodChartMatchers()
  {
    st.SetNamespace(ns);
    matchers := st.PodChartMatchers();
  }
}
