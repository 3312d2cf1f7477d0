/** The "RAPL Info" card: which RAPL zones each node reports, read off the node
    power samples. */
module Rapl {
  import opened Samples
  import opened Ordering

  /** One table row: a node and its zones as one comma-separated string. */
  datatype RaplRow = RaplRow(node: string, zones: string)

  function NodeOfRow(r: RaplRow): string
  {
    r.node
  }

  /** `parts.join(sep)`. */
  function Join(parts: seq<string>, sep: string): string
  {
    if |parts| == 0 then ""
    else if |parts| == 1 then parts[0]
    else parts[0] + sep + Join(parts[1..], sep)
  }

  /** A sample takes part only when both its `node_name` and its `zone` are non-empty. */
  predicate HasNodeAndZone(s: Sample)
  {
    Label(s.metric, NodeName) != "" && Label(s.metric, Zone) != ""
  }

  /** The nodes that get a row, sample by sample. */
  ghost function RaplNodes(v: seq<Sample>): set<string>
  {
    if v == [] then {}
    else
      var s := v[|v| - 1];
      RaplNodes(v[..|v| - 1]) + (if HasNodeAndZone(s) then {Label(s.metric, NodeName)} else {})
  }

  /** The zones listed for node `n`, sample by sample. */
  ghost function ZonesOf(v: seq<Sample>, n: string): set<string>
  {
    if v == [] then {}
    else
      var s := v[|v| - 1];
      ZonesOf(v[..|v| - 1], n)
        + (if HasNodeAndZone(s) && Label(s.metric, NodeName) == n then {Label(s.metric, Zone)} else {})
  }

  /** A node gets a row exactly when some sample names it together with a zone. */
  lemma {:induction false} RaplNodesMeaning(v: seq<Sample>, n: string)
    ensures n in RaplNodes(v) <==> exists s :: s in v && HasNodeAndZone(s) && Label(s.metric, NodeName) == n
  {
    if v != [] {
      var w := v[..|v| - 1];
      RaplNodesMeaning(w, n);
      assert v == w + [v[|v| - 1]];
      assert forall t :: t in v <==> t in w || t == v[|v| - 1];
    }
  }

  /** A node's zones are exactly those some sample pairs with it. */
  lemma {:induction false} ZonesOfMeaning(v: seq<Sample>, n: string, z: string)
    ensures z in ZonesOf(v, n) <==>
      exists s :: s in v && HasNodeAndZone(s) && Label(s.metric, NodeName) == n && Label(s.metric, Zone) == z
  {
    if v != [] {
      var w := v[..|v| - 1];
      ZonesOfMeaning(w, n, z);
      assert v == w + [v[|v| - 1]];
      assert forall t :: t in v <==> t in w || t == v[|v| - 1];
    }
  }

  /** The zone text of node `n`'s row: its distinct zones, sorted, joined by `", "`. */
  ghost function ZoneText(v: seq<Sample>, n: string): string
  {
    Join(SortedElements(ZonesOf(v, n)), ", ")
  }

  /** What one more sample adds: its node and, for that node, its zone, if it
      has both labels. */
  lemma RaplNodesAppend(v: seq<Sample>, s: Sample)
    ensures RaplNodes(v + [s]) == RaplNodes(v) + (if HasNodeAndZone(s) then {Label(s.metric, NodeName)} else {})
    ensures forall n :: ZonesOf(v + [s], n) ==
                        ZonesOf(v, n) + (if HasNodeAndZone(s) && Label(s.metric, NodeName) == n then {Label(s.metric, Zone)} else {})
  {
    assert (v + [s])[..|v|] == v;
  }

  /** Each listed node's zone sequence holds its zones, each once. */
  ghost predicate ZonesMatch(zones: map<string, seq<string>>, v: seq<Sample>)
  {
    forall n :: n in zones ==> Distinct(zones[n]) && forall z :: z in zones[n] <==> z in ZonesOf(v, n)
  }

  /** Adding one sample's zone to its node's sequence keeps the sequences matched. */
  lemma ZonesStep(w: seq<Sample>, s: Sample, zones0: map<string, seq<string>>, zones: map<string, seq<string>>)
    requires ZonesMatch(zones0, w)
    requires forall n :: n in zones0 <==> n in RaplNodes(w)
    requires !HasNodeAndZone(s) ==> zones == zones0
    requires HasNodeAndZone(s) ==>
      var n := Label(s.metric, NodeName);
      && n in zones && zones == zones0[n := zones[n]] && Distinct(zones[n])
      && forall x :: x in zones[n] <==> (n in zones0 && x in zones0[n]) || x == Label(s.metric, Zone)
    ensures ZonesMatch(zones, w + [s])
  {
    RaplNodesAppend(w, s);
    forall m | m in zones
      ensures Distinct(zones[m]) && forall z :: z in zones[m] <==> z in ZonesOf(w + [s], m)
    {
      if HasNodeAndZone(s) && m == Label(s.metric, NodeName) {
        assert forall z :: z in ZonesOf(w + [s], m) <==> z in ZonesOf(w, m) || z == Label(s.metric, Zone);
        if m !in zones0 {
          assert ZonesOf(w, m) == {} by {
            if ZonesOf(w, m) != {} {
              var z :| z in ZonesOf(w, m);
              ZonesOfMeaning(w, m, z);
              var t :| t in w && HasNodeAndZone(t) && Label(t.metric, NodeName) == m && Label(t.metric, Zone) == z;
              RaplNodesMeaning(w, m);
            }
          }
        }
      } else {
        assert zones[m] == zones0[m];
      }
    }
  }

  /** The `forEach` pass: builds the node to zones map, its keys `order` and each
      node's zone set kept in insertion order. */
  method CollectZones(v: seq<Sample>) returns (order: seq<string>, zones: map<string, seq<string>>)
    ensures Distinct(order)
    ensures forall n :: n in zones <==> n in order
    ensures forall n :: n in order <==> n in RaplNodes(v)
    ensures forall n :: n in zones ==> Distinct(zones[n])
    ensures forall n, z :: n in zones ==> (z in zones[n] <==> z in ZonesOf(v, n))
  {
    order := [];
    zones := map[];
    var i := 0;
    while i < |v|
      invariant 0 <= i <= |v|
      invariant Distinct(order)
      invariant forall n :: n in zones <==> n in order
      invariant forall n :: n in order <==> n in RaplNodes(v[..i])
      invariant ZonesMatch(zones, v[..i])
    {
      assert v[..i + 1] == v[..i] + [v[i]];
      RaplNodesAppend(v[..i], v[i]);
      ghost var zones0 := zones;
      var n := Label(v[i].metric, NodeName);
      var z := Label(v[i].metric, Zone);
      if n != "" && z != "" {
        if n !in zones {
          order := order + [n];
          zones := zones[n := []];
        }
        if z !in zones[n] {
          zones := zones[n := zones[n] + [z]];
        }
      }
      ZonesStep(v[..i], v[i], zones0, zones);
      i := i + 1;
    }
    assert v[..i] == v;
  }

  /** The map's entries as rows, in the map's order. */
  function Entries(order: seq<string>, zones: map<string, seq<string>>): (rows: seq<RaplRow>)
    requires forall n :: n in order ==> n in zones
    ensures |rows| == |order|
    ensures forall k :: 0 <= k < |order| ==> rows[k].node == order[k]
  {
    seq(|order|, k requires 0 <= k < |order| => RaplRow(order[k], Join(SortBy(zones[order[k]], CodeUnitLe), ", ")))
  }

  /** Builds the node to zones map in one pass over the samples, turns each entry
      into a row, and sorts the rows by node under the collation `le`. */
  method RaplInfo(response: Option<seq<Sample>>, le: (string, string) -> bool) returns (rows: seq<RaplRow>)
    requires TotalPreorder(le)
    ensures response.None? ==> rows == []
    ensures response.Some? ==> forall n :: n in RaplNodes(response.value) <==>
      exists i :: 0 <= i < |rows| && rows[i].node == n
    ensures response.Some? ==> forall i :: 0 <= i < |rows| ==>
      rows[i].zones == ZoneText(response.value, rows[i].node)
    ensures forall i, j :: 0 <= i < j < |rows| ==> rows[i].node != rows[j].node
    ensures SortedBy(rows, On(le, NodeOfRow))
  {
    if response.None? {
      return [];
    }
    var v := response.value;
    var order, zones := CollectZones(v);
    var entries := Entries(order, zones);
    OnTotalPreorder(le, NodeOfRow);
    rows := SortBy(entries, On(le, NodeOfRow));
    SortBySorted(entries, On(le, NodeOfRow));
    SortByDistinct(entries, On(le, NodeOfRow));
    SortedRowsMeaning(v, order, zones, rows);
  }

  /** Any reordering of the entries has one row per node with a zone, each
      carrying that node's zone text. */
  lemma SortedRowsMeaning(v: seq<Sample>, order: seq<string>, zones: map<string, seq<string>>, rows: seq<RaplRow>)
    requires Distinct(order)
    requires forall n :: n in zones <==> n in order
    requires forall n :: n in order <==> n in RaplNodes(v)
    requires forall n :: n in zones ==> Distinct(zones[n])
    requires forall n, z :: n in zones ==> (z in zones[n] <==> z in ZonesOf(v, n))
    requires multiset(rows) == multiset(Entries(order, zones))
    requires Distinct(rows)
    ensures forall n :: n in RaplNodes(v) <==> exists i :: 0 <= i < |rows| && rows[i].node == n
    ensures forall i :: 0 <= i < |rows| ==> rows[i].zones == ZoneText(v, rows[i].node)
    ensures forall i, j :: 0 <= i < j < |rows| ==> rows[i].node != rows[j].node
  {
    var entries := Entries(order, zones);
    forall k | 0 <= k < |entries| ensures entries[k].zones == ZoneText(v, entries[k].node) {
      EntryZones(v, zones[order[k]], order[k]);
    }
    RowsFromEntries(entries, rows);
    forall n | n in RaplNodes(v) ensures exists k :: 0 <= k < |rows| && rows[k].node == n {
      var k :| 0 <= k < |order| && order[k] == n;
      assert entries[k].node == n;
    }
    RowsDistinctNodes(order, entries, rows);
  }

  /** A reordering keeps every row and adds none. */
  lemma RowsFromEntries(entries: seq<RaplRow>, rows: seq<RaplRow>)
    requires multiset(rows) == multiset(entries)
    ensures forall k :: 0 <= k < |rows| ==> rows[k] in entries
    ensures forall k :: 0 <= k < |entries| ==> exists j :: 0 <= j < |rows| && rows[j] == entries[k]
  {
    forall k | 0 <= k < |rows| ensures rows[k] in entries {
      assert rows[k] in multiset(entries);
    }
    forall k | 0 <= k < |entries| ensures exists j :: 0 <= j < |rows| && rows[j] == entries[k] {
      assert entries[k] in multiset(rows);
    }
  }

  lemma RowsDistinctNodes(order: seq<string>, entries: seq<RaplRow>, rows: seq<RaplRow>)
    requires Distinct(order) && |entries| == |order|
    requires forall k :: 0 <= k < |entries| ==> entries[k].node == order[k]
    requires forall k :: 0 <= k < |rows| ==> rows[k] in entries
    requires Distinct(rows)
    ensures forall i, j :: 0 <= i < j < |rows| ==> rows[i].node != rows[j].node
  {
    forall j, k | 0 <= j < k < |rows| ensures rows[j].node != rows[k].node {
      var a :| 0 <= a < |entries| && entries[a] == rows[j];
      var b :| 0 <= b < |entries| && entries[b] == rows[k];
      assert a != b;
    }
  }

  /** A node's zone sequence, sorted, gives the node's zone text. */
  lemma EntryZones(v: seq<Sample>, zs: seq<string>, n: string)
    requires Distinct(zs) && forall z :: z in zs <==> z in ZonesOf(v, n)
    ensures Join(SortBy(zs, CodeUnitLe), ", ") == ZoneText(v, n)
  {
    CodeUnitTotalOrder();
    SortBySorted(zs, CodeUnitLe);
    SortByDistinct(zs, CodeUnitLe);
    var sorted := SortBy(zs, CodeUnitLe);
    assert forall z :: z in sorted <==> z in multiset(zs);
    SortedUnique(sorted, SortedElements(ZonesOf(v, n)));
  }
}
