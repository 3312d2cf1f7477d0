/** The by-zone views: the three zone tables, `sum by (zone,node_name)` of a node
    metric, and the zone trend, `sum by (zone)`, each under the zone filter. */
module ZonePower {
  import opened Samples
  import opened PromQL
  import Rows

  const ZoneNodeGrouping: set<string> := {Zone, NodeName}
  const ZoneGrouping: set<string> := {Zone}

  /** The samples the zone selector lets through: all of them for `All`, else
      those whose `zone` label equals the filter (`zone="..."`). */
  function ZoneScope(v: Vector, zf: string): Vector
  {
    Filtered(v, Zone, zf)
  }

  /** The zone table's query over one node metric. */
  function ZoneTable(v: Vector, zf: string): Grouped
  {
    SumBy(ZoneScope(v, zf), ZoneNodeGrouping)
  }

  /** The zone trend's query, at one evaluation instant. */
  function ZoneTrend(v: Vector, zf: string): Grouped
  {
    SumBy(ZoneScope(v, zf), ZoneGrouping)
  }

  /** Some sample of `v` falls in output group `g`. */
  ghost predicate InGroup(v: Vector, grouping: set<string>, g: LabelSet)
  {
    exists s :: s in v && Project(s.metric, grouping) == g
  }

  /** The zone selector removes a group's samples all together or not at all,
      because `zone` is one of the grouping labels. */
  lemma {:induction false} SumKeyZoneScope(v: Vector, zf: string, grouping: set<string>, g: LabelSet)
    requires Zone in grouping && zf != All
    ensures SumKey(Select(v, Zone, zf), grouping, g)
         == if Label(g, Zone) == zf then SumKey(v, grouping, g) else 0.0
  {
    if v != [] {
      SumKeyZoneScope(v[1..], zf, grouping, g);
      var head := if Label(v[0].metric, Zone) == zf then [v[0]] else [];
      assert Select(v, Zone, zf) == head + Select(v[1..], Zone, zf);
      SumKeyAppend(head, Select(v[1..], Zone, zf), grouping, g);
      assert Label(Project(v[0].metric, grouping), Zone) == Label(v[0].metric, Zone);
    }
  }

  /** A zone-grouped sum under the zone filter has exactly the groups of the
      unfiltered samples whose zone passes the filter, each with its full total. */
  lemma ZoneSumsAt(v: Vector, zf: string, grouping: set<string>, g: LabelSet)
    requires Zone in grouping
    ensures g in SumBy(ZoneScope(v, zf), grouping) <==>
      (zf == All || Label(g, Zone) == zf) && InGroup(v, grouping, g)
    ensures g in SumBy(ZoneScope(v, zf), grouping) ==>
      SumBy(ZoneScope(v, zf), grouping)[g] == SumKey(v, grouping, g)
  {
    var x := ZoneScope(v, zf);
    SumByMeaning(x, grouping);
    if zf != All {
      SumKeyZoneScope(v, zf, grouping, g);
    }
    if g in SumBy(x, grouping) {
      var s :| s in x && Project(s.metric, grouping) == g;
      assert Label(Project(s.metric, grouping), Zone) == Label(s.metric, Zone);
    }
    if (zf == All || Label(g, Zone) == zf) && InGroup(v, grouping, g) {
      var s :| s in v && Project(s.metric, grouping) == g;
      assert Label(Project(s.metric, grouping), Zone) == Label(s.metric, Zone);
      assert s in x;
    }
  }

  /** One zone-table element per (zone, node) pair that has a reading and passes
      the filter, holding that pair's total. */
  lemma ZoneTableAt(v: Vector, zf: string, g: LabelSet)
    ensures g in ZoneTable(v, zf) <==>
      (zf == All || Label(g, Zone) == zf) && InGroup(v, ZoneNodeGrouping, g)
    ensures g in ZoneTable(v, zf) ==> ZoneTable(v, zf)[g] == SumKey(v, ZoneNodeGrouping, g)
  {
    ZoneSumsAt(v, zf, ZoneNodeGrouping, g);
  }

  /** One trend element per zone that has a reading and passes the filter. */
  lemma ZoneTrendAt(v: Vector, zf: string, g: LabelSet)
    ensures g in ZoneTrend(v, zf) <==>
      (zf == All || Label(g, Zone) == zf) && InGroup(v, ZoneGrouping, g)
    ensures g in ZoneTrend(v, zf) ==> ZoneTrend(v, zf)[g] == SumKey(v, ZoneGrouping, g)
  {
    ZoneSumsAt(v, zf, ZoneGrouping, g);
  }

  /** The rows of a zone table, whatever order the answer lists it in: one row
      per (zone, node) pair, each with the pair's total, and under a filter on a
      non-empty zone every row shows that zone. */
  lemma ZoneTableRowsMeaning(v: Vector, zf: string, r: seq<Sample>)
    requires Lists(ZoneTable(v, zf), r)
    ensures |Rows.ZoneRows(Some(r))| == |ZoneTable(v, zf)|
    ensures forall i :: 0 <= i < |r| ==>
      && Rows.ZoneRows(Some(r))[i].watts == SumKey(v, ZoneNodeGrouping, r[i].metric)
      && (zf != All && zf != "" ==> Rows.ZoneRows(Some(r))[i].zone == zf)
  {
    forall i | 0 <= i < |r|
      ensures r[i].value == SumKey(v, ZoneNodeGrouping, r[i].metric)
      ensures zf != All ==> Label(r[i].metric, Zone) == zf
    {
      ZoneTableAt(v, zf, r[i].metric);
    }
  }
}
