/** The three time-series charts: each range-query series becomes a named line
    whose points keep the series' samples one for one. */
module Series {
  import opened Samples

  /** A chart point: `x` in milliseconds, `y` the reading. */
  datatype ChartPoint = ChartPoint(x: real, y: real)

  /** One chart line. */
  datatype Line = Line(name: string, data: seq<ChartPoint>)

  /** The most lines a chart draws. */
  const MaxLines: nat := 10

  /** `values.map(([t, v]) => ({x: t * 1000, y: v}))`: seconds become milliseconds. */
  function Points(values: seq<Point>): (data: seq<ChartPoint>)
    ensures |data| == |values|
    ensures forall i :: 0 <= i < |data| ==> data[i].y == values[i].value
  {
    seq(|values|, i requires 0 <= i < |values| => ChartPoint(values[i].time * 1000.0, values[i].value))
  }

  /** The points give back the samples they were drawn from, in order. */
  lemma PointsRoundTrip(values: seq<Point>)
    ensures forall i :: 0 <= i < |values| ==>
      Point(Points(values)[i].x / 1000.0, Points(values)[i].y) == values[i]
  {
  }

  /** `${zone} - ${pod}` for a pod series. */
  function PodLineName(m: LabelSet): string
  {
    LabelOr(m, Zone, Unknown) + " - " + LabelOr(m, PodName, Unknown)
  }

  /** `Zone - ${zone}` for a zone-trend series. */
  function ZoneLineName(m: LabelSet): string
  {
    "Zone - " + LabelOr(m, Zone, Unknown)
  }

  /** `${zone} - ${instance || node_name || 'unknown'}` for a node series. */
  function NodeLineName(m: LabelSet): string
  {
    LabelOr(m, Zone, Unknown) + " - " + LabelOr(m, Instance, LabelOr(m, NodeName, Unknown))
  }

  /** The lines of a range result, each named by `name` from its labels, in the
      result's order; no result draws nothing. */
  function Lines(result: Option<seq<RangeSeries>>, name: LabelSet -> string): (lines: seq<Line>)
    ensures result.None? ==> lines == []
    ensures result.Some? ==> |lines| == |result.value|
    ensures result.Some? ==> forall i :: 0 <= i < |lines| ==>
      lines[i].name == name(result.value[i].metric) && lines[i].data == Points(result.value[i].values)
  {
    if result.None? then []
    else
      seq(|result.value|, i requires 0 <= i < |result.value| =>
        Line(name(result.value[i].metric), Points(result.value[i].values)))
  }

  /** The first `MaxLines` lines, in order (`.slice(0, 10)`). */
  function Capped(lines: seq<Line>): (shown: seq<Line>)
    ensures |shown| == Min(MaxLines, |lines|)
    ensures forall i :: 0 <= i < |shown| ==> shown[i] == lines[i]
  {
    if |lines| <= MaxLines then lines else lines[..MaxLines]
  }

  /** The pod chart: pod lines, cut to the first ten while the data is shaped. */
  function PodChart(result: Option<seq<RangeSeries>>): seq<Line>
  {
    Capped(Lines(result, PodLineName))
  }

  /** The zone trend: one line per series, none cut. */
  function ZoneTrendChart(result: Option<seq<RangeSeries>>): seq<Line>
  {
    Lines(result, ZoneLineName)
  }

  /** The node chart's data: every node series as a line. */
  function NodeChart(result: Option<seq<RangeSeries>>): seq<Line>
  {
    Lines(result, NodeLineName)
  }

  /** What the node chart draws, and lists in its legend: the first ten lines. */
  function NodeChartDrawn(result: Option<seq<RangeSeries>>): seq<Line>
  {
    Capped(NodeChart(result))
  }

  /** At most ten pod lines, line `i` drawn from series `i`: the first ten series
      in the result's order, named `zone - pod`, points one for one. */
  lemma PodChartMeaning(result: Option<seq<RangeSeries>>)
    ensures result.None? ==> PodChart(result) == []
    ensures result.Some? ==> |PodChart(result)| == Min(MaxLines, |result.value|)
    ensures result.Some? ==> forall i :: 0 <= i < |PodChart(result)| ==>
      && PodChart(result)[i].name == PodLineName(result.value[i].metric)
      && PodChart(result)[i].data == Points(result.value[i].values)
  {
  }

  /** Series after the tenth never change the pod chart. */
  lemma PodChartPrefix(a: seq<RangeSeries>, b: seq<RangeSeries>)
    requires |a| >= MaxLines
    ensures PodChart(Some(a + b)) == PodChart(Some(a))
  {
    var x := PodChart(Some(a + b));
    var y := PodChart(Some(a));
    assert |x| == |y| == MaxLines;
    forall i | 0 <= i < MaxLines ensures x[i] == y[i] {
      assert (a + b)[i] == a[i];
    }
  }

  /** Lines are not merged by name: two series with the same labels give two
      lines with the same name. */
  lemma SameNamesKept(m: LabelSet, p: seq<Point>, q: seq<Point>)
    ensures |PodChart(Some([RangeSeries(m, p), RangeSeries(m, q)]))| == 2
    ensures PodChart(Some([RangeSeries(m, p), RangeSeries(m, q)]))[0].name
         == PodChart(Some([RangeSeries(m, p), RangeSeries(m, q)]))[1].name
  {
  }

  /** A node line is named by its instance when it has one, else its node name,
      else `unknown`, after its zone. */
  lemma NodeLineNameMeaning(m: LabelSet)
    ensures Label(m, Instance) != "" ==> NodeLineName(m) == LabelOr(m, Zone, Unknown) + " - " + m[Instance]
    ensures Label(m, Instance) == "" && Label(m, NodeName) != "" ==>
      NodeLineName(m) == LabelOr(m, Zone, Unknown) + " - " + m[NodeName]
    ensures Label(m, Instance) == "" && Label(m, NodeName) == "" ==>
      NodeLineName(m) == LabelOr(m, Zone, Unknown) + " - " + Unknown
  {
  }

  /** The node chart keeps every series, and draws the first ten of them. */
  lemma NodeChartMeaning(result: Option<seq<RangeSeries>>)
    ensures result.Some? ==> |NodeChart(result)| == |result.value|
    ensures result.Some? ==> |NodeChartDrawn(result)| == Min(MaxLines, |result.value|)
    ensures forall i :: 0 <= i < |NodeChartDrawn(result)| ==> NodeChartDrawn(result)[i] == NodeChart(result)[i]
  {
  }
}
