/** The dashboard component: it turns the historical answer into one plot
    series per metric, keeps the series shown on the chart in step with the
    selection, and merges each live measurement into the series and into the
    latest-value table. */
module Dashboard {
  import opened Types
  import opened DashboardHeader

  /* ---------------------------------------------------------------------- */
  /* Series construction                                                     */
  /* ---------------------------------------------------------------------- */

  /** The line colours, handed out by a series' position. */
  const Palette: seq<string> := ["#a83a32", "#2d8fa1", "#5ba12d", "#9c2894", "#e6ad8e", "#32403f"]

  const Scatter := "scatter"

  /** The colour at a position; past the palette's end the lookup is `undefined`. */
  function PaletteColor(position: nat): (c: Option<string>)
    ensures position < |Palette| ==> c == Some(Palette[position])
    ensures position >= |Palette| ==> c == None
  {
    if position < |Palette| then Some(Palette[position]) else None
  }

  /** The y-axis a unit is drawn against: Fahrenheit on the first axis, PSI on
      the second, percent on the third; any other unit leaves the axis id empty. */
  function AxisOf(unit: string): (axis: string)
    ensures axis == "y" <==> unit == "F"
    ensures axis == "y2" <==> unit == "PSI"
    ensures axis == "y3" <==> unit == "%"
    ensures axis == "" <==> unit != "F" && unit != "PSI" && unit != "%"
  {
    if unit == "F" then "y"
    else if unit == "PSI" then "y2"
    else if unit == "%" then "y3"
    else ""
  }

  /** `s` is the series built for `node` sitting at `position` of the answer:
      its name is the node's metric, point j is the j-th reading's (at, value),
      its axis comes from the unit of the first reading only, and its colour
      from the position. */
  ghost predicate IsSeriesOf(s: PlotSeries, node: MetricNode, position: nat) {
    var ms := node.measurements;
    |ms| > 0
    && s.name == node.metric
    && |s.xs| == |ms| && |s.ys| == |ms|
    && (forall j :: 0 <= j < |ms| ==> s.xs[j] == ms[j].at && s.ys[j] == ms[j].value)
    && s.yaxis == AxisOf(ms[0].unit)
    && s.trace == Scatter
    && s.color == PaletteColor(position)
  }

  /** Reading the first measurement of a node without any throws; the position
      of the offending node is recorded. */
  datatype TransformError = EmptyMeasurements(position: nat)

  /** Builds one series per node, in the order of the answer. A node without
      measurements makes the whole construction fail. */
  method TransformToChartData(data: seq<MetricNode>) returns (r: Result<seq<PlotSeries>, TransformError>)
    ensures r.Err? <==> exists i :: 0 <= i < |data| && |data[i].measurements| == 0
    ensures r.Err? ==> var p := r.error.position;
                       p < |data| && |data[p].measurements| == 0
                       && forall i :: 0 <= i < p ==> |data[i].measurements| > 0
    ensures r.Ok? ==> |r.value| == |data|
                      && forall i :: 0 <= i < |data| ==> IsSeriesOf(r.value[i], data[i], i)
  {
    var returnArr: seq<PlotSeries> := [];
    var i := 0;
    while i < |data|
      invariant 0 <= i <= |data|
      invariant |returnArr| == i
      invariant forall k :: 0 <= k < i ==> IsSeriesOf(returnArr[k], data[k], k)
    {
      var node := data[i];
      var xs: seq<int> := [];
      var ys: seq<int> := [];
      var j := 0;
      while j < |node.measurements|
        invariant 0 <= j <= |node.measurements|
        invariant |xs| == j && |ys| == j
        invariant forall k :: 0 <= k < j ==> xs[k] == node.measurements[k].at && ys[k] == node.measurements[k].value
      {
        xs := xs + [node.measurements[j].at];
        ys := ys + [node.measurements[j].value];
        j := j + 1;
      }
      if |node.measurements| == 0 {
        return Err(EmptyMeasurements(i));
      }
      var yaxis := "";
      var unit := node.measurements[0].unit;
      if unit == "F" {
        yaxis := "y";
      } else if unit == "PSI" {
        yaxis := "y2";
      } else if unit == "%" {
        yaxis := "y3";
      }
      returnArr := returnArr + [PlotSeries(xs, ys, node.metric, yaxis, Scatter, PaletteColor(i))];
      i := i + 1;
    }
    r := Ok(returnArr);
  }

  /** Two nodes whose first readings share a unit land on the same axis,
      whatever their later readings are. */
  lemma AxisFromFirstUnitOnly(s: PlotSeries, t: PlotSeries, a: MetricNode, b: MetricNode, i: nat, j: nat)
    requires IsSeriesOf(s, a, i) && IsSeriesOf(t, b, j)
    requires a.measurements[0].unit == b.measurements[0].unit
    ensures s.yaxis == t.yaxis
  {
  }

  /* ---------------------------------------------------------------------- */
  /* Visible-series projection                                               */
  /* ---------------------------------------------------------------------- */

  /** The empty trace appended after the selected series. */
  const Sentinel := PlotSeries([], [], "", "y", Scatter, Some("#444"))

  /** The series whose name is selected, in the order of `data`. */
  function Selected(data: seq<PlotSeries>, selection: seq<string>): (r: seq<PlotSeries>)
    ensures |r| <= |data|
    ensures forall x :: x in r ==> x in data && x.name in selection
  {
    if data == [] then []
    else
      var last := data[|data| - 1];
      Selected(data[..|data| - 1], selection) + (if last.name in selection then [last] else [])
  }

  /** `Array.prototype.filter` by selection, then a push of the sentinel. */
  method DataFilter(data: seq<PlotSeries>, selection: seq<string>) returns (filtered: seq<PlotSeries>)
    ensures filtered == Selected(data, selection) + [Sentinel]
  {
    filtered := [];
    var i := 0;
    while i < |data|
      invariant 0 <= i <= |data|
      invariant filtered == Selected(data[..i], selection)
    {
      assert data[..i + 1][..i] == data[..i];
      if data[i].name in selection {
        filtered := filtered + [data[i]];
      }
      i := i + 1;
    }
    assert data[..|data|] == data;
    filtered := filtered + [Sentinel];
  }

  /** Filtering a concatenation filters each part: the kept series keep their
      relative order. */
  lemma {:induction false} SelectedAppend(a: seq<PlotSeries>, b: seq<PlotSeries>, selection: seq<string>)
    ensures Selected(a + b, selection) == Selected(a, selection) + Selected(b, selection)
    decreases |b|
  {
    if b != [] {
      var b' := b[..|b| - 1];
      assert (a + b)[..|a + b| - 1] == a + b';
      SelectedAppend(a, b', selection);
    } else {
      assert a + b == a;
    }
  }

  /** A series is kept exactly when it is in the data and its name is selected. */
  lemma {:induction false} SelectedMembership(data: seq<PlotSeries>, selection: seq<string>, s: PlotSeries)
    ensures s in Selected(data, selection) <==> s in data && s.name in selection
  {
    if data != [] {
      var init := data[..|data| - 1];
      SelectedMembership(init, selection, s);
      assert data == init + [data[|data| - 1]];
    }
  }

  /** Never more series than in the data. */
  lemma {:induction false} SelectedLength(data: seq<PlotSeries>, selection: seq<string>)
    ensures |Selected(data, selection)| <= |data|
    ensures (forall k :: 0 <= k < |data| ==> data[k].name in selection) ==> Selected(data, selection) == data
  {
    if data != [] {
      SelectedLength(data[..|data| - 1], selection);
      assert data[..|data| - 1] + [data[|data| - 1]] == data;
    }
  }

  /** Only membership of the selection matters, not the order of its names:
      the chart's series order does not depend on the order of the clicks. */
  lemma {:induction false} SelectedIgnoresSelectionOrder(data: seq<PlotSeries>, s1: seq<string>, s2: seq<string>)
    requires forall n :: n in s1 <==> n in s2
    ensures Selected(data, s1) == Selected(data, s2)
  {
    if data != [] {
      SelectedIgnoresSelectionOrder(data[..|data| - 1], s1, s2);
    }
  }

  /** The shown list holds one entry per selected series plus the sentinel,
      which is last. */
  lemma FilteredShape(data: seq<PlotSeries>, selection: seq<string>, filtered: seq<PlotSeries>)
    requires filtered == Selected(data, selection) + [Sentinel]
    ensures |filtered| == |Selected(data, selection)| + 1 <= |data| + 1
    ensures filtered[|filtered| - 1] == Sentinel
    ensures forall s :: s in filtered[..|filtered| - 1] <==> s in data && s.name in selection
  {
    SelectedLength(data, selection);
    assert filtered[..|filtered| - 1] == Selected(data, selection);
    forall s ensures s in filtered[..|filtered| - 1] <==> s in data && s.name in selection {
      SelectedMembership(data, selection, s);
    }
  }

  /* ---------------------------------------------------------------------- */
  /* History query input                                                     */
  /* ---------------------------------------------------------------------- */

  /** The history window reaches back one hour before the page was loaded. */
  const LookbackMs := 60 * 60000

  function Cutoff(loadTime: int): (after: int)
    ensures after < loadTime
    ensures loadTime - after == 3_600_000
  {
    loadTime - LookbackMs
  }

  const EntryOpen := "{ metricName: \""
  const EntryMiddle := "\", after: "
  const EntryClose := " }"

  /** One element of the history query's input list. */
  function QueryEntry(metric: string, after: int): (r: string)
    ensures |r| == |EntryOpen| + |metric| + |EntryMiddle| + |NumberToString(after)| + |EntryClose|
    ensures r[..|EntryOpen| + |metric|] == EntryOpen + metric
    ensures r[|EntryOpen| + |metric|..|r| - |EntryClose|] == EntryMiddle + NumberToString(after)
    ensures r[|r| - |EntryClose|..] == EntryClose
  {
    EntryOpen + metric + EntryMiddle + NumberToString(after) + EntryClose
  }

  /** One input element per metric, in the order of the metrics. */
  function GetInputQuery(metrics: seq<string>, after: int): (query: seq<string>)
    ensures |query| == |metrics|
    ensures forall i :: 0 <= i < |metrics| ==> query[i] == QueryEntry(metrics[i], after)
  {
    seq(|metrics|, i requires 0 <= i < |metrics| => QueryEntry(metrics[i], after))
  }

  /** Element i of the query names metric i right after the opening text and
      carries the cutoff just before the closing brace; both can be read back. */
  lemma InputQueryCarriesMetricAndCutoff(metrics: seq<string>, after: int, i: nat)
    requires i < |metrics|
    ensures var e := GetInputQuery(metrics, after)[i];
            var n := NumberToString(after);
            |e| == |EntryOpen| + |metrics[i]| + |EntryMiddle| + |n| + |EntryClose|
            && e[..|EntryOpen|] == EntryOpen
            && e[|EntryOpen|..|EntryOpen| + |metrics[i]|] == metrics[i]
            && e[|e| - |EntryClose| - |n|..|e| - |EntryClose|] == n
  {
    var e := GetInputQuery(metrics, after)[i];
    var n := NumberToString(after);
    assert e == EntryOpen + metrics[i] + EntryMiddle + n + EntryClose;
    assert e[..|EntryOpen|] == EntryOpen;
    assert e[|EntryOpen|..|EntryOpen| + |metrics[i]|] == metrics[i];
    assert e[|e| - |EntryClose| - |n|..|e| - |EntryClose|] == n;
  }

  /** Different metrics give different query elements. */
  lemma QueryEntryInjective(m1: string, m2: string, after: int)
    requires QueryEntry(m1, after) == QueryEntry(m2, after)
    ensures m1 == m2
  {
    var n := NumberToString(after);
    var e := QueryEntry(m1, after);
    assert |m1| == |m2|;
    assert e[|EntryOpen|..|EntryOpen| + |m1|] == m1;
    assert QueryEntry(m2, after)[|EntryOpen|..|EntryOpen| + |m2|] == m2;
  }

  /* ---------------------------------------------------------------------- */
  /* Latest-value placeholders                                               */
  /* ---------------------------------------------------------------------- */

  /** The latest-value entry a metric has before any live reading. */
  function Placeholder(metric: string): (m: Measurement)
    ensures m.metric == metric && m.at == 0 && m.unit == ""
    ensures NumberToString(m.value) == "0"
  {
    Measurement(metric, 0, 0, "")
  }

  /** One placeholder per catalog name, in catalog order. */
  method Placeholders(catalog: seq<string>) returns (tempData: seq<Measurement>)
    ensures |tempData| == |catalog|
    ensures forall i :: 0 <= i < |catalog| ==> tempData[i] == Placeholder(catalog[i])
  {
    tempData := [];
    var i := 0;
    while i < |catalog|
      invariant 0 <= i <= |catalog|
      invariant |tempData| == i
      invariant forall k :: 0 <= k < i ==> tempData[k] == Placeholder(catalog[k])
    {
      tempData := tempData + [Placeholder(catalog[i])];
      i := i + 1;
    }
  }

  /** Before any live reading, a selected catalog metric's card shows "0". */
  lemma PlaceholderCardShowsZero(selection: seq<string>, latestData: seq<Measurement>, catalog: seq<string>, i: nat)
    requires |latestData| == |catalog|
    requires forall k :: 0 <= k < |catalog| ==> latestData[k] == Placeholder(catalog[k])
    requires i < |catalog| && catalog[i] in selection
    ensures GetValue(selection, latestData, catalog[i]) == "0"
  {
    var k := FirstEntry(latestData, catalog[i]);
    assert latestData[i].metric == catalog[i];
    assert NumberToString(0) == "0";
    assert latestData[k] == Placeholder(catalog[i]);
  }

  /* ---------------------------------------------------------------------- */
  /* Live update step                                                        */
  /* ---------------------------------------------------------------------- */

  /** The state the live update reads and writes: the series, the latest-value
      table and the last accepted event. */
  datatype LiveState = LiveState(series: seq<PlotSeries>, latest: seq<Measurement>, prev: Measurement)

  /** The last accepted event before any has been accepted. */
  const InitialPrev := Measurement("", 0, 0, "")

  /** Two events are the same event when time, value and metric agree; the
      unit is not compared. */
  predicate SameEvent(a: Measurement, b: Measurement)
    ensures SameEvent(a, b) <==> a.(unit := b.unit) == b
    ensures SameEvent(a, b) <==> b.(unit := a.unit) == a
  {
    a.at == b.at && a.value == b.value && a.metric == b.metric
  }

  /** `Array.prototype.find` over the series by name, as a position, or -1. */
  function FindSeries(series: seq<PlotSeries>, name: string): (i: int)
    ensures -1 <= i < |series|
    ensures i == -1 <==> forall k :: 0 <= k < |series| ==> series[k].name != name
    ensures 0 <= i ==> series[i].name == name && forall k :: 0 <= k < i ==> series[k].name != name
  {
    if series == [] then -1
    else if series[0].name == name then 0
    else
      var j := FindSeries(series[1..], name);
      if j == -1 then -1 else j + 1
  }

  /** A series with one more point (at, value) at its end. */
  function AppendPoint(s: PlotSeries, e: Measurement): (r: PlotSeries)
    ensures |r.xs| == |s.xs| + 1 && r.xs[..|s.xs|] == s.xs && r.xs[|s.xs|] == e.at
    ensures |r.ys| == |s.ys| + 1 && r.ys[..|s.ys|] == s.ys && r.ys[|s.ys|] == e.value
    ensures r.(xs := s.xs, ys := s.ys) == s
  {
    s.(xs := s.xs + [e.at], ys := s.ys + [e.value])
  }

  /** Every series named `name` replaced by `replacement` (`Array.prototype.map`). */
  function ReplaceByName(series: seq<PlotSeries>, name: string, replacement: PlotSeries): (r: seq<PlotSeries>)
    ensures |r| == |series|
    ensures forall k :: 0 <= k < |series| ==> r[k] == if series[k].name == name then replacement else series[k]
  {
    seq(|series|, k requires 0 <= k < |series| => if series[k].name == name then replacement else series[k])
  }

  /** Every entry for `e`'s metric replaced by `e` (`Array.prototype.map`). */
  function ReplaceLatest(latest: seq<Measurement>, e: Measurement): (r: seq<Measurement>)
    ensures |r| == |latest|
    ensures forall k :: 0 <= k < |latest| ==> r[k] == if latest[k].metric == e.metric then e else latest[k]
  {
    seq(|latest|, k requires 0 <= k < |latest| => if latest[k].metric == e.metric then e else latest[k])
  }

  /** The event is applied: the subscription is not loading, has delivered an
      event, that event differs from the last accepted one, and some series
      bears its metric's name. */
  predicate Accepts(st: LiveState, loading: bool, data: Option<Measurement>)
    ensures Accepts(st, loading, data)
            <==> !loading && data.Some? && !SameEvent(data.value, st.prev)
                 && exists i :: 0 <= i < |st.series| && st.series[i].name == data.value.metric
  {
    !loading && data.Some? && !SameEvent(data.value, st.prev) && FindSeries(st.series, data.value.metric) != -1
  }

  /** One run of the live-update effect. An accepted event is appended to the
      first series of its name, which then stands in for every series of that
      name; the event replaces the latest-value entries of its metric and
      becomes the last accepted event. Anything else leaves the state alone. */
  function Step(st: LiveState, loading: bool, data: Option<Measurement>): (r: LiveState)
    ensures |r.series| == |st.series| && |r.latest| == |st.latest|
    ensures r == st || (Accepts(st, loading, data) && r.prev == data.value)
  {
    if !Accepts(st, loading, data) then st
    else
      var e := data.value;
      var matching := AppendPoint(st.series[FindSeries(st.series, e.metric)], e);
      LiveState(ReplaceByName(st.series, e.metric, matching), ReplaceLatest(st.latest, e), e)
  }

  /** Delivers events one after another. */
  function Run(st: LiveState, events: seq<Measurement>): LiveState {
    if events == [] then st
    else Step(Run(st, events[..|events| - 1]), false, Some(events[|events| - 1]))
  }

  predicate UniqueNames(series: seq<PlotSeries>) {
    forall i, j :: 0 <= i < j < |series| ==> series[i].name != series[j].name
  }

  /** Every series has as many y values as x values. */
  predicate WellFormed(series: seq<PlotSeries>) {
    forall k :: 0 <= k < |series| ==> |series[k].xs| == |series[k].ys|
  }

  /** A repeat of the last accepted event, even with another unit, changes nothing. */
  lemma DuplicateIgnored(st: LiveState, e: Measurement)
    requires SameEvent(e, st.prev)
    ensures Step(st, false, Some(e)) == st
  {
  }

  /** An event for a metric no series bears changes nothing, not even the
      last accepted event. */
  lemma UnknownMetricIgnored(st: LiveState, e: Measurement)
    requires forall k :: 0 <= k < |st.series| ==> st.series[k].name != e.metric
    ensures Step(st, false, Some(e)) == st
  {
  }

  /** While nothing is loaded yet, every event is dropped. */
  lemma EventsBeforeBootstrapDropped(st: LiveState, loading: bool, data: Option<Measurement>)
    requires st.series == []
    ensures Step(st, loading, data) == st
  {
  }

  /** Events delivered before the bootstrap leave no trace: not even the last
      accepted event moves from its initial value. */
  lemma {:induction false} EarlyEventsLeaveNoTrace(latest: seq<Measurement>, early: seq<Measurement>)
    ensures Run(LiveState([], latest, InitialPrev), early) == LiveState([], latest, InitialPrev)
  {
    if early != [] {
      EarlyEventsLeaveNoTrace(latest, early[..|early| - 1]);
      EventsBeforeBootstrapDropped(LiveState([], latest, InitialPrev), false, Some(early[|early| - 1]));
    }
  }

  /** The subscription keeps its last event, and the effect runs again once
      the series are loaded: the earlier events are lost, but the last one is
      then compared with the initial last event and, for a loaded metric,
      applied. */
  lemma LastEarlyEventAppliedOnLoad(early: seq<Measurement>, series: seq<PlotSeries>, latest: seq<Measurement>)
    requires early != [] && !SameEvent(early[|early| - 1], InitialPrev)
    requires FindSeries(series, early[|early| - 1].metric) != -1
    ensures var before := Run(LiveState([], [], InitialPrev), early);
            before.series == [] && before.prev == InitialPrev
    ensures var e := early[|early| - 1];
            var r := Step(LiveState(series, latest, Run(LiveState([], [], InitialPrev), early).prev), false, Some(e));
            r.prev == e && (UniqueNames(series) ==> PointCount(r.series) == PointCount(series) + 1)
  {
    EarlyEventsLeaveNoTrace([], early);
    var e := early[|early| - 1];
    if UniqueNames(series) {
      AcceptedStep(LiveState(series, latest, InitialPrev), e, e.metric);
    }
  }

  /** The effects of an accepted event on series with distinct names: one
      point (at, value) at the end of the series of its metric, every other
      series as before; the latest-value entries of its metric become the
      event, the others stay; the event becomes the last accepted one. */
  lemma AcceptedEffects(st: LiveState, e: Measurement, i: nat)
    requires UniqueNames(st.series)
    requires !SameEvent(e, st.prev)
    requires i < |st.series| && st.series[i].name == e.metric
    ensures var r := Step(st, false, Some(e));
            r.series == st.series[i := AppendPoint(st.series[i], e)]
            && r.series[i].xs == st.series[i].xs + [e.at]
            && r.series[i].ys == st.series[i].ys + [e.value]
            && r.prev == e
            && |r.latest| == |st.latest|
            && (forall k :: 0 <= k < |st.latest| && st.latest[k].metric == e.metric ==> r.latest[k] == e)
            && (forall k :: 0 <= k < |st.latest| && st.latest[k].metric != e.metric ==> r.latest[k] == st.latest[k])
  {
    assert FindSeries(st.series, e.metric) == i;
    var r := Step(st, false, Some(e));
    assert r.series == st.series[i := AppendPoint(st.series[i], e)];
  }

  /** Where two series share the event's name, both become the first one
      with the new point: the later series loses its own points. */
  lemma SameNamedSeriesMerged(st: LiveState, e: Measurement, i: nat, j: nat)
    requires !SameEvent(e, st.prev)
    requires i < j < |st.series| && st.series[i].name == e.metric && st.series[j].name == e.metric
    requires forall k :: 0 <= k < i ==> st.series[k].name != e.metric
    ensures var r := Step(st, false, Some(e));
            r.series[i] == r.series[j] == AppendPoint(st.series[i], e)
  {
    assert FindSeries(st.series, e.metric) == i;
  }

  /** Delivering the same event twice in a row has the effect of delivering it once. */
  lemma RedeliveryIdempotent(st: LiveState, e: Measurement)
    ensures Step(Step(st, false, Some(e)), false, Some(e)) == Step(st, false, Some(e))
  {
    if Accepts(st, false, Some(e)) {
      DuplicateIgnored(Step(st, false, Some(e)), e);
    }
  }

  /** The step keeps the number, the order and the names of the series. */
  lemma StepKeepsNames(st: LiveState, loading: bool, data: Option<Measurement>)
    ensures var r := Step(st, loading, data);
            |r.series| == |st.series| && forall k :: 0 <= k < |st.series| ==> r.series[k].name == st.series[k].name
  {
  }

  /** The step keeps every series well formed. */
  lemma StepKeepsWellFormed(st: LiveState, loading: bool, data: Option<Measurement>)
    requires WellFormed(st.series)
    ensures WellFormed(Step(st, loading, data).series)
  {
    if Accepts(st, loading, data) {
      var i := FindSeries(st.series, data.value.metric);
      assert |st.series[i].xs| == |st.series[i].ys|;
    }
  }

  /** Total number of points over all series. */
  function PointCount(series: seq<PlotSeries>): nat {
    if series == [] then 0 else PointCount(series[..|series| - 1]) + |series[|series| - 1].xs|
  }

  lemma {:induction false} PointCountUpdate(series: seq<PlotSeries>, i: nat, s: PlotSeries)
    requires i < |series|
    ensures PointCount(series[i := s]) + |series[i].xs| == PointCount(series) + |s.xs|
    decreases |series|
  {
    var n := |series| - 1;
    if i < n {
      assert series[i := s][..n] == series[..n][i := s];
      PointCountUpdate(series[..n], i, s);
    } else {
      assert series[i := s][..n] == series[..n];
    }
  }

  /** An accepted event on series with distinct names adds exactly one point. */
  lemma AcceptedAddsOnePoint(st: LiveState, loading: bool, data: Option<Measurement>)
    requires UniqueNames(st.series)
    requires Accepts(st, loading, data)
    ensures PointCount(Step(st, loading, data).series) == PointCount(st.series) + 1
  {
    var e := data.value;
    var i := FindSeries(st.series, e.metric);
    AcceptedEffects(st, e, i);
    PointCountUpdate(st.series, i, AppendPoint(st.series[i], e));
  }

  /** The step keeps distinct names distinct. */
  lemma StepKeepsUniqueNames(st: LiveState, loading: bool, data: Option<Measurement>)
    requires UniqueNames(st.series)
    ensures UniqueNames(Step(st, loading, data).series)
  {
    StepKeepsNames(st, loading, data);
  }

  /** An accepted event on series with distinct names adds one point and
      leaves every series name findable as before. */
  lemma AcceptedStep(st: LiveState, e: Measurement, other: string)
    requires UniqueNames(st.series)
    requires Accepts(st, false, Some(e))
    ensures var r := Step(st, false, Some(e));
            UniqueNames(r.series) && r.prev == e
            && PointCount(r.series) == PointCount(st.series) + 1
            && FindSeries(r.series, e.metric) != -1
            && (FindSeries(r.series, other) == -1 <==> FindSeries(st.series, other) == -1)
  {
    var r := Step(st, false, Some(e));
    assert r.series[FindSeries(st.series, e.metric)].name == e.metric by {
      StepKeepsNames(st, false, Some(e));
    }
    AcceptedAddsOnePoint(st, false, Some(e));
    StepKeepsUniqueNames(st, false, Some(e));
    StepKeepsNames(st, false, Some(e));
    if FindSeries(st.series, other) != -1 {
      assert r.series[FindSeries(st.series, other)].name == other;
    }
    if FindSeries(r.series, other) != -1 {
      assert st.series[FindSeries(r.series, other)].name == other;
    }
  }

  /** Adjacent-only deduplication: A then B then A again, all for known
      metrics and A new, adds three points. */
  lemma AlternatingEventsAllAccepted(st: LiveState, a: Measurement, b: Measurement)
    requires UniqueNames(st.series)
    requires FindSeries(st.series, a.metric) != -1 && FindSeries(st.series, b.metric) != -1
    requires !SameEvent(a, st.prev) && !SameEvent(a, b)
    ensures PointCount(Run(st, [a, b, a]).series) == PointCount(st.series) + 3
  {
    var s1 := Step(st, false, Some(a));
    AcceptedStep(st, a, b.metric);
    var s2 := Step(s1, false, Some(b));
    AcceptedStep(s1, b, a.metric);
    var s3 := Step(s2, false, Some(a));
    AcceptedStep(s2, a, a.metric);
    RunThree(st, a, b, a);
  }

  lemma RunThree(st: LiveState, a: Measurement, b: Measurement, c: Measurement)
    ensures Run(st, [a, b, c]) == Step(Step(Step(st, false, Some(a)), false, Some(b)), false, Some(c))
  {
    assert [a, b, c][..2] == [a, b];
    assert [a, b][..1] == [a];
    assert [a][..0] == [];
    assert Run(st, [a]) == Step(st, false, Some(a));
    assert Run(st, [a, b]) == Step(Run(st, [a]), false, Some(b));
    assert Run(st, [a, b, c]) == Step(Run(st, [a, b]), false, Some(c));
  }

  /** Series are append-only: with distinct names, after any run of events
      every series starts with the points it had before. */
  lemma {:induction false} RunOnlyAppends(st: LiveState, events: seq<Measurement>)
    requires UniqueNames(st.series)
    ensures var r := Run(st, events);
            |r.series| == |st.series|
            && UniqueNames(r.series)
            && forall k :: 0 <= k < |st.series| ==>
                 r.series[k].name == st.series[k].name
                 && st.series[k].xs <= r.series[k].xs
                 && st.series[k].ys <= r.series[k].ys
  {
    if events != [] {
      var mid := Run(st, events[..|events| - 1]);
      RunOnlyAppends(st, events[..|events| - 1]);
      var e := events[|events| - 1];
      StepKeepsNames(mid, false, Some(e));
      if Accepts(mid, false, Some(e)) {
        AcceptedEffects(mid, e, FindSeries(mid.series, e.metric));
      }
    }
  }

  /** After an accepted event for a selected metric that has a latest-value
      entry, the metric's card shows the event's value and unit. */
  lemma CardShowsAcceptedEvent(st: LiveState, e: Measurement, selection: seq<string>)
    requires Accepts(st, false, Some(e))
    requires e.metric in selection
    requires exists k :: 0 <= k < |st.latest| && st.latest[k].metric == e.metric
    ensures GetValue(selection, Step(st, false, Some(e)).latest, e.metric) == NumberToString(e.value) + e.unit
  {
    var latest := Step(st, false, Some(e)).latest;
    var k := FirstEntry(st.latest, e.metric);
    assert latest[k] == e;
    assert forall j :: 0 <= j < k ==> latest[j].metric != e.metric;
  }

  /* ---------------------------------------------------------------------- */
  /* The component's state                                                   */
  /* ---------------------------------------------------------------------- */

  /** The dashboard component's state. `filteredData` is what the chart shows;
      it is recomputed from `initialData` and `selection` whenever either changes. */
  class DashboardState {
    var metricNames: seq<string>
    var selection: seq<string>
    var initialData: seq<PlotSeries>
    var filteredData: seq<PlotSeries>
    var prevSubData: Measurement
    var latestData: seq<Measurement>

    ghost predicate Valid()
      reads this
    {
      filteredData == Selected(initialData, selection) + [Sentinel]
      && NoDuplicates(selection)
    }

    /** The part of the state the live update works on. */
    function Live(): LiveState
      reads this
    {
      LiveState(initialData, latestData, prevSubData)
    }

    /** The state at mount, once the filtering effect has run. */
    constructor ()
      ensures Valid()
      ensures metricNames == [] && selection == [] && initialData == [] && latestData == []
      ensures prevSubData == InitialPrev && filteredData == [Sentinel]
    {
      metricNames := [];
      selection := [];
      initialData := [];
      prevSubData := InitialPrev;
      latestData := [];
      new;
      filteredData := DataFilter(initialData, selection);
    }

    /** The one-shot bootstrap with the catalog and the history answer it
        received. The catalog is stored first; if the series cannot be built
        the rest of the bootstrap does not happen. */
    method InitialFetch(catalog: seq<string>, history: seq<MetricNode>) returns (r: Result<(), TransformError>)
      requires Valid()
      modifies this
      ensures Valid()
      ensures metricNames == catalog
      ensures selection == old(selection) && prevSubData == old(prevSubData)
      ensures r.Err? <==> exists i :: 0 <= i < |history| && |history[i].measurements| == 0
      ensures r.Err? ==> initialData == old(initialData) && latestData == old(latestData)
      ensures r.Ok? ==> |initialData| == |history|
                        && (forall i :: 0 <= i < |history| ==> IsSeriesOf(initialData[i], history[i], i))
                        && |latestData| == |catalog|
                        && forall i :: 0 <= i < |catalog| ==> latestData[i] == Placeholder(catalog[i])
    {
      metricNames := catalog;
      var transformed := TransformToChartData(history);
      if transformed.Err? {
        return Err(transformed.error);
      }
      initialData := transformed.value;
      filteredData := DataFilter(initialData, selection);
      latestData := Placeholders(catalog);
      r := Ok(());
    }

    /** One run of the live-update effect with the subscription's current
        `loading` flag and delivered event. */
    method OnMeasurement(loading: bool, data: Option<Measurement>)
      requires Valid()
      modifies this
      ensures Valid()
      ensures Live() == Step(old(Live()), loading, data)
      ensures metricNames == old(metricNames) && selection == old(selection)
    {
      if !loading && data.Some? && !SameEvent(data.value, prevSubData) {
        var measurementNode := data.value;
        var index := FindSeries(initialData, measurementNode.metric);
        if index != -1 {
          var matchingSet := initialData[index];
          matchingSet := matchingSet.(xs := matchingSet.xs + [measurementNode.at]);
          matchingSet := matchingSet.(ys := matchingSet.ys + [measurementNode.value]);
          initialData := ReplaceByName(initialData, measurementNode.metric, matchingSet);
          latestData := ReplaceLatest(latestData, measurementNode);
          prevSubData := measurementNode;
          filteredData := DataFilter(initialData, selection);
        }
      }
    }

    /** A click on a metric's show/hide button. */
    method Toggle(metric: string)
      requires Valid()
      modifies this
      ensures Valid()
      ensures selection == Toggled(old(selection), metric)
      ensures Live() == old(Live()) && metricNames == old(metricNames)
    {
      ToggleKeepsNoDuplicates(selection, metric);
      selection := HandleToggle(selection, metric);
      filteredData := DataFilter(initialData, selection);
    }
  }

  /** A single metric with one historical reading: after the bootstrap its
      card shows the placeholder; one new live reading adds a second point and
      sets the card; showing the metric then puts its two-point series, and
      the sentinel, on the chart. */
  lemma SingleMetricScenario(s0: PlotSeries, first: Measurement, live: Measurement)
    requires first.metric == live.metric != ""
    requires IsSeriesOf(s0, MetricNode(first.metric, [first]), 0)
    ensures GetValue(Toggled([], first.metric), [Placeholder(first.metric)], first.metric) == "0"
    ensures var r := Step(LiveState([s0], [Placeholder(first.metric)], InitialPrev), false, Some(live));
            Selected(r.series, Toggled([], first.metric)) + [Sentinel]
              == [PlotSeries([first.at, live.at], [first.value, live.value], first.metric, AxisOf(first.unit),
                             Scatter, Some(Palette[0])),
                  Sentinel]
    ensures var r := Step(LiveState([s0], [Placeholder(first.metric)], InitialPrev), false, Some(live));
            GetValue(Toggled([], first.metric), r.latest, first.metric) == NumberToString(live.value) + live.unit
  {
    var m := first.metric;
    var st := LiveState([s0], [Placeholder(m)], InitialPrev);
    var sel := Toggled([], m);
    assert sel == [m] by {
      ToggleAbsentAppends([], m);
    }
    PlaceholderCardShowsZero(sel, st.latest, [m], 0);
    ScenarioSeries(s0, first, live);
    var r := Step(st, false, Some(live));
    assert Selected(r.series, sel) == r.series by {
      SelectedLength(r.series, sel);
    }
    assert st.latest[0].metric == m;
    CardShowsAcceptedEvent(st, live, sel);
  }

  /** The series part of the scenario: the live reading becomes the second point. */
  lemma ScenarioSeries(s0: PlotSeries, first: Measurement, live: Measurement)
    requires first.metric == live.metric != ""
    requires IsSeriesOf(s0, MetricNode(first.metric, [first]), 0)
    ensures Step(LiveState([s0], [Placeholder(first.metric)], InitialPrev), false, Some(live)).series
            == [PlotSeries([first.at, live.at], [first.value, live.value], first.metric, AxisOf(first.unit),
                           Scatter, Some(Palette[0]))]
  {
    var st := LiveState([s0], [Placeholder(first.metric)], InitialPrev);
    assert s0.xs == [first.at] && s0.ys == [first.value];
    assert s0.color == Some(Palette[0]);
    AcceptedEffects(st, live, 0);
    assert [first.at] + [live.at] == [first.at, live.at];
    assert [first.value] + [live.value] == [first.value, live.value];
  }

  /** The same scenario on the component's state: mount, bootstrap with one
      metric and one historical reading, one live reading, one click on the
      metric. */
  method SingleMetricSession(first: Measurement, live: Measurement) returns (shown: seq<PlotSeries>, card: string)
    requires first.metric == live.metric != ""
    ensures shown == [PlotSeries([first.at, live.at], [first.value, live.value], first.metric, AxisOf(first.unit),
                                 Scatter, Some(Palette[0])),
                      Sentinel]
    ensures card == NumberToString(live.value) + live.unit
  {
    var m := first.metric;
    var d := new DashboardState();
    var r := d.InitialFetch([m], [MetricNode(m, [first])]);
    assert r.Ok? && |d.initialData| == 1 && |d.latestData| == 1;
    ghost var s0 := d.initialData[0];
    ghost var before := d.Live();
    assert before == LiveState([s0], [Placeholder(m)], InitialPrev);
    assert IsSeriesOf(s0, MetricNode(m, [first]), 0);
    SingleMetricScenario(s0, first, live);
    ghost var after := Step(before, false, Some(live));
    d.OnMeasurement(false, Some(live));
    assert d.Live() == after && d.selection == [];
    d.Toggle(m);
    assert d.initialData == after.series && d.latestData == after.latest;
    assert d.selection == Toggled([], m);
    shown := d.filteredData;
    card := GetValue(d.selection, d.latestData, m);
  }

  /** The same on the component's state: an event delivered at mount is
      dropped, and when it is still the subscription's event after the
      bootstrap it becomes the series' second point and the last event. */
  method EarlyEventSession(first: Measurement, e: Measurement) returns (loaded: seq<PlotSeries>, last: Measurement)
    requires first.metric == e.metric != ""
    ensures loaded == [PlotSeries([first.at, e.at], [first.value, e.value], first.metric, AxisOf(first.unit),
                                  Scatter, Some(Palette[0]))]
    ensures last == e
  {
    var m := first.metric;
    var d := new DashboardState();
    EventsBeforeBootstrapDropped(d.Live(), false, Some(e));
    d.OnMeasurement(false, Some(e));
    assert d.initialData == [] && d.prevSubData == InitialPrev;
    var r := d.InitialFetch([m], [MetricNode(m, [first])]);
    assert r.Ok? && |d.initialData| == 1 && |d.latestData| == 1;
    ghost var s0 := d.initialData[0];
    assert d.Live() == LiveState([s0], [Placeholder(m)], InitialPrev);
    assert IsSeriesOf(s0, MetricNode(m, [first]), 0);
    ScenarioSeries(s0, first, e);
    d.OnMeasurement(false, Some(e));
    loaded := d.initialData;
    last := d.prevSubData;
  }
}
