# Telemetry dashboard: series maintenance and selection, in Dafny

This project models the core of a live telemetry dashboard written in React and TypeScript. The dashboard loads a catalog of metric names and one hour of history per metric, then merges a live measurement feed into that history. It shows the chosen metrics on a chart and their latest readings on per-metric cards.

The model covers the logic of two components:

- `Dashboard` (`dashboard.dfy`, module `Dashboard`) covers these parts:
  - building one plot series per metric node from the history answer (`TransformToChartData`):
    - point j of a series is the j-th reading's `(at, value)`;
    - the axis comes from the unit of the first reading (`F`→`y`, `PSI`→`y2`, `%`→`y3`, otherwise `""`);
    - the line colour comes from a six-colour palette by position.
  - projecting the series onto the selection and appending the empty sentinel trace (`DataFilter`, specified by `Selected`).
  - the input list of the history query (`GetInputQuery`), with the cutoff as a parameter.
  - the zero placeholders of the latest-value table (`Placeholders`).
  - the live-update step (`Step`), a pure function over the series, the latest-value table and the single last accepted event. The step works like this:
    - an event is dropped while the subscription is loading or when nothing was delivered;
    - it is dropped when it equals the last accepted event on `at`, `value` and `metric` (unit ignored);
    - it is dropped when no series bears its metric;
    - otherwise the point is appended to the first series of that name, which then replaces every series of that name;
    - the latest-value entries of that metric become the event, and the event becomes the last accepted one.
  - the component's state as a class (`DashboardState`). Each of its methods ties the new state to the functions above, and it keeps two invariants:
    - the shown series always equal `Selected(initialData, selection)` plus the sentinel;
    - the selection stays duplicate-free.
- `DashboardHeader` (`dashboard_header.dfy`, module `DashboardHeader`) covers these parts:
  - the show/hide toggle (`HandleToggle`, specified by `Toggled`): an absent metric is appended at the end; a present one has its first occurrence spliced out of a copy.
  - the card text (`GetValue`): the first latest-value entry's value followed by its unit, for a selected metric, and `""` otherwise.
- `Types` (`types.dfy`) holds the shared records: measurement, metric node and plot series. It also holds the way a template literal renders an integral number of magnitude at most 2^53, with a round-trip lemma.

Notable behaviours of the code, which the model follows:

- Deduplication compares each event with one global last accepted event, not with the last event of the same metric.
- The chart's series come in the order of the history answer, not catalog order, and there is no separate "default axis" value: an unknown unit leaves the axis id `""`.
- An empty history for a metric makes the series construction throw, and the rest of the bootstrap does not happen. This is modelled as `Err(EmptyMeasurements(position))`. It is not a default axis.
- History nodes are not checked against the catalog.
- The selection is an ordered list: toggling a present metric twice moves it to the end.
- Events that arrive before the bootstrap find no series and change nothing, not even the last accepted event (`EarlyEventsLeaveNoTrace`). The earlier ones are lost. The subscription keeps its last event, though, and the effect runs again once the series are loaded: that last event is then applied (`LastEarlyEventAppliedOnLoad`, `EarlyEventSession`).

## Model

| member | source | states |
|---|---|---|
| `DashboardHeader.IndexOf` | src/components/Dashboard/DashboardHeader.tsx:24 | first position of the metric, -1 exactly when absent, no earlier occurrence |
| `DashboardHeader.HandleToggle` | src/components/Dashboard/DashboardHeader.tsx:22-31 | result is the specified toggle; an absent metric is appended; a present one shortens the list by one |
| `DashboardHeader.Toggled` | src/components/Dashboard/DashboardHeader.tsx:23-29 | the toggled list has one occurrence of the metric less when it was present and one more when it was absent, and otherwise the same elements |
| `DashboardHeader.ToggleAbsentAppends` | src/components/Dashboard/DashboardHeader.tsx:23-26 | toggling an absent metric gives the old list with the metric at the end |
| `DashboardHeader.TogglePresentRemovesFirst` | src/components/Dashboard/DashboardHeader.tsx:24-28 | toggling a present metric removes its first occurrence and keeps the elements before and after, in order |
| `DashboardHeader.ToggleKeepsNoDuplicates` | src/components/Dashboard/DashboardHeader.tsx:22-31 | a duplicate-free selection stays duplicate-free |
| `DashboardHeader.ToggleMembership` | src/components/Dashboard/DashboardHeader.tsx:22-31 | on a duplicate-free list a toggle flips the metric's membership and no other name's |
| `DashboardHeader.ToggleTwiceAbsentRestores` | src/components/Dashboard/DashboardHeader.tsx:22-31 | toggling an absent metric twice restores the exact list |
| `DashboardHeader.ToggleTwicePresentMovesToEnd` | src/components/Dashboard/DashboardHeader.tsx:22-31 | toggling a present metric twice moves it from its place to the end |
| `DashboardHeader.ToggleTwiceRestoresMembership` | src/components/Dashboard/DashboardHeader.tsx:22-31 | toggling twice restores every name's membership |
| `DashboardHeader.FirstEntry` | src/components/Dashboard/DashboardHeader.tsx:35 | first latest-value entry of the metric, -1 exactly when there is none |
| `DashboardHeader.GetValue` | src/components/Dashboard/DashboardHeader.tsx:33-39 | `""` when not selected or when there is no entry; otherwise the first entry's value text followed by its unit |
| `DashboardHeader.GetValueDeterminesValue` | src/components/Dashboard/DashboardHeader.tsx:36 | the card text determines the first entry's value |
| `Types.NumberToString` | src/components/Dashboard/DashboardHeader.tsx:36 | a non-empty text that starts with `-` exactly for negative numbers, with decimal digits after the optional sign |
| `Types.DigitsRoundTrip` | src/components/Dashboard/DashboardHeader.tsx:36 | reading back the decimal digits of a number gives the number |
| `Types.NumberToStringInjective` | src/components/Dashboard/DashboardHeader.tsx:36 | different integers render as different texts |
| `Dashboard.PaletteColor` | src/components/Dashboard/Dashboard.tsx:96-104 | position i < 6 gets palette colour i; later positions get no colour |
| `Dashboard.AxisOf` | src/components/Dashboard/Dashboard.tsx:111-120 | `y` iff unit `F`, `y2` iff `PSI`, `y3` iff `%`, `""` iff any other unit |
| `Dashboard.TransformToChartData` | src/components/Dashboard/Dashboard.tsx:94-124 | fails iff some node has no readings, naming the first one; otherwise one series per node, in order, with the node's name, point j = reading j's (at, value), axis from the first reading's unit, palette colour by position, type scatter |
| `Dashboard.AxisFromFirstUnitOnly` | src/components/Dashboard/Dashboard.tsx:111 | series whose first readings share a unit share an axis, whatever the later readings |
| `Dashboard.DataFilter` | src/components/Dashboard/Dashboard.tsx:79-92 | result is the selected series in data order followed by the sentinel (empty points, name `""`, axis `y`) |
| `Dashboard.Selected` | src/components/Dashboard/Dashboard.tsx:80-82 | never more series than the data; every kept series is in the data and its name is selected |
| `Dashboard.SelectedAppend` | src/components/Dashboard/Dashboard.tsx:80-82 | filtering distributes over concatenation, so the relative order of the data is kept |
| `Dashboard.SelectedMembership` | src/components/Dashboard/Dashboard.tsx:80-82 | a series is kept iff it is in the data and its name is selected |
| `Dashboard.SelectedLength` | src/components/Dashboard/Dashboard.tsx:80-82 | no more series than in the data; all of them when every name is selected |
| `Dashboard.SelectedIgnoresSelectionOrder` | src/components/Dashboard/Dashboard.tsx:80-82 | two selections with the same members give the same series in the same order |
| `Dashboard.FilteredShape` | src/components/Dashboard/Dashboard.tsx:79-92 | shown length is the number of selected series plus one, the sentinel is last, the rest are exactly the selected series |
| `Dashboard.Cutoff` | src/components/Dashboard/Dashboard.tsx:63 | the history cutoff lies exactly one hour (3 600 000 ms) before the load time |
| `Dashboard.GetInputQuery` | src/components/Dashboard/Dashboard.tsx:64-68 | one input element per metric, in order |
| `Dashboard.InputQueryCarriesMetricAndCutoff` | src/components/Dashboard/Dashboard.tsx:66 | element i holds metric i after the opening text and the cutoff's digits before the closing brace |
| `Dashboard.QueryEntry` | src/components/Dashboard/Dashboard.tsx:66 | the element is the opening text and the metric, then the separator and the cutoff's text, then the closing text; its length is the sum of those parts |
| `Dashboard.QueryEntryInjective` | src/components/Dashboard/Dashboard.tsx:66 | different metrics give different input elements |
| `Dashboard.Placeholder` | src/components/Dashboard/Dashboard.tsx:146 | the placeholder carries the metric, time 0, an empty unit and a value whose text is `0` |
| `Dashboard.Placeholders` | src/components/Dashboard/Dashboard.tsx:144-148 | one `{metric, 0, 0, ""}` entry per catalog name, in catalog order |
| `Dashboard.PlaceholderCardShowsZero` | src/components/Dashboard/Dashboard.tsx:144-148 | before any live reading a selected catalog metric's card reads `0` |
| `Dashboard.FindSeries` | src/components/Dashboard/Dashboard.tsx:167 | first series bearing the name, -1 exactly when none does |
| `Dashboard.ReplaceByName` | src/components/Dashboard/Dashboard.tsx:171-177 | same length; every series of that name replaced, the others kept |
| `Dashboard.ReplaceLatest` | src/components/Dashboard/Dashboard.tsx:180-182 | same length; every entry of the event's metric replaced by the event, the others kept |
| `Dashboard.SameEvent` | src/components/Dashboard/Dashboard.tsx:162-164 | two events are the same iff they are equal once the unit is ignored; the relation is symmetric |
| `Dashboard.AppendPoint` | src/components/Dashboard/Dashboard.tsx:169-170 | one more x value (the event's time) and one more y value (its value) at the end, the old points kept, every other field unchanged |
| `Dashboard.Accepts` | src/components/Dashboard/Dashboard.tsx:159-168 | an event is applied iff the subscription is not loading, an event was delivered, it differs from the last accepted one on at, value or metric, and some series bears its metric |
| `Dashboard.Step` | src/components/Dashboard/Dashboard.tsx:158-188 | the numbers of series and of latest values are kept; the state is unchanged unless the event is accepted, and then the event becomes the last accepted one |
| `Dashboard.DuplicateIgnored` | src/components/Dashboard/Dashboard.tsx:158-165 | an event equal to the last accepted one on at, value and metric changes nothing, whatever its unit |
| `Dashboard.UnknownMetricIgnored` | src/components/Dashboard/Dashboard.tsx:167-168 | an event for a metric no series bears leaves series, latest values and last event unchanged |
| `Dashboard.EventsBeforeBootstrapDropped` | src/components/Dashboard/Dashboard.tsx:158-168 | with no series loaded every event is dropped |
| `Dashboard.EarlyEventsLeaveNoTrace` | src/components/Dashboard/Dashboard.tsx:158-168 | any number of events before the bootstrap leave the empty series and the initial last event unchanged |
| `Dashboard.LastEarlyEventAppliedOnLoad` | src/components/Dashboard/Dashboard.tsx:142-188 | events before the bootstrap leave no series and the initial last event; once the series load, the last of them, when it differs from the initial last event and its metric has a series, becomes the last event, and with distinct series names adds exactly one point |
| `Dashboard.AcceptedEffects` | src/components/Dashboard/Dashboard.tsx:169-184 | for distinct names, one point (at, value) at the end of the matching series and the other series unchanged; entries of that metric become the event and the others stay; the event becomes the last accepted one |
| `Dashboard.SameNamedSeriesMerged` | src/components/Dashboard/Dashboard.tsx:167-177 | where two series share the event's name, both become the first one plus the new point |
| `Dashboard.RedeliveryIdempotent` | src/components/Dashboard/Dashboard.tsx:158-184 | delivering the same event twice in a row has the effect of delivering it once |
| `Dashboard.StepKeepsNames` | src/components/Dashboard/Dashboard.tsx:169-178 | the step keeps the number, order and names of the series |
| `Dashboard.StepKeepsWellFormed` | src/components/Dashboard/Dashboard.tsx:169-170 | every series keeps as many y values as x values |
| `Dashboard.AcceptedAddsOnePoint` | src/components/Dashboard/Dashboard.tsx:169-178 | an accepted event adds exactly one point in total |
| `Dashboard.AlternatingEventsAllAccepted` | src/components/Dashboard/Dashboard.tsx:158-184 | events A, B, A for known metrics, with A new and B different from A, add three points |
| `Dashboard.RunOnlyAppends` | src/components/Dashboard/Dashboard.tsx:158-188 | after any run of events every series still starts with its old points, and names stay distinct |
| `Dashboard.CardShowsAcceptedEvent` | src/components/Dashboard/Dashboard.tsx:179-184 | after an accepted event for a selected metric with an entry, its card shows the event's value and unit |
| `Dashboard.SingleMetricScenario` | src/components/Dashboard/Dashboard.tsx:144-188 | one metric with one historical reading: the card reads `0` after bootstrap; after one live reading and one click the chart shows the two points in the palette's first colour plus the sentinel, and the card shows the live value and unit |
| `Dashboard.ScenarioSeries` | src/components/Dashboard/Dashboard.tsx:166-177 | in that scenario the live reading is appended to the bootstrapped series as its second point, keeping name, axis and colour |
| `Dashboard.DashboardState.constructor` | src/components/Dashboard/Dashboard.tsx:127-133 | empty names, selection, series and latest values; the initial last event; only the sentinel shown |
| `Dashboard.DashboardState.InitialFetch` | src/components/Dashboard/Dashboard.tsx:135-151 | names stored first; on a node without readings nothing else changes; otherwise the series are built from the answer and the latest values are the placeholders |
| `Dashboard.DashboardState.OnMeasurement` | src/components/Dashboard/Dashboard.tsx:158-188 | new series, latest values and last event are `Step` of the old ones; the shown series are recomputed |
| `Dashboard.DashboardState.Toggle` | src/components/Dashboard/Dashboard.tsx:153-156 | the selection is toggled and the shown series are recomputed; series and latest values unchanged |
| `Dashboard.SingleMetricSession` | src/components/Dashboard/Dashboard.tsx:135-188 | the same scenario driven through the component state's methods (mount, bootstrap, one reading, one click): the chart shows both points and the sentinel, the card the live value and unit |
| `Dashboard.EarlyEventSession` | src/components/Dashboard/Dashboard.tsx:127-188 | on the component's state: an event at mount is dropped, and after the bootstrap the same event becomes the series' second point and the last event |

## Left out

- Fetching: the catalog query, the history query text (`getDataQuery`), `client.query` and the subscription are outside the model. The catalog, the history answer and each delivered event are parameters. A failing query is not modelled.
- React scheduling is left out. Each effect run is one method call. The shown series are recomputed in every method that changes the series or the selection. The bootstrap's two state updates, the series (Dashboard.tsx:142) and the latest-value table (Dashboard.tsx:148), are modelled as one step. Unbatched rendering could run the live-update effect between them while the table is still empty. An event would then add its point but leave no latest-value entry; the model does not capture that interleaving.
- Aliasing is left out. The source pushes the new point onto the series object in place, and the shown series share that object. The model replaces values and recomputes the shown list, which gives the same final contents.
- `Date.now()` and `new Date(...)`: timestamps are integers, and the cutoff is `Cutoff(loadTime)` for a load time given as a parameter.
- Numbers are integers. Floating-point values and their text form are not modelled. `NumberToString` renders integers only.
- Types.NumberToString: always writes the exact decimal digits. A template literal does so only for magnitudes at most 2^53. Above 2^53 it writes the shortest digits that read back to the same double, padded with zeros (`1152921504606847000` for 2^60). From 10^21 on it switches to exponent notation (`1e+21`).
- Plotly fields other than points, name, axis, type and colour are not modelled.
- The palette position comes from `data.indexOf(node)`, an identity search. It is modelled as the node's position, because the decoded answer holds distinct node objects.
- Selection entries typed `undefined` are not modelled.
- `src/App.tsx`, `src/Features/Dashboard/Header.tsx` and `src/Features/Dashboard/MeasurementData.tsx` are rendering and client set-up. They are not part of this model.
- Dashboard.AcceptedEffects: assumes that the series have distinct names. With a repeated name the source overwrites the later series; `Dashboard.SameNamedSeriesMerged` states that case.
- Dashboard.AcceptedAddsOnePoint: assumes distinct series names, for the same reason.
- Dashboard.AlternatingEventsAllAccepted: assumes distinct series names, for the same reason.
- Dashboard.LastEarlyEventAppliedOnLoad: promises one added point only for distinct series names. With a repeated name the accepted event can change the total by more or less than one.
- Dashboard.RunOnlyAppends: assumes distinct series names. A repeated name can replace a later series' points.
- DashboardHeader.ToggleMembership: assumes a duplicate-free selection, which `DashboardState` keeps as an invariant.
- DashboardHeader.ToggleTwicePresentMovesToEnd: assumes a duplicate-free selection, for the same reason.
- DashboardHeader.ToggleTwiceRestoresMembership: assumes a duplicate-free selection, for the same reason.
