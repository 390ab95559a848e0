# Spread dashboard state engine

A Dafny model of the state engine inside the spread dashboard's single React component, `src/App.jsx`. The dashboard lists spread pairs page by page. The user ticks buy or sell series, and the dashboard charts their history. It can also overlay a live push feed. The model covers the logic that reconciles the selection, the listing pages, the historical response and the push events into the chart's datasets:

- **Selection store** (`selection.dfy`, module `Selection`). It holds the ordered list of `{spread, buyOrSell}` entries. `Select` appends an entry unconditionally. `Deselect` filters out every entry with the same `(pair.pk, side)` key.
- **Query variables and paging** (`query.dfy`, module `Query`). This covers `{first, offset}` for the listing query, `pairsParams` for the historical query and `pairsIds` for the subscription. It also has the guards of the Prev and Next buttons.
- **Colour slot cache** (`colors.dfy`, module `Colors`). `colors` is indexed by a dataset's position in the chart. `Splice` is the slot updater, with JavaScript's clamping `slice`. The render checks every slot against its snapshot of the array and queues an updater for each empty one. The model proves that this gives the same result as checking each request against the current array.
- **Historical series assembler** (`assembly.dfy`, module `Assembly`). It builds one dataset per response series, in response order:
  - The side is inferred from the first sample's `buySpread`.
  - The owner is the first matching entry.
  - The label has the form `"<name> (<side>)"`.
  - There is one point per sample.

  A series that no entry owns makes the render throw. An empty series is one of these.
- **Live merger** (`live_merge.dfy`, module `LiveMerge`). Each entry of the pushed pair appends one point to the first dataset that carries its label. `MergeLive` runs that loop in place on an `array<Dataset>`, against the specification function `Merge`.
- **Dashboard** (`dashboard.dfy`, module `Dashboard`). The class `Dashboard` holds the component's state fields, and its methods are the event handlers. `ChartView` composes the assembly with the live merge into what one render hands to the chart. The class invariant is that pages start at 1 and that live mode always charts by the minute.

Some stand-ins replace what the model cannot see:
- `toPercentage` is the parameter `pct`.
- `getRandomColor` is the parameter `draw`: the three channels it draws, formatted by `RgbString`.
- Remote results are inputs: the historical response, an `Option<seq<Series>>`, and the latest push event, an `Option<PushEvent>`.

The model follows the code as written, including where it departs from what the dashboard evidently aims at:
- Selecting does not prevent duplicates.
- An unmatched historical series crashes the render instead of being dropped.
- `pairsIds` keeps one id per entry, so a pair selected on both sides is subscribed to twice.
- `chartData` is rebuilt from the historical response on every render, and the live merge then pushes the latest event onto that fresh copy. So live points do not accumulate across renders: each render shows the historical points plus one point per matching entry for the latest event.
- Labels are built from the pair's name, not its pk, and the live merge finds a dataset by label. So a live point can land on the dataset of another pair with the same name.

## Model

| member | source | states |
|---|---|---|
| `Common.LabelInjective` | src/App.jsx:130 | two labels `"<name> (<side>)"` are equal only when both the pair names and the sides are equal |
| `Selection.SelectAppendsOne` | src/App.jsx:111-112 | selecting appends exactly the entry `{spread, buyOrSell}` at the end and keeps every earlier entry; there is no duplicate check, so the count of entries with that key goes up by one even when the key is already present |
| `Selection.Deselect` | src/App.jsx:113-116 | the result keeps the entries in their original relative order (it is a subsequence of the selection), holds no entry with the removed `(pk, side)` key, and is shorter by exactly the number of entries with that key, so every other entry survives |
| `Selection.DeselectMembership` | src/App.jsx:114-116 | an entry is in the result if and only if it was selected and its key differs from the removed one |
| `Selection.DeselectAbsent` | src/App.jsx:114-116 | deselecting a key that no entry has leaves the selection unchanged |
| `Selection.SelectThenDeselect` | src/App.jsx:110-117 | if `(pk, side)` was absent, selecting it and then deselecting it restores the original selection exactly |
| `Selection.SelectTwiceThenDeselect` | src/App.jsx:110-117 | if the same key is selected twice from an absent start, one deselection removes both copies and restores the original selection |
| `Query.RowOnExactlyOnePage` | src/App.jsx:84-89 | with `first = count` and `offset = count*(page-1)` and a positive page size, a row index is inside a page's window if and only if that page is `row / count + 1` |
| `Query.PairsParams` | src/App.jsx:92-97 | `pairsParams` has one element per selection entry, in selection order, holding that entry's pair pk and side |
| `Query.PairsIds` | src/App.jsx:151 | `pairsIds` has one pk per selection entry, in selection order, with duplicates kept |
| `Query.PairsIdsMatchParams` | src/App.jsx:151 | the subscription's ids are, position by position, the ids of the historical query's parameters |
| `Query.SelectExtendsQueries` | src/App.jsx:92-97 | selecting extends `pairsParams` and `pairsIds` by exactly the new entry's parameters, at the end |
| `Query.BothSidesSubscribeTwice` | src/App.jsx:151 | from any selection, selecting both sides of one pair appends that pair's pk twice to `pairsIds` |
| `Query.PrevPage` | src/App.jsx:305 | from any page at or above 1, the page after a click on Prev is still at or above 1: the disabled button at page 1 keeps the page from reaching 0 |
| `Query.NextPage` | src/App.jsx:306 | from any page at or above 1, the page after a click on Next is still at or above 1 |
| `Query.DivisorPageSizeStops` | src/App.jsx:306 | when the page size divides 100, clicks on Next from page 1 advance one page each up to page `100 / count` and then leave the page there |
| `Query.DefaultPageSizeNeverStops` | src/App.jsx:306 | with the initial page size 6, every click on Next advances the page, so after `n` clicks from page 1 the page is `1 + n` |
| `Query.DefaultPageSizePassesHundred` | src/App.jsx:306 | with page size 6, after 17 clicks on Next from page 1 the listing asks for offset 102, past the 100 rows the guard is meant to stop at |
| `Query.IntendedOffsetBounded` | src/App.jsx:306 | with the guard `page*count >= 100`, however often Next is clicked from page 1, the page stays at 1 or above and the listing offset stays below 100, for every page size |
| `Colors.RgbString` | src/App.jsx:322-327 | the colour text `rgb(r, g, b)` is never empty, so a slot that received it is truthy |
| `Colors.Splice` | src/App.jsx:133 | for an index inside the array, the updater keeps the length and changes only that slot, to the new colour; for an index at or past the end, it appends the colour at position `len(colors)`, not at `index` |
| `Colors.FillSlot` | src/App.jsx:132-135 | a set slot is never overwritten; an empty slot inside the array is filled in place and nothing else changes; past the end the colour is appended |
| `Colors.SpliceKeepsLater` | src/App.jsx:133 | the updater for slot `i` never changes any slot after `i` |
| `Colors.QueuedMatchesSequential` | src/App.jsx:131-135 | checking the slots of one render against the render's snapshot and then applying the queued updaters in order gives the same array as checking each request against the current array |
| `Colors.FillsCoverAndKeep` | src/App.jsx:131-135 | after the requests for `n` datasets, every slot below `n` holds a colour, and every slot that held one keeps the same colour |
| `Assembly.FindOwnerFrom` | src/App.jsx:126-128 | the result is the first entry whose pk equals the series' pair and whose side matches; it is absent exactly when no entry matches |
| `Assembly.SeriesPoints` | src/App.jsx:138-141 | one point per sample, in order; the point's `x` is the sample's timestamp and its `y` is `pct` of the buy spread when that is truthy, else of the sell spread |
| `Assembly.AssembleFrom` | src/App.jsx:123-145 | the assembly succeeds if and only if every series has an owner. On success there is one dataset per series, in response order, each the dataset of its own series. Otherwise the error is the index of the first series without an owner. |
| `Assembly.AssembledDatasets` | src/App.jsx:123-145 | each assembled dataset is labelled with the first entry whose pk is the series' pair and whose side is buy exactly when the first sample's `buySpread` is truthy; it has one point per sample with that sample's timestamp, and the colour of the snapshot's slot at its index |
| `Assembly.UnmatchedSeriesFails` | src/App.jsx:124-129 | an empty series, or one no entry owns, makes the assembly fail at that series or an earlier one |
| `Assembly.AlignedResponseMatchesSelection` | src/App.jsx:92-145 | when the selection has no duplicate keys and the response answers `pairsParams` in order, the assembly succeeds with exactly one dataset per entry, each labelled with its entry |
| `LiveMerge.Targets` | src/App.jsx:159 | the targets are exactly the selection entries of the pushed pk, in selection order |
| `LiveMerge.FirstTitled` | src/App.jsx:163 | the result is the first dataset carrying the label; it is absent exactly when none does |
| `LiveMerge.MergeKeepsFrame` | src/App.jsx:160-168 | the merge keeps every dataset in place with its label and colour; only points change |
| `LiveMerge.MergeAppendsRoutedPoints` | src/App.jsx:160-168 | each dataset gains exactly the points the targets route to it: per target, one point on the first dataset carrying its label, with `y` from the buy or sell field by the entry's side. The points go after the dataset's own, and a dataset no target routes to is unchanged. |
| `LiveMerge.MergeCrashesIffMissing` | src/App.jsx:163-164 | the loop crashes if and only if some target's label is carried by no dataset, and then the label it reports is such a label |
| `LiveMerge.MergeLive` | src/App.jsx:159-168 | the in-place loop leaves the dataset array and the crash report exactly as the specification `Merge` describes |
| `Dashboard.OffModeIgnoresEvents` | src/App.jsx:155-156 | while live mode is off, the pushed event never changes any dataset of the chart |
| `Dashboard.LiveViewExtendsHistory` | src/App.jsx:120-170 | in a live render, each dataset keeps its historical label and colour, and shows its series' historical points followed by exactly the live points routed to it |
| `Dashboard.RoutedDatasetMatchesNameAndSide` | src/App.jsx:130-163 | the dataset the live merge finds for a target, by label, belongs to a series whose owning entry has the target's pair name and side, and whose inferred side is the target's side |
| `Dashboard.DrawChart` | src/App.jsx:120-170 | the datasets one render computes, with the merge run in place, are those of the specification `ChartView` |
| `Dashboard.Dashboard.constructor` | src/App.jsx:75-82 | the initial state: page size 6, page 1, minute time frame, live mode off, empty selection and colours |
| `Dashboard.Dashboard.Prev` | src/App.jsx:305 | the page becomes `PrevPage` of the old page, one definition of the guard: kept at 1, otherwise decremented; the class invariant holds |
| `Dashboard.Dashboard.Next` | src/App.jsx:306 | the page becomes `NextPage` of the old page: kept when `page*count == 100`, otherwise incremented; the class invariant holds |
| `Dashboard.Dashboard.SetCount` | src/App.jsx:301 | the page size becomes the input's value and the page is kept |
| `Dashboard.Dashboard.SetTimeFrame` | src/App.jsx:202 | the time frame changes only while live mode is off |
| `Dashboard.Dashboard.SetLive` | src/App.jsx:104-108 | entering live mode forces the time frame to minutes; leaving it keeps the time frame |
| `Dashboard.Dashboard.OnSpreadSelectChange` | src/App.jsx:110-118 | a click on a checkbox: while live the checkboxes are disabled and the selection is kept; otherwise a ticked box appends the entry and an unticked one filters out its `(pair.pk, side)` key |
| `Dashboard.Dashboard.RequestColors` | src/App.jsx:131-135 | the colours become the queued updates of the empty snapshot slots below `reached`; set slots keep their colour and every slot below `reached` ends set |
| `Dashboard.Dashboard.Render` | src/App.jsx:120-170 | a render returns `ChartView` of the state at its start, and queues colour requests for the series the assembly gets through before it finishes or throws |

## Findings

| source | as written | input that shows it | evidently intended | confidence | as-written member | corrected member |
|---|---|---|---|---|---|---|
| src/App.jsx:306 | Next is disabled only when `page * count === 100` | page size 6, the initial value: `6 * page` is never 100, so after 17 clicks on Next from page 1 the listing asks for offset 102 | stop at the end of the first 100 rows, `page * count >= 100` | not executed | `Query.DefaultPageSizePassesHundred` | `Query.IntendedOffsetBounded` |

The class `Dashboard` keeps the guard as written, because that guard is how the program behaves. The corrected guard is stated and proved in `Query.NextDisabledIntended` and `Query.IntendedOffsetBounded`.

## Left out

- The JSX and the react-bootstrap widgets are presentation only and are not modelled. The same goes for the table rendering and the chart.js options and display formats (src/App.jsx:172-314). Disabled widgets are modelled where they guard state: the time-frame selector and the buy and sell checkboxes while live (src/App.jsx:202, 277, 291), and the Prev and Next buttons (src/App.jsx:305-306).
- The Apollo `useQuery` and `useSubscription` transport and its `loading` and `error` flags (src/App.jsx:84-102, 121, 149-155, 172) are foreign library and network calls. Their results are inputs: the historical response is an `Option<seq<Series>>`, and the latest push event is an `Option<PushEvent>`.
- `toPercentage` (src/App.jsx:318-320) is floating-point multiplication and `toFixed` formatting. It is the uninterpreted parameter `pct`.
- `getRandomColor` (src/App.jsx:322-327) is randomness. Its three channels come in through the parameter `draw`, and `RgbString` formats them. The range of `Math.floor(Math.random() * 255)`, which is 0 to 254, is not modelled.
- The number input stores its text in `count` (src/App.jsx:301). That JavaScript coercion is not modelled: `count` is an integer.
- The start and end date pickers (src/App.jsx:211-228) are not modelled as state. `HistoricalVariables` passes the dates through unchanged.
- React's scheduling is not modelled. This covers the render in which `isLive` is already true but the effect at src/App.jsx:104-108 has not yet reset the time frame, and React's handling of state updates queued by a render that throws. `SetLive` applies the effect at once, and `Render` states the colour requests up to the series where the assembly throws.
- Timestamps are kept as text, and pair keys as integers compared with `==`, like `===` on values of one type.
