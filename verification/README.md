# Plant blooming calendar: a Dafny model of the sunburst component's logic

The component draws a two-ring radial chart. The outer ring has one arc per
season and the inner ring one arc per month. Hovering a month arc shows that
month's blooming plants: a short preview in the centre of the chart and the
full list in a panel below it. Its logic has three parts, and this project
models and proves each one:

- **Ring data** (`bloom_tables.dfy`, `rings.dfy`, `sunburst.dfy`). The
  static season table, plant table and season colour table come first. The
  outer ring's `seasonData` gets one slice per season, weighted by the
  season's month count. The inner ring's `monthData` is the season table
  flattened into unit-weight month slices. `MonthRing` is the reference
  definition of the flattening. `BuildMonthRing` walks the table the way the
  component's nested `forEach`/`push` does, and is proved equal to it. The
  properties are stated first for any season table and then for the static
  one. The static facts are: twelve month slices in a fixed order, four
  seasons each weighing a quarter of the ring, and no table lookup that can
  miss.
- **Hover state** (`hover.dfy`). The state is the pair `activeIndex` /
  `selectedMonth`, with `None` standing for `null`. `onPieEnter` and
  `onPieLeave` are its only transitions. The invariant `Valid` says the two
  fields are either both absent, or the index is a slice and the month is
  that slice's name. The lemmas show that `Valid` holds in every reachable
  state, that enter followed by leave returns to the initial state, and that
  the last event alone decides the state.
- **Displayed text** (`text.dfy`, `view.dfy`). `Join` models
  `Array.prototype.join`. The centre preview shows the first three plants
  joined by `", "`, followed by `"..."` exactly when the list is longer than
  three. The centre overlay shows either the prompt or the month, the label
  `Blooming:` and the preview. The detail panel, titled
  `<month> Blooming Plants:`, lists every plant of the month.

The model follows the code on the following points:

- The comment on the month-ring construction says the seasons, and the
  months within each season, are walked in reverse. The code only copies the
  arrays (`[...seasons]`, `[...season.months]`), so the order is season-table
  order, then month-list order. `Sunburst.StaticMonthOrder` pins down the
  resulting order: February first, March last. The clockwise look comes from
  the table listing the seasons and months latest-first, not from any
  reversal.
- The centre overlay and the panel test `selectedMonth` for JavaScript
  truthiness. The model does the same in `View.Shown`: present and non-empty.
  For the static table every month name is non-empty, so a month is shown
  exactly while a slice is active (`View.ValidStateShowsActiveMonth`).
- `onPieEnter` first sets `activeIndex` to the index and only then reads
  `monthData[index].name`, which throws for an index that is not a slice.
  Such a call would leave a half-updated state: the new `activeIndex` next
  to the old `selectedMonth`, which breaks the invariant. The chart library
  only reports indices of slices it drew, so `Hover.OnPieEnter` requires
  `0 <= index < |monthData|` and event sequences are restricted the same way
  (`Hover.InRange`).

## Model

| member | source | states |
|---|---|---|
| BloomTables.AllMonths | src/SimplePlantBloomingSunburst.jsx:8-13 | Lists every month a season names, and nothing but months some season names, season by season |
| BloomTables.StaticAllMonths | src/SimplePlantBloomingSunburst.jsx:8-13 | The season table lists, season by season, February, January, December, November, October, September, August, July, June, May, April, March |
| BloomTables.StaticMonthsDistinct | src/SimplePlantBloomingSunburst.jsx:8-13 | The season table names twelve months and none of them twice |
| BloomTables.StaticMonthsAreKeys | src/SimplePlantBloomingSunburst.jsx:8-29 | The months of the season table are exactly the keys of the plant table, so the four seasons partition the twelve plant months |
| BloomTables.StaticSeasonNamesDistinct | src/SimplePlantBloomingSunburst.jsx:8-13 | No two seasons share a name, so a month slice's season name identifies one season |
| BloomTables.StaticLookupsTotal | src/SimplePlantBloomingSunburst.jsx:8-57 | Every month a season lists has a plant list, and every season has a colour |
| Rings.SeasonRing | src/SimplePlantBloomingSunburst.jsx:32-35 | The outer ring has one slice per season, in table order, carrying the season's name and its month count as weight |
| Rings.SeasonMonths | src/SimplePlantBloomingSunburst.jsx:42-48 | One season contributes one slice per month of its list, in list order, each with that month's name, the season's name and weight 1 |
| Rings.MonthRing | src/SimplePlantBloomingSunburst.jsx:38-49 | The month ring has one slice per month listed by the season table, and every slice weighs 1 |
| Rings.SeasonRingTotal | src/SimplePlantBloomingSunburst.jsx:32-49 | The season slices' weights (each its season's month count) add up to the number of month slices |
| Rings.MonthRingAppend | src/SimplePlantBloomingSunburst.jsx:38-49 | Flattening two season tables one after the other gives the two flattenings concatenated |
| Rings.OffsetStep | src/SimplePlantBloomingSunburst.jsx:40-48 | Each season's months start right after all months of the seasons before it |
| Rings.OffsetMonotone | src/SimplePlantBloomingSunburst.jsx:40-48 | The start position of a season's months never decreases along the table |
| Rings.MonthRingAt | src/SimplePlantBloomingSunburst.jsx:40-48 | Month j of season k sits at position Offset(k) + j, carrying its own name, its season's name and weight 1 |
| Rings.MonthRingLocate | src/SimplePlantBloomingSunburst.jsx:40-48 | Every month slice is month j of some season k, found at position Offset(k) + j, so the ring holds nothing else |
| Rings.MonthRingOrder | src/SimplePlantBloomingSunburst.jsx:40-48 | Slices are ordered by season first and by month within a season, with no reversal |
| Rings.MonthRingBacklink | src/SimplePlantBloomingSunburst.jsx:42-47 | A month slice's season field names a season whose month list contains that month |
| Rings.RingLookupsTotal | src/SimplePlantBloomingSunburst.jsx:122-147 | If the plant and colour tables cover the season table, no month slice's plant or colour lookup and no season slice's colour lookup misses |
| Rings.MonthRingNames | src/SimplePlantBloomingSunburst.jsx:38-49 | The month ring's names, in ring order, are exactly the season table's months season by season, as `AllMonths` lists them |
| Rings.BuildMonthRing | src/SimplePlantBloomingSunburst.jsx:38-49 | The nested copy-and-push walk over seasons and their months produces exactly the reference flattening |
| Sunburst.StaticMonthOrder | src/SimplePlantBloomingSunburst.jsx:38-49 | The inner ring is the twelve months from February (Winter) to March (Spring), each weight 1 with its season's name, in table order and not reversed |
| Sunburst.StaticSeasonShares | src/SimplePlantBloomingSunburst.jsx:32-35 | The outer ring has four slices, the weights sum to the twelve month slices, and each season's weight is a quarter of the total |
| Sunburst.StaticLookupsNeverMiss | src/SimplePlantBloomingSunburst.jsx:122-147 | Every month slice's plant and colour lookup and every season slice's colour lookup succeeds |
| Sunburst.StaticSeasonOfMonth | src/SimplePlantBloomingSunburst.jsx:40-47 | For the static table a slice's season field is exact: a season lists the slice's month if and only if it is the season the slice names |
| Sunburst.StaticMonthDataPartition | src/SimplePlantBloomingSunburst.jsx:8-49 | The inner ring has twelve slices, no two with the same month, and their months are exactly the plant table's keys |
| Hover.OnPieEnter | src/SimplePlantBloomingSunburst.jsx:64-68 | Entering slice i makes i active, and the result satisfies the invariant, so the selected month is slice i's name |
| Hover.OnPieLeave | src/SimplePlantBloomingSunburst.jsx:71-74 | Leaving clears both the active index and the selected month |
| Hover.Step | src/SimplePlantBloomingSunburst.jsx:64-74 | Whatever the state before, an enter or leave event yields a valid state in which a slice is active exactly when the event entered one, and then it is the entered slice |
| Hover.Run | src/SimplePlantBloomingSunburst.jsx:60-74 | Delivering a non-empty sequence of events, or any sequence from a valid state, ends in a valid state |
| Hover.InitialValid | src/SimplePlantBloomingSunburst.jsx:60-61 | The initial state, with both fields null, satisfies the invariant |
| Hover.StepPreservesValid | src/SimplePlantBloomingSunburst.jsx:60-74 | Every enter or leave keeps the invariant tying the active index to the selected month |
| Hover.RunPreservesValid | src/SimplePlantBloomingSunburst.jsx:60-74 | Every state reached by any sequence of events from a valid state is valid |
| Hover.EnterThenLeave | src/SimplePlantBloomingSunburst.jsx:64-74 | Entering a slice and then leaving returns exactly to the initial state |
| Hover.EnterThenEnter | src/SimplePlantBloomingSunburst.jsx:64-68 | Entering i and then j equals entering j alone: no earlier hover survives |
| Hover.RunLastEventWins | src/SimplePlantBloomingSunburst.jsx:60-74 | After a run of events the state is the start state if there were none, the initial state if the last was a leave, and slice i hovered if the last entered i |
| Text.Join | src/SimplePlantBloomingSunburst.jsx:211 | A non-empty join starts with the first element and is as long as all elements plus one separator per gap |
| Text.JoinConcat | src/SimplePlantBloomingSunburst.jsx:211 | Joining two non-empty lists is joining each with one separator between the results |
| Text.JoinThree | src/SimplePlantBloomingSunburst.jsx:211 | Three names joined are the first, the separator, the second, the separator and the third |
| Text.JoinLoop | src/SimplePlantBloomingSunburst.jsx:211 | The left-to-right join, with a separator before every element but the first, equals the reference join |
| Text.Preview | src/SimplePlantBloomingSunburst.jsx:211-212 | A list of at most three plants is previewed in full, joined by ", ", with no ellipsis; a longer list as its first three plants in order, joined by ", ", followed by one "..." |
| Text.PreviewIsFullListIff | src/SimplePlantBloomingSunburst.jsx:211-212 | The preview equals the whole joined list if and only if the list has at most three plants |
| View.CentreOf | src/SimplePlantBloomingSunburst.jsx:204-219 | The centre shows the prompt exactly when no month is selected, and otherwise the month, "Blooming:" and the month's preview |
| View.PanelOf | src/SimplePlantBloomingSunburst.jsx:225-242 | The panel is present exactly when a month is selected, titled "<month> Blooming Plants:" and listing the month's whole plant list |
| View.MonthNamesShown | src/SimplePlantBloomingSunburst.jsx:204 | Every month name of the inner ring is non-empty, so the truthiness tests at lines 204 and 225 show whichever month a slice selects |
| View.ValidStateShowsActiveMonth | src/SimplePlantBloomingSunburst.jsx:204-212 | In every valid state a month is shown exactly while a slice is active, and its plant lookup succeeds |
| View.InitialView | src/SimplePlantBloomingSunburst.jsx:215-225 | Before any hover the centre reads "Hover over a month to see plants" and there is no panel |
| View.HoverView | src/SimplePlantBloomingSunburst.jsx:204-242 | After hovering slice i, the centre shows its month and the preview of its plants, and the panel lists all of them under the month's title |
| View.PanelAfterRun | src/SimplePlantBloomingSunburst.jsx:225-242 | After any event sequence the plant lookup succeeds, and the panel is present exactly when the last event entered a slice |
| View.JulyScenario | src/SimplePlantBloomingSunburst.jsx:21 | Hovering slice 7 (July) gives the panel "July Blooming Plants:" over Lily, Sunflower, Hydrangea, Daylily and the preview "Lily, Sunflower, Hydrangea..." |
| View.FebruaryScenario | src/SimplePlantBloomingSunburst.jsx:28 | Hovering slice 0 (February) gives the panel over Snowdrop, Winter Aconite and the preview "Snowdrop, Winter Aconite" with no ellipsis |

## Left out

- Chart drawing by the charting library (`PieChart`, `Pie`, `Cell`, `Sector`, the active shape's 6-pixel larger outer radius, the reduced opacity of month arcs): foreign code whose drawing behaviour is not visible. The model stops at the data handed to it and the colour lookups.
- Month label placement (`1800 - (index / N) * 360` degrees, then cosine and sine): floating-point trigonometry.
- Season label pixel offsets, inline styles, the heading and the hex colour values as visual output: presentational constants with no stated behaviour. Only the colour table's keys matter to the model.
- React's state scheduling and re-rendering: the two state fields are modelled as one plain record, updated together by each handler.
- Hover.OnPieEnter: indices outside the month ring are excluded by a precondition rather than modelled, and `Hover.Run`, `Hover.RunPreservesValid` and `View.PanelAfterRun` hold only for event sequences without them. On such an index the component would set `activeIndex` and then throw before setting `selectedMonth`, leaving a half-updated state outside the invariant; the chart library never reports such an index.
