# stocktrends-analyzer: a Dafny model of the trend pipeline and its widgets

stocktrends-analyzer is a Next.js page. It loads the monthly price bars of one
stock from Alpha Vantage. The page (`pages/index.js`) renders:

- a plain symbol input, `components/SearchBar.jsx`, which upper-cases what is
  typed and searches on Enter;
- a table of periods, with the rising and falling counts above it;
- the heatmap of those periods by year, `components/Heatmap.jsx`.

The grouping code handles the weekly, monthly, quarterly and yearly
timeframes. The page's selector offers only monthly and yearly, because the
weekly and quarterly options are commented out at `pages/index.js:175-178`.
The model keeps all four branches of the grouping as written.

Three more components are in the repository, and this project models them as
written, although the page renders none of them:

- the dropdown search box `pages/components/SearchBar.jsx`;
- the price chart `components/StockChart.jsx`, used only by
  `components/ChartHeatmapLayout.jsx`, which nothing imports;
- the ticker strip `components/StockTicker.jsx`, imported nowhere.

The project models the logic of these pieces and proves what each promises:

- `stock_data.dfy` (`StockData`): the `/api/stock-data` handler. It
  decides the HTTP status (400, 404, 500 or 200) and turns the provider's
  `Monthly Time Series` into bars, oldest first. The provider's reply is a
  parameter.
- `trends.dfy` (`Trends`): `groupByTimeframe`, `filterByDateRange`,
  `calculateInsights` and the BULLISH/BEARISH label of the table.
  - The grouping is an imperative pass (`FileBars`, `GroupByTimeframe`). It is proved
    equal to a specification (`GroupSpec`).
  - The output follows the key order of `Object.entries`: all-digit yearly
    names come out in ascending numeric order, other names in first-seen order.
- `heatmap.dfy` (`Heatmap`):
  - `organizeData`, a method whose loop fills the grid and the two sets;
  - the three colour functions, the timeframe detection and the row labels;
  - the per-year totals, a method whose loop accumulates them.
- `autocomplete.dfy` (`Autocomplete`): the dropdown search box. It has pure transition
  functions and a class `SearchBar` whose methods update its four fields.
- `stock_ticker.dfy` (`StockTicker`) and `stock_chart.dfy` (`StockChart`):
  the figures derived from the bars.
- `prices.dfy`, `text.dfy`, `seqs.dfy`, `wrappers.dfy`: dates and bars,
  two-decimal rounding, digits and strings, and sequence helpers.

Prices are `real`. `parseFloat(x.toFixed(2))` is `Prices.Round2`: the nearest
multiple of 0.01, with ties away from zero. A date is a (year, month, day) triple.

Facts about the program that the model follows:

- The handler calls only Alpha Vantage. There is no fallback to other providers and
  no coverage rule.
- The range filter drops a period name that does not parse as a date,
  because such a name compares false against the cutoff.
- The insights of an empty table are `null` (`None`), not an error.
- The grouped rows come out in `Object.entries` order. For the yearly
  timeframe that is not plain insertion order.

## Model

| member | source | states |
|---|---|---|
| StockData.ToBar | pages/api/stock-data.js:26-32 | a bar's date is the series member's key; open, high, low and close are its `1. open` to `4. close` fields |
| StockData.NormalizeSeries | pages/api/stock-data.js:25-34 | one bar per series entry, same length, in reverse entry order |
| StockData.Respond | pages/api/stock-data.js:17-45 | status is 200, 404 or 500. A thrown error gives 500 with its message. 404, naming the symbol, is given exactly when the reply has a non-empty `Error Message`. A missing series gives 500 `No data available`. 200 is given exactly otherwise, with the symbol, the reversed bars and `dataPoints` equal to their number |
| StockData.Handle | pages/api/stock-data.js:1-45 | 400 `Symbol is required` exactly when the symbol is missing or empty; otherwise the provider's answer decides |
| StockData.MissingSymbolIgnoresProvider | pages/api/stock-data.js:4-6 | without a symbol the response is the same whatever the provider would answer, so nothing is fetched |
| StockData.ErrorMessageBeforeSeries | pages/api/stock-data.js:17-23 | an error message gives 404 even when a series is also present |
| StockData.NewestFirstBecomesOldestFirst | pages/api/stock-data.js:34 | series listed newest first become bars strictly ascending by date |
| Trends.PeriodIndex | pages/index.js:49-56 | definition: the week of the month, the month or the quarter of a day (0 for a year); characterised by Trends.WeekOfMonth and Trends.QuarterOf |
| Trends.IndexText | pages/index.js:49-56 | definition: `W` plus the week, the month padded to two digits, or `Q` plus the quarter; characterised by Trends.IndexTextInjective and Heatmap.IndexTextParses |
| Trends.PeriodKey | pages/index.js:49-58 | definition: the year text, then for the non-yearly timeframes a dash and the index text; characterised by Trends.KeySplit, Trends.SameKeySamePeriod and Heatmap.KeyLetters |
| Trends.WeekOfMonth | pages/index.js:50 | `ceil(day/7)` is the week w in 1..5 with 7(w-1) < day <= 7w |
| Trends.QuarterOf | pages/index.js:55 | `floor((month-1)/3)+1` is the quarter q in 1..4 with 3(q-1) < month <= 3q |
| Trends.IndexTextInjective | pages/index.js:49-56 | outside the yearly timeframe, different indices give different name suffixes (`W3`, `03`, `Q1`) |
| Trends.KeySplit | pages/index.js:49-56 | a weekly, monthly or quarterly name splits at its `-` into the year text and the index suffix |
| Trends.SameKeySamePeriod | pages/index.js:49-58 | two days share a period name iff they share the year and the week, month or quarter index |
| Trends.KeyList | pages/index.js:45-59 | the period name of every bar, in data order |
| Trends.BucketNonEmpty | pages/index.js:61-64 | a name has a non-empty bucket exactly when some bar is filed under it |
| Trends.Pushed | pages/index.js:61-64 | filing a bar under a name appends it to that name's list, which starts empty when the name is new; every other list is unchanged |
| Trends.Push | pages/index.js:61-64 | the loop's create-then-push update files the bar as `Pushed` does, and the name joins the key order iff it was new |
| Trends.EntriesOrder | pages/index.js:67 | `Object.entries` order is a permutation of the insertion order |
| Trends.EntriesOrderOfNamedKeys | pages/index.js:67 | with no array-index keys the insertion order is kept |
| Trends.EntriesOrderOfIndexKeys | pages/index.js:58-67 | array-index keys come out sorted by numeric value |
| Trends.GroupPartitions | pages/index.js:45-67 | the rows' names are distinct and are exactly the names of the bars, each bar's name appearing |
| Trends.FirstOpensOfBars | pages/index.js:67-71 | the grouping's requirement that each period's first open is non-zero is, bar by bar, a non-zero open on every bar that no earlier bar shares a name with |
| Trends.BucketsConserveBars | pages/index.js:45-64 | every bar is pushed into exactly one bucket: the buckets of the period names together hold each bar as often as the data does, and their lengths add up to the number of bars |
| Trends.BucketEnds | pages/index.js:61-69 | a bucket's first item is the first bar with its name, its last item the last such bar |
| Trends.Summarize | pages/index.js:67-80 | definition of one row: the first open, the last close, their difference and the rounded percentage over the first open; characterised by Trends.GroupOpenClose |
| Trends.SummarizeEntries | pages/index.js:67-80 | the `map` over the entries gives one row per name, in entries order, each the summary of that name's array |
| Trends.GroupOpenClose | pages/index.js:67-79 | every row's open is the first open of its period, its close the last close, change is close minus open and the percentage is the rounded change over open |
| Trends.GroupOrderFirstSeen | pages/index.js:45-67 | weekly, monthly and quarterly rows come out in the order their names were first met |
| Trends.GroupOrderYearly | pages/index.js:57-67 | yearly rows come out in strictly ascending year, whatever the bar order, and each is the year of some bar |
| Trends.FileBars | pages/index.js:43-65 | the loop's dictionary holds for each name exactly the bars with that name in order, and its key order is first-seen order |
| Trends.GroupByTimeframe | pages/index.js:40-81 | the imperative grouping returns exactly the specified rows |
| Trends.RangeYears | pages/index.js:87-103 | only `1y`, `3y`, `5y` and `10y` select a window, of 1, 3, 5 or 10 years |
| Trends.YearsBefore | pages/index.js:88-89 | `setFullYear(year - n)` keeps month, day and time; 29 February rolls to 1 March in a non-leap year; the result is not after now |
| Trends.FilterByDateRange | pages/index.js:84-106 | any other range returns the rows unchanged. A window keeps exactly the rows whose name parses to a moment at or after the cutoff (inclusive) and drops unparseable ones, keeping as many rows as the data holds such rows. The result is an order-preserving subsequence |
| Trends.WindowsNest | pages/index.js:84-106 | a longer window keeps every row a shorter one keeps, in order |
| Trends.BestIndex | pages/index.js:117 | the reduce picks a largest percentage, the first one on ties |
| Trends.WorstIndex | pages/index.js:118 | the reduce picks a smallest percentage, the first one on ties |
| Trends.CalculateInsights | pages/index.js:111-132 | `None` iff the table is empty. bullish and bearish count percentages above and below zero, so together they are at most the length. best and worst are the first rows at the largest and smallest percentage. The average is the rounded mean; the total return is the rounded move from the first open to the last close |
| Trends.SumPercentBounds | pages/index.js:116 | the sum of n percentages between lo and hi lies between n·lo and n·hi |
| Trends.RoundedMeanBounds | pages/index.js:116-118 | the rounded mean percentage lies between the smallest and the largest percentage, up to half a cent |
| Trends.AverageBetweenWorstAndBest | pages/index.js:116-118 | the average return lies between the worst and best percentage, up to half a cent of rounding |
| Trends.TrendLabel | pages/index.js:280 | the label is BULLISH iff the percentage is not negative, otherwise BEARISH |
| Trends.LabelsAgreeWithCounts | pages/index.js:114-115 | the BULLISH labels of the table (pages/index.js line 280) are exactly the rows not counted bearish, and they include every row counted bullish |
| Trends.TrendData | pages/index.js:108 | no loaded data gives an empty table; otherwise the grouped rows filtered by the range |
| Heatmap.IndexPart | components/Heatmap.jsx:26-42 | definition: no part or an empty one is row 0; a part starting with `Q` or `W` is `parseInt` of the rest; any other part is `parseInt` of the whole; characterised by Heatmap.IndexTextParses |
| Heatmap.ParsePeriod | components/Heatmap.jsx:16-42 | definition: the year is the text before the first dash and the row number is read from the text after it; characterised by Heatmap.ParsePeriodOfKey |
| Heatmap.ParsePeriodOfKey | components/Heatmap.jsx:16-42 | splitting a name built by the grouping gives back its year text and its index (0 for a year, `parseInt` of `03` is 3, `Q`/`W` stripped) |
| Heatmap.IndexTextParses | components/Heatmap.jsx:26-40 | the part after `-` of a weekly, monthly or quarterly name reads back as its index |
| Heatmap.KeyLetters | pages/index.js:49-58 | a name contains `-` iff it is not yearly, `Q` iff it is quarterly and `W` iff it is weekly |
| Heatmap.DistinctKeysDistinctCells | components/Heatmap.jsx:16-49 | rows with different names from one grouping are read into different cells |
| Heatmap.DetectTimeframe | components/Heatmap.jsx:96-103 | definition: yearly without a dash, else quarterly with a `Q`, else weekly with a `W`, else monthly; characterised by Heatmap.DetectTimeframeOfKey |
| Heatmap.DetectTimeframeOfKey | components/Heatmap.jsx:96-103 | the timeframe read from a name is the one the name was built with |
| Heatmap.OrganizeCell | components/Heatmap.jsx:46-49 | a cell is empty iff no row reads as its number and year; otherwise it holds the last such row (later rows overwrite earlier ones) |
| Heatmap.WithCell | components/Heatmap.jsx:46-49 | the row gains the cell, and is created when missing; every other row is unchanged |
| Heatmap.SetCell | components/Heatmap.jsx:46-49 | the create-then-assign update gives the grid with that cell set |
| Seqs.SetAdd | components/Heatmap.jsx:20-44 | `Set.add` on a set listed in insertion order: the list is unchanged when the value is present, otherwise the value is appended |
| Heatmap.OrganizeData | components/Heatmap.jsx:9-57 | the loop builds the specified grid. The years are the distinct year texts sorted as strings; the numbers are the distinct indices sorted numerically |
| Heatmap.YearAxis | components/Heatmap.jsx:20-54 | the year axis is strictly ascending and holds exactly the rows' years |
| Heatmap.PeriodAxis | components/Heatmap.jsx:44-55 | the row axis is strictly ascending and holds exactly the rows' numbers |
| Heatmap.TierValue | components/Heatmap.jsx:65-70 | the band of a value follows the limits 10, 5, 0, -5 and -10, each inclusive |
| Heatmap.TierMonotone | components/Heatmap.jsx:65-70 | a higher percentage never falls in a lower band |
| Heatmap.GetColor | components/Heatmap.jsx:62-71 | the cell is grey exactly when the value is missing |
| Heatmap.GetTotalColor | components/Heatmap.jsx:77-86 | the total is yellow exactly when the value is missing |
| Heatmap.GetTotalTextColor | components/Heatmap.jsx:88-93 | a missing value gives gray text; otherwise the text is green iff the value is not negative, red iff negative |
| Heatmap.ColoursFollowBand | components/Heatmap.jsx:62-93 | both colours are their palette's entry for the value's band (six distinct bands), and the total text is green in the top three |
| Heatmap.GetPeriodName | components/Heatmap.jsx:105-117 | definition: `Year`, `Qn`, `Wn`, or the month name with the number itself outside 1..12; characterised by Heatmap.PeriodNamesDistinct |
| Heatmap.PeriodNamesDistinct | components/Heatmap.jsx:105-117 | outside the yearly view, different row numbers get different labels (`Qn`, `Wn`, month names, or the number itself) |
| Heatmap.YearCellsMembers | components/Heatmap.jsx:194-196 | the cells a year's total counts are exactly the filled cells of its column |
| Heatmap.YearTotal | components/Heatmap.jsx:189-203 | the loop counts the filled cells of the year and sums their dollar changes. The average is their rounded mean percentage, or 0 when there are none |
| Heatmap.YearAverageBounds | components/Heatmap.jsx:203 | a year's average lies between its worst and best cell, up to half a cent |
| Heatmap.YearTotals | components/Heatmap.jsx:189-204 | one total per year of the axis, in axis order, each holding that year's average, dollar sum and cell count |
| Heatmap.RenderHeatmap | components/Heatmap.jsx:4-204 | nothing iff the data is empty. Otherwise it has the detected timeframe, the grid, both axes and one total per year, in axis order |
| Autocomplete.Matches | pages/components/SearchBar.jsx:62-64 | definition: the symbol contains the value or the upper-cased name does; characterised through Text.IncludesIff |
| Autocomplete.Suggest | pages/components/SearchBar.jsx:61-65 | the first ten matching table entries in table order (`filter` then `slice(0, 10)`): as many as there are matches, up to ten, forming a prefix of all the matches; when fewer than ten are offered, every match is offered |
| Autocomplete.SuggestFirst | pages/components/SearchBar.jsx:61-65 | the first suggestion is the first matching table entry |
| Autocomplete.MoveDown | pages/components/SearchBar.jsx:87-89 | the new highlight is the next row, `(prev + 1) mod len`, so it is 0 iff nothing was highlighted or the last row was |
| Autocomplete.MoveUp | pages/components/SearchBar.jsx:93-95 | from a highlighted row the new highlight is the previous row, `(prev - 1) mod len`; it is the last row iff the first row or nothing was highlighted |
| Autocomplete.ArrowsInverse | pages/components/SearchBar.jsx:85-96 | on a highlighted row, Up undoes Down and Down undoes Up, wrap-around included |
| Autocomplete.InputChanged | pages/components/SearchBar.jsx:55-73 | the symbol is upper-cased and the highlight reset. Non-empty input shows its suggestions; empty input clears and hides them |
| Autocomplete.KeyDown | pages/components/SearchBar.jsx:76-111 | Enter searches iff the list is hidden or empty, or nothing is highlighted and the symbol is non-empty. Enter selects iff a row is highlighted in a shown list. On a shown, non-empty list ArrowDown and ArrowUp move the highlight by `MoveDown` and `MoveUp` and change nothing else. An Enter that does not select changes no state. Escape hides a non-empty list and does nothing else; any other key changes nothing. Only Enter and Escape change visibility, only the arrows and Enter change the highlight, and the state stays consistent |
| Autocomplete.Selected | pages/components/SearchBar.jsx:114-118 | selection sets the stock's symbol, clears and hides the list and resets the highlight |
| Autocomplete.EscapeOnlyHides | pages/components/SearchBar.jsx:105-107 | Escape on a shown list only hides it |
| Autocomplete.DownEnterPicksFirst | pages/components/SearchBar.jsx:85-104 | typing, ArrowDown and Enter select the first suggestion, a table entry matching the input |
| Autocomplete.Focused | pages/components/SearchBar.jsx:136 | focus shows the list iff it was shown or the symbol is non-empty, and changes nothing else |
| Autocomplete.SearchBar.constructor | pages/components/SearchBar.jsx:49-52 | the box starts with the page's symbol (a prop), no suggestions, the list hidden and no highlight |
| Autocomplete.SearchBar.HandleInputChange | pages/components/SearchBar.jsx:55-73 | the fields become the input transition of the old state and stay consistent |
| Autocomplete.SearchBar.HandleKeyDown | pages/components/SearchBar.jsx:76-111 | the fields and the outcome are the key transition of the old state |
| Autocomplete.SearchBar.SelectStock | pages/components/SearchBar.jsx:114-118 | the fields become the selected state |
| Autocomplete.SearchBar.HandleFocus | pages/components/SearchBar.jsx:136 | the fields become the focus transition of the old state |
| StockTicker.PreviousPrice | components/StockTicker.jsx:8 | the close before the last, unless there is none or it is 0, in which case the first open |
| StockTicker.Ticker | components/StockTicker.jsx:2-14 | nothing iff there are no bars. Otherwise the fields are: latest = the last close; change = latest minus previous, and positive iff not negative; high = a largest high; low = a smallest low; range = their difference |
| StockTicker.RangeNotNegative | components/StockTicker.jsx:11-12 | with each low at most its high, the range `high - low` is not negative |
| StockTicker.PercentAgreesWithColour | components/StockTicker.jsx:10-14 | from a positive previous price, the rounded percentage's sign never contradicts the colour |
| StockChart.ChartData | components/StockChart.jsx:11-16 | one point per bar, in order, with date, close, high and low |
| StockChart.TickInterval | components/StockChart.jsx:74 | the interval k is `floor(n/6)`: 6k <= n < 6(k+1) |
| StockChart.Chart | components/StockChart.jsx:7-171 | nothing iff there are no bars. Otherwise: latest = the last close; high and low = a largest and a smallest close; the domain is low·0.95 to high·1.05; the change is the rounded move from the first open; the colour is green iff the raw change is not negative |
| StockChart.DomainContainsCloses | components/StockChart.jsx:18-20 | with non-negative prices every close lies inside the padded domain |
| StockChart.LatestBetweenLowAndHigh | components/StockChart.jsx:158-166 | the latest close lies between the low and the high shown |
| StockChart.ChangeUp | components/StockChart.jsx:170 | from a positive first open, the figure is green iff the last close is at least the first open |
| StockChart.ChangeColourAgreesWithFigure | components/StockChart.jsx:170-171 | from a positive first open, the colour agrees with the sign of the printed change |
| StockChart.TickerEnclosesChart | components/StockTicker.jsx:7-12 | the ticker and the chart show the same latest close, and the ticker's low and high enclose the chart's |
| Prices.Round2 | pages/index.js:71-78 | the result is a whole number of cents; a non-negative x lies in [r - 0.005, r + 0.005) and a negative one in (r - 0.005, r + 0.005], so ties go away from zero; it never has the opposite sign |
| Prices.PercentChange | pages/index.js:70-71 | from a positive price, a positive percentage means a rise and a negative one a fall; no move gives 0 |
| Prices.MaxOf | components/StockTicker.jsx:11 | `Math.max` over a non-empty list is an element that no element exceeds |
| Prices.MinOf | components/StockTicker.jsx:12 | `Math.min` over a non-empty list is an element that no element undercuts |
| Text.ToUpper | pages/components/SearchBar.jsx:56 | `toUpperCase` keeps the length and maps each character by its upper-case letter (ASCII); applying it twice is applying it once (Text.ToUpperIdempotent) |
| Text.ParseInt | components/Heatmap.jsx:32-40 | `parseInt` is NaN exactly when the text does not start with a digit; decimal numerals, padded or not, read back as their value (Text.ParseIntOfNatToString) |
| Text.SplitJoin | components/Heatmap.jsx:16-18 | `split('-')` of two dash-free parts joined by a dash gives the two parts back; a text without a dash is its own first part and has no second |
| Text.IncludesIff | pages/components/SearchBar.jsx:63-64 | `includes` holds exactly when the text occurs at some position |
| Text.LexLessIsStrictWeakOrder | components/Heatmap.jsx:54 | the default `sort()` order on the year texts is a strict total order, hence a consistent comparator |
| Seqs.Dedup | components/Heatmap.jsx:54-55 | `Array.from(new Set(...))`: no element twice, the same elements, and no longer than the input |
| Seqs.SortIsSorted | components/Heatmap.jsx:54-55 | `sort` with a strict weak order gives a sorted permutation (the permutation is `Seqs.Sort`'s own ensures) |

## Left out

- Network I/O: the `fetch` calls and the HTTP writes. The provider's reply
  and the response are plain values. The page's loading and error state
  (`fetchStockData`) is not part of this model.
- Floating point: prices are exact reals. `toFixed(2)` followed by `parseFloat` is `Round2`.
  Decimal formatting of the figures (`toFixed` strings) is not modelled.
- Dates: `new Date(item.date)`, local-time getters and timezones are left
  out. Bars carry (year, month, day) triples. The current moment and the parsing of a period name back into a
  moment are parameters of `Trends.FilterByDateRange`.
- Trends.ParsedBars: every bar's date must be within the getters' ranges (year 0 to 275760, month 1 to 12, day 1 to 31).
- Trends.GroupByTimeframe: requires `FirstOpensNonZero`, a non-zero open on the first bar of each period, the only
  open the percentage divides by. A zero there makes the JavaScript percentage `Infinity` or `NaN`, which `real`
  cannot express. Zero opens on the other bars are allowed. Trends.GroupSpec and Trends.TrendData require the same.
- Trends.CalculateInsights: a zero first open is excluded for the same reason.
- StockTicker.Ticker: a zero previous price gives no percentage (`None`) instead of `Infinity` or `NaN`.
- StockChart.Chart: a zero first open gives no percentage (`None`) instead of `Infinity` or `NaN`.
- Heatmap.OrganizeData: every row name must read as a number. A `NaN` index,
  sorted with the comparator `a - b`, has an engine-dependent position.
- React: hooks, JSX, recharts drawing, Tailwind classes other than
  those the colour functions choose, the chart type switch, and the locale date formatting of the chart axis.
- SearchBar timing: the `setTimeout` that submits the search after a selection and the one that hides the list on blur.
  A selection is reported as the `Select` outcome.
- The contents of the static stock table: the table is a parameter of the search box.
- components/SearchBar.jsx, the input the page renders: it upper-cases the input and calls the
  search on Enter, with a static help panel and no suggestions. It is not part of this model;
  the dropdown box models the same upper-casing and Enter handling.
- components/ChartHeatmapLayout.jsx: it only places the chart above the heatmap. It is not part of this model.
- Text.ToUpper: upper-cases ASCII letters only. JavaScript's `toUpperCase` also maps other
  Unicode letters (`é` to `É`) and can lengthen a string (`ß` to `SS`); the model has no Unicode case tables.
  This affects `Autocomplete.InputChanged` and `Autocomplete.Matches` on non-ASCII input.
- Text.ParseInt: reads a leading run of decimal digits only. JavaScript's `parseInt` also skips
  leading white space and accepts a sign and a `0x` prefix. The names built by the grouping have none of these.
- StockData.Respond: requires `WellFormed`, so it covers only series entries that carry all four price
  fields, and so does StockData.Handle. In the source a missing field makes `parseFloat(undefined)` give `NaN`, and the answer is still
  200; `real` cannot express `NaN`.
