# Stock options chart: a verified model of its analytics core

The stock-options-chart application reads a text file of option contract
symbols such as `TSLA250620P00280000`: a ticker, the expiration `YYMMDD`, `C` or
`P`, and the strike in thousandths of a dollar written with 8 digits. It groups the
contracts by ticker and draws one scatter chart per ticker. The chart shows days
until expiration against the strike, with a dashed line at the closing price. Two
chart models add to a price history: support/resistance levels found from pivot
bars, and probability cones projected from the log returns of the closing prices.

This Dafny project models that core and proves what it computes:

- `decimal.dfy` (module `Decimal`) covers digit runs, `parseInt` on them, `String(n)`
  and `padStart(2, '0')`.
- `calendar.dfy` (module `Calendar`) covers proleptic Gregorian dates, the
  whole-day count of `calculateDaysUntilExpiration` and the `YYYY-MM-DD` text of
  `getToday`. The current date is passed in as a parameter.
- `contract_symbol.dfy` (module `ContractSymbol`) covers the symbol grammar
  `^([A-Z]+)(\d{6})([CP])(\d{8})$` and both parsers. `parseContract` throws on a
  bad symbol, modelled as `Result`. `parseContractLine` returns null, modelled as
  `Option`. The module also defines the inverse `FormatSymbol`, and proves the
  round trips in both directions.
- `contract_examples.dfy` (module `ContractExamples`) holds the worked examples of
  the sources as concrete lemmas.
- `chart_series.dfy` (module `ChartSeries`) covers `generateChartData` in both
  copies: chart.ts on the server and src/App.tsx in the browser. It also covers the
  browser's expiration filter `filterContracts`. The day count of each contract,
  which the source reads from the clock, is a parameter `daysOf`.
- `contract_loader.dfy` (module `ContractLoader`) covers the batch part of
  `loadContractsData`:
  - the text is split into lines, each line is trimmed and blank lines are dropped;
  - each line is parsed and malformed lines are skipped;
  - the contracts are grouped by ticker in a loop, and the tickers are sorted;
  - each group goes through the expiration filter, and empty groups are left out.
- `support_resistance.dfy` (module `SupportResistance`) covers `isPivotHigh`,
  `isPivotLow` and `computeSupportResistance`, as the loops they are.
- `probability_cone.dfy` (module `ProbabilityCone`) covers `sma`, `median`, `stdev`,
  `absoluteDeviation` and `calculateProbabilityCones`. Numbers are exact reals. A
  JavaScript NaN or infinity is `None`. `Math.exp`, `Math.log` and `Math.sqrt` are
  the fields of a value of type `Analytic`, and properties that need their laws
  assume `Lawful(f)`.
- `wrappers.dfy` (module `Wrappers`) holds `Option`, `Result` and
  `Array.prototype.filter`.

Strikes are kept as the integer number of thousandths written in the symbol. The
strike in dollars, `Strike(c)`, is that number divided by 1000, as the source
computes it.

A call struck at 100 with a close of 90 is sometimes described as "at risk". The code
(chart.ts:49 and chart.ts:80) marks a call as at risk only when its strike is below the
close, so that call is not at risk. The model follows the code.

A one-step cone without drift is sometimes described as starting at the anchor price.
The code (src/ChartModels/ProbabilityCone.ts:144-146) gives step 0 the value
`anchor * exp(mean)` whenever drift is off, because the mean is then not scaled by the
step number. Step 0 is the anchor itself only with drift and a closed anchor bar
(`FirstStepIsAnchor`). The model follows the code.

## Model

| member | source | states |
|---|---|---|
| `Decimal.DigitsOfValue` | contract.ts:24 | a number written with enough zero-padded digits reads back as that number |
| `Decimal.ValueDigitsOf` | contract.ts:24 | a digit run read with `parseInt` and written back at its width gives the same run, leading zeros included |
| `Decimal.NatStringValue` | src/utils.ts:8-11 | `String(n)` reads back as `n` |
| `Decimal.NatStringLength` | src/utils.ts:8 | `String(n)` has exactly as many characters as `n` has significant digits |
| `Decimal.PadStart2Value` | src/utils.ts:9-10 | `padStart(2, '0')` on digits keeps them digits and keeps their value |
| `Decimal.PaddedField` | src/utils.ts:9-10 | a month or day below 100, stringified and padded, is exactly two digits that read back as it |
| `Calendar.DaysUntilExpiration` | src/utils.ts:36-43 | the whole-day count is 0 on the same date, positive for a later expiration date, negative for an earlier one |
| `Calendar.SameDayIffZero` | src/utils.ts:38-42 | the count is 0 exactly when both date-times fall on the same calendar date, whatever the times of day |
| `Calendar.DaysUntilAntisymmetric` | src/utils.ts:41-42 | swapping the two date-times negates the count |
| `Calendar.DaysUntilAdditive` | src/utils.ts:41-42 | counts add up along a chain of three date-times |
| `Calendar.DaysUntilNextDay` | src/utils.ts:39-42 | an expiration one calendar day later is one more day away, across month and year ends |
| `Calendar.NextDayNumber` | src/utils.ts:39-41 | consecutive calendar dates get consecutive day ordinals |
| `Calendar.DayNumberOrder` | src/utils.ts:39-41 | day ordinals follow chronological order, and two valid dates share an ordinal only when they are equal |
| `Calendar.FromMonthIndex` | src/utils.ts:22-24 | `new Date(year, monthIndex, day)` with the 1-based month `monthIndex + 1`; the date is valid exactly when `monthIndex` is 0 to 11 and the day lies within that month of that year |
| `Calendar.GetTodayFormat` | src/utils.ts:5-12 | `GetToday` (the current date is a parameter): for a four-digit year the text is exactly `YYYY-MM-DD`, and its three fields read back as the date's year, 1-based month and day |
| `ContractSymbol.UpperPrefixLength` | contract.ts:10 | the length of the longest all-upper-case prefix: everything before it is `A`-`Z`, and the next character is not |
| `ContractSymbol.MatchSplitIsUnique` | contract.ts:10 | the pattern can only end the ticker group at the end of the leading upper-case run, so the capture groups are unique |
| `ContractSymbol.WellFormedIffMatches` | contract.ts:10-13 | the executable test accepts exactly the strings the regular expression matches |
| `ContractSymbol.SymbolGroups` | contract.ts:15 | the four groups of a matching symbol have the shapes of the pattern and concatenate back to the symbol |
| `ContractSymbol.GroupsOfConcatenation` | contract.ts:15 | the symbol built from four well-shaped groups matches and yields exactly those groups |
| `ContractSymbol.KindOf` | contract.ts:29 | the type is CALL exactly for `C` |
| `ContractSymbol.ParseContract` | contract.ts:8-32 | throws `Invalid contract format` with the symbol exactly when the pattern does not match; otherwise the ticker is the symbol's prefix, the year is in 2000-2099, the strike has at most 8 digits, and CALL/PUT follow the type letter |
| `ContractSymbol.ParseContractLine` | src/utils.ts:14-33 | null exactly when the pattern does not match; otherwise the ticker, year `2000 + YY`, zero-based month index `MM - 1`, day, kind and strike are those of the groups |
| `ContractSymbol.LineParserAgrees` | src/App.tsx:51-75 | the null-returning parser (in src/utils.ts and its copy in src/App.tsx) returns null where `parseContract` throws, and otherwise the same contract |
| `ContractSymbol.ParseOfFields` | contract.ts:15-31 | the contract built by `ContractOfGroups` from the match groups: a symbol assembled from well-shaped fields parses to the contract those fields denote |
| `ContractSymbol.DateField` | contract.ts:17-21 | the date digits of a contract are six digits |
| `ContractSymbol.FormatSymbol` | contract.ts:8-32 | the symbol written for a contract is the ticker plus 15 characters |
| `ContractSymbol.DateFieldValues` | contract.ts:17-21 | the `YY`, `MM` and `DD` digits written for a contract read back as its year minus 2000, its month and its day |
| `ContractSymbol.ContractOfFormatGroups` | contract.ts:15-31 | decoding the fields written for a contract gives the contract back |
| `ContractSymbol.ParseFormat` | contract.ts:8-32 | parsing the symbol of any encodable contract succeeds with that contract |
| `ContractSymbol.ContractOfGroupsEncodable` | contract.ts:17-24 | every contract the parser builds can be written back as a symbol |
| `ContractSymbol.DateFieldOfGroups` | contract.ts:17-21 | writing back the date decoded from six date digits gives the same six digits |
| `ContractSymbol.FormatContractOfGroups` | contract.ts:15-31 | writing back the contract decoded from well-shaped groups gives the symbol the groups form |
| `ContractSymbol.FormatParse` | contract.ts:8-32 | every accepted symbol is the symbol of the contract it parses to, so parsing loses nothing |
| `ContractExamples.JuneDateField` | contract.ts:9 | the date digits `250620` read as year 25, month 6, day 20 |
| `ContractExamples.MayDateField` | src/utils.ts:15 | the date digits `250523` read as year 25, month 5, day 23 |
| `ContractExamples.JuneStrikeField` | contract.ts:23 | the strike digits `00280000` read as 280000 thousandths |
| `ContractExamples.MayStrikeField` | src/utils.ts:25 | the strike digits `00315000` read as 315000 thousandths |
| `ContractExamples.ParseContractExample` | contract.ts:9 | `TSLA250620P00280000` parses to a TSLA put at 280 expiring on 2025-06-20 |
| `ContractExamples.ParseContractLineExample` | src/utils.ts:15 | `TSLA250523P00315000` parses to a TSLA put at 315 expiring on 2025-05-23 |
| `ContractExamples.LowerCaseTickerRejected` | contract.ts:10-13 | a lower-case ticker is refused with the format error |
| `ContractExamples.ShortDateRejected` | contract.ts:10-13 | a date field one digit short is refused with the format error |
| `ChartSeries.ValidContracts` | chart.ts:23-27 | a contract is kept exactly when its day count survives: above 0 in chart.ts, 0 or above in src/App.tsx |
| `ChartSeries.HoverPct` | chart.ts:32-46 | the hover percentage exists exactly for a non-zero close, and it is never positive for an at-risk leg |
| `ChartSeries.HoverSign` | chart.ts:32-46 | for a positive close the hover percentage is negative exactly for the at-risk legs: calls struck below the close and puts struck above it |
| `ChartSeries.PointOf` | chart.ts:49-59 | a marker sits at the contract's day count and its strike in dollars, and is an `x` exactly when the leg is at risk |
| `ChartSeries.Points` | chart.ts:54-55 | one marker per contract, in order |
| `ChartSeries.DayCounts` | chart.ts:76 | the day counts are those of the given contracts, one per contract |
| `ChartSeries.MaxOf` | chart.ts:77 | `Math.max` of a non-empty list is one of its entries and is at least every entry |
| `ChartSeries.InsertUnique` | chart.ts:96 | inserting into a strictly increasing list keeps it strictly increasing and adds exactly that value |
| `ChartSeries.SortedUnique` | chart.ts:96 | the distinct day counts, sorted: strictly increasing and holding exactly the values of the input |
| `ChartSeries.MaxWithOne` | chart.ts:115 | `Math.max(...ticks, 1)` is at least 1 and every tick, and is either 1 or a tick |
| `ChartSeries.GenerateChartData` | chart.ts:11-123 | the chart keeps the ticker, draws one to three traces and always the price line last, has strictly increasing ticks, and has an x-range from 0 to at least 2 |
| `ChartSeries.PlotDataShape` | chart.ts:94 | the trace filter keeps a marker trace exactly when it has points, and always keeps the price line |
| `ChartSeries.MarkersAreSurvivingContracts` | chart.ts:29-73 | `CallTrace` and `PutTrace`: each trace draws exactly the surviving contracts of its kind; no marker has a filtered-out day count |
| `ChartSeries.CallsPutsPartition` | chart.ts:29-30 | calls and puts split the surviving contracts, each as often as it occurs |
| `ChartSeries.LineColorRule` | chart.ts:79-82 | `PriceLineOf`: the price line is red exactly when some surviving call is struck below the close or some surviving put above it |
| `ChartSeries.LineSpan` | chart.ts:75-92 | the price line runs at the close from day 0 to the largest surviving day count plus one day (1 + 1 with no contract); in src/App.tsx it ends at the largest count itself |
| `ChartSeries.TicksAreSurvivingDays` | chart.ts:96 | the tick values are the distinct surviving day counts, strictly increasing |
| `ChartSeries.RangeCoversLine` | chart.ts:110-116 | the x-range starts at 0 and ends one past the largest tick, or at 2; it ends where the chart.ts price line ends, and past the src/App.tsx one |
| `ChartSeries.VariantsDiffer` | src/App.tsx:131-135 | the browser chart keeps exactly what the server chart keeps, plus the contracts expiring today |
| `ChartSeries.ExpiringTodayExample` | src/App.tsx:131-135 | a contract expiring today is drawn by src/App.tsx and dropped by chart.ts |
| `ChartSeries.FilterContracts` | src/App.tsx:317-326 | `none` returns the list unchanged; otherwise a contract is kept exactly when it is within 0-7 days for `week`, within 0-31 days for `month`, and always for any other value |
| `ChartSeries.FilterContractsIdempotent` | src/App.tsx:317-326 | applying the same filter twice changes nothing the second time |
| `ChartSeries.WeekWithinMonth` | src/App.tsx:322-323 | filtering by week after month is filtering by week |
| `ContractLoader.SplitLines` | src/App.tsx:350 | `split("\n")` gives at least one line and no line holds a line feed |
| `ContractLoader.JoinSplitLines` | src/App.tsx:350 | joining the split lines with line feeds gives the text back |
| `ContractLoader.LeadingSpace` | src/App.tsx:351 | the leading white space of a line ends at the first non-space character |
| `ContractLoader.TrailingSpaceStart` | src/App.tsx:351 | the trailing white space of a line starts after the last non-space character |
| `ContractLoader.Trim` | src/App.tsx:351 | `trim()` returns a slice with only white space cut off at both ends, does not start or end with white space, and is empty exactly for an all-space line |
| `ContractLoader.TrimIdempotent` | src/App.tsx:351 | trimming twice is trimming once |
| `ContractLoader.TrimmedLines` | src/App.tsx:349-352 | every kept line is the non-empty trim of some raw line, and every raw line that is not all space is kept trimmed |
| `ContractLoader.ParseLines` | src/App.tsx:353-355 | parsing a batch of lines yields at most one contract per line |
| `ContractLoader.ParseLinesMembers` | src/App.tsx:353-355 | a contract is in the batch exactly when some line parses to it |
| `ContractLoader.ParseLinesAppend` | src/App.tsx:353-355 | parsing a batch is parsing its parts one after the other, in order |
| `ContractLoader.MalformedLineSkipped` | src/App.tsx:354-355 | a malformed line is skipped, and the lines around it parse as if it were absent |
| `ContractLoader.FileContractsFromLines` | src/App.tsx:349-355 | `FileContracts`: a contract comes from the file exactly when some line of it, trimmed, parses to it |
| `ContractLoader.LexLessIrreflexive` | src/App.tsx:364 | no ticker sorts before itself |
| `ContractLoader.LexLessTransitive` | src/App.tsx:364 | the ticker order is transitive |
| `ContractLoader.LexLessTotal` | src/App.tsx:364 | of two distinct tickers one sorts before the other |
| `ContractLoader.InsertTicker` | src/App.tsx:364 | inserting a new ticker into sorted tickers keeps them sorted and adds exactly that ticker |
| `ContractLoader.SortTickers` | src/App.tsx:364 | the sorted tickers are strictly ascending and a permutation of the keys |
| `ContractLoader.OfTickerSnoc` | src/App.tsx:359-361 | one more contract extends the list of its own ticker and no other |
| `ContractLoader.TickerSetMembers` | src/App.tsx:358-362 | the tickers of a list are exactly those some contract of it carries |
| `ContractLoader.GroupStep` | src/App.tsx:359-361 | one iteration of the grouping loop keeps the map exact: each ticker seen maps to its contracts in input order, and the keys list each ticker once |
| `ContractLoader.GroupByTicker` | src/App.tsx:358-362 | after the loop the map holds, for exactly the tickers of the contracts, each ticker's contracts in order; the keys are distinct and are `FirstSeen(contracts)`, each ticker once in the order of its first occurrence |
| `ContractLoader.FirstSeenStep` | src/App.tsx:359-361 | one more contract appends its ticker to the first-seen keys exactly when the ticker is new |
| `ContractLoader.FirstSeenExtends` | src/App.tsx:358-362 | the keys of a prefix of the contracts are a prefix of the keys of all of them: later contracts only append tickers |
| `ContractLoader.LoadStep` | src/App.tsx:367-369 | one iteration of the filtering loop appends the next ticker's filtered group when it is not empty, in ticker order |
| `ContractLoader.LoadContracts` | src/App.tsx:349-370 | each group is `FilteredGroup` of its ticker: the groups come in strictly ascending ticker order; each is non-empty and is the filtered contracts of its ticker from the file; every ticker with a non-empty filtered group has a group |
| `SupportResistance.IsPivotHigh` | src/ChartModels/SupportResistance.ts:45-58 | true exactly when both windows fit in the data, the `left` highs before are strictly lower and the `right` highs after are not higher |
| `SupportResistance.IsPivotLow` | src/ChartModels/SupportResistance.ts:80-94 | true exactly when both windows fit in the data, the `left` lows before are strictly higher and the `right` lows after are not lower |
| `SupportResistance.Levels` | src/ChartModels/SupportResistance.ts:103-110 | at most one level per scanned index |
| `SupportResistance.LevelsSound` | src/ChartModels/SupportResistance.ts:103-110 | every level is at a scanned index, is a pivot there, and carries that bar's high (resistance) or low (support) |
| `SupportResistance.LevelsOrdered` | src/ChartModels/SupportResistance.ts:103-110 | levels come in strictly increasing bar order |
| `SupportResistance.LevelsComplete` | src/ChartModels/SupportResistance.ts:103-110 | every pivot at a scanned index has its level in the list |
| `SupportResistance.LevelsStep` | src/ChartModels/SupportResistance.ts:104-109 | scanning one more index appends its level exactly when it is a pivot |
| `SupportResistance.ComputeSupportResistance` | src/ChartModels/SupportResistance.ts:96-112 | the resistances and the supports are exactly the pivot-high and pivot-low levels of indices `leftBars .. data.length - rightBars - 1`, in order |
| `SupportResistance.ShortSeriesHasNoLevels` | src/ChartModels/SupportResistance.ts:103 | with no more bars than `leftBars + rightBars`, nothing is scanned and both lists are empty |
| `SupportResistance.LevelsHaveFullWindows` | src/ChartModels/SupportResistance.ts:49-55 | every level has `left` bars before it and `right` bars after it inside the data |
| `SupportResistance.FlatSeriesHasNoLevels` | src/ChartModels/SupportResistance.ts:49-51 | with a left window of at least one bar, a series of equal bars has no level |
| `SupportResistance.FlatHasNoPivot` | src/ChartModels/SupportResistance.ts:84-87 | in a flat series no bar is a pivot when the left window is not empty |
| `SupportResistance.LevelsRiseFromLeftNeighbour` | src/ChartModels/SupportResistance.ts:49-51 | a resistance's high is strictly above the bar before it, and a support's low strictly below |
| `SupportResistance.PivotHighsAreSeparated` | src/ChartModels/SupportResistance.ts:45-58 | two pivot highs are more than `min(left, right)` bars apart |
| `SupportResistance.PivotHighNarrower` | src/ChartModels/SupportResistance.ts:45-58 | a pivot high for some windows stays one for narrower windows |
| `SupportResistance.PivotLowIsMirroredHigh` | src/ChartModels/SupportResistance.ts:80-94 | pivot lows are the pivot highs of the upside-down series, and the other way round |
| `SupportResistance.SinglePeakExample` | src/ChartModels/SupportResistance.ts:96-112 | three bars whose middle one stands out give a single resistance at index 1 and no support |
| `ProbabilityCone.SliceBound` | src/ChartModels/ProbabilityCone.ts:91 | a `slice` bound is clamped into the array, and an in-range bound is kept |
| `ProbabilityCone.JsSlice` | src/ChartModels/ProbabilityCone.ts:91 | `slice(start, end)` is `arr[start..end]` for in-range bounds, the last `-start` entries for a negative start with the end at the length, and empty when the end is not after the start; never longer than the array |
| `ProbabilityCone.Insert` | src/ChartModels/ProbabilityCone.ts:41 | inserting into a sorted list keeps it sorted and adds exactly that value |
| `ProbabilityCone.SortedCopy` | src/ChartModels/ProbabilityCone.ts:41 | the sorted copy is ascending and a permutation of the input |
| `ProbabilityCone.SortedUnique` | src/ChartModels/ProbabilityCone.ts:41 | two ascending sequences with the same entries are equal, so the comparator sort has one possible result |
| `ProbabilityCone.Sma` | src/ChartModels/ProbabilityCone.ts:35-38 | for a positive period, NaN exactly when there are fewer entries than the period |
| `ProbabilityCone.SmaWindow` | src/ChartModels/ProbabilityCone.ts:37 | `slice(-period)` is the last `period` entries |
| `ProbabilityCone.SmaReadsOnlyTheTail` | src/ChartModels/ProbabilityCone.ts:37 | entries before the last `period` do not change the average |
| `ProbabilityCone.SmaConstant` | src/ChartModels/ProbabilityCone.ts:35-38 | the average of a constant series is that constant |
| `ProbabilityCone.Middle` | src/ChartModels/ProbabilityCone.ts:42-45 | NaN exactly for the empty array; otherwise between the least and the greatest entry of the sorted array |
| `ProbabilityCone.Median` | src/ChartModels/ProbabilityCone.ts:40-46 | NaN exactly for the empty array; otherwise between two entries of the input |
| `ProbabilityCone.MedianPermutation` | src/ChartModels/ProbabilityCone.ts:40-46 | the median depends only on the entries, not on their order |
| `ProbabilityCone.MedianOddIsEntry` | src/ChartModels/ProbabilityCone.ts:43-44 | for an odd count the median is one of the entries |
| `ProbabilityCone.MedianConstant` | src/ChartModels/ProbabilityCone.ts:40-46 | the median of a constant series is that constant |
| `ProbabilityCone.SquaredDeviations` | src/ChartModels/ProbabilityCone.ts:51 | each entry is the squared distance of the input entry from the mean |
| `ProbabilityCone.AbsoluteDeviations` | src/ChartModels/ProbabilityCone.ts:56 | each entry is the distance of the input entry from the mean |
| `ProbabilityCone.Stdev` | src/ChartModels/ProbabilityCone.ts:48-53 | for a positive period, NaN exactly when there are fewer entries than the period; otherwise never negative |
| `ProbabilityCone.StdevConstant` | src/ChartModels/ProbabilityCone.ts:48-53 | a constant series has standard deviation 0 |
| `ProbabilityCone.AbsoluteDeviation` | src/ChartModels/ProbabilityCone.ts:55-57 | NaN exactly for a NaN mean or an empty array; otherwise never negative |
| `ProbabilityCone.AbsoluteDeviationConstant` | src/ChartModels/ProbabilityCone.ts:55-57 | a constant series has absolute deviation 0 around itself |
| `ProbabilityCone.LaplaceDeviation` | src/ChartModels/ProbabilityCone.ts:100 | `sqrt(2 * absDev ** 2)` is NaN exactly when `absDev` is, and never negative |
| `ProbabilityCone.Finite` | src/ChartModels/ProbabilityCone.ts:94-100 | the window as reals exists exactly when every return in it is finite, and has the same entries |
| `ProbabilityCone.WindowStats` | src/ChartModels/ProbabilityCone.ts:94-100 | the standard, absolute and Laplace deviations of the window are never negative |
| `ProbabilityCone.WindowStatsOfFinite` | src/ChartModels/ProbabilityCone.ts:94-100 | for a window of finite returns the five statistics are the median, average, standard deviation, absolute deviation around the selected mean, and Laplace deviation of those returns |
| `ProbabilityCone.SelectMean` | src/ChartModels/ProbabilityCone.ts:103-113 | `Average` takes the average, `Median` the median, and `Auto` the average exactly for the `Standard` deviation |
| `ProbabilityCone.SelectDeviation` | src/ChartModels/ProbabilityCone.ts:116-127 | each deviation method selects its own statistic |
| `ProbabilityCone.LogReturns` | src/ChartModels/ProbabilityCone.ts:84-87 | one log return per pair of consecutive prices, entry `k` being the log of `source[k+1] / source[k]` |
| `ProbabilityCone.CollectLogReturns` | src/ChartModels/ProbabilityCone.ts:84-87 | the loop collects exactly the log returns of the series |
| `ProbabilityCone.AnchorOf` | src/ChartModels/ProbabilityCone.ts:90 | the anchor price exists exactly when the anchor index is inside the series |
| `ProbabilityCone.WindowEndsAtAnchor` | src/ChartModels/ProbabilityCone.ts:91 | `Window`: with enough history the window is the `lookback` returns that end at the anchor bar |
| `ProbabilityCone.Series` | src/ChartModels/ProbabilityCone.ts:140-168 | a series of `n` steps has `n` entries |
| `ProbabilityCone.SeriesValues` | src/ChartModels/ProbabilityCone.ts:140-168 | entry `i` of a series is its band's value at step `i` |
| `ProbabilityCone.StepValues` | src/ChartModels/ProbabilityCone.ts:152-165 | an upper and a lower band at step `i` are the anchor times `exp` of the cone mean plus or minus multiplier × deviation × `periodSqrt` |
| `ProbabilityCone.ForecastStep` | src/ChartModels/ProbabilityCone.ts:142-167 | the seven values of one step are the values of the mean and of the six bands at that step |
| `ProbabilityCone.Forecast` | src/ChartModels/ProbabilityCone.ts:140-168 | the loop fills the seven arrays with steps `0 .. forecastBars` of their series |
| `ProbabilityCone.CalculateProbabilityCones` | src/ChartModels/ProbabilityCone.ts:70-180 | the output is `Cones`, built from `ParamsOf`: the cone of the window statistics of the anchor's lookback window, over `forecastBars + 1` steps |
| `ProbabilityCone.ConeLengths` | src/ChartModels/ProbabilityCone.ts:140 | every output array has `forecastBars + 1` entries, or none for a negative count |
| `ProbabilityCone.ScaledExpMonotone` | src/ChartModels/ProbabilityCone.ts:146 | a positive anchor times `exp` is monotone |
| `ProbabilityCone.SpreadNonNegative` | src/ChartModels/ProbabilityCone.ts:152-153 | a band's distance from the log-mean is never negative for a non-negative deviation and multiplier |
| `ProbabilityCone.SpreadMonotone` | src/ChartModels/ProbabilityCone.ts:142-153 | the spread grows with the multiplier and with the step |
| `ProbabilityCone.BandsEncloseMean` | src/ChartModels/ProbabilityCone.ts:146-153 | with a positive anchor, every lower band is at most the mean price and every upper band at least it |
| `ProbabilityCone.BandsNest` | src/ChartModels/ProbabilityCone.ts:152-167 | a larger multiplier gives a higher upper band and a lower lower band |
| `ProbabilityCone.ConeWidens` | src/ChartModels/ProbabilityCone.ts:142-153 | without drift each upper band rises and each lower band falls from step to step |
| `ProbabilityCone.FirstStepIsAnchor` | src/ChartModels/ProbabilityCone.ts:142-146 | with drift and a closed anchor bar, step 0 of every series is the anchor price |
| `ProbabilityCone.FlatWindow` | src/ChartModels/ProbabilityCone.ts:84-91 | constant positive prices give a window of `lookback` zero returns |
| `ProbabilityCone.ZeroWindowStats` | src/ChartModels/ProbabilityCone.ts:94-100 | a window of zero returns has zero median, average, standard, absolute and Laplace deviation |
| `ProbabilityCone.ZeroConeIsFlat` | src/ChartModels/ProbabilityCone.ts:140-167 | with zero mean and zero deviation every series stays at the anchor |
| `ProbabilityCone.FlatPricesGiveFlatCone` | src/ChartModels/ProbabilityCone.ts:70-180 | constant positive prices give a cone flat at that price in every series and step |

## Left out

- Clock and time zone: `new Date()` is an input (`today`, `now`, or the day count
  `daysOf` of each contract). Daylight-saving shifts, UTC-versus-local parsing of
  `new Date("YYYY-MM-DD")` in contract.ts, and `Math.round` of the millisecond
  difference are not modelled. A day count is assumed to be a whole number of days.
- Date normalisation: `new Date(y, m, d)` rolls an out-of-range month or day into the
  next month or year, and an invalid date string gives an invalid `Date`. The model
  keeps the literal fields, so a symbol with month `13` parses to month 13.
- `getToday` in src/App.tsx (`toISOString().slice(0, 10)`, in UTC) is not modelled.
  Only the local-time version in src/utils.ts is.
- Hover and title text: `toFixed(2)`, the `+` sign, the HTML title with the price
  change and its colour, the Plotly styling (colours, sizes, `autorange`). Only the
  hover percentage's value and sign are modelled.
- `ChartSeries.HoverPct`: a zero close, which gives NaN or an infinity in JavaScript, is
  `None` without telling the two apart.
- NaN and the infinities are one value, `None`. JavaScript keeps
  infinities apart, for example `Math.exp(-Infinity)` is 0, and the model does not.
- `ProbabilityCone.Median`: the model gives NaN when the window holds a NaN or infinite
  return. JavaScript sorts such a window with an implementation-defined order and may
  give a finite median.
- Transcendental functions: `Math.exp`, `Math.log` and `Math.sqrt` are not defined. They
  are the fields of a value of type `Analytic`, and only the laws listed in `Lawful`
  are assumed of them. The rounding of floating-point arithmetic is not modelled:
  numbers are exact reals.
- Fractional `lookback`, `forecastBars` and `anchorIndex`: they are integers in the
  model. `leftBars` and `rightBars` are natural numbers, so negative window sizes are
  not modelled.
- `ContractLoader.SortTickers`: `localeCompare` is modelled as code-point order. The two
  agree on the upper-case ASCII tickers the parser accepts.
- `ContractLoader.GroupByTicker`: `Object.keys` order is modelled as the tickers in
  first-seen order. JavaScript lists integer-like keys first, but the parser rejects
  digit-only tickers.
- `SupportResistance.ComputeSupportResistance`: the default arguments `leftBars = 15` and
  `rightBars = 15` are not modelled; both are parameters. The only caller,
  src/PriceHistoryChart.tsx:189, passes 15 and 15 explicitly.
- The rest of `loadContractsData`: reading the file, `lastContractsText`, the
  `setLoading`/`setCharts` state, fetching quotes (`fetchQuote`, `getTickerInfo`),
  `localStorage` caching and the charts' final ordering are I/O and user interface.
  The model stops at the filtered groups.
- The React components, drag and drop, the full-screen chart and
  `PriceHistoryChart` are user interface and are not part of this model.
- Support/resistance: `open`, `close` and `volume` of a bar are carried but never
  read, as in the source.
