# thats_my_quant in Dafny

This project models the computational core of thats_my_quant. That system turns daily price
series and SEC 13F holdings into a metrics document, renders a "v2" document with a
per-category audit index, and then checks the prose written over that document, by a
template or by a language model, against the numbers and dates the document holds.

One Dafny module stands for each source file of the core:

- **Metric calculators.** `Returns`, `Volatility`, `Drawdown`, `Concentration`,
  `Guardrails` and `MetricsAggregator` cover windowed simple returns, log-return volatility,
  drawdown peak, trough and recovery, CR-n and Herfindahl concentration, the data-quality
  guardrails, and the aggregator that renames and ranks their results.
- **Labels, display strings and the v2 builder.** `Labelers`, `Formatters` and
  `V1ToV2Builder` cover threshold labels, display strings, and the audit index gathered
  recursively from the v2 document.
- **Narrative audit.**
  - `NumberDateAudit`, `NumberAudit` and `SkeletonBuilder` extract tokens, normalise them,
    test tolerance membership, fall back to the skeleton and compose the skeleton summary.
  - `SkeletonGrounding` ties the skeleton to the builder's audit index.
  - `ExecSummaryPolicy`, `LlmPolisher`, `LangchainChains`, `LangchainSummary`,
    `MetricsV2Schema` and `ReportContracts` cover the output parsers, the retry loop and the
    document and report validators.
- **Ingestion and small policies.**
  - `Validators`, `Normalizers` and `TickerMapper` check, deduplicate and map rows.
  - `PathPolicy` and `CrossTickerIndex` name report files and maintain the cross-ticker
    index.
  - `Sec13FAdapter`, `YFinanceAdapter`, `Quarterly13FDag`, `DailyPricesDag` and
    `DataExtraction` hold the provider and pipeline checks, the quarter rules and the
    filing selection.
  - `RssIngestion`, `InsiderTrading` and `GoogleTrends` cover news, insider and search
    scoring, with `Abnormality` holding the capped z-score they share.

Shared modules hold the Python semantics the core relies on:

- `Wrappers` holds `Option` and `Result`; a Python exception is an `Err`.
- `Text` holds strings.
- `Patterns` holds the regular expressions the core uses, as scanners.
- `Dates` holds the proleptic Gregorian calendar.
- `Json` holds dictionaries as ordered item lists.
- `Numerics` and `StringSets` hold sums, minima and `sorted(set(...))`.

Prices and ratios are reals. The logarithm, square root, standard deviation, percentiles,
the normal CDF and float formatting are parameters (`MathOps`, `FormatOps`, `fixed`), as
are the clock (`today`, `now`), SHA-256 and the language-model chain.

Where a loop or an in-place update does the work in the source, the model has a method with
loop invariants, proved against a specification function. The properties the source
promises are then proved about that function. Where the source's code does not do what its
tests or design evidently intend, the member named after the source function models the
code as written. The corrected behaviour is modelled beside it, and the pair is listed
under "## Findings".

## Model

| member | source | states |
|---|---|---|
| Returns.WindowEnds | analysis/calculations/returns.py:16-52 | one entry per requested window under the key "{w}D", holding how many full windows of w periods fit in the trading dates |
| Returns.SimpleReturn | analysis/calculations/returns.py:55-88 | raises exactly when there are fewer than two prices, k is out of range or a price is not positive; otherwise P[t]/P[t-k] - 1 |
| Returns.SimpleReturnGrowth | analysis/calculations/returns.py:84-88 | a simple return is above -1 and (1 + r) carries the price k periods back onto the latest price |
| Returns.SimpleReturnsVectorized | analysis/calculations/returns.py:91-131 | raises exactly when there are enough prices but one is not positive; otherwise one entry per index k..n-1 equal to P[i+k]/P[i] - 1 |
| Returns.SeriesLengthIsWindowCount | analysis/calculations/returns.py:16-52 | the vectorised series has as many entries as window_ends counts for that window (see also analysis/calculations/returns.py:91-131) |
| Returns.SeriesLastIsSimpleReturn | analysis/calculations/returns.py:55-131 | the last entry of the vectorised series is the scalar simple return |
| Returns.PeriodReturnAvailable | analysis/calculations/returns.py:160-172 | a window has a value exactly when w >= 1, there are w+1 prices and all are positive, and the value is P[t]/P[t-w] - 1 |
| Returns.CalculatePeriodReturns | analysis/calculations/returns.py:134-174 | raises exactly when prices and dates differ in length; otherwise the keys are exactly "{w}D" for the windows and each holds that window's return or None |
| Returns.StoreWindow | analysis/calculations/returns.py:158-172 | storing one window keeps every earlier window's value and extends the key set by one |
| Volatility.LogReturns | analysis/calculations/volatility.py:16-44 | raises exactly when there are fewer than two prices or a price is not positive; otherwise n-1 entries, each ln P[i+1] - ln P[i] |
| Volatility.RealizedVol | analysis/calculations/volatility.py:47-90 | raises exactly when the window is below 2 or longer than the returns; otherwise the sample deviation of the last `window` returns times sqrt(annualize) |
| Volatility.RealizedVolUsesLastWindow | analysis/calculations/volatility.py:82-90 | two return series that agree on their last `window` entries give the same realized volatility |
| Volatility.RollingVolatility | analysis/calculations/volatility.py:93-131 | raises exactly when there are fewer returns than the window; otherwise one annualised deviation per run of `window` consecutive returns |
| Volatility.RollingLastIsRealized | analysis/calculations/volatility.py:47-131 | the last rolling value is realized_vol over the same window |
| Volatility.VolatilityAvailable | analysis/calculations/volatility.py:157-170 | a window has a value exactly when all prices are positive and 2 <= w <= n-1, and the value is the annualised deviation of the last w log returns |
| Volatility.CalculateVolatilityMetrics | analysis/calculations/volatility.py:134-172 | the keys are exactly "{w}D_annualized" for the windows and each holds that window's volatility or None |
| Drawdown.RunMaxBound | analysis/calculations/drawdown.py:53 | the running maximum bounds every price seen so far |
| Drawdown.RunMaxAttained | analysis/calculations/drawdown.py:53 | the running maximum is one of the prices seen so far |
| Drawdown.DrawdownBounds | analysis/calculations/drawdown.py:56 | every drawdown lies in (-1, 0] and is 0 exactly at a new running high |
| Drawdown.FirstArgMin | analysis/calculations/drawdown.py:59 | np.argmin: the earliest index of the smallest value |
| Drawdown.MaxDrawdownIsMinimum | analysis/calculations/drawdown.py:56-60 | the reported drawdown is the smallest one, lies in (-1, 0], and the trough is the earliest index reaching it |
| Drawdown.PeakPrecedesTrough | analysis/calculations/drawdown.py:62-71 | the peak is the first index up to the trough holding the running maximum: no later than the trough, and no earlier price reaches it |
| Drawdown.RecoveryIsFirstAbovePeak | analysis/calculations/drawdown.py:76-87 | with no drawdown the recovery is the peak; otherwise it is the first later price strictly above the peak, or None when no later price exceeds it |
| Drawdown.ZeroDrawdownIffNonDecreasing | analysis/calculations/drawdown.py:56-81 | the maximum drawdown is zero exactly when the prices never fall |
| Drawdown.RunningMax | analysis/calculations/drawdown.py:53 | the loop computes the running maximum at every index |
| Drawdown.RunningDrawdowns | analysis/calculations/drawdown.py:53-56 | the loop computes the running maximum and prices / running_max - 1 at every index |
| Drawdown.ArgMin | analysis/calculations/drawdown.py:59 | the loop finds the earliest index of the minimum |
| Drawdown.FindFirstEqual | analysis/calculations/drawdown.py:64-71 | the peak scan returns the first index holding the peak value, else the trough |
| Drawdown.FindFirstAbove | analysis/calculations/drawdown.py:84-87 | the recovery scan returns the first later index whose price exceeds the peak |
| Drawdown.DrawdownStatsOf | analysis/calculations/drawdown.py:16-100 | raises exactly when there are fewer than two prices, the lengths differ or a price is not positive; otherwise the statistics of the trough, peak and recovery above, with day counts as index differences |
| Drawdown.RollingDrawdown | analysis/calculations/drawdown.py:103-137 | raises exactly when the input checks fail; otherwise one statistics record per window of `window` prices, oldest first |
| Drawdown.CalculateDrawdownMetrics | analysis/calculations/drawdown.py:140-177 | the statistics exactly when there are at least min_periods and two prices, equal lengths and positive prices; otherwise the all-None record |
| Concentration.SortDescending | analysis/calculations/concentration.py:36 | `sorted(values, reverse=True)`: descending, and a permutation of the input |
| Concentration.SumSortDescending | analysis/calculations/concentration.py:36-37 | sorting does not change the total |
| Concentration.TopSumAll | analysis/calculations/concentration.py:41-43 | with at most n values, the n largest sum to the whole total |
| Concentration.ConcentrationRatios | analysis/calculations/concentration.py:14-49 | raises exactly when there are no holders or a value is not positive |
| Concentration.RatiosOrdered | analysis/calculations/concentration.py:41-49 | 0 < CR1 <= CR5 <= CR10 <= 1 |
| Concentration.RatioIsOneWhenFewHolders | analysis/calculations/concentration.py:41-49 | with at most n holders, CRn is exactly 1 |
| Concentration.FirstMax | analysis/calculations/concentration.py:118-120 | `max(items, key=value)`: the first holder with the largest value |
| Concentration.SortedHeadIsMax | analysis/calculations/concentration.py:36 | the largest value comes first after sorting (see also analysis/calculations/concentration.py:118) |
| Concentration.HerfindahlIndex | analysis/calculations/concentration.py:52-81 | raises exactly when there are no holders or a value is not positive; otherwise the loop sum of (value/total)² over the holders |
| Concentration.ShareSquaresBetween | analysis/calculations/concentration.py:52-81 | the sum of squared shares lies between the largest share squared and the largest share |
| Concentration.TopHolderShareIsCr1 | analysis/calculations/concentration.py:41-49 | the largest holder's share (top_holder_pct) equals CR1 (see also analysis/calculations/concentration.py:118-120) |
| Concentration.HerfindahlBounds | analysis/calculations/concentration.py:14-81 | CR1² <= HHI <= CR1 <= 1 |
| Concentration.HerfindahlSingleHolder | analysis/calculations/concentration.py:52-81 | a single holder gives HHI = 1 |
| Concentration.CalculateConcentrationMetrics | analysis/calculations/concentration.py:84-144 | the all-None record exactly when there are no holders or a value is not positive; otherwise CR1/5/10, HHI, total, holder count and the first largest holder with its share |
| Concentration.AggregateDistinct | analysis/calculations/concentration.py:160-169 | the per-filer dictionary has one entry per filer |
| Concentration.AggregateHasFilers | analysis/calculations/concentration.py:160-169 | every holding's filer (or "Unknown") is a key of the dictionary |
| Concentration.AggregateKeysAreFilers | analysis/calculations/concentration.py:160-169 | every key is some holding's filer |
| Concentration.AggregateSums | analysis/calculations/concentration.py:160-169 | each filer's entry is the sum of that filer's value_usd |
| Concentration.AggregateTotal | analysis/calculations/concentration.py:160-169 | aggregation keeps the grand total |
| Concentration.SumByFiler | analysis/calculations/concentration.py:160-169 | the loop builds the per-filer dictionary, filers in order of first appearance |
| Concentration.Analyze13FHoldings | analysis/calculations/concentration.py:147-171 | the all-None record exactly when there are no holdings or an aggregated value is not positive; otherwise the metrics of the per-filer totals; the top holder is the first largest filer of the per-filer totals, with its share of the total |
| Concentration.ConcentrationInterpretation | analysis/calculations/concentration.py:174-191 | "No data" exactly for None; otherwise low below 0.15, moderate in [0.15, 0.25), high from 0.25 |
| Concentration.SingleHolderIsHigh | analysis/calculations/concentration.py:52-81 | a single holder's HHI reads as "High concentration" (see also analysis/calculations/concentration.py:174-191) |
| Guardrails.ValidateSufficientData | analysis/guardrails.py:22-81 | raises exactly on an empty frame or when 1Y is requested with fewer than 150 days; otherwise the available and insufficient lists of the window table |
| Guardrails.SplitPartitions | analysis/guardrails.py:54-62 | available and insufficient partition the requested windows: every window lands in exactly one list, by its table minimum, and nothing else appears |
| Guardrails.SplitPreservesOrder | analysis/guardrails.py:54-62 | the split keeps the request order: splitting a concatenation splits each part in turn |
| Guardrails.AvailableMonotone | analysis/guardrails.py:39-62 | more trading days never make a window unavailable |
| Guardrails.OneYearAvailability | analysis/guardrails.py:39-62 | 1Y is available exactly when it is requested and there are at least 253 days (see also analysis/guardrails.py:397-414) |
| Guardrails.GroupKeys | analysis/guardrails.py:103-105 | the groups of `groupby(['cik', 'cusip', 'as_of'])`: exactly the distinct primary keys of the rows, ascending as pandas sorts them |
| Guardrails.AscendingKeysDistinct | analysis/guardrails.py:103-105 | the group keys are distinct, so each group is checked once |
| Guardrails.DetectConflicting13FRows | analysis/guardrails.py:84-137 | [] for an empty frame; raises exactly when a group check fails or conflicts exceed 5% of the rows; otherwise the conflicts of the groups in key order |
| Guardrails.CheckGroups | analysis/guardrails.py:107-124 | the loop over the groups computes the conflicts of the groups in order |
| Guardrails.ConflictsStep | analysis/guardrails.py:107-124 | one more group appends that group's check to the conflicts so far |
| Guardrails.ConflictsSound | analysis/guardrails.py:107-124 | every reported conflict is a group of its key with more than one row and a spread above 10%, reported with its values and the spread as a percentage |
| Guardrails.ConflictsComplete | analysis/guardrails.py:107-124 | every group with more than one row and a spread above 10% is reported |
| Guardrails.SpreadImpliesDiffer | analysis/guardrails.py:112-116 | a spread above zero means the values differ, so the distinct-values test only spares groups whose values are equal |
| Guardrails.ValidateNumericInputs | analysis/guardrails.py:140-191 | accepts exactly the documents whose present values pass: returns and `_pct` paths within ±10, concentration values in [0, 1] |
| Guardrails.AcceptedInputsBounded | analysis/guardrails.py:150-191 | an accepted document has every return and the maximum drawdown within ±10 and every concentration value in [0, 1] |
| Guardrails.ReturnPathsBounded | analysis/guardrails.py:150-163 | every `returns.<w>` path contains "return", so every return is checked against ±10 (see also analysis/guardrails.py:168-172) |
| Guardrails.MissingValuesAccepted | analysis/guardrails.py:150-153 | a document whose values are all None passes |
| Guardrails.ValidatePriceDataIntegrity | analysis/guardrails.py:240-285 | raises exactly when a previous close is zero (the division); otherwise the large-move, zero-volume and OHLC-violation warnings |
| Guardrails.LargeMovesPerDay | analysis/guardrails.py:256-265 | one warning per day whose close moved by more than 20%, naming that day, its change and both closes, and no other warning |
| Guardrails.NoLargeMoves | analysis/guardrails.py:256-265 | no large-move warning exactly when no daily move exceeds 20% |
| Guardrails.ZeroVolumeDatesEmpty | analysis/guardrails.py:267-270 | no zero-volume warning exactly when every day traded |
| Guardrails.ViolationCountZero | analysis/guardrails.py:272-283 | no OHLC warning exactly when every bar respects high >= low, open, close and low <= open, close |
| Guardrails.CleanFrameHasNoWarnings | analysis/guardrails.py:240-285 | a frame yields no warning exactly when no move exceeds 20%, every day traded and every bar is ordered |
| Guardrails.GenerateRecommendations | analysis/guardrails.py:376-419 | each recommendation appears exactly under its condition: fewer than 63 or 252 days, no or few 13F rows, 1Y unavailable, or enough history; at most five, in the order the source appends them |
| Guardrails.HistoryAdvice | analysis/guardrails.py:385-396 | the two history recommendations appear exactly under 63 and 252 days, in that order |
| Guardrails.HoldingsAdvice | analysis/guardrails.py:398-406 | the 13F recommendation to collect appears exactly without holdings, the limited-data one exactly for one to four rows |
| Guardrails.WindowAdvice | analysis/guardrails.py:408-417 | the short-term recommendation appears exactly without a 1Y window, the sufficiency one exactly with 1Y and at least 252 days |
| Guardrails.RanksJoin | analysis/guardrails.py:383-419 | recommendations appended in order, one group after another, stay in order |
| MetricsAggregator.SortByDate | analysis/metrics_aggregator.py:51 | `sort_values('date')`: the ticker's rows, permuted into non-decreasing date order |
| MetricsAggregator.FormatReturns | analysis/metrics_aggregator.py:105-115 | the keys are exactly 1D, 1W, 1M, 3M, 6M, 1Y, holding the returns of windows 1, 5, 21, 63, 126, 252 |
| MetricsAggregator.CalculatePriceMetrics | analysis/metrics_aggregator.py:102-141 | the renamed returns, the volatility of windows 21, 63, 252, a drawdown present exactly with at least 10 positive prices, and the last close with its date |
| MetricsAggregator.ReturnAvailabilityMatchesGuardrail | analysis/metrics_aggregator.py:105-115 | a renamed period has a return exactly when the prices are positive and the guardrail table counts the period as available (see also analysis/guardrails.py:39-62) |
| MetricsAggregator.SortByValue | analysis/metrics_aggregator.py:154 | `sorted(holdings, key=value_usd, reverse=True)`: a permutation in descending value, ties kept in order |
| MetricsAggregator.TopHolders | analysis/metrics_aggregator.py:153-165 | min(10, n) entries, entry i being the i-th holding by value with rank i+1 and its share of the 13F total |
| MetricsAggregator.TopHoldersRanked | analysis/metrics_aggregator.py:153-165 | ranks run 1, 2, ...; each listed holder is one of the holdings; no holding left out is worth more than a listed one |
| MetricsAggregator.TopHolderShare | analysis/metrics_aggregator.py:164 | with positive values each listed share lies in (0, 1] |
| MetricsAggregator.CalculateInstitutionalMetrics | analysis/metrics_aggregator.py:144-194 | the top holders as above; concentration and totals from analyze_13f_holdings (None exactly when an aggregated value is not positive); quarter_end and filing lag from the first holding; without concentration the totals are 0 USD and 0 holders and every ratio is None |
| MetricsAggregator.ExpectedTradingDays | analysis/metrics_aggregator.py:210 | `max(1, int(range * 5 / 7))` is at least 1 |
| MetricsAggregator.CoverageBounds | analysis/metrics_aggregator.py:206-212 | coverage lies in (0, 100], is 100 exactly when no day is missing, and the missing days make up the shortfall |
| MetricsAggregator.LatestAsOf | analysis/metrics_aggregator.py:225-227 | the latest 13F quarter is one of the holdings' as_of dates and no holding is later |
| MetricsAggregator.SpanOfOrderedRows | analysis/metrics_aggregator.py:205-206 | for date-ordered rows the span is the last date minus the first |
| MetricsAggregator.SourcesOfTickerRows | analysis/metrics_aggregator.py:245-247 | the price sources are those named by the ticker's rows, whatever their order |
| MetricsAggregator.DataSources | analysis/metrics_aggregator.py:238-253 | a source is listed exactly when a price row or a holding row names it |
| MetricsAggregator.InstitutionalOf | analysis/metrics_aggregator.py:74-79 | None exactly when there is no holdings frame or no holding of the ticker; otherwise the institutional metrics of the ticker's holdings |
| MetricsAggregator.ComposeMetrics | analysis/metrics_aggregator.py:22-99 | raises exactly when no price row has the ticker; otherwise ticker, as_of_date, the data period of the date-sorted rows, price metrics tied to the calculators, institutional metrics (None exactly without ticker holdings), data quality, version "1.0.0" and the data sources |
| Labelers.ClassifyVolLevel | reports/labelers.py:14-47 | raises exactly on None, a negative value or one above 5.0; otherwise low below 0.20, high above 0.35, else moderate |
| Labelers.VolLevelMonotone | reports/labelers.py:42-47 | higher volatility never gets a lower level; 0.20 and 0.35 are both moderate |
| Labelers.ClassifyConcentration | reports/labelers.py:50-110 | CR5 when present (bands 0.25 and 0.40, basis CR5), else HHI (bands 0.10 and 0.18, basis HHI), else unknown with basis insufficient_data; raises exactly when the measure used lies outside [0, 1] |
| Labelers.ComputedConcentrationClassifies | reports/labelers.py:73-88 | ratios computed by the concentration calculator are always accepted and labelled on CR5 (see also analysis/calculations/concentration.py:14-81) |
| Labelers.ComputedHerfindahlClassifies | reports/labelers.py:91-104 | a computed HHI without CR5 is always accepted and labelled on HHI (see also analysis/calculations/concentration.py:52-81) |
| Labelers.ClassifyDrawdownSeverity | reports/labelers.py:113-142 | unknown for None; raises exactly on a positive drawdown; otherwise minor above -0.10, severe below -0.25, else moderate |
| Labelers.DrawdownSeverityMonotone | reports/labelers.py:128-142 | a deeper drawdown is never labelled less severe |
| Labelers.ComputedDrawdownClassifies | reports/labelers.py:113-142 | the maximum drawdown the calculator produces is always accepted and gets minor, moderate or severe (see also analysis/calculations/drawdown.py:56-60) |
| Labelers.FirstAvailable | reports/labelers.py:169-173 | the loop with break finds the first period of 1Y, 6M, 3M, 1M, 1W, 1D that has a value |
| Labelers.PerformanceBandMonotone | reports/labelers.py:179-188 | a higher return never gets a lower band |
| Labelers.Trend | reports/labelers.py:190-201 | the trend is unknown exactly when the 1M or the 1Y return is missing |
| Labelers.ClassifyReturnPerformance | reports/labelers.py:145-208 | unknown exactly when no period has a value; otherwise the best period is an available one, its return is reported and the overall band is taken from it; the trend is that of the one-month against the one-year return |
| Labelers.LongestPeriodWins | reports/labelers.py:164-173 | the longest available period is the one classified: no longer period was skipped |
| Labelers.TrendNeedsBothPeriods | reports/labelers.py:164-201 | with 1M and 1Y present the best period is 1Y and the trend is not unknown |
| Formatters.FormatPercentage | reports/formatters.py:15-43 | "Not available" exactly for None; otherwise the value times 100 with the given decimals followed by "%", and only then does the text end in "%" |
| Formatters.FormatCurrency | reports/formatters.py:46-85 | "Not available" exactly for None; "$0" for zero; "$..." for positive and "-$..." for negative amounts |
| Formatters.CurrencySignSymmetry | reports/formatters.py:63-68 | a negative amount displays as "-" followed by the display of its magnitude |
| Formatters.CurrencyAutoScale | reports/formatters.py:70-85 | without a forced scale: B with one decimal from a billion, M from a million, comma grouping from a thousand, else two decimals |
| Formatters.FormatDateDisplay | reports/formatters.py:88-121 | "Not available" for None; a date displays as "%B %d, %Y"; an ISO string displays as the date it names and raises when it does not parse |
| Formatters.IsoTextDisplaysAsDate | reports/formatters.py:88-121 | an ISO date string and the date it names display identically |
| Formatters.FormatReturnPeriod | reports/formatters.py:144-163 | a table key gets its readable name; any other key is lower-cased |
| Formatters.FormatReturnPeriodIdempotent | reports/formatters.py:144-163 | formatting a formatted period gives it back: names are lower-case and none is a key |
| Formatters.FormatWindowDisplay | reports/formatters.py:124-141 | "Not available" for None; raises exactly for a non-positive window; otherwise "(n-day)" |
| Formatters.WindowDisplayInjective | reports/formatters.py:141 | different windows never share a display |
| Formatters.FormatRecoveryStatus | reports/formatters.py:166-185 | "unrecovered as of <as-of display>" exactly without a recovery date, else "fully recovered by <recovery display>"; a date that does not parse raises |
| Formatters.AuditEntry | reports/formatters.py:188-217 | the distinct values other than None and "Not available", strictly ascending |
| Formatters.BuildAuditIndexEntry | reports/formatters.py:205-217 | the loop builds exactly the canonical entry |
| Formatters.AuditEntryIdempotent | reports/formatters.py:188-217 | building an entry from an entry gives it back |
| Formatters.AuditEntryBySet | reports/formatters.py:188-217 | the entry depends only on which values occur, not on their order or repeats |
| V1ToV2Builder.PercentDisplay | reports/v1_to_v2_builder.py:126 | raises exactly when the value is not a number or None; "Not available" exactly for None; otherwise a percentage |
| V1ToV2Builder.CurrencyDisplay | reports/v1_to_v2_builder.py:114 | raises exactly when the close is neither a number nor None |
| V1ToV2Builder.ReturnDisplays | reports/v1_to_v2_builder.py:124-126 | one display per return in dictionary order, under the same key; "Not available" exactly for a None return, else a percentage |
| V1ToV2Builder.ReturnsMap | reports/v1_to_v2_builder.py:121-125 | the raw returns dictionary has exactly the periods of the v1 returns |
| V1ToV2Builder.PerformanceFields | reports/v1_to_v2_builder.py:135-136 | the performance labels merged into the returns section are flat strings |
| V1ToV2Builder.BuildReturns | reports/v1_to_v2_builder.py:120-136 | windows, raw and display, then the performance labels |
| V1ToV2Builder.BuildVolatility | reports/v1_to_v2_builder.py:139-148 | window_days 21, raw, display, level and "(21-day)" |
| V1ToV2Builder.MaxDrawdownDisplay | reports/v1_to_v2_builder.py:156 | "Not available" exactly for None, else a percentage |
| V1ToV2Builder.RecoveryStatus | reports/v1_to_v2_builder.py:165 | the status says unrecovered exactly when there is no recovery date |
| V1ToV2Builder.DrawdownExtent | reports/v1_to_v2_builder.py:154-160 | max_dd_raw then max_dd_display, whose text is "Not available" exactly when the raw value is None |
| V1ToV2Builder.MaxDrawdownFields | reports/v1_to_v2_builder.py:151-156 | the drawdown input must be a dictionary; the two max-drawdown fields in order |
| V1ToV2Builder.DrawdownDates | reports/v1_to_v2_builder.py:157-160 | the peak and trough dates with their displays |
| V1ToV2Builder.DrawdownRecovery | reports/v1_to_v2_builder.py:161-165 | recovered is true exactly when a recovery date is given, and exactly then the status does not say unrecovered |
| V1ToV2Builder.BuildDrawdown | reports/v1_to_v2_builder.py:151-166 | the eleven drawdown fields in the source's order |
| V1ToV2Builder.BuildPrice | reports/v1_to_v2_builder.py:108-173 | current, returns, volatility and drawdown, each of its shape |
| V1ToV2Builder.HolderEntries | reports/v1_to_v2_builder.py:198-210 | one v2 holder per v1 holder |
| V1ToV2Builder.LocalTimestamp | reports/v1_to_v2_builder.py:85-87 | the as-of date must parse as an ISO date and gives "<date>T15:00:00" |
| V1ToV2Builder.Entry | reports/v1_to_v2_builder.py:290-291 | exactly the distinct strings other than "Not available", strictly ascending |
| V1ToV2Builder.MissingField | reports/v1_to_v2_builder.py:49-52 | None exactly when every required field is present; otherwise a required field that is missing |
| V1ToV2Builder.PriceSection | reports/v1_to_v2_builder.py:57 | the price section built from price_metrics and as_of_date has the price shape |
| V1ToV2Builder.BaseSections | reports/v1_to_v2_builder.py:55-64 | meta, price, data_quality and footnotes, with price built from the v1 price metrics |
| V1ToV2Builder.Assemble | reports/v1_to_v2_builder.py:55-64 | the four base sections in their fixed order |
| V1ToV2Builder.Sections | reports/v1_to_v2_builder.py:55-68 | the base sections, then ownership_13f exactly when institutional_metrics is truthy |
| V1ToV2Builder.WithAuditIndex | reports/v1_to_v2_builder.py:71-73 | the sections unchanged, followed by audit_index |
| V1ToV2Builder.V1Problem | reports/v1_to_v2_builder.py:45-52 | no problem exactly when the document is non-empty and holds every required field |
| V1ToV2Builder.BuildEnhancedMetricsV2 | reports/v1_to_v2_builder.py:32-73 | raises on an empty document or a missing field; otherwise the sections followed by the audit index as written |
| V1ToV2Builder.BuildCorrectedMetricsV2 | reports/v1_to_v2_builder.py:241-293 | the same document with the corrected audit routing; it succeeds exactly when the as-written build does |
| V1ToV2Builder.AuditIndexSound | reports/v1_to_v2_builder.py:241-293 | every category is strictly ascending, labels hold no "Not available", and each string sits in the category its key and text route it to |
| V1ToV2Builder.FieldWithin | reports/v1_to_v2_builder.py:262-281 | what one entry of a dictionary contributes is part of what the whole dictionary contributes |
| V1ToV2Builder.PercentReachesIndex | reports/v1_to_v2_builder.py:264-266 | a percentage routed by an entry of a section reaches the index of the document |
| V1ToV2Builder.PriceDisplaysIndexed | reports/v1_to_v2_builder.py:241-293 | with the corrected routing every volatility, drawdown and return percentage display of the price section is in the index |
| V1ToV2Builder.RoutePercentAsWritten | reports/v1_to_v2_builder.py:264-281 | as written, only a value under the key "display" can become a percentage |
| V1ToV2Builder.SuffixedDisplayDroppedAsWritten | reports/v1_to_v2_builder.py:264-281 | as written, a string under a `*_display` key without a letter t, such as value_display or as_of_display, is never indexed, while the corrected routing indexes a percentage display there |
| V1ToV2Builder.DrawdownDisplayDroppedAsWritten | reports/v1_to_v2_builder.py:156 | as written, the max_dd_display string is never indexed, while the corrected routing indexes it as a percentage |
| V1ToV2Builder.ReturnsLayoutNoPercent | reports/v1_to_v2_builder.py:262-281 | as written, a returns section (whose display is a dictionary) contributes no percentage |
| V1ToV2Builder.ReturnsNotIndexedAsWritten | reports/v1_to_v2_builder.py:262-281 | as written no return display reaches the index |
| V1ToV2Builder.ReturnsDisplayMissedAsWritten | reports/v1_to_v2_builder.py:260-281 | for returns {"1D": 0.01} the display is a percentage the index as written leaves out and the corrected routing includes |
| NumberDateAudit.PercentTokensWhole | reports/number_date_audit.py:21-34 | every extracted percentage is itself a whole match of the percentage pattern |
| NumberDateAudit.ExtractJoined | reports/number_date_audit.py:21-34 | extracting from percentages joined by spaces gives back exactly those percentages |
| NumberDateAudit.DigitsPercentNormalizes | reports/number_date_audit.py:58-75 | a whole-number percentage "d%" normalises to d over a hundred |
| NumberDateAudit.GroupedPercentNormalizes | reports/number_date_audit.py:69-75 | thousands separators are dropped: "a,b%" normalises to the number ab over a hundred |
| NumberDateAudit.BlankPercentUnparsed | reports/number_date_audit.py:69-75 | a lone "%" with blanks around it does not parse as a number |
| NumberDateAudit.CleansToDigits | reports/number_date_audit.py:69-75 | text that cleans up to a run of digits normalises to that number over a hundred |
| NumberDateAudit.PercentOfFloat | reports/number_date_audit.py:75 | whatever float reads from the cleaned text, the percentage is a hundredth of it |
| NumberDateAudit.StrftimeIso | reports/number_date_audit.py:92 | from year 1000 on, strftime('%Y-%m-%d') is the ISO form of the date |
| NumberDateAudit.DisplayDateNormalizes | reports/number_date_audit.py:78-95 | a date displayed as "%B %d, %Y" normalises to its ISO form |
| NumberDateAudit.UnpaddedDayNormalizes | reports/number_date_audit.py:78-95 | the same date written with an unpadded day normalises alike |
| NumberDateAudit.WholeLongDate | reports/number_date_audit.py:78-95 | a text that is one whole "Month D, YYYY" token of a calendar day normalises to that day |
| NumberDateAudit.DateOut | reports/number_date_audit.py:88-95 | a date that does not parse comes back unchanged; a non-string item comes back as it is |
| NumberDateAudit.PercentListHas | reports/number_date_audit.py:278-285 | the list holds exactly the values the items normalise to; the others are skipped |
| NumberDateAudit.DateList | reports/number_date_audit.py:288-295 | one normalised date per item, in order |
| NumberDateAudit.BuildAuditSets | reports/number_date_audit.py:98-130 | the loops build exactly the allowed sets of the specification |
| NumberDateAudit.CollectPercentSet | reports/number_date_audit.py:111-118 | the set of the values the percent strings normalise to |
| NumberDateAudit.CollectDateSet | reports/number_date_audit.py:121-128 | the set of the normalised dates |
| NumberDateAudit.AllowedPercentsOf | reports/number_date_audit.py:108-118 | the allowed percentages are exactly those the index's percent_strings normalise to |
| NumberDateAudit.MissingIndexGivesEmptySets | reports/number_date_audit.py:108-128 | without an audit index nothing is allowed |
| NumberDateAudit.NoPercentViolationsIff | reports/number_date_audit.py:164-186 | no percentage violation exactly when every found percentage normalises within the tolerance of an allowed value |
| NumberDateAudit.NoDateViolationsIff | reports/number_date_audit.py:189-203 | no date violation exactly when every found date normalises to an allowed date |
| NumberDateAudit.AuditPassedIff | reports/number_date_audit.py:133-221 | the audit passes exactly when every found percentage and every found date is authorised |
| NumberDateAudit.AuditReportFields | reports/number_date_audit.py:206-219 | the found lists are the extracted ones and the total is the sum of the two violation lists |
| NumberDateAudit.AuditText | reports/number_date_audit.py:133-221 | the loops compute exactly the audit of the specification |
| NumberDateAudit.CollectPercentViolations | reports/number_date_audit.py:164-186 | the outer loop gives exactly the percentage violations |
| NumberDateAudit.AnyWithin | reports/number_date_audit.py:169-173 | the inner loop finds an allowed value exactly when one lies within the tolerance |
| NumberDateAudit.CollectDateViolations | reports/number_date_audit.py:189-203 | the loop gives exactly the date violations |
| NumberDateAudit.AuditWithFallback | reports/number_date_audit.py:224-262 | the text itself when the audit passes, else the skeleton, with whether the fallback was used |
| NumberDateAudit.IndexPercentsPass | reports/number_date_audit.py:133-221 | a text made only of percent strings of the index passes the audit at any tolerance |
| NumberDateAudit.EmptyIndexRejectsPercentages | reports/number_date_audit.py:164-186 | with no allowed percentage, any percentage in the text fails the audit |
| NumberDateAudit.CreateEnhancedAuditIndex | reports/number_date_audit.py:265-301 | the loops compute exactly the enhanced index of the specification |
| NumberDateAudit.EnhancedIndexAgreesWithAudit | reports/number_date_audit.py:265-301 | every other entry of the index is kept, and numeric_percents holds exactly the allowed percentages of the audit |
| NumberAudit.DateGroups | reports/number_audit.py:107-111 | as written every extracted date is a month name, the capture group of the pattern |
| NumberAudit.NumberStrings | reports/number_audit.py:114-125 | every standalone number found starts with a digit |
| NumberAudit.ExtractNumbers | reports/number_audit.py:114-134 | the loop gives exactly the numbers of the specification |
| NumberAudit.ParseAll | reports/number_audit.py:127-132 | the values of the strings float accepts, in order, the others skipped |
| NumberAudit.PercentScanIff | reports/number_audit.py:147-159 | when every allowed string is a number, a percentage passes the scan exactly when an allowed one of the same sign lies within 1.0 |
| NumberAudit.UnreadableFirstRejects | reports/number_audit.py:147-162 | an allowed string that float cannot read, met first, rejects a percentage that is not listed exactly, whatever follows |
| NumberAudit.PercentInAllowed | reports/number_audit.py:137-162 | the method gives exactly the specification's verdict |
| NumberAudit.ScanAllowed | reports/number_audit.py:147-159 | the loop gives exactly the scan of the specification |
| NumberAudit.PercentAllowedIff | reports/number_audit.py:137-162 | with every allowed string a number, a percentage passes exactly when it is listed or near a listed one of its sign |
| NumberAudit.DateInAllowed | reports/number_audit.py:165-176 | the loop gives exactly the case-insensitive membership |
| NumberAudit.Tolerance | reports/number_audit.py:188 | at least 0.1 and at least 5% of the allowed value |
| NumberAudit.NumberAllowedIff | reports/number_audit.py:179-192 | a number passes exactly when it lies within the tolerance of an allowed number |
| NumberAudit.NumberInAllowed | reports/number_audit.py:179-192 | the loop gives exactly that verdict |
| NumberAudit.IndexList | reports/number_audit.py:37-41 | what the audit index lists under a key; every item kept is hashable |
| NumberAudit.PickCount | reports/number_audit.py:46-76 | each element is picked under exactly one of the two verdicts |
| NumberAudit.AuditNarrative | reports/number_audit.py:15-90 | audit_narrative computes the audit as written, dates taken by the capture group |
| NumberAudit.AuditFoundElements | reports/number_audit.py:43-90 | the four checking loops give exactly the hallucinated and verified lists of the specification |
| NumberAudit.AuditFoundOf | reports/number_audit.py:43-90 | the result holds the rejected elements, the accepted ones and what was found |
| NumberAudit.CheckElements | reports/number_audit.py:46-76 | one loop appends each element to verified or hallucinated, after what was already there |
| NumberAudit.NoIndexFails | reports/number_audit.py:26-34 | without an audit index, missing or empty, the audit fails whatever the text |
| NumberAudit.HallucinatedEmptyIff | reports/number_audit.py:82 | nothing is hallucinated exactly when every element is allowed |
| NumberAudit.EveryElementCounted | reports/number_audit.py:46-76 | every found element lands in exactly one of the two lists, the one its verdict names |
| NumberAudit.HallucinatedSound | reports/number_audit.py:46-76 | only disallowed elements are hallucinated |
| NumberAudit.VerifiedSound | reports/number_audit.py:46-76 | only allowed elements are verified |
| NumberAudit.PassedIff | reports/number_audit.py:46-82 | the audit passes exactly when every percentage, currency amount, date and number found is allowed |
| NumberAudit.MonthNameRejected | reports/number_audit.py:165-176 | a month name never passes against an index of full dates |
| NumberAudit.AsWrittenFlagsEveryDate | reports/number_audit.py:107-111 | as written every date the text mentions is hallucinated against an index of full dates |
| NumberAudit.WrittenDateAudit | reports/number_audit.py:107-111 | a lone written date fails as written and passes, corrected, when the index lists it |
| NumberAudit.IndexedDatesPass | reports/number_audit.py:165-176 | corrected, every date the text mentions passes when the index lists it |
| SkeletonBuilder.ValueShown | reports/skeleton_builder.py:62 | every interpolated value appears verbatim in the rendered text |
| SkeletonBuilder.Positive | reports/skeleton_builder.py:168 | `value > 0` succeeds exactly on numbers and booleans, anything else raises |
| SkeletonBuilder.Company | reports/skeleton_builder.py:31 | the company when meta holds one, else "<ticker> Inc."; raises when meta is not a dictionary |
| SkeletonBuilder.OpeningStatement | reports/skeleton_builder.py:76-82 | names the ticker, the current price display and its date display, each "Not available" when missing |
| SkeletonBuilder.VolatilityStatement | reports/skeleton_builder.py:112-121 | the fixed sentence exactly when the display is "Not available", else quotes the level, the display and the window |
| SkeletonBuilder.DrawdownStatement | reports/skeleton_builder.py:124-138 | the fixed sentence exactly when max_dd_display is "Not available"; else quotes it, with the peak, trough and status when both dates are present |
| SkeletonBuilder.ConcentrationClause | reports/skeleton_builder.py:146-165 | "not available" when the level or basis is unknown; otherwise quotes the level, and the CR5 or HHI display when the basis names one the dictionary holds |
| SkeletonBuilder.OwnershipTail | reports/skeleton_builder.py:150-171 | a full stop alone unless the total display is present and the holder count positive, in which case both are quoted; a count that does not compare raises |
| SkeletonBuilder.OwnershipStatement | reports/skeleton_builder.py:141-173 | the fixed sentence exactly for missing ownership data, otherwise the concentration clause and its tail |
| SkeletonBuilder.DataQualityNote | reports/skeleton_builder.py:176-188 | a note exactly when the coverage display is truthy and not "Not available", and it quotes that display |
| SkeletonBuilder.KeptMembers | reports/skeleton_builder.py:93-100 | the periods kept are exactly the available ones of the scanned prefix |
| SkeletonBuilder.MentionedPeriods | reports/skeleton_builder.py:90-100 | the loop mentions exactly the first available periods in priority order, at most three |
| SkeletonBuilder.ReturnsSentence | reports/skeleton_builder.py:102-109 | "Return data not available." exactly without mentions; "The stock returned" for one, "Returns were" for more; every mention kept |
| SkeletonBuilder.ReturnsStatement | reports/skeleton_builder.py:85-109 | the sentence built from the mentions of the chosen periods |
| SkeletonBuilder.FirstKeptExactly | reports/skeleton_builder.py:93-100 | a period is mentioned exactly when it is available and fewer than three earlier ones were |
| SkeletonBuilder.ChosenExactly | reports/skeleton_builder.py:90-100 | the same, stated over the priority list 1M, 3M, 6M, 1Y, 1W, 1D |
| SkeletonBuilder.MentionsAvailable | reports/skeleton_builder.py:85-109 | the number of mentions is the available count capped at three, and each mentioned display is quoted |
| SkeletonBuilder.CutAtLastPeriod | reports/skeleton_builder.py:214-220 | the text up to and including its last full stop past the start, or the text followed by "..." |
| SkeletonBuilder.TruncateAtSentence | reports/skeleton_builder.py:204-220 | the text unchanged within the limit, else the first words cut at the last full stop |
| SkeletonBuilder.TruncateAtSentenceBound | reports/skeleton_builder.py:204-220 | the result has at most the limit of words |
| SkeletonBuilder.SourceNames | reports/skeleton_builder.py:241 | joining raises exactly when a source is not a string |
| SkeletonBuilder.SpanSentence | reports/skeleton_builder.py:233-236 | the trading-days sentence exactly when trading_days is truthy |
| SkeletonBuilder.ExpandWithContext | reports/skeleton_builder.py:223-249 | the skeleton unchanged from 120 words on; otherwise the skeleton, possibly followed by a space and the context |
| SkeletonBuilder.PriceStatements | reports/skeleton_builder.py:36-50 | four statements: the opening quotes the ticker and the current display, the volatility and drawdown statements quote their displays |
| SkeletonBuilder.Components | reports/skeleton_builder.py:27-59 | raises exactly for an empty or meta-less document, otherwise the components of the document |
| SkeletonBuilder.ObjectComponents | reports/skeleton_builder.py:30-59 | five or six components, the first quoting the ticker and the current price display |
| SkeletonBuilder.VolatilityQuoted | reports/skeleton_builder.py:44-46 | the volatility display is quoted in the third component |
| SkeletonBuilder.MaxDrawdownQuoted | reports/skeleton_builder.py:48-50 | the max-drawdown display is quoted in the fourth component |
| SkeletonBuilder.Paragraph | reports/skeleton_builder.py:27-62 | raises exactly when the components do |
| SkeletonBuilder.BuildSkeleton | reports/skeleton_builder.py:14-73 | raises for an empty or meta-less document; otherwise the paragraph truncated or expanded |
| SkeletonBuilder.SkeletonBounds | reports/skeleton_builder.py:64-71 | above 180 words the result has at most 180; between 120 and 180 it is the paragraph; below 120 it is the paragraph, possibly extended |
| SkeletonBuilder.SkeletonShowsTicker | reports/skeleton_builder.py:30-82 | when the paragraph has at most 180 words, the skeleton contains the ticker and the current price display |
| SkeletonGrounding.RiskDisplaysOfBuilt | reports/skeleton_builder.py:45-50 | the volatility and max-drawdown displays the skeleton reads are those of the built price section |
| SkeletonGrounding.SkeletonGrounded | reports/tests/test_skeleton_builder.py:145-166 | in a document the builder assembles, a shown volatility or max-drawdown display appears in the skeleton's paragraph and is among the audit index's percent strings |
| SkeletonGrounding.BuilderSectionsBuilt | reports/v1_to_v2_builder.py:55-57 | the sections the builder assembles start with meta and a price section of the built shape |
| LangchainChains.Take | reports/langchain_chains.py:97 | Python's slice `s[:n]`: the first n items, the whole sequence past its end, counting from the end for negative n |
| LangchainChains.LastSentenceEnd | reports/langchain_chains.py:68-70 | the position of the last of ".?!", with none after it, or -1 when there is none |
| LangchainChains.TruncateAtSentenceEnd | reports/langchain_chains.py:55-74 | a text within the limit is returned as it is; a longer one is cut from its first words |
| LangchainChains.FirstWordsJoined | reports/langchain_chains.py:64-65 | the first n words joined by single spaces have n words and start with a non-blank |
| LangchainChains.CutAtSentenceEnd | reports/langchain_chains.py:68-71 | with a sentence end among the first words, the result is a prefix of them that ends the sentence and has no more words than the limit |
| LangchainChains.CutWithDots | reports/langchain_chains.py:72-74 | without a sentence end, one word fewer followed by "..." |
| LangchainChains.TruncateWithinBudget | reports/langchain_chains.py:55-74 | a truncated text holds at most the limit of words |
| LangchainChains.QuotesRemoved | reports/langchain_chains.py:33-38 | one outer pair of double or single quotes is removed and the inside stripped |
| LangchainChains.ParseExecSummary | reports/langchain_chains.py:28-53 | raises exactly when the unquoted text has fewer than min_words words; within the limits it is the unquoted text |
| LangchainChains.ExecSummaryWithinMax | reports/langchain_chains.py:49-53 | an accepted summary never exceeds max_words |
| LangchainChains.MarkedLine | reports/langchain_chains.py:113 | a line starting with "-", "•" or "*" loses the marker and the blanks after it |
| LangchainChains.NumberedLine | reports/langchain_chains.py:114 | a line starting with digits and a period loses them and the blanks after them |
| LangchainChains.BulletText | reports/langchain_chains.py:113-114 | what is left of a trimmed line is trimmed, or empty |
| LangchainChains.BulletsTrimmed | reports/langchain_chains.py:101-124 | every extracted bullet is non-empty with no blank at either end |
| LangchainChains.ExtractBullets | reports/langchain_chains.py:101-124 | the two loops give exactly the bullets of the specification, the split on "." taken when fewer than two lines qualify |
| LangchainChains.NonBlankParts | reports/langchain_chains.py:121-122 | the stripped non-blank parts, in order |
| LangchainChains.LimitCount | reports/langchain_chains.py:91-99 | raises exactly below min_bullets; otherwise a prefix of the bullets, at most max_bullets long |
| LangchainChains.RiskBulletsOf | reports/langchain_chains.py:83-99 | raises exactly when the stripped text gives fewer than min_bullets bullets; otherwise a prefix of them, each trimmed |
| LangchainChains.ParseRiskBullets | reports/langchain_chains.py:83-99 | the method returns exactly the specification's result |
| LangchainChains.FirstOk | reports/langchain_chains.py:341-355 | the first successful attempt, all earlier ones having failed, or none when every attempt fails |
| LangchainChains.GenerateRiskBullets | reports/langchain_chains.py:308-364 | at most max_retries + 1 chain calls; the first successful result, else the three fixed bullets after every call failed |
| LangchainChains.RiskBulletsShape | reports/langchain_chains.py:308-364 | the bullets are the fixed three, or between the limits and each trimmed |
| LangchainSummary.GenerateExecSummary | reports/langchain_chains.py:255-305 | a skeleton error propagates with no call; otherwise at most max_retries + 1 calls, the first successful summary, else the skeleton |
| MetricsV2Schema.CheckCategories | reports/metrics_v2_schema.py:51-55 | passes exactly when each of the categories is present in the audit index and holds a list |
| MetricsV2Schema.ReturnsPresence | reports/metrics_v2_schema.py:75-78 | the raw and display flags exactly when price holds returns; a returns value that cannot be searched raises |
| MetricsV2Schema.VolatilityPresence | reports/metrics_v2_schema.py:80-84 | the raw, display and level flags exactly when price holds volatility; a value that cannot be searched raises |
| MetricsV2Schema.ConcentrationOf | reports/metrics_v2_schema.py:86-91 | basis and level exactly when ownership_13f is present; raises when it or its concentration is not a dictionary |
| MetricsV2Schema.CheckShape | reports/metrics_v2_schema.py:30-55 | passes exactly when meta, price and audit_index are present, the version is "2.0.0", the index is a dictionary and its six categories are lists |
| MetricsV2Schema.Summarise | reports/metrics_v2_schema.py:57-93 | the version, the index's categories, ownership exactly when present, the price sections and the returns flags exactly when returns is there |
| MetricsV2Schema.ValidateV2Schema | reports/metrics_v2_schema.py:17-93 | succeeds exactly when the shape checks pass and the sections can be read; the summary lists every required category |
| MetricsV2Schema.SchemaRejections | reports/metrics_v2_schema.py:31-44 | a missing price section, version "1.0.0" and a string audit index all raise |
| MetricsV2Schema.BuiltIndexListsCategories | reports/v1_to_v2_builder.py:251-293 | the audit index the builder writes holds each of the six categories as a list, so it passes the category checks |
| MetricsV2Schema.ExtractSorted | reports/metrics_v2_schema.py:113-127 | every string found is in the list for the character it holds: "%" for percentages, then "$" for currency, dates by key |
| MetricsV2Schema.PySet | reports/metrics_v2_schema.py:132-134 | set() of a list raises exactly when an item is a list or dictionary, and otherwise holds exactly its items |
| MetricsV2Schema.Missing | reports/metrics_v2_schema.py:136-138 | exactly the found strings the index category lacks |
| MetricsV2Schema.MissingEmptyIff | reports/metrics_v2_schema.py:136-141 | nothing is missing exactly when every found string is indexed |
| MetricsV2Schema.ValidateAuditIndexCompleteness | reports/metrics_v2_schema.py:96-149 | complete exactly when every percentage, currency string and date found in the document is in its index category; the found lists are those extracted |
| MetricsV2Schema.CoverageAsWrittenExample | reports/metrics_v2_schema.py:148 | as written, an index of two currency strings against one different found string is incomplete yet reports 200% coverage |
| MetricsV2Schema.CountIndexed | reports/metrics_v2_schema.py:136-141 | the indexed count equals the found count exactly when every found string is indexed |
| MetricsV2Schema.CoveredPctMeaning | reports/metrics_v2_schema.py:148 | the corrected coverage lies in [0, 100] and, with something found, is 100 exactly when the index is complete |
| MetricsV2Schema.PeriodCheck | reports/metrics_v2_schema.py:174-188 | raises when the display lacks the period or a compared raw value is not numeric; a mismatch exactly when a compared display differs from the expected one |
| MetricsV2Schema.ReturnMismatchesRaise | reports/metrics_v2_schema.py:172-188 | the loop raises exactly when some period raises |
| MetricsV2Schema.ReturnMismatchesNone | reports/metrics_v2_schema.py:172-188 | the loop flags nothing exactly when every period passes |
| MetricsV2Schema.RawAndDisplay | reports/metrics_v2_schema.py:173 | the raw and display values exactly when the section holds both names (see also reports/metrics_v2_schema.py:192-194) |
| MetricsV2Schema.CompareVolatility | reports/metrics_v2_schema.py:193-201 | raises exactly for a None or non-numeric raw value; a mismatch exactly when the display differs from raw*100 with one decimal and "%" |
| MetricsV2Schema.ConsistencyFrom | reports/metrics_v2_schema.py:162-203 | consistent exactly when there are no errors; the errors are the return mismatches, then the volatility one |
| MetricsV2Schema.V2Consistency | reports/metrics_v2_schema.py:152-203 | the consistency result as written: consistent exactly when there are no errors |
| MetricsV2Schema.ValidateV2Consistency | reports/metrics_v2_schema.py:152-203 | the method computes exactly that result |
| MetricsV2Schema.ScanPeriods | reports/metrics_v2_schema.py:174-188 | the loop gives exactly the mismatches of the specification, the first raising period ending it |
| MetricsV2Schema.FormattedReturnPasses | reports/metrics_v2_schema.py:178-184 | a return display written by format_percentage passes the check |
| MetricsV2Schema.UnavailableVolatilityRaises | reports/metrics_v2_schema.py:192-195 | as written, the builder's volatility section with a None raw value raises; the corrected check passes it |
| MetricsV2Schema.CorrectedVolatilityOfBuiltSection | reports/metrics_v2_schema.py:192-201 | corrected, a built volatility section never raises and mismatches exactly when a present raw value's display differs |
| ExecSummaryPolicy.Count | reports/exec_summary_policy.py:67-71 | the number of true flags: zero exactly when none holds, all exactly when every one does |
| ExecSummaryPolicy.MissingField | reports/exec_summary_policy.py:29-32 | none exactly when every required field is present, else a required field that is missing |
| ExecSummaryPolicy.AnyValuePresent | reports/exec_summary_policy.py:52 | raises on anything but a dictionary; otherwise true exactly when some value is not None (see also reports/exec_summary_policy.py:63) |
| ExecSummaryPolicy.ValidateContract | reports/exec_summary_policy.py:15-82 | refused exactly when a required field is missing or the price, volatility, drawdown or (truthy) institutional or concentration value looked into is not a dictionary; the sufficiency names how many of the three flags hold; concentration only with institutional metrics |
| ExecSummaryPolicy.Sub | reports/exec_summary_policy.py:34-60 | `get` on a dictionary, the default for a missing key |
| ExecSummaryPolicy.ValidationFlags | reports/exec_summary_policy.py:34-82 | an accepted document reports its ticker and date; each flag holds exactly when its data is present: institutional metrics not None, a volatility or concentration value not None, a maximum drawdown not None |
| ExecSummaryPolicy.ValidateExecSummaryContract | reports/exec_summary_policy.py:15-82 | the loop computes exactly that result |
| ExecSummaryPolicy.MissingFieldRefused | reports/exec_summary_policy.py:29-32 | a document lacking ticker, as_of_date or price_metrics is refused with the message naming the first one missing |
| ExecSummaryPolicy.SufficiencyCounts | reports/exec_summary_policy.py:73-80 | complete exactly with all three, good with two, basic with one, minimal with none |
| ExecSummaryPolicy.SpeculativeWords | reports/exec_summary_policy.py:130-135 | the loop collects exactly the prohibited words occurring in the lower-cased skeleton |
| ExecSummaryPolicy.SkeletonQuality | reports/exec_summary_policy.py:104-150 | the word count is valid exactly between 120 and 180; the score is the share of the six checks that pass |
| ExecSummaryPolicy.SkeletonQualityChecks | reports/exec_summary_policy.py:104-150 | the word count is that of the skeleton; it passes exactly at a score of 0.8; it has percentages, dates and windows exactly for a "%", a year of the 2020s and both parentheses; it mentions volatility exactly for "vol", drawdown for "drawdown" or "decline", concentration for "concentration"; the speculative words are the prohibited words found in the lower-cased text |
| ExecSummaryPolicy.PassesIffAtMostOneFails | reports/exec_summary_policy.py:147-148 | the skeleton passes exactly when at least five of the six checks pass |
| ExecSummaryPolicy.VolatilityMentionIsVol | reports/exec_summary_policy.py:123 | the mention check reduces to containing "vol" |
| ExecSummaryPolicy.SubstringIsSpeculative | reports/exec_summary_policy.py:133-135 | a prohibited word inside another word counts: "mayor" contains "may" |
| ExecSummaryPolicy.ElementsWithDates | reports/exec_summary_policy.py:184-190 | the total is the sum of the four lists' lengths |
| ExecSummaryPolicy.ExtractDataElements | reports/exec_summary_policy.py:160-190 | as written: the dates listed are the long-date pattern's month-name groups followed by the ISO dates, and the total counts the four lists (see ExecSummaryPolicy.AsWrittenCountsEveryDate) |
| ExecSummaryPolicy.AsWrittenCountsEveryDate | reports/exec_summary_policy.py:169-176 | as written the count is the same as intended, and each listed month name begins the date it stands for |
| ExecSummaryPolicy.WrittenDateListed | reports/exec_summary_policy.py:170 | a lone written date is listed as its month name as written, and whole as intended (see also reports/exec_summary_policy.py:176) |
| LlmPolisher.UnwrapDeletesOnlyStars | reports/llm_polisher.py:130-131 | removing bold and italic markers deletes asterisks and nothing else |
| LlmPolisher.UnwrapStarFree | reports/llm_polisher.py:130-131 | text without asterisks is left alone |
| LlmPolisher.SpaceCount | reports/llm_polisher.py:134 | the length of the leading whitespace run |
| LlmPolisher.StripBulletsMarkerFree | reports/llm_polisher.py:134 | text without bullet markers is left alone |
| LlmPolisher.Collapsed | reports/llm_polisher.py:130-138 | after markdown removal and whitespace collapsing the text has single spaces and no blank ends |
| LlmPolisher.Paragraph | reports/llm_polisher.py:141-146 | with more than one piece the text ends with a period, else it is unchanged |
| LlmPolisher.CleanIsOneParagraph | reports/llm_polisher.py:127-148 | the cleaned answer is one paragraph with single spaces, as written and corrected, ending with a period when it had more than one piece |
| LlmPolisher.DecimalCutAsWritten | reports/llm_polisher.py:141-146 | as written a figure x.y is cut in two at its decimal point |
| LlmPolisher.DecimalCutExample | reports/llm_polisher.py:141-146 | as written the answer "1.5%" comes back as "1. 5%." |
| LlmPolisher.DecimalKeptCorrected | reports/llm_polisher.py:141-146 | corrected, a figure x.y between digits keeps its decimal point |
| LlmPolisher.DecimalKeptExample | reports/llm_polisher.py:141-146 | corrected, "1.5%" comes back unchanged |
| LlmPolisher.CutAtPeriod | reports/llm_polisher.py:161-168 | up to the last period when it lies past 80% of the text, else the text and "..." |
| LlmPolisher.TruncateToWordLimit | reports/llm_polisher.py:151-168 | a text within the limit is unchanged; a longer one is cut to its first words, then at a period |
| LlmPolisher.TruncateWellSpaced | reports/llm_polisher.py:151-168 | truncating a single-spaced text keeps it single-spaced |
| LlmPolisher.TruncateWordBound | reports/llm_polisher.py:151-168 | a truncated text holds at most the limit of words |
| LlmPolisher.Bounded | reports/llm_polisher.py:65-71 | above 180 words the answer is truncated, below 120 it is replaced by the skeleton, otherwise kept |
| LlmPolisher.PolishSummary | reports/llm_polisher.py:26-95 | completed exactly when the metrics can be read and the model answered; the answer is cleaned as written and bounded; a failure falls back to the skeleton with its word count |
| LlmPolisher.PolishSummaryCorrected | reports/llm_polisher.py:26-95 | the same outcome as written, differing only in the text of a completed polish, which is cleaned at sentence periods |
| LlmPolisher.PolishedIsParagraphOrSkeleton | reports/llm_polisher.py:26-95 | a completed polish is the skeleton or a single single-spaced paragraph |
| LlmPolisher.PolishedWithinLimit | reports/llm_polisher.py:65-71 | a completed polish other than the skeleton holds at most 180 words, and at least 120 unless it had to be cut |
| LlmPolisher.BlankLines | reports/llm_polisher.py:208 | no blank-line break exactly when the text has no "\n\n" |
| LlmPolisher.ValidatePolished | reports/llm_polisher.py:171-226 | valid exactly when the count is between 120 and 180 and no prohibited word occurs; structure valid exactly without "\n\n"; valid exactly without errors |
| LlmPolisher.ValidatePolishedOutput | reports/llm_polisher.py:171-226 | the loop computes exactly that result |
| ReportContracts.RequireAll | reports/report_contracts.py:72-75 | passes exactly when every required name is present; the first missing one raises |
| ReportContracts.ValidateMetricsJsonForReports | reports/report_contracts.py:56-95 | passes exactly when the six sections are present and data_period, price_metrics and metadata hold their required fields |
| ReportContracts.Search | reports/report_contracts.py:121-122 | the first position where the section's pattern matches, or -1 when it matches nowhere |
| ReportContracts.CheckOf | reports/report_contracts.py:123-126 | found exactly when the position is not -1 |
| ReportContracts.MissingOf | reports/report_contracts.py:140-143 | exactly the required sections that were not found |
| ReportContracts.InsertByPosition | reports/report_contracts.py:133 | inserting keeps every element: the result is a permutation of the input plus the new one |
| ReportContracts.StructureFrom | reports/report_contracts.py:121-145 | the per-section checks, and the missing list holds exactly the sections not found |
| ReportContracts.ValidateReportStructure | reports/report_contracts.py:98-145 | the loop computes the structure of the specification; a section is found exactly when its pattern matches somewhere |
| ReportContracts.SortSorted | reports/report_contracts.py:133 | the sort orders by position and is a permutation |
| ReportContracts.OrderCorrectIff | reports/report_contracts.py:129-139 | the order is correct exactly when the found sections' positions do not decrease along the required order |
| ReportContracts.SortedIffKept | reports/report_contracts.py:133-139 | for distinct names in the required order, sorting keeps that order exactly when the list is already sorted by position |
| ReportContracts.CloseIsRatio | reports/report_contracts.py:329 | close exactly when the relative difference, over the larger of the magnitude and 1e-10, is below 0.001 |
| ReportContracts.NumberExistsInMetrics | reports/report_contracts.py:306-335 | the scan returns exactly the specification's verdict |
| ReportContracts.AnyClose | reports/report_contracts.py:328-332 | true exactly when some metric value is close to the number |
| ReportContracts.ExactValueExists | reports/report_contracts.py:306-335 | a number string whose value is exactly a metric value is found |
| ReportContracts.ToleranceIsStrict | reports/report_contracts.py:329 | a value 0.1% away from the only metric value is not found |
| ReportContracts.Unmatched | reports/report_contracts.py:250-253 | exactly the tokens no metric value is close to |
| ReportContracts.Unlisted | reports/report_contracts.py:256-259 | exactly the found dates no date field holds |
| ReportContracts.AuditFlags | reports/report_contracts.py:218-266 | every number token and ISO date of the text is found; the hallucinated numbers and unverified dates are exactly the unmatched ones |
| ReportContracts.DashListCount | reports/report_contracts.py:189-190 | a dash list of single-line bullets counts one match per bullet |
| ReportContracts.WordErrors | reports/report_contracts.py:176-185 | no word error exactly when the count lies within the limits |
| ReportContracts.BulletErrors | reports/report_contracts.py:188-200 | no bullet error exactly when the section is not a bullet list or the count lies within the limits |
| ReportContracts.ValidateLlmOutput | reports/report_contracts.py:148-215 | raises exactly for an unknown section; valid exactly when the words, the bullets for a bullet list, and the numbers all pass; unverified dates only warn |
| ReportContracts.LlmErrors | reports/report_contracts.py:176-208 | no error exactly when every check passes |
| PathPolicy.Substitute | reports/path_policy.py:96-102 | one character per ticker character: its upper case when that is in [A-Z0-9_], else "_" |
| PathPolicy.SubstitutedHasNoForbiddenChar | reports/path_policy.py:104-106 | the check for forbidden characters after the substitution can never fire |
| PathPolicy.NormalizeTicker | reports/path_policy.py:77-108 | raises exactly for an empty ticker or one longer than 20 characters; otherwise the substituted ticker |
| PathPolicy.NormalizeTickerIdempotent | reports/path_policy.py:77-108 | a normalised ticker is non-empty, at most 20 characters of [A-Z0-9_], and its own normalisation |
| PathPolicy.CreateReportPaths | reports/path_policy.py:27-74 | fails exactly when the ticker does; the ticker directory, report, metrics and latest.md paths under it, named by the timestamp string |
| PathPolicy.ParseTimestampFromFilename | reports/path_policy.py:111-139 | a parsed timestamp is a valid date and time read from a name of the report shape |
| PathPolicy.FileNameParts | reports/path_policy.py:61-65 | the report file name is the zero-padded year, month, day, hour, minute and second at fixed places, then "_report.md" |
| PathPolicy.FileNameRoundTrip | reports/path_policy.py:61-65 | reading back the report file name of a timestamp gives the timestamp, to the second (see also reports/path_policy.py:111-139) |
| PathPolicy.ParsedFileNameRoundTrip | reports/path_policy.py:111-139 | a report file name that parses is the name its timestamp prints as |
| PathPolicy.PaddedOrder | reports/path_policy.py:54 | zero-padded fields of one width compare as strings like their numbers (see also reports/path_policy.py:61) |
| PathPolicy.FileNameOrderIsChronological | reports/path_policy.py:186-187 | sorting report file names as strings sorts them chronologically |
| CrossTickerIndex.Insert | reports/cross_ticker_index.py:89 | inserting keeps the entries as a multiset, keeps the list ordered and puts the new entry after the entries it need not precede |
| CrossTickerIndex.Sort | reports/cross_ticker_index.py:89 | the same entries, ordered (see also reports/cross_ticker_index.py:155-158) |
| CrossTickerIndex.SortStable | reports/cross_ticker_index.py:89 | entries sharing a key come out in their input order, as Python's stable sort keeps them, also in reverse (see also reports/cross_ticker_index.py:155-158) |
| CrossTickerIndex.SortKeepsUnique | reports/cross_ticker_index.py:89 | sorting keeps one entry per ticker |
| CrossTickerIndex.ReplaceFirst | reports/cross_ticker_index.py:79-86 | one entry longer exactly when the ticker was new, and the new entry is in the list |
| CrossTickerIndex.ReplaceFirstMembers | reports/cross_ticker_index.py:79-86 | every entry after the loop is the new one or an old one |
| CrossTickerIndex.ReplaceFirstKeepsUnique | reports/cross_ticker_index.py:79-86 | one entry per ticker stays one entry per ticker |
| CrossTickerIndex.UpsertedProperties | reports/cross_ticker_index.py:75-89 | the upserted list holds the new entry, grows exactly for a new ticker, is sorted by ticker and keeps tickers unique |
| CrossTickerIndex.UpsertKeepsOthers | reports/cross_ticker_index.py:75-89 | every other ticker's entry survives the upsert unchanged |
| CrossTickerIndex.Index.constructor | reports/cross_ticker_index.py:53-59 | a new index has the schema version, no timestamp, no time zone and no entries |
| CrossTickerIndex.Index.Update | reports/cross_ticker_index.py:24-98 | the entries become the upsert of the old ones; updated_existing exactly when the ticker was there; the count is the new length; timestamp and zone set |
| CrossTickerIndex.ReplaceOrAppend | reports/cross_ticker_index.py:76-86 | the loop replaces the first entry with the ticker or appends, and reports which |
| CrossTickerIndex.FindTicker | reports/cross_ticker_index.py:79-83 | the index of the first entry with the ticker, or the length exactly when there is none |
| CrossTickerIndex.Matching | reports/cross_ticker_index.py:134-152 | exactly the entries generated on the target date, in index order |
| CrossTickerIndex.QueryTodayReports | reports/cross_ticker_index.py:108-163 | exactly the entries of the target date, as a multiset; newest first; entries with equal timestamps in index order |
| Validators.CheckPositive | ingestion/transforms/validators.py:54-63 | passes exactly for a finite positive number |
| Validators.CheckPrices | ingestion/transforms/validators.py:54-63 | passes exactly when every listed price field is finite and positive |
| Validators.CheckOhlc | ingestion/transforms/validators.py:85-104 | passes exactly when high is at least low, open and close and low is at most open and close |
| Validators.PricesChecked | ingestion/transforms/validators.py:54-63 | the four price fields pass exactly when each is finite and positive |
| Validators.ValidatePricesRow | ingestion/transforms/validators.py:16-104 | passes exactly for a valid price row; a missing key raises first |
| Validators.ValidRowIsConsistentBar | ingestion/transforms/validators.py:85-104 | a row the validator accepts is a bar the price-logic guardrail never flags |
| Validators.CheckStrings | ingestion/transforms/validators.py:129-131 | passes exactly when every listed field holds a string |
| Validators.CheckNonNegative | ingestion/transforms/validators.py:144-163 | passes exactly for a finite non-negative number |
| Validators.Validate13FRow | ingestion/transforms/validators.py:107-163 | passes exactly for a valid holding row (strings, nine-character CUSIP, dates, finite non-negative value and shares); a missing key raises first |
| Validators.CheckPriceDateMonotonicity | ingestion/transforms/validators.py:166-204 | passes exactly when each ticker's dates strictly increase; a duplicate is reported only when one exists |
| Validators.IncreasingHasNoDuplicate | ingestion/transforms/validators.py:194-204 | strictly increasing dates hold no duplicate |
| Validators.AllIncreasingIffPairwise | ingestion/transforms/validators.py:166-204 | the per-ticker check accepts exactly when every earlier row of a ticker is dated before every later one |
| Normalizers.KeyOrderDistinct | ingestion/transforms/normalizers.py:75-79 | the dictionary lists each key once, and exactly the keys of the input |
| Normalizers.TableKeepsLast | ingestion/transforms/normalizers.py:75-76 | the value kept under a key is the one of its last occurrence |
| Normalizers.OverwriteKeepsPosition | ingestion/transforms/normalizers.py:75-79 | overwriting a key keeps its first position |
| Normalizers.ValuesOfDistinct | ingestion/transforms/normalizers.py:79 | without repeated keys nothing is dropped and the order is kept |
| Normalizers.Store | ingestion/transforms/normalizers.py:76 | one store updates the value and appends the key only when it is new |
| Normalizers.TruncToInt | ingestion/transforms/normalizers.py:67 | `int(x)` truncates toward zero: within 1 of x, with the sign of x and no larger in magnitude |
| Normalizers.RowDate | ingestion/transforms/normalizers.py:51-55 | a date that does not parse, the default "" included, raises; a date object is kept |
| Normalizers.CanonicalOf | ingestion/transforms/normalizers.py:59-71 | the canonical row carries the ticker, the row date as date and as_of, the source and ingestion time; open, high, low and close are the row's values or 0 when missing; adj_close is the row's; volume is the truncated volume or 0 |
| Normalizers.NormalizePrices | ingestion/transforms/normalizers.py:16-79 | [] for empty input; raises exactly when some row's date does not parse; otherwise the rows keyed by date, the last of each kept, in first-seen order |
| Normalizers.PricesDeduplicated | ingestion/transforms/normalizers.py:73-79 | the rows have distinct dates, are no more than the input, and each input row's canonical form is kept unless a later row of its date replaced it |
| Normalizers.PartialMatch | ingestion/transforms/normalizers.py:198-200 | the first ticker whose key holds, or is held by, the name; none exactly when no key is so related |
| Normalizers.BlankIssuerTakesFirstAsWritten | ingestion/transforms/normalizers.py:191-200 | as written a blank name takes the ticker of the table's first key |
| Normalizers.EmptyIssuerIsAppleAsWritten | ingestion/transforms/normalizers.py:176-200 | as written a holding without an issuer name is attributed to AAPL |
| Normalizers.Infer | ingestion/transforms/normalizers.py:163-203 | corrected, a blank name gives UNKNOWN, and any other result is a ticker of the table |
| Normalizers.InferAgreesOnNames | ingestion/transforms/normalizers.py:191-203 | on a name that is not blank the as-written and corrected inferences agree |
| Normalizers.InferMeaning | ingestion/transforms/normalizers.py:191-203 | a name that is a key maps to its ticker; UNKNOWN exactly when the name is blank or no key is related to it by containment |
| Normalizers.ZFill | ingestion/transforms/normalizers.py:116 | `zfill(w)` pads with zeros to width w, after a leading sign when there is one, keeps the rest as its tail, and never shortens |
| Normalizers.ValueInDollars | ingestion/transforms/normalizers.py:131-137 | values under a million are thousands of dollars and are multiplied by 1000 |
| Normalizers.HoldingOf | ingestion/transforms/normalizers.py:114-153 | the canonical holding carries the filing's as_of and source |
| Normalizers.Normalize13F | ingestion/transforms/normalizers.py:82-160 | the rows keyed by (cik, cusip, as_of), the last row of each key kept, in first-seen order, with the ticker inferred as written |
| Normalizers.KeepLast | ingestion/transforms/normalizers.py:113-160 | the loop gives exactly the deduplicated values |
| Normalizers.BlankIssuerRowIsApple | ingestion/transforms/normalizers.py:123 | a row without an issuer name is attributed to AAPL as written, to UNKNOWN corrected (see also ingestion/transforms/normalizers.py:191-203) |
| Normalizers.HoldingsDeduplicated | ingestion/transforms/normalizers.py:155-160 | holdings have distinct keys, are no more than the input, and every row's holding is kept unless a later row of its key replaced it |
| TickerMapper.StripSuffix | ingestion/transforms/ticker_mapper.py:108-109 | a name not ending with the suffix is unchanged, and none grows |
| TickerMapper.StripEach | ingestion/transforms/ticker_mapper.py:107-109 | the loop strips each suffix at most once, in list order |
| TickerMapper.CleanCompanyName | ingestion/transforms/ticker_mapper.py:72-117 | the method gives exactly the cleaned name, single-spaced with no blank ends |
| TickerMapper.NamesMatch | ingestion/transforms/ticker_mapper.py:151-177 | a match needs at least two distinct words on each side |
| TickerMapper.NamesMatchSymmetric | ingestion/transforms/ticker_mapper.py:151-177 | matching is symmetric |
| TickerMapper.NamesMatchReflexive | ingestion/transforms/ticker_mapper.py:151-177 | a name with at least two distinct words matches itself |
| TickerMapper.SingleWordNeverMatches | ingestion/transforms/ticker_mapper.py:166-168 | a one-word name matches nothing |
| TickerMapper.Mapper.constructor | ingestion/transforms/ticker_mapper.py:17-32 | the mapper holds the given dictionaries |
| TickerMapper.Mapper.FirstMatch | ingestion/transforms/ticker_mapper.py:145-149 | the symbol of the first known name, in insertion order, that matches; none exactly when no known name matches |
| TickerMapper.Mapper.GetTicker | ingestion/transforms/ticker_mapper.py:119-149 | None for an empty name; the exact upper-cased name, then the cleaned name, then the first fuzzy match in insertion order; None exactly when all three fail |
| TickerMapper.Mapper.InferTickerFromName | ingestion/transforms/ticker_mapper.py:197-208 | UNKNOWN when nothing is found, otherwise a known symbol |
| Sec13FAdapter.ValidateQuarterEnd | ingestion/providers/sec_13f_adapter.py:98-126 | accepts exactly a 3/31, 6/30, 9/30 or 12/31 date that is not after today and not before 2013; any other day of the year is rejected as not a quarter end, which is checked first |
| Sec13FAdapter.QuarterDateRange | ingestion/providers/sec_13f_adapter.py:129-158 | succeeds exactly for the quarter-end months 3, 6, 9 and 12; the window opens on the first day of the quarter (two months before the end month) |
| Sec13FAdapter.QuarterRangeBrackets | ingestion/providers/sec_13f_adapter.py:139-158 | for a quarter end the window opens before it and closes after it, on the last day of the month three months later (March 31 of the next year for Q4) |
| Sec13FAdapter.CheckFetchInputs | ingestion/providers/sec_13f_adapter.py:50-63 | the fetch proceeds exactly when the quarter end is valid and exactly one of entity name and CIK is given; the first failing check's error is the result, and a success carries the quarter's window |
| YFinanceAdapter.ValidateDateRange | ingestion/providers/yfinance_adapter.py:90-112 | accepts exactly start <= end <= today with a span of at most 3*365 days; a start after the end is reported as such first |
| YFinanceAdapter.ValidateTicker | ingestion/providers/yfinance_adapter.py:115-134 | accepts exactly a non-empty ticker of at most ten characters whose upper-cased characters are letters, digits, '.' or '-' |
| YFinanceAdapter.AcceptedTickerHasReportDirectory | ingestion/providers/yfinance_adapter.py:129-134 | a ticker the provider accepts always normalises to a report directory name, in which only "." and "-" become "_" and every other character is upper-cased (reports/path_policy.py:96-102) |
| Quarterly13FDag.MakeConfig | pipeline/quarterly_13f_dag.py:25-52 | a configuration is made exactly when one of entity name and CIK is given (an empty string counts as absent) and the date is 3/31, 6/30, 9/30 or 12/31; neither and both are distinct errors, checked before the date |
| Quarterly13FDag.FetchableInputsConfigure | pipeline/quarterly_13f_dag.py:31-52 | every argument set the 13F provider accepts also makes a valid configuration (ingestion/providers/sec_13f_adapter.py:50-57) |
| Quarterly13FDag.Pct | pipeline/quarterly_13f_dag.py:246 | a zero or negative total gives 0; a value within [0, total] gives a percentage in [0, 100] |
| Quarterly13FDag.FirstMaxIndex | pipeline/quarterly_13f_dag.py:222 | the index `max` picks: no value exceeds it and every earlier value is strictly smaller |
| Quarterly13FDag.Tickers | pipeline/quarterly_13f_dag.py:225-232 | the dictionary's keys are exactly the tickers that occur in the rows |
| Quarterly13FDag.TickersDistinct | pipeline/quarterly_13f_dag.py:225-232 | each ticker is a key once |
| Quarterly13FDag.GroupByTicker | pipeline/quarterly_13f_dag.py:225-232 | the grouping loop produces the per-ticker totals in first-appearance order |
| Quarterly13FDag.InsertDescending | pipeline/quarterly_13f_dag.py:234 | inserting into a descending list keeps it descending and adds exactly the one pair |
| Quarterly13FDag.SortDescending | pipeline/quarterly_13f_dag.py:234 | the sort is a permutation of the items, in non-increasing value order, with the same sum |
| Quarterly13FDag.GroupingPreservesTotal | pipeline/quarterly_13f_dag.py:218-232 | the per-ticker totals add up to the portfolio total |
| Quarterly13FDag.Calculate13FMetrics | pipeline/quarterly_13f_dag.py:204-262 | the method computes the metrics function: empty input gives no metrics, otherwise count, total, average, largest position, top five and top-ten concentration |
| Quarterly13FDag.LargestIsFirstMaximum | pipeline/quarterly_13f_dag.py:222 | the largest position is a holding that no holding exceeds, and the first such |
| Quarterly13FDag.TopTickersRankGroups | pipeline/quarterly_13f_dag.py:225-234 | the ranked ticker totals are the grouped totals, in non-increasing order, adding up to the portfolio total |
| Quarterly13FDag.ConcentrationIsAPercentage | pipeline/quarterly_13f_dag.py:236-258 | with no negative holding, the largest share, every top-five share and the top-ten concentration lie in [0, 100] |
| DailyPricesDag.MakeConfig | pipeline/daily_prices_dag.py:25-45 | an empty ticker raises; the end defaults to today and the start to 365 days before the end; an accepted start never follows the end |
| DailyPricesDag.DefaultWindowIsAYear | pipeline/daily_prices_dag.py:38-42 | a configuration given only a ticker ends today and spans exactly 365 days |
| DailyPricesDag.AcceptedRangeIsNonNegative | pipeline/daily_prices_dag.py:44-51 | every accepted configuration has a non-negative days range |
| DailyPricesDag.CalculatePriceMetrics | pipeline/daily_prices_dag.py:197-234 | empty input gives no metrics; it fails (division by zero) exactly when there are two or more rows and the first close is 0; min and max are closes, first and last are the end rows, total volume is the sum, and the return is present exactly with two or more rows |
| DailyPricesDag.CloseRange | pipeline/daily_prices_dag.py:212-215 | the smallest and largest close bracket every row's close |
| DailyPricesDag.Mean | pipeline/daily_prices_dag.py:220 | the average volume times the count is the total volume |
| DailyPricesDag.PositiveClosesGiveMetrics | pipeline/daily_prices_dag.py:197-234 | rows with positive closes always yield metrics, with 0 < min <= max |
| DataExtraction.QuarterSpanAsWritten | data_extraction.py:352-366 | the three boundary rule sets as written; both boundary quarters lie in 1..4 |
| DataExtraction.QuarterSpanOf | data_extraction.py:357-361 | the corrected boundaries: equal to the written ones except that a range crossing into 2024 and ending in March keeps the end year |
| DataExtraction.YearQuarters | data_extraction.py:370-377 | the quarters a year contributes are exactly (y, lo), ..., (y, hi), in order |
| DataExtraction.QuartersOfSpan | data_extraction.py:368-379 | the loop lists exactly the (year, quarter) pairs inside the span, in ascending order |
| DataExtraction.GetSecQuarters | data_extraction.py:344-379 | on parsed dates, lists exactly the pairs inside the written span, in ascending (year, quarter) order |
| DataExtraction.MiddleYearsCovered | data_extraction.py:374-375 | with the corrected boundaries, every quarter of every year strictly between the start and end years is listed |
| DataExtraction.SpanWithinRange | data_extraction.py:352-366 | no listed quarter's year lies before the start year or after the end year, as written and corrected |
| DataExtraction.AsWrittenDropsMiddleQuarters | data_extraction.py:357-361 | as written, 2022-01-01..2024-03-31 lists 2023Q1 but not 2023Q2-Q4 nor 2024Q1; corrected, all of them are listed |
| DataExtraction.ZipFilings | data_extraction.py:90-95 | the zipped filings are as long as the shortest column, and the i-th filing takes the i-th entry of each column |
| DataExtraction.InsertByFilingDate | data_extraction.py:148 | inserting after every pick filed no later keeps the list ordered by filing date and adds exactly the one pick |
| DataExtraction.SortByFilingDate | data_extraction.py:148 | the sort is a permutation ordered by filing-date text |
| DataExtraction.SelectFilings | data_extraction.py:87-148 | the selection loop computes the selection function, and the results are its picks sorted by filing date |
| DataExtraction.SelectedKeys | data_extraction.py:96-121 | a report period is selected exactly when some 13F filing dated inside the window carries it |
| DataExtraction.PickIsAFiling | data_extraction.py:105-121 | every selected entry is one of the filings, inside the window and under its own report period |
| DataExtraction.AmendmentPreferred | data_extraction.py:108-112 | when any filing of a period is an amendment, the period's entry is an amendment |
| DataExtraction.NewestOfItsForm | data_extraction.py:113-117 | no filing of a period with the entry's form was filed after the entry |
| RssIngestion.DropFragment | sentiment/rss_ingestion.py:85-86 | the result is the prefix of the URL before its first '#', and the URL itself when it has none |
| RssIngestion.KeptParams | sentiment/rss_ingestion.py:92-98 | the surviving parameters are exactly those with an '=' whose key is not a tracking parameter, in their original order |
| RssIngestion.FilterParams | sentiment/rss_ingestion.py:92-98 | the parameter loop computes exactly the surviving parameters |
| RssIngestion.RemoveFragment | sentiment/rss_ingestion.py:84-86 | the fragment step computes the fragment-free prefix |
| RssIngestion.RemoveTrackingParams | sentiment/rss_ingestion.py:88-103 | the query step computes the query filter: the base alone when no parameter survives, else base, '?' and the kept parameters joined by '&' |
| RssIngestion.NormalizeUrl | sentiment/rss_ingestion.py:65-105 | the method computes normalize_url as written, and normalising its result once more gives the canonical form |
| RssIngestion.AsWrittenNotIdempotent | sentiment/rss_ingestion.py:82-86 | as written, normalize_url("a #b") is "a " and normalising that again gives "a": the function is not idempotent |
| RssIngestion.SecondPassCanonical | sentiment/rss_ingestion.py:65-105 | normalising twice always lands on the canonical form (normalize_url with a final strip) |
| RssIngestion.CanonicalIdempotent | sentiment/rss_ingestion.py:65-105 | the canonical form is a fixed point of both normalize_url and the canonicalisation, the idempotence the source relies on when it hashes an already normalised URL, which normalises it again (sentiment/rss_ingestion.py:118, 294-295) |
| RssIngestion.UrlHashOfNormalized | sentiment/rss_ingestion.py:108-119 | hashing an already normalised URL gives the digest of the canonical form, so URLs with equal canonical forms share a hash |
| RssIngestion.UrlHashOfCanonical | sentiment/rss_ingestion.py:108-119 | re-hashing a canonical URL gives the digest of that same canonical form |
| RssIngestion.TickerTokens | sentiment/rss_ingestion.py:138-145 | every token found is a whole word-character run of one to five capitals |
| RssIngestion.Hints | sentiment/rss_ingestion.py:157-161 | the filter-and-deduplicate loop keeps distinct tokens, each a qualifying token of the input |
| RssIngestion.HintsComplete | sentiment/rss_ingestion.py:157-161 | every qualifying token reaches the deduplicated list |
| RssIngestion.ExtractTickerHints | sentiment/rss_ingestion.py:122-163 | at most five distinct hints, each two to five capitals and not a false positive |
| RssIngestion.FirstTitleTokenLeads | sentiment/rss_ingestion.py:140-146 | title tokens come first: a qualifying first title token is always the first hint |
| RssIngestion.ProcessRssEntry | sentiment/rss_ingestion.py:245-316 | no item exactly when the stripped title or link is empty; otherwise the stripped title, the normalised link, the hash of the canonical link, the source name and the fetch time |
| RssIngestion.Filtered | sentiment/rss_ingestion.py:479-509 | the items kept are exactly the accepted ones, drawn from the input |
| RssIngestion.FilterRelevantNews | sentiment/rss_ingestion.py:456-512 | exactly the relevant items, in their original order |
| RssIngestion.FilteredAppend | sentiment/rss_ingestion.py:481-509 | the filter keeps relative order: filtering a concatenation filters each part |
| RssIngestion.FilteredIdempotent | sentiment/rss_ingestion.py:481-509 | filtering twice is filtering once |
| RssIngestion.RelevantNewsLaws | sentiment/rss_ingestion.py:456-512 | news filtering distributes over concatenation and is idempotent |
| RssIngestion.ExclusionWins | sentiment/rss_ingestion.py:486-488 | no kept item contains any exclusion term, whatever else it holds |
| RssIngestion.ValidateNewsItem | sentiment/rss_ingestion.py:515-566 | valid exactly when every required field is present, the title has at least five characters, the hash has 64, and publication lies between 365 days back and one hour ahead |
| RssIngestion.ProcessedEntryValidation | sentiment/rss_ingestion.py:245-316 | a processed entry validates exactly when its title has at least five characters and its publication time lies in the window |
| InsiderTrading.Windowed | sentiment/insider_trading.py:209-214 | the windowed transactions are drawn from the input and dated on or after the cutoff, and every input transaction dated on or after the cutoff is among them; as the filter `Keep`, each is kept as often as it occurs and in input order |
| InsiderTrading.Keep | sentiment/insider_trading.py:307-310 | a list comprehension with a condition keeps no more than its input |
| InsiderTrading.KeepCounts | sentiment/insider_trading.py:307-310 | every kept transaction passes the test; each transaction that passes is kept exactly as often as it occurs in the input, and no other is kept |
| InsiderTrading.KeepAppend | sentiment/insider_trading.py:307-310 | filtering keeps the input order: the filter of a concatenation is the concatenation of the filters |
| InsiderTrading.KeepSingle | sentiment/insider_trading.py:307-310 | a single transaction is kept exactly when it passes the test |
| InsiderTrading.KindValueAbsent | sentiment/insider_trading.py:229-235 | transactions of no given type contribute no value and no count of that type |
| InsiderTrading.KindValuePositive | sentiment/insider_trading.py:229-235 | transactions all of one type, each worth something, total a positive value |
| InsiderTrading.Score | sentiment/insider_trading.py:238-245 | with non-negative values the score lies in [-1, 1]; a positive score means more was bought than sold, a negative one the reverse |
| InsiderTrading.ClassImpliesDirection | sentiment/insider_trading.py:250-264 | a moderate or strong class always has a direction, the direction follows the sign, and negating the score flips it |
| InsiderTrading.InsiderSentiment | sentiment/insider_trading.py:189-282 | no data exactly for no transactions; no recent data exactly when none is in the window; a division error exactly for a zero window with recent transactions; otherwise the count, the buy and sell counts (KindCount of the window), the buy and sell values, their total, net and score, its class and direction, the intensity count/window_days and the confidence |
| InsiderTrading.Tally | sentiment/insider_trading.py:224-235 | the tally loop yields the buy and sell totals and counts of the window |
| InsiderTrading.CalculateInsiderSentiment | sentiment/insider_trading.py:189-282 | the method computes the sentiment function |
| InsiderTrading.SentimentScoreBounded | sentiment/insider_trading.py:238-264 | with non-negative values the score is within [-1, 1], and bullish means more bought than sold, bearish the reverse |
| InsiderTrading.UnanimousBuyingIsStrongBullish | sentiment/insider_trading.py:238-264 | a window of purchases only, each with a value, reads as a strong bullish score of 1 |
| InsiderTrading.ClusterAt | sentiment/insider_trading.py:318-325 | a cluster starts with its anchor and holds at most the anchor and the transactions after it |
| InsiderTrading.ClusterNear | sentiment/insider_trading.py:322-325 | every member of a cluster lies within five days of its anchor |
| InsiderTrading.ClusterComplete | sentiment/insider_trading.py:319-325 | after the anchor, a cluster holds every later transaction within five days of the anchor, each as often as it occurs among the later ones, and no other |
| InsiderTrading.ClusterPatterns | sentiment/insider_trading.py:318-337 | the k-th clustering pattern is the pattern of the k-th anchor, in order, whose cluster holds at least three transactions, and there is one per such anchor |
| InsiderTrading.ClusterSizes | sentiment/insider_trading.py:327 | one cluster size per recent transaction, that of the cluster it anchors |
| InsiderTrading.Anchors | sentiment/insider_trading.py:318-327 | the anchors kept are positions whose cluster reaches the threshold, strictly increasing |
| InsiderTrading.AnchorsComplete | sentiment/insider_trading.py:318-327 | no position whose cluster reaches the threshold is missed |
| InsiderTrading.ClusterPatternsComplete | sentiment/insider_trading.py:318-337 | every recent transaction whose cluster holds at least three transactions yields that cluster's pattern |
| InsiderTrading.GatherCluster | sentiment/insider_trading.py:319-325 | the inner loop gathers exactly the anchor's cluster |
| InsiderTrading.DetectClusters | sentiment/insider_trading.py:318-337 | the clustering pass yields exactly the patterns of all anchors |
| InsiderTrading.ClusterPatternMeaning | sentiment/insider_trading.py:327-337 | a clustering pattern has at least three transactions, starts no later than it ends, spans at most ten days and scores in [1.5, 3] |
| InsiderTrading.NonZeroValues | sentiment/insider_trading.py:341 | the values kept for the percentile are exactly the values of the transactions that have one, in order, and none is zero |
| InsiderTrading.LargeScore | sentiment/insider_trading.py:355 | the score is capped at 3, and exceeds 1 for a value above a positive threshold |
| InsiderTrading.LargePatterns | sentiment/insider_trading.py:346-356 | one pattern per transaction above the threshold, in order, built from that transaction with a score of at most 3; every transaction above the threshold yields its pattern |
| InsiderTrading.ConsensusPatterns | sentiment/insider_trading.py:358-383 | at most one pattern, present exactly when at least three transactions are buys or sells and at least 80% or at most 20% of them are buys; bullish with ratio b/(b+s) in the first case, bearish with ratio 1 - b/(b+s) otherwise, scored (ratio - 0.5) * 4 |
| InsiderTrading.ConsensusMeaning | sentiment/insider_trading.py:364-383 | a consensus needs at least three buys and sells; its ratio lies in [0.8, 1] and its score in [1.2, 2]; bullish means at least four buys per sale, bearish four sales per buy |
| InsiderTrading.ConsensusRatio | sentiment/insider_trading.py:365-376 | the buy ratio lies in [0, 1]; 0.8 or more means four buys per sale, 0.2 or less four sales per buy |
| InsiderTrading.RatioThresholds | sentiment/insider_trading.py:365-376 | the buy ratio is at least 0.8 exactly when 5b >= 4(b+s), and at most 0.2 exactly when 5b <= b+s |
| InsiderTrading.InsiderPatterns | sentiment/insider_trading.py:285-391 | no data exactly for no transactions; otherwise the lookback days, the count of the windowed transactions, and the clustering, large-transaction and consensus patterns of the window, in that order |
| InsiderTrading.InsiderPatternsHoldClusters | sentiment/insider_trading.py:318-337 | the report holds the pattern of every cluster of at least three recent transactions |
| InsiderTrading.DetectInsiderPatterns | sentiment/insider_trading.py:285-391 | the method computes the pattern function |
| InsiderTrading.MetricOf | sentiment/insider_trading.py:536-548 | the metric carries its value and the baseline mean and deviation; its z-score is the capped z-score, within the cap; the percentile is the normal CDF of it and the class that of its magnitude |
| InsiderTrading.InsiderAbnormality | sentiment/insider_trading.py:508-587 | no baseline exactly when the baseline is not ready; otherwise the transaction-count, value and net-share metrics, each the MetricOf its current value (0 when missing) and baseline statistics; the composite is the mean of the three magnitudes, in [0, cap], and classified; the confidence grows to 1 at 20 baseline points, and the point count is reported |
| InsiderTrading.AbsZSumBounded | sentiment/insider_trading.py:568-570 | the sum of the capped magnitudes is at most the count times the cap |
| InsiderTrading.DetectInsiderAbnormality | sentiment/insider_trading.py:508-587 | the loop over the three metrics computes the abnormality function |
| InsiderTrading.ValidateInsiderRecord | sentiment/insider_trading.py:590-645 | a valid record is complete, of a known type, has positive shares, and was filed on or after the transaction and at most ten days later |
| InsiderTrading.FilingWindowDecides | sentiment/insider_trading.py:634-643 | for a complete record of a known type with shares, validity holds exactly when the filing is 0 to 10 days after the transaction |
| Abnormality.CappedZScore | sentiment/google_trends.py:274-278 | the z-score (also sentiment/insider_trading.py:540-544) is within the cap, 0 without baseline deviation, the raw score when that is inside the cap, and its sign is that of value minus mean |
| Abnormality.CappedZScoreMonotone | sentiment/google_trends.py:274-278 | a larger observation never gets a smaller capped z-score |
| Abnormality.ZClass | sentiment/google_trends.py:286-291 | a magnitude of at most 1 is normal, at most 2 unusual, beyond that extreme |
| Abnormality.ZClassMonotone | sentiment/google_trends.py:286-291 | the classes are ordered like the magnitudes they classify |
| Abnormality.Confidence | sentiment/google_trends.py:303 | the confidence lies in [0, 1] and is full exactly from the full count on (also sentiment/insider_trading.py:281) |
| GoogleTrends.CalculateSearchBaseline | sentiment/google_trends.py:191-247 | the point count is the number of volumes; a baseline exists exactly from seven volumes on, and then its mean lies between its minimum and maximum and its percentiles carry the fixed ranks |
| GoogleTrends.MeanWithinRange | sentiment/google_trends.py:227 | the mean of values within bounds lies within the same bounds |
| GoogleTrends.DetectSearchAbnormality | sentiment/google_trends.py:250-316 | no baseline exactly when the baseline is insufficient; otherwise the baseline mean and deviation, the capped z-score of the current volume, its normal percentile, class and direction (0 and normal without deviation), a confidence full from 30 points, and the point count; above normal means above the mean, below normal below it |
| GoogleTrends.HigherVolumeHigherScore | sentiment/google_trends.py:274-278 | a higher volume against the same baseline never gets a smaller z-score |
| GoogleTrends.TrendPercent | sentiment/google_trends.py:487-490 | 0 for a baseline average that is not positive; otherwise positive exactly for a rise, negative exactly for a fall, and never below -100 for non-negative volumes |
| GoogleTrends.Average | sentiment/google_trends.py:481-482 | the mean: its product with the count is the sum of the volumes |
| GoogleTrends.CalculateSearchVolumeTrend | sentiment/google_trends.py:461-520 | insufficient data exactly when either list is empty; otherwise the two averages, their trend percentage, its magnitude band and direction, and both point counts |
| GoogleTrends.TrendMeaning | sentiment/google_trends.py:493-509 | an increase means a higher current average, a decrease a lower one, and a decrease is never extreme |
| GoogleTrends.ValidateTrendsRecord | sentiment/google_trends.py:383-431 | valid exactly when every required field is present, the volume lies in [0, 100], the ticker has one to five letters and the id parses as a UUID |
| GoogleTrends.GetCompanyNameForTicker | sentiment/google_trends.py:434-458 | a name exactly for an upper-cased ticker in the fixed table, and then that entry |
| GoogleTrends.CompanyLookupIgnoresCase | sentiment/google_trends.py:458 | the lookup gives the same answer for the ticker, its lower case and its upper case |
| GoogleTrends.TableTickersAreWellFormed | sentiment/google_trends.py:434-458 | every ticker of the table passes the record validator's ticker check (sentiment/google_trends.py:420) |

## Left out

Python semantics the model narrows:

- Text.IsUpper, Text.ToUpper, Text.IsWordChar, Text.IsSpace, Text.AllAlpha: character classes, case mapping and `strip()`/`split()` whitespace are ASCII-only (whitespace includes the separators \x1c to \x1f), where Python's are Unicode. Every member below that upper-cases, strips or matches `\w` on non-ASCII text can disagree with the source. Modelling the Unicode tables is out of proportion to the core.
- PathPolicy.NormalizeTicker: "ß" becomes "_" in the model; Python upper-cases it to "SS" first.
- YFinanceAdapter.ValidateTicker: accepts and rejects by ASCII upper-casing only, so a ticker whose Unicode upper case is ASCII (such as "ß", which Python upper-cases to "SS") is rejected by the model and accepted by the source.
- RssIngestion.ExtractTickerHints: `\b` and `\w` are ASCII. For "NESTLÉ" the model finds the token "NESTL", where Python finds none.
- RssIngestion.TickerTokens: the same ASCII word boundaries.
- GoogleTrends.ValidateTrendsRecord: `isalpha` is ASCII-only, so "ÉA" is rejected where Python accepts it.
- LangchainChains.ParseExecSummary: `strip()` and `split()` use ASCII whitespace only.
- LangchainChains.ExtractBullets: the same ASCII whitespace only.
- Floats are exact reals throughout: no rounding, overflow, NaN or infinity. The drawdown module's 1e-10 equality tolerances become exact comparisons. The 0.8 word-position threshold in the polisher is compared exactly.
- Float formatting (`f"{x:.1f}"`, `round`) is the uninterpreted `fixed` parameter. The logarithm, square root, standard deviation, percentiles and the normal CDF are uninterpreted parameters too. Properties that depend on their values are not stated.
- Json.Shown: renders a string as itself, None and booleans as Python does, but any number as "<number>", a list as "<list>" and a dictionary as "<dict>". Python's `str()` of numbers and containers depends on float printing. It only appears inside error messages and the company name. V1ToV2Builder's company name is "None Inc." for a None ticker, as in the source.
- Patterns.ParseFloat: parses decimal notation only. Python's `float()` also accepts exponents ("1e2"), "inf", "nan" and underscores ("1_000"), so NumberAudit's number and percentage checks read those tokens as unparsable, where the source reads them as numbers.
- NumberAudit.AuditNarrative: an allowed item that is not a string raises in Python; the model's allowed lists hold strings only.
- Dates are proleptic Gregorian dates with valid fields. `strptime` on the input strings of data_extraction.py (get_sec_quarters, the filing-date filter) is not modelled: DataExtraction.GetSecQuarters takes parsed dates, and a filing whose date does not parse is dropped before the model's selection.
- RssIngestion.ProcessRssEntry: an absent attribute and a None value are one `None`. A None `summary` makes the source's `.strip()` raise, which drops the whole entry (sentiment/rss_ingestion.py:283-286). The model instead falls back to `description`.
- InsiderTrading.InsiderAbnormality: a metric that is present but None reads as 0, where the source raises when the baseline deviation is positive (sentiment/insider_trading.py:536-541).
- Concentration.ValueOf: a holding whose value_usd is present but None reads as 0, where the source's sum raises TypeError (analysis/calculations/concentration.py:164).
- InsiderTrading.InWindow: the cutoff `date.today() - timedelta(days=...)` raises OverflowError before year 1; the model's dates have no lower bound.
- NumberAudit.UnreadableFirstRejects: the allowed set is visited in list order; Python iterates a set in hash order, which only matters when several allowed strings fail to parse.
- MetricsV2Schema.ReturnsCheck: a returns value that is neither empty nor a dictionary is an error in the model, where Python may index a list or string. Python's int and float are one number kind (JNum).
- ExecSummaryPolicy.ValidateContract: takes a dictionary only; Python's `in` also works on a list or string input, which the model does not accept.

Behaviour not modelled:

- Guardrails.GenerateRecommendations: returns `Advice` values; `Guardrails.Message` gives each one's text.
- Guardrails.ValidateSufficientData: the `warnings.warn` for 6M with fewer than 90 days (analysis/guardrails.py:72-79) has no effect on the result and is not modelled.
- Guardrails: check_data_freshness, run_all_guardrails and create_data_quality_report read the clock or only wrap the modelled checks into report dictionaries. They are not modelled.
- NumberDateAudit.AuditOf: a percentage violation records its text and normalised value. The `closest_allowed` field (reports/number_date_audit.py:179) is not modelled.
- NumberAudit: create_audit_report (reports/number_audit.py:195-218) only formats the audit as text and is not modelled.
- NumberAudit.AuditFoundElements: the hallucinated and verified lists hold tagged elements (the kind and the token). The source holds the strings "percentage: …", "currency: …", "date: …" and `str(num)`.
- SkeletonGrounding.SkeletonGrounded: ties the volatility and maximum-drawdown percentages of the skeleton to the audit index. The return and currency mentions are not tied at skeleton level. Grounding holds for the corrected routing only: as written, a display under any key other than "display" (max_dd_display, value_display, share_of_total_display, as_of_display) is never indexed (V1ToV2Builder.SuffixedDisplayDroppedAsWritten, V1ToV2Builder.DrawdownDisplayDroppedAsWritten), and the return displays reach the index only as corrected (V1ToV2Builder.PriceDisplaysIndexed).
- V1ToV2Builder: the concentration percentage displays (cr5, hhi, coverage) are not indexed as written either, for the same reason; their corrected indexing is not stated separately.
- MetricsV2Schema.ValidateAuditIndexCompleteness: the missing strings are kept as sets, not as lists in set iteration order.
- MetricsV2Schema.V2Consistency: mismatches are recorded by period and kind, not by their message text.
- V1ToV2Builder: BuildMeta, BuildOwnership and BuildDataQuality copy fields into dictionaries. They carry no contract of their own and are covered through BuildEnhancedMetricsV2.
- LangchainChains and LangchainSummary: the chain construction (create_exec_summary_chain, create_risk_bullets_chain), the environment check, logging, md5 cache keys and `json.dumps` of the inputs are not modelled. The chain is the function parameter `fed`. The risk-bullets chain is `prompt | parser` with no language model between them (reports/langchain_chains.py:250); what LangChain hands the parser in that case is library behaviour outside this model, so no finding is claimed.
- LangchainChains.TruncateAtSentenceEnd: a cut at a sentence end may leave fewer than min_words words. The source does not re-check this and neither does the model.
- LlmPolisher.PolishSummary: the language-model answer is the parameter `answer: Result<string>`; the Ollama client is not modelled.
- ExecSummaryPolicy: load_skeleton_fixture reads a file and is not modelled.
- PathPolicy: get_local_timezone, list_report_files and get_latest_report_path read the time zone or the file system. They are not modelled, and timestamps are naive local times. validate_report_filename is `PathPolicy.IsReportFileName`, a predicate without a contract of its own.
- CrossTickerIndex.Entry: create_cross_ticker_entry (reports/path_policy.py:240-269) is the `Entry` constructor itself; turning a path into text and a datetime into ISO text is not modelled, so those fields are given as strings.
- CrossTickerIndex: the index file's reading, atomic writing and rebuilding (rebuild_index_from_filesystem, _write_index_atomic) and get_index_stats are file I/O. The model works on the in-memory entry list.
- TickerMapper: _load_exchange_data reads files, so the symbol and name maps are fields the caller supplies. get_all_tickers and get_stats only report those maps and are not modelled.
- Sec13FAdapter.CheckFetchInputs: the scraper call, its environment configuration and the conversion of its DataFrame are network I/O. Only the checks before the fetch and the window it searches are modelled.
- YFinanceAdapter: fetch_prices_window is a network call; only its two validators are modelled.
- DataExtraction.SelectFilings: the per-pick index.json request that may drop a pick is a network call. The results are the selected picks, sorted by filing date.
- Quarterly13FDag and DailyPricesDag: the run_* bodies are database plumbing; only the configuration checks and the metric calculations are modelled.
- Clock and identity: `date.today()`, `datetime.now()`, `datetime.utcnow()` and uuid4 are parameters. UUID parsing in validate_trends_record is the parameter `isUuid`. The near-duplicate detection of the news feed (rapidfuzz) is not modelled.

## Findings

| source | as written | input that shows it | evidently intended | confidence | as-written member | corrected member |
|---|---|---|---|---|---|---|
| reports/v1_to_v2_builder.py:260-281 | the recursion only indexes a string found under a key named `display`; a returns section's `display` is a dictionary, so no return display reaches the audit index, and neither do max_dd_display (:156), value_display, share_of_total_display or as_of_display | returns {"1D": 0.01}: its percentage display is missing from percent_strings; a drawdown display "-12.0%" under max_dd_display is missing too | every return display is indexed, as reports/tests/test_v1_to_v2_builder.py:179-186 expects | not executed | V1ToV2Builder.ReturnsNotIndexedAsWritten, V1ToV2Builder.ReturnsDisplayMissedAsWritten, V1ToV2Builder.SuffixedDisplayDroppedAsWritten, V1ToV2Builder.DrawdownDisplayDroppedAsWritten | V1ToV2Builder.PriceDisplaysIndexed, V1ToV2Builder.BuildCorrectedMetricsV2 |
| reports/number_audit.py:110-111 | the date pattern captures the month name in a group, so `re.findall` returns only month names, and no date can match the index's full dates | "June 5, 2024" with that date indexed: the token "June" is reported as hallucinated | whole dates are extracted and indexed dates pass | not executed | NumberAudit.DateGroups, NumberAudit.AsWrittenFlagsEveryDate, NumberAudit.WrittenDateAudit | NumberAudit.IndexedDatesPass, NumberAudit.WrittenDateAudit |
| reports/exec_summary_policy.py:169-176 | the same capturing group: the listed dates are month names | "June 5, 2024": `dates` holds "June" | the whole dates are listed | not executed | ExecSummaryPolicy.AsWrittenCountsEveryDate, ExecSummaryPolicy.WrittenDateListed | ExecSummaryPolicy.WrittenDateListed |
| ingestion/transforms/normalizers.py:191-203 | `'' in key` is true for every key, so a blank issuer name matches the first map entry | a row with an empty issuer name gets ticker AAPL | a blank name finds no match and gives UNKNOWN | not executed | Normalizers.EmptyIssuerIsAppleAsWritten, Normalizers.BlankIssuerRowIsApple | Normalizers.InferMeaning, Normalizers.Infer |
| data_extraction.py:357-361 | for a range crossing into 2024 the end year is cut at April (`> 3`) while the end quarter is cut at March (`>= 3`) | 2022-01-01..2024-03-31 lists 2022Q1-Q4 and 2023Q1 only | all quarters through 2024Q1 are listed | not executed | DataExtraction.QuarterSpanAsWritten, DataExtraction.AsWrittenDropsMiddleQuarters | DataExtraction.QuarterSpanOf, DataExtraction.MiddleYearsCovered |
| sentiment/rss_ingestion.py:82-86 | the URL is stripped before the fragment is cut, so a space before '#' survives | normalize_url("a #b") is "a ", and normalising that gives "a" | normalisation is idempotent, since the stored canonical URL is normalised a second time before hashing (sentiment/rss_ingestion.py:118, 294-295) | not executed | RssIngestion.AsWrittenNotIdempotent | RssIngestion.CanonicalIdempotent |
| reports/llm_polisher.py:141-146 | sentences are split on every '.', including a decimal point | "1.5%" becomes "1. 5%." | decimal numbers are kept intact | not executed | LlmPolisher.DecimalCutAsWritten, LlmPolisher.DecimalCutExample | LlmPolisher.DecimalKeptCorrected, LlmPolisher.DecimalKeptExample |
| reports/metrics_v2_schema.py:192-195 | the volatility check formats `vol_raw * 100` without testing for None | the builder's own section for a missing volatility (raw None, display "Not available") raises TypeError | an unavailable volatility passes the check | not executed | MetricsV2Schema.UnavailableVolatilityRaises | MetricsV2Schema.CorrectedVolatilityOfBuiltSection |
| reports/metrics_v2_schema.py:148 | coverage divides the size of the whole index by the number of found strings | an index of "$1.00" and "$2.00" against the one found string "$5.00" reports 200% while incomplete | the share of found strings that are indexed, at most 100% | not executed | MetricsV2Schema.CoverageAsWrittenExample | MetricsV2Schema.CoveredPctMeaning |
