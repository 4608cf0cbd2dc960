# GammaForge quantitative core in Dafny

A Dafny model of the quantitative engine of GammaForge (`gammaforge` and the
parallel `gex_tracker` package tree), with proofs of what the Python promises.

- **Signed dealer gamma.** The calculator's notional gamma is
  `gamma·100·open_interest·spot`, with puts negated once. The scenario and
  advanced functions use `spot²·gamma·open_interest·100·0.01` instead.
  Each is aggregated over strike bands, a 365-day expiry horizon, group-bys,
  a strike×expiry surface, top-n rankings, prefix sums and |GEX|-weighted
  averages.
- **Scenario shocks** and the zero-gamma bracket search.
- **Black–Scholes Greeks**, with the transcendental functions as parameters.
  The batch loop is modelled too.
- **Flow analytics**: the outer join on the option key, guarded ratios,
  threshold filters and the call/put split.
- **The historical SQLite store**: two keyed tables, one transaction per
  snapshot, read queries, regime analysis, the dominant-expiry rule and backfill.
- **The one-hour option-data cache**, which validates data before saving it.
- **The CBOE provider**: the fallback between two URL patterns, response
  checks, OCC (OSI) symbol fields read from the right, and provider selection.
- **The business-day calendar** and **number formatting**.

Modelling conventions:

- A pandas table is a sequence of records. A SQLite table is a sequence of
  rows in insertion order, with its primary key unique. Python floats are
  `real`.
- Wall-clock time is a parameter `now`, in seconds; `today` is `now / 86400`.
  Calendar dates are day numbers, with day 0 = 1970-01-01.
- Transcendental functions (φ, Φ, log, exp, sqrt) come in a record of
  functions. Its laws are a predicate the Greeks lemmas require.
- Fixed-precision float rendering is a function parameter.
- The network and the cache file are explicit state:
  - an `HttpClient` whose answers are given and which records the URLs asked for;
  - the fetcher's `cache` field;
  - a fault parameter that says how a database write or file save ends.

`scenarios.py`, `black_scholes.py`, `core/utils.py` and `utils/dates.py` are
byte-identical in the two package trees. One module models each pair, and the
table below cites the `gammaforge` copy for each member.

Behaviour kept as written, with lemmas that state it:

- `find_zero_gamma` evaluates `spot²` times one constant at both ends of its
  bracket, so for a non-zero spot and a non-zero signed `γ·OI` total it never
  finds a zero (`AdvancedGex.FindZeroGammaDefault`).
- Strike rows take their type from the sign of their GEX and their expiry from
  the snapshot date. So the dominant expiry is always today
  (`Storage.DominantExpiryIsToday`), and a sign change on a same-day re-run leaves
  a stale row (`Storage.SignFlipKeepsStaleRow`).

## Model

| member | source | states |
|---|---|---|
| CoreUtils.CalculatePriceBounds | src/gammaforge/core/utils.py:6-19 | the bounds are centred on spot and `2·p·spot` apart; `lower ≤ spot ≤ upper` when spot and p are non-negative |
| CoreUtils.DefaultBounds | src/gammaforge/core/utils.py:6-19 | with the default 15% the bounds are `(0.85·spot, 1.15·spot)` |
| CoreUtils.GetOneYearDate | src/gammaforge/core/utils.py:22-24 | exactly 365 days of seconds after now |
| CoreUtils.OneYearIsNotACalendarYear | src/gammaforge/core/utils.py:22-24 | from 2024-01-01 (a leap year) it gives 2024-12-31, one day short of the calendar year |
| Calculator.WithNotionalGamma | src/gammaforge/core/calculator.py:25-39 | each row's notional gamma is `gamma·100·OI·spot`, negated exactly when the type is "P"; every other column is unchanged |
| Calculator.NotionalIdempotent | src/gammaforge/core/calculator.py:20-39 | recomputing for the same spot returns the same table: puts are never negated twice |
| Calculator.NegatePutsTwice | src/gammaforge/core/calculator.py:38-39 | the put flip on its own is an involution, so only the reassignment from `gamma` keeps recomputation idempotent |
| Calculator.GEXCalculator.constructor | src/gammaforge/core/calculator.py:20-23 | construction writes the notional-gamma column into the caller's table |
| Calculator.GEXCalculator.CalculateNotionalGamma | src/gammaforge/core/calculator.py:25-39 | the table becomes `WithNotionalGamma` of itself, with a `notional_gamma` column added |
| Calculator.TotalGexExample | src/gammaforge/core/calculator.py:41-43 | call (γ 0.05, OI 10) and put (γ 0.03, OI 5) at spot 100 total 3500 |
| Calculator.TotalGexCoversAll | src/gammaforge/core/calculator.py:41-50 | the total is the banded by-strike total plus the rows outside the band: no row is filtered out |
| Calculator.InBand | src/gammaforge/core/calculator.py:47-48 | a row is kept iff its strike is within the bounds, both inclusive |
| Calculator.GroupByStrike | src/gammaforge/core/calculator.py:50 | ascending unique strikes, exactly those of the rows, each with its rows' sum; the values total the rows' sum |
| Calculator.StrikeKeys | src/gammaforge/core/calculator.py:50 | the group keys are the sorted distinct strikes and the group totals preserve the sum |
| Calculator.GexByStrike | src/gammaforge/core/calculator.py:45-50 | unique ascending strikes inside `[0.85·spot, 1.15·spot]`, every banded strike present, each value the sum of notional gamma at that strike |
| Calculator.BandedGroups | src/gammaforge/core/calculator.py:45-50 | for any band width, the banded group keys lie in the band, cover every banded row and carry whole-table strike sums |
| Calculator.GexByExpiry | src/gammaforge/core/calculator.py:52-57 | ascending expiries no later than now + 365 days, every such row's expiry present (expired ones included), each value the per-expiry sum |
| Calculator.ExpiryGroups | src/gammaforge/core/calculator.py:52-57 | the horizon filter and expiry grouping keep the total and the per-expiry sums |
| Calculator.GexSurface | src/gammaforge/core/calculator.py:59-75 | rows are ascending expiries within the horizon, columns ascending strikes in the 15% band; a cell is present iff some banded row has that (expiry, strike), and then holds its sum |
| Calculator.SurfaceExpiries | src/gammaforge/core/calculator.py:59-75 | the pivot's expirations are strictly ascending and none is past the one-year horizon |
| Calculator.SurfaceStrikes | src/gammaforge/core/calculator.py:59-75 | the pivot's strikes are strictly ascending and all lie within 15% of spot |
| Calculator.SurfaceCells | src/gammaforge/core/calculator.py:59-75 | a cell key occurs exactly when a kept row has it, and its sum over the kept rows equals its sum over the whole chain |
| Calculator.CellValue | src/gammaforge/core/calculator.py:70-75 | a cell read with missing as 0 is the sum at its (expiry, strike) |
| Calculator.PivotRowTotal | src/gammaforge/core/calculator.py:70-75 | a pivot row adds up to its expiry's total |
| Calculator.PivotTotal | src/gammaforge/core/calculator.py:70-75 | all cells together add up to the total of the pivoted rows |
| Calculator.SurfaceSumsToBandedTotal | src/gammaforge/core/calculator.py:59-75 | the surface's cells sum to the total of the rows inside the band and the horizon |
| Calculator.TopStrikesRanked | src/gammaforge/core/calculator.py:77-84 | "positive": at most n strictly positive strikes, descending, none left out larger; "negative": the mirror image ascending; zero in neither |
| Calculator.TopNWhole | src/gammaforge/core/calculator.py:82-83 | fewer than n selected means every candidate was selected |
| Calculator.GetPutCallGex | src/gammaforge/core/calculator.py:86-102 | net is calls plus puts |
| Calculator.PutCallMatchesByStrike | src/gammaforge/core/calculator.py:86-102 | net plus the banded rows of any other type equals the by-strike total |
| Calculator.PutCallSigns | src/gammaforge/core/calculator.py:86-102 | with non-negative gamma, OI and spot, call GEX is ≥ 0 and put GEX ≤ 0 |
| Calculator.RowSigns | src/gammaforge/core/calculator.py:31-39 | put rows are ≤ 0 and every other row ≥ 0 under the same conditions |
| Calculator.GetCumulativeGex | src/gammaforge/core/calculator.py:104-120 | ascending unique strikes in the 20% band; each entry is the previous one plus that strike's sum; the last is the banded total |
| Calculator.Cumulate | src/gammaforge/core/calculator.py:114-115 | the running sums of the per-strike values, ending at their total |
| Calculator.WeightedExpiration | src/gammaforge/core/calculator.py:132-140 | with zero total weight (all weights NaN, skipped by the sum) the result is 0 |
| Calculator.WeightedExpirationBounds | src/gammaforge/core/calculator.py:127-140 | with some non-zero gamma the result lies between the smallest and largest days to expiry |
| Calculator.WeightedExpirationUnclipped | src/gammaforge/core/calculator.py:127-140 | an expired contract gives a negative average: nothing is clipped |
| Calculator.GEXCalculator.GetWeightedExpiration | src/gammaforge/core/calculator.py:122-140 | writes `days_to_exp` into the table and returns the weighted average of the table as it was |
| Calculator.GetIvProfile | src/gammaforge/core/calculator.py:142-163 | None iff there is no `iv` column; otherwise exactly the (strike, type, iv) of rows expiring within 30 days with strike in the 20% band |
| AdvancedGex.ComputeCallPutGex | src/gex_tracker/core/advanced_gex.py:16-38 | total is call plus put, and total plus the rows of any other type is the sum of `spot²·γ·OI·size·0.01` over all rows |
| AdvancedGex.CallPutSigns | src/gex_tracker/core/advanced_gex.py:29-35 | with non-negative gamma, OI and size the call GEX is ≥ 0 and the put GEX ≤ 0 |
| AdvancedGex.CallPutVersusNotional | src/gex_tracker/core/advanced_gex.py:29-36 | the advanced total (with other-type rows added back) is `0.01·spot` times the calculator's notional total |
| AdvancedGex.ScenarioVersusNotional | src/gex_tracker/core/advanced_gex.py:29-32 | summed over all rows, the spot-squared GEX is `0.01·spot` times the total notional gamma |
| AdvancedGex.GexByMoneyness | src/gex_tracker/core/advanced_gex.py:41-60 | defaults to edges 0.8…1.2; succeeds iff the edges are strictly increasing or are exactly two equal edges (`pd.cut` rejects decreasing edges, and repeated ones except when there are only two); two equal edges give the one interval `(a, a]` with sum 0 |
| AdvancedGex.MoneynessEmptyBin | src/gex_tracker/core/advanced_gex.py:58-60 | the interval `(a, a]` of two equal edges holds no row, so its GEX sum is 0 |
| AdvancedGex.AdjacentEdges | src/gex_tracker/core/advanced_gex.py:58 | strictly increasing edges are exactly the non-decreasing ones without adjacent repeats |
| AdvancedGex.MoneynessBinsDisjoint | src/gex_tracker/core/advanced_gex.py:57-58 | a row falls into at most one bin, and any binned row lies within the outer edges |
| AdvancedGex.MoneynessTotal | src/gex_tracker/core/advanced_gex.py:57-60 | the bins together hold exactly the GEX of the rows within the outer edges; rows outside every bin are dropped |
| AdvancedGex.MoneynessZeroSpot | src/gex_tracker/core/advanced_gex.py:57 | with spot 0 (Python division gives inf/NaN, never inside a bin here) every bin sums to 0 |
| AdvancedGex.ComputeCumulativeGex | src/gex_tracker/core/advanced_gex.py:63-78 | one row per distinct strike |
| AdvancedGex.CumulativeGexStrikes | src/gex_tracker/core/advanced_gex.py:73-75 | strikes strictly ascending, exactly the table's strikes, each with its GEX sum; non-empty input gives non-empty output |
| AdvancedGex.CumulativeGexRunningTotal | src/gex_tracker/core/advanced_gex.py:76 | `cum_gex` starts at the first GEX, adds each next one, and ends at the table's total GEX |
| AdvancedGex.NetGammaQuadratic | src/gex_tracker/core/advanced_gex.py:96-100 | the net gamma at a spot is `spot²` times the signed `γ·OI` total, so its sign is that total's sign everywhere except 0 |
| AdvancedGex.SignTests | src/gex_tracker/core/advanced_gex.py:106 | the sign predicates are exactly `f_low·f_high > 0` and its bisection counterpart `≥ 0` |
| AdvancedGex.BisectStepsInBracket | src/gex_tracker/core/advanced_gex.py:110 | every point the bisection returns lies inside the bracket it started from |
| AdvancedGex.RootOrNone | src/gex_tracker/core/advanced_gex.py:110-113 | a root is returned iff the bisection succeeded, and it is that root; any error becomes None |
| AdvancedGex.FindZeroGammaOutcome | src/gex_tracker/core/advanced_gex.py:93-113 | in closed form: None when spot, both bound factors and the signed total are non-zero; otherwise the lower end if it is a zero, else the upper end |
| AdvancedGex.EndSigns | src/gex_tracker/core/advanced_gex.py:103-106 | each end is a zero iff spot, its factor or the signed total is 0; the ends share a strict sign iff neither is 0 |
| AdvancedGex.FindZeroGammaEnds | src/gex_tracker/core/advanced_gex.py:102-110 | the bisection is never reached with both ends non-zero: the answer is an end point or None |
| AdvancedGex.FindZeroGammaDefault | src/gex_tracker/core/advanced_gex.py:81-113 | with the default `(0.8, 1.2)` there is no zero iff spot and the signed `γ·OI` total are both non-zero |
| AdvancedGex.ClippedDays | src/gex_tracker/core/advanced_gex.py:141 | whole days to expiry, never negative, and exactly `(expiration − now) div 86400` when not expired |
| AdvancedGex.ComputeWeightedMetrics | src/gex_tracker/core/advanced_gex.py:116-134 | zero total |GEX| gives both metrics 0 |
| AdvancedGex.WeightedStrikeBounds | src/gex_tracker/core/advanced_gex.py:136-137 | otherwise the |GEX|-weighted strike lies between the smallest and the largest strike |
| AdvancedGex.WeightedExpiryBounds | src/gex_tracker/core/advanced_gex.py:139-142 | the weighted expiry lies between the smallest and largest clipped day count, hence is never negative |
| BlackScholes.BlackScholesGreeks | src/gammaforge/core/black_scholes.py:9-79 | `T ≤ 0` gives all nine Greeks 0; otherwise it fails exactly when `K = 0` or `σ·√T = 0` (ZeroDivisionError) or `S/K ≤ 0` (math domain error) |
| BlackScholes.GammaVegaPositive | src/gammaforge/core/black_scholes.py:37-56 | with positive spot, strike, time and volatility the Greeks exist and gamma and vega are strictly positive |
| BlackScholes.TypeIndependentGreeks | src/gammaforge/core/black_scholes.py:55-67 | gamma, vega, vanna, speed and color do not depend on the option type, nor does success |
| BlackScholes.NonCallIsPut | src/gammaforge/core/black_scholes.py:46-63 | any type other than "C" is priced as a put |
| BlackScholes.DeltaRhoParity | src/gammaforge/core/black_scholes.py:46-53 | call delta minus put delta is 1, and call rho minus put rho is `K·T·e^(−rT)` (put–call parity) |
| BlackScholes.ZeroVolatilityRaises | src/gammaforge/core/black_scholes.py:37-38 | zero volatility with time left and a positive moneyness ratio raises ZeroDivisionError |
| BlackScholes.ComputeOptionGreeks | src/gammaforge/core/black_scholes.py:82-122 | the loop over rows returns the batch function's result: the pre-allocated arrays filled row by row, or the first error |
| BlackScholes.FillRowMissing | src/gammaforge/core/black_scholes.py:119-120 | writing a row's Greeks in order fails with KeyError on the first name that has no array |
| BlackScholes.AsWrittenBatchRaises | src/gammaforge/core/black_scholes.py:98-120 | with the arrays as allocated (no `rho`), every non-empty batch fails; when the first row prices, the error is KeyError('rho') |
| BlackScholes.AsWrittenEmptyBatch | src/gammaforge/core/black_scholes.py:98-107 | an empty batch succeeds with the eight allocated arrays and no `rho` |
| BlackScholes.FillRowDistinct | src/gammaforge/core/black_scholes.py:119-120 | with every name allocated, a row's write succeeds, sets each named array at the index to its value and leaves every other array alone |
| BlackScholes.FillRowsAll | src/gammaforge/core/black_scholes.py:109-120 | once every remaining row prices, the loop fills every array up to the end |
| BlackScholes.CorrectedBatchFills | src/gammaforge/core/black_scholes.py:98-120 | with all nine arrays allocated and a fresh 0…n−1 index, the result has the nine keys, each of length n, entry j being row j's Greek |
| BlackScholes.BatchFailsOnBadRow | src/gammaforge/core/black_scholes.py:109-117 | a row whose Greeks raise makes the whole batch raise |
| Scenarios.ScaledSpot | src/gammaforge/core/scenarios.py:32-46 | one row's shocked GEX is `(1+shift)²` times its GEX at the current spot |
| Scenarios.SpotShock | src/gammaforge/core/scenarios.py:14-48 | the new spot is `spot·(1+shift)` and the new total is `(1+shift)²` times the total at the current spot |
| Scenarios.SpotShockScales | src/gammaforge/core/scenarios.py:36-48 | the whole table's GEX scales by `(1+shift)²` under a spot shock |
| Scenarios.SpotShockZero | src/gammaforge/core/scenarios.py:32-48 | a zero shift returns the current spot and the current total |
| Scenarios.GexFromCorrectedBatch | src/gammaforge/core/scenarios.py:77-96 | with a complete Greeks batch, the GEX from its gamma array is the sum of each row's priced GEX |
| Scenarios.VolShockAsWritten | src/gammaforge/core/scenarios.py:51-96 | through the batch as written, any non-empty table raises and the empty one gives 0 |
| Scenarios.VolShockCorrected | src/gammaforge/core/scenarios.py:51-96 | through the corrected batch, the result is the sum of the shocked rows' priced GEX (puts negated) |
| Scenarios.ShockedRowsPrice | src/gammaforge/core/scenarios.py:74-81 | with positive spot, strikes, times and shocked volatilities every shocked row prices |
| Scenarios.ClipAtZero | src/gammaforge/core/scenarios.py:124 | the clipped value is non-negative and equal to the input when that is non-negative |
| Scenarios.SurvivorsMembers | src/gammaforge/core/scenarios.py:127-129 | a row survives, under its original label, iff its time exceeds `days/365`; none survive iff none exceed it |
| Scenarios.TimeDecayNoneSurvive | src/gammaforge/core/scenarios.py:129-130 | when every row expires the result is 0 |
| Scenarios.TimeDecayAsWritten | src/gammaforge/core/scenarios.py:133-137 | as written, one surviving row makes the result an error |
| Scenarios.TimeDecayCorrected | src/gammaforge/core/scenarios.py:119-152 | when every row survives and prices, the corrected batch gives the sum of the decayed rows' priced GEX |
| Scenarios.TimeDecayLabelOverrun | src/gammaforge/core/scenarios.py:127-137 | with the first row expired and the second alive, the surviving row keeps label 1 and writing `results[greek][1]` into one-element arrays raises IndexError |
| Scenarios.SecondSurvives | src/gammaforge/core/scenarios.py:127 | an expired row followed by a live one leaves only the second, still labelled 1 |
| Scenarios.TimeDecayReindexedSum | src/gammaforge/core/scenarios.py:119-152 | corrected by re-indexing the survivors: whenever they all price, the result is the sum of their priced GEX, whatever expired before them |
| Scenarios.TimeDecayReindexedExample | src/gammaforge/core/scenarios.py:127-152 | the input that overruns as written gives the survivor's priced GEX once re-indexed |
| Scenarios.DaysLabelInjective | src/gammaforge/core/scenarios.py:204-208 | distinct day counts get distinct `'{days}d'` labels, so no time scenario is overwritten |
| Scenarios.ShiftLabelCollision | src/gammaforge/core/scenarios.py:187-201 | two shifts with the same sign whose percentages render alike share a label; the later overwrites the earlier |
| Scenarios.FoldOk | src/gammaforge/core/scenarios.py:187-208 | a scenario loop succeeds iff every run succeeds, and then its keys are exactly the labels of the inputs |
| Scenarios.FoldFirstError | src/gammaforge/core/scenarios.py:187-208 | otherwise the error is that of the first failing run |
| Scenarios.FoldLastWins | src/gammaforge/core/scenarios.py:187-208 | an input whose label no later input shares keeps its own result in the dict |
| Scenarios.RunScenarios | src/gammaforge/core/scenarios.py:187-208 | the loop over inputs builds exactly the dict the fold describes |
| Scenarios.ScenarioAll | src/gammaforge/core/scenarios.py:155-210 | base GEX, then spot, vol and time loops in that order; the first error propagates |
| Scenarios.SpotScenariosEntries | src/gammaforge/core/scenarios.py:186-194 | each spot entry whose label is not reused holds `spot·(1+shift)` and the `(1+shift)²`-scaled total |
| Scenarios.ScenarioAllAsWrittenRaises | src/gammaforge/core/scenarios.py:196-201 | as written, a non-empty table with any volatility shift makes the whole report fail |
| Scenarios.TimeScenariosEntries | src/gammaforge/core/scenarios.py:203-208 | each day count's entry is that day count's time-decay result |
| Flow.OneIfZero | src/gex_tracker/core/flow.py:57 | `replace(0, 1)`: never zero, and the input itself whenever that is non-zero |
| Flow.MakeChange | src/gex_tracker/core/flow.py:55-58 | the change is today minus yesterday; the percentage is `100·change/yesterday`, or `100·today` when yesterday is 0 |
| Flow.PairRows | src/gex_tracker/core/flow.py:39-45 | every merged row carries the key, and a key on both sides yields at least one row |
| Flow.KeyRows | src/gex_tracker/core/flow.py:39-52 | a key yields merged rows iff it appears on at least one side (outer join, missing side filled with 0) |
| Flow.MergeOverKeys | src/gex_tracker/core/flow.py:39-45 | a key is in the merge over a key list iff it is listed and appears today or yesterday |
| Flow.CompareOiKeys | src/gex_tracker/core/flow.py:12-60 | the result's keys are exactly the union of today's and yesterday's keys |
| Flow.KeyRowsSums | src/gex_tracker/core/flow.py:39-52 | for a key at most once on each side, its merged row carries today's OI, yesterday's OI and today's GEX, 0 where absent |
| Flow.MergeOverSums | src/gex_tracker/core/flow.py:39-52 | with unique keys on each side, the merged columns total the per-key sums over the key list |
| Flow.CompareOiTotals | src/gex_tracker/core/flow.py:12-60 | with unique keys, the merge preserves total OI of both days and today's total GEX, and the changes sum to the difference of the totals |
| Flow.MergeOverChanges | src/gex_tracker/core/flow.py:55 | every merged row's change is its today OI minus its yesterday OI |
| Flow.KeyRowsChanges | src/gex_tracker/core/flow.py:55 | the same for the rows of one key |
| Flow.PairRowsChanges | src/gex_tracker/core/flow.py:55 | the same for the matched pairs of one key |
| Flow.MeanAtMost | src/gex_tracker/core/flow.py:86 | a mean of values that are all at most c is at most c |
| Flow.AnalyzeVolumeVsOi | src/gex_tracker/core/flow.py:63-91 | one group per (strike, type) key in order, each the aggregate of exactly the rows with that key |
| Flow.VolumeGroupKeys | src/gex_tracker/core/flow.py:83-89 | group keys are unique, ordered by strike, and exactly the keys of the rows |
| Flow.VolumeGroupContents | src/gex_tracker/core/flow.py:77-89 | a group's volume, OI and GEX are its rows' sums, and it is unusual iff one of its rows has volume/OI above the threshold |
| Flow.VolumeMeanBelowThreshold | src/gex_tracker/core/flow.py:80-87 | a group not flagged unusual has a mean volume/OI ratio at most the threshold |
| Flow.VolumeGroupTotals | src/gex_tracker/core/flow.py:83-89 | grouping preserves total volume, OI and GEX |
| Flow.LargeTradesProps | src/gex_tracker/core/flow.py:94-124 | notional descending; a permutation of the qualifying rows with their notional; every row with volume and notional at the minimums is present and no other |
| Flow.AggregateFlowMetrics | src/gex_tracker/core/flow.py:127-154 | call/put sums by type; totals include other types; the ratio is missing iff total OI is 0 and otherwise `RatioOf(volume, OI)`; the percentages are `PercentSplit` of the call and put volumes |
| Flow.RatioOf | src/gex_tracker/core/flow.py:140 | the quotient times the divisor is the dividend |
| Flow.PercentSplit | src/gex_tracker/core/flow.py:149-152 | a positive total splits 100 in proportion; otherwise both stay 0 |
| Flow.PercentSplitBounds | src/gex_tracker/core/flow.py:149-152 | with non-negative volumes both percentages lie in [0, 100] |
| Flow.ShareBounds | src/gex_tracker/core/flow.py:151-152 | proportional shares of a positive non-negative total lie in [0, 100] |
| Formatting.DigitString | src/gex_tracker/utils/formatting.py:91 | the decimal digits of a natural number: non-empty, all digits, no leading zero |
| Formatting.ParseDigitString | src/gex_tracker/utils/formatting.py:91 | reading the digits back gives the number |
| Formatting.IntToDecimal | src/gex_tracker/utils/formatting.py:91 | `str(n)`: non-empty, with neither comma nor point |
| Formatting.IntToDecimalRoundTrip | src/gex_tracker/utils/formatting.py:91 | parsing `str(n)` gives n back, sign included |
| Formatting.Group | src/gex_tracker/utils/formatting.py:91-94 | the `,` grouping of a digit run keeps its last character |
| Formatting.Ungroup | src/gex_tracker/utils/formatting.py:91-94 | removing the separators leaves no comma |
| Formatting.GroupRoundTrip | src/gex_tracker/utils/formatting.py:91-94 | removing the separators from a grouped run gives the run back |
| Formatting.GroupLength | src/gex_tracker/utils/formatting.py:91-94 | a run of n digits gains `(n−1) div 3` commas, one per full group of three after the first |
| Formatting.GroupFixed | src/gex_tracker/utils/formatting.py:71 | grouping a fixed rendering (only the integer part, sign kept) keeps its last character |
| Formatting.GroupUnsigned | src/gex_tracker/utils/formatting.py:71 | grouping the unsigned part keeps its last character |
| Formatting.GroupUnsignedRoundTrip | src/gex_tracker/utils/formatting.py:71 | removing the separators from the grouped unsigned part gives it back |
| Formatting.GroupFixedRoundTrip | src/gex_tracker/utils/formatting.py:71 | removing the separators from a grouped fixed rendering gives it back |
| Formatting.FormatBillions | src/gex_tracker/utils/formatting.py:6-17 | a "$" prefix, the value in billions at the given precision, and a "B" suffix |
| Formatting.FormatMillions | src/gex_tracker/utils/formatting.py:20-31 | a "$" prefix, the value in millions at the given precision, and an "M" suffix |
| Formatting.FormatPercentage | src/gex_tracker/utils/formatting.py:34-45 | the value is scaled by 100 before rendering (0.1 is "10.00%") and a "%" follows |
| Formatting.FormatCurrency | src/gex_tracker/utils/formatting.py:48-71 | always a "$" prefix |
| Formatting.CurrencyScale | src/gex_tracker/utils/formatting.py:64-71 | suffix "B" iff auto-scaling and |value| ≥ 1e9; "M" iff auto-scaling and 1e6 ≤ |value| < 1e9; otherwise the plain grouped rendering, which ungroups to the fixed rendering |
| Formatting.FormatNumberRoundTrip | src/gex_tracker/utils/formatting.py:74-94 | an int's text parses back to the int, with or without commas; a float's ungroups to its fixed rendering |
| Formatting.GroupExamples | src/gex_tracker/utils/formatting.py:91 | 1234 groups as "1,234" and 1234567 as "1,234,567" |
| Storage.UpsertProps | src/gammaforge/data/storage.py:66-78 | `INSERT OR REPLACE` keeps the primary key unique; afterwards the table holds the new row and exactly the old rows with other keys, and the new row is the only one with its key |
| Storage.UpsertTwice | src/gammaforge/data/storage.py:66-78 | two writes under one key leave the table as the second write alone would |
| Storage.UnpackPair | src/gammaforge/data/storage.py:60 | two-name unpacking succeeds iff there are exactly two items; more raise "too many values to unpack (expected 2)" |
| Storage.PutCallUnpackRaises | src/gammaforge/data/storage.py:60 | unpacking the calls/puts/net dict into two names raises that ValueError |
| Storage.SnapshotRow | src/gammaforge/data/storage.py:56-69 | the daily row has today's date, the given spot, the total GEX, call plus put equal to the net of the put/call split, and the weighted expiry |
| Storage.StoreStrikeRowsKeys | src/gammaforge/data/storage.py:72-78 | the strike upserts keep the (date, strike, type, expiry) key unique |
| Storage.StoreStrikeRowsProps | src/gammaforge/data/storage.py:72-78 | afterwards the table holds the new strike rows and exactly the old rows whose key none of them took |
| Storage.StoreStrikeRowsFrom | src/gammaforge/data/storage.py:72-78 | no row appears that was neither old nor new |
| Storage.StoreKeepsConvention | src/gammaforge/data/storage.py:78 | every stored row keeps type "C" exactly for positive GEX and its expiry equal to its date |
| Storage.SignFlipKeepsStaleRow | src/gammaforge/data/storage.py:44-78 | a strike whose GEX changes sign on a re-run the same day gets a second row, since the type is part of the key |
| Storage.SameDayStoresKeepLatest | src/gammaforge/data/storage.py:33-69 | two snapshots on one day leave only the later daily row for that date |
| Storage.WriteSnapshot | src/gammaforge/data/storage.py:64-78 | the transaction commits iff no statement raises, and then both tables are the upserted ones; otherwise DatabaseError |
| Storage.SnapshotKeepsKeys | src/gammaforge/data/storage.py:33-50 | a committed snapshot keeps both primary keys unique |
| Storage.HistoricalGexProps | src/gammaforge/data/storage.py:80-102 | dates strictly ascending; a row is returned iff it is stored, days is non-negative and its date is at most `days` before today |
| Storage.HistoricalStrikesProps | src/gammaforge/data/storage.py:104-122 | ordered by strike, a permutation of the rows stored for that date, and exactly those |
| Storage.AnalyzeRegimes | src/gammaforge/data/storage.py:124-169 | no analysis iff fewer than 2 history rows; otherwise 5 percentile levels with the 75th as given, the high days exactly those above the 75th percentile, the low days exactly those below the 25th, and no day in both |
| Storage.Heaviest | src/gammaforge/data/storage.py:173-179 | the chosen expiry is among the candidates and none has a larger absolute-GEX total |
| Storage.DominantExpiry | src/gammaforge/data/storage.py:171-184 | None iff no strike row is dated today; otherwise an expiry of today's rows with the largest absolute-GEX total |
| Storage.DominantExpiryIsToday | src/gammaforge/data/storage.py:171-184 | since every stored expiry equals its row's date, the dominant expiry is always today itself |
| Storage.BackfillStep | src/gammaforge/data/storage.py:209-211 | corrected: each date group adds one daily upsert and its banded strike upserts, all under today's date |
| Storage.BackfillLastGroupWins | src/gammaforge/data/storage.py:209-211 | corrected: because every group is stored under today's date, only the last group's daily row survives for today |
| Storage.BackfillEmpty | src/gammaforge/data/storage.py:204-206 | empty history leaves both tables unchanged |
| Storage.HistoryFetch | src/gammaforge/data/storage.py:199-203 | the CBOE provider's history is always empty; the Polygon provider's is its answer, error included |
| Storage.HistoricalGEXTracker.constructor | src/gammaforge/data/storage.py:20-52 | the ticker is upper-cased, the provider is the one `get_data_provider` picks, and table creation keeps what the database already holds, with both primary keys valid |
| Storage.HistoricalGEXTracker.StoreDailySnapshotAsWritten | src/gammaforge/data/storage.py:54-61 | as written every call raises "too many values to unpack (expected 2)" before writing anything |
| Storage.HistoricalGEXTracker.StoreDailySnapshot | src/gammaforge/data/storage.py:54-78 | corrected: writes `days_to_exp` into the calculator's table; commits iff no statement raises, then the daily row and the banded strike rows are upserted; a failure leaves both tables unchanged; the keys stay unique |
| Storage.HistoricalGEXTracker.BackfillHistoricalDataAsWritten | src/gammaforge/data/storage.py:186-217 | as written: a provider error is re-raised; empty history returns normally; any non-empty history raises "too many values to unpack (expected 2)" from the first group's snapshot, with nothing written |
| Storage.HistoricalGEXTracker.StoreGroup | src/gammaforge/data/storage.py:209-211 | corrected: one group is stored through a fresh calculator at its first close; it commits iff its transaction does not raise, and then the tables gain exactly that group's snapshot; otherwise DatabaseError with both tables unchanged |
| Storage.HistoricalGEXTracker.BackfillHistoricalData | src/gammaforge/data/storage.py:186-217 | corrected: a provider error is re-raised with nothing written; otherwise the groups are stored in date order, each in its own transaction; it succeeds iff no group's store raises; on the first failing group its DatabaseError is re-raised and the tables hold exactly the backfill of the groups before it |
| Fetcher.LookupCache | src/gammaforge/data/fetcher.py:53-79 | a cached result exists iff the cache file was written and read back and is at most `CACHE_EXPIRY` seconds old; it is then the stored spot and table; the expiry `CACHE_EXPIRY` is 3600 seconds |
| Fetcher.DayStart | src/gammaforge/data/fetcher.py:36-37 | cutting a time to its date gives the midnight at or before it, less than a day earlier |
| Fetcher.Serialize | src/gammaforge/data/fetcher.py:35-43 | the cache record holds the current time, the spot, the columns and one record per row |
| Fetcher.MissingColumns | src/gammaforge/data/fetcher.py:103-104 | a column is reported missing iff it is required and absent |
| Fetcher.Validate | src/gammaforge/data/fetcher.py:99-106 | a table passes iff it has rows, columns and every required column, and then passes unchanged; otherwise the matching ValueError |
| Fetcher.CheckFetched | src/gammaforge/data/fetcher.py:96-106 | fresh data is accepted iff the provider succeeded and its table validates, and then returned as fetched |
| Fetcher.Upper | src/gammaforge/data/fetcher.py:27 | `ticker.upper()` on ASCII: lower-case letters map to upper case, everything else is kept |
| Fetcher.OptionDataFetcher.constructor | src/gammaforge/data/fetcher.py:19-29 | the ticker is upper-cased and the cache is whatever the file holds |
| Fetcher.OptionDataFetcher.SaveToCache | src/gammaforge/data/fetcher.py:31-51 | the cache becomes what the save leaves, depending on how it ends (written, never opened, or cut short); it never raises |
| Fetcher.OptionDataFetcher.GetOptionData | src/gammaforge/data/fetcher.py:81-115 | a fresh cache entry is returned without any request; otherwise the CBOE fetch runs with its requests recorded, its validated result is returned and, only when accepted, saved |
| Fetcher.OptionDataFetcher.GetHistoricalData | src/gammaforge/data/fetcher.py:117-123 | forwards to the CBOE provider, which returns an empty table |
| Fetcher.CacheRoundTrip | src/gammaforge/data/fetcher.py:31-75 | a fresh saved record reads back with the same spot, columns and rows, except that expirations are cut to midnight |
| Fetcher.FreshnessBoundary | src/gammaforge/data/fetcher.py:63-67 | a record exactly `CACHE_EXPIRY` seconds old is still used; one second later it is not |
| Fetcher.UnreadableCacheMisses | src/gammaforge/data/fetcher.py:53-79 | a missing or unreadable cache file gives a miss, never an error |
| Fetcher.ChainPassesValidation | src/gammaforge/data/fetcher.py:97-106 | every table the CBOE provider returns passes the fetcher's validation, so its checks never reject CBOE data |
| Fetcher.ChainCacheExact | src/gammaforge/data/fetcher.py:31-75 | a CBOE table survives the cache round trip exactly, since its expirations already fall at midnight |
| Fetcher.MidnightCacheExact | src/gammaforge/data/fetcher.py:31-75 | a table whose expiries all fall at midnight is returned unchanged by a lookup within the hour after a successful save |
| Fetcher.MidnightExpiry | src/gammaforge/data/fetcher.py:36-37 | a parsed symbol expiry is always a whole number of days |
| Fetcher.RejectedNeverCached | src/gammaforge/data/fetcher.py:99-111 | data with no rows or without a strike column is rejected with a ValueError and so never reaches the cache |
| Fetcher.MissingColumnsExample | src/gammaforge/data/fetcher.py:103-106 | a table lacking strike and open_interest raises "Missing required columns: ['strike', 'open_interest']" |
| Providers.CharFromEnd | src/gammaforge/data/providers.py:157 | `s[-k]` exists iff the symbol has at least k characters, and is the k-th character from the end |
| Providers.SliceFromEnd | src/gammaforge/data/providers.py:158-160 | `s[-a:-b]` is the slice counted from the end when the symbol is long enough, and empty when it is too short |
| Providers.SymbolFields | src/gammaforge/data/providers.py:157-162 | for root + YYMMDD + flag + 8-digit strike, the type is the flag, the date field is YYMMDD and the strike field is the strike's first five digits, whatever the root's length |
| Providers.SymbolExample | src/gammaforge/data/providers.py:157-162 | "SPXW240315P04500500" reads as a put expiring 2024-03-15 at strike 4500.0 |
| Providers.ParseColumn | src/gammaforge/data/providers.py:158-162 | a column parses iff every symbol does, element by element; otherwise the error is that of the first symbol that does not |
| Providers.ParsedRows | src/gammaforge/data/providers.py:157-162 | one parsed record per quote |
| Providers.BuildChainOk | src/gammaforge/data/providers.py:148-171 | the table is built iff there is an `option` column, every symbol yields a strike and an expiry, and some symbol has a positive strike and a C/P flag |
| Providers.TryResponseProps | src/gammaforge/data/providers.py:134-173 | an accepted response has a non-zero spot, all seven added columns, at least one row, and every row with a positive strike and a C/P type |
| Providers.TryResponseOk | src/gammaforge/data/providers.py:130-173 | an attempt succeeds iff the response is JSON with a `data` field, a non-zero current price, a non-empty option list, and a table that survives parsing and filtering |
| Providers.KeptRowsWellFormed | src/gammaforge/data/providers.py:165-168 | every row kept by the filter has a positive strike and a C/P type |
| Providers.ParsedRowWellFormed | src/gammaforge/data/providers.py:165-168 | the same for one row |
| Providers.HttpClient.constructor | src/gammaforge/data/providers.py:130 | a client starts with no request made |
| Providers.HttpClient.Get | src/gammaforge/data/providers.py:130-132 | a GET returns the server's answer for the URL and records the URL |
| Providers.Urls | src/gammaforge/data/providers.py:128 | one URL per pattern |
| Providers.PatternUrls | src/gammaforge/data/providers.py:121-124 | the two URL patterns, the underscore one tried first and then the primary one |
| Providers.FailureText | src/gammaforge/data/providers.py:180-182 | the final message is the prefix followed by both error lines joined by a newline |
| Providers.ChainRequests | src/gammaforge/data/providers.py:126-130 | the underscore URL is always requested first, and the primary URL is requested iff the underscore attempt failed |
| Providers.ChainOutcomeProps | src/gammaforge/data/providers.py:116-182 | success iff some pattern succeeds, with the result of the first that does and all of its row guarantees; failure is a ValueError starting "Could not fetch data from CBOE endpoint: " |
| Providers.CboeDataProvider.constructor | src/gammaforge/data/providers.py:113 | the provider holds no state |
| Providers.CboeDataProvider.GetOptionChain | src/gammaforge/data/providers.py:116-182 | the loop over patterns returns the chain outcome and records exactly the chain's requests, in order |
| Providers.CboeDataProvider.GetHistoricalData | src/gammaforge/data/providers.py:184-187 | always an empty table without columns |
| Providers.GetDataProvider | src/gammaforge/data/providers.py:189-196 | Polygon is chosen iff it is asked for, the API key is set and non-empty, and the Polygon client starts; otherwise CBOE |
| Calendar.WeekdayAnchors | src/gammaforge/utils/dates.py:64 | day 0 is 1970-01-01, a Thursday (3 with Monday as 0), and 2024-03-01 is a Friday |
| Calendar.WeekdayNext | src/gammaforge/utils/dates.py:64-65 | the weekday advances by one each day, wrapping after Sunday |
| MarketDates.NoThreeDayWeekend | src/gammaforge/utils/dates.py:64-65 | of any three consecutive days at least one is Monday to Friday |
| MarketDates.NextMarketDay | src/gammaforge/utils/dates.py:46-67 | the next market day is strictly after the date and at most 3 days later, a weekday, with no weekday skipped in between |
| MarketDates.PreviousMarketDay | src/gammaforge/utils/dates.py:70-91 | the previous market day is strictly before the date and at most 3 days earlier, a weekday, with no weekday skipped in between |
| MarketDates.BusinessDaysProps | src/gammaforge/utils/dates.py:32-36 | `date_range(freq='B')` is strictly ascending and holds exactly the weekdays of the closed range |
| MarketDates.WeekHasFive | src/gammaforge/utils/dates.py:32-36 | any seven consecutive days hold five business days |
| MarketDates.WindowIsEnough | src/gammaforge/utils/dates.py:113-114 | a window of `2·days` days after its first holds at least `days` business days, so the approximation never runs short |
| MarketDates.SliceTo | src/gammaforge/utils/dates.py:116 | Python's `s[:k]` for non-negative k |
| MarketDates.SliceFrom | src/gammaforge/utils/dates.py:141 | Python's `s[k:]` for negative k |
| MarketDates.BetweenAgreesOnBusinessEnds | src/gammaforge/utils/dates.py:9-43 | dropping the first or last listed day is the same as leaving out the start or end date exactly when that date is itself a business day |
| MarketDates.ExcludeStartDropsMonday | src/gammaforge/utils/dates.py:38-39 | from a Saturday to the Monday after, `include_start=False` removes the Monday, since it drops the first listed day rather than the start date |
| MarketDates.MarketDaysBetweenByDateProps | src/gammaforge/utils/dates.py:9-43 | with the flags read as leaving out the end dates, a day is listed iff it is a business day in the range and not an excluded end |
| MarketDates.MarketDaysAheadProps | src/gammaforge/utils/dates.py:94-116 | for `days ≥ 0`: exactly `days` ascending business days from the start on, with none skipped |
| MarketDates.MarketDaysAheadNegative | src/gammaforge/utils/dates.py:113-116 | a negative count gives an empty list |
| MarketDates.MarketDaysBehindProps | src/gammaforge/utils/dates.py:119-141 | for `days ≥ 1`: exactly `days` ascending business days up to the end date, the latest ones, with none skipped |
| MarketDates.BehindZeroKeepsEnd | src/gammaforge/utils/dates.py:138-141 | `days=0` on a business day returns `[end]`, because `[-0:]` keeps the whole list |
| MarketDates.MarketDaysBehindCountedProps | src/gammaforge/utils/dates.py:119-141 | corrected: exactly `max(days, 0)` business days, none after the end date |

## Left out

- Floating point: Python floats are exact reals here, so rounding, overflow, NaN and inf are not modelled. A division that would give inf or NaN (zero spot in the moneyness bins, zero total open interest in the flow ratio, a zero total weight in the calculator's weighted expiration) is modelled by the value pandas ends up with (no bin, `None`, 0).
- Transcendental functions and the standard normal distribution are parameters whose laws are assumed by the Greeks lemmas. Fixed-precision float rendering is a parameter, and only its comma grouping is concrete.
- `scipy.optimize.bisect` is modelled with its default tolerances and iteration count, in exact arithmetic. Its floating-point stopping behaviour is not modelled.
- Index labels: every input table is taken to carry a fresh `0…n−1` index. Only the time-decay survivors carry the labels of the table they were filtered from.
- Order of ties: `sort_values` and `nlargest`/`nsmallest` are modelled by a stable insertion sort. Which of several equal values comes first is not claimed.
- Merge and group-by output order: `compare_oi_changes` is modelled key by key, with the distinct keys in first-appearance order (today's keys, then yesterday's keys not seen today), whereas pandas' outer merge sorts them; no row order is claimed, only the key set and the column sums. The option key is the (type, strike, expiration) triple rather than its joined string, so two triples that render to the same string are not merged.
- `pd.cut` with fewer than two edges, and the exact text of its error, are not modelled; the bin edges fail or succeed together.
- `analyze_gex_vs_price`: the `pct_change` columns, the correlation and the mean price change per regime are not modelled. `np.percentile` is a parameter. Only the length guard, the five percentile levels and the strict regime thresholds are stated.
- Clock and time zone: `now` is a parameter in whole seconds; the SQL `date('now')` (UTC) and Python's local `datetime.now()` are both taken as `now div 86400`. Sub-second cache timestamps and the ISO-format text are not modelled.
- Dates: date strings and `pd.to_datetime` parsing are not modelled (dates are day numbers), nor are the time of day inside `date_range` and the default of today when no date is given. Exchange holidays are not modelled, as in the source.
- Symbol parsing: `float()` and `to_datetime` accept more spellings than plain digits (signs, exponents, "nan", one-digit months); the model accepts plain digits only and gives its own error texts for the rest.
- A JSON `current_price` that is present but null is treated as missing (the source would raise a TypeError, which the attempt also catches).
- The Polygon provider's REST client is not modelled. `GetDataProvider` takes its construction outcome as a parameter, and the backfill takes the Polygon history answer (for the `days` window ending now) as a parameter, so the window's dates and the rows Polygon builds from its contracts are not modelled.
- The HTTP layer is a given function from URL to response; status codes, timeouts and JSON decoding errors all become a failed response.
- The SQLite engine and the cache file are explicit state. A fault parameter says at which statement the database raises or how a file save ends; file paths and directory creation are not modelled.
- The cached table's columns are stored with the records; the JSON serialisation itself is not modelled.
- `Fetcher.Upper`: upper-cases ASCII letters only, while Python's `str.upper` also maps non-ASCII letters.
- Storage.AnalyzeGexVsPrice: states nothing about the correlation or the per-regime price changes, which depend on `pct_change` and `corr`.
- Logging, plotting, the command-line tools, configuration loading and the WebSocket client are outside the model.

## Findings

| source | as written | input that shows it | evidently intended | confidence | as-written member | corrected member |
|---|---|---|---|---|---|---|
| src/gammaforge/core/black_scholes.py:98-120 | the batch allocates eight arrays without `rho`, but every row's Greeks include `rho`, so the write raises KeyError('rho') | any table with one pricing row | nine arrays, `rho` included, filled row by row | not executed | BlackScholes.AsWrittenBatchRaises | BlackScholes.CorrectedBatchFills |
| src/gammaforge/core/scenarios.py:127-137 | the survivors keep their original index labels while the arrays are sized to the number of survivors, so a survivor after an expired row writes past the end (IndexError) | two rows, the first expiring within `days_forward` and the second not | the survivors re-indexed from 0 before the batch | not executed | Scenarios.TimeDecayLabelOverrun | Scenarios.TimeDecayReindexedSum |
| src/gammaforge/data/storage.py:59-61 | the three-key dict from `get_put_call_gex` is unpacked into two names, which raises ValueError before anything is written | any call | call and put GEX read from the dict by key | not executed | Storage.HistoricalGEXTracker.StoreDailySnapshotAsWritten | Storage.HistoricalGEXTracker.StoreDailySnapshot |
| src/gammaforge/data/storage.py:209-217 | every date group goes through `store_daily_snapshot`, which raises at line 60, so the first group's ValueError is re-raised and no group is stored | any non-empty history table | every date group stored in date order | not executed | Storage.HistoricalGEXTracker.BackfillHistoricalDataAsWritten | Storage.HistoricalGEXTracker.BackfillHistoricalData |
| src/gammaforge/utils/dates.py:38-41 | `include_start=False` drops the first listed business day, even when the start date is not a business day | a Saturday to the following Monday with `include_start=False` gives `[]` | leave out the start date itself | not executed | MarketDates.ExcludeStartDropsMonday | MarketDates.MarketDaysBetweenByDateProps |
| src/gammaforge/utils/dates.py:138-141 | `market_days[-days:]` with `days=0` is the whole list | `days=0` and a weekday end date gives `[end]` | an empty list for zero days | not executed | MarketDates.BehindZeroKeepsEnd | MarketDates.MarketDaysBehindCountedProps |
