# OpenSea airdrop estimator: calculation layer in Dafny

This project models the pure calculation layer of the OpenSea airdrop
estimator and proves what it computes. That layer covers:

- the scenario calculator (tokens and USD per wallet for a pool share, a
  valuation, a cohort size and a tier) and the share table and share x
  valuation heatmap built from it;
- the percentile band locator, which walks a rank-sorted distribution of
  wallet-volume buckets and places a wallet's USD total in a rank interval
  of an assumed cohort;
- the slider and option utilities: cohort-size slider options, the fixed
  tier-percentile options, nearest-option snapping, rounding to a step, and
  the slider defaults anchored to a cohort's estimate;
- the multi-cohort orchestration `build_scenario_context`: cohort-size
  scaling, one band entry and one card per cohort, curve-point extraction
  that skips rows whose rank is missing, null or not convertible, the featured share and the primary snapshot;
- the distribution helpers: the wallet-count estimate, the payload-shape
  selection and stable rank sort of a loaded distribution, and the section
  partition of a wallet report;
- the wallet trade summariser of `opensea_metrics.py`: decimal columns with
  fallbacks, direction normalisation, the row loaders with their KeyError,
  ValueError and InvalidOperation cases, and `summarise_wallet`;
- the share card's address shortener `_format_wallet`.

Python floats and `Decimal`s are exact `real`s. The numeric built-ins are
modelled exactly in module `PyNum`:

- `round` rounds half to even;
- `math.ceil` is the ceiling;
- `int()` truncates toward zero;
- `x or d` treats `None` and zero as falsy.

`str.strip()` and `str.lower()` are in `PyStr`. Python exceptions become
`Common.Result` errors.

Modules follow the source:

- `ScenarioCalc`, `Sliders` and `PercentileBand` for app/calculations.py, with `Buckets` for the row fields;
- `DataSources` for app/data_sources.py;
- `Cohort` for app/ui/cohort.py;
- `ScenarioContext` for app/controllers/scenario.py;
- `TradeRows` and `WalletMetrics` for opensea_metrics.py;
- `ShareCard` for app/ui/share.py.

The band locator is modelled on the order the distribution is given in. The
loader sorts buckets by ascending `usd_percentile_rank`, so index 0 is the
lowest-volume bucket. Ranks are counted from that end: the "top X%" wording
elsewhere in the interface is not reconciled with it, and the model keeps
the code's convention.

## Model

| member | source | states |
|---|---|---|
| PercentileBand.Locate | app/calculations.py:171-219 | No band for an empty distribution or a non-positive cohort. A returned band is at the first reachable bucket that matches; its wallets-before is the positive counts of earlier buckets; it takes min(count, cohort - before) >= 1 wallets, never past the cohort; its percentiles are rank / cohort * 100 with 0 <= start < end <= 100. No band means no reachable bucket matches |
| PercentileBand.DeterminePercentileBand | app/calculations.py:176-219 | The source's loop, whose invariant is cumulative_before + remaining == cohort_size, returns exactly the band of the declarative locator |
| PercentileBand.Walk | app/calculations.py:182-217 | From any position whose counters agree with the buckets before it, a result is a band for a matching reachable bucket with no earlier match; no result means no reachable bucket from there matches |
| PercentileBand.BandAt | app/calculations.py:201-211 | The band record echoes the bucket, its index, its full count, the ranks before it and the wallets it takes |
| PercentileBand.PercentBounds | app/calculations.py:201-205 | Ranks 0 <= a < b <= n give percentiles 0 <= p(a) < p(b) <= 100, so the 100% clamp never changes a result |
| PercentileBand.LocateIsFirstMatch | app/calculations.py:194-211 | A band is found at bucket i if and only if i is the first reachable bucket whose range holds the value, or the cohort-exhausting bucket with the value below its minimum |
| PercentileBand.AboveEveryRangeHasNoBand | app/calculations.py:197-219 | A value above the maximum of every reachable bucket gets no band |
| PercentileBand.CohortInsideFirstBucket | app/calculations.py:187-205 | A cohort no larger than the first bucket gets a band exactly when the value is in or below that bucket's range, and the band spans 0% to 100% |
| PercentileBand.AboveEachUnmatchedBucket | app/calculations.py:194-197 | With adjoining ranges, a value at or above the first minimum that misses buckets 0..k-1 lies above bucket k-1's maximum |
| PercentileBand.BandCoverage | app/calculations.py:182-219 | Buckets that hold exactly the cohort and whose ranges adjoin place every value between the first minimum and the last maximum |
| PercentileBand.BandMonotone | app/calculations.py:182-219 | Under the same conditions a larger value never gets an earlier bucket or a lower start percentile |
| PercentileBand.EmptyDistributionHasNoBand | app/calculations.py:176-177 | An empty distribution gives no band |
| PercentileBand.SingleBucketExample | app/calculations.py:171-211 | One 1000-wallet bucket for $0-$100, cohort 1000, value $50: bucket 0, 0% to 100% |
| Buckets.MaxUsd | app/calculations.py:195 | A non-zero maximum is returned as it is; a missing or zero maximum falls back to the minimum |
| Buckets.BeforeMonotone | app/calculations.py:213-214 | The running count of ranks before a bucket never decreases along the walk |
| PyNum.Or | app/calculations.py:183 | `x or d` yields x unless x is missing or zero |
| PyNum.Trunc | app/calculations.py:183 | `int()` truncates toward zero |
| PyNum.RoundHalfEven | app/calculations.py:164 | `round` is within one half of its argument and goes to the even neighbour on a tie |
| PyNum.RoundMonotone | app/controllers/scenario.py:88 | Rounding preserves order |
| PyNum.Ceil | app/calculations.py:168 | `math.ceil(x)` is the integer in [x, x + 1) |
| ScenarioCalc.ComputeScenario | app/calculations.py:22-44 | Share and valuation are echoed; tokens per wallet times wallets in tier is the tier's slice of the OG pool; the USD value is pool% x share% x valuation / wallets in tier, so the supply cancels |
| ScenarioCalc.WalletsInTier | app/calculations.py:32 | Wallets in tier is at least 1 and at least cohort x tier%, and it is one of those two values |
| ScenarioCalc.TokenPrice | app/controllers/scenario.py:41-42 | Price times supply is the valuation in dollars |
| ScenarioCalc.UsdMonotoneInFdv | app/calculations.py:31-37 | With non-negative pool and share percentages, the payout does not fall as the valuation rises |
| ScenarioCalc.UsdMonotoneInShare | app/calculations.py:31-37 | The payout does not fall as the tier's share rises |
| ScenarioCalc.UsdAntitoneInCohort | app/calculations.py:31-37 | The payout does not rise as the cohort grows |
| ScenarioCalc.UsdAntitoneInTier | app/calculations.py:31-37 | The payout does not rise as the tier percentile widens |
| ScenarioCalc.ReferenceScenario | app/calculations.py:22-44 | 1B supply, 15% pool, $4B, 100,000 wallets, top 10%, 20% share: 3,000 tokens and $12,000 per wallet |
| ScenarioCalc.ShareTable | app/calculations.py:47-67 | One row per requested share, in order, duplicates kept, each the scenario for that share |
| ScenarioCalc.FdvRow | app/calculations.py:88-99 | One row per valuation for a fixed share, in order |
| ScenarioCalc.Heatmap | app/calculations.py:78-99 | shares x valuations rows; cell (i, j) at position i * n + j, n being the number of valuations, is the scenario for share i and valuation j |
| Sliders.Geomspace | app/calculations.py:121-125 | One step or fewer gives [start]; otherwise `steps` points starting at `start` |
| Sliders.RoundToSliderStep | app/calculations.py:131 | Each rounded point is a multiple of 5,000 within 2,500 of the point; a point exactly halfway between two multiples goes to the even multiple |
| Sliders.RoundAll | app/calculations.py:131 | Rounds every point, keeping order and length |
| Sliders.OrderedUnique | app/calculations.py:132-137 | The output has no duplicates, has exactly the input's values, and orders them by first occurrence |
| Sliders.OrderedUniqueOfDistinct | app/calculations.py:132-138 | De-duplicating a duplicate-free sequence returns it unchanged |
| Sliders.SliderPoints | app/calculations.py:127-129 | The combined points start at the minimum |
| Sliders.GenerateCohortSliderOptions | app/calculations.py:111-138 | Options are distinct multiples of 5,000; the first is within 2,500 of the minimum; they are exactly the rounded points, in first-occurrence order |
| Sliders.GeneratePercentileOptions | app/calculations.py:141-146 | 25 strictly ascending values from 0.1 to 100, the first 12 at most 10 and the rest above 10 |
| Sliders.NearestIndex | app/calculations.py:157-160 | The index `min(..., key=abs distance)` picks: a closest option, the earliest on ties |
| Sliders.SnapValueToOptions | app/calculations.py:154-160 | The value itself without options; otherwise an option no farther than any other, and no earlier option is as close |
| Sliders.SnapExample | app/calculations.py:154-160 | 73 snaps to 80 among 50, 80 and 100 |
| Sliders.RoundToStep | app/calculations.py:163-164 | A multiple of step within half a step of the value; a value exactly halfway between two multiples goes to the even multiple |
| Sliders.RoundToStepTieExample | app/calculations.py:164 | 12,500 rounded to a step of 5,000 is 10,000: a tie goes to the even multiple, as Python's round does |
| Sliders.RoundUpToStep | app/calculations.py:167-168 | A multiple of step; for a positive step, in [value, value + step) |
| DataSources.EstimateOgCohortSize | app/data_sources.py:39-44 | 0 for an empty distribution; non-negative when no count is negative |
| DataSources.EstimateConcat | app/data_sources.py:44 | The estimate of a concatenation is the sum of the estimates |
| DataSources.EstimateIsRankableTotal | app/data_sources.py:39-44 | With no negative counts, the estimate equals the ranks the band locator can hand out |
| DataSources.SelectRows | app/data_sources.py:19-28 | A document's result.rows (empty when the key is missing), a list as is, and nothing for a missing file or any other JSON |
| DataSources.SortIsSorted | app/data_sources.py:29 | The sort's output is non-decreasing in its rank keys, a missing rank counting as 0 and strings in code-point order |
| DataSources.SortIsPermutation | app/data_sources.py:29 | The sort's output is a permutation of its input |
| DataSources.SortIsStable | app/data_sources.py:29 | Rows with equal rank keep their relative order |
| DataSources.SortOfSorted | app/data_sources.py:29 | Already sorted rows come back unchanged |
| DataSources.SortKeepsEstimate | app/data_sources.py:29-44 | Sorting leaves the wallet-count estimate unchanged |
| DataSources.LoadDistribution | app/data_sources.py:17-29 | TypeError exactly when result.rows is a JSON scalar `sorted` cannot iterate, or when two or more rows have rank keys Python cannot compare: any null rank, or numbers mixed with strings. Otherwise the loaded rows are sorted, a permutation of the selected rows, stable per rank key, and empty for a missing file |
| DataSources.MissingRankSortsFirst | app/data_sources.py:29 | A row with no rank key sorts as 0, ahead of a row of positive rank |
| DataSources.FirstInSection | app/data_sources.py:94 | The first row tagged with the section, and None exactly when no row is tagged |
| DataSources.PartitionReport | app/data_sources.py:91-102 | No rows give the empty report; otherwise the first summary row and the buyer/seller and collection rows, in order, each holding exactly the rows with that tag |
| DataSources.PartitionDisjoint | app/data_sources.py:94-96 | No row is in two sections |
| Cohort.LoadCohort | app/ui/cohort.py:35-43 | TypeError exactly when the distribution cannot be sorted; otherwise the cohort keeps the entry's name and config, its rows are sorted and a permutation of the file's rows, and its estimate is theirs |
| Cohort.LoadCohortData | app/ui/cohort.py:31-44 | TypeError exactly when some entry's distribution cannot be sorted; otherwise one loaded cohort per entry, in order, names distinct, each with the estimate of its file's rows |
| Cohort.SliderMax | app/ui/cohort.py:52-56 | 500,000 without an estimate; otherwise the larger of 500,000 and 120% of the estimate rounded up to the step, so it is a multiple of 5,000 and covers 120% of the estimate |
| Cohort.SliderMid | app/ui/cohort.py:50-57 | 100,000 without an estimate; an estimate below 50,000 gives 50,000; an estimate of at least 50,000 gives that estimate rounded to the nearest multiple of 5,000; always between 50,000 and the slider maximum |
| Cohort.BuildSliderDefaults | app/ui/cohort.py:47-65 | The returned midpoint is the one the options are generated with; without an estimate the options come from (50,000, 100,000, 500,000); the options are distinct multiples of 5,000 |
| ScenarioContext.EffectiveShares | app/controllers/scenario.py:68-69 | An empty share list becomes [20, 30, 40]; others are kept |
| ScenarioContext.FeaturedShare | app/controllers/scenario.py:68-70 | The first share option, or 20 without any |
| ScenarioContext.BaseEstimate | app/controllers/scenario.py:81-83 | At least 1: the primary's positive estimate, else the cohort size, else max(cohort size, 1) |
| ScenarioContext.ScaledCohortSize | app/controllers/scenario.py:86-88 | With x the chosen size times (estimate, or the base when there is none) over the base: within a half of x when x >= 1 (ties to even), and 1 when x < 1 |
| ScenarioContext.UnscaledCohort | app/controllers/scenario.py:86-88 | A cohort with no estimate, or the base estimate, is modelled at max(1, cohort size) |
| ScenarioContext.PrimaryIsUnscaled | app/controllers/scenario.py:81-88 | The primary cohort with a non-negative estimate is modelled at max(1, cohort size) |
| ScenarioContext.ScaledMonotone | app/controllers/scenario.py:86-88 | A larger estimate never gives a smaller scenario cohort |
| ScenarioContext.Subtitle | app/controllers/scenario.py:118-119 | The non-empty parts of timeline label and tagline joined by " · ", or the cohort name when both are empty |
| ScenarioContext.FullLabel | app/controllers/scenario.py:125-128 | The title, followed by " · " and the timeline label when there is one |
| ScenarioContext.CurvePointOf | app/controllers/scenario.py:142-167 | A missing or null rank, or a string rank `float` rejects, yields no point and no error. Otherwise a point exists exactly when the converted rank and max(min, max) are positive; it carries the label, the converted rank, and usd = max(min, max) |
| ScenarioContext.CurvePoints | app/controllers/scenario.py:138-168 | At most one point per row, each valid and labelled with the scenario |
| ScenarioContext.CurvePointsOfRows | app/controllers/scenario.py:138-168 | The points are the concatenation, in row order, of what each row yields |
| ScenarioContext.CohortSizeFor | app/controllers/scenario.py:86-88 | Each cohort's scenario size is its estimate scaled against the build's base from the chosen size, and at least 1 |
| ScenarioContext.ResultFor | app/controllers/scenario.py:89-96 | Each cohort's scenario uses the featured share and the chosen valuation; its USD value is pool% x share% x valuation over the wallets in tier of its scaled size, and its tokens per wallet times those wallets is the pool tokens times share% |
| ScenarioContext.BandFor | app/controllers/scenario.py:104-109 | No band without a wallet report or rows; with both, the percentile-band lookup of the snapshot value over the cohort's rows at its scaled size, which is the first match and has percentiles in [0, 100] |
| ScenarioContext.BandEntryFor | app/controllers/scenario.py:100-136 | start, end and mid are all present or all absent; present exactly when a band is found, and then start and end are the band's percentiles, 0 <= start < mid < end <= 100 and mid is the midpoint |
| ScenarioContext.CardFor | app/controllers/scenario.py:170-186 | The card is primary exactly for the primary name; it carries the cohort's size, payout, labels and curve points, and a highlight only for a positive snapshot |
| ScenarioContext.IndexOf | app/controllers/scenario.py:60 | The position of the named cohort, or the length when none has that name |
| ScenarioContext.TotalUsdSnapshot | app/controllers/scenario.py:63-66 | The summary's total_usd with a report and primary rows; 0 otherwise |
| ScenarioContext.RoundedWalletsInTier | app/controllers/scenario.py:205 | Within a half of wallets x tier% when that is at least 1 (ties to even), and 1 when it is below 1 |
| ScenarioContext.Cards | app/controllers/scenario.py:85-187 | One card per cohort, in cohort order |
| ScenarioContext.Bands | app/controllers/scenario.py:85-136 | One band entry per cohort, in cohort order |
| ScenarioContext.CurveRows | app/controllers/scenario.py:138-168 | The curve rows are the cards' points concatenated, card after card and point after point; so a point is a curve row exactly when it is a point of some card |
| ScenarioContext.CurveRowsValid | app/controllers/scenario.py:138-168 | Every curve row is a valid point labelled with some card |
| ScenarioContext.BuildCurveRowsValid | app/controllers/scenario.py:138-168 | Every curve row of a build is a valid point |
| ScenarioContext.SnapshotFor | app/controllers/scenario.py:205-257 | Price times supply is the valuation; the wallets in tier are the primary's scaled size times tier%, rounded and at least 1; pool tokens are supply x pool%; each share-table row and each heatmap cell (share i, valuation j) is the scenario for the chosen cohort size, that effective share and that valuation |
| ScenarioContext.SharedFor | app/controllers/scenario.py:60-88 | The per-build values: base estimate, featured share and snapshot total |
| ScenarioContext.BuildScenarioContext | app/controllers/scenario.py:45-281 | KeyError exactly when no cohort has the primary name. Otherwise: cards and bands per cohort; curve rows from the cards; the primary result, label and wallets from the primary's iteration; the snapshot, featured share, price, total and signature |
| ScenarioContext.OnePrimaryCard | app/controllers/scenario.py:60-193 | A build succeeds whenever some cohort has the primary name, and then exactly one card is marked primary, the primary cohort's |
| ScenarioContext.PrimaryWalletsAreChosenSize | app/controllers/scenario.py:81-191 | With a non-negative primary estimate, the primary wallets are max(1, cohort size) |
| PyStr.Strip | opensea_metrics.py:91 | The strip has no whitespace at either end, and it is empty exactly for blank text |
| PyStr.StripIsSlice | opensea_metrics.py:91 | Text is its leading whitespace, then its strip, then its trailing whitespace |
| PyStr.StripOfTrimmed | app/ui/share.py:18 | Text without whitespace at its ends is its own strip |
| PyStr.StripIdempotent | app/ui/share.py:18 | Stripping twice is stripping once |
| PyStr.Lower | opensea_metrics.py:107 | Same length, each character lower-cased, no upper-case ASCII left |
| TradeRows.ParseDecimal | opensea_metrics.py:90-94 | Blank text is 0; otherwise the decimal of the stripped text, or InvalidOperation |
| TradeRows.FirstFilled | opensea_metrics.py:98-99 | The first name present with a non-empty value, no earlier one filled |
| TradeRows.ParseOptionalDecimal | opensea_metrics.py:97-101 | The first filled column, parsed; 0 when none is filled or present |
| TradeRows.FilledColumnWins | opensea_metrics.py:97-101 | A filled column with no filled column before it decides the value |
| TradeRows.NormaliseDirection | opensea_metrics.py:104-107 | Missing or empty gives "unknown"; otherwise strip then lower; whitespace-only gives ""; no upper-case ASCII in the result |
| TradeRows.RowStamp | opensea_metrics.py:113-116 | KeyError exactly when the timestamp column is missing; ValueError when it does not parse |
| TradeRows.LoadTradeRow | opensea_metrics.py:112-134 | A trade exactly when the timestamp, both fee fallbacks and the price parse; errors come in the source's order; the fields are the parsed and defaulted columns |
| TradeRows.LoadSaleRow | opensea_metrics.py:140-158 | A sale exactly when the timestamp, both fee fallbacks and the proceeds parse; the fields are the parsed and defaulted columns |
| TradeRows.LoadEach | opensea_metrics.py:110-135 | Success exactly when every row loads; then one record per row, in order |
| TradeRows.LoadEachFirstError | opensea_metrics.py:110-135 | A failed load reports the first failing row's error |
| TradeRows.LoadTrades | opensea_metrics.py:110-135 | One trade per row, in order, or the first failing row's error |
| TradeRows.LoadSales | opensea_metrics.py:138-159 | One sale per row, in order, or the first failing row's error |
| TradeRows.DetermineParameterPayload | opensea_metrics.py:369-372 | An explicit key maps alone to the wallet; otherwise exactly the four fallback keys do |
| WalletMetrics.EarliestIndex | opensea_metrics.py:231 | The first timestamp no later than any other |
| WalletMetrics.LatestIndex | opensea_metrics.py:232 | The first timestamp no earlier than any other |
| WalletMetrics.Timestamps | opensea_metrics.py:230 | One timestamp per trade and sale |
| WalletMetrics.ActivitySpan | opensea_metrics.py:230-232 | First and last activity are among the timestamps and bound every one of them |
| WalletMetrics.TokenSetBound | opensea_metrics.py:244-245 | Distinct tokens never exceed fills |
| WalletMetrics.CollectionSetBound | opensea_metrics.py:246-247 | Distinct collections never exceed fills |
| WalletMetrics.DaySetBound | opensea_metrics.py:250 | Between 1 and fills active days when there is a fill |
| WalletMetrics.GroupsOfDates | opensea_metrics.py:250-252 | Weeks or months never outnumber days |
| WalletMetrics.SummariseWallet | opensea_metrics.py:226-282 | ValueError exactly when there is nothing. Otherwise: first and last activity are timestamps bounding all others; buys, sells and volumes as the direction filters and sums give; net = sells - buys; fees summed over both lists; the counts; distinct tokens, collections, days, ISO weeks and months are the sizes of those sets, tokens, collections and days at most fills, weeks and months at most days |
| WalletMetrics.AnotherBuy | opensea_metrics.py:234-237 | One more buy trade adds one buy and its price to the buy volume |
| WalletMetrics.AnotherBuyKeepsSells | opensea_metrics.py:235-242 | One more buy trade leaves the sells and sell volume alone |
| WalletMetrics.AnotherBuyLowersNet | opensea_metrics.py:254 | One more buy trade lowers the realised net by its price |
| ShareCard.FormatWallet | app/ui/share.py:15-21 | Missing or empty gives ""; a strip of at most 12 characters is shown whole; a longer one gives 11 characters: its first 6, "…", its last 4; never more than 12 |
| ShareCard.Shorten | app/ui/share.py:21 | The first six characters, an ellipsis and the last four |
| ShareCard.ShortenIsTrimmed | app/ui/share.py:18-21 | A shortened label of a stripped value strips to itself |
| ShareCard.ShortLabelIsFixed | app/ui/share.py:18-20 | A stripped label of at most 12 characters formats to itself |
| ShareCard.FormatWalletIdempotent | app/ui/share.py:15-21 | Formatting a formatted label changes nothing |
| ShareCard.FormatExample | app/ui/share.py:15-21 | "0x1234567890abcdef" is shown as "0x1234…cdef" |

## Left out

- Sliders.Geomspace: the fractional power `(stop / start) ** (1 / (steps - 1))` is the parameter `root`, because it has no exact real counterpart.
- Sliders.GenerateCohortSliderOptions: ascending order and the closeness of the last option to the maximum depend on that power, so they are not stated; distinctness, the step and first-occurrence order are.
- Sliders.GenerateCohortSliderOptions: a zero start with more than one step raises ZeroDivisionError in the source; the model requires a non-zero start instead.
- ScenarioCalc.ComputeScenario: a zero total supply raises ZeroDivisionError in the source; the model requires a non-zero supply, and so do the members built on it.
- Sliders.RoundToStep: a zero step raises ZeroDivisionError in the source; the model requires a non-zero step, and RoundUpToStep does the same.
- Sliders.RoundUpToStep: for a negative step only the multiple-of-step property is stated.
- Floating-point rounding error: every float is an exact real.
- The two-decimal display rounding of `build_share_table` is a presentation step.
- Buckets: `wallet_count`, `min_total_usd`, `max_total_usd` and the report's `total_usd` are numbers or None in the model; a string value is left out. For a string, `int()`/`float()` convert numeric text and raise ValueError on other text.
- ScenarioContext.CurvePointOf: a string `min_total_usd` or `max_total_usd` is not representable. The source converts it, or falls back to 0.0 (min) or to the minimum (max) when `float` rejects it.
- PercentileBand.Locate: reads the count and USD fields as numbers or None only, so the ValueError that `int()`/`float()` raise on non-numeric text is not modelled.
- `float()` on a string rank is the parameter `toFloat` of `BuildScenarioContext`.
- DataSources.LoadDistribution: boolean ranks, which Python compares as numbers, are not representable.
- DataSources.SelectRows: a `result` member that is `null` or not an object (AttributeError in the source), and a `rows` member that is a string or an object, which `sorted` would iterate by character or key before `.get` fails on them, are not representable; `rows` is missing, an array or a non-iterable scalar.
- `str.lower()` lowers ASCII letters only; other scripts' case mappings are left out.
- `Decimal(text)` and `parse_timestamp` (`strptime` over three formats) are parameters (`TradeRows.Parsers`). A timestamp is an instant that orders timestamps, plus its calendar date.
- `isocalendar()` is the parameter `isoWeek` of `SummariseWallet`.
- `days_since_first_trade` reads the wall clock and is not modelled.
- `None` values inside CSV rows (short rows from `csv.DictReader`) are left out; rows are maps from column to text.
- Mixing naive and aware datetimes raises TypeError in the source; the model's timestamps are always comparable.
- The formatted text fields of cards and band entries (`band_text`, `payout_text`, `tokens_text`, `wallets_text`) and the reveal steps are display strings and are not modelled.
- `wallets_in_tier_value` in the cohort loop is computed and never used.
- The fallback `primary_result` computed when no cohort has the primary name is unreachable: that name was already looked up in the dictionary and raised KeyError.
- `format_percentile_option`: float-to-text formatting.
- Streamlit rendering and session state, the Dune network client and its polling loop, the share service, file and zip I/O, the distribution file cache, the CLI commands and `print_summary`: these are I/O, UI and network code.
