# StockFlux core in Dafny

StockFlux pulls recent intraday candles for a stock symbol, derives technical
features from the close prices and fits a baseline regression that predicts
the next close. This project models the three core steps and proves
properties of them.

- **Acquisition** (`app.dfy`, module `App`) covers `fetch_from_finnhub`, `fetch_from_yfinance` and `get_data`.
  - The primary provider is asked for the last `minutes` minutes of candles. An unset or empty API key means no request. Rejections (401/403/429), other HTTP errors, transport faults, non-JSON bodies and a status other than `"ok"` all give no table.
  - The secondary provider chooses its granularity from the lookback, fails on an empty download, normalises column names and keeps the last rows.
  - `get_data` combines the two with Python's `or`.
- **Features** (`engineering.dfy`, module `Engineering`) covers `add_basic_features` and `rsi`.
  - The derived columns are `return_1`, `ma_w`, `rsi_w` per window, `volatility_10` and `target_next_close`, followed by a final `dropna`.
  - `AddBasicFeatures` is an imperative method with the source's loop over the window sizes. It is proved to produce `Featurize`, the table specified column by column.
  - The warm-up of every column is proved, and so is exactly which rows survive.
- **Baseline** (`baseline.dfy`, module `Baseline`) covers `train_baseline`.
  - The steps are `dropna`, feature and target selection, a chronological 75/25 split, a fit on the earlier part, and MAE and MSE on the held-out part.
- **Tables** (`frames.dfy`, module `Frames`) model pandas tables as values.
  - A table has named columns over rows that carry a time index.
  - A missing cell (NaN) is `None`.
  - `SetColumn` is `df[x] = col`. `DropNa` is `dropna()`.
- **Arithmetic** (`stats.dfy`, module `Stats`) holds the totals and means shared by the rolling features and the error metrics.

The network, the clock, the environment variables and the regressor are
parameters:
- the API key;
- the current Unix time;
- the provider's HTTP reply;
- the downloaded table;
- `fit`, which maps the training matrix and targets to a prediction function.

Each fetch also returns the request it would issue, so "no request is made"
and "the request covers the last `minutes` minutes" are statements about
results.

Two points where the code's behaviour is easy to misread; the model follows
the code:
- **Rows after feature derivation.** With 600 complete candles and windows (5, 10, 20), a count that forgets the oscillator's extra warm-up row gives 600 - 19 - 1 = 580. The code yields 600 - 20 - 1 = 579.
  - `rsi_20` averages 20 differences, and the first difference is at row 1, so it is first defined at row 20.
  - This is proved in `Engineering.DefaultWindowsOn600Rows` and, in general, in `Engineering.SurvivingRows`.
- **Fallback.** Here the code departs from its own comment. The docstring of `get_data` (src/app.py:90) promises a fallback to yfinance only when Finnhub fails or is unavailable.
  - The `or` on src/app.py:92 raises instead whenever Finnhub returns a table. See Findings.

## Model

| member | source | states |
|---|---|---|
| Frames.Column | src/features/engineering.py:10-16 | `df[x]` has one cell per row |
| Frames.ColumnCells | src/features/engineering.py:10-16 | row i of `df[x]` is row i's cell in the first column labelled x; later columns with the same label are not read |
| Frames.SetColumn | src/features/engineering.py:10-16 | assigning a column keeps the table rectangular, keeps the row count and the index, and either keeps the column names (overwrite in place) or appends the new name last |
| Frames.SetColumnReads | src/features/engineering.py:10-16 | after `df[x] = col`, column x reads back as col and every other column reads back unchanged |
| Frames.SetColumnKeepsDefined | src/features/engineering.py:10-16 | a complete row stays complete when the assigned cell is defined |
| Frames.DropNaRows | src/features/engineering.py:17 | `dropna` keeps no more rows than it gets; every kept row is complete and comes from the input |
| Frames.DropNa | src/models/baseline.py:13 | `dropna` keeps the column names and leaves a table with no missing cell |
| Frames.DropNaAppend | src/features/engineering.py:17 | filtering a concatenation is concatenating the filtered parts, so survivors keep their relative order |
| Frames.DropNaMembers | src/features/engineering.py:17 | a row survives exactly when it occurs in the input and has no missing cell |
| Frames.DropNaBlock | src/features/engineering.py:17 | when the complete rows are exactly a contiguous block, `dropna` returns that slice |
| Frames.DropNaIdempotent | src/models/baseline.py:13 | the second `dropna` of train_baseline on already-dropped features removes nothing |
| Frames.DropNaKeepsOrder | src/models/baseline.py:13 | the survivors of a strictly time-ordered table are strictly time-ordered |
| Engineering.NatToString | src/features/engineering.py:12-13 | the decimal rendering of a window size used in `ma_{w}` and `rsi_{w}` is never empty |
| Engineering.NatToStringInjective | src/features/engineering.py:12-13 | two window sizes with the same rendering are equal |
| Engineering.WindowNames | src/features/engineering.py:12-13 | the `ma_` and `rsi_` names of a window are window names; a window's two names differ; different windows never share a name |
| Engineering.MaName | src/features/engineering.py:12 | the moving-average column of window w is `ma_` followed by w in decimal |
| Engineering.RsiName | src/features/engineering.py:13 | the oscillator column of window w is `rsi_` followed by w in decimal |
| Engineering.DefaultWindowNames | src/features/engineering.py:4 | the default windows (5, 10, 20) name their columns `ma_5` .. `rsi_20` |
| Stats.Mean | src/features/engineering.py:12 | the mean, taken once per value, adds up to the total of the values |
| Stats.SumNonnegative | src/models/baseline.py:24 | a total of non-negative values is non-negative |
| Stats.MeanNonnegative | src/models/baseline.py:24 | a mean of non-negative values is non-negative |
| Stats.SumSquaredDeviationNonnegative | src/features/engineering.py:15 | a total of squared deviations is non-negative |
| Engineering.SampleVariance | src/features/engineering.py:15 | the sample variance (ddof 1) of a window is never negative |
| Engineering.Window | src/features/engineering.py:12 | a rolling window with min_periods = w exists exactly when w rows end at i and are all defined, and it holds those rows' values in order |
| Engineering.PctChange | src/features/engineering.py:10 | the percentage change is defined exactly where a close and its predecessor are, and growing the previous close by it gives the close back |
| Engineering.ReturnWarmUp | src/features/engineering.py:10 | over complete closes, `return_1` is undefined at row 0 and is close[i]/close[i-1] - 1 after |
| Engineering.Diff | src/features/engineering.py:20 | the difference is defined exactly where a close and its predecessor are, and the previous close plus it gives the close back |
| Engineering.Gains | src/features/engineering.py:21 | clipping below at 0 keeps missing cells missing and turns a defined difference d into max(d, 0): at least d and 0, and equal to one of them |
| Engineering.Losses | src/features/engineering.py:22 | negating the upper-clipped difference keeps missing cells missing and turns a defined difference d into max(-d, 0): at least -d and 0, and equal to one of them |
| Engineering.GainsLossesSplit | src/features/engineering.py:20-22 | the gain minus the loss is the difference, and at least one of the two is 0 |
| Engineering.RollingMean | src/features/engineering.py:12 | a rolling mean is defined exactly where the last w cells are all present (min_periods = w), and then w times it is their total |
| Engineering.RollingMeanNonnegative | src/features/engineering.py:21-22 | a rolling mean of non-negative cells is non-negative, so the mean gain and mean loss are |
| Engineering.MovingAverageWarmUp | src/features/engineering.py:12 | over complete closes, `ma_w` is undefined on rows 0..w-2 and is the mean of the last w closes after |
| Engineering.RollingVariance | src/features/engineering.py:15 | every defined cell of the rolling sample variance is non-negative |
| Engineering.VolatilityWarmUp | src/features/engineering.py:15 | over complete closes, `volatility_10` is defined exactly from row 10 on, one row later than a rolling window of 10 closes |
| Engineering.RsiFormula | src/features/engineering.py:23-24 | with the 1e-9 guard, 100 - 100/(1 + up/(down + 1e-9)) lies in [0, 100) for any non-negative mean gain and loss, so no division by zero occurs |
| Engineering.RsiAt | src/features/engineering.py:19-24 | the oscillator at a row, where defined, lies in [0, 100) |
| Engineering.Rsi | src/features/engineering.py:19-24 | `rsi` has one cell per close and every defined cell lies in [0, 100) |
| Engineering.RsiWarmUp | src/features/engineering.py:13 | over complete closes, `rsi_w` is defined exactly from row w on, because the first difference is at row 1 |
| Engineering.Shift | src/features/engineering.py:16 | `shift(-1)` makes every row see the next close and leaves the last row undefined |
| Engineering.TargetWarmUp | src/features/engineering.py:16 | over complete closes, the target is defined exactly on all rows but the last and equals the next close |
| Engineering.AddWindow | src/features/engineering.py:12-13 | one pass of the window loop keeps the table rectangular, keeps its index and only adds names |
| Engineering.WithWindows | src/features/engineering.py:11-13 | the window loop keeps the table rectangular, keeps its index and only adds names |
| Engineering.WithWindowsStep | src/features/engineering.py:11-13 | running the loop over one more window size is one more pass |
| Engineering.WindowPass | src/features/engineering.py:11-13 | one pass of the loop body, reading `close` back from the table, extends the table to the next prefix of the windows and keeps `close` and `return_1` |
| Engineering.AddWindowWrites | src/features/engineering.py:12-13 | the pass for window w leaves `ma_w` and `rsi_w` holding w's mean and oscillator |
| Engineering.AddWindowSpares | src/features/engineering.py:12-13 | the pass for window v leaves the columns of every other window unchanged |
| Engineering.WithWindowsKeeps | src/features/engineering.py:11-13 | the window loop leaves every column other than the `ma_w`/`rsi_w` of a listed window unchanged, including `close` and `return_1` read inside the loop |
| Engineering.WithWindowsColumns | src/features/engineering.py:11-13 | after the loop, `ma_w` and `rsi_w` hold the moving average and the oscillator of close for every listed w, even when a size is repeated |
| Engineering.WindowPassKeeps | src/features/engineering.py:12-13 | within one pass, the close column read by the second assignment is still the input's close |
| Engineering.TailKeeps | src/features/engineering.py:15-16 | the volatility and target assignments leave every other column unchanged |
| Engineering.FinishFeatures | src/features/engineering.py:15-16 | the two assignments after the loop, reading `return_1` and `close` back, complete the derived table |
| Engineering.Featurize | src/features/engineering.py:5-16 | the derived table keeps every input row with its index and every input column name |
| Engineering.FeatureKeepsInput | src/features/engineering.py:5 | every input column that is not `return_1`, `volatility_10`, `target_next_close` or the `ma_w`/`rsi_w` of a listed window comes through unchanged |
| Engineering.PlainNameSpared | src/features/engineering.py:11-13 | a name without the `ma_`/`rsi_` prefix is never assigned by the window loop, whatever the windows |
| Engineering.PlainNameUntouched | src/features/engineering.py:5 | an input name that does not look derived is never assigned by add_basic_features |
| Engineering.ForeignWindowUntouched | src/features/engineering.py:4 | with the default windows (5, 10, 20), an input column `rsi_7` is not assigned |
| Engineering.FeatureReturn | src/features/engineering.py:10 | `return_1` of the derived table is the percentage change of the input's close |
| Engineering.FeatureWindow | src/features/engineering.py:11-13 | `ma_w` and `rsi_w` of the derived table are the rolling mean and the oscillator of the input's close |
| Engineering.FeatureTail | src/features/engineering.py:15-16 | `volatility_10` is the rolling variance of `return_1` over 10 rows, and `target_next_close` is the shifted close |
| Engineering.FeatureColumns | src/features/engineering.py:5-16 | all derived columns at once, each with its definition, plus the input's own columns |
| Engineering.AddBasicFeatures | src/features/engineering.py:4-17 | a missing close gives the ValueError; otherwise the result is exactly `dropna` of the specified derived table, with the loop invariant that each pass adds that window's columns and keeps close and return_1 |
| Engineering.MaxOf | src/features/engineering.py:11-13 | the largest window size bounds every size and is one of them (0 for none) |
| Engineering.WithWindowsDefined | src/features/engineering.py:11-13 | over complete closes, a complete row at or beyond every window size stays complete through the loop |
| Engineering.CloseComplete | src/features/engineering.py:10 | a complete input has a complete close column |
| Engineering.CompleteRowHasTarget | src/features/engineering.py:16-17 | a complete derived row is never the last row |
| Engineering.CompleteRowHasVolatility | src/features/engineering.py:15-17 | a complete derived row is at row 10 or later |
| Engineering.CompleteRowHasRsi | src/features/engineering.py:13-17 | a complete derived row is at or beyond every window size |
| Engineering.CompleteRowInRange | src/features/engineering.py:17 | a complete derived row lies between max(max windows, 10) and the last row (exclusive) |
| Engineering.InRangeRowComplete | src/features/engineering.py:17 | conversely, over a complete input every row in that range is complete |
| Engineering.CompleteIffInRange | src/features/engineering.py:17 | over a complete input, a derived row is complete exactly when it lies between the warm-up and the last row (exclusive) |
| Engineering.SurvivingRows | src/features/engineering.py:17 | the output is exactly the derived rows max(max W, 10) .. n-2, in order: n - max(max W, 10) - 1 rows, or none when the input is too short |
| Engineering.DefaultWindowsOn600Rows | src/features/engineering.py:4 | 600 complete candles with the default windows (5, 10, 20) give 579 feature rows |
| App.Lift | src/app.py:44-48 | each array becomes a column of defined cells with the same values |
| App.CandleFrame | src/app.py:41-50 | the candle table has the five candle columns in order and one row per timestamp, indexed by it, holding that candle's open, high, low, close and volume |
| App.CandlePositions | src/app.py:41-50 | open, high, low, close, volume stand at positions 0..4 of the candle table |
| App.CandleFrameColumns | src/app.py:41-50 | the candle table has exactly the five columns, is indexed by the timestamps, has no missing cell, and each column reads back as its payload array |
| App.ReadReply | src/app.py:30-54 | a reply yields a table exactly when it is a response that is not rejected, not an HTTP error, decodes as JSON and says `"ok"` |
| App.FetchFromFinnhub | src/app.py:13-54 | a request is issued exactly when a key is set; it covers [now - 60·minutes, now] with the given symbol, resolution and key; a table is returned exactly when a key is set and the reply is accepted, and it is the reply's candle table |
| App.NoKeyNoRequest | src/app.py:19-20 | without a key, nothing is requested and no table is returned |
| App.RejectedGivesNone | src/app.py:32-34 | 401, 403 and 429 give no table |
| App.FaultsGiveNone | src/app.py:36-37 | transport faults, 4xx/5xx statuses and non-JSON bodies are caught and give no table |
| App.NotOkGivesNone | src/app.py:38-39 | a payload whose `s` is absent or not `"ok"` gives no table |
| App.Granularity | src/app.py:63-64 | up to 390 minutes, one day of 1-minute bars; beyond that, five days of 5-minute bars |
| App.Lower | src/app.py:75-79 | lower-casing keeps the length, turns each upper-case letter into its lower-case partner and changes no other character |
| App.Renamed | src/app.py:81-82 | the rename turns `adj close` into `close`, leaves every other name alone, and never produces `adj close` |
| App.NormalisedNames | src/app.py:74-82 | one name per label, taken from the first level of a multi-level label, lower-cased, never `adj close` (renamed to `close`) |
| App.AdjustedCloseBecomesClose | src/app.py:74-82 | yfinance's `Adj Close` label, flat or as the first level of a multi-level label, becomes the `close` column |
| App.Tail | src/app.py:84-85 | `tail(n)` gives the last min(n, len) rows for positive n, none for 0, and all but the first abs(n) for negative n |
| App.FetchFromYFinance | src/app.py:57-85 | the download uses the lookback's granularity; it fails with the empty-data error exactly when the download is missing, has no rows or has no columns; otherwise the result has the normalised names and the tail of the rows |
| App.GetData | src/app.py:88-92 | the primary provider is asked exactly when a key is set; the secondary provider is asked with the lookback's granularity |
| App.FallbackOnPrimaryFailure | src/app.py:92 | when the primary provider yields no table, the secondary provider is asked and its outcome is returned as it is |
| App.BothEmptyRaises | src/app.py:68-72 | when the primary provider yields nothing and the download is empty, the caller gets the empty-data error |
| App.PrimarySuccessRaises | src/app.py:92 | as written, any table from the primary provider makes `get_data` raise, and the secondary provider is never asked |
| App.GetDataFirstSuccess | src/app.py:88-92 | corrected fallback: the primary provider is asked exactly when a key is set, and the secondary with the lookback's granularity |
| App.FirstSuccessWins | src/app.py:90 | corrected fallback: a non-empty primary table is returned as it came without asking the secondary provider; otherwise the secondary's outcome is returned; the only error is the empty-data error |
| Baseline.TestSize | src/models/baseline.py:17-19 | the held-out count is 25% of n rounded up, and never more than n |
| Baseline.ChronologicalSplit | src/models/baseline.py:17-19 | the two parts concatenate back to the input in order, and the second has the held-out count |
| Baseline.FortyRowsSplit | src/models/baseline.py:17-19 | 40 rows split into 30 training rows and 10 held-out rows |
| Baseline.TrainPartEmpty | src/models/baseline.py:17-19 | the training part is empty exactly when at most one row remains |
| Baseline.Matrix | src/models/baseline.py:14 | the feature matrix has one row per table row and one entry per requested feature, and entry (i, j) is row i's value in feature column j |
| Baseline.Series | src/models/baseline.py:15 | the target has one entry per table row, and entry i is row i's value in the target column |
| Baseline.DefaultFeaturesAvailable | src/models/baseline.py:8-14 | the derived table of the default windows has every default feature and the target, so training on it with the default features never fails for a missing column |
| Baseline.Times | src/models/baseline.py:26 | the held-out index lists the rows' times in order |
| Baseline.AbsoluteErrors | src/models/baseline.py:24 | each absolute error is y - p or p - y, never negative, and zero exactly when the prediction equals the truth |
| Baseline.MeanAbsoluteError | src/models/baseline.py:24 | the MAE is never negative |
| Baseline.MeanSquaredError | src/models/baseline.py:25 | the MSE under the root is never negative |
| Stats.SumZeroIffAllZero | src/models/baseline.py:24 | a sum of non-negative errors is zero exactly when every error is |
| Baseline.MaeZeroIffExact | src/models/baseline.py:24 | the MAE is zero exactly when every prediction equals its truth |
| Baseline.TrainBaseline | src/models/baseline.py:12-26 | missing feature or target columns give the KeyError, and only then; with the columns present, at most one complete row gives the splitter's error, and only then; otherwise the train and held-out parts have n - ceil(n/4) and ceil(n/4) entries and the metrics are non-negative |
| Baseline.IndexSplit | src/models/baseline.py:17-19 | the training and held-out index labels are the chronological split of the cleaned table's index |
| Baseline.SplitIsPrefixAndSuffix | src/models/baseline.py:13-23 | training and held-out data are the first and the last rows of the cleaned table in order; X holds exactly the requested columns; each prediction is the fitted model applied to its held-out row |
| Baseline.SplitOfIncreasing | src/models/baseline.py:17-18 | splitting a strictly increasing index puts every earlier label before every later one |
| Baseline.TrainPrecedesHoldout | src/models/baseline.py:17-18 | on a time-ordered table every training row precedes every held-out row, so nothing from the future is fitted |
| Baseline.MaeOverHoldout | src/models/baseline.py:24 | the reported MAE is the average absolute error over the held-out rows, and it is zero only for a perfect holdout |

## Left out

- Network, clock and environment: the HTTP call, its 15-second timeout, `time.time()`, `load_dotenv`/`os.getenv` and the yfinance download are parameters. `main` (printing and reading `SYMBOL`/`MINUTES`) is not modelled.
- Floating point: prices and features are exact reals. NaN is only the missing cell `None`. Infinite values are not modelled.
- Engineering.FeatureInput: requires no zero close, because `pct_change` would produce an infinite return. It also requires windows of at least 1, a restriction of the model: pandas accepts a window of 0, but the means here are totals divided by the window size, and a zero window has no values to average.
- Engineering.RollingVariance: `volatility_10` holds the rolling sample variance rather than its square root (`rolling(10).std()`). The square root has no exact real counterpart here. Every statement about where the column is defined holds for both.
- Baseline.TrainBaseline: reports the MSE instead of its square root (RMSE). It returns the holdout and metrics without the fitted model object. The LinearRegression fit is the parameter `fit`.
- Engineering.PctChange: pandas' default forward fill of missing closes is not modelled. A missing close gives missing returns.
- App.Lower: lower-cases ASCII letters only. Python's `str.lower` also folds other Unicode letters.
- App.FetchFromFinnhub: a body is either JSON that decodes to an object or not JSON at all. A body that decodes to `null`, a list or a number makes `data.get` raise an AttributeError that is not caught. That case is not modelled.
- App.FetchFromFinnhub: an `"ok"` payload must have six arrays of equal length. The KeyError for a missing array and pandas' error for unequal lengths are not modelled. Timestamps stay integer seconds; `pd.to_datetime` is not modelled.
- Engineering.AddBasicFeatures: a table with two columns both named `close` (possible after the yfinance rename) reads the first one. pandas would return a two-column frame there and fail differently.
- `rsi`'s default window 14 is never used by the core and is not modelled separately.
- src/dashboard.py and src/models/train_baseline.py (callers and charts) are not part of this model.

## Findings

| source | as written | input that shows it | evidently intended | confidence | as-written member | corrected member |
|---|---|---|---|---|---|---|
| src/app.py:92 | `fetch_from_finnhub(...) or fetch_from_yfinance(...)` asks a DataFrame for its truth value, which raises ValueError | an API key is set, the reply has status 200, and the body has `"s": "ok"` and parallel candle arrays | return the primary provider's table when it has rows, and fall back when it yields no table or an empty one (the docstring at src/app.py:90) | high, not executed | App.PrimarySuccessRaises | App.FirstSuccessWins |
