# Campus air-quality monitor and scenario simulator — a Dafny model

The system is two Streamlit notebooks over a CSV of air-quality readings:

- `AQI_model_08.py`, the monitoring view. It checks that the columns `timestamp`, `AQIH`, `PM2.5` and `PM10` are present. It prints mean, maximum and minimum of the three measures. It groups the readings into calendar hours, keeps the hours whose mean AQIH is above 150, and counts them per hour of the day. Finally it maps a user-entered AQI value to one of six health advisories.
- `simulate_11.py`, the scenario simulator. It checks that `AQIH`, `PM2.5` and `PM10` are present and stops at the first missing one. It offers ratios 0.10, 0.15, …, 1.00 in three select boxes: vegetation, EV adoption and smog-filter effectiveness. It writes three adjusted columns, each the original scaled by (1 − vegetation)(1 − EV)(1 − filter).

Modules:

- `Wrappers` — `Option`; `None` stands for a missing column or pandas' NaN.
- `Frames` — the part of a DataFrame the notebooks use, as a class `Frame`. Its fields are the named columns, the index and the row count. Its methods are `SetIndex` (`set_index(..., inplace=True)`) and `SetColumn` (`df[name] = ...`).
- `Advisory` — `health_tips`.
- `Statistics` — `calculate_statistics`.
- `Hourly` — `analyze_hourly_aqi` in three imperative stages:
  - resample into calendar-hour buckets;
  - filter and count per hour of day;
  - sort by hour.

  Each stage has its own specification. `ResampleHourly` is proved against the per-bucket sum and size (`BucketSum`, `BucketSize`). `CountExceeding` is proved against `Flagged`, the resampled buckets above the threshold per hour. `SortByHour` is proved against `NonZeroPairs`. Lemmas link these, so `HourlyCounts`, which runs the three stages, is proved against the specification function `Histogram`. The properties of `Histogram` are proved as lemmas.
- `Monitoring` — the monitoring notebook's flow: the column gate, statistics, hourly analysis and advisory.
- `Scenario` — the validation loop, the select-box options and their default positions, and `simulate_aqi` acting in place on a `Frame`.

## Model

| member | source | states |
|---|---|---|
| `Advisory.HealthTips` | AQI_model_08.py:142-154 | the advisory is one of the six fixed messages |
| `Advisory.TipOfTier` | AQI_model_08.py:142-154 | the advisory is the one of the value's tier; the tier is the number of breakpoints 50, 100, 150, 200, 300 strictly below the value |
| `Advisory.TierInterval` | AQI_model_08.py:143-154 | a value is in tier k exactly when it is above the k-th breakpoint and at or below the next (both directions) |
| `Advisory.TierMonotone` | AQI_model_08.py:143-154 | a larger AQI never gets a milder advisory |
| `Advisory.Boundaries` | AQI_model_08.py:143-153 | the comparisons are `<=`: 50, 100, 150, 200 and 300 stay in the lower advisory; 51, 101, 151, 201 and 301 move up |
| `Advisory.EmergencyAbove300` | AQI_model_08.py:153-154 | every value above 300 gets the emergency advisory, the top tier |
| `Advisory.TipsDistinct` | AQI_model_08.py:144-154 | the six advisories are pairwise different |
| `Statistics.Max` | AQI_model_08.py:71 | the maximum occurs in the column and bounds every value from above |
| `Statistics.Min` | AQI_model_08.py:72 | the minimum occurs in the column and bounds every value from below |
| `Statistics.SumBetween` | AQI_model_08.py:70 | arithmetic helper for `Summarize`'s mean bounds: n values between lo and hi sum to between n·lo and n·hi |
| `Statistics.Summarize` | AQI_model_08.py:70-72 | NaN (None) exactly for an empty column; otherwise mean × count = sum, max and min occur in the column and bound it, and min ≤ mean ≤ max |
| `Statistics.CalculateStatistics` | AQI_model_08.py:68-79 | each of the nine entries is the mean, max or min of its own column, as `Summarize` describes |
| `Statistics.SummaryUnique` | AQI_model_08.py:68-79 | any two summaries meeting that description are equal, so the description fixes the statistics |
| `Frames.Frame.constructor` | AQI_model_08.py:51 | a frame as loaded has the given columns, one entry per row, and the default integer index |
| `Frames.Frame.SetIndex` | AQI_model_08.py:124 | the timestamp column becomes the index and leaves the columns; the other columns and the row count are unchanged |
| `Frames.Frame.SetColumn` | simulate_11.py:68-70 | the named column is added or overwritten; nothing else changes, and the frame stays well formed |
| `Hourly.FloorHour` | AQI_model_08.py:125 | the `resample('H')` label of a timestamp has minute 0 and differs from the timestamp only in its minute |
| `Hourly.OccupiedIff` | AQI_model_08.py:125 | a calendar-hour bucket is among the data's buckets exactly when at least one reading falls in it |
| `Hourly.BucketMean` | AQI_model_08.py:125 | the mean is NaN (None) exactly for a bucket without readings; otherwise mean × count = sum |
| `Hourly.Exceeds` | AQI_model_08.py:126 | `> 150` on the bucket mean; only an occupied bucket can pass it |
| `Hourly.EmptyBucketNeverCounted` | AQI_model_08.py:125-126 | an hour without readings has a NaN mean and is never counted as exceeding |
| `Hourly.ResampleHourly` | AQI_model_08.py:125 | the keys are exactly the occupied buckets; each holds the bucket's reading count and sum, whose quotient is the bucket's mean |
| `Hourly.FlaggedAreExceeding` | AQI_model_08.py:125-126 | filtering the resampled means by `> 150` keeps exactly the buckets whose mean over the raw readings exceeds 150 |
| `Hourly.FlaggedAdd` | AQI_model_08.py:126-128 | examining one more bucket adds it to its hour's flagged buckets exactly when its mean is above 150 |
| `Hourly.TallyStep` | AQI_model_08.py:128 | one counting step keeps every hour's tally equal to the number of flagged buckets examined so far, and all tallies positive |
| `Hourly.CountExceeding` | AQI_model_08.py:126-128 | the tally has only hours 0-23 as keys; every hour's tally is the number of buckets at that hour of day whose mean is above 150; absent hours count zero |
| `Hourly.SortByHour` | AQI_model_08.py:128 | given a tally over hours 0-23, the result lists the hours with a non-zero tally, in ascending order, with their tallies |
| `Hourly.HourlyCounts` | AQI_model_08.py:125-128 | resample, filter, count and sort compute exactly `Histogram` of the readings |
| `Hourly.NonZeroPairsEntries` | AQI_model_08.py:128 | each listed pair is an hour below the bound with its positive count |
| `Hourly.NonZeroPairsSorted` | AQI_model_08.py:128 | the listed hours are strictly ascending |
| `Hourly.NonZeroPairsCover` | AQI_model_08.py:128 | every hour below the bound with a positive count is listed |
| `Hourly.NonZeroPairsListedIff` | AQI_model_08.py:128 | an hour is listed exactly when it is below the bound and its count is positive (both directions) |
| `Hourly.NonZeroPairsSum` | AQI_model_08.py:128 | the listed counts add up to the sum of all counts |
| `Hourly.HourCountPositive` | AQI_model_08.py:126-128 | an hour's count is positive exactly when some exceeding bucket has that hour of day |
| `Hourly.HistogramShape` | AQI_model_08.py:126-128 | of `Histogram`, the specification of the result: every entry is an hour 0-23 with its count (at least 1); hours ascend; an hour is listed exactly when some exceeding calendar hour falls on it |
| `Hourly.SumFirstAtHours` | AQI_model_08.py:128 | counting a set of buckets hour by hour, the first n counts add up to its members before hour n |
| `Hourly.SumFirstHourCounts` | AQI_model_08.py:126-128 | the counts of hours 0..n-1 add up to the number of exceeding buckets at those hours |
| `Hourly.HistogramTotal` | AQI_model_08.py:126-128 | the counts add up to the number of exceeding calendar-hour buckets |
| `Hourly.DatesOfSameHour` | AQI_model_08.py:125-128 | buckets on the hour that share an hour of day have as many distinct dates as there are buckets |
| `Hourly.CountAtMostDays` | AQI_model_08.py:125-128 | no hour's count exceeds the number of distinct days in the data |
| `Hourly.SafeIffNoneExceeds` | AQI_model_08.py:126-128 | the result is empty (the "generally safe" message) exactly when no bucket's mean exceeds 150 |
| `Hourly.SingleEntry` | AQI_model_08.py:128 | positive counts that sum to one with hour h listed form the single entry (h, 1) |
| `Hourly.SingleExceedingBucket` | AQI_model_08.py:125-128 | one exceeding bucket gives exactly one entry, its hour with count 1 |
| `Hourly.ThresholdIsStrict` | AQI_model_08.py:126 | one reading of exactly 150 is not counted; one of 151 is |
| `Hourly.CalendarHourBeforeHourOfDay` | AQI_model_08.py:125-128 | readings of 200 at 10:00 on one day and 100 at 10:30 on the next give one count at hour 10; means are taken per calendar hour, not per hour of day |
| `Monitoring.View` | AQI_model_08.py:173-176 | the "generally safe" message is shown exactly when the counts are empty; otherwise the chart shows the counts |
| `Monitoring.AnalyzeHourlyAqi` | AQI_model_08.py:123-128 | the frame loses its timestamp column to the index, in place, and the result is `Histogram` of the original timestamps and AQIH |
| `Monitoring.Monitor` | AQI_model_08.py:60-182 | nothing is computed and the frame is untouched exactly when a required column is missing; otherwise the timestamp column has moved into the index, the other columns and the row count are kept, and the report holds the statistics, the hourly chart or the "generally safe" message, and the advisory for the entered value |
| `Monitoring.GateNeedsAllFour` | AQI_model_08.py:60-61 | the gate passes exactly when `timestamp`, `AQIH`, `PM2.5` and `PM10` are all present |
| `Scenario.FirstMissingColumn` | simulate_11.py:52-56 | none is reported exactly when all required columns are present; otherwise the first absent one in checking order |
| `Scenario.SimulateAqi` | simulate_11.py:63-72 | the same frame is returned, with the three adjusted columns written into it in order; index and row count are unchanged |
| `Scenario.Session` | simulate_11.py:52-97 | the run stops exactly when a required column is missing, naming an absent one and changing nothing; without the button press nothing changes; otherwise the columns are the simulated ones |
| `Scenario.Adjust` | simulate_11.py:64-70 | the adjusted column has the original's length, and every adjusted value is the original times the one combined factor `Factor` |
| `Scenario.SimulatedColumns` | simulate_11.py:68-70 | only the three adjusted columns are added or overwritten, each the scaled copy of its source column; every other column is kept |
| `Scenario.SimulatedWellFormed` | simulate_11.py:68-70 | the adjusted columns have one entry per row, so the frame stays well formed |
| `Scenario.SimulateIdempotent` | simulate_11.py:63-72 | simulating twice with the same ratios gives the same columns as simulating once |
| `Scenario.ProductBounds` | simulate_11.py:64-68 | arithmetic helper for the factor bounds: a product of two factors in [0, p] and [0, q] lies in [0, p·q] |
| `Scenario.FactorInUnitInterval` | simulate_11.py:64-68 | with ratios in [0, 1] the combined factor lies in [0, 1] |
| `Scenario.AdjustedBounds` | simulate_11.py:64-70 | with ratios in [0, 1] every adjusted non-negative reading lies between 0 and the original |
| `Scenario.UnchangedIffNoMeasures` | simulate_11.py:64-70 | a positive reading is unchanged exactly when all three ratios are zero |
| `Scenario.FullRatioZeroes` | simulate_11.py:64-70 | a ratio of 1.0 makes every adjusted value zero |
| `Scenario.RatioOptionsRange` | simulate_11.py:84-92 | there are 19 options, 0.10 to 1.00 in steps of 0.05 |
| `Scenario.RatioOptions` | simulate_11.py:85 | the select box offers 19 ratios in strictly ascending order, so each ratio has one position |
| `Scenario.SelectableRatiosReduce` | simulate_11.py:84-92 | with selectable ratios the combined factor is at most 0.729, so every positive reading is strictly reduced |
| `Scenario.WorkedExample` | simulate_11.py:63-70 | ratios 0.30, 0.05 and 0.40 give the factor 0.399, turning readings 120, 80, 100 into 47.88, 31.92, 39.9 |
| `Scenario.VegetationDefaultOffByOne` | simulate_11.py:84-86 | as written, the vegetation box opens at position 5, which is 0.35, while the current cover is 0.30 |
| `Scenario.DefaultIndexAsWrittenShifts` | simulate_11.py:84-89 | as written (`DefaultIndexAsWritten`, `int(current * 20) - 1`), the position computed for option k is k + 1: one step above the current value, and past the end for 1.00 |
| `Scenario.DefaultIndexSelectsCurrent` | simulate_11.py:84-89 | the corrected position `int(r * 20) - 2` of every option r is r's own position |
| `Scenario.DefaultSelection` | simulate_11.py:84-89 | with the corrected position, the pre-selected ratio equals the current value whenever that value is an option |

## Left out

- The Streamlit interface is not modelled: page text, sidebar text, logos, the campus map and every matplotlib chart. `Monitor` returns the hourly section as data: a chart of the counts, or the "generally safe" message.
- Reading the CSV, the file paths and stripping spaces from column names are not modelled. A frame starts with its columns already named and typed.
- `pd.to_datetime` is not modelled. Timestamps are taken as parsed values with date, hour and minute. Day numbers are limited to 1-31 and are not checked against the month.
- `simulate_11.py` parses the timestamp column (line 49) before the validation loop. A file without `timestamp` fails there and never reaches the loop; that failure is not modelled.
- Columns that are not numeric are not modelled: every column other than `timestamp` holds numbers.
- Floating point is not modelled. Readings and ratios are real numbers, so the worked example and the threshold comparisons are exact.
- `Statistics.Summarize`: pandas skips NaN cells when taking mean, max and min. The model has no missing cells inside a column; an empty column gives NaN (None).
- `Hourly.ResampleHourly`: `resample('H')` also creates the empty hours between the first and last reading, with a NaN mean. The model keeps only occupied hours. `Hourly.EmptyBucketNeverCounted` proves the empty ones can never pass the `> 150` filter, so the counts are the same.
- `Hourly.CountExceeding`: the model counts into a map from hour to count. It does not model pandas' ordering of `value_counts` before `sort_index`, because `sort_index` removes it.
- The sidebar lines that show the current conditions (simulate_11.py:77-81) are display only, and the built-up ratio (line 60) is never used. The current vegetation and EV ratios (lines 59 and 61) also set the default positions of their select boxes (lines 86 and 89); the model covers the vegetation one (`CurrentVegetation`).
- The EV box's default cannot show the current 0.05, because 0.05 is not an option. As written it opens on 0.10. The filter box opens at the fixed position 3 (0.25).
- The download button (simulate_11.py:136-138) writes a file and is not modelled. It refers to `adjusted_df`, which exists only in a run where the visualise button was pressed.
- `Session`: Streamlit reruns the whole script on every interaction. The model covers one run.

## Findings

| source | as written | input that shows it | evidently intended | confidence | as-written member | corrected member |
|---|---|---|---|---|---|---|
| simulate_11.py:86 | the vegetation box pre-selects position `int(current * 20) - 1` of options that start at 0.10 | current cover 0.30 gives position 5, i.e. 0.35 | pre-select the current cover, position `int(current * 20) - 2` | medium, not executed | `Scenario.VegetationDefaultOffByOne` | `Scenario.DefaultIndexSelectsCurrent` |
