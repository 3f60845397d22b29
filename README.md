# PM2.5 lag features of the air-quality predictor

The air-quality predictor forecasts the daily PM2.5 level of a set of monitored
locations. Its features are the PM2.5 values of the previous one, two and three
days (`lagged_1`, `lagged_2`, `lagged_3`) and four daily weather variables.
These lag features are built three times, once per execution path:

- **Backfill** (`backfill-feature-pipeline.py`, with the shared normalisation of
  `backfill.py`) reads each location's CSV and keeps `date`, `pm25` and the
  location's `id`. It concatenates the locations in registry order and sorts the
  result by `(id, date)`. Within each location it sets `lagged_k` to the pm25 value
  `k` rows earlier (`shift(k)`), then drops every row that lacks a lag. When no CSV
  row survives normalisation the loop writes no lag column, and the conversion of
  `lagged_1` raises.
- **Daily** (`daily-feature-pipeline.py`) fetches today's rows location by location
  and skips a location whose fetch fails. Each row gets as `lagged_k` the stored pm25
  of the same location exactly `k` calendar days earlier. The lookup sees only the
  rows stored in the last four days. A lag that is not found stays missing, and no
  row is dropped.
- **Inference** (`batch-inference-pipeline.py`) walks the registry and skips
  locations without forecast rows or with fewer than three recent observations.
  For every other location it takes the pm25 of the three most recent observations
  as one lag triple. Each forecast row of that location becomes one prediction:
  the triple and four weather values form a seven-value feature vector, and the
  predictor's output is clipped at zero.

`util.py` supplies the weather table these paths read. It pairs the k-th
Open-Meteo response with the k-th place key, builds one row per day of the response's
half-open time range, concatenates the frames and drops incomplete rows. It also
supplies each place's first and last air-quality day for the historical request.

Each imperative step is a Dafny `method` with loops and invariants. The `for` loop
over the locations, the `iterrows` loop of the daily engine and the inner forecast
loop are all methods, and the daily engine writes its lags into an `array` in place.
Each method is proved equal to a specification function. The properties the
pipelines promise are lemmas about those functions.

The feature descriptions of the backfill pipeline call `lagged_k` "PM2.5 value from
k days ago", but the code shifts by position. The model follows the code.
`BackfillLags.CalendarLagsWhenConsecutive` states when the description holds: a
location whose rows lie on consecutive days.
`BackfillLags.GapGivesPositionalLag` shows a gap breaking it.
`LagConsistency.EnginesAgreeWhenDaysPresent` proves that the backfill engine and the
daily engine agree on a row when three conditions hold: its three preceding days are all
present, the table holds one row per location and day, and the row is dated yesterday or
later. A duplicate day makes the daily lookup take the first stored row where the
backfill shift takes the positional predecessor. An older row loses lags to the
four-day window (`DailyLags.OldRowLosesLag3`).
`LagConsistency.EnginesDisagreeAcrossGap` shows them parting across a gap.

Files: `sorting.dfy` (string order and the stable sort standing for `sort_values`),
`tables.dfy` (rows, registry, per-location selection, concatenation), `backfill.dfy`,
`backfill_feature_pipeline.dfy`, `daily_feature_pipeline.dfy`,
`batch_inference_pipeline.dfy`, `util.dfy`, and `lag_consistency.dfy` (the two lag
engines compared).

Dates are day numbers. A missing value (NaN, NaT, `None`) is `Option.None`. A raised
exception is a `Result.Failure` naming the error.

## Model

| member | source | states |
|---|---|---|
| Sorting.StrLe | backfill-feature-pipeline.py:47 | Python's `<=` on the `id` strings: lexicographic by code point, a proper prefix first |
| Sorting.StrLeTotal | backfill-feature-pipeline.py:47 | any two ids are comparable |
| Sorting.StrLeTransitive | backfill-feature-pipeline.py:47 | the string order is transitive |
| Sorting.StrLeAntisymmetric | backfill-feature-pipeline.py:47 | two ids each `<=` the other are equal |
| Sorting.SortBy | backfill-feature-pipeline.py:47 | sorting returns a reordering of the table: same length, same multiset of rows |
| Sorting.SortBySorted | backfill-feature-pipeline.py:47 | for a total preorder, the sorted table is ordered: every earlier row is `<=` every later one |
| Sorting.SortByOfSorted | backfill-feature-pipeline.py:47 | sorting a table that is already in order leaves it unchanged |
| Tables.WithLag | daily-feature-pipeline.py:56-58 | writing `lagged_k` sets that column to the value and leaves the other lag columns and the observation unchanged |
| Tables.ForLocation | backfill-feature-pipeline.py:51-52 | `df[df['id'] == id]` holds only rows of that id and is no longer than the table |
| Tables.ForLocationMembers | backfill-feature-pipeline.py:51-52 | a row is in a location's selection iff it is in the table and has that id |
| Tables.ForLocationPermutation | backfill-feature-pipeline.py:47-52 | reordering the table reorders each location's selection: same multiset, same length |
| Tables.WeatherFor | batch-inference-pipeline.py:92 | the forecast rows selected for a location all carry its id |
| Tables.WeatherForMembers | batch-inference-pipeline.py:92 | a weather row is selected iff it is in the table and has that id |
| Tables.WeatherForAbsent | batch-inference-pipeline.py:92-94 | a location with no weather row selects the empty table |
| Tables.Flatten | backfill.py:63 | `pd.concat(frames, ignore_index=True)`: the frames' rows one after another, in list order (its properties are the Flatten lemmas below) |
| Tables.FlattenAppend | backfill.py:63 | concatenating two lists of tables is concatenating their concatenations |
| Tables.FlattenMember | util.py:51 | every row of the concatenation is a row of one of the concatenated frames |
| Tables.FlattenMiddle | util.py:51 | a frame's rows stand in the concatenation between those of the frames before and after it |
| Tables.FlattenForAbsent | backfill.py:63 | concatenating tables none of which belongs to a place gives no row of that place |
| Tables.FlattenForOwner | backfill.py:63 | with distinct owners, selecting owner k from the concatenation gives back table k |
| Backfill.ProcessAirQuality | backfill.py:39-44 | one row per CSV row with both date and median, each stamped with the place's id, with no lag values |
| Backfill.Normalised | backfill.py:39-44 | a CSV row with a date and a median becomes the row with the place's id, that date, the median as pm25, and no lag values |
| Backfill.ProcessAirQualityFromCsv | backfill.py:39-43 | every normalised row has the date and the median of some CSV row as `date` and `pm25` |
| Backfill.ProcessAirQualityKeepsMeasured | backfill-feature-pipeline.py:37-42 | every CSV row that has a date and a median survives, normalised |
| Backfill.ProcessAirQualityIgnoresOtherColumns | backfill.py:42-44 | two CSVs that agree on `date` and `median` normalise alike: dropped columns and the id, stamped after `dropna`, never remove a row |
| Backfill.ProcessAirQualityAppend | backfill.py:43 | normalisation is row by row and keeps the CSV's order |
| Backfill.ProcessedTables | backfill.py:51-61 | one normalised table per registry entry |
| Backfill.ProcessedTablesAt | backfill.py:51-61 | table k is the normalised file of registry entry k |
| Backfill.ProcessedTablesOwned | backfill.py:60-61 | each normalised table holds only rows of its entry's place |
| Backfill.CsvPath | backfill.py:52 | the file of a location is its key under the data directory with the `.csv` suffix |
| Backfill.CsvPathInjective | backfill.py:52 | distinct location keys name distinct files |
| Backfill.ReadLocations | backfill.py:51-61 | succeeds iff every location's file exists, then gives the normalised tables in registry order; otherwise raises FileNotFound naming the first missing file |
| Backfill.Concat | backfill.py:63 | `pd.concat` fails iff the list of tables is empty |
| Backfill.LoadAirQualityData | backfill.py:47-63 | succeeds iff the registry is non-empty and every file exists; the result is the concatenation of the normalised tables in registry order, with no lag values; reports the first missing file, or the empty concatenation |
| Backfill.NoLagColumns | backfill.py:63 | no row of the concatenated table carries a lag value |
| Backfill.NoRowsOfUnlistedPlace | backfill.py:51-63 | a place that no registry entry names has no rows in the concatenation |
| Backfill.LoadedRowsOfPlace | backfill.py:51-63 | with distinct place ids, the rows of place k in the concatenation are exactly its own normalised table, in order |
| BackfillLags.RowLe | backfill-feature-pipeline.py:47 | the key of `sort_values(['id', 'date'])`: by id, then by date |
| BackfillLags.RowLeTotalPreorder | backfill-feature-pipeline.py:47 | the (id, date) order is total and transitive |
| BackfillLags.SortByIdDate | backfill-feature-pipeline.py:47 | `sort_values(['id', 'date'])` is a reordering of the rows |
| BackfillLags.SortByIdDateSorted | backfill-feature-pipeline.py:47 | the reordered table is ordered by id, then date |
| BackfillLags.UniqueIds | backfill-feature-pipeline.py:50 | `unique()` lists every id of the table, each once |
| BackfillLags.UniqueIdsFirstAppearance | backfill-feature-pipeline.py:50 | `unique()` lists only ids of the table, in order of first appearance |
| BackfillLags.ShiftAt | backfill-feature-pipeline.py:55-57 | `Series.shift(k)` read at position c: the value k places earlier, missing for the first k positions |
| BackfillLags.GroupShift | backfill-feature-pipeline.py:55-57 | in a location's rows, `lagged_k` of row j is the pm25 of row j - k, missing for the first k rows; id, date and pm25 unchanged |
| BackfillLags.Shifted | backfill-feature-pipeline.py:50-57 | the lagged table has the same rows in the same order with the same observations |
| BackfillLags.ShiftedAt | backfill-feature-pipeline.py:50-57 | row i's lags are the pm25 of the rows of its own location that come 1, 2, 3 places before it |
| BackfillLags.ShiftAtRow | backfill-feature-pipeline.py:52-55 | the location's pm25 series, shifted by k and read at row i's position in it, is the value k rows of that location back |
| BackfillLags.ShiftedRow | backfill-feature-pipeline.py:55-57 | what the `.loc[mask]` assignment writes at row i is row i of the lagged table |
| BackfillLags.WriteLocationLags | backfill-feature-pipeline.py:51-57 | the rows of the location receive their lagged values; every other row is left unchanged |
| BackfillLags.ShiftLocations | backfill-feature-pipeline.py:50-57 | after the loop over the unique ids, the table is the lagged table |
| BackfillLags.AddLaggedFeatures | backfill-feature-pipeline.py:45-63 | add_lagged_features succeeds iff the table has rows, and then returns the sorted table with the positional lags of each location; on an empty table no lag column is created and reading `lagged_1` raises |
| BackfillLags.BackfillLagged | backfill-feature-pipeline.py:45-63 | what add_lagged_features returns: the table sorted by (id, date), each row with the positional lags of its location (its properties are the lemmas below) |
| BackfillLags.BackfillLaggedKeepsObservations | backfill-feature-pipeline.py:47-63 | the result has as many rows as the input, the sorted table's observation at each position, and is ordered by (id, date) |
| BackfillLags.DropIncompleteLags | backfill-feature-pipeline.py:90 | every remaining row has all three lags, and no row is added |
| BackfillLags.DropIncompleteMembers | backfill-feature-pipeline.py:90 | a row is kept iff it is in the table and has all three lags |
| BackfillLags.LoadAirQualityData | backfill-feature-pipeline.py:66-93 | succeeds iff the registry is non-empty, every file exists and the concatenation has rows; the result is the concatenation, lagged, with incomplete rows dropped, and every row has all three lags; reports the first missing file, the empty concatenation, or the missing `lagged_1` column of an empty table |
| BackfillLags.UnmeasuredCsvEmptiesTable | backfill.py:39-44 | a place whose CSV has no row with both a date and a median leaves an empty table, on which load_air_quality_data raises |
| BackfillLags.GroupShiftSnoc | backfill-feature-pipeline.py:55-57 | one more row of a location extends its shift by that row's positional lags |
| BackfillLags.ShiftedWithinLocation | backfill-feature-pipeline.py:50-57 | a location's rows in the lagged table are its rows shifted on their own: no lag crosses locations |
| BackfillLags.SortedLocationIsDateOrdered | backfill-feature-pipeline.py:47 | in a table ordered by (id, date), each location's rows are in date order |
| BackfillLags.LocationRowsInDateOrder | backfill-feature-pipeline.py:47-52 | what gets shifted is the location's own rows of the input, reordered by date |
| BackfillLags.CalendarLagsWhenConsecutive | backfill-feature-pipeline.py:119-121 | on consecutive days, `lagged_k` of the row dated D is present iff a row dated D - k exists, and is that row's pm25 |
| BackfillLags.SingleLocationLagged | backfill-feature-pipeline.py:45-63 | a date-ordered table of one location is shifted as a single group |
| BackfillLags.GapGivesPositionalLag | backfill-feature-pipeline.py:55-57 | rows on days 1, 2, 4: the day-4 row gets day 2's value as `lagged_1` |
| BackfillLags.DropIncompleteForLocation | backfill-feature-pipeline.py:90 | dropping incomplete rows commutes with selecting a location |
| BackfillLags.DropLeadingIncomplete | backfill-feature-pipeline.py:90 | where exactly the first three rows lack a lag, the filter keeps the rest |
| BackfillLags.CompleteFromFourthRow | backfill-feature-pipeline.py:55-57 | a location's shifted row has all three lags iff it is the fourth row or later |
| BackfillLags.BackfillContribution | backfill-feature-pipeline.py:86-90 | a location with n rows keeps its date-ordered rows from the fourth on: max(0, n - 3) rows |
| BackfillLags.FourDaysScenario | backfill-feature-pipeline.py:82-90 | four consecutive days with pm25 10, 20, 30, 40 leave one row, the fourth, with lags 30, 20, 10 |
| DailyLags.Window | daily-feature-pipeline.py:39-40 | the history holds only rows dated today - 4 or later, and no more rows than the store |
| DailyLags.WindowMembers | daily-feature-pipeline.py:39-40 | the history holds exactly the stored rows dated today - 4 or later |
| DailyLags.OnDate | daily-feature-pipeline.py:53 | the rows selected for a lag date all carry that date |
| DailyLags.DailyRow | daily-feature-pipeline.py:43-58 | one row of today's frame with `lagged_k` the first stored observation of its location k days before its date, or None (its meaning is DailyLagMeaning) |
| DailyLags.DailyLagged | daily-feature-pipeline.py:43-58 | every row of today's frame is kept, in order, with its id, date and pm25 |
| DailyLags.AddRowLags | daily-feature-pipeline.py:44-58 | the loop over `[1, 2, 3]` writes row idx's three looked-up lags, in place, and no other row changes |
| DailyLags.AddLaggedFeatures | daily-feature-pipeline.py:34-65 | the frame, updated in place, is every row with the lags looked up in the four-day window |
| DailyLags.Successful | daily-feature-pipeline.py:72-79 | the reference for the fetch loop: the rows of every location whose fetch succeeds, concatenated in registry order |
| DailyLags.FetchAirQuality | daily-feature-pipeline.py:72-79 | the fetched frame is the rows of every location whose fetch succeeds, in registry order |
| DailyLags.DailyAirQuality | daily-feature-pipeline.py:69-98 | the rows inserted are the successful fetches, each with its lags from the window |
| DailyLags.FirstMatchIsFirst | daily-feature-pipeline.py:53-58 | the lookup finds nothing iff no row of the location is dated D - k; otherwise it is the pm25 of the first such row |
| DailyLags.OnDateInsert | daily-feature-pipeline.py:48 | inserting into the date-sorted history keeps the order of the rows of each date |
| DailyLags.OnDateSortBy | daily-feature-pipeline.py:48-53 | the rows of one date are the same, in the same order, before and after sorting by date |
| DailyLags.HeadOfMatches | daily-feature-pipeline.py:48-56 | selecting the location, then the date, and taking `iloc[0]` gives the first observation in the history |
| DailyLags.LookupLag | daily-feature-pipeline.py:48-58 | the lookup as written: the location's history sorted by date, its rows on the lag date, and the pm25 of `iloc[0]` or None (its meaning is LookupLagIsFirstMatch) |
| DailyLags.LookupLagIsFirstMatch | daily-feature-pipeline.py:48-58 | the sorted lookup of the source is the first-observation lookup |
| DailyLags.LagLookupStep | daily-feature-pipeline.py:52-58 | `lag_data.iloc[0]['pm25']`, or None when `lag_data` is empty, is the first-observation lookup |
| DailyLags.FirstMatchInWindow | daily-feature-pipeline.py:39-40 | in the window, a day from today - 4 on is found as in the whole store, and an earlier day is never found |
| DailyLags.DailyLagMeaning | daily-feature-pipeline.py:39-58 | `lagged_k` of row i is the stored pm25 of its location exactly k days before its date when that day is inside the window, and missing otherwise |
| DailyLags.RecentRowSeesAllLags | daily-feature-pipeline.py:36-40 | for a row dated yesterday or later, the window hides none of the three lag days |
| DailyLags.OldRowLosesLag3 | daily-feature-pipeline.py:39-40 | a row dated two days ago loses `lagged_3` even though the store holds that day |
| DailyLags.SuccessfulAppend | daily-feature-pipeline.py:72-79 | the fetched rows of two parts of the registry are those of each part, concatenated |
| DailyLags.FailedLocationSkipped | daily-feature-pipeline.py:73-79 | a location whose fetch fails contributes nothing; the others are still processed |
| DailyLags.FetchedLocationIncluded | daily-feature-pipeline.py:74-75 | a successful location's rows all appear, in order, right after those of the locations before it |
| LagConsistency.FirstMatchOfUnique | daily-feature-pipeline.py:55-56 | when one row is the only observation of a location and day, the lookup finds its pm25 |
| LagConsistency.FirstMatchOfStoredRow | daily-feature-pipeline.py:53-56 | with one row per location and day, looking up a stored row's own location and day finds its pm25 |
| LagConsistency.SortedLocationRowIsStored | backfill-feature-pipeline.py:47-52 | each row of a location's sorted rows is a row of the table |
| LagConsistency.DailyRowOfPresentDays | daily-feature-pipeline.py:51-56 | if the three rows before a row are stored and dated one, two and three days before it, the daily lookup gives it the positional lags |
| LagConsistency.EnginesAgreeWhenDaysPresent | daily-feature-pipeline.py:51-56 | with one row per location and day, a row from yesterday on whose three predecessors lie on the three previous days gets the same lags from the daily engine as from the backfill engine (backfill-feature-pipeline.py:55-57) |
| LagConsistency.DailyLookupAcrossGap | daily-feature-pipeline.py:52-58 | rows on days 1, 2, 4: the daily lookup leaves `lagged_1` of the day-4 row missing and finds days 2 and 1 as `lagged_2` and `lagged_3` |
| LagConsistency.EnginesDisagreeAcrossGap | backfill-feature-pipeline.py:55-57 | across that gap the engines differ: `lagged_1` missing vs day 2's value, `lagged_3` day 1's value vs missing |
| Inference.BatchData | batch-inference-pipeline.py:61 | the forecast rows are exactly the weather rows dated today or later |
| Inference.RecentHistory | batch-inference-pipeline.py:67-73 | the history holds exactly the stored rows dated today - 3 or later |
| Inference.LocationHistory | batch-inference-pipeline.py:99 | the location's history is a reordering of its rows |
| Inference.LagsOf | batch-inference-pipeline.py:101-108 | a lag triple exists iff the history has at least three rows |
| Inference.FeatureVector | batch-inference-pipeline.py:118-126 | seven values: the three lags in order, then temperature, precipitation, wind speed and wind direction of the forecast row |
| Inference.ClipNegative | batch-inference-pipeline.py:132 | `max(0, prediction)` is non-negative, at least the prediction, and either the prediction or 0 |
| Inference.LocationPredictions | batch-inference-pipeline.py:114-139 | one prediction per forecast row |
| Inference.LocationPredictionsAt | batch-inference-pipeline.py:114-139 | prediction k carries the location's id, forecast row k's date, the clipped prediction of its feature vector, and today as the forecast date |
| Inference.AppendLocationPredictions | batch-inference-pipeline.py:114-139 | the inner loop appends the location's predictions, in forecast-row order, to the list |
| Inference.Contribution | batch-inference-pipeline.py:92-139 | what one registry entry adds: nothing without forecast rows or with fewer than three recent rows, otherwise one prediction per forecast row (its meaning is ContributionAt and QualifyingLocation) |
| Inference.Contributions | batch-inference-pipeline.py:91-139 | one block of predictions per registry entry |
| Inference.Predictions | batch-inference-pipeline.py:89-139 | `predictions_list` after the loop: the blocks of every registry entry, in registry order (its properties are the lemmas below) |
| Inference.PredictionsSnoc | batch-inference-pipeline.py:91-139 | one more registry entry appends its contribution to the predictions |
| Inference.PredictForecasts | batch-inference-pipeline.py:89-141 | the loop over the registry builds exactly the predictions of each location in registry order |
| Inference.BatchInference | batch-inference-pipeline.py:58-141 | forecast rows from today on, the last three days of history sorted by (id, date), then the registry loop |
| Inference.PredictionsAppend | batch-inference-pipeline.py:91 | the predictions of two parts of the registry are those of each part, concatenated |
| Inference.PredictionsInRegistryOrder | batch-inference-pipeline.py:91-139 | location k's predictions come right after those of the locations before it |
| Inference.NoWeatherNoPredictions | batch-inference-pipeline.py:92-96 | a location without forecast rows adds no prediction |
| Inference.ShortHistoryNoPredictions | batch-inference-pipeline.py:99-103 | a location with fewer than three history rows adds no prediction |
| Inference.ContributionAt | batch-inference-pipeline.py:105-139 | a location's prediction k exists only when it qualifies, and is made from forecast row k and its one lag triple |
| Inference.QualifyingLocation | batch-inference-pipeline.py:105-139 | a qualifying location gets one prediction per forecast row, with its id, the row's date, today, a non-negative value, and the same lag triple for every row |
| Inference.PredictionsNonNegative | batch-inference-pipeline.py:131-139 | every prediction is non-negative and has today as its forecast date |
| Inference.PredictionsFromForecastRows | batch-inference-pipeline.py:91-139 | every prediction names a registry location and the id and date of a forecast row |
| Inference.LagsAreMostRecent | batch-inference-pipeline.py:99-108 | the lag triple is the pm25 of three observations of the location, newest first, and no other observation is more recent than the third |
| Inference.LocationHistoryFromStore | batch-inference-pipeline.py:67-99 | the history a location's lags are read from holds exactly its stored rows dated today - 3 or later |
| Inference.FeatureColumnsRequested | batch-inference-pipeline.py:122-125 | the four weather columns of the feature vector are daily variables 2, 6, 8 and 9 of the weather request |
| Inference.WeatherTableHasFeatureColumns | util.py:46-47 | every row of a weather table built from the requested variables holds the four feature columns |
| Weather.DateRange | util.py:38-43 | the dates are time, time + interval, ... up to but excluding the end, and no further step fits before the end |
| Weather.Dates | util.py:38-43 | a date range exists iff the interval is positive |
| Weather.Columns | util.py:46-47 | the columns succeed iff the response has a series for every variable, and then are keyed by exactly the variables; otherwise the first missing index is reported |
| Weather.BuildColumns | util.py:46-47 | the loop over `enumerate(variables)` builds the columns |
| Weather.Frame | util.py:49 | the frame fails iff some column's length differs from the dates, and otherwise has one row per date |
| Weather.FramesUpTo | util.py:34-50 | the frames after n pairs number n |
| Weather.Paired | util.py:34 | `zip` makes as many pairs as the shorter of responses and keys |
| Weather.DropNa | util.py:52 | every row left has no missing value, and no row is added |
| Weather.WithDate | util.py:53 | the row keeps its id and values, and its date is the UTC day holding its timestamp |
| Weather.WithDates | util.py:53 | `.dt.date` applied to every row, one row out per row in |
| Weather.WeatherTable | util.py:51-53 | concatenation fails iff there are no frames |
| Weather.ProcessedWeather | util.py:28-54 | the reference for _process_weather_responses: the frames of the paired responses, concatenated, with incomplete rows dropped, or the first failure |
| Weather.ProcessWeatherResponses | util.py:28-54 | the loop builds one frame per pair, concatenates, drops incomplete rows and converts timestamps to days, or reports the first failing response |
| Weather.ColumnsOfDistinct | util.py:46-47 | with distinct names, the column `variables[i]` holds series i |
| Weather.ResponseFrame | util.py:35-49 | the frame of one response: its half-open date range, one column per requested variable, and the errors of each (its rows are ResponseFrameRows and ResponseFrameCell) |
| Weather.ResponseFrameRows | util.py:34-49 | row j of a response's frame carries the place key and the j-th step of [Time, TimeEnd), with cells for exactly the requested variables |
| Weather.ResponseFrameCell | util.py:46-49 | with distinct names, cell `variables[i]` of row j is value j of series i |
| Weather.FramesUpToAt | util.py:34 | frame k is built from response k and place key k |
| Weather.DropNaMembers | util.py:52 | a row is kept iff it is in the table and complete |
| Weather.ProcessedWeatherRows | util.py:34-53 | every row of the weather table carries one of the paired keys and values for exactly the requested variables |
| Weather.ProcessedWeatherKeepsComplete | util.py:49-53 | every complete row of every frame is in the weather table, dated by its day |
| Weather.EarliestDate | util.py:76-79 | `min()` is missing iff the place has no rows, and otherwise is one of its dates and no later than any |
| Weather.LatestDate | util.py:80-83 | `max()` is missing iff the place has no rows, and otherwise is one of its dates and no earlier than any |
| Weather.PlaceDates | util.py:76-83 | one date per place in registry order iff every place has rows; otherwise `strftime` of NaT fails at the first place without rows |
| Weather.PlaceDatesAt | util.py:76-83 | date k is the earliest (or latest) air-quality date of place k |
| Weather.HistoricalRequest | util.py:74-85 | the archive request exists iff every place has air-quality rows |
| Weather.HistoricalRequestAligned | util.py:74-109 | entry k of the latitude, longitude, start and end lists belongs to place k, and its start and end are the first and last days of that place's rows |
| Weather.Keys | util.py:34 | `places.keys()`: one key per place, in registry order |
| Weather.Latitudes | util.py:62 | one latitude per place, in registry order |
| Weather.Longitudes | util.py:63 | one longitude per place, in registry order |
| Weather.ForecastRequest | util.py:61-66 | the forecast request pairs coordinates k with place k and asks for the daily variables over the given number of days |
| Weather.GetForecast | util.py:57-71 | the forecast table is the processed response to a request for every place's coordinates and the daily variables |
| Weather.GetHistorical | util.py:74-85 | fails before any request when a place has no rows, and otherwise is the processed response to the archive request |

## Left out

- Feature-store plumbing is not modelled: the Hopsworks login, getting and creating feature groups, inserts, feature descriptions, and the version 3 to version 2 fallback. The tables read from the store are inputs.
- The XGBoost model is not modelled: download, loading and `predict`. The predictor is a function parameter from the feature vector to a number.
- The Open-Meteo client is not modelled: construction, cache, retries and the HTTP requests. The API calls are function parameters that return the responses, and a response carries its time, end, interval and series directly.
- util.get_pm25 is not part of this model. The daily fetch is a function parameter that returns the location's rows, or `None` where it raises; the run's date and the API key it receives are fixed for the run and are not parameters.
- `float32` casts, `float(...)` conversions and dtypes are not modelled. Values are reals, and NaN is `None`.
- Plotting, printing and the forecast summary (batch-inference-pipeline.py:169-213) are not modelled.
- Settings loading, the reading of `locations.json`, CSV parsing and `date.today()` are not modelled. The registry, the CSV contents (as a map from path to rows) and today are parameters.
- Dates are day numbers. String formatting with `strftime` and parsing with `pd.to_datetime` are not modelled, except that `strftime` of NaT raises.
- BackfillLags.UniqueIds: its own contract states that every id of the table is listed, each once. That the list holds only ids of the table, in order of first appearance, is stated by `BackfillLags.UniqueIdsFirstAppearance`.
- DailyLags.Window: its own contract states only the date bound. That the window holds exactly the stored rows from today - 4 on is stated by `DailyLags.WindowMembers`.
- Sorting.SortBy: pandas' single-column `sort_values` uses an unstable sort. The model uses a stable sort. It therefore fixes which of several rows with equal dates comes first: for the daily `iloc[0]` and for the inference lag triple, the first in stored order.
- Backfill.ProcessAirQuality: the in-place mutation of the DataFrame is modelled on values (a function from CSV rows to table rows). The `date` column's conversion to a day is folded into the parsed date.
- Weather.Dates: pandas refuses a zero frequency and steps backwards on a negative one. The model reports every non-positive interval as `BadInterval`.
- Weather.Columns: a variable named `id` or `date` would overwrite those columns in the source. The model keeps variables separate from the id and the date.
- Inference.PredictForecasts: a forecast row without one of the four feature columns raises `KeyError` in the source. The model requires every forecast row to have them (`ForecastColumns`); `Inference.WeatherTableHasFeatureColumns` shows that the weather table built by `util.py` always does.
- DailyLags.DailyAirQuality: the frame built by repeated `pd.concat` starting from an empty frame is modelled as the concatenation of the successful locations' rows.
