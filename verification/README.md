# Demand forecasting, discount and inventory rules in Dafny

This project models the deterministic rules of a restaurant inventory backend: the part that is not machine learning. It proves properties of that model. The backend forecasts item demand per place and per period (daily, weekly, monthly), recommends discounts to clear stock, and derives reorder points and stock status.

Every fitted model, scaler and statistical routine is a function parameter:
- XGBoost, LightGBM and random forests;
- the standard scaler;
- `log1p`/`expm1`;
- the standard deviation behind safety stock.

What remains is modelled as immutable datatypes and pure functions:
- table rows are datatypes and tables are `seq`s;
- NaN is `Option`;
- an exception is the `Failure` arm of a result type;
- arithmetic is exact `real`;
- dates are proleptic Gregorian `(year, month, day)` triples.

Modules, one per file:

| module | what it models |
|---|---|
| `Wrappers`, `Seqs`, `Sorting`, `Text`, `Rows` | option/result types; sums, means, Python slicing, de-duplication; a sort proved to return a sorted permutation; string helpers; a present/absent cell |
| `Calendar` | Gregorian validity, day numbers, weekday (Monday = 0), Monday-of-week, first-of-month, ISO date parsing |
| `Periods` | period names and the conversion of a predicted total between daily, weekly and monthly |
| `Validation` | `DataValidator`: the error/warning accumulator, strict mode, and the five table checks |
| `DemandDataset` | `create_demand_dataset`: join, completed-status filter, period bucketing, group-by aggregation |
| `Series` | lags, trailing rolling means, the exponential moving average, and forward fill |
| `Features` | `engineer_features`: temporal flags, per-group lags and rolling features, previous-day place totals, next-row target, and the cold-start row |
| `Training` | `ModelTrainer`: feature schema, label encoding, median fill, the chronological split, the trained model set, importance and best model |
| `Predictor` | `DemandPredictor`: model selection, ensemble mean and clamp, global statistics, inference features, cold-start routing, period scaling |
| `Orchestrator` | `DemandForecastModel` (modular): construction, training pipeline, prediction guards, save/load |
| `Legacy` | the older single-file `DemandForecastModel`: selection, inference features, period routing and its consistency check |
| `DiscountFeatures` | item-id and discount-text parsers, dayparts, price multiplier, campaign window and label, ordered 70/15/15 split |
| `DiscountDecision` | the discount recommendation rule: aggressiveness weights, response curve, clearance target, grid choice |
| `Inventory` | `InventoryService`: demand estimate with statistical fallback, reorder point, stock status, recommendations, expiring items |

## Model

| member | source | states |
|---|---|---|
| Calendar.DaysInMonth | src/models/demand_forecast/prediction.py:247-249 | the Gregorian month length: 28 exactly for February of a common year, 29 for February of a leap year, 30 for April, June, September and November, 31 otherwise |
| Calendar.MonthLengthByShiftIsDaysInMonth | src/models/demand_forecast/prediction.py:247-249 | the "day 28 + 4 days, back to the 1st, minus one day" trick always yields the Gregorian month length |
| Calendar.MondayOfWeek | src/models/demand_forecast/feature_engineering.py:78-82 | date minus its weekday: a Monday, on or at most six days before the date |
| Calendar.FirstOfMonth | src/models/demand_forecast/feature_engineering.py:83-84 | the first day of the same year and month, `day - 1` days before the date |
| Calendar.ParseIsoDate | src/models/demand_forecast/validation.py:137-143 | an accepted text is a valid calendar date written `YYYY-MM-DD`, within the nanosecond timestamp range 1677-09-22 to 2262-04-11 outside which `pd.to_datetime` raises |
| Calendar.ParseIsoText | src/models/demand_forecast/validation.py:137-143 | every valid date in the timestamp range is accepted in its zero-padded ISO text and reads back as itself |
| Calendar.ParsedIsIsoText | src/models/demand_forecast/validation.py:137-143 | an accepted text is exactly the ISO text of the date it yields, so distinct texts give distinct dates |
| Calendar.RejectedIsoText | src/models/demand_forecast/validation.py:137-143 | the ISO text of a day the calendar lacks, or of a day outside the timestamp range, is rejected |
| Calendar.LeapDayAccepted | src/models/demand_forecast/validation.py:137-143 | "2024-02-29" is accepted as 29 February 2024 |
| Calendar.EarlyDateRejected | src/models/demand_forecast/validation.py:137-143 | "1500-01-01" is rejected, as it lies before the first timestamp |
| Text.PaddedTextRoundTrip | src/services/inventory_service.py:107 | a number below 10^w written in w zero-padded digits, as `strftime` writes years, months and days, reads back as itself |
| Periods.ParsePeriod | src/models/demand_forecast/prediction.py:33-38 | a period name is accepted exactly when it is daily, weekly or monthly, and the accepted period prints back as the same name |
| Periods.ParsePeriodName | src/models/demand_forecast/prediction.py:33-38 | parsing the name of any period gives that period back |
| Periods.MonthDays | src/models/demand_forecast/prediction.py:247-249 | the month length used for scaling lies between 28 and 31 |
| Periods.MonthDaysByShift | src/models/demand_forecast/prediction.py:247-249 | the float month length equals the shift-trick computation of the source |
| Periods.ScalePrediction | src/models/demand_forecast/prediction.py:241-261 | scaling between equal names is the identity, and a non-negative prediction stays non-negative |
| Periods.ScaleFactorIsLengthRatio | src/models/demand_forecast/prediction.py:251-258 | every table entry is the ratio of the target period's length in days to the source period's (week 7, month = days in the month) |
| Periods.ScaleIsRatio | src/models/demand_forecast/prediction.py:241-261 | between two of the three periods, scaling multiplies the prediction by that length ratio |
| Periods.UnknownPeriodKeepsValue | src/models/demand_forecast/prediction.py:260-261 | a pair with a name outside the three periods uses factor 1.0 |
| Periods.ScaleRoundTrip | src/models/demand_forecast/prediction.py:251-261 | scaling from a to b and back from b to a returns the original prediction |
| Periods.ScaleComposes | src/models/demand_forecast/prediction.py:251-261 | scaling a to b and then b to c equals scaling a to c directly (daily to weekly to monthly is daily to monthly) |
| Periods.ScaleExamples | src/models/demand_forecast/prediction.py:251-261 | a daily 2 is a weekly 14 and, in January, a monthly 62; a monthly 58 in February 2024 is a daily 2 |
| Periods.LegacyScalePrediction | src/models/demand_forecast_model.py:665-693 | the older scaler is the identity between equal names and keeps non-negative values non-negative |
| Periods.LegacyScaleAgrees | src/models/demand_forecast_model.py:665-717 | the older scaler, built from its daily-to-weekly, daily-to-monthly and weekly-to-monthly helpers and their reciprocals, converts every value exactly as the modular one does, for every pair of names |
| Periods.LegacyFactorAgrees | src/models/demand_forecast_model.py:695-717 | the older conversion factor equals the modular table's factor for every pair of names |
| Validation.NewValidator | src/models/demand_forecast/validation.py:28-38 | a new validator has the requested mode and empty error and warning lists |
| Validation.AddError | src/models/demand_forecast/validation.py:207-212 | an error is appended first, and the call raises that error exactly in strict mode |
| Validation.AddWarning | src/models/demand_forecast/validation.py:214-217 | a warning is appended and never raises |
| Validation.GetReport | src/models/demand_forecast/validation.py:224-232 | `valid` holds exactly when no error was recorded; the counts are the lengths of the copied lists |
| Validation.Validate | src/models/demand_forecast/validation.py:219-222 | every `validate_*` call starts from empty lists, so its outcome does not depend on earlier calls |
| Validation.LenientRun | src/models/demand_forecast/validation.py:207-217 | a lenient validator never raises and appends exactly the checks' errors and warnings, in order |
| Validation.StrictRun | src/models/demand_forecast/validation.py:207-212 | a strict validator raises exactly when some top-level check records an error; it raises the first one, after recording everything before it and that error |
| Validation.WarningsOnlyRun | src/models/demand_forecast/validation.py:214-217 | checks that only warn complete in either mode and only add warnings |
| Validation.GuardedNeverRaises | src/models/demand_forecast/validation.py:193-205 | the `try` block of the timestamp check lets no exception out |
| Validation.RequiredColumns | src/models/demand_forecast/validation.py:186-191 | the column check records an error exactly when some required column is missing, and never warns |
| Validation.CheckTimestamps | src/models/demand_forecast/validation.py:193-205 | a numeric column errs exactly when some present value is negative; a non-numeric column is not checked |
| Validation.DuplicateCount | src/models/demand_forecast/validation.py:103-107 | no duplicates are counted exactly when no two rows share (date, item, place) |
| Validation.PairRows | src/models/demand_forecast/validation.py:170-174 | the pair's rows are exactly the history rows with that item and place |
| Validation.LenientValidate | src/models/demand_forecast/validation.py:219-232 | a lenient call's report lists exactly the errors and warnings of its checks |
| Validation.OrdersValidity | src/models/demand_forecast/validation.py:40-66 | an orders table is valid exactly when the required columns are present and no numeric `created` value is negative; null places only warn |
| Validation.StrictOrdersNegativeTimestampDoesNotRaise | src/models/demand_forecast/validation.py:193-205 | in strict mode, a negative timestamp is recorded as an error, but the raise is caught by the check's own `try` and turned into a warning, so `validate_orders` completes |
| Validation.OrderItemsValidity | src/models/demand_forecast/validation.py:68-87 | an order-items table is valid exactly when the required columns are present and no quantity is at most 0; negative prices only warn |
| Validation.DemandValidity | src/models/demand_forecast/validation.py:89-115 | a demand table with its columns is valid exactly when no date is after today, no (date, item, place) key repeats, and no demand is negative |
| Validation.PredictionInputErrors | src/models/demand_forecast/validation.py:117-150 | the prediction-input checks record an error exactly when an id is not an integer, the date does not parse, or the period is not one of the three |
| Validation.PredictionInputsValidity | src/models/demand_forecast/validation.py:117-150 | a lenient call is valid, and a strict call does not raise, exactly when both ids are integers, the date parses and the period is known; a date more than a year ahead only warns |
| Validation.HistoryValidity | src/models/demand_forecast/validation.py:152-184 | the history check never records an error, in either mode, and its warning mentions cold start exactly when the history is absent or empty or has no row for the pair |
| Validation.ShortHistoryIsNotColdStart | src/models/demand_forecast/validation.py:176-182 | with 1 to 6 rows for the pair there is exactly one warning, and it is not a cold-start warning |
| DemandDataset.JoinLine | src/models/demand_forecast/feature_engineering.py:61-67 | one line joins to exactly the orders carrying its `order_id`, once per such order and in the orders' order, and the count of joined rows is the count of matching orders |
| DemandDataset.Join | src/models/demand_forecast/feature_engineering.py:59-67 | the inner merge has one row per matching (line, order) pair, and a joined row exists exactly when a line and an order with `order_id == id` combine into it |
| DemandDataset.JoinRowsAppend | src/models/demand_forecast/feature_engineering.py:61-67 | joining two runs of lines gives the first run's rows followed by the second's, and their match counts add up |
| DemandDataset.JoinBlock | src/models/demand_forecast/feature_engineering.py:61-67 | the rows of line i are one contiguous block of the merge, placed after the rows of every earlier line: the merge keeps line order and repeats a line once per matching order |
| DemandDataset.KeepCompleted | src/models/demand_forecast/feature_engineering.py:69-73 | a non-textual status keeps every row; a textual status keeps exactly the rows whose status is a completed one |
| DemandDataset.Bucket | src/models/demand_forecast/feature_engineering.py:75-84 | a weekly date is the Monday on or up to six days before; a monthly date is the first of the same month; any other period keeps the day |
| DemandDataset.AddLine | src/models/demand_forecast/feature_engineering.py:90-95 | adding a line keeps the groups sorted by unique key, updates exactly its own key's group and leaves every other key's group unchanged |
| DemandDataset.AggregateIsGroupSum | src/models/demand_forecast/feature_engineering.py:90-95 | a key has a group exactly when some row carries it, and the group counts those rows and sums their units |
| DemandDataset.DatasetRowsAreGroupTotals | src/models/demand_forecast/feature_engineering.py:42-101 | the dataset lists each (date, item, place) once, in key order, and each row's demand is the total units of the completed lines with that key |
| DemandDataset.KeyOf | src/models/demand_forecast/feature_engineering.py:91-95 | a joined row has a group key exactly when it has a timestamp and a place, since `groupby` drops rows with a null key part; the key is the bucketed date, the item and the place |
| DemandDataset.PlacelessRowUncounted | src/models/demand_forecast/feature_engineering.py:91-95 | a row with a null place adds neither units nor rows to any group |
| DemandDataset.CreateDemandDataset | src/models/demand_forecast/feature_engineering.py:59-95 | raises `KeyError` when the orders lack any of `id`, `created`, `place_id`, `type`, `channel` and `status`, otherwise when the lines lack any of `order_id`, `item_id`, `quantity` and `price`, and succeeds exactly when both tables have their columns |
| DemandDataset.UnreadColumnsRequired | src/models/demand_forecast/feature_engineering.py:59 | an orders table without `type` or `channel` raises, although neither column is read afterwards |
| DemandDataset.EveryLineHasARow | src/models/demand_forecast/feature_engineering.py:86-97 | in a dataset that was built, every completed line with a timestamp and a place is counted in some row |
| DemandDataset.BucketedDates | src/models/demand_forecast/feature_engineering.py:78-84 | weekly datasets are dated on Mondays and monthly ones on the first of the month |
| Series.Lag | src/models/demand_forecast/feature_engineering.py:173-174 | `shift(k)` within a group: row i holds the value k rows earlier when i >= k and is missing exactly for the first k rows |
| Series.Next | src/models/demand_forecast/feature_engineering.py:136-137 | `shift(-1)` within a group: every row but the last holds the next row's value; the last is missing |
| Series.Window | src/models/demand_forecast/feature_engineering.py:183-186 | the trailing window of `rolling(window=w, min_periods=1)` has min(w, i + 1) values, the last w values ending at row i |
| Series.MeanWithin | src/models/demand_forecast/feature_engineering.py:183-186 | a mean of values lies between any lower and upper bound of those values |
| Series.RollingMeanWithinWindow | src/models/demand_forecast/feature_engineering.py:183-186 | each rolling mean lies between the smallest and largest value of its window, and a window of 1 gives the value itself |
| Series.Ema | src/models/demand_forecast/feature_engineering.py:191-195 | `ewm(adjust=False)` starts at the first value and has one value per row |
| Series.EmaRecurrence | src/models/demand_forecast/feature_engineering.py:191-195 | at every later row the EMA is alpha times the value plus (1 - alpha) times the previous EMA |
| Series.EmaPrefix | src/models/demand_forecast/feature_engineering.py:191-195 | an EMA value depends only on the rows up to it: extending the series leaves the earlier EMA values unchanged |
| Series.EmaWithin | src/models/demand_forecast/feature_engineering.py:191-195 | with alpha in [0, 1] every EMA value stays within any bounds that hold for all the values |
| Series.LatestPresent | src/models/demand_forecast/feature_engineering.py:248-251 | the index found holds a value and every later position is missing; no index means no value at all |
| Series.FillForwardSpec | src/models/demand_forecast/feature_engineering.py:248-251 | after forward fill then `fillna(0)`, each position holds the latest present value at or before it, or 0 when there is none |
| Series.LagFilled | src/models/demand_forecast/feature_engineering.py:248-251 | a filled lag column holds the value k rows earlier, or 0 for the first k rows |
| Series.NoGapsUnchanged | src/models/demand_forecast/feature_engineering.py:248-251 | a present value is left unchanged by the fill |
| Series.FillCarries | src/models/demand_forecast/feature_engineering.py:248-251 | a missing value after the first row repeats the previous filled value |
| Series.FillStartsAtZero | src/models/demand_forecast/feature_engineering.py:248-251 | a missing first value becomes 0 |
| Features.TemporalOf | src/models/demand_forecast/feature_engineering.py:149-159 | the calendar columns give back the date; the weekend flag is set exactly on weekdays 5 and 6, month-start exactly on days 1-3, month-end exactly on days 28 and later; the quarter contains the month |
| Features.WeekendIsSaturdayOrSunday | src/models/demand_forecast/feature_engineering.py:154-156 | the weekend flag is set exactly when the date lies five or six days after its week's Monday |
| Features.PairDateLeTotal | src/models/demand_forecast/feature_engineering.py:171 | the (item, place, date) sort key is a total preorder |
| Features.SortRows | src/models/demand_forecast/feature_engineering.py:171 | `sort_values(['item_id', 'place_id', 'date'])` returns a permutation of the rows sorted by item, then place, then date |
| Features.Runs | src/models/demand_forecast/feature_engineering.py:173-174 | the groups of the sorted table concatenate back to the table; each is non-empty, holds one (item, place) pair, and neighbours differ |
| Features.RunsAreGroups | src/models/demand_forecast/feature_engineering.py:171-174 | in a sorted table no two groups share a pair, and within each group dates ascend |
| Features.PlaceFeaturesAt | src/models/demand_forecast/feature_engineering.py:199-213 | the place total is the sum of the place's demand on the previous day and the unique-item count is the number of distinct items it sold that day; both are 0 when nothing matches |
| Features.PlaceRollingMeanWindow | src/models/demand_forecast/feature_engineering.py:215-218 | the place rolling mean averages the last seven (or fewer) previous-day totals of the row's place, ending at the row itself |
| Features.WeeklyTablesHaveNoPlaceHistory | src/models/demand_forecast/feature_engineering.py:208-213 | in a weekly table (all dates Mondays) no row is dated the day before another, so every place total and unique-item count is 0 |
| Features.MonthlyTablesHaveNoPlaceHistory | src/models/demand_forecast/feature_engineering.py:208-213 | likewise in a monthly table (all dates the 1st) |
| Features.LatestSameWeekday | src/models/demand_forecast/feature_engineering.py:177 | the row found is an earlier row of the group on the same weekday and no row between it and the current one shares that weekday; none means no earlier row shares it |
| Features.SameWeekdaySpec | src/models/demand_forecast/feature_engineering.py:177-251 | `demand_same_dow` is the demand of the latest earlier same-weekday row; without one it repeats the previous row's value (the fill applies because the name contains "ema"), and it is 0 in a group's first row |
| Features.Share | src/models/demand_forecast/feature_engineering.py:220-221 | the item share is defined exactly when the padded place total is non-zero |
| Features.ShareScalesBack | src/models/demand_forecast/feature_engineering.py:220-221 | the share times the padded place total gives back the row's demand |
| Features.LagValuesSpec | src/models/demand_forecast/feature_engineering.py:173-174 | each lag column of a row holds the group's demand k rows back, or 0 when the group has no row that far back (the shift's gap filled forward and then with 0) |
| Features.GroupRows | src/models/demand_forecast/feature_engineering.py:136-140 | a group of n rows keeps its first n - 1 rows, in order |
| Features.AllGroupRows | src/models/demand_forecast/feature_engineering.py:136-140 | over all groups, exactly one row per group is dropped and every kept row belongs to one of the groups |
| Features.EngineerShape | src/models/demand_forecast/feature_engineering.py:103-147 | the engineered table has exactly one row fewer per (item, place) pair than the input; each row belongs to a group of one pair, dated in ascending order, made of input rows |
| Features.GroupRowSpec | src/models/demand_forecast/feature_engineering.py:136-197 | a kept row's target is the next row's demand, lag k is the demand k rows earlier (0 before the group starts), each rolling mean averages its trailing window, each rolling standard deviation is 0 in the group's first row and otherwise the given sample std of its trailing window, and the EMA follows its recurrence from the first demand |
| Features.FillPrefix | src/models/demand_forecast/feature_engineering.py:139-143 | filling after the last row is dropped gives each kept row the same value as filling the whole column |
| Features.ConstantGroupFeatures | src/models/demand_forecast/feature_engineering.py:169-197 | a group whose demand is constant c has, from row 30 on, every lag, rolling mean and EMA equal to c, and target c |
| Features.ColdStartFeatures | src/models/demand_forecast/feature_engineering.py:262-338 | the cold-start row keeps the item, place and date, carries the date's calendar columns, and has one column per lag, window and alpha |
| Features.ColdStartColumns | src/models/demand_forecast/feature_engineering.py:306-333 | every lag, rolling mean and EMA is the average demand, every rolling deviation is 30% of it, and the total amount is average demand times average price (50 when absent) |
| Features.ColdStartDefaults | src/models/demand_forecast/feature_engineering.py:279-333 | with no statistics the row uses average demand 5, place demand 100 and price 50, so the total amount is 250 |
| Features.ColdStartMatchesConstantHistory | src/models/demand_forecast/feature_engineering.py:262-338 | the cold-start lags, rolling means and EMAs are exactly what a history of 30 or more rows at the average demand would produce |
| Training.Lookup | src/models/demand_forecast/training.py:116-122 | a column found by name is in the frame and has that name; none found means no column has it |
| Training.FeatureNames | src/models/demand_forecast/training.py:98-114 | the feature list is sorted and is a permutation of the names of the numeric and text columns outside the exclusion list |
| Training.FeatureNamesSpec | src/models/demand_forecast/training.py:98-114 | a name is a feature exactly when some numeric or text column has it, the list is sorted, and no excluded column (date, ids, target, demand, interaction) is ever a feature |
| Training.Fit | src/models/demand_forecast/training.py:107-110 | a fitted label encoder's classes are sorted, free of repeats, and exactly the distinct labels it was fitted on |
| Training.AsText | src/models/demand_forecast/training.py:110 | `astype(str)` keeps a present text unchanged |
| Training.Transform | src/models/demand_forecast/training.py:110-112 | encoding succeeds exactly when every label is a known class, and each code is the label's position among the classes |
| Training.EncodingRoundTrip | src/models/demand_forecast/training.py:110-112 | the class at a label's code is that label, so distinct labels receive distinct codes |
| Training.EncodeColumn | src/models/demand_forecast/training.py:107-112 | a column seen for the first time gets a new encoder fitted on its own labels and always encodes; a known column keeps the encoder map and is encoded by its stored encoder; either way the codes are the transform under the encoder the column ends up with |
| Training.EncodeAll | src/models/demand_forecast/training.py:107-112 | a successful encoding pass returns one numeric column per text column, with the same names in the same order |
| Training.EncodersKept | src/models/demand_forecast/training.py:107-109 | an existing encoder is never replaced by the encoding pass |
| Training.EncodersOnlyNew | src/models/demand_forecast/training.py:107-109 | the pass adds encoders only for columns it encoded |
| Training.EncodersComplete | src/models/demand_forecast/training.py:107-112 | after a successful pass every encoded column has an encoder |
| Training.MedianWithin | src/models/demand_forecast/training.py:117-120 | the median of a column lies between its smallest and largest value |
| Training.FillMedianSpec | src/models/demand_forecast/training.py:117-120 | present values are kept; every gap takes one fill value, the median of the present values (within their range), or 0 when the column has none |
| Training.Put | src/models/demand_forecast/training.py:167-191 | assigning a dictionary key keeps existing keys in place and appends a new key at the end |
| Training.PutGet | src/models/demand_forecast/training.py:167-191 | after assigning a key it reads back the new value, and every other key reads as before |
| Training.NewTrainer | src/models/demand_forecast/training.py:78-86 | a new trainer has the requested model type, no models, metrics, encoders or features, an unfitted scaler, and is untrained |
| Training.PreparedColumns | src/models/demand_forecast/training.py:106-120 | every prepared column comes from the frame column of its name: a numeric feature keeps its values and fills its gaps with the median, and a text feature is exactly the recorded encoder's codes for its labels |
| Training.EncodedColumn | src/models/demand_forecast/training.py:106-112 | after the encoding pass, a text feature column reads as the codes its labels get from the encoder the pass leaves for its name |
| Training.EncodeAllCodes | src/models/demand_forecast/training.py:106-112 | each column of a successful encoding pass holds the codes of the encoder the pass ends with for that column's name, since an encoder is never replaced once created |
| Training.PrepareFeatures | src/models/demand_forecast/training.py:88-128 | preparation succeeds exactly when the frame has a target and no text column holds a label its stored encoder has not seen; on success the features are the sorted feature names, one column each, each column is the encoded frame's column with its gaps median-filled, the target is the frame's, and the names are recorded; existing encoders always survive, and a failure leaves the recorded names unchanged |
| Training.ReusedEncoders | src/models/demand_forecast/training.py:107-112 | when every text column already has an encoder, preparation leaves the encoder map unchanged |
| Training.SplitCount | src/models/demand_forecast/training.py:149 | the number of splits is max(2, int(1 / v)); it exists exactly when v is non-zero |
| Training.SplitPoint | src/models/demand_forecast/training.py:147-158 | the time-series split trains on all rows before the final n / (k + 1) and exists exactly when there are at least k + 1 rows; the plain split cuts at int(n(1 - v)), clamped like a slice |
| Training.SplitPartition | src/models/demand_forecast/training.py:147-158 | training rows are a prefix and validation rows the rest, so together they are the rows in order; the plain split equals Python slicing at its cut |
| Training.ValidationShare | src/models/demand_forecast/training.py:155-158 | with 0 <= v <= 1 the plain split leaves between n·v and n·v + 1 rows for validation |
| Training.TrainedKinds | src/models/demand_forecast/training.py:166-191 | XGBoost is trained exactly when the type is xgboost or ensemble and the library is present, likewise LightGBM; a random forest is always trained, last; no kind twice |
| Training.FitAll | src/models/demand_forecast/training.py:166-198 | the metrics list the trained kinds in fitting order, each with its validation MAE on the split |
| Training.FitAllModels | src/models/demand_forecast/training.py:167-191 | each trained kind holds a model fitted on the training rows; every other key keeps its earlier model |
| Training.Train | src/models/demand_forecast/training.py:130-200 | training succeeds exactly when the split exists, leaves both sides non-empty, and there is at least one feature column; it then marks the trainer trained, fits the scaler on the training rows, replaces the metrics with those of the trained kinds, and keeps the encoders and feature names |
| Training.TrainedModels | src/models/demand_forecast/training.py:166-198 | after training the random forest and each trained kind hold models fitted on the training rows, and models of other kinds from earlier calls remain |
| Training.TimeSeriesTrainSucceeds | src/models/demand_forecast/training.py:147-161 | with the time-series split, training succeeds exactly when v is non-zero, there are at least k + 1 rows, and there is a feature column |
| Training.FirstMinIndex | src/models/demand_forecast/training.py:226-227 | the index chosen has the smallest score, and every earlier entry scores strictly more (ties go to the first, as `min` does) |
| Training.BestModel | src/models/demand_forecast/training.py:224-228 | the best model exists exactly when there are metrics, and it is the first with the smallest MAE |
| Training.Chosen | src/models/demand_forecast/training.py:224-228 | a named model is used as given; otherwise the best model |
| Training.FeatureImportance | src/models/demand_forecast/training.py:211-244 | the importance table exists exactly when the trainer is trained, a model is chosen and stored, and its importances match the feature names; it is sorted by importance, descending, and is a permutation of the (name, importance) pairs |
| Training.SelectTopFeatures | src/models/demand_forecast/training.py:246-257 | the top features are the names of the first n ranked entries (`head(n)`), in ranking order, each a feature name, and the call fails exactly when the importance table does |
| Training.RankedNamesKnown | src/models/demand_forecast/training.py:239-242 | every name in the ranking is one of the trainer's feature names |
| Predictor.FeatureVector | src/models/demand_forecast/prediction.py:84-89 | the selected features are the frame's values in feature-name order, a missing value read as 0 |
| Predictor.FirstAvailable | src/models/demand_forecast/prediction.py:104-112 | the name found is the first listed name with a trained model; none found means no listed name has one |
| Predictor.Selection | src/models/demand_forecast/prediction.py:95-112 | the ensemble is used exactly when it is requested and more than one model exists; otherwise a given, trained model name is used; any single model chosen is trained |
| Predictor.Members | src/models/demand_forecast/prediction.py:96-99 | one prediction per stored model, in dictionary order |
| Predictor.Predict | src/models/demand_forecast/prediction.py:62-117 | prediction fails exactly when the trainer is untrained, a feature column is missing, the frame has no rows (the scaler refuses zero samples), or no model can be chosen; otherwise it gives one value per row, the chosen model's prediction clamped at 0, never negative |
| Predictor.ExtraColumnsIgnored | src/models/demand_forecast/prediction.py:79-92 | two frames that agree on the feature columns get the same predictions, whatever other columns they hold |
| Predictor.EnsembleIsMean | src/models/demand_forecast/prediction.py:95-115 | the ensemble prediction is the clamped mean of the member predictions, and that mean lies between the smallest and the largest member |
| Predictor.PriorityOrder | src/models/demand_forecast/prediction.py:103-112 | without the ensemble or a usable name, the model used is lightgbm if trained, else xgboost, else random_forest, and there is one exactly when one of them is trained |
| Predictor.PriorityAvailable | src/models/demand_forecast/prediction.py:106-112 | the fallback search finds a model exactly when one of the three names is trained |
| Predictor.PriorityFirst | src/models/demand_forecast/prediction.py:106-109 | the fallback search prefers lightgbm, then xgboost, then random_forest |
| Predictor.NewPredictor | src/models/demand_forecast/prediction.py:28-31 | a new predictor predicts daily totals and has no global statistics |
| Predictor.SetPeriod | src/models/demand_forecast/prediction.py:33-38 | setting the period succeeds exactly for daily, weekly and monthly, and changes only the period |
| Predictor.SetGlobalStats | src/models/demand_forecast/prediction.py:40-58 | with a non-empty history the statistics are the mean demand, mean price and mean per-place total; otherwise the defaults 5, 50 and 100; nothing else changes |
| Predictor.PlaceTotals | src/models/demand_forecast/prediction.py:51 | one total per distinct place, and at least one for a non-empty history |
| Predictor.PlaceTotalsAddUp | src/models/demand_forecast/prediction.py:51 | the per-place totals add up to the total demand of the history |
| Predictor.AveragePlaceDemand | src/models/demand_forecast/prediction.py:51 | the average place demand is the history's total demand divided by the number of distinct places |
| Predictor.PlacesCovered | src/models/demand_forecast/prediction.py:51 | every history row's place is among the distinct places |
| Predictor.NamesFollowConstants | src/models/demand_forecast/prediction.py:222-232 | the lag and rolling column names are built from the feature engineer's lag periods and windows |
| Predictor.FillMissing | src/models/demand_forecast/prediction.py:234-237 | filling adds exactly the missing feature names, each with 0, and keeps every computed value |
| Predictor.HistoryRow | src/models/demand_forecast/prediction.py:234-239 | the query row holds every trained feature name |
| Predictor.PredictionRow | src/models/demand_forecast/prediction.py:190-239 | the row built from the history holds every trained feature name |
| Predictor.HistoryRowLags | src/models/demand_forecast/prediction.py:220-226 | with a non-empty history, lag k is the demand k rows back when there are at least k rows, else the latest demand |
| Predictor.HistoryRowRolling | src/models/demand_forecast/prediction.py:228-231 | with a non-empty history, each rolling mean averages the last min(w, n) demands |
| Predictor.HistoryRowDefaults | src/models/demand_forecast/prediction.py:234-237 | every trained feature the query does not compute is 0 |
| Predictor.OmittedColumnsAreZero | src/models/demand_forecast/prediction.py:205-237 | the month-start/end flags, same-weekday and EMA columns, place columns, price and total amount are never computed at inference, so each is 0 whenever the trainer uses it |
| Predictor.InferenceLagMatchesTraining | src/models/demand_forecast/prediction.py:220-224 | with at least k rows of history, the inference lag equals the training lag of the row that would follow the history |
| Predictor.InferenceRollingMatchesTraining | src/models/demand_forecast/prediction.py:228-231 | the inference rolling mean equals the training rolling mean at the last history row |
| Predictor.ColdStartLagAt | src/models/demand_forecast/feature_engineering.py:307-308 | the cold-start frame's lag columns hold the row's lag values |
| Predictor.ColdStartMeanAt | src/models/demand_forecast/feature_engineering.py:310-311 | the cold-start frame's rolling-mean columns hold the row's rolling means |
| Predictor.ColdStartEmaAt | src/models/demand_forecast/feature_engineering.py:315-319 | the cold-start frame's EMA and same-weekday columns hold the row's values |
| Predictor.ColdStartRowHistory | src/models/demand_forecast/feature_engineering.py:279-319 | in the cold-start frame every lag, rolling-mean, EMA and same-weekday column holds the average demand (5 without statistics) |
| Predictor.EffectivePeriod | src/models/demand_forecast/prediction.py:137 | `period or self.period`: a non-empty period is used as given; an absent or empty one means the predictor's own |
| Predictor.ColdStartRouting | src/models/demand_forecast/prediction.py:147-155 | a query is a cold start exactly when there is no history, an empty one, or no row for the pair |
| Predictor.Answer | src/models/demand_forecast/prediction.py:157-188 | the answer exists exactly when the routed query row predicts; it is non-negative, equals the base prediction when the period is the predictor's own and that prediction converted from the predictor's period to the requested one otherwise, and echoes the ids, date, period, cold-start flag, model type and units |
| Predictor.PredictDemand | src/models/demand_forecast/prediction.py:119-188 | the call succeeds only when the date parses, both ids are integers and the period is known; then its result is that of routing, predicting and scaling the query |
| Predictor.ForecastFlags | src/models/demand_forecast/prediction.py:137-188 | a forecast reports the effective period and is flagged cold start exactly when there is no history, an empty one, or none for the pair |
| Predictor.HistoryPathHasAllFeatures | src/models/demand_forecast/prediction.py:62-169 | on the history path the query predicts exactly when the trainer is trained and some model can be chosen |
| Orchestrator.NewModel | src/models/demand_forecast/model.py:35-58 | a new facade has the given type and period, an untrained trainer of that type, a daily predictor without statistics, no cache, and is untrained |
| Orchestrator.Fit | src/models/demand_forecast/model.py:124-129 | the trainer is prepared on the feature frame; training runs on the prepared rows with the default split only when preparation succeeded |
| Orchestrator.TrainPipeline | src/models/demand_forecast/model.py:89-141 | the pipeline keeps the facade's model type and period, and a dataset that raises fails the pipeline with that error and leaves the facade as it was |
| Orchestrator.Publish | src/models/demand_forecast/model.py:124-141 | the steps after feature engineering keep the facade's model type and period |
| Orchestrator.PublishOutcome | src/models/demand_forecast/model.py:124-141 | the pipeline succeeds exactly when preparation and training succeed and the period is one of the three; then the facade is trained, caches the demand table, its predictor uses the facade's period and the table's statistics, and the metrics name exactly the trained kinds |
| Orchestrator.InvalidPeriodFailsAfterFitting | src/models/demand_forecast/model.py:129-138 | with an unknown period the pipeline fails after fitting and setting the statistics, so the trainer ends up trained while the facade keeps its old trained flag and cache |
| Orchestrator.PredictDemand | src/models/demand_forecast/model.py:143-167 | the facade refuses while untrained; otherwise it asks the predictor, with the cached table when no history is given and its own period when none is requested |
| Orchestrator.CachedHistoryRoutes | src/models/demand_forecast/model.py:162-167 | after training, a query without history is a cold start exactly when the cached table has no row for the pair |
| Orchestrator.FeatureImportance | src/models/demand_forecast/model.py:169-171 | the facade's importance is the trainer's, by best model, and needs recorded metrics |
| Orchestrator.Save | src/models/demand_forecast/model.py:173-193 | the saved state holds the trainer's models, scaler, encoders, feature names, type and trained flag, plus the facade's type, period, statistics and trained flag |
| Orchestrator.Load | src/models/demand_forecast/model.py:195-213 | loading succeeds exactly when the saved period is one of the three; it restores the saved models, scaler, encoders, feature names, trainer type and flag, facade type, statistics and period, and keeps the metrics and cache of the facade loaded into |
| Orchestrator.SaveLoadRoundTrip | src/models/demand_forecast/model.py:173-213 | loading what was saved gives the facade back, except that the predictor's period becomes the facade's and the metrics and cache are those of the facade loaded into |
| Orchestrator.LoadedImportanceNeedsAName | src/models/demand_forecast/model.py:169-213 | a fresh facade that loads a saved one has no metrics, so the importance call fails |
| Orchestrator.LoadedQueriesAreColdStarts | src/models/demand_forecast/model.py:162-213 | a fresh facade that loads a saved one has no cache, so every successful query without history is a cold start |
| Legacy.ToModular | src/models/demand_forecast_model.py:521-529 | a row in the newer predictor's terms has the same columns; numbers are kept and NaN or text becomes a gap |
| Legacy.Selection | src/models/demand_forecast_model.py:535-558 | the older selection averages only when the model type is ensemble |
| Legacy.SelectionGatedByModelType | src/models/demand_forecast_model.py:535-558 | the older selection is the newer one with the ensemble request switched off unless the model type is ensemble: it averages exactly when requested, the type is ensemble and more than one model exists; otherwise the named model, else lightgbm, xgboost, random_forest |
| Legacy.Predict | src/models/demand_forecast_model.py:495-563 | prediction fails exactly when the model is untrained, has no feature names, lacks a feature column, holds text in a feature cell, gets a frame with no rows, or has no model to use; otherwise one value per row, never negative |
| Legacy.PredictAgreesWithModular | src/models/demand_forecast_model.py:495-563 | on frames without text, the older prediction equals the newer one with the ensemble request gated on the model type, failures included |
| Legacy.NaNReadsAsZero | src/models/demand_forecast_model.py:523-529 | a NaN or absent feature cell is read as 0 and a number as itself |
| Legacy.SeasonOf | src/models/demand_forecast_model.py:194-198 | training names months 3-5 Spring, 6-8 Summer, 9-11 Fall and every other month Winter |
| Legacy.SeasonsAgree | src/models/demand_forecast_model.py:808-812 | the inference season table gives every calendar month the same season as training, and only a month outside 1-12 would be Unknown |
| Legacy.LagFallbacksDiffer | src/models/demand_forecast_model.py:819-823 | with at least k rows the older lag equals the newer one; with fewer, the older lag is 0 while the newer one is the latest demand |
| Legacy.LegacyLagMatchesTraining | src/models/demand_forecast_model.py:819-823 | the older inference lag equals the training lag, after forward fill and zero fill, of the row that would follow the history |
| Legacy.RollingFacts | src/models/demand_forecast_model.py:826-837 | the older rolling mean equals the newer forecaster's and the training rolling mean at the last row; it lies between the window's minimum and maximum; with a single row the deviation, minimum and maximum are 0 |
| Legacy.LegacyEmaWithin | src/models/demand_forecast_model.py:839-845 | with alpha in [0, 1] the last EMA value lies between the history's smallest and largest demand |
| Legacy.LatestDemand | src/models/demand_forecast_model.py:857-866 | the demand found is that of the latest row meeting the condition; none found means no row meets it |
| Legacy.HistoryColumnsFixed | src/models/demand_forecast_model.py:814-907 | with or without history the same set of history columns is produced |
| Legacy.DaysAscending | src/models/demand_forecast_model.py:913-915 | the place's distinct dates in strictly ascending order, exactly those of its rows |
| Legacy.PlaceDaily | src/models/demand_forecast_model.py:913-917 | one total per distinct date, each the summed demand of the place's rows on that date |
| Legacy.SeasonCell | src/models/demand_forecast_model.py:962-966 | without a season encoder the season stays text; with one, encoding succeeds exactly when the season is a known class, and gives its index |
| Legacy.Growth | src/models/demand_forecast_model.py:872-880 | a growth column is NaN exactly when the history has k rows, since no row lies k back; prediction reads it as the k-row percentage change when there are more than k rows and as 0 otherwise |
| Legacy.FeatureDict | src/models/demand_forecast_model.py:764-958 | the feature dictionary exists exactly when the season can be encoded, and it holds every history column |
| Legacy.LagFeature | src/models/demand_forecast_model.py:819-823 | in the dictionary, lag k is the pair's demand k rows back, or 0 with fewer rows |
| Legacy.NoHistoryFeaturesZero | src/models/demand_forecast_model.py:889-907 | without rows for the pair every history column is 0 |
| Legacy.QueryFrame | src/models/demand_forecast_model.py:968-976 | with a feature list the frame has exactly those columns, each the dictionary's value or 0 when missing; without one the dictionary is used as is |
| Legacy.QueryFrameFeedsPredict | src/models/demand_forecast_model.py:968-976 | a reindexed frame never lacks a feature, so prediction fails only for an untrained model or one without models, and each feature is read as the dictionary's number or 0 |
| Legacy.PredictionFeatures | src/models/demand_forecast_model.py:764-978 | the query frame exists exactly when the dictionary does and is its reindexing to the feature names: one row |
| Legacy.ConsistencyCheck | src/models/demand_forecast_model.py:648-661 | a check is attached exactly for weekly and monthly; the range is 5 to 7 times the daily forecast for weekly and 25 to 31 times it for monthly, and the verdict is within exactly when the scaled value lies in the range |
| Legacy.PredictOne | src/models/demand_forecast_model.py:614-624 | the single forecast exists exactly when prediction succeeds and is its non-negative first value |
| Legacy.Answer | src/models/demand_forecast_model.py:609-663 | the answer exists exactly when the consulted model predicts; it is non-negative, flags the period-specific model exactly when no scaling took place, attaches a check exactly when a daily forecast is scaled to a week or month, and echoes ids, date, periods, model type and units |
| Legacy.PredictDemand | src/models/demand_forecast_model.py:565-663 | a non-integer item or place, an unparsable date, or a history lacking a required column fails; a success is non-negative and names its units |
| Legacy.PredictParsed | src/models/demand_forecast_model.py:601-663 | once the arguments are checked, a forecast is non-negative, flags scaling correctly and names its units |
| Legacy.DailyScaling | src/models/demand_forecast_model.py:695-712 | daily to weekly multiplies by 7, and daily to monthly by the length of the date's month |
| Legacy.ScaledDailyWithinRange | src/models/demand_forecast_model.py:648-661 | a non-negative daily forecast scaled to a week or a month always lies in the expected range |
| Legacy.ConsistencyNeverOutside | src/models/demand_forecast_model.py:648-661 | whenever a check is attached, it reads within_expected_range |
| Legacy.AnswerValue | src/models/demand_forecast_model.py:609-631 | the forecast is the consulted model's prediction, scaled from the forecaster's period exactly when no model serves the period and the periods differ |
| Legacy.WeeklyFromDaily | src/models/demand_forecast_model.py:622-631 | for a daily forecaster with no weekly model the weekly forecast is 7 times the daily one, and one exists exactly when the other does |
| Legacy.MonthlyFromDaily | src/models/demand_forecast_model.py:622-631 | for a daily forecaster with no monthly model the monthly forecast is the month length times the daily one |
| Legacy.UnknownNameKeepsValue | src/models/demand_forecast_model.py:679-693 | between two different names of which one is not a period the conversion keeps the value |
| Legacy.UnknownPeriodUnscaled | src/models/demand_forecast_model.py:622-631 | a forecaster trained for, or asked for, an unknown period passes its forecast through unscaled |
| Legacy.DefaultFeaturesUseEmptyHistory | src/models/demand_forecast_model.py:980-988 | without a history frame the forecast is that for an empty history frame |
| DiscountFeatures.PartId | src/services/feature_engineering.py:40-44 | a part contributes no id exactly when it holds no digit |
| DiscountFeatures.PartIdsMembers | src/services/feature_engineering.py:40-44 | an id is among the parts' ids exactly when some part's first digit run reads as it |
| DiscountFeatures.ParseItemIds | src/services/feature_engineering.py:23-52 | a NaN cell, an empty text or "nan" gives no ids, and the ids returned never repeat |
| DiscountFeatures.ParseItemIdsContents | src/services/feature_engineering.py:38-52 | for a live text there is at most one id per comma-separated part, an id is returned exactly when some part contributes it, and ids keep the order of their first contribution |
| DiscountFeatures.IdsOfParts | src/services/feature_engineering.py:45-52 | de-duplication keeps exactly the contributed ids, each once, in order of first appearance |
| DiscountFeatures.ItemIdsRoundTrip | src/services/feature_engineering.py:23-52 | a non-empty list of distinct ids written comma-separated parses back to the same list |
| DiscountFeatures.FirstMatchLeftmost | src/services/feature_engineering.py:78-88 | a search reports nothing exactly when no position matches, and otherwise the match at the leftmost matching position |
| DiscountFeatures.SearchPairLeftmost | src/services/feature_engineering.py:78-88 | the "X for Y" and "buy X get Y" searches find the leftmost match of their pattern |
| DiscountFeatures.ClassifyPrecedence | src/services/feature_engineering.py:68-94 | a percentage wins over "X for Y", which wins over "buy X get Y", which wins over the buy-one-get-one words; unknown exactly when none is present |
| DiscountFeatures.ParseDiscount | src/services/feature_engineering.py:54-95 | a NaN cell is an unknown discount |
| DiscountFeatures.ParseDiscountAny | src/services/feature_engineering.py:97-111 | the discount_raw cell decides when it is not NaN, and the type cell otherwise |
| DiscountFeatures.PercentRoundTrip | src/services/feature_engineering.py:72-75 | the text "N%" parses as a percentage discount of N/100 |
| DiscountFeatures.ForRoundTrip | src/services/feature_engineering.py:77-81 | the text "X for Y" parses as X for Y |
| DiscountFeatures.BuyGetRoundTrip | src/services/feature_engineering.py:83-87 | the text "buy X get Y" parses as buy X get Y |
| DiscountFeatures.ForNotPercent | src/services/feature_engineering.py:72-81 | a text "X for Y" is never taken for a percentage |
| DiscountFeatures.Daypart | src/services/feature_engineering.py:127-147 | a negative hour is unknown; otherwise hours 5 to 10 are morning, 11 to 15 afternoon, 16 to 20 evening, and the rest night, each in both directions |
| DiscountFeatures.Multiplier | src/services/feature_engineering.py:149-172 | the multiplier lies in [0.05, 1]; buy one get one is 0.5; an unrecognised kind is 1; a percentage p in [0, 0.95] gives 1 - p |
| DiscountFeatures.MultiplierOfParsed | src/services/feature_engineering.py:161-171 | paying Y for X costs Y/X, getting Y free with X costs X/(X+Y), buy one get one costs one half, and unknown costs nothing off |
| DiscountFeatures.Depth | src/services/feature_engineering.py:450-463 | the depth lies in [0, 0.95] and is one minus any multiplier in range |
| DiscountFeatures.FinalKind | src/services/feature_engineering.py:443-444 | a known kind is kept, and an unknown kind becomes a percentage exactly when a final percentage exists |
| DiscountFeatures.FinalPct | src/services/feature_engineering.py:435-441 | a parsed percentage is kept; otherwise an item discount takes the item's observed share and other segments the campaign's |
| DiscountFeatures.ObservedPct | src/services/feature_engineering.py:395-399 | an observed share exists exactly when discounted gross sales are positive, and lies in [0, 0.95] |
| DiscountFeatures.ItemUnitsWithinCampaign | src/services/feature_engineering.py:379-401 | with non-negative quantities, the in-window units of one item never exceed the campaign's in-window units |
| DiscountFeatures.UnitsAppend | src/services/feature_engineering.py:379-389 | an order line outside its campaign's window adds nothing, and one inside adds its quantity |
| DiscountFeatures.Label | src/services/feature_engineering.py:429-433 | an item discount row with a real item is labelled with the item's units, every other row with the campaign's units |
| DiscountFeatures.LabelWithinCampaign | src/services/feature_engineering.py:429-433 | a label is non-negative and never exceeds the campaign's units |
| DiscountFeatures.SplitPoints | src/services/feature_engineering.py:562-564 | the cuts are the floors of 70% and 85% of the row count, in order and within range |
| DiscountFeatures.SplitRows | src/services/feature_engineering.py:552-568 | the three parts together are a permutation of the rows sorted by start time, of sizes set by the cuts, each part no later than the next |
| DiscountFeatures.Cut | src/services/feature_engineering.py:566-568 | cutting a sorted sequence at two points gives contiguous parts that concatenate back to it, each no later than the next |
| DiscountDecision.EqWindow | src/services/prediction_model/decision.py:51 | the selling window is never below 1e-6 hours and is kept when it is at least that |
| DiscountDecision.Lift | src/services/prediction_model/decision.py:54-55 | the lift 1 + 4.5·pct is clipped to [0, max boost] and kept when already inside it |
| DiscountDecision.ShortageFactor | src/services/prediction_model/decision.py:57-61 | with positive expected demand the urgency factor lies in [0.5, 2]; otherwise it is 1 |
| DiscountDecision.EqUnitsSign | src/services/prediction_model/decision.py:26-63 | the curve's hourly estimate has the sign of the expected demand |
| DiscountDecision.LiftMonotone | src/services/prediction_model/decision.py:54-55 | a deeper discount never lowers the lift |
| DiscountDecision.EqUnitsMonotoneInPct | src/services/prediction_model/decision.py:26-63 | with non-negative expected demand a deeper discount never lowers the curve's estimate |
| DiscountDecision.MapAggressiveness | src/services/prediction_model/decision.py:66-84 | the curve weight lies in [0.2, 0.8], the two weights sum to 1, and the coverage factor lies in [0.9, 1.1] |
| DiscountDecision.WeightsLinear | src/services/prediction_model/decision.py:79-82 | the curve weight is 0.2 + 0.06·a and the coverage 0.9 + 0.02·a for the clipped aggressiveness a, so the weight's own clip never binds |
| DiscountDecision.AggressivenessMonotone | src/services/prediction_model/decision.py:66-84 | more aggressiveness moves weight from the model to the curve and raises the coverage factor |
| DiscountDecision.DefaultAggressivenessWeights | src/services/prediction_model/decision.py:179 | the default aggressiveness 5 weighs model and curve equally with coverage 1 |
| DiscountDecision.ClampExpm1 | src/services/prediction_model/decision.py:86-101 | the result is never negative and is expm1 of the prediction clipped to [-20, max], or 0 when that is negative |
| DiscountDecision.ClampSaturates | src/services/prediction_model/decision.py:97-98 | every prediction above the bound gives the same number of units |
| DiscountDecision.ClampMonotone | src/services/prediction_model/decision.py:97-100 | for a monotone expm1, a larger log prediction never yields fewer units |
| DiscountDecision.UtcOf | src/services/prediction_model/decision.py:224-227 | hour, weekday and month come from the UTC date of the timestamp; the month lies in 1 to 12 |
| DiscountDecision.UtcDayOfWeekIsWeekday | src/services/prediction_model/decision.py:224-226 | the weekday read off the day number is the calendar weekday of the UTC date |
| DiscountDecision.UtcWeekday | src/services/prediction_model/decision.py:224-226 | since 1970-01-01 was a Thursday, the weekday is (whole days + 3) mod 7 |
| DiscountDecision.UtcNextDay | src/services/prediction_model/decision.py:224-226 | one day later is the same hour on the next weekday |
| DiscountDecision.ItemPriorAbsent | src/services/prediction_model/decision.py:137-141 | a table with no row for the place and item gives a prior of 0 |
| DiscountDecision.ItemPriorNonNegative | src/services/prediction_model/decision.py:121-143 | non-negative order counts give a non-negative prior |
| DiscountDecision.PlacePriorAppend | src/services/prediction_model/decision.py:145-164 | a row for the place adds its count, a missing count as 0, and any other row adds nothing |
| DiscountDecision.CandidateFor | src/services/prediction_model/decision.py:232-270 | each candidate's multiplier lies in [0.05, 1] and is 1 - p for an in-range p, its depth is p, its capped duration is at most 30 days and the window, and it is a weekend exactly on Saturday and Sunday |
| DiscountDecision.WindowHours | src/services/prediction_model/decision.py:215 | the window is at least 1e-6 hours and is the time left in hours when at least a second remains |
| DiscountDecision.ReliefShrinksWithAggressiveness | src/services/prediction_model/decision.py:297-299 | more aggressiveness leaves a smaller share and a lower hourly rate of stock unsold |
| DiscountDecision.Slack | src/services/prediction_model/decision.py:300 | the slack is the smaller of the fractional and the hourly allowance |
| DiscountDecision.RequiredZero | src/services/prediction_model/decision.py:302 | with positive coverage nothing must be sold exactly when the slack covers the stock |
| DiscountDecision.RequiredBounds | src/services/prediction_model/decision.py:297-302 | for stock on hand the target lies between the share left after the fractional relief and the whole stock, both times the coverage |
| DiscountDecision.RequiredShrinksWithTime | src/services/prediction_model/decision.py:297-302 | a longer window never raises the target |
| DiscountDecision.FirstReaching | src/services/prediction_model/decision.py:304 | the index found is the first one reaching the target, and none is found exactly when no value reaches it |
| DiscountDecision.ArgMax | src/services/prediction_model/decision.py:307 | the index holds the largest value and no earlier index holds as large a value |
| DiscountDecision.Choose | src/services/prediction_model/decision.py:304-313 | the inventory can be cleared exactly when some candidate reaches the target; then the first such is chosen, else the first candidate with the largest expectation |
| DiscountDecision.ChoiceDetermined | src/services/prediction_model/decision.py:304-313 | any index meeting the rule of the reported status is the chosen one |
| DiscountDecision.SortedGrid | src/services/prediction_model/decision.py:214 | the grid is sorted ascending and is a permutation of the given one |
| DiscountDecision.BaselineIndex | src/services/prediction_model/decision.py:291 | the baseline's first position in the grid, or 0 when it is absent |
| DiscountDecision.Candidates | src/services/prediction_model/decision.py:231-270 | one feature row per grid percentage, in grid order, for the requested item |
| DiscountDecision.ModelUnits | src/services/prediction_model/decision.py:276-277 | one non-negative model rate per candidate, from its clamped log prediction |
| DiscountDecision.Blend | src/services/prediction_model/decision.py:289 | each blended rate is the weighted sum of the model's and the curve's rates |
| DiscountDecision.BaselineKeepsExpectation | src/services/prediction_model/decision.py:291-295 | when the baseline's blended rate is not negligible, its own adjusted expectation is the expected demand |
| DiscountDecision.AdjustedNonNegative | src/services/prediction_model/decision.py:289-295 | non-negative rates and expected demand give non-negative adjusted expectations |
| DiscountDecision.Score | src/services/prediction_model/decision.py:214-302 | the scored grid is the sorted request grid with one model and one curve rate per candidate, a baseline inside it, a non-negative target and a window of at least 1e-6 hours |
| DiscountDecision.RecommendationRule | src/services/prediction_model/decision.py:304-320 | when some candidate reaches the target the recommendation is the smallest such percentage; otherwise it is the first candidate with the largest adjusted expectation |
| DiscountDecision.RecommendDiscountItem | src/services/prediction_model/decision.py:166-354 | a timestamp outside the pandas range or an empty grid fails; otherwise the recommendation is a grid percentage for the requested place and item, with a non-negative target and a curve weight in [0.2, 0.8], decided on the scored candidates |
| DiscountDecision.RecommendDiscountBill | src/services/prediction_model/decision.py:356-414 | fails exactly when the item recommendation would; otherwise it is for item -1 with no items targeted and a percentage from the grid |
| DiscountDecision.BillIsItemWithoutPrior | src/services/prediction_model/decision.py:397-414 | the bill recommendation is the item recommendation for item -1, without an item table or with one that has no row for that item |
| Inventory.RoundHalfEven | src/services/inventory_service.py:147 | the rounded integer lies within one half of the value |
| Inventory.Round2 | src/services/inventory_service.py:147 | rounding to two decimals moves a value by at most half a cent |
| Inventory.Round2OfCents | src/services/inventory_service.py:166 | a value already on the hundredths grid is unchanged by rounding |
| Inventory.FirstRowOf | src/services/inventory_service.py:110-113 | the index found is the first row for the item, and none is found exactly when no row is for it; it serves both the first sale of an item and its first inventory row |
| Inventory.ResolvePlace | src/services/inventory_service.py:109-117 | an explicit non-zero place is kept, and without a sales table the place defaults to 1 |
| Inventory.ResolvePlaceDefault | src/services/inventory_service.py:110-115 | without an explicit place the place of the item's first sale is used, and place 1 when the item never sold |
| Inventory.ItemQuantities | src/services/inventory_service.py:157 | the item has no quantities exactly when no sale row is for it |
| Inventory.AverageWindow | src/services/inventory_service.py:163 | the moving-average window is 7 exactly for daily, 4 exactly for weekly and 3 for every other period |
| Inventory.StatisticalDemand | src/services/inventory_service.py:152-166 | without a sales table the estimate fails with "no sales data"; it fails exactly when there is no table or no sale of the item |
| Inventory.StatisticalDemandBounds | src/services/inventory_service.py:162-166 | the estimate exists and lies, within rounding, between the smallest and largest of the item's last min(w, n) sales |
| Inventory.PredictDemand | src/services/inventory_service.py:83-166 | without a model the statistical estimate is returned; a loaded model that answers gives its rounded answer for the resolved place; a loaded model that raises falls back to the statistical estimate; failing requires the statistical estimate to fail |
| Inventory.SafetyStock | src/services/inventory_service.py:186-199 | with no sales table or at most 7 sales of the item the safety stock is half the lead-time demand |
| Inventory.ReorderPoint | src/services/inventory_service.py:201-203 | the reorder point is the least non-negative integer at or above lead-time demand plus safety stock |
| Inventory.CalculateReorderPoint | src/services/inventory_service.py:168-203 | the reorder point fails exactly when the daily demand estimate fails |
| Inventory.ShortHistoryReorderPoint | src/services/inventory_service.py:194-203 | with a short history the reorder point is one and a half times the lead-time demand, rounded up and never negative |
| Inventory.StatusOf | src/services/inventory_service.py:243-262 | a stock below half the reorder point is critical, below it is low, above three times it is overstocked, and otherwise, or when the stock is NaN, it is optimal, each in both directions |
| Inventory.StatusMonotone | src/services/inventory_service.py:254-262 | more stock never makes the status more urgent |
| Inventory.InventoryStatus | src/services/inventory_service.py:243-262 | without an inventory table, or with no row for the item, the status is optimal; otherwise it is the status of the quantity on hand of the item's first row against the reorder point; it is never unknown |
| Inventory.FallbackRecommendation | src/services/inventory_service.py:276-289 | the fallback record has zero demands and reorder point, unknown status, the investigate action, the fallback model type and the error |
| Inventory.GenerateRecommendations | src/services/inventory_service.py:222-291 | the record is for the requested item and place, its action follows its status, it is the fallback exactly when the status is unknown, and otherwise it has no error and is an ML record exactly when a model is loaded |
| Inventory.FallbackWhenEstimateFails | src/services/inventory_service.py:233-289 | the fallback record appears exactly when one of the three demand estimates fails, and is the "no sales data" fallback when neither a model nor a sales table is present |
| Inventory.RecommendationStatus | src/services/inventory_service.py:233-262 | a successful record carries the daily, weekly and monthly demand estimates, the reorder point for the default lead time, and the status of the item's stock against it |
| Inventory.IdentifyExpiringItems | src/services/inventory_service.py:205-220 | without an inventory table it fails; otherwise the result is the expiring rows, as a permutation, sorted soonest first |
| Inventory.Expiring | src/services/inventory_service.py:216-218 | a row is kept exactly when it is in the table and expires within the threshold |
| Inventory.ExpiringItemsSpec | src/services/inventory_service.py:216-220 | every reported row expires within the threshold, every such row is reported, and they come soonest first |

## Left out

- Fitted models, the scaler, `log1p`/`expm1` and the standard deviation are function parameters. Their numerical behaviour is not modelled, because it lives in XGBoost, LightGBM, scikit-learn and NumPy.
- MAE, RMSE, MAPE and R² are not computed. The validation MAE of each model is an input to best-model selection, because the metrics are library floating-point code.
- `TimeSeriesSplit` is reduced to its last fold, with test size n // (n_splits + 1), following scikit-learn's documented rule. Fold generation itself is library code.
- LabelEncoder is reduced to its classes (the distinct labels, sorted) and the position lookup. Its other methods and its NumPy storage are not modelled.
- The sin/cos cyclic encodings, ISO week numbers, `polyfit` trends and `pct_change` are function parameters (`calendarExtra` and the fields of `Legacy.Numerics`), because they are transcendental or library floating point.
- All arithmetic is exact `real`. Float rounding is not modelled, in particular of `int(n * 0.70)` and `int(n * 0.85)`, which the model computes on exact products.
- The source's sorts (`sort_values`) are not stable. Sorting contracts state only that the result is sorted and a permutation of the input.
- pandas date parsing accepts many formats. Dates are `(year, month, day)` triples and only `YYYY-MM-DD` text is parsed.
- DiscountFeatures.PartId: a digit is an ASCII `0`-`9`. Python's `\d` and `int()` also accept the other Unicode decimal digits, so a part that holds only such digits gives an id in the source and none here.
- DiscountFeatures.PartIdsMembers: reads ids from ASCII digit runs only, for the reason given under DiscountFeatures.PartId.
- DiscountFeatures.ParseItemIds: reads ids from ASCII digit runs only, for the reason given under DiscountFeatures.PartId.
- DiscountFeatures.ParseItemIdsContents: reads ids from ASCII digit runs only, for the reason given under DiscountFeatures.PartId.
- DiscountFeatures.SearchPairLeftmost: the patterns' `\d` matches ASCII digits only, while Python's `re` on `str` matches every Unicode decimal digit.
- DiscountFeatures.ClassifyPrecedence: the patterns it orders match ASCII digits only, for the reason given under DiscountFeatures.SearchPairLeftmost.
- DiscountFeatures.ParseDiscount: numbers are read from ASCII digits only. Python's `float()` and `int()` also read other Unicode decimal digits, so such a discount text is unknown here. Lower-casing maps only `A`-`Z`, while Python's `lower()` maps every cased letter.
- DiscountFeatures.WindowOf: campaign windows are a map from campaign id, so each id has one window. The source's left merge duplicates an order line once per campaign row sharing its id; repeated campaign ids are not modelled.
- Calendar.ParseIsoDate: accepts only `YYYY-MM-DD`, while `pd.to_datetime` accepts more formats, so some texts the source accepts are rejected here. The accepted range, 1677-09-22 to 2262-04-11, is that of the nanosecond timestamps `pd.to_datetime` returns for text in pandas 2.x. A pandas release that parses text into other resolutions would accept more dates.
- The clock (`datetime.now`, `Timestamp.now`) is a `today`/`now` parameter, because it is an input the program reads from its environment.
- File and serialization I/O (`load_data`, CSV reading, pickle bytes) is left out. `save`/`load` of the modular model are modelled as a round trip of the stored record.
- The legacy model's `save`, `load` and `load_period_model` (src/models/demand_forecast_model.py:719-762) are left out. Its map of per-period models is an input.
- The legacy `create_demand_dataset` is the same code as the modular one, so `DemandDataset` covers both.
- Null `item_id` and `order_id` cells are not modelled: both are integers. A null place is `None`, and its line is dropped by the grouping.
- DemandDataset.AggregateIsGroupSum: states the row count and the summed units of each group, not the averaged price or the summed `total_amount`, which the aggregation also carries.
- Orchestrator.TrainPipeline: states that the model type and period are kept and what a failing dataset does; the outcome after the dataset is built is stated by Orchestrator.PublishOutcome.
- The optional menu-item and item merges in `engineer_features`, and the `item_place_interaction` column, are left out. They attach columns copied from other tables, and training removes the interaction column again.
- `_fill_missing_values` fills every column whose name contains "lag", "rolling" or "ema" forward within its group and then with 0. Every name containing "demand" contains "ema", so `demand_same_dow` and the place demand columns get this fill rather than the median; the model keeps this behaviour. The median fill of the remaining numeric columns is not modelled.
- `return_debug` and the debug frame of `recommend_discount_item` are left out, because they only report values the result already holds.
- Categorical alignment (`ensure_categorical_slices`, `align_categories_for_inference`) is left out. It changes only pandas dtypes.
- `build_feature_table` is modelled only in its window filter, observed discount share, final kind and percentage, label rule and split. Its merges, duration features and the `y_units_per_hour` target are left out.
- The constants `EQ_ALPHA`, `EQ_BETA` and `EQ_MAX_MULT` are never read by the code and are not modelled.
- The history frame that `InventoryService.predict_demand` builds for the demand model is left out. It uses weekly or monthly aggregation with ISO weeks. The forecaster is a `forecast(item, place, period)` parameter, and `None` stands for the exception that triggers the statistical fallback.
- Inventory.PredictDemand: the `date` argument, and its default of tomorrow taken from `datetime.now()`, are folded into the `forecast` parameter, which takes no date. So the model does not state how the forecast depends on the date. `calculate_reorder_point` and `generate_recommendations` never pass a date, so every call from them uses the clock default.
- A missing `quantity_on_hand` column, which the source reads as 0, is not modelled. A NaN cell is `None`.
- Item ids are integers. The failure of `int(item_id)` on a non-numeric id is not modelled.
- Logging, printing, the HTTP layer, threading and the service singleton are left out, because they have no effect on the values computed.
