/** The older single-file forecaster (`DemandForecastModel` in
    demand_forecast_model.py): its `predict` with the ensemble gated on the
    model type, its `predict_demand` routing between period-specific models,
    its own model and period scaling, the consistency check it attaches to
    scaled daily forecasts, and the feature row it builds for one query.

    The feature row is a dictionary from column name to cell; a cell holds a
    number, NaN or text (the season before label encoding). Fitted models
    and the scaler are opaque functions, as in the newer predictor. */
module Legacy {

  import opened Wrappers
  import opened Seqs
  import opened Calendar
  import opened Rows
  import Series
  import Sorting
  import Training
  import Features
  import Validation
  import Predictor
  import Periods

  type Attempt<T> = Training.Attempt<T>

  // ---------------------------------------------------------------------
  // Frames and predict
  // ---------------------------------------------------------------------

  /** A DataFrame cell: a number, NaN, or text. */
  datatype Cell = Num(x: real) | Missing | Text(s: string)
  {
    /** The number a cell is read as by `fillna(0)`; text has none. */
    function GetNum(): real {
      if Num? then x else 0.0
    }
  }

  type Row = map<string, Cell>

  /** A frame: its column labels and its rows. */
  datatype Frame = Frame(columns: set<string>, rows: seq<Row>)

  /** A cell, NaN when the row lacks the column. */
  function CellOf(r: Row, c: string): Cell {
    if c in r then r[c] else Missing
  }

  /** The same row in the newer predictor's terms, where only numbers and
      NaN exist: text becomes NaN. */
  function ToModular(r: Row): (m: Predictor.Row)
    ensures m.Keys == r.Keys
    ensures forall c :: c in r && r[c].Num? ==> m[c] == Some(r[c].x)
    ensures forall c :: c in r && !r[c].Num? ==> m[c] == None
  {
    map c | c in r :: if r[c].Num? then Some(r[c].x) else None
  }

  function ToModularRows(rows: seq<Row>): (ms: seq<Predictor.Row>)
    ensures |ms| == |rows|
    ensures forall i :: 0 <= i < |rows| ==> ms[i] == ToModular(rows[i])
  {
    seq(|rows|, i requires 0 <= i < |rows| => ToModular(rows[i]))
  }

  /** Whether a selected feature cell holds text, which the scaler cannot
      turn into a float. */
  predicate HasText(x: Frame, names: seq<string>) {
    exists i, j :: 0 <= i < |x.rows| && 0 <= j < |names| && CellOf(x.rows[i], names[j]).Text?
  }

  /** Which model(s) `predict` uses. Unlike the newer predictor, averaging
      also needs the model type to be 'ensemble'; then a named trained
      model; then the first trained of lightgbm, xgboost, random_forest. */
  function Selection(t: Training.Trainer, useEnsemble: bool, modelName: Option<string>): (r: Option<Predictor.Choice>)
    ensures r == Some(Predictor.Ensemble) ==> t.modelType == "ensemble"
  {
    if useEnsemble && t.modelType == "ensemble" && |t.models| > 1 then Some(Predictor.Ensemble)
    else if modelName.Some? && modelName.value != "" && Training.Get(t.models, modelName.value).Some? then
      Some(Predictor.Single(modelName.value))
    else match Predictor.FirstAvailable(t.models, Predictor.Priority)
      case None => None
      case Some(n) => Some(Predictor.Single(n))
  }

  /** The older selection is the newer one with the ensemble request
      switched off for every model type other than 'ensemble'. */
  lemma SelectionGatedByModelType(t: Training.Trainer, useEnsemble: bool, modelName: Option<string>)
    ensures Selection(t, useEnsemble, modelName)
         == Predictor.Selection(t, useEnsemble && t.modelType == "ensemble", modelName)
    ensures Selection(t, useEnsemble, modelName) == Some(Predictor.Ensemble)
        <==> useEnsemble && t.modelType == "ensemble" && |t.models| > 1
  {
  }

  /** `predict`: fails when untrained, when the feature list is empty, when a
      feature column is missing, when a selected cell is text, when the frame
      has no rows (the scaler refuses zero samples), or when no model is
      available; otherwise one clamped prediction per row, NaN cells read
      as 0. */
  function Predict(t: Training.Trainer, x: Frame, modelName: Option<string>, useEnsemble: bool,
                   scale: (Training.Scaler, seq<real>) -> seq<real>,
                   apply: (Training.Model, seq<real>) -> real): (r: Attempt<seq<real>>)
    ensures r.Success? <==> (t.isTrained && |t.featureNames| > 0
      && Predictor.HasColumns(t.featureNames, x.columns)
      && !HasText(x, t.featureNames) && |x.rows| > 0 && Selection(t, useEnsemble, modelName).Some?)
    ensures r.Success? ==> |r.value| == |x.rows|
    ensures r.Success? ==> forall i :: 0 <= i < |x.rows| ==> r.value[i] >= 0.0
  {
    if !t.isTrained then Failure("Model must be trained before prediction")
    else if |t.featureNames| == 0 then Failure("Model has no feature names. Ensure model was trained properly.")
    else if !Predictor.HasColumns(t.featureNames, x.columns) then Failure("Missing required features")
    else if |x.rows| == 0 then Failure("Found array with 0 sample(s) while a minimum of 1 is required by StandardScaler")
    else if HasText(x, t.featureNames) then Failure("could not convert string to float")
    else match Selection(t, useEnsemble, modelName)
      case None => Failure("No trained model available")
      case Some(c) =>
        Success(Predictor.Clamped(t, c, ToModularRows(x.rows), scale, apply))
  }

  /** On frames without text in the feature columns and with a non-empty
      feature list, the older `predict` is the newer one with the ensemble
      request gated on the model type. */
  lemma PredictAgreesWithModular(t: Training.Trainer, x: Frame, modelName: Option<string>, useEnsemble: bool,
                                 scale: (Training.Scaler, seq<real>) -> seq<real>,
                                 apply: (Training.Model, seq<real>) -> real)
    requires |t.featureNames| > 0 && !HasText(x, t.featureNames)
    ensures var older := Predict(t, x, modelName, useEnsemble, scale, apply);
      var newer := Predictor.Predict(t, Predictor.Table(x.columns, ToModularRows(x.rows)),
                                     useEnsemble && t.modelType == "ensemble", modelName, scale, apply);
      && (older.Success? <==> newer.Success?)
      && (older.Success? ==> older.value == newer.value)
  {
    SelectionGatedByModelType(t, useEnsemble, modelName);
  }

  /** NaN and absent cells are read as 0, numbers as themselves. */
  lemma NaNReadsAsZero(r: Row, names: seq<string>, j: nat)
    requires j < |names| && !CellOf(r, names[j]).Text?
    ensures Predictor.FeatureVector(ToModular(r), names)[j] == if CellOf(r, names[j]).Num? then CellOf(r, names[j]).x else 0.0
  {
  }

  // ---------------------------------------------------------------------
  // Seasons
  // ---------------------------------------------------------------------

  /** The season the training-time feature engineer gives a month: spring
      for 3-5, summer for 6-8, fall for 9-11, winter for anything else. */
  function SeasonOf(month: int): (s: string)
    ensures s == "Spring" <==> 3 <= month <= 5
    ensures s == "Summer" <==> 6 <= month <= 8
    ensures s == "Fall" <==> 9 <= month <= 11
    ensures s == "Winter" <==> month < 3 || month > 11
  {
    if 3 <= month <= 5 then "Spring"
    else if 6 <= month <= 8 then "Summer"
    else if 9 <= month <= 11 then "Fall"
    else "Winter"
  }

  /** The season table of `_create_prediction_features`. */
  const SeasonTable: map<int, string> := map[
    3 := "Spring", 4 := "Spring", 5 := "Spring",
    6 := "Summer", 7 := "Summer", 8 := "Summer",
    9 := "Fall", 10 := "Fall", 11 := "Fall",
    12 := "Winter", 1 := "Winter", 2 := "Winter"]

  /** `season_map.get(month, 'Unknown')`. */
  function SeasonAtInference(month: int): string {
    if month in SeasonTable then SeasonTable[month] else "Unknown"
  }

  /** Training and inference name the season of every calendar month alike;
      only a month outside 1..12 would be 'Unknown' at inference. */
  lemma SeasonsAgree(month: int)
    ensures 1 <= month <= 12 ==> SeasonAtInference(month) == SeasonOf(month)
    ensures !(1 <= month <= 12) ==> SeasonAtInference(month) == "Unknown"
  {
  }

  // ---------------------------------------------------------------------
  // History features of one (item, place) series
  // ---------------------------------------------------------------------

  const LagPeriods: seq<nat> := [1, 2, 3, 7, 14, 21, 30, 60]

  const RollingWindows: seq<nat> := [3, 7, 14, 21, 30, 60, 90]

  const EmaAlphas: seq<real> := [0.1, 0.3, 0.5, 0.7, 0.9]

  const TrendWindows: seq<nat> := [7, 14, 30]

  const CvWindows: seq<nat> := [7, 30]

  /** Lag `k` at inference: the value `k` rows back when there are at least
      `k` rows, else 0. */
  function LegacyLag(xs: seq<real>, k: nat): real {
    if 1 <= k <= |xs| then xs[|xs| - k] else 0.0
  }

  /** The two forecasters agree on lag `k` once the history has `k` rows;
      below that the older one reads 0 and the newer one the latest value. */
  lemma LagFallbacksDiffer(xs: seq<real>, k: nat)
    requires k >= 1 && |xs| > 0
    ensures |xs| >= k ==> LegacyLag(xs, k) == Predictor.InferenceLag(xs, k)
    ensures |xs| < k ==> LegacyLag(xs, k) == 0.0 && Predictor.InferenceLag(xs, k) == xs[|xs| - 1]
  {
  }

  /** The older lag is what training computes, after its forward-fill and
      zero fill, for the row that would follow the history. */
  lemma LegacyLagMatchesTraining(xs: seq<real>, next: real, k: nat)
    requires k >= 1
    ensures LegacyLag(xs, k) == Series.FillForwardThenZero(Series.Lag(xs + [next], k))[|xs|]
  {
    Series.LagFilled(xs + [next], k, |xs|);
  }

  /** The four rolling statistics of one window. */
  datatype RollingStats = RollingStats(mean: real, std: real, min: real, max: real)

  /** The statistics over the last `w` values when there are at least two of
      them; otherwise the mean of the whole series and zeros. */
  function Rolling(xs: seq<real>, w: nat, std: seq<real> -> real): RollingStats
    requires |xs| > 0 && w >= 1
  {
    var tail := TakeLast(xs, w);
    if |tail| >= 2 then RollingStats(Mean(tail), std(tail), MinOf(tail), MaxOf(tail))
    else RollingStats(Mean(xs), 0.0, 0.0, 0.0)
  }

  /** The rolling mean equals the newer forecaster's, and the training
      rolling mean at the last history row; with two or more values it lies
      between the window's minimum and maximum, while a single value gives
      minimum and maximum 0. */
  lemma RollingFacts(xs: seq<real>, w: nat, std: seq<real> -> real)
    requires |xs| > 0 && w >= 2
    ensures Rolling(xs, w, std).mean == Predictor.InferenceRolling(xs, w)
    ensures Rolling(xs, w, std).mean == Series.RollingMean(xs, w)[|xs| - 1]
    ensures |xs| >= 2 ==> Rolling(xs, w, std).min <= Rolling(xs, w, std).mean <= Rolling(xs, w, std).max
    ensures |xs| == 1 ==> Rolling(xs, w, std) == RollingStats(xs[0], 0.0, 0.0, 0.0)
  {
    var tail := TakeLast(xs, w);
    Predictor.InferenceRollingMatchesTraining(xs, w);
    if |tail| >= 2 {
      Series.MeanWithin(tail, MinOf(tail), MaxOf(tail));
    } else {
      assert tail == xs;
    }
    if |xs| == 1 {
      assert xs == [xs[0]];
      MeanOfConstant(xs, xs[0]);
    }
  }

  /** The last value of the exponential moving average. */
  function LegacyEma(xs: seq<real>, alpha: real): real
    requires |xs| > 0
  {
    Series.Ema(xs, alpha)[|xs| - 1]
  }

  /** With `0 <= alpha <= 1` the moving average lies between the smallest and
      largest demand of the series. */
  lemma LegacyEmaWithin(xs: seq<real>, alpha: real)
    requires |xs| > 0 && 0.0 <= alpha <= 1.0
    ensures MinOf(xs) <= LegacyEma(xs, alpha) <= MaxOf(xs)
  {
    Series.EmaWithin(xs, alpha, MinOf(xs), MaxOf(xs));
  }

  /** The slope of the last `w` values, 0 with fewer than two. */
  function Trend(xs: seq<real>, w: nat, slope: seq<real> -> real): real {
    var tail := TakeLast(xs, w);
    if |tail| >= 2 then slope(tail) else 0.0
  }

  /** The coefficient of variation of the last `w` values, 0 with fewer than
      two or a zero mean. */
  function Cv(xs: seq<real>, w: nat, std: seq<real> -> real): real {
    var tail := TakeLast(xs, w);
    if |tail| >= 2 && Mean(tail) != 0.0 then std(tail) / Mean(tail) else 0.0
  }

  /** The demand of the latest row satisfying `p`. */
  function LatestDemand(rows: seq<DemandRecord>, p: DemandRecord -> bool): (r: Option<real>)
    ensures r.None? <==> forall i :: 0 <= i < |rows| ==> !p(rows[i])
    ensures r.Some? ==> exists i :: (0 <= i < |rows| && p(rows[i]) && r.value == rows[i].demand
      && forall j :: i < j < |rows| ==> !p(rows[j]))
    decreases |rows|
  {
    if |rows| == 0 then None
    else if p(rows[|rows| - 1]) then Some(rows[|rows| - 1].demand)
    else LatestDemand(rows[..|rows| - 1], p)
  }

  // ---------------------------------------------------------------------
  // The feature dictionary
  // ---------------------------------------------------------------------

  /** The statistics the model does not compute itself: the ISO week and the
      sine/cosine encodings of a date, the sample standard deviation, the
      least-squares slope (`polyfit` of degree 1) and `pct_change(k)` at the
      last row. */
  datatype Numerics = Numerics(
    calendarExtra: (string, CalDate) -> real,
    std: seq<real> -> real,
    slope: seq<real> -> real,
    pctChange: (seq<real>, nat) -> real)

  /** The names of a list, as a set. */
  function NameSet(names: seq<string>): set<string> {
    set n | n in names
  }

  lemma NameSetConcat(a: seq<string>, b: seq<string>)
    ensures NameSet(a + b) == NameSet(a) + NameSet(b)
  {
  }

  /** Columns named `names[i]` holding `values[i]`. */
  function Block(names: seq<string>, values: seq<Cell>): (m: Row)
    requires |names| == |values| && NoDuplicates(names)
    ensures m.Keys == NameSet(names)
    ensures forall i :: 0 <= i < |names| ==> m[names[i]] == values[i]
  {
    map i | 0 <= i < |names| :: names[i] := values[i]
  }

  /** Every one of `names` set to 0. */
  function Zeros(names: seq<string>): (m: Row)
    ensures m.Keys == NameSet(names)
    ensures forall n :: n in m ==> m[n] == Num(0.0)
  {
    map n | n in names :: Num(0.0)
  }

  const LagNames: seq<string> := [
    "demand_lag_1", "demand_lag_2", "demand_lag_3", "demand_lag_7",
    "demand_lag_14", "demand_lag_21", "demand_lag_30", "demand_lag_60"]

  const RollingMeanNames: seq<string> := [
    "demand_rolling_mean_3", "demand_rolling_mean_7", "demand_rolling_mean_14", "demand_rolling_mean_21",
    "demand_rolling_mean_30", "demand_rolling_mean_60", "demand_rolling_mean_90"]

  const RollingStdNames: seq<string> := [
    "demand_rolling_std_3", "demand_rolling_std_7", "demand_rolling_std_14", "demand_rolling_std_21",
    "demand_rolling_std_30", "demand_rolling_std_60", "demand_rolling_std_90"]

  const RollingMinNames: seq<string> := [
    "demand_rolling_min_3", "demand_rolling_min_7", "demand_rolling_min_14", "demand_rolling_min_21",
    "demand_rolling_min_30", "demand_rolling_min_60", "demand_rolling_min_90"]

  const RollingMaxNames: seq<string> := [
    "demand_rolling_max_3", "demand_rolling_max_7", "demand_rolling_max_14", "demand_rolling_max_21",
    "demand_rolling_max_30", "demand_rolling_max_60", "demand_rolling_max_90"]

  const EmaNames: seq<string> := [
    "demand_ema_0.1", "demand_ema_0.3", "demand_ema_0.5", "demand_ema_0.7", "demand_ema_0.9"]

  /** Trends, same-weekday and same-day-of-month demand, growth and variation. */
  const OtherHistoryNames: seq<string> := [
    "demand_trend_7", "demand_trend_14", "demand_trend_30",
    "demand_same_dow", "demand_same_dom",
    "demand_growth_7d", "demand_growth_30d",
    "demand_cv_7", "demand_cv_30"]

  /** Every column computed from the pair's demand history. */
  const HistoryNames: seq<string> :=
    OtherHistoryNames + EmaNames + RollingMaxNames + RollingMinNames + RollingStdNames + RollingMeanNames + LagNames

  const PlaceNames: seq<string> := [
    "place_total_demand", "place_demand_lag_1", "place_demand_lag_7",
    "place_demand_rolling_mean_7", "place_demand_rolling_mean_30", "place_unique_items"]

  lemma NamesDistinct()
    ensures NoDuplicates(LagNames) && NoDuplicates(EmaNames) && NoDuplicates(OtherHistoryNames)
    ensures NoDuplicates(RollingMeanNames) && NoDuplicates(RollingStdNames)
    ensures NoDuplicates(RollingMinNames) && NoDuplicates(RollingMaxNames)
    ensures NoDuplicates(PlaceNames)
  {
  }

  /** The lag columns of a non-empty history. */
  function LagBlock(xs: seq<real>): Row {
    NamesDistinct();
    Block(LagNames, seq(|LagPeriods|, i requires 0 <= i < |LagPeriods| => Num(LegacyLag(xs, LagPeriods[i]))))
  }

  /** The rolling mean, deviation, minimum and maximum columns of a
      non-empty history. */
  function RollingBlock(xs: seq<real>, std: seq<real> -> real): Row
    requires |xs| > 0
  {
    NamesDistinct();
    var n := |RollingWindows|;
    var stats := seq(n, j requires 0 <= j < n => Rolling(xs, RollingWindows[j], std));
    Block(RollingMaxNames, seq(n, j requires 0 <= j < n => Num(stats[j].max)))
    + Block(RollingMinNames, seq(n, j requires 0 <= j < n => Num(stats[j].min)))
    + Block(RollingStdNames, seq(n, j requires 0 <= j < n => Num(stats[j].std)))
    + Block(RollingMeanNames, seq(n, j requires 0 <= j < n => Num(stats[j].mean)))
  }

  /** The moving-average columns of a non-empty history. */
  function EmaBlock(xs: seq<real>): Row
    requires |xs| > 0
  {
    NamesDistinct();
    Block(EmaNames, seq(|EmaAlphas|, j requires 0 <= j < |EmaAlphas| => Num(LegacyEma(xs, EmaAlphas[j]))))
  }

  /** `demand_growth_kd`: 0 with fewer than `k` rows; with exactly `k` rows
      the last row has no row `k` back, so `pct_change` leaves NaN; with more,
      the change against the row `k` back. Prediction reads the NaN as 0,
      so the value used is the change only when there are more than `k`
      rows. */
  function Growth(xs: seq<real>, k: nat, pctChange: (seq<real>, nat) -> real): (c: Cell)
    ensures c.Missing? <==> |xs| == k
    ensures !c.Text?
    ensures c.GetNum() == if |xs| > k then pctChange(xs, k) else 0.0
  {
    if |xs| < k then Num(0.0)
    else if |xs| == k then Missing
    else Num(pctChange(xs, k))
  }

  /** Trends, the latest demand on the query's weekday and on its day of the
      month (0 when there is none), growth (see `Growth`) and variation, for
      the pair's rows `rows` in date order. */
  function OtherHistoryBlock(rows: seq<DemandRecord>, xs: seq<real>, d: CalDate, num: Numerics): Row {
    NamesDistinct();
    var sameDow := LatestDemand(rows, (r: DemandRecord) => Weekday(r.date) == Weekday(d)).GetOr(0.0);
    var sameDom := LatestDemand(rows, (r: DemandRecord) => r.date.day == d.day).GetOr(0.0);
    Block(OtherHistoryNames, [
      Num(Trend(xs, 7, num.slope)), Num(Trend(xs, 14, num.slope)), Num(Trend(xs, 30, num.slope)),
      Num(sameDow), Num(sameDom),
      Growth(xs, 7, num.pctChange), Growth(xs, 30, num.pctChange),
      Num(Cv(xs, 7, num.std)), Num(Cv(xs, 30, num.std))])
  }

  /** The history columns for the pair's rows in date order: all 0 when
      there are none. */
  function HistoryBlock(rows: seq<DemandRecord>, d: CalDate, num: Numerics): Row {
    if |rows| == 0 then Zeros(HistoryNames)
    else
      var xs := Predictor.DemandsOf(rows);
      OtherHistoryBlock(rows, xs, d, num) + EmaBlock(xs) + RollingBlock(xs, num.std) + LagBlock(xs)
  }

  /** With or without history the same history columns exist. */
  lemma HistoryColumnsFixed(rows: seq<DemandRecord>, d: CalDate, num: Numerics)
    ensures HistoryBlock(rows, d, num).Keys == NameSet(HistoryNames)
  {
    var a := OtherHistoryNames + EmaNames;
    var b := a + RollingMaxNames;
    var c := b + RollingMinNames;
    var e := c + RollingStdNames;
    var f := e + RollingMeanNames;
    NameSetConcat(OtherHistoryNames, EmaNames);
    NameSetConcat(a, RollingMaxNames);
    NameSetConcat(b, RollingMinNames);
    NameSetConcat(c, RollingStdNames);
    NameSetConcat(e, RollingMeanNames);
    NameSetConcat(f, LagNames);
    assert HistoryNames == f + LagNames;
  }

  // ---------------------------------------------------------------------
  // Place and item columns
  // ---------------------------------------------------------------------

  predicate IntLe(a: int, b: int) {
    a <= b
  }

  lemma IntLeIsTotalPreorder()
    ensures Sorting.TotalPreorder(IntLe)
  {
  }

  /** The distinct values of `xs`, ascending. */
  function SortedDistinct(xs: seq<int>): (r: seq<int>)
    ensures forall i, j :: 0 <= i < j < |r| ==> r[i] < r[j]
    ensures forall k :: k in r <==> k in xs
  {
    IntLeIsTotalPreorder();
    var sorted := Sorting.Sort(xs, IntLe);
    var r := Dedup(sorted);
    DedupOfSortedIsStrict(sorted, r);
    assert forall k :: k in sorted <==> k in multiset(xs);
    r
  }

  lemma DedupOfSortedIsStrict(sorted: seq<int>, r: seq<int>)
    requires Sorting.SortedBy(sorted, IntLe)
    requires r == Dedup(sorted)
    ensures forall i, j :: 0 <= i < j < |r| ==> r[i] < r[j]
  {
    forall i, j | 0 <= i < j < |r|
      ensures r[i] < r[j]
    {
      assert r[i] in sorted && r[j] in sorted;
      var a, b := FirstIndex(sorted, r[i]), FirstIndex(sorted, r[j]);
      assert IntLe(sorted[a], sorted[b]);
    }
  }

  function DayNumbers(rows: seq<DemandRecord>): (ks: seq<int>)
    ensures |ks| == |rows|
    ensures forall i :: 0 <= i < |rows| ==> ks[i] == DayNumber(rows[i].date)
  {
    seq(|rows|, i requires 0 <= i < |rows| => DayNumber(rows[i].date) as int)
  }

  /** The distinct day numbers of the rows' dates, ascending: the index of
      `groupby('date')` after sorting by date. */
  function DaysAscending(rows: seq<DemandRecord>): (days: seq<int>)
    ensures forall i, j :: 0 <= i < j < |days| ==> days[i] < days[j]
    ensures forall k :: k in days <==> exists i :: 0 <= i < |rows| && DayNumber(rows[i].date) == k
    ensures |rows| > 0 ==> |days| > 0
  {
    var ks := DayNumbers(rows);
    var days := SortedDistinct(ks);
    assert |rows| > 0 ==> ks[0] in days;
    days
  }

  /** The rows of one place. */
  function PlaceRows(rows: seq<DemandRecord>, placeId: int): seq<DemandRecord> {
    Filter(rows, (r: DemandRecord) => r.placeId == placeId)
  }

  /** The rows dated on day number `k`. */
  function RowsOn(rows: seq<DemandRecord>, k: int): seq<DemandRecord> {
    Filter(rows, (r: DemandRecord) => DayNumber(r.date) == k)
  }

  /** The place's summed demand per date, in date order. */
  function PlaceDaily(rows: seq<DemandRecord>, placeId: int): (tot: seq<real>)
    ensures |tot| == |DaysAscending(PlaceRows(rows, placeId))|
    ensures forall k :: 0 <= k < |tot| ==>
      tot[k] == Sum(Predictor.DemandsOf(RowsOn(PlaceRows(rows, placeId), DaysAscending(PlaceRows(rows, placeId))[k])))
  {
    var pr := PlaceRows(rows, placeId);
    var days := DaysAscending(pr);
    seq(|days|, k requires 0 <= k < |days| => Sum(Predictor.DemandsOf(RowsOn(pr, days[k]))))
  }

  /** `place_total_demand`: the summed demand of the place's latest date, 0
      for a place without rows. */
  function PlaceTotal(rows: seq<DemandRecord>, placeId: int): real {
    var tot := PlaceDaily(rows, placeId);
    if |tot| > 0 then tot[|tot| - 1] else 0.0
  }

  /** The place columns: the latest date's total, the totals one and seven
      dates earlier, the means of the last 7 and 30 daily totals (each 0
      without enough dates), and the number of distinct items sold on the
      latest date; all 0 for a place without rows. */
  function PlaceBlock(rows: seq<DemandRecord>, placeId: int): Row {
    NamesDistinct();
    var pr := PlaceRows(rows, placeId);
    if |pr| == 0 then Zeros(PlaceNames)
    else
      var days := DaysAscending(pr);
      var lastDay := RowsOn(pr, days[|days| - 1]);
      var items := Dedup(seq(|lastDay|, i requires 0 <= i < |lastDay| => lastDay[i].itemId));
      PlaceColumns(PlaceDaily(rows, placeId), |items|)
  }

  function PlaceColumns(tot: seq<real>, uniqueItems: nat): Row
    requires |tot| > 0
  {
    NamesDistinct();
    var n := |tot|;
    Block(PlaceNames, [
        Num(tot[n - 1]),
        Num(if n >= 2 then tot[n - 2] else 0.0),
        Num(if n >= 8 then tot[n - 8] else 0.0),
        Num(if n >= 7 then Mean(TakeLast(tot, 7)) else 0.0),
        Num(if n >= 30 then Mean(TakeLast(tot, 30)) else 0.0),
        Num(uniqueItems as real)])
  }

  /** The history frame of a query: its column labels and its rows. */
  datatype History = History(columns: set<string>, rows: seq<DemandRecord>)

  const RequiredHistoryColumns: seq<string> := ["date", "item_id", "place_id", "demand"]

  /** The empty frame the default features are built from. */
  const EmptyHistory: History := History({"date", "item_id", "place_id", "demand"}, [])

  /** The item columns: its share of the place total (0 unless both the
      item's rows and a positive place total exist), and its latest price and
      amount (0 without rows or without such a column). */
  function ItemBlock(h: History, itemRows: seq<DemandRecord>, placeTotal: real): Row {
    var n := |itemRows|;
    map[
      "item_share_of_place" := Num(if placeTotal > 0.0 && n > 0 then itemRows[n - 1].demand / placeTotal else 0.0),
      "price" := Num(if "price" in h.columns && n > 0 then itemRows[n - 1].price else 0.0),
      "total_amount" := Num(if "total_amount" in h.columns && n > 0 then itemRows[n - 1].totalAmount else 0.0)]
  }

  // ---------------------------------------------------------------------
  // Calendar columns
  // ---------------------------------------------------------------------

  /** pandas `is_quarter_start`: the first day of January, April, July or October. */
  predicate IsQuarterStart(d: CalDate) {
    d.month % 3 == 1 && d.day == 1
  }

  /** pandas `is_quarter_end`: the last day of March, June, September or December. */
  predicate IsQuarterEnd(d: CalDate) {
    d.month % 3 == 0 && d.day == DaysInMonth(d.year, d.month)
  }

  /** The calendar columns of the query date, season aside. */
  function TemporalBlock(d: CalDate, calendarExtra: (string, CalDate) -> real): Row {
    var t := Features.TemporalOf(d);
    map[
      "year" := Num(t.year as real),
      "month" := Num(t.month as real),
      "day_of_month" := Num(t.dayOfMonth as real),
      "day_of_week" := Num(t.dayOfWeek as real),
      "week_of_year" := Num(calendarExtra("week_of_year", d)),
      "is_weekend" := Num(t.isWeekend as real),
      "is_month_start" := Num(t.isMonthStart as real),
      "is_month_end" := Num(t.isMonthEnd as real),
      "is_quarter_start" := Num(if IsQuarterStart(d) then 1.0 else 0.0),
      "is_quarter_end" := Num(if IsQuarterEnd(d) then 1.0 else 0.0),
      "quarter" := Num(t.quarter as real),
      "month_sin" := Num(calendarExtra("month_sin", d)),
      "month_cos" := Num(calendarExtra("month_cos", d)),
      "day_of_week_sin" := Num(calendarExtra("day_of_week_sin", d)),
      "day_of_week_cos" := Num(calendarExtra("day_of_week_cos", d)),
      "day_of_month_sin" := Num(calendarExtra("day_of_month_sin", d)),
      "day_of_month_cos" := Num(calendarExtra("day_of_month_cos", d)),
      "week_of_year_sin" := Num(calendarExtra("week_of_year_sin", d)),
      "week_of_year_cos" := Num(calendarExtra("week_of_year_cos", d))]
  }

  /** The season cell: its label-encoded code when a season encoder exists
      (an unseen season fails), else the season's text. */
  function SeasonCell(encoders: map<string, Training.Encoder>, month: int): (r: Attempt<Cell>)
    ensures "season" !in encoders ==> r == Success(Text(SeasonAtInference(month)))
    ensures "season" in encoders ==>
      (r.Success? <==> SeasonAtInference(month) in encoders["season"].classes)
    ensures "season" in encoders && r.Success? ==>
      r.value == Num(FirstIndex(encoders["season"].classes, SeasonAtInference(month)) as real)
  {
    var s := SeasonAtInference(month);
    if "season" in encoders then
      match Training.Transform(encoders["season"], [s])
      case Success(v) => Success(Num(v[0]))
      case Failure(e) => Failure(e)
    else Success(Text(s))
  }

  // ---------------------------------------------------------------------
  // The query frame
  // ---------------------------------------------------------------------

  /** The pair's history rows in date order. */
  function PairHistory(h: History, itemId: int, placeId: int): seq<DemandRecord> {
    Features.SortRows(Validation.PairRows(h.rows, itemId, placeId))
  }

  /** The columns that do not depend on the pair's history. */
  function FrontBlock(h: History, itemRows: seq<DemandRecord>, placeId: int, d: CalDate,
                      calendarExtra: (string, CalDate) -> real, season: Cell): Row {
    TemporalBlock(d, calendarExtra)["season" := season]
    + PlaceBlock(h.rows, placeId)
    + ItemBlock(h, itemRows, PlaceTotal(h.rows, placeId))
  }

  /** The feature dictionary of `_create_prediction_features`: calendar
      columns and season, place columns, item columns and the pair's history
      columns. Only encoding the season can fail, and every history column
      is present. */
  function FeatureDict(encoders: map<string, Training.Encoder>, itemId: int, placeId: int, d: CalDate,
                       h: History, num: Numerics): (r: Attempt<Row>)
    ensures r.Success? <==> SeasonCell(encoders, d.month).Success?
    ensures r.Success? ==> NameSet(HistoryNames) <= r.value.Keys
  {
    var itemRows := PairHistory(h, itemId, placeId);
    match SeasonCell(encoders, d.month)
    case Failure(e) => Failure(e)
    case Success(season) =>
      HistoryColumnsFixed(itemRows, d, num);
      Success(FrontBlock(h, itemRows, placeId, d, num.calendarExtra, season) + HistoryBlock(itemRows, d, num))
  }

  /** Lag column `i` of a non-empty history. */
  lemma LagBlockAt(xs: seq<real>, i: nat)
    requires i < |LagNames|
    ensures LagNames[i] in LagBlock(xs)
    ensures LagBlock(xs)[LagNames[i]] == Num(LegacyLag(xs, LagPeriods[i]))
  {
    NamesDistinct();
    assert LagNames[i] in NameSet(LagNames);
  }

  /** A key of the right operand of a union keeps its value. */
  lemma UnionRight(a: Row, b: Row, k: string)
    requires k in b
    ensures k in a + b && (a + b)[k] == b[k]
  {
  }

  /** The lag columns come last in a non-empty history block. */
  lemma HistoryBlockSplit(rows: seq<DemandRecord>, d: CalDate, num: Numerics)
    requires |rows| > 0
    ensures var xs := Predictor.DemandsOf(rows);
      HistoryBlock(rows, d, num)
        == OtherHistoryBlock(rows, xs, d, num) + EmaBlock(xs) + RollingBlock(xs, num.std) + LagBlock(xs)
  {
  }

  /** Nothing placed before the history block hides its lag columns. */
  lemma HistoryLag(front: Row, rows: seq<DemandRecord>, d: CalDate, num: Numerics, i: nat)
    requires |rows| > 0 && i < |LagNames|
    ensures LagNames[i] in front + HistoryBlock(rows, d, num)
    ensures (front + HistoryBlock(rows, d, num))[LagNames[i]]
      == Num(LegacyLag(Predictor.DemandsOf(rows), LagPeriods[i]))
  {
    var xs := Predictor.DemandsOf(rows);
    var hb := HistoryBlock(rows, d, num);
    LagBlockAt(xs, i);
    HistoryBlockSplit(rows, d, num);
    UnionRight(OtherHistoryBlock(rows, xs, d, num) + EmaBlock(xs) + RollingBlock(xs, num.std), LagBlock(xs), LagNames[i]);
    UnionRight(front, hb, LagNames[i]);
  }

  /** Lag `k` of the dictionary is the pair's demand `k` rows back, or 0
      with fewer rows. */
  lemma LagFeature(encoders: map<string, Training.Encoder>, itemId: int, placeId: int, d: CalDate,
                   h: History, num: Numerics, i: nat)
    requires FeatureDict(encoders, itemId, placeId, d, h, num).Success?
    requires |PairHistory(h, itemId, placeId)| > 0 && i < |LagNames|
    ensures var m := FeatureDict(encoders, itemId, placeId, d, h, num).value;
      var xs := Predictor.DemandsOf(PairHistory(h, itemId, placeId));
      LagNames[i] in m && m[LagNames[i]] == Num(LegacyLag(xs, LagPeriods[i]))
  {
    var rows := PairHistory(h, itemId, placeId);
    var season := SeasonCell(encoders, d.month).value;
    var front := FrontBlock(h, rows, placeId, d, num.calendarExtra, season);
    assert FeatureDict(encoders, itemId, placeId, d, h, num).value == front + HistoryBlock(rows, d, num);
    HistoryLag(front, rows, d, num, i);
  }

  /** Without rows for the pair every history column is 0. */
  lemma NoHistoryFeaturesZero(encoders: map<string, Training.Encoder>, itemId: int, placeId: int, d: CalDate,
                              h: History, num: Numerics, n: string)
    requires FeatureDict(encoders, itemId, placeId, d, h, num).Success?
    requires |PairHistory(h, itemId, placeId)| == 0 && n in HistoryNames
    ensures var m := FeatureDict(encoders, itemId, placeId, d, h, num).value;
      n in m && m[n] == Num(0.0)
  {
    var rows := PairHistory(h, itemId, placeId);
    var season := SeasonCell(encoders, d.month).value;
    var front := FrontBlock(h, rows, placeId, d, num.calendarExtra, season);
    assert FeatureDict(encoders, itemId, placeId, d, h, num).value == front + Zeros(HistoryNames);
  }

  /** The frame handed to `predict`: with a feature list, exactly its
      columns, a feature the dictionary lacks set to 0; without one, the
      dictionary as it is. */
  function QueryFrame(m: Row, names: seq<string>): (x: Frame)
    ensures |x.rows| == 1
    ensures |names| > 0 ==> x.columns == NameSet(names) && x.rows[0].Keys == NameSet(names)
    ensures |names| > 0 ==> forall n :: n in names ==> x.rows[0][n] == if n in m then m[n] else Num(0.0)
    ensures |names| == 0 ==> x == Frame(m.Keys, [m])
  {
    if |names| == 0 then Frame(m.Keys, [m])
    else
      var r := map n | n in names :: if n in m then m[n] else Num(0.0);
      Frame(r.Keys, [r])
  }

  /** A model whose feature list is the frame's never finds a feature
      missing, and reads each feature as the dictionary's number, 0 when
      the dictionary lacks it. */
  lemma QueryFrameFeedsPredict(t: Training.Trainer, m: Row, modelName: Option<string>, useEnsemble: bool,
                               scale: (Training.Scaler, seq<real>) -> seq<real>,
                               apply: (Training.Model, seq<real>) -> real, j: nat)
    requires j < |t.featureNames|
    requires forall n :: n in m ==> !m[n].Text?
    ensures var x := QueryFrame(m, t.featureNames);
      && (Predict(t, x, modelName, useEnsemble, scale, apply).Success?
          <==> t.isTrained && Selection(t, useEnsemble, modelName).Some?)
      && Predictor.FeatureVector(ToModular(x.rows[0]), t.featureNames)[j]
         == if t.featureNames[j] in m then m[t.featureNames[j]].GetNum() else 0.0
  {
    var x := QueryFrame(m, t.featureNames);
    assert !HasText(x, t.featureNames);
  }

  /** The frame `_create_prediction_features` returns for the query. */
  function PredictionFeatures(encoders: map<string, Training.Encoder>, names: seq<string>,
                              itemId: int, placeId: int, d: CalDate, h: History, num: Numerics): (r: Attempt<Frame>)
    ensures r.Success? <==> FeatureDict(encoders, itemId, placeId, d, h, num).Success?
    ensures r.Success? ==> r.value == QueryFrame(FeatureDict(encoders, itemId, placeId, d, h, num).value, names)
    ensures r.Success? ==> |r.value.rows| == 1
  {
    match FeatureDict(encoders, itemId, placeId, d, h, num)
    case Failure(e) => Failure(e)
    case Success(m) => Success(QueryFrame(m, names))
  }

  // ---------------------------------------------------------------------
  // predict_demand
  // ---------------------------------------------------------------------

  /** A forecaster: its own trained state, the period it was trained for,
      and the models loaded for other periods. */
  datatype Forecaster = Forecaster(core: Training.Trainer, period: string, periodModels: map<string, Training.Trainer>)

  /** The range a scaled daily forecast is expected in, and whether it is in it. */
  datatype Consistency = Consistency(expectedMin: real, expectedMax: real, withinExpectedRange: bool)

  /** The dictionary `predict_demand` returns. */
  datatype LegacyForecast = LegacyForecast(
    itemId: Value, placeId: Value, date: string, period: string,
    predictedDemand: real, modelPeriod: string, usedPeriodSpecificModel: bool,
    modelType: string, usedEnsemble: bool, units: string,
    check: Option<Consistency>)

  /** The expected range of a weekly (5 to 7 days) or monthly (25 to 31
      days) total scaled from a daily forecast; none for other periods. */
  function ConsistencyCheck(daily: real, scaled: real, period: string): (c: Option<Consistency>)
    ensures c.Some? <==> period == "weekly" || period == "monthly"
    ensures c.Some? ==> (c.value.withinExpectedRange <==> c.value.expectedMin <= scaled <= c.value.expectedMax)
    ensures period == "weekly" ==> c.value.expectedMin == 5.0 * daily && c.value.expectedMax == 7.0 * daily
    ensures period == "monthly" ==> c.value.expectedMin == 25.0 * daily && c.value.expectedMax == 31.0 * daily
  {
    if period == "weekly" then Some(Consistency(daily * 5.0, daily * 7.0, daily * 5.0 <= scaled <= daily * 7.0))
    else if period == "monthly" then Some(Consistency(daily * 25.0, daily * 31.0, daily * 25.0 <= scaled <= daily * 31.0))
    else None
  }

  /** Whether the forecast for `period` is scaled from the forecaster's own
      period: no model is loaded for it and the forecaster was trained for
      another one. */
  predicate Scaled(f: Forecaster, period: string) {
    period !in f.periodModels && f.period != period
  }

  /** The trained state consulted for `period`. */
  function Consulted(f: Forecaster, period: string): Training.Trainer {
    if period in f.periodModels then f.periodModels[period] else f.core
  }

  /** The single prediction for a one-row query frame. */
  function PredictOne(t: Training.Trainer, x: Frame, useEnsemble: bool,
                      scale: (Training.Scaler, seq<real>) -> seq<real>,
                      apply: (Training.Model, seq<real>) -> real): (r: Attempt<real>)
    requires |x.rows| == 1
    ensures r.Success? <==> Predict(t, x, None, useEnsemble, scale, apply).Success?
    ensures r.Success? ==> r.value >= 0.0 && r.value == Predict(t, x, None, useEnsemble, scale, apply).value[0]
  {
    match Predict(t, x, None, useEnsemble, scale, apply)
    case Failure(e) => Failure(e)
    case Success(ps) => Success(ps[0])
  }

  /** The routing of `predict_demand` once the query frame exists: a model
      loaded for the period first, then the forecaster's own model when the
      periods match, otherwise its own model's forecast scaled to the period,
      with the consistency check attached when a daily forecast is scaled. */
  function Answer(f: Forecaster, itemId: Value, placeId: Value, date: string, d: CalDate, x: Frame, period: string,
                  scale: (Training.Scaler, seq<real>) -> seq<real>,
                  apply: (Training.Model, seq<real>) -> real): (r: Attempt<LegacyForecast>)
    requires |x.rows| == 1
    ensures var ens := f.core.modelType == "ensemble";
      r.Success? <==> PredictOne(Consulted(f, period), x, ens, scale, apply).Success?
    ensures r.Success? ==> r.value.predictedDemand >= 0.0
    ensures r.Success? ==> (r.value.usedPeriodSpecificModel <==> !Scaled(f, period))
    ensures r.Success? ==> (r.value.check.Some?
      <==> Scaled(f, period) && f.period == "daily" && (period == "weekly" || period == "monthly"))
    ensures r.Success? ==> (r.value.itemId == itemId && r.value.placeId == placeId && r.value.date == date
      && r.value.period == period && r.value.modelPeriod == f.period && r.value.modelType == f.core.modelType)
    ensures r.Success? ==> r.value.units == "total " + period + " demand"
  {
    var ens := f.core.modelType == "ensemble";
    var used := !Scaled(f, period);
    match PredictOne(Consulted(f, period), x, ens, scale, apply)
    case Failure(e) => Failure(e)
    case Success(base) =>
      var value := if used then base else Periods.LegacyScalePrediction(base, f.period, period, d);
      var check := if !used && period != "daily" && f.period == "daily" then ConsistencyCheck(base, value, period) else None;
      Success(LegacyForecast(itemId, placeId, date, period, value, f.period, used, f.core.modelType,
                             ens && |f.core.models| > 1, "total " + period + " demand", check))
  }

  /** `predict_demand`: rejects a non-integer item or place, a date that
      does not parse, and a history frame missing a required column, in
      that order; builds the query frame from the history (an empty one when
      none is given) and routes it. */
  function PredictDemand(f: Forecaster, itemId: Value, placeId: Value, date: string, history: Option<History>,
                         period: string, num: Numerics,
                         scale: (Training.Scaler, seq<real>) -> seq<real>,
                         apply: (Training.Model, seq<real>) -> real): (r: Attempt<LegacyForecast>)
    ensures !IsInteger(itemId) ==> r.Failure?
    ensures IsInteger(itemId) && !IsInteger(placeId) ==> r.Failure?
    ensures ParseIsoDate(date).None? ==> r.Failure?
    ensures history.Some? && (exists c :: c in RequiredHistoryColumns && c !in history.value.columns) ==> r.Failure?
    ensures r.Success? ==> r.value.predictedDemand >= 0.0
    ensures r.Success? ==> (r.value.usedPeriodSpecificModel <==> !Scaled(f, period))
    ensures r.Success? ==> r.value.units == "total " + period + " demand"
  {
    if !IsInteger(itemId) then Failure("item_id must be an integer")
    else if !IsInteger(placeId) then Failure("place_id must be an integer")
    else match ParseIsoDate(date)
      case None => Failure("Invalid date format")
      case Some(d) =>
        if history.Some? && exists c :: c in RequiredHistoryColumns && c !in history.value.columns then
          Failure("historical_data missing required columns")
        else
          var h := if history.Some? then history.value else EmptyHistory;
          PredictParsed(f, itemId, placeId, date, d, h, period, num, scale, apply)
  }

  /** `predict_demand` once its arguments have been checked: build the
      feature row, then answer from it. */
  function PredictParsed(f: Forecaster, itemId: Value, placeId: Value, date: string, d: CalDate, h: History,
                         period: string, num: Numerics,
                         scale: (Training.Scaler, seq<real>) -> seq<real>,
                         apply: (Training.Model, seq<real>) -> real): (r: Attempt<LegacyForecast>)
    requires IsInteger(itemId) && IsInteger(placeId)
    ensures r.Success? ==> r.value.predictedDemand >= 0.0
    ensures r.Success? ==> (r.value.usedPeriodSpecificModel <==> !Scaled(f, period))
    ensures r.Success? ==> r.value.units == "total " + period + " demand"
  {
    match PredictionFeatures(f.core.encoders, f.core.featureNames, IntOf(itemId), IntOf(placeId), d, h, num)
    case Failure(e) => Failure(e)
    case Success(x) => Answer(f, itemId, placeId, date, d, x, period, scale, apply)
  }

  /** Daily to weekly multiplies by 7 and daily to monthly by the length of
      the prediction date's month. */
  lemma DailyScaling(base: real, d: CalDate)
    ensures Periods.LegacyScalePrediction(base, "daily", "weekly", d) == 7.0 * base
    ensures Periods.LegacyScalePrediction(base, "daily", "monthly", d) == Periods.Times(base, Periods.MonthDays(d))
  {
    assert Periods.LegacyScaleFactor("daily", "weekly", Periods.MonthDays(d)) == 7.0;
    assert Periods.LegacyScaleFactor("daily", "monthly", Periods.MonthDays(d)) == Periods.MonthDays(d);
  }

  /** A non-negative amount times a month length lies between 25 and 31 times it. */
  lemma MonthMultipleWithin(base: real, dim: real)
    requires base >= 0.0 && 28.0 <= dim <= 31.0
    ensures base * 25.0 <= base * dim <= base * 31.0
  {
    assert base * dim - base * 25.0 == base * (dim - 25.0);
    assert base * 31.0 - base * dim == base * (31.0 - dim);
  }

  /** A daily forecast scaled to a week or a month always lies in the
      expected range, so the check never reports 'outside_expected_range'. */
  lemma ScaledDailyWithinRange(base: real, period: string, d: CalDate)
    requires base >= 0.0 && (period == "weekly" || period == "monthly")
    ensures ConsistencyCheck(base, Periods.LegacyScalePrediction(base, "daily", period, d), period).value.withinExpectedRange
  {
    DailyScaling(base, d);
    if period == "monthly" {
      MonthMultipleWithin(base, Periods.MonthDays(d));
    }
  }

  /** Whenever `predict_demand` attaches a consistency check, it reads
      'within_expected_range'. */
  lemma ConsistencyNeverOutside(f: Forecaster, itemId: Value, placeId: Value, date: string, d: CalDate, x: Frame,
                                period: string, scale: (Training.Scaler, seq<real>) -> seq<real>,
                                apply: (Training.Model, seq<real>) -> real)
    requires |x.rows| == 1
    ensures var r := Answer(f, itemId, placeId, date, d, x, period, scale, apply);
      r.Success? && r.value.check.Some? ==> r.value.check.value.withinExpectedRange
  {
    var r := Answer(f, itemId, placeId, date, d, x, period, scale, apply);
    if r.Success? && r.value.check.Some? {
      var base := PredictOne(f.core, x, f.core.modelType == "ensemble", scale, apply).value;
      ScaledDailyWithinRange(base, period, d);
    }
  }

  /** The forecast value: the consulted model's prediction, scaled when
      the forecast is scaled. */
  lemma AnswerValue(f: Forecaster, itemId: Value, placeId: Value, date: string, d: CalDate, x: Frame,
                    period: string, scale: (Training.Scaler, seq<real>) -> seq<real>,
                    apply: (Training.Model, seq<real>) -> real)
    requires |x.rows| == 1
    ensures var r := Answer(f, itemId, placeId, date, d, x, period, scale, apply);
      var base := PredictOne(Consulted(f, period), x, f.core.modelType == "ensemble", scale, apply);
      r.Success? ==> (r.value.predictedDemand
        == if Scaled(f, period) then Periods.LegacyScalePrediction(base.value, f.period, period, d) else base.value)
  {
  }

  /** With a daily forecaster and no model loaded for the week, the weekly
      forecast is 7 times the daily one. */
  lemma WeeklyFromDaily(f: Forecaster, itemId: Value, placeId: Value, date: string, d: CalDate, x: Frame,
                        scale: (Training.Scaler, seq<real>) -> seq<real>,
                        apply: (Training.Model, seq<real>) -> real)
    requires |x.rows| == 1 && f.period == "daily" && "daily" !in f.periodModels && "weekly" !in f.periodModels
    ensures var daily := Answer(f, itemId, placeId, date, d, x, "daily", scale, apply);
      var weekly := Answer(f, itemId, placeId, date, d, x, "weekly", scale, apply);
      && (daily.Success? <==> weekly.Success?)
      && (daily.Success? ==> weekly.value.predictedDemand == 7.0 * daily.value.predictedDemand)
  {
    var daily := Answer(f, itemId, placeId, date, d, x, "daily", scale, apply);
    var other := Answer(f, itemId, placeId, date, d, x, "weekly", scale, apply);
    AnswerValue(f, itemId, placeId, date, d, x, "daily", scale, apply);
    AnswerValue(f, itemId, placeId, date, d, x, "weekly", scale, apply);
    if daily.Success? {
      var base := PredictOne(f.core, x, f.core.modelType == "ensemble", scale, apply).value;
      DailyScaling(base, d);
      assert daily.value.predictedDemand == base;
      assert other.value.predictedDemand == Periods.LegacyScalePrediction(base, "daily", "weekly", d);
    }
  }

  /** With a daily forecaster and no model loaded for the month, the monthly
      forecast is the month length times the daily one. */
  lemma MonthlyFromDaily(f: Forecaster, itemId: Value, placeId: Value, date: string, d: CalDate, x: Frame,
                         scale: (Training.Scaler, seq<real>) -> seq<real>,
                         apply: (Training.Model, seq<real>) -> real)
    requires |x.rows| == 1 && f.period == "daily" && "daily" !in f.periodModels && "monthly" !in f.periodModels
    ensures var daily := Answer(f, itemId, placeId, date, d, x, "daily", scale, apply);
      var monthly := Answer(f, itemId, placeId, date, d, x, "monthly", scale, apply);
      && (daily.Success? <==> monthly.Success?)
      && (daily.Success? ==> monthly.value.predictedDemand == Periods.Times(daily.value.predictedDemand, Periods.MonthDays(d)))
  {
    var daily := Answer(f, itemId, placeId, date, d, x, "daily", scale, apply);
    var other := Answer(f, itemId, placeId, date, d, x, "monthly", scale, apply);
    AnswerValue(f, itemId, placeId, date, d, x, "daily", scale, apply);
    AnswerValue(f, itemId, placeId, date, d, x, "monthly", scale, apply);
    if daily.Success? {
      var base := PredictOne(f.core, x, f.core.modelType == "ensemble", scale, apply).value;
      DailyScaling(base, d);
      assert daily.value.predictedDemand == base;
      assert other.value.predictedDemand == Periods.LegacyScalePrediction(base, "daily", "monthly", d);
    }
  }

  /** Between two different names at least one of which is no period, the
      older conversion keeps the value. */
  lemma UnknownNameKeepsValue(x: real, from: string, to: string, d: CalDate)
    requires from !in Periods.ValidPeriodNames || to !in Periods.ValidPeriodNames
    ensures Periods.LegacyScalePrediction(x, from, to, d) == x
  {
    assert Periods.ParsePeriod(from).None? || Periods.ParsePeriod(to).None?;
  }

  /** A forecaster trained for an unknown period, or asked for one, passes
      its own forecast through unscaled. */
  lemma UnknownPeriodUnscaled(f: Forecaster, itemId: Value, placeId: Value, date: string, d: CalDate, x: Frame,
                              period: string, scale: (Training.Scaler, seq<real>) -> seq<real>,
                              apply: (Training.Model, seq<real>) -> real)
    requires |x.rows| == 1 && Scaled(f, period)
    requires f.period !in Periods.ValidPeriodNames || period !in Periods.ValidPeriodNames
    ensures var r := Answer(f, itemId, placeId, date, d, x, period, scale, apply);
      r.Success? ==> r.value.predictedDemand == PredictOne(f.core, x, f.core.modelType == "ensemble", scale, apply).value
  {
    var base := PredictOne(f.core, x, f.core.modelType == "ensemble", scale, apply);
    AnswerValue(f, itemId, placeId, date, d, x, period, scale, apply);
    if base.Success? {
      UnknownNameKeepsValue(base.value, f.period, period, d);
    }
  }

  /** Without a history frame the forecast is the one for an empty history. */
  lemma DefaultFeaturesUseEmptyHistory(f: Forecaster, itemId: Value, placeId: Value, date: string,
                                       period: string, num: Numerics,
                                       scale: (Training.Scaler, seq<real>) -> seq<real>,
                                       apply: (Training.Model, seq<real>) -> real)
    ensures PredictDemand(f, itemId, placeId, date, None, period, num, scale, apply)
         == PredictDemand(f, itemId, placeId, date, Some(EmptyHistory), period, num, scale, apply)
  {
  }
}
