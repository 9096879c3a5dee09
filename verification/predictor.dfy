/** The demand predictor: model selection and the non-negativity clamp,
    the feature row built for one (item, place, date) query from history or
    from the cold-start defaults, the cold-start routing, and the
    conversion of the prediction to the requested period.

    A single-row DataFrame of features is a map from column name to value,
    a NaN value being `None`. The fitted scaler and regressors are opaque
    functions: `scale(s, v)` is the scaler's transform of one feature vector
    and `apply(m, v)` a fitted model's prediction for one scaled vector. */
module Predictor {

  import opened Wrappers
  import opened Seqs
  import opened Text
  import opened Calendar
  import opened Rows
  import Features
  import Training
  import Validation
  import Periods
  import Series

  type Attempt<T> = Training.Attempt<T>

  type Row = map<string, Option<real>>

  /** A frame for prediction: its column labels and its rows. */
  datatype Table = Table(columns: set<string>, rows: seq<Row>)

  /** A cell, missing when the row lacks the column. */
  function Cell(r: Row, c: string): Option<real> {
    if c in r then r[c] else None
  }

  /** `X[feature_names]` with NaN filled by 0, for one row: the values in
      the trainer's feature order. */
  function FeatureVector(r: Row, names: seq<string>): (v: seq<real>)
    ensures |v| == |names|
    ensures forall j :: 0 <= j < |names| ==> v[j] == Cell(r, names[j]).GetOr(0.0)
  {
    seq(|names|, j requires 0 <= j < |names| => Cell(r, names[j]).GetOr(0.0))
  }

  // ---------------------------------------------------------------------
  // Model selection
  // ---------------------------------------------------------------------

  /** The fallback order when neither the ensemble nor a named model applies. */
  const Priority: seq<string> := ["lightgbm", "xgboost", "random_forest"]

  /** The first of `names` the trainer holds a model for. */
  function FirstAvailable(models: Training.Entries<Training.Model>, names: seq<string>): (r: Option<string>)
    ensures r.Some? ==> r.value in names && Training.Get(models, r.value).Some?
    ensures r.Some? ==> exists j :: (0 <= j < |names| && names[j] == r.value
      && forall i :: 0 <= i < j ==> Training.Get(models, names[i]).None?)
    ensures r.None? <==> forall i :: 0 <= i < |names| ==> Training.Get(models, names[i]).None?
    decreases |names|
  {
    if |names| == 0 then None
    else if Training.Get(models, names[0]).Some? then Some(names[0])
    else
      var r := FirstAvailable(models, names[1..]);
      assert forall i :: 1 <= i < |names| ==> names[i] == names[1..][i - 1];
      r
  }

  datatype Choice = Ensemble | Single(name: string)

  /** Which model(s) `predict` uses: the mean of all models when the
      ensemble is requested and more than one model exists; otherwise the
      named model if given (a non-empty name) and trained; otherwise the
      first trained of lightgbm, xgboost, random_forest; otherwise none. */
  function Selection(t: Training.Trainer, useEnsemble: bool, modelName: Option<string>): (r: Option<Choice>)
    ensures r == Some(Ensemble) <==> useEnsemble && |t.models| > 1
    ensures r.Some? && r.value.Single? ==> Training.Get(t.models, r.value.name).Some?
    ensures (!(useEnsemble && |t.models| > 1) && modelName.Some? && modelName.value != ""
      && Training.Get(t.models, modelName.value).Some?) ==> r == Some(Single(modelName.value))
  {
    if useEnsemble && |t.models| > 1 then Some(Ensemble)
    else if modelName.Some? && modelName.value != "" && Training.Get(t.models, modelName.value).Some? then
      Some(Single(modelName.value))
    else match FirstAvailable(t.models, Priority)
      case None => None
      case Some(n) => Some(Single(n))
  }

  /** Every model's prediction for one scaled vector, in dictionary order. */
  function Members(models: Training.Entries<Training.Model>, v: seq<real>, apply: (Training.Model, seq<real>) -> real): (ps: seq<real>)
    ensures |ps| == |models|
    ensures forall i :: 0 <= i < |models| ==> ps[i] == apply(models[i].1, v)
  {
    seq(|models|, i requires 0 <= i < |models| => apply(models[i].1, v))
  }

  /** The unclamped prediction for one row under a choice of model(s). */
  function RawPrediction(t: Training.Trainer, c: Choice, row: Row,
                         scale: (Training.Scaler, seq<real>) -> seq<real>,
                         apply: (Training.Model, seq<real>) -> real): real
    requires c.Ensemble? ==> |t.models| > 0
    requires c.Single? ==> Training.Get(t.models, c.name).Some?
  {
    var v := scale(t.scaler, FeatureVector(row, t.featureNames));
    match c
    case Ensemble => Mean(Members(t.models, v, apply))
    case Single(n) => apply(Training.Get(t.models, n).value, v)
  }

  /** Every feature name is a column of the frame. */
  predicate HasColumns(names: seq<string>, columns: set<string>) {
    forall n :: n in names ==> n in columns
  }

  /** The chosen model(s)' prediction for each row, clamped at 0. */
  function Clamped(t: Training.Trainer, c: Choice, rows: seq<Row>,
                   scale: (Training.Scaler, seq<real>) -> seq<real>,
                   apply: (Training.Model, seq<real>) -> real): (ps: seq<real>)
    requires c.Ensemble? ==> |t.models| > 0
    requires c.Single? ==> Training.Get(t.models, c.name).Some?
    ensures |ps| == |rows|
    ensures forall i :: 0 <= i < |rows| ==> ps[i] >= 0.0 && ps[i] == MaxReal(RawPrediction(t, c, rows[i], scale, apply), 0.0)
  {
    seq(|rows|, i requires 0 <= i < |rows| => MaxReal(RawPrediction(t, c, rows[i], scale, apply), 0.0))
  }

  /** `predict`: fails when the trainer is untrained, when a feature column
      is missing from the frame, when the frame has no rows (the scaler
      refuses zero samples), or when no model can be chosen; otherwise one
      prediction per row, never negative. */
  function Predict(t: Training.Trainer, x: Table, useEnsemble: bool, modelName: Option<string>,
                   scale: (Training.Scaler, seq<real>) -> seq<real>,
                   apply: (Training.Model, seq<real>) -> real): (r: Attempt<seq<real>>)
    ensures r.Success? <==> (t.isTrained && HasColumns(t.featureNames, x.columns)
      && |x.rows| > 0 && Selection(t, useEnsemble, modelName).Some?)
    ensures r.Success? ==> |r.value| == |x.rows|
    ensures r.Success? ==> forall i :: 0 <= i < |x.rows| ==> r.value[i] >= 0.0
    ensures r.Success? ==> forall i :: 0 <= i < |x.rows| ==>
      r.value[i] == MaxReal(RawPrediction(t, Selection(t, useEnsemble, modelName).value, x.rows[i], scale, apply), 0.0)
  {
    if !t.isTrained then Failure("Model must be trained before prediction")
    else if !HasColumns(t.featureNames, x.columns) then Failure("Missing features")
    else if |x.rows| == 0 then Failure("Found array with 0 sample(s) while a minimum of 1 is required by StandardScaler")
    else match Selection(t, useEnsemble, modelName)
      case None => Failure("No trained model available for prediction")
      case Some(c) =>
        Success(Clamped(t, c, x.rows, scale, apply))
  }

  /** Columns outside the feature list play no part: two frames that agree
      on every feature cell get the same predictions. */
  lemma ExtraColumnsIgnored(t: Training.Trainer, x: Table, y: Table, useEnsemble: bool, modelName: Option<string>,
                            scale: (Training.Scaler, seq<real>) -> seq<real>,
                            apply: (Training.Model, seq<real>) -> real)
    requires |x.rows| == |y.rows|
    requires forall n :: n in t.featureNames ==> (n in x.columns <==> n in y.columns)
    requires forall i, n :: 0 <= i < |x.rows| && n in t.featureNames ==> Cell(x.rows[i], n) == Cell(y.rows[i], n)
    ensures Predict(t, x, useEnsemble, modelName, scale, apply) == Predict(t, y, useEnsemble, modelName, scale, apply)
  {
    assert HasColumns(t.featureNames, x.columns) == HasColumns(t.featureNames, y.columns);
    if t.isTrained && HasColumns(t.featureNames, x.columns) && |x.rows| > 0 && Selection(t, useEnsemble, modelName).Some? {
      var c := Selection(t, useEnsemble, modelName).value;
      var px := Predict(t, x, useEnsemble, modelName, scale, apply).value;
      var py := Predict(t, y, useEnsemble, modelName, scale, apply).value;
      forall i | 0 <= i < |x.rows|
        ensures px[i] == py[i]
      {
        var names := t.featureNames;
        forall j | 0 <= j < |names|
          ensures Cell(x.rows[i], names[j]) == Cell(y.rows[i], names[j])
        {
          assert names[j] in names;
        }
        assert FeatureVector(x.rows[i], names) == FeatureVector(y.rows[i], names);
      }
      assert px == py;
    }
  }

  /** The ensemble prediction is the members' mean, clamped at 0; the mean
      lies between the smallest and largest member prediction. */
  lemma EnsembleIsMean(t: Training.Trainer, x: Table, i: nat,
                       scale: (Training.Scaler, seq<real>) -> seq<real>,
                       apply: (Training.Model, seq<real>) -> real)
    requires Predict(t, x, true, None, scale, apply).Success? && |t.models| > 1
    requires i < |x.rows|
    ensures var ps := Members(t.models, scale(t.scaler, FeatureVector(x.rows[i], t.featureNames)), apply);
      && Predict(t, x, true, None, scale, apply).value[i] == MaxReal(Mean(ps), 0.0)
      && MinOf(ps) <= Mean(ps) <= MaxOf(ps)
  {
    var ps := Members(t.models, scale(t.scaler, FeatureVector(x.rows[i], t.featureNames)), apply);
    Series.MeanWithin(ps, MinOf(ps), MaxOf(ps));
  }

  /** Without the ensemble and without a usable model name, the model used
      is the first trained one in the order lightgbm, xgboost, random_forest. */
  lemma PriorityOrder(t: Training.Trainer, useEnsemble: bool, modelName: Option<string>)
    requires !(useEnsemble && |t.models| > 1)
    requires modelName.None? || modelName.value == "" || Training.Get(t.models, modelName.value).None?
    ensures Selection(t, useEnsemble, modelName).Some? <==> exists n :: n in Priority && Training.Get(t.models, n).Some?
    ensures Training.Get(t.models, "lightgbm").Some? ==> Selection(t, useEnsemble, modelName) == Some(Single("lightgbm"))
    ensures Training.Get(t.models, "lightgbm").None? && Training.Get(t.models, "xgboost").Some? ==>
      Selection(t, useEnsemble, modelName) == Some(Single("xgboost"))
    ensures (Training.Get(t.models, "lightgbm").None? && Training.Get(t.models, "xgboost").None?
      && Training.Get(t.models, "random_forest").Some?) ==>
      Selection(t, useEnsemble, modelName) == Some(Single("random_forest"))
  {
    PriorityAvailable(t.models);
    PriorityFirst(t.models);
  }

  lemma PriorityAvailable(models: Training.Entries<Training.Model>)
    ensures FirstAvailable(models, Priority).Some? <==> exists n :: n in Priority && Training.Get(models, n).Some?
  {
    if exists n :: n in Priority && Training.Get(models, n).Some? {
      var n :| n in Priority && Training.Get(models, n).Some?;
      var j :| 0 <= j < |Priority| && Priority[j] == n;
      assert FirstAvailable(models, Priority).Some?;
    }
  }

  lemma PriorityFirst(models: Training.Entries<Training.Model>)
    ensures Training.Get(models, "lightgbm").Some? ==> FirstAvailable(models, Priority) == Some("lightgbm")
    ensures Training.Get(models, "lightgbm").None? && Training.Get(models, "xgboost").Some? ==>
      FirstAvailable(models, Priority) == Some("xgboost")
    ensures (Training.Get(models, "lightgbm").None? && Training.Get(models, "xgboost").None?
      && Training.Get(models, "random_forest").Some?) ==> FirstAvailable(models, Priority) == Some("random_forest")
  {
    assert Priority[1..] == ["xgboost", "random_forest"];
    assert Priority[1..][1..] == ["random_forest"];
  }

  // ---------------------------------------------------------------------
  // The predictor's state
  // ---------------------------------------------------------------------

  datatype Predictor = Predictor(trainer: Training.Trainer, period: string, stats: Option<Features.GlobalStats>)

  /** A new predictor predicts daily totals and has no global statistics. */
  function NewPredictor(t: Training.Trainer): (p: Predictor)
    ensures p.trainer == t && p.period == "daily" && p.stats.None?
  {
    Predictor(t, "daily", None)
  }

  /** `set_period`: accepts only the three period names. */
  function SetPeriod(p: Predictor, period: string): (r: Attempt<Predictor>)
    ensures r.Success? <==> period in Periods.ValidPeriodNames
    ensures r.Success? ==> r.value == p.(period := period)
  {
    if period in Periods.ValidPeriodNames then Success(p.(period := period))
    else Failure("Period must be one of ['daily', 'weekly', 'monthly']")
  }

  function PricesOf(rows: seq<DemandRecord>): (xs: seq<real>)
    ensures |xs| == |rows|
    ensures forall i :: 0 <= i < |rows| ==> xs[i] == rows[i].price
  {
    seq(|rows|, i requires 0 <= i < |rows| => rows[i].price)
  }

  /** Total demand of the rows at place `p`. */
  function PlaceSum(rows: seq<DemandRecord>, p: int): real
    decreases |rows|
  {
    if |rows| == 0 then 0.0
    else PlaceSum(rows[..|rows| - 1], p) + (if rows[|rows| - 1].placeId == p then rows[|rows| - 1].demand else 0.0)
  }

  function PlaceIdsOf(rows: seq<DemandRecord>): (ps: seq<int>)
    ensures |ps| == |rows|
    ensures forall i :: 0 <= i < |rows| ==> ps[i] == rows[i].placeId
  {
    seq(|rows|, i requires 0 <= i < |rows| => rows[i].placeId)
  }

  /** `groupby('place_id')['demand'].sum()`: one total per distinct place. */
  function PlaceTotals(rows: seq<DemandRecord>): (r: seq<real>)
    ensures |r| == |Dedup(PlaceIdsOf(rows))|
    ensures |rows| > 0 ==> |r| > 0
  {
    var ps := Dedup(PlaceIdsOf(rows));
    assert |rows| > 0 ==> PlaceIdsOf(rows)[0] in ps;
    TotalsFor(rows, ps)
  }

  /** The total demand of each place of `ps`, in that order. */
  function TotalsFor(rows: seq<DemandRecord>, ps: seq<int>): (r: seq<real>)
    ensures |r| == |ps|
    ensures forall i :: 0 <= i < |ps| ==> r[i] == PlaceSum(rows, ps[i])
  {
    seq(|ps|, i requires 0 <= i < |ps| => PlaceSum(rows, ps[i]))
  }

  /** `set_global_stats`: mean demand, mean price and mean per-place total
      of the history, or the defaults (5, 50, 100) when there is none. */
  function SetGlobalStats(p: Predictor, history: Option<seq<DemandRecord>>): (r: Predictor)
    ensures r.trainer == p.trainer && r.period == p.period && r.stats.Some?
    ensures history.None? || |history.value| == 0 ==> r.stats == Some(Features.DefaultGlobalStats)
    ensures history.Some? && |history.value| > 0 ==>
      r.stats.value.avgDemand == Mean(DemandsOf(history.value))
      && r.stats.value.avgPrice == Some(Mean(PricesOf(history.value)))
      && r.stats.value.avgPlaceDemand == Mean(PlaceTotals(history.value))
  {
    if history.Some? && |history.value| > 0 then
      var h := history.value;
      p.(stats := Some(Features.GlobalStats(Mean(DemandsOf(h)), Some(Mean(PricesOf(h))), Mean(PlaceTotals(h)))))
    else p.(stats := Some(Features.DefaultGlobalStats))
  }

  /** Summing a column of per-key totals over distinct keys covering every
      row gives back the grand total. */
  lemma {:induction false} PlaceTotalsSum(rows: seq<DemandRecord>, ps: seq<int>)
    requires NoDuplicates(ps)
    requires forall i :: 0 <= i < |rows| ==> rows[i].placeId in ps
    ensures Sum(TotalsFor(rows, ps)) == Sum(DemandsOf(rows))
    decreases |rows|
  {
    var f := TotalsFor(rows, ps);
    if |rows| == 0 {
      SumOfConstant(f, 0.0);
    } else {
      var init := rows[..|rows| - 1];
      var last := rows[|rows| - 1];
      PlaceTotalsSum(init, ps);
      var g := TotalsFor(init, ps);
      var e := seq(|ps|, i requires 0 <= i < |ps| => if ps[i] == last.placeId then last.demand else 0.0);
      SumPointwise(g, e, f);
      var k :| 0 <= k < |ps| && ps[k] == last.placeId;
      SumOfIndicator(e, k, last.demand);
      assert DemandsOf(rows) == DemandsOf(init) + [last.demand];
      SumAppend(DemandsOf(init), [last.demand]);
    }
  }

  lemma {:induction false} SumPointwise(a: seq<real>, b: seq<real>, c: seq<real>)
    requires |a| == |b| == |c|
    requires forall i :: 0 <= i < |c| ==> c[i] == a[i] + b[i]
    ensures Sum(c) == Sum(a) + Sum(b)
    decreases |c|
  {
    if |c| > 0 {
      SumPointwise(a[1..], b[1..], c[1..]);
    }
  }

  /** A sequence that is zero except for one position sums to that position's value. */
  lemma {:induction false} SumOfIndicator(e: seq<real>, k: nat, v: real)
    requires k < |e| && e[k] == v
    requires forall i :: 0 <= i < |e| && i != k ==> e[i] == 0.0
    ensures Sum(e) == v
    decreases |e|
  {
    if k == 0 {
      SumOfConstant(e[1..], 0.0);
    } else {
      SumOfIndicator(e[1..], k - 1, v);
    }
  }

  /** The per-place totals add up to the total demand of the history. */
  lemma PlaceTotalsAddUp(history: seq<DemandRecord>)
    ensures Sum(PlaceTotals(history)) == Sum(DemandsOf(history))
  {
    var ps := Dedup(PlaceIdsOf(history));
    assert PlaceTotals(history) == TotalsFor(history, ps);
    PlacesCovered(history);
    PlaceTotalsSum(history, ps);
  }

  /** The average place demand is the total demand of the history shared
      evenly among its distinct places. */
  lemma AveragePlaceDemand(history: seq<DemandRecord>)
    requires |history| > 0
    ensures Mean(PlaceTotals(history)) == Sum(DemandsOf(history)) / (|Dedup(PlaceIdsOf(history))| as real)
  {
    PlaceTotalsAddUp(history);
  }

  lemma PlacesCovered(history: seq<DemandRecord>)
    ensures forall i :: 0 <= i < |history| ==> history[i].placeId in Dedup(PlaceIdsOf(history))
  {
    forall i | 0 <= i < |history|
      ensures history[i].placeId in Dedup(PlaceIdsOf(history))
    {
      assert PlaceIdsOf(history)[i] in PlaceIdsOf(history);
    }
  }


  // ---------------------------------------------------------------------
  // Feature rows for one query
  // ---------------------------------------------------------------------

  /** The calendar columns `_create_prediction_features` computes; the ISO
      week and the sine/cosine encodings come from `calendarExtra`. */
  function TemporalMap(d: CalDate, calendarExtra: (string, CalDate) -> real): (r: Row) {
    var t := Features.TemporalOf(d);
    map[
      "year" := Some(t.year as real),
      "month" := Some(t.month as real),
      "day_of_month" := Some(t.dayOfMonth as real),
      "day_of_week" := Some(t.dayOfWeek as real),
      "week_of_year" := Some(calendarExtra("week_of_year", d)),
      "is_weekend" := Some(t.isWeekend as real),
      "quarter" := Some(t.quarter as real),
      "month_sin" := Some(calendarExtra("month_sin", d)),
      "month_cos" := Some(calendarExtra("month_cos", d)),
      "day_of_week_sin" := Some(calendarExtra("day_of_week_sin", d)),
      "day_of_week_cos" := Some(calendarExtra("day_of_week_cos", d))]
  }

  /** `demand_lag_{k}` for each lag period. */
  const LagNames: seq<string> :=
    ["demand_lag_1", "demand_lag_2", "demand_lag_3", "demand_lag_7", "demand_lag_14", "demand_lag_30"]

  /** `demand_rolling_mean_{w}` for each rolling window. */
  const RollingMeanNames: seq<string> :=
    ["demand_rolling_mean_7", "demand_rolling_mean_14", "demand_rolling_mean_30"]

  /** `demand_rolling_std_{w}` for each rolling window. */
  const RollingStdNames: seq<string> :=
    ["demand_rolling_std_7", "demand_rolling_std_14", "demand_rolling_std_30"]

  /** `demand_ema_{alpha}` for each smoothing factor, with Python's float text. */
  const EmaNames: seq<string> := ["demand_ema_0.3", "demand_ema_0.7"]

  /** The column names are the f-strings of the feature engineer's constants. */
  lemma NamesFollowConstants()
    ensures |LagNames| == |Features.LagPeriods| && |RollingMeanNames| == |Features.RollingWindows|
    ensures forall i :: 0 <= i < |LagNames| ==> LagNames[i] == "demand_lag_" + NatText(Features.LagPeriods[i])
    ensures forall i :: 0 <= i < |RollingMeanNames| ==>
      RollingMeanNames[i] == "demand_rolling_mean_" + NatText(Features.RollingWindows[i])
    ensures forall i :: 0 <= i < |RollingStdNames| ==>
      RollingStdNames[i] == "demand_rolling_std_" + NatText(Features.RollingWindows[i])
  {
    assert NatText(14) == "14" by { assert NatText(1) == "1"; }
    assert NatText(30) == "30" by { assert NatText(3) == "3"; }
  }

  /** Inference lag `k`: the value `k` rows back when there are at least
      `k` rows, else the most recent value. */
  function InferenceLag(demands: seq<real>, k: nat): real
    requires |demands| > 0 && k >= 1
  {
    if |demands| >= k then demands[|demands| - k] else demands[|demands| - 1]
  }

  /** The mean of the last `min(w, n)` values. */
  function InferenceRolling(demands: seq<real>, w: nat): real
    requires |demands| > 0 && w >= 1
  {
    Mean(TakeLast(demands, w))
  }

  /** The lag columns of a non-empty history. */
  function LagMap(xs: seq<real>): Row
    requires |xs| > 0
  {
    map[
      "demand_lag_1" := Some(InferenceLag(xs, 1)),
      "demand_lag_2" := Some(InferenceLag(xs, 2)),
      "demand_lag_3" := Some(InferenceLag(xs, 3)),
      "demand_lag_7" := Some(InferenceLag(xs, 7)),
      "demand_lag_14" := Some(InferenceLag(xs, 14)),
      "demand_lag_30" := Some(InferenceLag(xs, 30))]
  }

  /** The rolling-mean columns of a non-empty history. */
  function RollingMeanMap(xs: seq<real>): Row
    requires |xs| > 0
  {
    map[
      "demand_rolling_mean_7" := Some(InferenceRolling(xs, 7)),
      "demand_rolling_mean_14" := Some(InferenceRolling(xs, 14)),
      "demand_rolling_mean_30" := Some(InferenceRolling(xs, 30))]
  }

  /** The rolling-deviation columns of a non-empty history: the opaque
      `std` of the same windows. */
  function RollingStdMap(xs: seq<real>, std: seq<real> -> real): Row
    requires |xs| > 0
  {
    map[
      "demand_rolling_std_7" := Some(std(TakeLast(xs, 7))),
      "demand_rolling_std_14" := Some(std(TakeLast(xs, 14))),
      "demand_rolling_std_30" := Some(std(TakeLast(xs, 30)))]
  }

  /** Adds each missing name with value 0. */
  function FillMissing(m: Row, names: seq<string>): (r: Row)
    ensures forall k :: k in r <==> k in m || k in names
    ensures forall k :: k in m ==> r[k] == m[k]
    ensures forall k :: k in names && k !in m ==> r[k] == Some(0.0)
    decreases |names|
  {
    if |names| == 0 then m
    else if names[0] in m then FillMissing(m, names[1..])
    else FillMissing(m[names[0] := Some(0.0)], names[1..])
  }

  function DemandsOf(rows: seq<DemandRecord>): (xs: seq<real>)
    ensures |xs| == |rows|
    ensures forall i :: 0 <= i < |rows| ==> xs[i] == rows[i].demand
  {
    seq(|rows|, i requires 0 <= i < |rows| => rows[i].demand)
  }

  /** The demand history of the pair, in date order. */
  function PairDemands(history: seq<DemandRecord>, itemId: int, placeId: int): seq<real> {
    DemandsOf(Features.SortRows(Validation.PairRows(history, itemId, placeId)))
  }

  /** The columns computed from the query, before missing features are added. */
  function ComputedRow(d: CalDate, xs: seq<real>, std: seq<real> -> real,
                       calendarExtra: (string, CalDate) -> real): Row {
    if |xs| > 0 then TemporalMap(d, calendarExtra) + RollingStdMap(xs, std) + RollingMeanMap(xs) + LagMap(xs)
    else TemporalMap(d, calendarExtra)
  }

  /** The query row for a demand history `xs` of the pair, with every
      feature in `names` that is not computed set to 0. */
  function HistoryRow(d: CalDate, xs: seq<real>, names: seq<string>,
                      std: seq<real> -> real, calendarExtra: (string, CalDate) -> real): (r: Row)
    ensures forall n :: n in names ==> n in r
  {
    FillMissing(ComputedRow(d, xs, std, calendarExtra), names)
  }

  /** `_create_prediction_features`: calendar columns, then (with any
      history for the pair) lags, rolling means and deviations; every other
      feature the trainer knows is 0. */
  function PredictionRow(p: Predictor, d: CalDate, history: seq<DemandRecord>, itemId: int, placeId: int,
                         std: seq<real> -> real, calendarExtra: (string, CalDate) -> real): (r: Row)
    ensures forall n :: n in p.trainer.featureNames ==> n in r
  {
    HistoryRow(d, PairDemands(history, itemId, placeId), p.trainer.featureNames, std, calendarExtra)
  }

  /** With a non-empty history, lag `k` is the value `k` rows back when
      there are at least `k` rows, else the most recent value. */
  lemma HistoryRowLags(d: CalDate, xs: seq<real>, names: seq<string>,
                       std: seq<real> -> real, calendarExtra: (string, CalDate) -> real, i: nat)
    requires |xs| > 0 && i < |LagNames|
    ensures HistoryRow(d, xs, names, std, calendarExtra)[LagNames[i]]
      == Some(if |xs| >= Features.LagPeriods[i] then xs[|xs| - Features.LagPeriods[i]] else xs[|xs| - 1])
  {
    var n := LagNames[i];
    LagMapAt(xs, i);
    var c := ComputedRow(d, xs, std, calendarExtra);
    assert c[n] == LagMap(xs)[n];
  }

  lemma LagMapAt(xs: seq<real>, i: nat)
    requires |xs| > 0 && i < |LagNames|
    ensures LagNames[i] in LagMap(xs)
    ensures LagMap(xs)[LagNames[i]] == Some(InferenceLag(xs, Features.LagPeriods[i]))
  {
    if i == 0 {
    } else if i == 1 {
    } else if i == 2 {
    } else if i == 3 {
    } else if i == 4 {
    } else {
    }
  }

  /** With a non-empty history, each rolling mean averages the last
      `min(w, n)` values. */
  lemma HistoryRowRolling(d: CalDate, xs: seq<real>, names: seq<string>,
                          std: seq<real> -> real, calendarExtra: (string, CalDate) -> real, j: nat)
    requires |xs| > 0 && j < |RollingMeanNames|
    ensures HistoryRow(d, xs, names, std, calendarExtra)[RollingMeanNames[j]]
      == Some(Mean(TakeLast(xs, Features.RollingWindows[j])))
  {
    var n := RollingMeanNames[j];
    RollingMapAt(xs, j);
    RollingNotLag(xs, j);
    var c := ComputedRow(d, xs, std, calendarExtra);
    assert c[n] == RollingMeanMap(xs)[n];
  }

  lemma RollingMapAt(xs: seq<real>, j: nat)
    requires |xs| > 0 && j < |RollingMeanNames|
    ensures RollingMeanNames[j] in RollingMeanMap(xs)
    ensures RollingMeanMap(xs)[RollingMeanNames[j]] == Some(InferenceRolling(xs, Features.RollingWindows[j]))
  {
    if j == 0 {
    } else if j == 1 {
    } else {
    }
  }

  lemma RollingNotLag(xs: seq<real>, j: nat)
    requires |xs| > 0 && j < |RollingMeanNames|
    ensures RollingMeanNames[j] !in LagMap(xs)
  {
  }

  /** Every listed feature the query does not compute is 0. */
  lemma HistoryRowDefaults(d: CalDate, xs: seq<real>, names: seq<string>,
                           std: seq<real> -> real, calendarExtra: (string, CalDate) -> real, n: string)
    requires n in names && n !in ComputedRow(d, xs, std, calendarExtra)
    ensures HistoryRow(d, xs, names, std, calendarExtra)[n] == Some(0.0)
  {
  }

  /** Columns `_create_prediction_features` never sets, though training
      computes them (and the cold-start row sets them). */
  const InferenceOmits: seq<string> :=
    ["is_month_start", "is_month_end", "demand_same_dow", "demand_ema_0.3", "demand_ema_0.7",
     "place_total_demand", "place_unique_items", "place_demand_rolling_mean_7", "item_share_of_place",
     "price", "total_amount"]

  /** None of those columns is ever computed at inference, so each is 0
      whenever the trainer uses it. */
  lemma OmittedColumnsAreZero(d: CalDate, xs: seq<real>, names: seq<string>,
                              std: seq<real> -> real, calendarExtra: (string, CalDate) -> real, i: nat)
    requires i < |InferenceOmits| && InferenceOmits[i] in names
    ensures HistoryRow(d, xs, names, std, calendarExtra)[InferenceOmits[i]] == Some(0.0)
  {
    OmittedNotComputed(d, xs, std, calendarExtra, i);
  }

  lemma OmittedNotComputed(d: CalDate, xs: seq<real>, std: seq<real> -> real,
                           calendarExtra: (string, CalDate) -> real, i: nat)
    requires i < |InferenceOmits|
    ensures InferenceOmits[i] !in ComputedRow(d, xs, std, calendarExtra)
  {
    OmittedNotTemporal(d, calendarExtra, i);
    if |xs| > 0 {
      OmittedNotHistory(xs, std, i);
    }
  }

  lemma OmittedNotTemporal(d: CalDate, calendarExtra: (string, CalDate) -> real, i: nat)
    requires i < |InferenceOmits|
    ensures InferenceOmits[i] !in TemporalMap(d, calendarExtra)
  {
  }

  lemma OmittedNotHistory(xs: seq<real>, std: seq<real> -> real, i: nat)
    requires |xs| > 0 && i < |InferenceOmits|
    ensures InferenceOmits[i] !in RollingStdMap(xs, std)
    ensures InferenceOmits[i] !in RollingMeanMap(xs)
    ensures InferenceOmits[i] !in LagMap(xs)
  {
    OmittedNotStds(xs, std, i);
    OmittedNotMeans(xs, i);
    OmittedNotLags(xs, i);
  }

  lemma OmittedNotStds(xs: seq<real>, std: seq<real> -> real, i: nat)
    requires |xs| > 0 && i < |InferenceOmits|
    ensures InferenceOmits[i] !in RollingStdMap(xs, std)
  {
  }

  lemma OmittedNotMeans(xs: seq<real>, i: nat)
    requires |xs| > 0 && i < |InferenceOmits|
    ensures InferenceOmits[i] !in RollingMeanMap(xs)
  {
  }

  lemma OmittedNotLags(xs: seq<real>, i: nat)
    requires |xs| > 0 && i < |InferenceOmits|
    ensures InferenceOmits[i] !in LagMap(xs)
  {
  }

  /** The training-time lag of the row that would follow the history is the
      inference lag, once the history has at least `k` rows. */
  lemma InferenceLagMatchesTraining(xs: seq<real>, next: real, k: nat)
    requires k >= 1 && |xs| >= k
    ensures Series.Lag(xs + [next], k)[|xs|] == Some(InferenceLag(xs, k))
  {
  }

  /** The inference rolling mean is the training rolling mean at the last row. */
  lemma InferenceRollingMatchesTraining(xs: seq<real>, w: nat)
    requires w >= 1 && |xs| > 0
    ensures InferenceRolling(xs, w) == Series.RollingMean(xs, w)[|xs| - 1]
  {
    assert TakeLast(xs, w) == Series.Window(xs, w, |xs| - 1);
  }

  /** Whether `c` has one value per lag, window and smoothing factor. */
  predicate Shaped(c: Features.ColdStartRow) {
    |c.lags| == |LagNames| && |c.rollingMeans| == |RollingMeanNames|
    && |c.rollingStds| == |RollingStdNames| && |c.emas| == |EmaNames|
  }

  /** The lag columns of a cold-start row. */
  function ColdStartLagMap(c: Features.ColdStartRow): Row
    requires Shaped(c)
  {
    map[
      "demand_lag_1" := Some(c.lags[0]),
      "demand_lag_2" := Some(c.lags[1]),
      "demand_lag_3" := Some(c.lags[2]),
      "demand_lag_7" := Some(c.lags[3]),
      "demand_lag_14" := Some(c.lags[4]),
      "demand_lag_30" := Some(c.lags[5])]
  }

  /** The rolling-mean columns of a cold-start row. */
  function ColdStartMeanMap(c: Features.ColdStartRow): Row
    requires Shaped(c)
  {
    map[
      "demand_rolling_mean_7" := Some(c.rollingMeans[0]),
      "demand_rolling_mean_14" := Some(c.rollingMeans[1]),
      "demand_rolling_mean_30" := Some(c.rollingMeans[2])]
  }

  /** The rolling-deviation columns of a cold-start row. */
  function ColdStartStdMap(c: Features.ColdStartRow): Row
    requires Shaped(c)
  {
    map[
      "demand_rolling_std_7" := Some(c.rollingStds[0]),
      "demand_rolling_std_14" := Some(c.rollingStds[1]),
      "demand_rolling_std_30" := Some(c.rollingStds[2])]
  }

  /** The EMA and same-weekday columns of a cold-start row. */
  function ColdStartEmaMap(c: Features.ColdStartRow): Row
    requires Shaped(c)
  {
    map[
      "demand_ema_0.3" := Some(c.emas[0]),
      "demand_ema_0.7" := Some(c.emas[1]),
      "demand_same_dow" := Some(c.sameDow)]
  }

  /** The remaining cold-start columns: ids, month flags, place, price and menu. */
  function ColdStartOtherMap(c: Features.ColdStartRow): Row {
    map[
      "item_id" := Some(c.itemId as real),
      "place_id" := Some(c.placeId as real),
      "is_month_start" := Some(c.temporal.isMonthStart as real),
      "is_month_end" := Some(c.temporal.isMonthEnd as real),
      "place_total_demand" := Some(c.placeTotalDemand),
      "place_unique_items" := Some(c.placeUniqueItems),
      "place_demand_rolling_mean_7" := Some(c.placeRollingMean7),
      "item_share_of_place" := Features.ColdStartShare(c),
      "price" := Some(c.price),
      "item_base_price" := Some(c.itemBasePrice),
      "menu_price" := Some(c.menuPrice),
      "total_amount" := Some(c.totalAmount),
      "menu_purchases" := Some(c.menuPurchases),
      "menu_status" := Some(c.menuStatus),
      "target" := Some(c.target)]
  }

  /** The single-row frame `get_cold_start_features` returns for `c`. */
  function ColdStartRow(c: Features.ColdStartRow, calendarExtra: (string, CalDate) -> real): Row
    requires Shaped(c)
  {
    TemporalMap(c.date, calendarExtra) + ColdStartOtherMap(c)
      + ColdStartStdMap(c) + ColdStartMeanMap(c) + ColdStartEmaMap(c) + ColdStartLagMap(c)
  }

  /** The cold-start features of a query, as a frame row. */
  function ColdStartQueryRow(itemId: int, placeId: int, d: CalDate, stats: Option<Features.GlobalStats>,
                             calendarExtra: (string, CalDate) -> real): Row {
    ColdStartRow(Features.ColdStartFeatures(itemId, placeId, d, stats), calendarExtra)
  }

  lemma ColdStartLagAt(c: Features.ColdStartRow, calendarExtra: (string, CalDate) -> real, i: nat)
    requires Shaped(c) && i < |LagNames|
    ensures ColdStartRow(c, calendarExtra)[LagNames[i]] == Some(c.lags[i])
  {
    var n := LagNames[i];
    assert n in ColdStartLagMap(c);
    assert ColdStartLagMap(c)[n] == Some(c.lags[i]) by {
      if i == 0 {
      } else if i == 1 {
      } else if i == 2 {
      } else if i == 3 {
      } else if i == 4 {
      } else {
      }
    }
  }

  lemma ColdStartMeanAt(c: Features.ColdStartRow, calendarExtra: (string, CalDate) -> real, j: nat)
    requires Shaped(c) && j < |RollingMeanNames|
    ensures ColdStartRow(c, calendarExtra)[RollingMeanNames[j]] == Some(c.rollingMeans[j])
  {
    var n := RollingMeanNames[j];
    assert n !in ColdStartLagMap(c) && n !in ColdStartEmaMap(c);
    assert n in ColdStartMeanMap(c);
    assert ColdStartMeanMap(c)[n] == Some(c.rollingMeans[j]) by {
      if j == 0 {
      } else if j == 1 {
      } else {
      }
    }
  }

  lemma ColdStartEmaAt(c: Features.ColdStartRow, calendarExtra: (string, CalDate) -> real, k: nat)
    requires Shaped(c) && k < |EmaNames|
    ensures ColdStartRow(c, calendarExtra)[EmaNames[k]] == Some(c.emas[k])
    ensures ColdStartRow(c, calendarExtra)["demand_same_dow"] == Some(c.sameDow)
  {
    var n := EmaNames[k];
    assert n !in ColdStartLagMap(c) && "demand_same_dow" !in ColdStartLagMap(c);
    assert n in ColdStartEmaMap(c);
    assert ColdStartEmaMap(c)[n] == Some(c.emas[k]) by {
      if k == 0 {
      } else {
      }
    }
  }

  /** In the cold-start frame every lag, rolling-mean, EMA and same-weekday
      column holds the average demand (5 without statistics). */
  lemma ColdStartRowHistory(itemId: int, placeId: int, d: CalDate, stats: Option<Features.GlobalStats>,
                            calendarExtra: (string, CalDate) -> real)
    ensures var r := ColdStartQueryRow(itemId, placeId, d, stats, calendarExtra);
      var avg := Some(stats.GetOr(Features.DefaultGlobalStats).avgDemand);
      && (forall i :: 0 <= i < |LagNames| ==> r[LagNames[i]] == avg)
      && (forall j :: 0 <= j < |RollingMeanNames| ==> r[RollingMeanNames[j]] == avg)
      && (forall k :: 0 <= k < |EmaNames| ==> r[EmaNames[k]] == avg)
      && r["demand_same_dow"] == avg
  {
    var s := stats.GetOr(Features.DefaultGlobalStats);
    var c := Features.ColdStartFeatures(itemId, placeId, d, stats);
    assert c == Features.ColdStartFeatures(itemId, placeId, d, Some(s));
    Features.ColdStartColumns(itemId, placeId, d, s);
    forall i | 0 <= i < |LagNames|
      ensures ColdStartRow(c, calendarExtra)[LagNames[i]] == Some(s.avgDemand)
    {
      ColdStartLagAt(c, calendarExtra, i);
    }
    forall j | 0 <= j < |RollingMeanNames|
      ensures ColdStartRow(c, calendarExtra)[RollingMeanNames[j]] == Some(s.avgDemand)
    {
      ColdStartMeanAt(c, calendarExtra, j);
    }
    forall k | 0 <= k < |EmaNames|
      ensures ColdStartRow(c, calendarExtra)[EmaNames[k]] == Some(s.avgDemand)
    {
      ColdStartEmaAt(c, calendarExtra, k);
    }
    ColdStartEmaAt(c, calendarExtra, 0);
  }

  // ---------------------------------------------------------------------
  // predict_demand
  // ---------------------------------------------------------------------

  /** The answer `predict_demand` returns. */
  datatype Forecast = Forecast(
    itemId: int,
    placeId: int,
    date: string,
    period: string,
    predictedDemand: real,
    isColdStart: bool,
    modelType: string,
    units: string)

  /** `period or self.period`: an absent or empty period means the predictor's own. */
  function EffectivePeriod(p: Predictor, period: Option<string>): (s: string)
    ensures period.Some? && period.value != "" ==> s == period.value
    ensures period.None? || period.value == "" ==> s == p.period
  {
    if period.Some? && period.value != "" then period.value else p.period
  }

  /** Cold start: no history frame at all, or validation of the history
      warns about cold start. */
  predicate IsColdStart(history: Option<seq<DemandRecord>>, itemId: int, placeId: int) {
    history.None?
    || Validation.WarnsColdStart(Validation.ValidateHistoricalData(
         Validation.NewValidator(false), history, itemId, placeId, Validation.DefaultMinHistoryDays))
  }

  /** Cold start holds exactly when there is no history, an empty one, or
      none for the pair; between one and six rows for the pair is not a cold start. */
  lemma ColdStartRouting(history: Option<seq<DemandRecord>>, itemId: int, placeId: int)
    ensures IsColdStart(history, itemId, placeId) <==>
      history.None? || |history.value| == 0 || |Validation.PairRows(history.value, itemId, placeId)| == 0
  {
    Validation.HistoryValidity(Validation.NewValidator(false), history, itemId, placeId, Validation.DefaultMinHistoryDays);
  }

  /** The query's feature row: the cold-start defaults, or the history-based row. */
  function QueryRow(p: Predictor, d: CalDate, history: Option<seq<DemandRecord>>, itemId: int, placeId: int,
                    std: seq<real> -> real, calendarExtra: (string, CalDate) -> real): Row
  {
    if IsColdStart(history, itemId, placeId) then ColdStartQueryRow(itemId, placeId, d, p.stats, calendarExtra)
    else PredictionRow(p, d, history.value, itemId, placeId, std, calendarExtra)
  }

  /** The part of `predict_demand` after validation: route the query, let
      the models predict, and convert the prediction from the predictor's
      period to the requested one. */
  function Answer(p: Predictor, d: CalDate, date: string, itemId: int, placeId: int, period: string,
                  history: Option<seq<DemandRecord>>,
                  std: seq<real> -> real, calendarExtra: (string, CalDate) -> real,
                  scale: (Training.Scaler, seq<real>) -> seq<real>,
                  apply: (Training.Model, seq<real>) -> real): (r: Attempt<Forecast>)
    ensures var row := QueryRow(p, d, history, itemId, placeId, std, calendarExtra);
      var base := Predict(p.trainer, Table(row.Keys, [row]), true, None, scale, apply);
      && (r.Success? <==> base.Success?)
      && (r.Success? ==> (r.value.predictedDemand >= 0.0
                          && (period == p.period ==> r.value.predictedDemand == base.value[0])
                          && (period != p.period ==>
                                r.value.predictedDemand == Periods.ScalePrediction(base.value[0], p.period, period, d))))
    ensures r.Success? ==> (r.value.period == period && r.value.date == date
      && r.value.itemId == itemId && r.value.placeId == placeId
      && r.value.isColdStart == IsColdStart(history, itemId, placeId)
      && r.value.modelType == p.trainer.modelType && r.value.units == "total " + period + " demand")
  {
    var row := QueryRow(p, d, history, itemId, placeId, std, calendarExtra);
    match Predict(p.trainer, Table(row.Keys, [row]), true, None, scale, apply)
    case Failure(e) => Failure(e)
    case Success(ps) =>
      var base := ps[0];
      var scaled := if period != p.period then Periods.ScalePrediction(base, p.period, period, d) else base;
      Success(Forecast(itemId, placeId, date, period, scaled, IsColdStart(history, itemId, placeId),
                       p.trainer.modelType, "total " + period + " demand"))
  }

  /** `predict_demand`. The date is parsed first (an unparsable date fails
      before validation), then the inputs are validated leniently: the call
      goes on exactly when both ids are integers and the period is known. */
  function PredictDemand(p: Predictor, itemId: Value, placeId: Value, date: string,
                         history: Option<seq<DemandRecord>>, period: Option<string>, today: CalDate,
                         std: seq<real> -> real, calendarExtra: (string, CalDate) -> real,
                         scale: (Training.Scaler, seq<real>) -> seq<real>,
                         apply: (Training.Model, seq<real>) -> real): (r: Attempt<Forecast>)
    ensures r.Success? ==> (ParseIsoDate(date).Some? && IsInteger(itemId) && IsInteger(placeId)
      && EffectivePeriod(p, period) in Periods.ValidPeriodNames)
    ensures (ParseIsoDate(date).Some? && IsInteger(itemId) && IsInteger(placeId)
             && EffectivePeriod(p, period) in Periods.ValidPeriodNames) ==>
      r == Answer(p, ParseIsoDate(date).value, date, IntOf(itemId), IntOf(placeId), EffectivePeriod(p, period),
                  history, std, calendarExtra, scale, apply)
  {
    var per := EffectivePeriod(p, period);
    match ParseIsoDate(date)
    case None => Failure("Unknown datetime string format")
    case Some(d) =>
      var check := Validation.ValidatePredictionInputs(Validation.NewValidator(false), itemId, placeId, date, per, today);
      Validation.PredictionInputsValidity(Validation.NewValidator(false), itemId, placeId, date, per, today);
      if !Validation.GetReport(check.state).valid then Failure("Validation failed")
      else Answer(p, d, date, IntOf(itemId), IntOf(placeId), per, history, std, calendarExtra, scale, apply)
  }

  /** A successful forecast reports the requested (or the predictor's own)
      period, and reports a cold start exactly when there is no history, an
      empty one, or none for the pair. */
  lemma ForecastFlags(p: Predictor, itemId: Value, placeId: Value, date: string,
                      history: Option<seq<DemandRecord>>, period: Option<string>, today: CalDate,
                      std: seq<real> -> real, calendarExtra: (string, CalDate) -> real,
                      scale: (Training.Scaler, seq<real>) -> seq<real>,
                      apply: (Training.Model, seq<real>) -> real)
    requires PredictDemand(p, itemId, placeId, date, history, period, today, std, calendarExtra, scale, apply).Success?
    ensures var f := PredictDemand(p, itemId, placeId, date, history, period, today, std, calendarExtra, scale, apply).value;
      && f.period == EffectivePeriod(p, period)
      && (f.isColdStart <==> history.None? || |history.value| == 0
                             || |Validation.PairRows(history.value, IntOf(itemId), IntOf(placeId))| == 0)
  {
    ColdStartRouting(history, IntOf(itemId), IntOf(placeId));
  }

  /** On the history path every trained feature is present, so the request
      can only fail for an untrained trainer or one without models. */
  lemma HistoryPathHasAllFeatures(p: Predictor, d: CalDate, history: seq<DemandRecord>, itemId: int, placeId: int,
                                  std: seq<real> -> real, calendarExtra: (string, CalDate) -> real,
                                  scale: (Training.Scaler, seq<real>) -> seq<real>,
                                  apply: (Training.Model, seq<real>) -> real)
    ensures var row := PredictionRow(p, d, history, itemId, placeId, std, calendarExtra);
      Predict(p.trainer, Table(row.Keys, [row]), true, None, scale, apply).Success? <==>
        p.trainer.isTrained && Selection(p.trainer, true, None).Some?
  {
  }
}
