/** The forecasting facade: one object holding the trainer (shared with the
    predictor), the configured period, the demand table cached by training,
    and the trained flag. Training runs dataset construction, feature
    engineering, preparation and fitting in order; prediction refuses an
    untrained facade and falls back to the cached table; save and load copy
    the persistent part of the state.

    The feature table reaches the trainer as a frame; `frameOf` is that
    table-to-frame conversion. */
module Orchestrator {

  import opened Wrappers
  import opened Calendar
  import opened Rows
  import DemandDataset
  import Features
  import Training
  import Predictor
  import Periods
  import Validation

  type Attempt<T> = Training.Attempt<T>

  /** The facade's state. The trainer is the predictor's trainer. */
  datatype ForecastModel = ForecastModel(
    modelType: string,
    period: string,
    predictor: Predictor.Predictor,
    isTrained: bool,
    cachedDemand: Option<seq<DemandRecord>>)

  /** The model type and period the facade starts with when none are given. */
  const DefaultModelType: string := "xgboost"
  const DefaultPeriod: string := "daily"

  /** The validation fraction and split mode the pipeline trains with. */
  const ValidationSplit: real := 0.2
  const UseTimeSeriesSplit: bool := true

  /** A new facade: an untrained trainer of the given type, a predictor that
      still predicts daily totals whatever `period` says, nothing cached.
      The period is not checked here. */
  function NewModel(modelType: string, period: string): (m: ForecastModel)
    ensures m.modelType == modelType && m.period == period && !m.isTrained && m.cachedDemand.None?
    ensures m.predictor.trainer == Training.NewTrainer(modelType)
    ensures m.predictor.period == "daily" && m.predictor.stats.None?
  {
    ForecastModel(modelType, period, Predictor.NewPredictor(Training.NewTrainer(modelType)), false, None)
  }

  /** The number of rows of a prepared target column. */
  function RowCount(c: Training.Cells): nat {
    match c
    case Numbers(ns) => |ns|
    case Texts(ts) => |ts|
    case Others => 0
  }

  /** The trainer after preparation and fitting, with the prepared data. */
  datatype Fitted = Fitted(trainer: Training.Trainer, prepared: Attempt<Training.Prepared>, trained: Attempt<Training.Trainer>)

  /** Preparation, then `train` with the default split when preparation
      succeeded. */
  function Fit(t: Training.Trainer, df: Training.Frame, xa: bool, la: bool, mae: (string, nat) -> real): (f: Fitted)
    ensures f.trainer == Training.PrepareFeatures(t, df).0 && f.prepared == Training.PrepareFeatures(t, df).1
    ensures f.prepared.Failure? ==> f.trained.Failure?
    ensures f.prepared.Success? ==>
      f.trained == Training.Train(f.trainer, RowCount(f.prepared.value.y), ValidationSplit, UseTimeSeriesSplit, xa, la, mae)
  {
    var (t1, prep) := Training.PrepareFeatures(t, df);
    match prep
    case Failure(e) => Fitted(t1, prep, Failure(e))
    case Success(p) => Fitted(t1, prep, Training.Train(t1, RowCount(p.y), ValidationSplit, UseTimeSeriesSplit, xa, la, mae))
  }

  /** `train_pipeline` on given orders and order lines. The demand table is
      built for the facade's period (an unknown period counts by day) and
      the features engineered; `Publish` does the rest. */
  function TrainPipeline(m: ForecastModel, orders: DemandDataset.OrdersFrame, lines: DemandDataset.LinesFrame,
                         frameOf: seq<Features.FeatureRow> -> Training.Frame,
                         xa: bool, la: bool, mae: (string, nat) -> real): (r: (ForecastModel, Attempt<Training.Entries<real>>))
    ensures r.0.modelType == m.modelType && r.0.period == m.period
    ensures r.0.predictor.trainer.modelType == m.predictor.trainer.modelType
    ensures DemandDataset.CreateDemandDataset(orders, lines, m.period).Failure? ==>
              r == (m, Failure(DemandDataset.CreateDemandDataset(orders, lines, m.period).error))
  {
    match DemandDataset.CreateDemandDataset(orders, lines, m.period)
    case Failure(e) => (m, Failure(e))
    case Success(demand) => Publish(m, demand, frameOf(Features.EngineerFeatures(demand)), xa, la, mae)
  }

  /** The pipeline once the demand table and the feature frame exist: the
      trainer is prepared and fitted, then the predictor's global statistics
      are set from the demand table, and only then is the period checked. A
      failure keeps whatever the earlier steps changed, as the object does
      when an exception leaves it. */
  function Publish(m: ForecastModel, demand: seq<DemandRecord>, df: Training.Frame,
                   xa: bool, la: bool, mae: (string, nat) -> real): (r: (ForecastModel, Attempt<Training.Entries<real>>))
    ensures r.0.modelType == m.modelType && r.0.period == m.period
    ensures r.0.predictor.trainer.modelType == m.predictor.trainer.modelType
  {
    var f := Fit(m.predictor.trainer, df, xa, la, mae);
    var p := m.predictor.(trainer := f.trainer);
    match f.trained
    case Failure(e) => (m.(predictor := p), Failure(e))
    case Success(t) =>
      var withStats := Predictor.SetGlobalStats(p.(trainer := t), Some(demand));
      match Predictor.SetPeriod(withStats, m.period)
      case Failure(e) => (m.(predictor := withStats), Failure(e))
      case Success(q) => (m.(predictor := q, cachedDemand := Some(demand), isTrained := true), Success(t.metrics))
  }

  /** A successful pipeline leaves a trained facade whose predictor predicts
      in the facade's period, holds statistics of the demand table, and
      whose metrics name exactly the kinds trained; it succeeds exactly
      when preparation and fitting succeed and the period is valid. */
  lemma PublishOutcome(m: ForecastModel, demand: seq<DemandRecord>, df: Training.Frame,
                       xa: bool, la: bool, mae: (string, nat) -> real)
    ensures var f := Fit(m.predictor.trainer, df, xa, la, mae);
      var r := Publish(m, demand, df, xa, la, mae);
      && (r.1.Success? <==> f.trained.Success? && m.period in Periods.ValidPeriodNames)
      && (r.1.Success? ==>
            && r.0.isTrained && r.0.cachedDemand == Some(demand)
            && r.0.predictor.period == m.period
            && r.0.predictor.trainer.isTrained
            && r.0.predictor.stats == Predictor.SetGlobalStats(m.predictor, Some(demand)).stats
            && Training.Keys(r.1.value) == Training.TrainedKinds(m.predictor.trainer.modelType, xa, la))
  {
  }

  /** With a period other than the three names the pipeline still fits the
      models and sets the statistics, then fails: the trainer ends up trained
      while the facade keeps its old trained flag and cache. */
  lemma InvalidPeriodFailsAfterFitting(m: ForecastModel, demand: seq<DemandRecord>, df: Training.Frame,
                                       xa: bool, la: bool, mae: (string, nat) -> real)
    requires m.period !in Periods.ValidPeriodNames
    ensures var r := Publish(m, demand, df, xa, la, mae);
      && r.1.Failure?
      && r.0.isTrained == m.isTrained && r.0.cachedDemand == m.cachedDemand
      && (Fit(m.predictor.trainer, df, xa, la, mae).trained.Success? ==>
            r.0.predictor.trainer.isTrained && r.0.predictor.stats.Some?)
  {
    var f := Fit(m.predictor.trainer, df, xa, la, mae);
    if f.trained.Success? {
      var t := f.trained.value;
      var withStats := Predictor.SetGlobalStats(m.predictor.(trainer := t), Some(demand));
      assert Predictor.SetPeriod(withStats, m.period).Failure?;
      assert Publish(m, demand, df, xa, la, mae) == (m.(predictor := withStats), Failure("Period must be one of ['daily', 'weekly', 'monthly']"));
    }
  }

  /** `predict_demand` of the facade: refuses while untrained, uses the
      cached demand table when no history is given, and passes its own
      period when none (or an empty one) is requested. */
  function PredictDemand(m: ForecastModel, itemId: Value, placeId: Value, date: string,
                         history: Option<seq<DemandRecord>>, period: Option<string>, today: CalDate,
                         std: seq<real> -> real, calendarExtra: (string, CalDate) -> real,
                         scale: (Training.Scaler, seq<real>) -> seq<real>,
                         apply: (Training.Model, seq<real>) -> real): (r: Attempt<Predictor.Forecast>)
    ensures !m.isTrained ==> r.Failure?
    ensures m.isTrained ==>
      r == Predictor.PredictDemand(m.predictor, itemId, placeId, date,
             if history.Some? then history else m.cachedDemand,
             Some(if period.Some? && period.value != "" then period.value else m.period),
             today, std, calendarExtra, scale, apply)
  {
    if !m.isTrained then Failure("Model must be trained before prediction")
    else
      var h := if history.None? then m.cachedDemand else history;
      var per := if period.Some? && period.value != "" then period.value else m.period;
      Predictor.PredictDemand(m.predictor, itemId, placeId, date, h, Some(per), today, std, calendarExtra, scale, apply)
  }

  /** After a successful pipeline, a query without history that succeeds is
      routed by the cached demand table: cold start exactly when the table
      has no rows for the pair. */
  lemma CachedHistoryRoutes(m: ForecastModel, itemId: Value, placeId: Value, date: string,
                            period: Option<string>, today: CalDate,
                            std: seq<real> -> real, calendarExtra: (string, CalDate) -> real,
                            scale: (Training.Scaler, seq<real>) -> seq<real>,
                            apply: (Training.Model, seq<real>) -> real)
    requires m.isTrained && m.cachedDemand.Some?
    requires PredictDemand(m, itemId, placeId, date, None, period, today, std, calendarExtra, scale, apply).Success?
    ensures PredictDemand(m, itemId, placeId, date, None, period, today, std, calendarExtra, scale, apply).value.isColdStart
      <==> |Validation.PairRows(m.cachedDemand.value, IntOf(itemId), IntOf(placeId))| == 0
  {
    var per := if period.Some? && period.value != "" then period.value else m.period;
    Predictor.ForecastFlags(m.predictor, itemId, placeId, date, m.cachedDemand, Some(per), today,
                            std, calendarExtra, scale, apply);
    assert |m.cachedDemand.value| == 0 ==> |Validation.PairRows(m.cachedDemand.value, IntOf(itemId), IntOf(placeId))| == 0;
  }

  /** `get_feature_importance` with no model name. */
  function FeatureImportance(m: ForecastModel, importances: Training.Model -> seq<real>): (r: Attempt<seq<(string, real)>>)
    ensures r.Success? ==> |m.predictor.trainer.metrics| > 0
    ensures r == Training.FeatureImportance(m.predictor.trainer, None, importances)
  {
    Training.FeatureImportance(m.predictor.trainer, None, importances)
  }

  /** What `save` writes: the trainer's models, scaler, encoders, feature
      names, type and flag (not its metrics), the facade's type, period,
      statistics and flag. */
  datatype Saved = Saved(
    models: Training.Entries<Training.Model>,
    scaler: Training.Scaler,
    encoders: map<string, Training.Encoder>,
    featureNames: seq<string>,
    trainerModelType: string,
    trainerIsTrained: bool,
    modelType: string,
    period: string,
    stats: Option<Features.GlobalStats>,
    isTrained: bool)

  function Save(m: ForecastModel): (s: Saved)
    ensures s.models == m.predictor.trainer.models && s.scaler == m.predictor.trainer.scaler
    ensures s.encoders == m.predictor.trainer.encoders && s.featureNames == m.predictor.trainer.featureNames
    ensures s.trainerModelType == m.predictor.trainer.modelType && s.trainerIsTrained == m.predictor.trainer.isTrained
    ensures s.modelType == m.modelType
    ensures s.period == m.period && s.stats == m.predictor.stats && s.isTrained == m.isTrained
  {
    var t := m.predictor.trainer;
    Saved(t.models, t.scaler, t.encoders, t.featureNames, t.modelType, t.isTrained,
          m.modelType, m.period, m.predictor.stats, m.isTrained)
  }

  /** `load`: restores the trainer fields, the facade's type and period and
      the statistics, then sets the predictor's period, which fails for an
      unknown period after everything before it has been restored; the
      trained flag is restored last. The trainer's metrics and the cached
      demand table are not part of the saved state and stay as they were. */
  function Load(m: ForecastModel, s: Saved): (r: (ForecastModel, Attempt<()>))
    ensures r.1.Success? <==> s.period in Periods.ValidPeriodNames
    ensures r.0.predictor.trainer.metrics == m.predictor.trainer.metrics && r.0.cachedDemand == m.cachedDemand
    ensures r.0.predictor.trainer.models == s.models && r.0.predictor.stats == s.stats && r.0.period == s.period
    ensures r.0.predictor.trainer.scaler == s.scaler && r.0.predictor.trainer.encoders == s.encoders
    ensures r.0.predictor.trainer.featureNames == s.featureNames && r.0.modelType == s.modelType
    ensures r.0.predictor.trainer.modelType == s.trainerModelType && r.0.predictor.trainer.isTrained == s.trainerIsTrained
    ensures r.1.Failure? ==> r.0.isTrained == m.isTrained
  {
    var t := m.predictor.trainer.(models := s.models, scaler := s.scaler, encoders := s.encoders,
                                  featureNames := s.featureNames, modelType := s.trainerModelType,
                                  isTrained := s.trainerIsTrained);
    var p := m.predictor.(trainer := t, stats := s.stats);
    var m1 := m.(modelType := s.modelType, period := s.period, predictor := p);
    match Predictor.SetPeriod(p, s.period)
    case Failure(e) => (m1, Failure(e))
    case Success(q) => (m1.(predictor := q, isTrained := s.isTrained), Success(()))
  }

  /** Loading what was saved restores the facade, except that the
      predictor's period becomes the facade's period, and the trainer's
      metrics and the cache are those of the facade loaded into. */
  lemma SaveLoadRoundTrip(m: ForecastModel, into: ForecastModel)
    requires m.period in Periods.ValidPeriodNames
    ensures Load(into, Save(m)).1.Success?
    ensures Load(into, Save(m)).0 ==
      m.(predictor := m.predictor.(period := m.period,
                                   trainer := m.predictor.trainer.(metrics := into.predictor.trainer.metrics)),
         cachedDemand := into.cachedDemand)
  {
  }

  /** A fresh facade that loads a saved one has no metrics, so asking for
      the feature importance without naming a model fails. */
  lemma LoadedImportanceNeedsAName(modelType: string, period: string, s: Saved,
                                   importances: Training.Model -> seq<real>)
    ensures FeatureImportance(Load(NewModel(modelType, period), s).0, importances).Failure?
  {
  }

  /** A fresh facade that loads a trained one has no cached table, so every
      successful query without history is a cold start. */
  lemma LoadedQueriesAreColdStarts(modelType: string, period: string, s: Saved,
                                   itemId: Value, placeId: Value, date: string, per: Option<string>, today: CalDate,
                                   std: seq<real> -> real, calendarExtra: (string, CalDate) -> real,
                                   scale: (Training.Scaler, seq<real>) -> seq<real>,
                                   apply: (Training.Model, seq<real>) -> real)
    requires PredictDemand(Load(NewModel(modelType, period), s).0, itemId, placeId, date, None, per, today,
                           std, calendarExtra, scale, apply).Success?
    ensures PredictDemand(Load(NewModel(modelType, period), s).0, itemId, placeId, date, None, per, today,
                          std, calendarExtra, scale, apply).value.isColdStart
  {
  }
}
