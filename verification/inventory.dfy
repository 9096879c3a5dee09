/** The inventory business rules (src/services/inventory_service.py): the
    demand estimate with its statistical fallback, the reorder point, the
    stock-status thresholds behind a recommendation, and the expiring-items
    filter.

    The trained forecaster is the parameter `forecast`: it answers with the
    predicted demand for an (item, place, period) triple, or `None` where
    the model raises. The query date (tomorrow by the clock unless the
    caller gives one) and the history frame are fixed inside `forecast`. The volatility-based safety stock
    (`1.65 · std · sqrt(lead)`) is the parameter `volatility`. */
module Inventory {

  import opened Wrappers
  import opened Seqs
  import Sorting
  import Series

  // ---------------------------------------------------------------------
  // Tables
  // ---------------------------------------------------------------------

  /** A row of the sales history. */
  datatype SaleRow = SaleRow(itemId: int, placeId: int, quantity: real)

  /** A row of the inventory table; `None` is a NaN cell. */
  datatype InventoryRow = InventoryRow(itemId: int, quantityOnHand: Option<real>, daysUntilExpiration: Option<real>)

  /** The service's tables (`None` where the service was built without one)
      and whether a trained model was loaded. */
  datatype Service = Service(inventory: Option<seq<InventoryRow>>, sales: Option<seq<SaleRow>>, modelLoaded: bool)

  datatype InventoryError = NoSalesData | NoSalesForItem(item: int) | NoInventoryData

  const DefaultLeadTimeDays: int := 3
  const DefaultExpiryThreshold: int := 7

  // ---------------------------------------------------------------------
  // Rounding
  // ---------------------------------------------------------------------

  /** Round half to even of an exact real. */
  function RoundHalfEven(y: real): (n: int)
    ensures -0.5 <= (n as real) - y <= 0.5
  {
    var f := y.Floor;
    var frac := y - f as real;
    if frac < 0.5 then f
    else if frac > 0.5 then f + 1
    else if f % 2 == 0 then f
    else f + 1
  }

  /** Python `round(x, 2)` on the exact value of `x`. */
  function Round2(x: real): (r: real)
    ensures -0.005 <= r - x <= 0.005
  {
    RoundHalfEven(x * 100.0) as real / 100.0
  }

  /** Values already on the hundredths grid are unchanged. */
  lemma Round2OfCents(n: int)
    ensures Round2(n as real / 100.0) == n as real / 100.0
  {
    assert (n as real / 100.0) * 100.0 == n as real;
  }

  // ---------------------------------------------------------------------
  // predict_demand
  // ---------------------------------------------------------------------

  /** The item id of a sales row and of an inventory row. */
  function SaleItem(r: SaleRow): int { r.itemId }
  function StockItem(r: InventoryRow): int { r.itemId }

  /** Index of the first row at or after `from` whose id is `item`: the row
      `iloc[0]` reads after filtering a table by item. */
  function FirstRowOf<R>(rows: seq<R>, id: R -> int, item: int, from: nat): (k: Option<nat>)
    requires from <= |rows|
    ensures k.Some? ==> from <= k.value < |rows| && id(rows[k.value]) == item
    ensures k.Some? ==> forall j :: from <= j < k.value ==> id(rows[j]) != item
    ensures k.None? <==> forall j :: from <= j < |rows| ==> id(rows[j]) != item
    decreases |rows| - from
  {
    if from == |rows| then None
    else if id(rows[from]) == item then Some(from)
    else FirstRowOf(rows, id, item, from + 1)
  }

  /** The place a model prediction is made for: the given one unless it is
      missing or 0, else the place of the item's first sale, else 1. */
  function ResolvePlace(svc: Service, item: int, place: Option<int>): (p: int)
    ensures place.Some? && place.value != 0 ==> p == place.value
    ensures (place.None? || place.value == 0) && svc.sales.None? ==> p == 1
  {
    if place.Some? && place.value != 0 then place.value
    else match svc.sales
      case None => 1
      case Some(rows) =>
        match FirstRowOf(rows, SaleItem, item, 0)
        case Some(k) => rows[k].placeId
        case None => 1
  }

  /** Without an explicit place, the first sale of the item decides it, and
      an item that never sold falls back to place 1. */
  lemma ResolvePlaceDefault(svc: Service, item: int, place: Option<int>)
    requires (place.None? || place.value == 0) && svc.sales.Some?
    ensures var rows := svc.sales.value;
            var p := ResolvePlace(svc, item, place);
            && ((forall j :: 0 <= j < |rows| ==> rows[j].itemId != item) ==> p == 1)
            && (forall k :: (0 <= k < |rows| && rows[k].itemId == item
                              && (forall j :: 0 <= j < k ==> rows[j].itemId != item)) ==> p == rows[k].placeId)
  {
    var rows := svc.sales.value;
    forall k | 0 <= k < |rows| && rows[k].itemId == item && (forall j :: 0 <= j < k ==> rows[j].itemId != item)
      ensures ResolvePlace(svc, item, place) == rows[k].placeId
    {
      var f := FirstRowOf(rows, SaleItem, item, 0);
      assert f.Some?;
      assert !(f.value < k) && !(k < f.value);
    }
  }

  /** The quantities of the item's sales, in table order. */
  function ItemQuantities(rows: seq<SaleRow>, item: int): (qs: seq<real>)
    ensures |qs| <= |rows|
    ensures |qs| == 0 <==> forall j :: 0 <= j < |rows| ==> rows[j].itemId != item
    decreases |rows|
  {
    if |rows| == 0 then []
    else
      var init := ItemQuantities(rows[..|rows| - 1], item);
      var last := rows[|rows| - 1];
      if last.itemId == item then init + [last.quantity] else init
  }

  /** The moving-average window of a period: 7 for daily, 4 for weekly,
      3 for anything else. */
  function AverageWindow(period: string): (w: nat)
    ensures w == 7 <==> period == "daily"
    ensures w == 4 <==> period == "weekly"
    ensures w == 3 <==> period != "daily" && period != "weekly"
  {
    if period == "daily" then 7 else if period == "weekly" then 4 else 3
  }

  /** The statistical estimate: the mean of the item's last few sale
      quantities, rounded to cents. */
  function StatisticalDemand(svc: Service, item: int, period: string): (r: Result<real, InventoryError>)
    ensures svc.sales.None? ==> r == Failure(NoSalesData)
    ensures r.Failure? <==> svc.sales.None? || |ItemQuantities(svc.sales.value, item)| == 0
    ensures svc.sales.Some? && |ItemQuantities(svc.sales.value, item)| == 0 ==> r == Failure(NoSalesForItem(item))
  {
    match svc.sales
    case None => Failure(NoSalesData)
    case Some(rows) =>
      var qs := ItemQuantities(rows, item);
      if |qs| == 0 then Failure(NoSalesForItem(item))
      else
        var recent := TakeLast(qs, AverageWindow(period));
        Success(Round2(Mean(recent)))
  }

  /** The statistical estimate lies, up to rounding, between the smallest
      and the largest of the quantities it averages. */
  lemma StatisticalDemandBounds(svc: Service, item: int, period: string)
    requires svc.sales.Some? && |ItemQuantities(svc.sales.value, item)| > 0
    ensures var qs := ItemQuantities(svc.sales.value, item);
            var recent := TakeLast(qs, AverageWindow(period));
            && |recent| == Min(AverageWindow(period), |qs|)
            && StatisticalDemand(svc, item, period).Success?
            && MinOf(recent) - 0.005 <= StatisticalDemand(svc, item, period).value <= MaxOf(recent) + 0.005
  {
    var qs := ItemQuantities(svc.sales.value, item);
    var recent := TakeLast(qs, AverageWindow(period));
    Series.MeanWithin(recent, MinOf(recent), MaxOf(recent));
  }

  /** `predict_demand`: the model's rounded answer when a model is loaded and
      answers, otherwise the statistical estimate. */
  function PredictDemand(svc: Service, item: int, period: string, place: Option<int>,
                         forecast: (int, int, string) -> Option<real>): (r: Result<real, InventoryError>)
    ensures !svc.modelLoaded ==> r == StatisticalDemand(svc, item, period)
    ensures svc.modelLoaded && forecast(item, ResolvePlace(svc, item, place), period).Some? ==>
              r == Success(Round2(forecast(item, ResolvePlace(svc, item, place), period).value))
    ensures svc.modelLoaded && forecast(item, ResolvePlace(svc, item, place), period).None? ==>
              r == StatisticalDemand(svc, item, period)
    ensures r.Failure? ==> StatisticalDemand(svc, item, period).Failure?
  {
    if svc.modelLoaded then
      match forecast(item, ResolvePlace(svc, item, place), period)
      case Some(v) => Success(Round2(v))
      case None => StatisticalDemand(svc, item, period)
    else StatisticalDemand(svc, item, period)
  }

  // ---------------------------------------------------------------------
  // calculate_reorder_point
  // ---------------------------------------------------------------------

  /** Demand over the lead time. */
  function LeadDemand(daily: real, lead: int): real {
    daily * (lead as real)
  }

  /** Safety stock: volatility-based with more than 7 sales of the item,
      otherwise half the lead-time demand. */
  function SafetyStock(svc: Service, item: int, daily: real, lead: int,
                       volatility: (seq<real>, int) -> real): (s: real)
    ensures svc.sales.None? || |ItemQuantities(svc.sales.value, item)| <= 7 ==> s == LeadDemand(daily, lead) * 0.5
  {
    match svc.sales
    case None => LeadDemand(daily, lead) * 0.5
    case Some(rows) =>
      var qs := ItemQuantities(rows, item);
      if |qs| > 7 then volatility(TakeLast(qs, 30), lead)
      else LeadDemand(daily, lead) * 0.5
  }

  /** `int(ceil(max(lead demand + safety, 0)))`: the least non-negative
      integer at or above the reorder level. */
  function ReorderPoint(daily: real, lead: int, safety: real): (r: nat)
    ensures r as real >= LeadDemand(daily, lead) + safety
    ensures r == 0 || (r - 1) as real < LeadDemand(daily, lead) + safety
  {
    Ceil(MaxReal(LeadDemand(daily, lead) + safety, 0.0))
  }

  function CalculateReorderPoint(svc: Service, item: int, lead: int, place: Option<int>,
                                 forecast: (int, int, string) -> Option<real>,
                                 volatility: (seq<real>, int) -> real): (r: Result<nat, InventoryError>)
    ensures r.Failure? <==> PredictDemand(svc, item, "daily", place, forecast).Failure?
  {
    var daily :- PredictDemand(svc, item, "daily", place, forecast);
    Success(ReorderPoint(daily, lead, SafetyStock(svc, item, daily, lead, volatility)))
  }

  /** With a short history the reorder point is one and a half times the
      lead-time demand, rounded up and never negative. */
  lemma ShortHistoryReorderPoint(svc: Service, item: int, lead: int, place: Option<int>,
                                 forecast: (int, int, string) -> Option<real>,
                                 volatility: (seq<real>, int) -> real)
    requires svc.sales.None? || |ItemQuantities(svc.sales.value, item)| <= 7
    requires PredictDemand(svc, item, "daily", place, forecast).Success?
    ensures var daily := PredictDemand(svc, item, "daily", place, forecast).value;
            var rp := CalculateReorderPoint(svc, item, lead, place, forecast, volatility);
            && rp.Success?
            && rp.value as real >= 1.5 * LeadDemand(daily, lead)
            && (rp.value == 0 || (rp.value - 1) as real < 1.5 * LeadDemand(daily, lead))
  {
  }

  // ---------------------------------------------------------------------
  // generate_recommendations
  // ---------------------------------------------------------------------

  datatype StockStatus = Critical | Low | Overstocked | Optimal | Unknown

  datatype Action = ReorderUrgent | Reorder | ReduceOrder | Monitor | Investigate

  /** The action each status recommends. */
  function ActionFor(s: StockStatus): (a: Action) {
    match s
    case Critical => ReorderUrgent
    case Low => Reorder
    case Overstocked => ReduceOrder
    case Optimal => Monitor
    case Unknown => Investigate
  }

  /** The status of a stock level against reorder point `rp`; a NaN stock
      fails every comparison and stays optimal. */
  function StatusOf(stock: Option<real>, rp: nat): (s: StockStatus)
    ensures s != Unknown
    ensures s == Critical <==> stock.Some? && stock.value < 0.5 * rp as real
    ensures s == Low <==> stock.Some? && 0.5 * rp as real <= stock.value < rp as real
    ensures s == Overstocked <==> stock.Some? && stock.value > 3.0 * rp as real
    ensures s == Optimal <==> stock.None? || rp as real <= stock.value <= 3.0 * rp as real
  {
    match stock
    case None => Optimal
    case Some(v) =>
      if v < rp as real * 0.5 then Critical
      else if v < rp as real then Low
      else if v > rp as real * 3.0 then Overstocked
      else Optimal
  }

  /** Urgency order: critical, low, optimal, overstocked. */
  function Rank(s: StockStatus): int {
    match s
    case Critical => 0
    case Low => 1
    case Optimal => 2
    case Overstocked => 3
    case Unknown => 4
  }

  /** More stock never makes the status more urgent. */
  lemma StatusMonotone(a: real, b: real, rp: nat)
    requires a <= b
    ensures Rank(StatusOf(Some(a), rp)) <= Rank(StatusOf(Some(b), rp))
  {
  }

  /** The item's status: from the quantity on hand of its first inventory
      row, optimal when there is no inventory table or no row for it. */
  function InventoryStatus(inventory: Option<seq<InventoryRow>>, item: int, rp: nat): (s: StockStatus)
    ensures inventory.None? ==> s == Optimal
    ensures inventory.Some? && (forall j :: 0 <= j < |inventory.value| ==> inventory.value[j].itemId != item) ==>
              s == Optimal
    ensures forall k :: inventory.Some? && 0 <= k < |inventory.value| && inventory.value[k].itemId == item
                        && (forall j :: 0 <= j < k ==> inventory.value[j].itemId != item) ==>
              s == StatusOf(inventory.value[k].quantityOnHand, rp)
    ensures s != Unknown
  {
    match inventory
    case None => Optimal
    case Some(rows) =>
      match FirstRowOf(rows, StockItem, item, 0)
      case None => Optimal
      case Some(k) => StatusOf(rows[k].quantityOnHand, rp)
  }

  datatype ModelType = Ml | Statistical | Fallback

  datatype Recommendation = Recommendation(
    itemId: int,
    placeId: Option<int>,
    dailyDemand: real,
    weeklyDemand: real,
    monthlyDemand: real,
    reorderPoint: nat,
    status: StockStatus,
    action: Action,
    modelType: ModelType,
    error: Option<InventoryError>)

  /** The record returned when any step fails. */
  function FallbackRecommendation(item: int, place: Option<int>, e: InventoryError): (r: Recommendation)
    ensures r.dailyDemand == 0.0 && r.weeklyDemand == 0.0 && r.monthlyDemand == 0.0 && r.reorderPoint == 0
    ensures r.status == Unknown && r.action == Investigate && r.modelType == Fallback && r.error == Some(e)
    ensures r.itemId == item && r.placeId == place
  {
    Recommendation(item, place, 0.0, 0.0, 0.0, 0, Unknown, Investigate, Fallback, Some(e))
  }

  /** `generate_recommendations`: the three demand estimates, the reorder
      point for the default lead time and the stock status; any failure
      yields the fallback record carrying the first error. */
  function GenerateRecommendations(svc: Service, item: int, place: Option<int>,
                                   forecast: (int, int, string) -> Option<real>,
                                   volatility: (seq<real>, int) -> real): (r: Recommendation)
    ensures r.itemId == item && r.placeId == place
    ensures r.action == ActionFor(r.status)
    ensures r.modelType == Fallback <==> r.status == Unknown
    ensures r.modelType != Fallback ==> r.error.None? && (r.modelType == Ml <==> svc.modelLoaded)
  {
    var daily := PredictDemand(svc, item, "daily", place, forecast);
    var weekly := PredictDemand(svc, item, "weekly", place, forecast);
    var monthly := PredictDemand(svc, item, "monthly", place, forecast);
    if daily.Failure? then FallbackRecommendation(item, place, daily.error)
    else if weekly.Failure? then FallbackRecommendation(item, place, weekly.error)
    else if monthly.Failure? then FallbackRecommendation(item, place, monthly.error)
    else
      // the reorder point re-runs the daily estimate, which has succeeded
      var rp := CalculateReorderPoint(svc, item, DefaultLeadTimeDays, place, forecast, volatility);
      var status := InventoryStatus(svc.inventory, item, rp.value);
      Recommendation(item, place, daily.value, weekly.value, monthly.value, rp.value, status, ActionFor(status),
                     if svc.modelLoaded then Ml else Statistical, None)
  }

  /** The fallback record appears exactly when one of the estimates fails,
      and never without a sales table. */
  lemma FallbackWhenEstimateFails(svc: Service, item: int, place: Option<int>,
                                  forecast: (int, int, string) -> Option<real>,
                                  volatility: (seq<real>, int) -> real)
    ensures GenerateRecommendations(svc, item, place, forecast, volatility).modelType == Fallback
            <==> (PredictDemand(svc, item, "daily", place, forecast).Failure?
                  || PredictDemand(svc, item, "weekly", place, forecast).Failure?
                  || PredictDemand(svc, item, "monthly", place, forecast).Failure?)
    ensures !svc.modelLoaded && svc.sales.None? ==>
              GenerateRecommendations(svc, item, place, forecast, volatility)
              == FallbackRecommendation(item, place, NoSalesData)
  {
  }

  /** A successful recommendation reports the status of the item's stock
      against its reorder point. */
  lemma RecommendationStatus(svc: Service, item: int, place: Option<int>,
                             forecast: (int, int, string) -> Option<real>,
                             volatility: (seq<real>, int) -> real)
    requires GenerateRecommendations(svc, item, place, forecast, volatility).modelType != Fallback
    ensures var r := GenerateRecommendations(svc, item, place, forecast, volatility);
            && CalculateReorderPoint(svc, item, DefaultLeadTimeDays, place, forecast, volatility) == Success(r.reorderPoint)
            && r.status == InventoryStatus(svc.inventory, item, r.reorderPoint)
            && PredictDemand(svc, item, "daily", place, forecast) == Success(r.dailyDemand)
            && PredictDemand(svc, item, "weekly", place, forecast) == Success(r.weeklyDemand)
            && PredictDemand(svc, item, "monthly", place, forecast) == Success(r.monthlyDemand)
  {
  }

  // ---------------------------------------------------------------------
  // identify_expiring_items
  // ---------------------------------------------------------------------

  /** A row expires within `threshold` days; a NaN count never does. */
  predicate ExpiresWithin(row: InventoryRow, threshold: int) {
    row.daysUntilExpiration.Some? && row.daysUntilExpiration.value <= threshold as real
  }

  predicate ExpiryLe(a: InventoryRow, b: InventoryRow) {
    a.daysUntilExpiration.GetOr(0.0) <= b.daysUntilExpiration.GetOr(0.0)
  }

  lemma ExpiryLeIsTotalPreorder()
    ensures Sorting.TotalPreorder(ExpiryLe)
  {
  }

  /** The rows expiring within the threshold, soonest first; it fails
      without an inventory table. */
  function IdentifyExpiringItems(inventory: Option<seq<InventoryRow>>, threshold: int)
    : (r: Result<seq<InventoryRow>, InventoryError>)
    ensures r.Failure? <==> inventory.None?
    ensures r.Success? ==> multiset(r.value) == multiset(Expiring(inventory.value, threshold))
    ensures r.Success? ==> Sorting.SortedBy(r.value, ExpiryLe)
  {
    match inventory
    case None => Failure(NoInventoryData)
    case Some(rows) =>
      ExpiryLeIsTotalPreorder();
      Success(Sorting.Sort(Expiring(rows, threshold), ExpiryLe))
  }

  /** The boolean mask `days_until_expiration <= threshold`. */
  function Expiring(rows: seq<InventoryRow>, threshold: int): (r: seq<InventoryRow>)
    ensures forall row :: row in r <==> row in rows && ExpiresWithin(row, threshold)
  {
    Filter(rows, (row: InventoryRow) => ExpiresWithin(row, threshold))
  }

  /** Every reported row expires within the threshold, every such row of the
      table is reported, and they come soonest first. */
  lemma ExpiringItemsSpec(rows: seq<InventoryRow>, threshold: int)
    ensures var r := IdentifyExpiringItems(Some(rows), threshold).value;
            && (forall row :: row in r <==> row in rows && ExpiresWithin(row, threshold))
            && (forall i :: 0 <= i < |r| ==> ExpiresWithin(r[i], threshold))
            && (forall i, j :: 0 <= i < j < |r| ==>
                  r[i].daysUntilExpiration.value <= r[j].daysUntilExpiration.value <= threshold as real)
  {
    var r := IdentifyExpiringItems(Some(rows), threshold).value;
    var hits := Expiring(rows, threshold);
    assert forall row :: row in r <==> row in multiset(hits);
    forall i | 0 <= i < |r| ensures ExpiresWithin(r[i], threshold) {
      assert r[i] in multiset(hits);
    }
  }
}
