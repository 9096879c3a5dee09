/** The discount decision rule (src/services/prediction_model/decision.py):
    a grid of candidate discount percentages is scored by blending a fitted
    model's prediction with a hand-written response curve, each candidate's
    expected sales are rescaled against a baseline candidate, and the first
    candidate that clears the remaining stock (or, failing that, the best
    seller) is recommended.

    The fitted model is the parameter `predictLog` (its output is in
    `log1p` space) and `numpy.expm1` is the parameter `expm1`; both are
    treated as unknown functions. */
module DiscountDecision {

  import opened Wrappers
  import opened Seqs
  import opened Calendar
  import Sorting
  import DiscountFeatures

  // ---------------------------------------------------------------------
  // eq_units_per_hour: the rule-based response curve
  // ---------------------------------------------------------------------

  /** Smallest selling window, in hours, any computation divides by. */
  const WindowFloor: real := 0.000001

  /** The default cap on the discount lift. */
  const DefaultMaxBoost: real := 3.0

  /** The selling window, floored at `WindowFloor`. */
  function EqWindow(hours: real): (w: real)
    ensures w >= WindowFloor
    ensures hours >= WindowFloor ==> w == hours
    ensures hours < WindowFloor ==> w == WindowFloor
  {
    MaxReal(hours, WindowFloor)
  }

  /** The demand lift of discount `pct`: `1 + 4.5·pct`, clipped to
      `[0, maxBoost]` the way `numpy.clip` does (the upper bound wins when
      the bounds cross). */
  function Lift(pct: real, maxBoost: real): (l: real)
    ensures l <= maxBoost
    ensures maxBoost >= 0.0 ==> l >= 0.0
    ensures 0.0 <= 1.0 + 4.5 * pct <= maxBoost ==> l == 1.0 + 4.5 * pct
  {
    MinReal(MaxReal(1.0 + 4.5 * pct, 0.0), maxBoost)
  }

  /** The urgency factor: grows with stock relative to expected demand,
      within `[0.5, 2]`; neutral when no demand is expected. */
  function ShortageFactor(amountLeft: real, expected: real): (f: real)
    ensures expected > 0.0 ==> 0.5 <= f <= 2.0
    ensures expected <= 0.0 ==> f == 1.0
  {
    if expected > 0.0 then Clip(0.5 + 0.5 * (amountLeft / expected), 0.5, 2.0)
    else 1.0
  }

  /** Estimated units sold per hour at discount `pct`: the base hourly rate
      times the lift times the shortage factor. */
  function EqUnitsPerHour(amountLeft: real, expected: real, pct: real, hours: real, maxBoost: real): real
  {
    Rate(expected / EqWindow(hours), Lift(pct, maxBoost), ShortageFactor(amountLeft, expected))
  }

  /** Base rate times lift times shortage factor. */
  function Rate(base: real, lift: real, factor: real): real {
    base * lift * factor
  }

  /** Products of non-negative factors grow with their middle factor. */
  lemma ScaleMonotone(a: real, b1: real, b2: real, c: real)
    requires a >= 0.0 && c >= 0.0 && b1 <= b2
    ensures Rate(a, b1, c) <= Rate(a, b2, c)
  {
    assert a * b2 - a * b1 == a * (b2 - b1);
    assert a * (b2 - b1) >= 0.0;
    assert (a * b2 - a * b1) * c >= 0.0;
  }

  /** The curve never predicts negative sales for non-negative demand, and
      never predicts positive sales for negative demand. */
  lemma EqUnitsSign(amountLeft: real, expected: real, pct: real, hours: real, maxBoost: real)
    requires maxBoost >= 0.0
    ensures expected >= 0.0 ==> EqUnitsPerHour(amountLeft, expected, pct, hours, maxBoost) >= 0.0
    ensures expected <= 0.0 ==> EqUnitsPerHour(amountLeft, expected, pct, hours, maxBoost) <= 0.0
  {
    var w := EqWindow(hours);
    var l := Lift(pct, maxBoost);
    var f := ShortageFactor(amountLeft, expected);
    var base := expected / w;
    assert f > 0.0;
    if expected >= 0.0 {
      assert base >= 0.0;
      ScaleMonotone(base, 0.0, l, f);
    } else {
      assert base < 0.0;
      ScaleMonotone(-base, 0.0, l, f);
      assert (-base) * l * f == -(base * l * f);
    }
  }

  /** A deeper discount never lowers the lift. */
  lemma LiftMonotone(p: real, q: real, maxBoost: real)
    requires p <= q
    ensures Lift(p, maxBoost) <= Lift(q, maxBoost)
  {
  }

  lemma DivNonNegative(x: real, y: real)
    requires x >= 0.0 && y > 0.0
    ensures x / y >= 0.0
  {
  }

  /** A deeper discount never lowers the curve's estimate when demand is
      non-negative. */
  lemma EqUnitsMonotoneInPct(amountLeft: real, expected: real, p: real, q: real, hours: real, maxBoost: real)
    requires expected >= 0.0 && p <= q
    ensures EqUnitsPerHour(amountLeft, expected, p, hours, maxBoost)
            <= EqUnitsPerHour(amountLeft, expected, q, hours, maxBoost)
  {
    DivNonNegative(expected, EqWindow(hours));
    LiftMonotone(p, q, maxBoost);
    ScaleMonotone(expected / EqWindow(hours), Lift(p, maxBoost), Lift(q, maxBoost), ShortageFactor(amountLeft, expected));
  }

  // ---------------------------------------------------------------------
  // map_aggressiveness
  // ---------------------------------------------------------------------

  /** Blending weights of the model and the curve, and the coverage factor
      applied to the units that must be sold. */
  datatype Weights = Weights(wModel: real, wEq: real, coverage: real)

  /** The aggressiveness setting, clipped to `[0, 10]`. */
  function Aggressiveness(a: real): (g: real)
    ensures 0.0 <= g <= 10.0
    ensures 0.0 <= a <= 10.0 ==> g == a
  {
    Clip(a, 0.0, 10.0)
  }

  function MapAggressiveness(a: real): (w: Weights)
    ensures 0.2 <= w.wEq <= 0.8
    ensures w.wModel + w.wEq == 1.0
    ensures 0.9 <= w.coverage <= 1.1
  {
    var g := Aggressiveness(a);
    var wEq := Clip(0.2 + 0.06 * g, 0.2, 0.8);
    Weights(1.0 - wEq, wEq, 0.9 + 0.02 * g)
  }

  /** The clip on the curve's weight never binds: the weight is linear in
      the clipped aggressiveness, and so is the coverage. */
  lemma WeightsLinear(a: real)
    ensures MapAggressiveness(a).wEq == 0.2 + 0.06 * Aggressiveness(a)
    ensures MapAggressiveness(a).coverage == 0.9 + 0.02 * Aggressiveness(a)
  {
  }

  /** More aggressiveness shifts weight from the model to the curve and
      demands more coverage. */
  lemma AggressivenessMonotone(a: real, b: real)
    requires a <= b
    ensures MapAggressiveness(a).wEq <= MapAggressiveness(b).wEq
    ensures MapAggressiveness(a).wModel >= MapAggressiveness(b).wModel
    ensures MapAggressiveness(a).coverage <= MapAggressiveness(b).coverage
  {
    WeightsLinear(a);
    WeightsLinear(b);
  }

  /** The default setting 5 blends both sources equally with full coverage. */
  lemma DefaultAggressivenessWeights()
    ensures MapAggressiveness(5.0) == Weights(0.5, 0.5, 1.0)
  {
    WeightsLinear(5.0);
  }

  // ---------------------------------------------------------------------
  // clamp_expm1
  // ---------------------------------------------------------------------

  /** The default upper bound of a log-space prediction. */
  const DefaultMaxLog: real := 10.0

  /** A log-space prediction clipped to `[-20, maxX]` (`numpy.clip`). */
  function ClipLog(x: real, maxX: real): real {
    MinReal(MaxReal(x, -20.0), maxX)
  }

  /** `expm1` of the clipped value, floored at 0. */
  function ClampExpm1(x: real, maxX: real, expm1: real -> real): (y: real)
    ensures y >= 0.0
    ensures y == 0.0 || y == expm1(ClipLog(x, maxX))
    ensures expm1(ClipLog(x, maxX)) >= 0.0 ==> y == expm1(ClipLog(x, maxX))
  {
    MaxReal(expm1(ClipLog(x, maxX)), 0.0)
  }

  /** Every prediction above the bound gives the same number of units. */
  lemma ClampSaturates(x: real, maxX: real, expm1: real -> real)
    requires x >= maxX >= -20.0
    ensures ClampExpm1(x, maxX, expm1) == ClampExpm1(maxX, maxX, expm1)
  {
  }

  /** With a monotone `expm1`, a larger log prediction never yields fewer units. */
  lemma ClampMonotone(x: real, z: real, maxX: real, expm1: real -> real)
    requires x <= z
    requires forall u, v :: u <= v ==> expm1(u) <= expm1(v)
    ensures ClampExpm1(x, maxX, expm1) <= ClampExpm1(z, maxX, expm1)
  {
    assert ClipLog(x, maxX) <= ClipLog(z, maxX);
  }

  // ---------------------------------------------------------------------
  // The current time as pandas sees it (UTC)
  // ---------------------------------------------------------------------

  /** Largest magnitude of a pandas timestamp, in nanoseconds (`2^63 - 1`). */
  const NanosecondLimit: int := 0x7FFF_FFFF_FFFF_FFFF

  /** `pd.to_datetime(ts, unit="s")` succeeds: the timestamp in nanoseconds
      fits a 64-bit integer other than the one reserved for NaT. */
  predicate InPandasRange(ts: int) {
    -NanosecondLimit <= ts * 1_000_000_000 <= NanosecondLimit
  }

  /** Day number (days since 0001-01-01) of 1970-01-01. */
  const UnixEpochDay: nat := 719162

  lemma UnixEpochIs1970()
    ensures Valid(Date(1970, 1, 1)) && DayNumber(Date(1970, 1, 1)) == UnixEpochDay
  {
    DaysBeforeYearClosedForm(1970);
    assert DaysInYears(1969) == 719162;
  }

  /** Hour, weekday (Monday = 0) and month of a Unix timestamp in UTC. */
  datatype UtcTime = UtcTime(hour: int, dayOfWeek: int, month: int)

  /** Day number of the UTC day holding timestamp `ts`. */
  function UtcDay(ts: int): (k: nat)
    requires InPandasRange(ts)
    ensures k == UnixEpochDay + ts / 86400
  {
    UnixEpochDay + ts / 86400
  }

  /** The UTC calendar date of timestamp `ts`. */
  function UtcDate(ts: int): (d: Date)
    requires InPandasRange(ts)
    ensures Valid(d) && DayNumber(d) == UtcDay(ts)
  {
    DateOfDay(UtcDay(ts))
  }

  /** The weekday of the UTC date, read off the day number (day 0 was a Monday). */
  function UtcDayOfWeek(ts: int): (w: int)
    requires InPandasRange(ts)
    ensures 0 <= w < 7
  {
    UtcDay(ts) % 7
  }

  /** The hour of the UTC day. */
  function UtcHour(ts: int): (h: int)
    ensures 0 <= h < 24
  {
    (ts % 86400) / 3600
  }

  function UtcOf(ts: int): (t: UtcTime)
    requires InPandasRange(ts)
    ensures t.hour == UtcHour(ts) && t.dayOfWeek == UtcDayOfWeek(ts) && t.month == UtcDate(ts).month
    ensures 1 <= t.month <= 12
  {
    UtcTime(UtcHour(ts), UtcDayOfWeek(ts), UtcDate(ts).month)
  }

  /** The weekday is the calendar weekday of the UTC date. */
  lemma UtcDayOfWeekIsWeekday(ts: int)
    requires InPandasRange(ts)
    ensures UtcDayOfWeek(ts) == Weekday(UtcDate(ts))
  {
  }

  /** 1970-01-01 was a Thursday, so the weekday follows from the whole days
      since then. */
  lemma UtcWeekday(ts: int)
    requires InPandasRange(ts)
    ensures UtcDayOfWeek(ts) == (ts / 86400 + 3) % 7
  {
    var x := ts / 86400;
    assert UnixEpochDay + x == 7 * 102737 + (x + 3);
  }

  /** One day later is the same hour on the next weekday. */
  lemma UtcNextDay(ts: int)
    requires InPandasRange(ts) && InPandasRange(ts + 86400)
    ensures UtcHour(ts + 86400) == UtcHour(ts)
    ensures UtcDayOfWeek(ts + 86400) == (UtcDayOfWeek(ts) + 1) % 7
  {
    var x := ts / 86400;
    assert (ts + 86400) / 86400 == x + 1 && (ts + 86400) % 86400 == ts % 86400;
    UtcWeekday(ts);
    UtcWeekday(ts + 86400);
  }

  // ---------------------------------------------------------------------
  // Popularity priors
  // ---------------------------------------------------------------------

  /** A row of the item popularity table; `None` is a count that is missing
      or not numeric. */
  datatype ItemPopularity = ItemPopularity(placeId: int, itemId: int, orderCount: Option<real>)

  /** A row of the place popularity table. */
  datatype PlacePopularity = PlacePopularity(placeId: int, totalOrderCount: Option<real>)

  /** Total order count of the rows for `(place, item)`, missing counts as 0;
      0 without a table. */
  function ItemPrior(table: Option<seq<ItemPopularity>>, place: int, item: int): (p: real)
    decreases if table.Some? then |table.value| else 0
  {
    match table
    case None => 0.0
    case Some(rows) =>
      if |rows| == 0 then 0.0
      else
        var last := rows[|rows| - 1];
        ItemPrior(Some(rows[..|rows| - 1]), place, item)
        + (if last.placeId == place && last.itemId == item then last.orderCount.GetOr(0.0) else 0.0)
  }

  /** A table with no row for the pair gives the same prior as no table. */
  lemma {:induction false} ItemPriorAbsent(rows: seq<ItemPopularity>, place: int, item: int)
    requires forall i :: 0 <= i < |rows| ==> !(rows[i].placeId == place && rows[i].itemId == item)
    ensures ItemPrior(Some(rows), place, item) == 0.0
    decreases |rows|
  {
    if |rows| > 0 {
      ItemPriorAbsent(rows[..|rows| - 1], place, item);
    }
  }

  /** Non-negative counts give a non-negative prior. */
  lemma {:induction false} ItemPriorNonNegative(rows: seq<ItemPopularity>, place: int, item: int)
    requires forall i :: 0 <= i < |rows| ==> rows[i].orderCount.GetOr(0.0) >= 0.0
    ensures ItemPrior(Some(rows), place, item) >= 0.0
    decreases |rows|
  {
    if |rows| > 0 {
      ItemPriorNonNegative(rows[..|rows| - 1], place, item);
    }
  }

  /** Total order count of the rows for `place`; 0 without a table. */
  function PlacePrior(table: Option<seq<PlacePopularity>>, place: int): (p: real)
    decreases if table.Some? then |table.value| else 0
  {
    match table
    case None => 0.0
    case Some(rows) =>
      if |rows| == 0 then 0.0
      else
        var last := rows[|rows| - 1];
        PlacePrior(Some(rows[..|rows| - 1]), place)
        + (if last.placeId == place then last.totalOrderCount.GetOr(0.0) else 0.0)
  }

  /** Each matching row adds its count to the place prior. */
  lemma PlacePriorAppend(rows: seq<PlacePopularity>, row: PlacePopularity, place: int)
    ensures PlacePrior(Some(rows + [row]), place)
            == PlacePrior(Some(rows), place) + (if row.placeId == place then row.totalOrderCount.GetOr(0.0) else 0.0)
  {
    assert (rows + [row])[..|rows + [row]| - 1] == rows;
  }

  // ---------------------------------------------------------------------
  // Candidate feature rows
  // ---------------------------------------------------------------------

  /** The features of one candidate that vary with the request. The columns
      every candidate shares (kind "pct", zero multibuy quantities, the
      validity flags, segment "item_discount") are fixed, so the model may
      be read as a function of these fields alone. */
  datatype CandidateRow = CandidateRow(
    pct: real,
    multiplier: real,
    depth: real,
    durationHours: real,
    durationCapped: real,
    hour: int,
    dayOfWeek: int,
    isWeekend: bool,
    month: int,
    daypart: string,
    numItemsTargeted: int,
    placeId: int,
    itemId: int,
    orderCount: real,
    placeTotalOrderCount: real)

  /** Longest duration, in hours, the capped duration feature shows (30 days). */
  const DurationCap: real := 720.0

  function CandidateFor(p: real, hours: real, t: UtcTime, numItems: int, place: int, item: int,
                        itemPrior: real, placePrior: real): (row: CandidateRow)
    ensures 0.05 <= row.multiplier <= 1.0 && 0.0 <= row.depth <= 0.95
    ensures 0.05 <= 1.0 - p <= 1.0 ==> row.multiplier == 1.0 - p && row.depth == p
    ensures row.durationCapped <= DurationCap && row.durationCapped <= row.durationHours
    ensures row.isWeekend <==> t.dayOfWeek >= 5
  {
    var m := Clip(1.0 - p, 0.05, 1.0);
    CandidateRow(p, m, Clip(1.0 - m, 0.0, 0.95), hours, MinReal(hours, DurationCap),
                 t.hour, t.dayOfWeek, t.dayOfWeek >= 5, t.month, DiscountFeatures.Daypart(t.hour as real),
                 numItems, place, item, itemPrior, placePrior)
  }

  // ---------------------------------------------------------------------
  // Clearance target
  // ---------------------------------------------------------------------

  /** Hours left in the selling window, floored at `WindowFloor`. */
  function WindowHours(now: int, windowEnd: int): (h: real)
    ensures h >= WindowFloor
    ensures windowEnd >= now + 1 ==> h == (windowEnd - now) as real / 3600.0
  {
    MaxReal((windowEnd - now) as real / 3600.0, WindowFloor)
  }

  /** Largest share of the stock that may be left unsold. */
  function ReliefFraction(a: real): (f: real)
    ensures 0.1 <= f <= 0.6
  {
    0.60 - 0.05 * Aggressiveness(a)
  }

  /** Hourly allowance of unsold units. */
  function ReliefRate(a: real): (r: real)
    ensures 0.2 <= r <= 2.0
  {
    2.0 - 0.18 * Aggressiveness(a)
  }

  /** More aggressiveness leaves less stock unsold. */
  lemma ReliefShrinksWithAggressiveness(a: real, b: real)
    requires a <= b
    ensures ReliefFraction(b) <= ReliefFraction(a) && ReliefRate(b) <= ReliefRate(a)
  {
  }

  /** Units that may remain unsold: the smaller of the fractional and the
      hourly allowance. */
  function Slack(amountLeft: real, fraction: real, rate: real, hours: real): (s: real)
    ensures s <= amountLeft * fraction && s <= rate * hours
    ensures s == amountLeft * fraction || s == rate * hours
  {
    MinReal(amountLeft * fraction, rate * hours)
  }

  /** Units that must be sold: the stock beyond the slack, scaled by the
      coverage factor. */
  function Required(amountLeft: real, slack: real, coverage: real): (r: real)
    ensures coverage >= 0.0 ==> r >= 0.0
  {
    MaxReal(amountLeft - slack, 0.0) * coverage
  }

  /** Nothing must be sold exactly when the slack covers the stock. */
  lemma RequiredZero(amountLeft: real, slack: real, coverage: real)
    requires coverage > 0.0
    ensures Required(amountLeft, slack, coverage) == 0.0 <==> amountLeft <= slack
  {
    var e := MaxReal(amountLeft - slack, 0.0);
    if e > 0.0 {
      assert e * coverage > 0.0;
    }
  }

  lemma MulLeftMonotone(c: real, x1: real, x2: real)
    requires c >= 0.0 && x1 <= x2
    ensures c * x1 <= c * x2
  {
    assert c * x2 - c * x1 == c * (x2 - x1);
  }

  lemma MulRightMonotone(x1: real, x2: real, c: real)
    requires c >= 0.0 && x1 <= x2
    ensures x1 * c <= x2 * c
  {
    assert x2 * c - x1 * c == (x2 - x1) * c;
  }

  /** For stock on hand the target lies between the share of the stock the
      fractional allowance leaves and the whole stock, both scaled by
      coverage. */
  lemma RequiredBounds(amountLeft: real, fraction: real, rate: real, hours: real, coverage: real)
    requires amountLeft >= 0.0 && hours >= 0.0 && 0.0 <= fraction <= 1.0 && rate >= 0.0 && coverage >= 0.0
    ensures Required(amountLeft, Slack(amountLeft, fraction, rate, hours), coverage) <= amountLeft * coverage
    ensures Required(amountLeft, Slack(amountLeft, fraction, rate, hours), coverage)
            >= amountLeft * (1.0 - fraction) * coverage
  {
    var s := Slack(amountLeft, fraction, rate, hours);
    MulLeftMonotone(amountLeft, 0.0, fraction);
    MulLeftMonotone(rate, 0.0, hours);
    var e := MaxReal(amountLeft - s, 0.0);
    assert amountLeft * (1.0 - fraction) == amountLeft - amountLeft * fraction;
    MulRightMonotone(e, amountLeft, coverage);
    MulRightMonotone(amountLeft * (1.0 - fraction), e, coverage);
  }

  /** A longer window never raises the target. */
  lemma RequiredShrinksWithTime(amountLeft: real, fraction: real, rate: real, coverage: real, h1: real, h2: real)
    requires rate >= 0.0 && coverage >= 0.0 && h1 <= h2
    ensures Required(amountLeft, Slack(amountLeft, fraction, rate, h2), coverage)
            <= Required(amountLeft, Slack(amountLeft, fraction, rate, h1), coverage)
  {
    MulLeftMonotone(rate, h1, h2);
    var e1 := MaxReal(amountLeft - Slack(amountLeft, fraction, rate, h1), 0.0);
    var e2 := MaxReal(amountLeft - Slack(amountLeft, fraction, rate, h2), 0.0);
    MulRightMonotone(e2, e1, coverage);
  }

  // ---------------------------------------------------------------------
  // Choosing a candidate
  // ---------------------------------------------------------------------

  /** The first index from `from` on whose value reaches `target`. */
  function FirstReaching(xs: seq<real>, target: real, from: nat): (r: Option<nat>)
    requires from <= |xs|
    ensures r.Some? ==> from <= r.value < |xs| && xs[r.value] >= target
    ensures r.Some? ==> forall j :: from <= j < r.value ==> xs[j] < target
    ensures r.None? <==> forall j :: from <= j < |xs| ==> xs[j] < target
    decreases |xs| - from
  {
    if from == |xs| then None
    else if xs[from] >= target then Some(from)
    else FirstReaching(xs, target, from + 1)
  }

  /** `numpy.argmax`: the first index of the largest value. */
  function ArgMax(xs: seq<real>): (k: nat)
    requires |xs| > 0
    ensures k < |xs|
    ensures forall j :: 0 <= j < |xs| ==> xs[j] <= xs[k]
    ensures forall j :: 0 <= j < k ==> xs[j] < xs[k]
    decreases |xs|
  {
    if |xs| == 1 then 0
    else
      var k := ArgMax(xs[..|xs| - 1]);
      if xs[|xs| - 1] > xs[k] then |xs| - 1 else k
  }

  datatype Status = CanClearInventory | CannotClearChooseBestSellthrough

  datatype Choice = Choice(index: nat, status: Status)

  /** The first candidate whose adjusted expectation reaches the target;
      when none does, the first candidate with the largest expectation. */
  function Choose(adjusted: seq<real>, required: real): (c: Choice)
    requires |adjusted| > 0
    ensures c.index < |adjusted|
    ensures c.status == CanClearInventory
            <==> exists i :: 0 <= i < |adjusted| && adjusted[i] >= required
    ensures c.status == CanClearInventory ==> adjusted[c.index] >= required
    ensures c.status == CanClearInventory ==> forall j :: 0 <= j < c.index ==> adjusted[j] < required
    ensures c.status == CannotClearChooseBestSellthrough
            ==> forall j :: 0 <= j < |adjusted| ==> adjusted[j] <= adjusted[c.index]
    ensures c.status == CannotClearChooseBestSellthrough
            ==> forall j :: 0 <= j < c.index ==> adjusted[j] < adjusted[c.index]
  {
    match FirstReaching(adjusted, required, 0)
    case Some(i) => Choice(i, CanClearInventory)
    case None => Choice(ArgMax(adjusted), CannotClearChooseBestSellthrough)
  }

  /** The two rules pin the choice down: any index meeting the rule of the
      reported status is the chosen one. */
  lemma ChoiceDetermined(adjusted: seq<real>, required: real, k: nat)
    requires |adjusted| > 0 && k < |adjusted|
    requires Choose(adjusted, required).status == CanClearInventory ==>
               adjusted[k] >= required && forall j :: 0 <= j < k ==> adjusted[j] < required
    requires Choose(adjusted, required).status == CannotClearChooseBestSellthrough ==>
               (forall j :: 0 <= j < |adjusted| ==> adjusted[j] <= adjusted[k])
               && forall j :: 0 <= j < k ==> adjusted[j] < adjusted[k]
    ensures Choose(adjusted, required).index == k
  {
    var c := Choose(adjusted, required);
    if c.index < k {
      assert false;
    } else if k < c.index {
      assert false;
    }
  }

  // ---------------------------------------------------------------------
  // recommend_discount_item
  // ---------------------------------------------------------------------

  predicate PctLe(a: real, b: real) {
    a <= b
  }

  lemma PctLeIsTotalPreorder()
    ensures Sorting.TotalPreorder(PctLe)
  {
  }

  /** `sorted(pct_grid)`. */
  function SortedGrid(grid: seq<real>): (g: seq<real>)
    ensures |g| == |grid| && multiset(g) == multiset(grid)
    ensures forall i, j :: 0 <= i < j < |g| ==> g[i] <= g[j]
  {
    PctLeIsTotalPreorder();
    var g := Sorting.Sort(grid, PctLe);
    assert Sorting.SortedBy(g, PctLe);
    g
  }

  /** Position of the baseline in the grid: its first occurrence, else 0. */
  function BaselineIndex(grid: seq<real>, baseline: real): (k: nat)
    requires |grid| > 0
    ensures k < |grid|
    ensures baseline in grid ==> grid[k] == baseline && forall j :: 0 <= j < k ==> grid[j] != baseline
    ensures baseline !in grid ==> k == 0
  {
    if baseline in grid then
      var k := FirstIndex(grid, baseline);
      assert forall j :: 0 <= j < k ==> grid[j] in grid[..k];
      k
    else 0
  }

  /** The arguments of `recommend_discount_item` other than the model and
      the popularity tables. */
  datatype Request = Request(
    amountLeft: real,
    expected: real,
    nowTs: int,
    windowEndTs: int,
    placeId: int,
    itemId: int,
    numItemsTargeted: int,
    grid: seq<real>,
    baselinePct: real,
    aggressiveness: real)

  const DefaultBaselinePct: real := 0.0
  const DefaultAggressiveness: real := 5.0

  /** Everything computed for the candidates on the way to a decision. */
  datatype Scores = Scores(
    grid: seq<real>,
    hours: real,
    weights: Weights,
    modelUnits: seq<real>,
    eqUnits: seq<real>,
    blended: seq<real>,
    baselineIndex: nat,
    baselineUnits: real,
    multiplier: seq<real>,
    adjusted: seq<real>,
    slack: real,
    required: real)

  /** One feature row per grid percentage, in grid order. */
  function Candidates(grid: seq<real>, hours: real, t: UtcTime, req: Request,
                      itemPrior: real, placePrior: real): (rows: seq<CandidateRow>)
    ensures |rows| == |grid|
    ensures forall i :: 0 <= i < |grid| ==> rows[i].pct == grid[i] && rows[i].itemId == req.itemId
  {
    seq(|grid|, i requires 0 <= i < |grid| =>
      CandidateFor(grid[i], hours, t, req.numItemsTargeted, req.placeId, req.itemId, itemPrior, placePrior))
  }

  /** The model's units per hour for each row: `clamp_expm1` of its log prediction. */
  function ModelUnits(rows: seq<CandidateRow>, predictLog: CandidateRow -> real, expm1: real -> real)
    : (units: seq<real>)
    ensures |units| == |rows|
    ensures forall i :: 0 <= i < |rows| ==> units[i] >= 0.0
    ensures forall i :: 0 <= i < |rows| ==> units[i] == ClampExpm1(predictLog(rows[i]), DefaultMaxLog, expm1)
  {
    seq(|rows|, i requires 0 <= i < |rows| => ClampExpm1(predictLog(rows[i]), DefaultMaxLog, expm1))
  }

  /** The curve's units per hour for each grid percentage. */
  function EqUnits(grid: seq<real>, amountLeft: real, expected: real, hours: real): (units: seq<real>)
    ensures |units| == |grid|
    ensures forall i :: 0 <= i < |grid| ==> units[i] == EqUnitsPerHour(amountLeft, expected, grid[i], hours, DefaultMaxBoost)
  {
    seq(|grid|, i requires 0 <= i < |grid| => EqUnitsPerHour(amountLeft, expected, grid[i], hours, DefaultMaxBoost))
  }

  /** The weighted blend of model and curve, candidate by candidate. */
  function Blend(w: Weights, model: seq<real>, eq: seq<real>): (b: seq<real>)
    requires |model| == |eq|
    ensures |b| == |model|
    ensures forall i :: 0 <= i < |b| ==> b[i] == w.wModel * model[i] + w.wEq * eq[i]
  {
    seq(|model|, i requires 0 <= i < |model| => w.wModel * model[i] + w.wEq * eq[i])
  }

  /** Each candidate's rate relative to the baseline's rate (floored at
      `WindowFloor`). */
  function RelativeToBaseline(blended: seq<real>, b: nat): (m: seq<real>)
    requires b < |blended|
    ensures |m| == |blended|
    ensures forall i :: 0 <= i < |m| ==> m[i] == blended[i] / MaxReal(blended[b], WindowFloor)
  {
    var d := MaxReal(blended[b], WindowFloor);
    seq(|blended|, i requires 0 <= i < |blended| => blended[i] / d)
  }

  /** The expected demand scaled by each candidate's relative rate. */
  function Adjusted(expected: real, multiplier: seq<real>): (a: seq<real>)
    ensures |a| == |multiplier|
    ensures forall i :: 0 <= i < |a| ==> a[i] == expected * multiplier[i]
  {
    seq(|multiplier|, i requires 0 <= i < |multiplier| => expected * multiplier[i])
  }

  datatype Recommendation = Recommendation(
    recommendedPct: real,
    predUnitsPerHour: real,
    baselineUnitsPerHour: real,
    multiplierVsBaseline: real,
    adjustedExpected: real,
    amountLeft: real,
    expected: real,
    windowHours: real,
    coverage: real,
    wModel: real,
    wEq: real,
    placeId: int,
    itemId: int,
    campaignSegment: string,
    numItemsTargeted: int,
    status: Status,
    aggressiveness: real,
    required: real,
    slack: real,
    reliefFraction: real,
    reliefRate: real)

  /** Per-candidate sequences of equal, non-zero length. */
  predicate WellShaped(s: Scores) {
    && |s.grid| > 0
    && |s.blended| == |s.grid| && |s.multiplier| == |s.grid| && |s.adjusted| == |s.grid|
  }

  /** The recommendation record for the chosen candidate. */
  function Report(req: Request, s: Scores, c: Choice): (r: Recommendation)
    requires WellShaped(s) && c.index < |s.grid|
    ensures r.recommendedPct == s.grid[c.index] && r.adjustedExpected == s.adjusted[c.index]
    ensures r.status == c.status && r.required == s.required
  {
    var k := c.index;
    Recommendation(s.grid[k], s.blended[k], s.baselineUnits, s.multiplier[k], s.adjusted[k],
                   req.amountLeft, req.expected, s.hours, s.weights.coverage, s.weights.wModel, s.weights.wEq,
                   req.placeId, req.itemId, "item_discount", req.numItemsTargeted, c.status,
                   req.aggressiveness, s.required, s.slack,
                   ReliefFraction(req.aggressiveness), ReliefRate(req.aggressiveness))
  }

  /** The decision over scored candidates. */
  function Decide(req: Request, s: Scores): (r: Recommendation)
    requires WellShaped(s)
    ensures r.recommendedPct in s.grid
  {
    Report(req, s, Choose(s.adjusted, s.required))
  }

  /** When some candidate reaches the target the recommendation is the
      smallest such grid percentage (the grid being ascending); otherwise it
      is the first candidate with the largest adjusted expectation. */
  lemma RecommendationRule(req: Request, s: Scores)
    requires WellShaped(s)
    requires forall i, j :: 0 <= i < j < |s.grid| ==> s.grid[i] <= s.grid[j]
    ensures var r := Decide(req, s);
            && (r.status == CanClearInventory <==> exists i :: 0 <= i < |s.grid| && s.adjusted[i] >= s.required)
            && (r.status == CanClearInventory ==>
                  r.adjustedExpected >= s.required
                  && forall j :: 0 <= j < |s.grid| && s.adjusted[j] >= s.required ==> r.recommendedPct <= s.grid[j])
            && (r.status == CannotClearChooseBestSellthrough ==>
                  exists k :: 0 <= k < |s.grid| && s.grid[k] == r.recommendedPct
                              && s.adjusted[k] == r.adjustedExpected
                              && (forall j :: 0 <= j < |s.grid| ==> s.adjusted[j] <= s.adjusted[k])
                              && (forall j :: 0 <= j < k ==> s.adjusted[j] < s.adjusted[k]))
  {
    var c := Choose(s.adjusted, s.required);
    var r := Decide(req, s);
    if c.status == CanClearInventory {
      forall j | 0 <= j < |s.grid| && s.adjusted[j] >= s.required
        ensures r.recommendedPct <= s.grid[j]
      {
        assert !(j < c.index);
      }
    } else {
      assert 0 <= c.index < |s.grid| && s.grid[c.index] == r.recommendedPct;
    }
  }

  function Score(req: Request, itemPrior: real, placePrior: real,
                 predictLog: CandidateRow -> real, expm1: real -> real): (s: Scores)
    requires |req.grid| > 0 && InPandasRange(req.nowTs)
    ensures WellShaped(s) && |s.grid| == |req.grid| && multiset(s.grid) == multiset(req.grid)
    ensures forall i, j :: 0 <= i < j < |s.grid| ==> s.grid[i] <= s.grid[j]
    ensures |s.modelUnits| == |s.grid| && |s.eqUnits| == |s.grid|
    ensures s.baselineIndex < |s.grid|
    ensures s.required >= 0.0 && s.hours >= WindowFloor
  {
    var g := SortedGrid(req.grid);
    var hours := WindowHours(req.nowTs, req.windowEndTs);
    var rows := Candidates(g, hours, UtcOf(req.nowTs), req, itemPrior, placePrior);
    var model := ModelUnits(rows, predictLog, expm1);
    var eq := EqUnits(g, req.amountLeft, req.expected, hours);
    var w := MapAggressiveness(req.aggressiveness);
    var blended := Blend(w, model, eq);
    var b := BaselineIndex(g, req.baselinePct);
    var multiplier := RelativeToBaseline(blended, b);
    var slack := Slack(req.amountLeft, ReliefFraction(req.aggressiveness), ReliefRate(req.aggressiveness), hours);
    Scores(g, hours, w, model, eq, blended, b, blended[b], multiplier, Adjusted(req.expected, multiplier),
           slack, Required(req.amountLeft, slack, w.coverage))
  }

  datatype DecisionError = OutOfBoundsDatetime | EmptyGrid

  /** `recommend_discount_item` without the debug frame. */
  function RecommendDiscountItem(req: Request, popItem: Option<seq<ItemPopularity>>,
                                 popPlace: Option<seq<PlacePopularity>>,
                                 predictLog: CandidateRow -> real, expm1: real -> real)
    : (r: Result<Recommendation, DecisionError>)
    ensures r.Failure? <==> !InPandasRange(req.nowTs) || |req.grid| == 0
    ensures !InPandasRange(req.nowTs) ==> r == Failure(OutOfBoundsDatetime)
    ensures r.Success? ==> r.value.recommendedPct in req.grid
    ensures r.Success? ==> r.value.required >= 0.0 && 0.2 <= r.value.wEq <= 0.8
    ensures r.Success? ==> r.value.itemId == req.itemId && r.value.placeId == req.placeId
    ensures r.Success? ==>
      r.value == Decide(req, Score(req, ItemPrior(popItem, req.placeId, req.itemId), PlacePrior(popPlace, req.placeId),
                                   predictLog, expm1))
  {
    if !InPandasRange(req.nowTs) then Failure(OutOfBoundsDatetime)
    else if |req.grid| == 0 then Failure(EmptyGrid)
    else
      var s := Score(req, ItemPrior(popItem, req.placeId, req.itemId), PlacePrior(popPlace, req.placeId),
                     predictLog, expm1);
      var r := Decide(req, s);
      assert r.recommendedPct in multiset(req.grid);
      Success(r)
  }

  /** When the baseline's blended rate is not negligible, the baseline
      candidate keeps exactly the expected demand. */
  lemma BaselineKeepsExpectation(blended: seq<real>, b: nat, expected: real)
    requires b < |blended| && blended[b] >= WindowFloor
    ensures RelativeToBaseline(blended, b)[b] == 1.0
    ensures Adjusted(expected, RelativeToBaseline(blended, b))[b] == expected
  {
  }

  /** With non-negative expected demand the curve's estimates are non-negative. */
  lemma EqUnitsNonNegative(grid: seq<real>, amountLeft: real, expected: real, hours: real)
    requires expected >= 0.0
    ensures forall i :: 0 <= i < |grid| ==> EqUnits(grid, amountLeft, expected, hours)[i] >= 0.0
  {
    forall i | 0 <= i < |grid|
      ensures EqUnits(grid, amountLeft, expected, hours)[i] >= 0.0
    {
      EqUnitsSign(amountLeft, expected, grid[i], hours, DefaultMaxBoost);
    }
  }

  /** Non-negative model and curve rates and non-negative expected demand
      give non-negative adjusted expectations. */
  lemma AdjustedNonNegative(w: Weights, model: seq<real>, eq: seq<real>, b: nat, expected: real)
    requires |model| == |eq| && b < |model|
    requires w.wModel >= 0.0 && w.wEq >= 0.0 && expected >= 0.0
    requires forall i :: 0 <= i < |model| ==> model[i] >= 0.0 && eq[i] >= 0.0
    ensures forall i :: 0 <= i < |model| ==> Adjusted(expected, RelativeToBaseline(Blend(w, model, eq), b))[i] >= 0.0
  {
    var blended := Blend(w, model, eq);
    var m := RelativeToBaseline(blended, b);
    var d := MaxReal(blended[b], WindowFloor);
    forall i | 0 <= i < |model|
      ensures Adjusted(expected, m)[i] >= 0.0
    {
      assert w.wModel * model[i] >= 0.0;
      assert w.wEq * eq[i] >= 0.0;
      assert m[i] == blended[i] / d;
      assert expected * m[i] >= 0.0;
    }
  }

  // ---------------------------------------------------------------------
  // recommend_discount_bill
  // ---------------------------------------------------------------------

  /** The bill-level request: the item is -1, no items are targeted and
      there is no item popularity table. */
  function RecommendDiscountBill(amountLeft: real, expected: real, nowTs: int, windowEndTs: int, placeId: int,
                                 grid: seq<real>, baselinePct: real, aggressiveness: real,
                                 popPlace: Option<seq<PlacePopularity>>,
                                 predictLog: CandidateRow -> real, expm1: real -> real)
    : (r: Result<Recommendation, DecisionError>)
    ensures r.Failure? <==> !InPandasRange(nowTs) || |grid| == 0
    ensures r.Success? ==> r.value.itemId == -1 && r.value.numItemsTargeted == 0
    ensures r.Success? ==> r.value.campaignSegment == "item_discount" && r.value.recommendedPct in grid
  {
    RecommendDiscountItem(Request(amountLeft, expected, nowTs, windowEndTs, placeId, -1, 0, grid,
                                  baselinePct, aggressiveness),
                          None, popPlace, predictLog, expm1)
  }

  /** The bill recommendation is the item recommendation for item -1 with
      no items targeted, under any item table that has no row for
      `(place, -1)`. */
  lemma BillIsItemWithoutPrior(amountLeft: real, expected: real, nowTs: int, windowEndTs: int, placeId: int,
                               grid: seq<real>, baselinePct: real, aggressiveness: real,
                               popItem: seq<ItemPopularity>, popPlace: Option<seq<PlacePopularity>>,
                               predictLog: CandidateRow -> real, expm1: real -> real)
    requires forall i :: 0 <= i < |popItem| ==> !(popItem[i].placeId == placeId && popItem[i].itemId == -1)
    ensures RecommendDiscountBill(amountLeft, expected, nowTs, windowEndTs, placeId, grid, baselinePct,
                                  aggressiveness, popPlace, predictLog, expm1)
            == RecommendDiscountItem(Request(amountLeft, expected, nowTs, windowEndTs, placeId, -1, 0, grid,
                                             baselinePct, aggressiveness),
                                     Some(popItem), popPlace, predictLog, expm1)
  {
    ItemPriorAbsent(popItem, placeId, -1);
  }
}
