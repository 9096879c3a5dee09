/** The training-time feature engineer (`FeatureEngineer.engineer_features`)
    and the cold-start feature row.

    The demand table is sorted by (item, place, date); every (item, place)
    group is then a contiguous run, and the group-wise pandas operations
    (`shift`, `rolling`, `ewm`, `ffill`) become the `Series` transforms on
    each run. Place aggregates are computed over the whole sorted table. The
    last row of every group has no target and is dropped; the lag and
    same-weekday columns are then forward-filled within the group and set
    to 0 where nothing precedes them. */
module Features {

  import opened Wrappers
  import opened Seqs
  import opened Calendar
  import opened Rows
  import opened Series
  import Sorting

  const LagPeriods: seq<nat> := [1, 2, 3, 7, 14, 30]
  const RollingWindows: seq<nat> := [7, 14, 30]
  const EmaAlphas: seq<real> := [0.3, 0.7]

  /** The `1e-6` added to the place total before dividing by it. */
  const ShareEpsilon: real := 0.000001

  /** The calendar columns of a row (ISO week and the sine/cosine
      encodings are not modelled). */
  datatype Temporal = Temporal(
    year: int,
    month: int,
    dayOfMonth: int,
    dayOfWeek: int,
    isWeekend: int,
    isMonthStart: int,
    isMonthEnd: int,
    quarter: int)

  function Flag(b: bool): int {
    if b then 1 else 0
  }

  /** `_add_temporal_features` for one date. */
  function TemporalOf(d: CalDate): (t: Temporal)
    ensures Date(t.year, t.month, t.dayOfMonth) == d
    ensures 0 <= t.dayOfWeek <= 6 && 1 <= t.quarter <= 4
    ensures t.isWeekend == 1 <==> t.dayOfWeek >= 5
    ensures t.isMonthStart == 1 <==> d.day <= 3
    ensures t.isMonthEnd == 1 <==> d.day >= 28
    ensures t.isWeekend in {0, 1} && t.isMonthStart in {0, 1} && t.isMonthEnd in {0, 1}
    ensures 3 * (t.quarter - 1) < d.month <= 3 * t.quarter
  {
    var dow := Weekday(d);
    Temporal(d.year, d.month, d.day, dow, Flag(dow >= 5), Flag(d.day <= 3), Flag(d.day >= 28), Quarter(d))
  }

  /** A day is a weekend day exactly when it falls five or six days after a Monday. */
  lemma WeekendIsSaturdayOrSunday(d: CalDate)
    ensures TemporalOf(d).isWeekend == 1 <==> Weekday(MondayOfWeek(d)) == 0 && DayNumber(d) - DayNumber(MondayOfWeek(d)) >= 5
  {
    var m := MondayOfWeek(d);
    assert DayNumber(m) % 7 == 0;
  }

  // ---------------------------------------------------------------------
  // Sorting and grouping

  /** The order of `sort_values(['item_id', 'place_id', 'date'])`. */
  predicate PairDateLe(a: DemandRecord, b: DemandRecord) {
    a.itemId < b.itemId
    || (a.itemId == b.itemId && a.placeId < b.placeId)
    || (a.itemId == b.itemId && a.placeId == b.placeId && DayNumber(a.date) <= DayNumber(b.date))
  }

  lemma PairDateLeTotal()
    ensures Sorting.TotalPreorder(PairDateLe)
  {
  }

  function SortRows(rows: seq<DemandRecord>): (t: seq<DemandRecord>)
    ensures Sorting.SortedBy(t, PairDateLe)
    ensures multiset(t) == multiset(rows)
    ensures |t| == |rows|
  {
    PairDateLeTotal();
    Sorting.Sort(rows, PairDateLe)
  }

  predicate SamePair(a: DemandRecord, b: DemandRecord) {
    a.itemId == b.itemId && a.placeId == b.placeId
  }

  /** The previous-day place aggregates attached to a row. */
  datatype PlaceFeatures = PlaceFeatures(totalDemand: real, uniqueItems: nat, rollingMean7: real)

  /** A sorted row with its place aggregates. */
  datatype Annotated = Annotated(rec: DemandRecord, place: PlaceFeatures)

  function Concat<T>(rs: seq<seq<T>>): (r: seq<T>)
    decreases |rs|
  {
    if |rs| == 0 then [] else rs[0] + Concat(rs[1..])
  }

  /** The maximal runs of consecutive rows of one (item, place) pair. */
  function Runs(t: seq<Annotated>): (rs: seq<seq<Annotated>>)
    ensures Concat(rs) == t
    ensures forall k :: 0 <= k < |rs| ==> |rs[k]| > 0
    ensures |t| > 0 ==> |rs| > 0 && rs[0][0] == t[0]
    ensures forall k, j :: 0 <= k < |rs| && 0 <= j < |rs[k]| ==> SamePair(rs[k][j].rec, rs[k][0].rec)
    ensures forall k :: 0 <= k < |rs| - 1 ==> !SamePair(rs[k][0].rec, rs[k + 1][0].rec)
    decreases |t|
  {
    if |t| == 0 then []
    else
      var rest := Runs(t[1..]);
      if |rest| > 0 && SamePair(t[0].rec, rest[0][0].rec) then
        var rs := [[t[0]] + rest[0]] + rest[1..];
        assert rest == [rest[0]] + rest[1..];
        assert Concat(rest) == rest[0] + Concat(rest[1..]);
        assert rs[1..] == rest[1..];
        assert Concat(rs) == [t[0]] + rest[0] + Concat(rest[1..]);
        assert t == [t[0]] + t[1..];
        rs
      else
        var rs := [[t[0]]] + rest;
        assert rs[1..] == rest;
        assert t == [t[0]] + t[1..];
        rs
  }

  /** In a table sorted by (item, place, date) each pair occupies exactly one
      run, so per-run transforms are the pandas group-wise transforms, and
      within a run the dates ascend. */
  lemma RunsAreGroups(t: seq<Annotated>)
    requires forall i, j :: 0 <= i < j < |t| ==> PairDateLe(t[i].rec, t[j].rec)
    ensures forall k, l :: 0 <= k < l < |Runs(t)| ==> !SamePair(Runs(t)[k][0].rec, Runs(t)[l][0].rec)
    ensures forall k, i, j :: 0 <= k < |Runs(t)| && 0 <= i < j < |Runs(t)[k]| ==>
              DayNumber(Runs(t)[k][i].rec.date) <= DayNumber(Runs(t)[k][j].rec.date)
  {
    var rs: seq<seq<Annotated>> := Runs(t);
    forall k, l | 0 <= k < l < |rs|
      ensures !SamePair(rs[k][0].rec, rs[l][0].rec)
    {
      assert !SamePair(rs[k][0].rec, rs[k + 1][0].rec);
      LaterRunsDiffer(t, rs, k, l);
    }
    forall k, i, j | 0 <= k < |rs| && 0 <= i < j < |rs[k]|
      ensures DayNumber(rs[k][i].rec.date) <= DayNumber(rs[k][j].rec.date)
    {
      RunStartBounds(rs, k);
      RunElement(rs, k, i);
      RunElement(rs, k, j);
      assert PairDateLe(t[RunStart(rs, k) + i].rec, t[RunStart(rs, k) + j].rec);
    }
  }

  lemma LaterRunsDiffer(t: seq<Annotated>, rs: seq<seq<Annotated>>, k: nat, l: nat)
    requires forall i, j :: 0 <= i < j < |t| ==> PairDateLe(t[i].rec, t[j].rec)
    requires Concat(rs) == t && forall m :: 0 <= m < |rs| ==> |rs[m]| > 0
    requires k < l < |rs|
    requires !SamePair(rs[k][0].rec, rs[k + 1][0].rec)
    ensures !SamePair(rs[k][0].rec, rs[l][0].rec)
  {
    var a := RunStart(rs, k);
    var b := RunStart(rs, l);
    var c := RunStart(rs, k + 1);
    RunStartBounds(rs, k);
    RunStartMonotone(rs, k + 1, l);
    RunElement(rs, k, 0);
    RunElement(rs, k + 1, 0);
    RunElement(rs, l, 0);
    if c < b {
      PairLeavesForGood(t[a].rec, t[c].rec, t[b].rec);
    }
  }

  /** Once the sorted order leaves a pair it does not come back to it. */
  lemma PairLeavesForGood(x: DemandRecord, y: DemandRecord, z: DemandRecord)
    requires PairDateLe(x, y) && PairDateLe(y, z) && !SamePair(x, y)
    ensures !SamePair(x, z)
  {
  }

  /** Index in the concatenation where run `k` begins. */
  function RunStart<T>(rs: seq<seq<T>>, k: nat): nat
    requires k <= |rs|
  {
    |Concat(rs[..k])|
  }

  lemma {:induction false} ConcatAppend<T>(a: seq<seq<T>>, b: seq<seq<T>>)
    ensures Concat(a + b) == Concat(a) + Concat(b)
    decreases |a|
  {
    if |a| == 0 {
      assert a + b == b;
    } else {
      assert (a + b)[1..] == a[1..] + b;
      ConcatAppend(a[1..], b);
    }
  }

  lemma RunStartBounds<T>(rs: seq<seq<T>>, k: nat)
    requires k < |rs|
    ensures RunStart(rs, k) + |rs[k]| <= |Concat(rs)|
    ensures RunStart(rs, k + 1) == RunStart(rs, k) + |rs[k]|
  {
    assert rs[..k + 1] == rs[..k] + [rs[k]];
    ConcatAppend(rs[..k], [rs[k]]);
    assert Concat([rs[k]]) == rs[k];
    assert rs == rs[..k + 1] + rs[k + 1..];
    ConcatAppend(rs[..k + 1], rs[k + 1..]);
  }

  lemma RunStartMonotone<T>(rs: seq<seq<T>>, k: nat, l: nat)
    requires k <= l <= |rs|
    ensures RunStart(rs, k) <= RunStart(rs, l)
  {
    assert rs[..l] == rs[..k] + rs[k..l];
    ConcatAppend(rs[..k], rs[k..l]);
  }

  lemma RunElement<T>(rs: seq<seq<T>>, k: nat, i: nat)
    requires k < |rs| && i < |rs[k]|
    ensures RunStart(rs, k) + i < |Concat(rs)|
    ensures Concat(rs)[RunStart(rs, k) + i] == rs[k][i]
  {
    RunStartBounds(rs, k);
    assert rs == rs[..k] + [rs[k]] + rs[k + 1..];
    ConcatAppend(rs[..k] + [rs[k]], rs[k + 1..]);
    ConcatAppend(rs[..k], [rs[k]]);
    assert Concat([rs[k]]) == rs[k];
  }

  // ---------------------------------------------------------------------
  // Place aggregates

  /** Total demand of place `p` on the day before `d`, over the whole table
      (0 when the place has no row that day). */
  function PlaceDayTotal(t: seq<DemandRecord>, p: int, d: CalDate): real
    decreases |t|
  {
    if |t| == 0 then 0.0
    else
      (if t[0].placeId == p && NextDay(t[0].date) == d then t[0].demand else 0.0)
      + PlaceDayTotal(t[1..], p, d)
  }

  /** The distinct items place `p` sold on the day before `d`. */
  function PlaceDayItems(t: seq<DemandRecord>, p: int, d: CalDate): set<int> {
    set j | 0 <= j < |t| && t[j].placeId == p && NextDay(t[j].date) == d :: t[j].itemId
  }

  /** The values at the positions whose key is `p`, in order. */
  function SelectWhere(vals: seq<real>, keys: seq<int>, p: int): (r: seq<real>)
    requires |vals| == |keys|
    ensures |keys| > 0 && keys[|keys| - 1] == p ==> |r| > 0 && r[|r| - 1] == vals[|vals| - 1]
    decreases |vals|
  {
    if |vals| == 0 then []
    else
      var init := SelectWhere(vals[..|vals| - 1], keys[..|keys| - 1], p);
      if keys[|keys| - 1] == p then init + [vals[|vals| - 1]] else init
  }

  /** Every row's previous-day place total, in table order. */
  function PlaceTotals(t: seq<DemandRecord>): (r: seq<real>)
    ensures |r| == |t|
  {
    seq(|t|, g requires 0 <= g < |t| => PlaceDayTotal(t, t[g].placeId, t[g].date))
  }

  function PlaceIds(t: seq<DemandRecord>): (r: seq<int>)
    ensures |r| == |t|
  {
    seq(|t|, g requires 0 <= g < |t| => t[g].placeId)
  }

  /** The place totals of the rows of row `g`'s place up to and including `g`,
      in table order (what `groupby('place_id').transform(rolling)` sees). */
  function PlaceSeries(t: seq<DemandRecord>, g: nat): (ys: seq<real>)
    requires g < |t|
    ensures |ys| > 0 && ys[|ys| - 1] == PlaceDayTotal(t, t[g].placeId, t[g].date)
  {
    SelectWhere(PlaceTotals(t)[..g + 1], PlaceIds(t)[..g + 1], t[g].placeId)
  }

  /** `_add_place_features` for row `g` of the sorted table. */
  function PlaceFeaturesAt(t: seq<DemandRecord>, g: nat): (f: PlaceFeatures)
    requires g < |t|
    ensures f.totalDemand == PlaceDayTotal(t, t[g].placeId, t[g].date)
    ensures f.uniqueItems == |PlaceDayItems(t, t[g].placeId, t[g].date)|
  {
    var ys := PlaceSeries(t, g);
    PlaceFeatures(ys[|ys| - 1], |PlaceDayItems(t, t[g].placeId, t[g].date)|, RollingMean(ys, 7)[|ys| - 1])
  }

  /** The place rolling mean averages the last seven (or fewer) place totals
      of that place in table order, ending with the row's own total. */
  lemma PlaceRollingMeanWindow(t: seq<DemandRecord>, g: nat)
    requires g < |t|
    ensures PlaceFeaturesAt(t, g).rollingMean7 == Mean(TakeLast(PlaceSeries(t, g), 7))
  {
    var ys := PlaceSeries(t, g);
    assert Window(ys, 7, |ys| - 1) == TakeLast(ys, 7);
  }

  /** Sum of a place's demand on one day, independently: over all rows dated
      the day before `d`. */
  lemma {:induction false} PlaceDayTotalNoRows(t: seq<DemandRecord>, p: int, d: CalDate)
    requires forall j :: 0 <= j < |t| ==> NextDay(t[j].date) != d
    ensures PlaceDayTotal(t, p, d) == 0.0
    ensures PlaceDayItems(t, p, d) == {}
    decreases |t|
  {
    if |t| > 0 {
      PlaceDayTotalNoRows(t[1..], p, d);
    }
  }

  /** A Monday never follows a Monday. */
  lemma MondayNotAfterMonday(x: CalDate, d: CalDate)
    requires Weekday(x) == 0 && Weekday(d) == 0
    ensures NextDay(x) != d
  {
    SuccessorOfMultiple(DayNumber(x));
    assert Weekday(NextDay(x)) == 1;
  }

  lemma SuccessorOfMultiple(n: int)
    requires n % 7 == 0
    ensures (n + 1) % 7 == 1
  {
  }

  /** A first of the month never follows a first of the month. */
  lemma FirstNotAfterFirst(x: CalDate, d: CalDate)
    requires x.day == 1 && d.day == 1
    ensures NextDay(x) != d
  {
    assert NextDay(x).day == 2;
  }

  /** In a weekly table (every date a Monday) no row is dated the day before
      another, so every previous-day place aggregate is 0. */
  lemma WeeklyTablesHaveNoPlaceHistory(t: seq<DemandRecord>, g: nat)
    requires g < |t|
    requires forall j :: 0 <= j < |t| ==> Weekday(t[j].date) == 0
    ensures PlaceFeaturesAt(t, g).totalDemand == 0.0
    ensures PlaceFeaturesAt(t, g).uniqueItems == 0
  {
    var d := t[g].date;
    forall j | 0 <= j < |t|
      ensures NextDay(t[j].date) != d
    {
      MondayNotAfterMonday(t[j].date, d);
    }
    PlaceDayTotalNoRows(t, t[g].placeId, d);
  }

  /** Likewise in a monthly table, where every date is the first of a month. */
  lemma MonthlyTablesHaveNoPlaceHistory(t: seq<DemandRecord>, g: nat)
    requires g < |t|
    requires forall j :: 0 <= j < |t| ==> t[j].date.day == 1
    ensures PlaceFeaturesAt(t, g).totalDemand == 0.0
    ensures PlaceFeaturesAt(t, g).uniqueItems == 0
  {
    var d := t[g].date;
    forall j | 0 <= j < |t|
      ensures NextDay(t[j].date) != d
    {
      FirstNotAfterFirst(t[j].date, d);
    }
    PlaceDayTotalNoRows(t, t[g].placeId, d);
  }

  // ---------------------------------------------------------------------
  // Group-wise features

  /** The raw (before fill) same-weekday column: the previous row of the group
      falling on the same weekday. */
  function LatestSameWeekday(run: seq<Annotated>, i: nat, j: nat): (r: Option<nat>)
    requires i < |run| && j <= i
    ensures r.Some? ==> r.value < j && Weekday(run[r.value].rec.date) == Weekday(run[i].rec.date)
    ensures r.Some? ==> forall m :: r.value < m < j ==> Weekday(run[m].rec.date) != Weekday(run[i].rec.date)
    ensures r.None? ==> forall m :: 0 <= m < j ==> Weekday(run[m].rec.date) != Weekday(run[i].rec.date)
    decreases j
  {
    if j == 0 then None
    else if Weekday(run[j - 1].rec.date) == Weekday(run[i].rec.date) then Some(j - 1)
    else LatestSameWeekday(run, i, j - 1)
  }

  function SameWeekdayColumn(run: seq<Annotated>): (c: seq<Option<real>>)
    ensures |c| == |run|
  {
    seq(|run|, i requires 0 <= i < |run| =>
      match LatestSameWeekday(run, i, i)
      case Some(j) => Some(run[j].rec.demand)
      case None => None)
  }

  function Demands(run: seq<Annotated>): (xs: seq<real>)
    ensures |xs| == |run|
    ensures forall i :: 0 <= i < |run| ==> xs[i] == run[i].rec.demand
  {
    seq(|run|, i requires 0 <= i < |run| => run[i].rec.demand)
  }

  /** One engineered training row: kept row `pos` of its (item, place) group.
      Its columns are the accessor functions below, each computed from the
      group as the pandas group-wise operation computes it. */
  datatype FeatureRow = FeatureRow(group: seq<Annotated>, pos: nat)

  /** A kept row has a successor in its group (the last row has no target). */
  predicate Kept(r: FeatureRow) {
    r.pos + 1 < |r.group|
  }

  function RecordOf(r: FeatureRow): DemandRecord
    requires Kept(r)
  {
    r.group[r.pos].rec
  }

  function TemporalOfRow(r: FeatureRow): Temporal
    requires Kept(r)
  {
    TemporalOf(RecordOf(r).date)
  }

  /** `demand_lag_k` for k in `LagPeriods`, after the within-group fill. */
  function Lags(r: FeatureRow): (v: seq<real>)
    requires Kept(r)
    ensures |v| == |LagPeriods|
  {
    LagValues(Demands(r.group), |r.group| - 1, r.pos)
  }

  /** `demand_same_dow` after the within-group fill. */
  function SameDow(r: FeatureRow): real
    requires Kept(r)
  {
    FillForwardThenZero(SameWeekdayColumn(r.group)[..|r.group| - 1])[r.pos]
  }

  /** `demand_rolling_mean_w` for w in `RollingWindows` (never missing, so the
      fill leaves them as computed). */
  function RollingMeans(r: FeatureRow): (v: seq<real>)
    requires Kept(r)
    ensures |v| == |RollingWindows|
  {
    RollingValues(Demands(r.group), r.pos)
  }

  /** `demand_rolling_std_w` for w in `RollingWindows`, after its `fillna(0)`;
      `std` is the sample standard deviation. */
  function RollingStds(r: FeatureRow, std: seq<real> -> real): (v: seq<real>)
    requires Kept(r)
    ensures |v| == |RollingWindows|
    ensures forall m :: 0 <= m < |RollingWindows| ==> v[m] == RollingStdAt(Demands(r.group), RollingWindows[m], r.pos, std)
  {
    var xs := Demands(r.group);
    seq(|RollingWindows|, m requires 0 <= m < |RollingWindows| => RollingStdAt(xs, RollingWindows[m], r.pos, std))
  }

  /** `demand_ema_a` for a in `EmaAlphas` (never missing either). */
  function Emas(r: FeatureRow): (v: seq<real>)
    requires Kept(r)
    ensures |v| == |EmaAlphas|
  {
    EmaValues(Demands(r.group), r.pos)
  }

  /** `place_total_demand`, `place_unique_items` and `place_demand_rolling_mean_7`. */
  function PlaceOf(r: FeatureRow): PlaceFeatures
    requires Kept(r)
  {
    r.group[r.pos].place
  }

  /** `item_share_of_place`. */
  function ItemShareOfPlace(r: FeatureRow): Option<real>
    requires Kept(r)
  {
    Share(RecordOf(r).demand, PlaceOf(r).totalDemand)
  }

  /** `target`: the next row's demand in the group. */
  function Target(r: FeatureRow): real
    requires Kept(r)
  {
    r.group[r.pos + 1].rec.demand
  }

  /** `demand / (place_total_demand + 1e-6)`; a zero denominator gives an
      infinite or undefined share, shown as `None`. */
  function Share(demand: real, placeTotal: real): (r: Option<real>)
    ensures r.Some? <==> placeTotal + ShareEpsilon != 0.0
  {
    if placeTotal + ShareEpsilon == 0.0 then None else Some(demand / (placeTotal + ShareEpsilon))
  }

  /** The share times the padded place total gives back the row's demand. */
  lemma ShareScalesBack(demand: real, placeTotal: real)
    requires placeTotal + ShareEpsilon != 0.0
    ensures Share(demand, placeTotal).value * (placeTotal + ShareEpsilon) == demand
  {
  }

  /** Lag `k` of kept row `i`, filled within the first `n` rows. */
  function FilledLag(xs: seq<real>, n: nat, i: nat, k: nat): real
    requires i < n <= |xs| && k >= 1
  {
    FillForwardThenZero(Lag(xs, k)[..n])[i]
  }

  /** The filled lag columns of kept row `i` of a group, in `LagPeriods` order. */
  function LagValues(xs: seq<real>, n: nat, i: nat): (r: seq<real>)
    requires i < n <= |xs|
    ensures |r| == |LagPeriods|
    ensures forall m :: 0 <= m < |LagPeriods| ==> LagPeriods[m] >= 1 && r[m] == FilledLag(xs, n, i, LagPeriods[m])
  {
    seq(|LagPeriods|, m requires 0 <= m < |LagPeriods| => FilledLag(xs, n, i, LagPeriods[m]))
  }

  /** Each filled lag is the demand `k` rows back within the group, or 0
      when the group has no row that far back. */
  lemma LagValuesSpec(xs: seq<real>, n: nat, i: nat)
    requires i < n <= |xs|
    ensures forall m :: 0 <= m < |LagPeriods| ==>
      LagValues(xs, n, i)[m] == if i >= LagPeriods[m] then xs[i - LagPeriods[m]] else 0.0
  {
    forall m | 0 <= m < |LagPeriods|
      ensures LagValues(xs, n, i)[m] == if i >= LagPeriods[m] then xs[i - LagPeriods[m]] else 0.0
    {
      var k := LagPeriods[m];
      assert Lag(xs, k)[..n] == Lag(xs[..n], k);
      Series.LagFilled(xs[..n], k, i);
    }
  }

  /** The rolling means of row `i`, in `RollingWindows` order. */
  function RollingValues(xs: seq<real>, i: nat): (r: seq<real>)
    requires i < |xs|
    ensures |r| == |RollingWindows|
  {
    [RollingMean(xs, 7)[i], RollingMean(xs, 14)[i], RollingMean(xs, 30)[i]]
  }

  /** `rolling(window=w, min_periods=1).std()` at row `i`: the sample
      standard deviation of the trailing window, which pandas leaves NaN for
      a window of one value; `fillna(0)` turns that into 0. */
  function RollingStdAt(xs: seq<real>, w: nat, i: nat, std: seq<real> -> real): real
    requires w >= 1 && i < |xs|
  {
    var ys := Window(xs, w, i);
    if |ys| == 1 then 0.0 else std(ys)
  }

  /** The EMAs of row `i`, in `EmaAlphas` order. */
  function EmaValues(xs: seq<real>, i: nat): (r: seq<real>)
    requires i < |xs|
    ensures |r| == |EmaAlphas|
  {
    [Ema(xs, 0.3)[i], Ema(xs, 0.7)[i]]
  }

  /** The kept rows of one group from row `i` on: every row but the last. */
  function GroupRowsFrom(run: seq<Annotated>, i: nat): (r: seq<FeatureRow>)
    ensures |r| == if i + 1 < |run| then |run| - 1 - i else 0
    ensures forall j :: 0 <= j < |r| ==> r[j] == FeatureRow(run, i + j) && Kept(r[j])
    decreases |run| - i
  {
    if i + 1 >= |run| then [] else [FeatureRow(run, i)] + GroupRowsFrom(run, i + 1)
  }

  function GroupRows(run: seq<Annotated>): (r: seq<FeatureRow>)
    requires |run| > 0
    ensures |r| == |run| - 1
    ensures forall i :: 0 <= i < |run| - 1 ==> r[i] == FeatureRow(run, i) && Kept(r[i])
  {
    GroupRowsFrom(run, 0)
  }

  function AllGroupRows(rs: seq<seq<Annotated>>): (r: seq<FeatureRow>)
    requires forall k :: 0 <= k < |rs| ==> |rs[k]| > 0
    ensures |r| + |rs| == |Concat(rs)|
    ensures forall x :: x in r ==> Kept(x) && x.group in rs
    decreases |rs|
  {
    if |rs| == 0 then [] else GroupRows(rs[0]) + AllGroupRows(rs[1..])
  }

  function Annotate(t: seq<DemandRecord>): (a: seq<Annotated>)
    ensures |a| == |t|
    ensures forall g :: 0 <= g < |t| ==> a[g].rec == t[g]
  {
    seq(|t|, g requires 0 <= g < |t| => Annotated(t[g], PlaceFeaturesAt(t, g)))
  }

  /** `engineer_features` without the optional item and menu merges. */
  function EngineerFeatures(demand: seq<DemandRecord>): (r: seq<FeatureRow>)
  {
    var t := SortRows(demand);
    AllGroupRows(Runs(Annotate(t)))
  }

  /** The engineered table drops exactly one row (the last) per group; every
      row is a kept row of a group of the sorted table, whose rows all share
      one (item, place) pair, are dated in ascending order, and come from the
      input. */
  lemma EngineerShape(demand: seq<DemandRecord>)
    ensures |EngineerFeatures(demand)| + |Runs(Annotate(SortRows(demand)))| == |demand|
    ensures forall x :: x in EngineerFeatures(demand) ==>
      && Kept(x)
      && x.group in Runs(Annotate(SortRows(demand)))
      && (forall j :: 0 <= j < |x.group| ==> SamePair(x.group[j].rec, RecordOf(x)) && x.group[j].rec in multiset(demand))
      && DatedInOrder(x.group)
  {
    forall x | x in EngineerFeatures(demand)
      ensures && Kept(x)
              && x.group in Runs(Annotate(SortRows(demand)))
              && (forall j :: 0 <= j < |x.group| ==> SamePair(x.group[j].rec, RecordOf(x)) && x.group[j].rec in multiset(demand))
              && DatedInOrder(x.group)
    {
      EngineeredRow(demand, x);
    }
  }

  /** The rows of a group are dated in ascending order. */
  predicate DatedInOrder(run: seq<Annotated>) {
    forall i, j :: 0 <= i < j < |run| ==> DayNumber(run[i].rec.date) <= DayNumber(run[j].rec.date)
  }

  lemma EngineeredRow(demand: seq<DemandRecord>, x: FeatureRow)
    requires x in EngineerFeatures(demand)
    ensures Kept(x) && x.group in Runs(Annotate(SortRows(demand)))
    ensures forall j :: 0 <= j < |x.group| ==> SamePair(x.group[j].rec, RecordOf(x)) && x.group[j].rec in multiset(demand)
    ensures DatedInOrder(x.group)
  {
    var t := SortRows(demand);
    var rs := Runs(Annotate(t));
    assert EngineerFeatures(demand) == AllGroupRows(rs);
    assert Kept(x) && x.group in rs;
    var k :| 0 <= k < |rs| && rs[k] == x.group;
    RunOfSortedTable(t, k, x.group);
    RowOfRun(x, multiset(t));
  }

  /** A kept row inherits the facts about its group. */
  lemma RowOfRun(x: FeatureRow, m: multiset<DemandRecord>)
    requires Kept(x)
    requires forall j :: 0 <= j < |x.group| ==> SamePair(x.group[j].rec, x.group[0].rec) && x.group[j].rec in m
    ensures forall j :: 0 <= j < |x.group| ==> SamePair(x.group[j].rec, RecordOf(x)) && x.group[j].rec in m
  {
  }

  /** A run of a sorted table holds one pair, ascending dates, and rows of the table. */
  lemma RunOfSortedTable(t: seq<DemandRecord>, k: nat, run: seq<Annotated>)
    requires Sorting.SortedBy(t, PairDateLe)
    requires k < |Runs(Annotate(t))| && run == Runs(Annotate(t))[k]
    ensures forall j :: 0 <= j < |run| ==> SamePair(run[j].rec, run[0].rec) && run[j].rec in multiset(t)
    ensures DatedInOrder(run)
  {
    var a := Annotate(t);
    assert forall i, j :: 0 <= i < j < |a| ==> PairDateLe(a[i].rec, a[j].rec);
    RunsAreGroups(a);
    forall j | 0 <= j < |Runs(a)[k]|
      ensures Runs(a)[k][j].rec in multiset(t)
    {
      RunRowFromTable(t, k, j);
    }
  }

  /** Every row of a run comes from the table the runs were cut from. */
  lemma RunRowFromTable(t: seq<DemandRecord>, k: nat, j: nat)
    requires k < |Runs(Annotate(t))| && j < |Runs(Annotate(t))[k]|
    ensures Runs(Annotate(t))[k][j].rec in multiset(t)
  {
    var a := Annotate(t);
    var rs := Runs(a);
    RunElement(rs, k, j);
    var g := RunStart(rs, k) + j;
    assert a[g].rec == t[g];
  }

  // ---------------------------------------------------------------------
  // Properties of the group-wise features

  lemma GroupRowBasics(run: seq<Annotated>, i: nat)
    requires i < |run| - 1
    ensures RecordOf(FeatureRow(run, i)) == run[i].rec
    ensures Target(FeatureRow(run, i)) == run[i + 1].rec.demand
  {
  }

  lemma GroupLag(run: seq<Annotated>, i: nat, m: nat)
    requires i < |run| - 1 && m < |LagPeriods|
    ensures Lags(FeatureRow(run, i))[m] == if i >= LagPeriods[m] then run[i - LagPeriods[m]].rec.demand else 0.0
  {
    var xs := Demands(run);
    var k := LagPeriods[m];
    assert Lags(FeatureRow(run, i))[m] == FilledLag(xs, |run| - 1, i, k);
    FillPrefix(Lag(xs, k), |run| - 1, i);
    LagFilled(xs, k, i);
  }

  lemma GroupRolling(run: seq<Annotated>, i: nat, m: nat)
    requires i < |run| - 1 && m < |RollingWindows|
    ensures RollingMeans(FeatureRow(run, i))[m] == Mean(Window(Demands(run), RollingWindows[m], i))
  {
    assert RollingMeans(FeatureRow(run, i))[m] == RollingMean(Demands(run), RollingWindows[m])[i];
  }

  lemma GroupStd(run: seq<Annotated>, i: nat, m: nat, std: seq<real> -> real)
    requires i < |run| - 1 && m < |RollingWindows|
    ensures RollingStds(FeatureRow(run, i), std)[m]
            == if i == 0 then 0.0 else std(Window(Demands(run), RollingWindows[m], i))
  {
    StdAtFirstRow(Demands(run), RollingWindows[m], i, std);
  }

  /** A window of two or more rows holds one value only at the first row. */
  lemma StdAtFirstRow(xs: seq<real>, w: nat, i: nat, std: seq<real> -> real)
    requires w >= 2 && i < |xs|
    ensures RollingStdAt(xs, w, i, std) == if i == 0 then 0.0 else std(Window(xs, w, i))
  {
  }

  lemma GroupStds(run: seq<Annotated>, i: nat, std: seq<real> -> real)
    requires i < |run| - 1
    ensures forall m :: 0 <= m < |RollingWindows| ==>
      RollingStds(FeatureRow(run, i), std)[m] == if i == 0 then 0.0 else std(Window(Demands(run), RollingWindows[m], i))
  {
    forall m | 0 <= m < |RollingWindows| {
      GroupStd(run, i, m, std);
    }
  }

  lemma GroupEma(run: seq<Annotated>, i: nat, m: nat)
    requires i < |run| - 1 && m < |EmaAlphas|
    ensures i >= 1 ==> (Emas(FeatureRow(run, i))[m] ==
      EmaAlphas[m] * run[i].rec.demand + (1.0 - EmaAlphas[m]) * Emas(FeatureRow(run, i - 1))[m])
    ensures i == 0 ==> Emas(FeatureRow(run, i))[m] == run[0].rec.demand
  {
    var xs := Demands(run);
    assert Emas(FeatureRow(run, i))[m] == Ema(xs, EmaAlphas[m])[i];
    if i >= 1 {
      assert Emas(FeatureRow(run, i - 1))[m] == Ema(xs, EmaAlphas[m])[i - 1];
      EmaRecurrence(xs, EmaAlphas[m], i);
    }
  }

  /** Within a group, the target is the next row's demand; lag k is the demand
      k rows earlier, 0 when the group has fewer earlier rows; each rolling
      mean averages its trailing window including the current row; each EMA
      follows its recurrence. */
  lemma GroupRowSpec(run: seq<Annotated>, i: nat, std: seq<real> -> real)
    requires i < |run| - 1
    ensures RecordOf(FeatureRow(run, i)) == run[i].rec
    ensures Target(FeatureRow(run, i)) == run[i + 1].rec.demand
    ensures forall m :: 0 <= m < |LagPeriods| ==>
      Lags(FeatureRow(run, i))[m] == if i >= LagPeriods[m] then run[i - LagPeriods[m]].rec.demand else 0.0
    ensures forall m :: 0 <= m < |RollingWindows| ==>
      RollingMeans(FeatureRow(run, i))[m] == Mean(Window(Demands(run), RollingWindows[m], i))
    ensures i >= 1 ==> forall m :: 0 <= m < |EmaAlphas| ==>
      Emas(FeatureRow(run, i))[m] == EmaAlphas[m] * run[i].rec.demand + (1.0 - EmaAlphas[m]) * Emas(FeatureRow(run, i - 1))[m]
    ensures i == 0 ==> forall m :: 0 <= m < |EmaAlphas| ==> Emas(FeatureRow(run, i))[m] == run[0].rec.demand
    ensures i == 0 ==> forall m :: 0 <= m < |RollingWindows| ==> RollingStds(FeatureRow(run, i), std)[m] == 0.0
    ensures i >= 1 ==> forall m :: 0 <= m < |RollingWindows| ==>
      RollingStds(FeatureRow(run, i), std)[m] == std(Window(Demands(run), RollingWindows[m], i))
  {
    GroupRowBasics(run, i);
    forall m | 0 <= m < |LagPeriods| {
      GroupLag(run, i, m);
    }
    forall m | 0 <= m < |RollingWindows| {
      GroupRolling(run, i, m);
    }
    forall m | 0 <= m < |EmaAlphas| {
      GroupEma(run, i, m);
    }
    GroupStds(run, i, std);
  }

  /** Filling a prefix fills each kept position as filling the whole column does. */
  lemma FillPrefix(xs: seq<Option<real>>, n: nat, i: nat)
    requires i < n <= |xs|
    ensures FillForwardThenZero(xs[..n])[i] == FillForwardThenZero(xs)[i]
  {
    FillForwardSpec(xs[..n], i);
    FillForwardSpec(xs, i);
    assert xs[..n][..i + 1] == xs[..i + 1];
  }

  /** `demand_same_dow` is the demand of the latest earlier row of the group
      on the same weekday; without one it carries the previous kept row's
      value forward (the column name contains "ema", so the lag fill applies),
      and is 0 in the group's first row. */
  lemma SameWeekdaySpec(run: seq<Annotated>, i: nat)
    requires i < |run| - 1
    ensures LatestSameWeekday(run, i, i).Some? ==>
      SameDow(FeatureRow(run, i)) == run[LatestSameWeekday(run, i, i).value].rec.demand
    ensures LatestSameWeekday(run, i, i).None? && i > 0 ==>
      SameDow(FeatureRow(run, i)) == SameDow(FeatureRow(run, i - 1))
    ensures i == 0 ==> SameDow(FeatureRow(run, i)) == 0.0
  {
    var c := SameWeekdayColumn(run)[..|run| - 1];
    assert SameDow(FeatureRow(run, i)) == FillForwardThenZero(c)[i];
    match LatestSameWeekday(run, i, i)
    case Some(j) =>
      NoGapsUnchanged(c, i);
    case None =>
      if i == 0 {
        FillStartsAtZero(c);
      } else {
        FillCarries(c, i);
        assert SameDow(FeatureRow(run, i - 1)) == FillForwardThenZero(c)[i - 1];
      }
  }

  /** A group whose every demand is `c` yields, from row 30 on, lags, rolling
      means and EMAs all equal to `c`: the values the cold-start row assumes. */
  lemma ConstantGroupFeatures(run: seq<Annotated>, c: real, i: nat)
    requires forall j :: 0 <= j < |run| ==> run[j].rec.demand == c
    requires 30 <= i < |run| - 1
    ensures forall m :: 0 <= m < |LagPeriods| ==> Lags(FeatureRow(run, i))[m] == c
    ensures forall m :: 0 <= m < |RollingWindows| ==> RollingMeans(FeatureRow(run, i))[m] == c
    ensures forall m :: 0 <= m < |EmaAlphas| ==> Emas(FeatureRow(run, i))[m] == c
    ensures Target(FeatureRow(run, i)) == c
  {
    GroupRowSpec(run, i, (ys: seq<real>) => 0.0);
    var xs := Demands(run);
    forall m | 0 <= m < |RollingWindows|
      ensures RollingMeans(FeatureRow(run, i))[m] == c
    {
      MeanOfConstant(Window(xs, RollingWindows[m], i), c);
    }
    forall m | 0 <= m < |EmaAlphas|
      ensures Emas(FeatureRow(run, i))[m] == c
    {
      EmaWithin(xs, EmaAlphas[m], c, c);
    }
  }

  // ---------------------------------------------------------------------
  // Cold start

  /** The statistics a cold-start row is built from; `avgPrice` may be absent. */
  datatype GlobalStats = GlobalStats(avgDemand: real, avgPrice: Option<real>, avgPlaceDemand: real)

  const DefaultGlobalStats: GlobalStats := GlobalStats(5.0, Some(50.0), 100.0)

  /** The single feature row `get_cold_start_features` builds. */
  datatype ColdStartRow = ColdStartRow(
    itemId: int,
    placeId: int,
    date: CalDate,
    temporal: Temporal,
    lags: seq<real>,
    rollingMeans: seq<real>,
    rollingStds: seq<real>,
    emas: seq<real>,
    sameDow: real,
    placeTotalDemand: real,
    placeUniqueItems: real,
    placeRollingMean7: real,
    price: real,
    itemBasePrice: real,
    menuPrice: real,
    totalAmount: real,
    menuPurchases: real,
    menuStatus: real,
    target: real)

  function Constant(n: nat, v: real): (r: seq<real>)
    ensures |r| == n && forall i :: 0 <= i < n ==> r[i] == v
  {
    seq(n, _ => v)
  }

  /** `get_cold_start_features`: the default statistics (5, 50, 100) stand in
      when none are given, and every demand-history column takes the average
      demand. */
  function ColdStartFeatures(itemId: int, placeId: int, date: CalDate, stats: Option<GlobalStats>): (r: ColdStartRow)
    ensures r.itemId == itemId && r.placeId == placeId && r.date == date
    ensures r.temporal == TemporalOf(date)
    ensures |r.lags| == |LagPeriods| && |r.rollingMeans| == |RollingWindows|
    ensures |r.rollingStds| == |RollingWindows| && |r.emas| == |EmaAlphas|
  {
    var s := stats.GetOr(DefaultGlobalStats);
    var avgPrice := s.avgPrice.GetOr(50.0);
    ColdStartRow(
      itemId, placeId, date, TemporalOf(date),
      Constant(|LagPeriods|, s.avgDemand),
      Constant(|RollingWindows|, s.avgDemand),
      Constant(|RollingWindows|, s.avgDemand * 0.3),
      Constant(|EmaAlphas|, s.avgDemand),
      s.avgDemand,
      s.avgPlaceDemand,
      5.0,
      s.avgPlaceDemand,
      avgPrice, avgPrice, avgPrice,
      s.avgDemand * avgPrice,
      0.0, 0.0, 0.0)
  }

  /** The cold-start `item_share_of_place`: the average demand over the padded
      average place demand. */
  function ColdStartShare(c: ColdStartRow): Option<real> {
    Share(c.sameDow, c.placeTotalDemand)
  }

  /** The cold-start row agrees with what a long constant history of the
      average demand would produce, in every lag, rolling-mean and EMA
      column; its rolling deviations are 30% of the average, its total
      amount is average demand times average price, and with no statistics
      the defaults apply. */
  lemma ColdStartMatchesConstantHistory(run: seq<Annotated>, i: nat, itemId: int, placeId: int, date: CalDate, s: GlobalStats)
    requires forall j :: 0 <= j < |run| ==> run[j].rec.demand == s.avgDemand
    requires 30 <= i < |run| - 1
    ensures ColdStartFeatures(itemId, placeId, date, Some(s)).lags == Lags(FeatureRow(run, i))
    ensures ColdStartFeatures(itemId, placeId, date, Some(s)).rollingMeans == RollingMeans(FeatureRow(run, i))
    ensures ColdStartFeatures(itemId, placeId, date, Some(s)).emas == Emas(FeatureRow(run, i))
    ensures forall m :: 0 <= m < |RollingWindows| ==>
      ColdStartFeatures(itemId, placeId, date, Some(s)).rollingStds[m] == 0.3 * s.avgDemand
    ensures ColdStartFeatures(itemId, placeId, date, Some(s)).totalAmount == s.avgDemand * s.avgPrice.GetOr(50.0)
  {
    ConstantGroupFeatures(run, s.avgDemand, i);
    var row := FeatureRow(run, i);
    ColdStartColumns(itemId, placeId, date, s);
    IsConstant(Lags(row), s.avgDemand);
    IsConstant(RollingMeans(row), s.avgDemand);
    IsConstant(Emas(row), s.avgDemand);
  }

  lemma IsConstant(xs: seq<real>, c: real)
    requires forall i :: 0 <= i < |xs| ==> xs[i] == c
    ensures xs == Constant(|xs|, c)
  {
  }

  lemma ColdStartColumns(itemId: int, placeId: int, date: CalDate, s: GlobalStats)
    ensures ColdStartFeatures(itemId, placeId, date, Some(s)).lags == Constant(|LagPeriods|, s.avgDemand)
    ensures ColdStartFeatures(itemId, placeId, date, Some(s)).rollingMeans == Constant(|RollingWindows|, s.avgDemand)
    ensures ColdStartFeatures(itemId, placeId, date, Some(s)).emas == Constant(|EmaAlphas|, s.avgDemand)
    ensures forall m :: 0 <= m < |RollingWindows| ==>
      ColdStartFeatures(itemId, placeId, date, Some(s)).rollingStds[m] == 0.3 * s.avgDemand
    ensures ColdStartFeatures(itemId, placeId, date, Some(s)).totalAmount == s.avgDemand * s.avgPrice.GetOr(50.0)
  {
  }

  /** With no statistics, the defaults: average demand 5, price 50, place demand 100. */
  lemma ColdStartDefaults(itemId: int, placeId: int, date: CalDate)
    ensures ColdStartFeatures(itemId, placeId, date, None).lags == [5.0, 5.0, 5.0, 5.0, 5.0, 5.0]
    ensures ColdStartFeatures(itemId, placeId, date, None).placeTotalDemand == 100.0
    ensures ColdStartFeatures(itemId, placeId, date, None).totalAmount == 250.0
    ensures ColdStartFeatures(itemId, placeId, date, None).price == 50.0
  {
  }
}
