/** The forecasting input validator (`DataValidator`).

    A validator keeps an error list and a warning list. Every `validate_*`
    call empties both, runs its checks in order and reports. Recording an
    error in strict mode raises immediately, so later checks of that call
    never run; warnings never raise. The timestamp check runs inside a
    `try` that turns anything it raises into a warning.

    The checks of one call are described as a sequence of findings, and
    `Run` gives them the validator's recording semantics. */
module Validation {

  import opened Wrappers
  import opened Seqs
  import opened Calendar
  import opened Rows
  import Periods

  /** The messages the validator records, one constructor per message text. */
  datatype Msg =
    | MissingColumns(table: string, missing: set<string>)
    | NegativeTimestamps(table: string, column: string)
    | LargeTimestamps(table: string, column: string)
    | TimestampCheckFailed(table: string, column: string, cause: Msg)
    | NullPlaceIds(count: nat)
    | NonPositiveQuantity(count: nat)
    | NegativePrice(count: nat)
    | FutureDates(count: nat)
    | DuplicateKeys(count: nat)
    | NegativeDemand(count: nat)
    | NotInteger(field: string, typeName: string)
    | FarFutureDate
    | InvalidDate(text: string)
    | InvalidPeriod(period: string)
    | NoHistoricalData
    | NoHistoryForPair(itemId: int, placeId: int)
    | ShortHistory(rows: nat, itemId: int, minDays: int)

  /** Whether the rendered message contains the words "cold start": only the
      two warnings that announce the cold-start fallback do. */
  predicate MentionsColdStart(m: Msg) {
    m.NoHistoricalData? || m.NoHistoryForPair?
  }

  /** One step of a validation call. `Guarded` is a `try` block whose
      exceptions are recorded as a warning. */
  datatype Finding =
    | Error(msg: Msg)
    | Warning(msg: Msg)
    | Guarded(table: string, column: string, body: seq<Finding>)

  datatype Validator = Validator(strict: bool, errors: seq<Msg>, warnings: seq<Msg>)

  /** What a call leaves behind: the validator's lists, and the error it
      raised if it raised one. */
  datatype Outcome = Completed(state: Validator) | Raised(state: Validator, error: Msg)

  datatype Report = Report(
    valid: bool,
    errors: seq<Msg>,
    warnings: seq<Msg>,
    errorCount: nat,
    warningCount: nat)

  /** A fresh validator (`__init__`). */
  function NewValidator(strict: bool): (v: Validator)
    ensures v.strict == strict && v.errors == [] && v.warnings == []
  {
    Validator(strict, [], [])
  }

  /** `_add_error`: append, then raise in strict mode. */
  function AddError(v: Validator, m: Msg): (o: Outcome)
    ensures o.state == v.(errors := v.errors + [m])
    ensures o.Raised? <==> v.strict
    ensures o.Raised? ==> o.error == m
  {
    var v' := v.(errors := v.errors + [m]);
    if v.strict then Raised(v', m) else Completed(v')
  }

  /** `_add_warning`: append; never raises. */
  function AddWarning(v: Validator, m: Msg): (v': Validator)
    ensures v' == v.(warnings := v.warnings + [m])
  {
    v.(warnings := v.warnings + [m])
  }

  /** `_get_report`. */
  function GetReport(v: Validator): (r: Report)
    ensures r.valid <==> |r.errors| == 0
    ensures r.errorCount == |r.errors| && r.warningCount == |r.warnings|
    ensures r.errors == v.errors && r.warnings == v.warnings
  {
    Report(|v.errors| == 0, v.errors, v.warnings, |v.errors|, |v.warnings|)
  }

  function Step(v: Validator, f: Finding): Outcome
    decreases f, 0
  {
    match f
    case Error(m) => AddError(v, m)
    case Warning(m) => Completed(AddWarning(v, m))
    case Guarded(table, column, body) =>
      match Run(v, body)
      case Completed(v') => Completed(v')
      case Raised(v', m) => Completed(AddWarning(v', TimestampCheckFailed(table, column, m)))
  }

  /** Records the findings in order, stopping at the first one that raises. */
  function Run(v: Validator, fs: seq<Finding>): Outcome
    decreases fs, 1
  {
    if |fs| == 0 then Completed(v)
    else
      match Step(v, fs[0])
      case Raised(v', m) => Raised(v', m)
      case Completed(v') => Run(v', fs[1..])
  }

  /** Every error a finding list records when nothing raises. */
  function ErrorsOf(fs: seq<Finding>): seq<Msg>
    decreases fs, 1
  {
    if |fs| == 0 then [] else ErrorsHere(fs[0]) + ErrorsOf(fs[1..])
  }

  function ErrorsHere(f: Finding): seq<Msg>
    decreases f, 0
  {
    match f
    case Error(m) => [m]
    case Warning(_) => []
    case Guarded(_, _, body) => ErrorsOf(body)
  }

  /** Every warning a finding list records when nothing raises. */
  function WarningsOf(fs: seq<Finding>): seq<Msg>
    decreases fs, 1
  {
    if |fs| == 0 then [] else WarningsHere(fs[0]) + WarningsOf(fs[1..])
  }

  function WarningsHere(f: Finding): seq<Msg>
    decreases f, 0
  {
    match f
    case Error(_) => []
    case Warning(m) => [m]
    case Guarded(_, _, body) => WarningsOf(body)
  }

  /** A lenient validator never raises and records exactly the errors and
      warnings of the findings, in order, after what it already held. */
  lemma {:induction false} LenientRun(v: Validator, fs: seq<Finding>)
    requires !v.strict
    ensures Run(v, fs).Completed?
    ensures Run(v, fs).state == Validator(false, v.errors + ErrorsOf(fs), v.warnings + WarningsOf(fs))
    decreases fs, 1
  {
    if |fs| > 0 {
      LenientStep(v, fs[0]);
      OneFinding(fs[0]);
      var v' := Step(v, fs[0]).state;
      assert Run(v, fs) == Run(v', fs[1..]);
      LenientRun(v', fs[1..]);
      assert ErrorsOf(fs) == ErrorsHere(fs[0]) + ErrorsOf(fs[1..]);
      assert WarningsOf(fs) == WarningsHere(fs[0]) + WarningsOf(fs[1..]);
    }
  }

  lemma {:induction false} LenientStep(v: Validator, f: Finding)
    requires !v.strict
    ensures Step(v, f).Completed?
    ensures Step(v, f).state == Validator(false, v.errors + ErrorsOf([f]), v.warnings + WarningsOf([f]))
    decreases f, 0
  {
    assert [f][1..] == [];
    match f
    case Error(m) =>
    case Warning(m) =>
    case Guarded(_, _, body) =>
      LenientRun(v, body);
      assert ErrorsOf([f]) == ErrorsOf(body) + [];
      assert WarningsOf([f]) == WarningsOf(body) + [];
  }

  /** Index of the first top-level error finding, if any. */
  function FirstError(fs: seq<Finding>): (k: Option<nat>)
    ensures k.Some? ==> k.value < |fs| && fs[k.value].Error?
    ensures k.Some? ==> forall i :: 0 <= i < k.value ==> !fs[i].Error?
    ensures k.None? ==> forall i :: 0 <= i < |fs| ==> !fs[i].Error?
    decreases |fs|
  {
    if |fs| == 0 then None
    else if fs[0].Error? then Some(0)
    else
      match FirstError(fs[1..])
      case None => None
      case Some(k) => Some(k + 1)
  }

  /** The errors and warnings of a single finding. */
  lemma OneFinding(f: Finding)
    ensures ErrorsOf([f]) == ErrorsHere(f)
    ensures WarningsOf([f]) == WarningsHere(f)
  {
    assert [f][1..] == [];
  }

  /** Recording never changes the validator's mode. */
  lemma {:induction false} RunKeepsMode(v: Validator, fs: seq<Finding>)
    ensures Run(v, fs).state.strict == v.strict
    decreases fs, 1
  {
    if |fs| > 0 {
      StepKeepsMode(v, fs[0]);
      if Step(v, fs[0]).Completed? {
        RunKeepsMode(Step(v, fs[0]).state, fs[1..]);
      }
    }
  }

  lemma {:induction false} StepKeepsMode(v: Validator, f: Finding)
    ensures Step(v, f).state.strict == v.strict
    decreases f, 0
  {
    if f.Guarded? {
      RunKeepsMode(v, f.body);
    }
  }

  /** Findings that are all warnings complete in either mode and append
      their messages to the warning list. */
  lemma {:induction false} WarningsOnlyRun(v: Validator, fs: seq<Finding>)
    requires forall i :: 0 <= i < |fs| ==> fs[i].Warning?
    ensures Run(v, fs).Completed?
    ensures Run(v, fs).state == v.(warnings := v.warnings + WarningsOf(fs))
    decreases |fs|
  {
    if |fs| > 0 {
      OneFinding(fs[0]);
      ErrorsOfAppend([fs[0]], fs[1..]);
      assert fs == [fs[0]] + fs[1..];
      WarningsOnlyRun(AddWarning(v, fs[0].msg), fs[1..]);
    }
  }

  /** A guarded block never lets an exception out. */
  lemma GuardedNeverRaises(v: Validator, table: string, column: string, body: seq<Finding>)
    ensures Step(v, Guarded(table, column, body)).Completed?
  {
  }

  /** A strict validator raises exactly when some top-level finding is an
      error; it raises the first one, after recording everything before it
      and that error, and runs nothing after it. */
  lemma {:induction false} StrictRun(v: Validator, fs: seq<Finding>)
    requires v.strict
    ensures Run(v, fs).Raised? <==> FirstError(fs).Some?
    ensures FirstError(fs).Some? ==>
      var k := FirstError(fs).value;
      var before := Run(v, fs[..k]);
      && before.Completed?
      && Run(v, fs).error == fs[k].msg
      && Run(v, fs).state == before.state.(errors := before.state.errors + [fs[k].msg])
    ensures Run(v, fs).state.strict
    decreases |fs|
  {
    if |fs| > 0 {
      var s := Step(v, fs[0]);
      StepKeepsMode(v, fs[0]);
      if fs[0].Error? {
        assert fs[..0] == [];
      } else {
        assert s.Completed?;
        StrictRun(s.state, fs[1..]);
        if FirstError(fs).Some? {
          var k := FirstError(fs).value;
          assert fs[..k][0] == fs[0];
          assert fs[..k][1..] == fs[1..][..k - 1];
        }
      }
    }
  }

  /** The call skeleton every `validate_*` shares: reset both lists, run the
      checks. The outcome does not depend on earlier calls. */
  function Validate(v: Validator, fs: seq<Finding>): (o: Outcome)
    ensures o == Run(NewValidator(v.strict), fs)
  {
    Run(v.(errors := [], warnings := []), fs)
  }

  // ---------------------------------------------------------------- checks

  /** `_check_required_columns`. */
  function RequiredColumns(columns: set<string>, required: set<string>, table: string): (fs: seq<Finding>)
    ensures ErrorsOf(fs) == [] <==> required <= columns
    ensures WarningsOf(fs) == []
  {
    var missing := required - columns;
    OneFinding(Error(MissingColumns(table, missing)));
    NothingMissingIffSubset(columns, required);
    if missing != {} then [Error(MissingColumns(table, missing))] else []
  }

  lemma NothingMissingIffSubset(columns: set<string>, required: set<string>)
    ensures required - columns == {} <==> required <= columns
  {
    if required - columns == {} {
      forall x | x in required
        ensures x in columns
      {
        assert x !in required - columns;
      }
    }
  }

  /** A timestamp column: integer or float (Unix seconds, possibly NaN), or
      any other dtype, which the timestamp check ignores. */
  datatype TimestampColumn = Numeric(values: seq<Option<real>>) | NotNumeric

  /** `_check_timestamps`: negative minimum is an error, a maximum above
      2e10 a warning; both inside the `try`. An all-missing column has a NaN
      minimum and maximum and fails neither comparison. */
  function CheckTimestamps(c: TimestampColumn, column: string, table: string): (fs: seq<Finding>)
    ensures c.Numeric? ==>
      (ErrorsOf(fs) != [] <==> exists i :: 0 <= i < |c.values| && c.values[i].Some? && c.values[i].value < 0.0)
    ensures c.NotNumeric? ==> ErrorsOf(fs) == [] && WarningsOf(fs) == []
  {
    match c
    case NotNumeric => []
    case Numeric(values) =>
      var present := Present(values);
      if |present| == 0 then
        NoneNegativeWhenAllMissing(values);
        OneFinding(Guarded(table, column, []));
        [Guarded(table, column, [])]
      else
        var lo := MinOf(present);
        var hi := MaxOf(present);
        var body :=
          (if lo < 0.0 then [Error(NegativeTimestamps(table, column))] else [])
          + (if hi > 20000000000.0 then [Warning(LargeTimestamps(table, column))] else []);
        OneFinding(Guarded(table, column, body));
        ErrorsOfConditional(lo < 0.0, NegativeTimestamps(table, column), hi > 20000000000.0, LargeTimestamps(table, column));
        MinNegativeIffSomeNegative(values);
        [Guarded(table, column, body)]
  }

  lemma ErrorsOfConditional(e: bool, em: Msg, w: bool, wm: Msg)
    ensures ErrorsOf((if e then [Error(em)] else []) + (if w then [Warning(wm)] else [])) == (if e then [em] else [])
  {
    var a: seq<Finding> := if e then [Error(em)] else [];
    var b: seq<Finding> := if w then [Warning(wm)] else [];
    ErrorsOfAppend(a, b);
    OneFinding(Error(em));
    OneFinding(Warning(wm));
  }

  /** The minimum of the present values is negative exactly when some present value is. */
  lemma MinNegativeIffSomeNegative(values: seq<Option<real>>)
    requires |Present(values)| > 0
    ensures MinOf(Present(values)) < 0.0 <==>
      exists i :: 0 <= i < |values| && values[i].Some? && values[i].value < 0.0
  {
    var present := Present(values);
    var lo := MinOf(present);
    if lo < 0.0 {
      PresentMember(values, lo);
    } else {
      forall i | 0 <= i < |values| && values[i].Some?
        ensures values[i].value >= 0.0
      {
        assert values[i].value in present;
      }
    }
  }

  lemma PresentMember(values: seq<Option<real>>, x: real)
    requires x in Present(values)
    ensures exists i :: 0 <= i < |values| && values[i] == Some(x)
  {
    assert Some(x) in values;
  }

  lemma NoneNegativeWhenAllMissing(values: seq<Option<real>>)
    requires |Present(values)| == 0
    ensures forall i :: 0 <= i < |values| ==> values[i].None?
  {
  }

  // ---------------------------------------------------------------- tables

  datatype OrdersTable = OrdersTable(
    columns: set<string>,
    created: TimestampColumn,
    placeIds: seq<Option<int>>)

  datatype OrderItemsTable = OrderItemsTable(
    columns: set<string>,
    quantities: seq<Option<real>>,
    prices: seq<Option<real>>)

  datatype DemandTable = DemandTable(columns: set<string>, rows: seq<DemandRecord>)

  const OrdersRequired: set<string> := {"id", "created", "place_id", "status"}
  const OrderItemsRequired: set<string> := {"order_id", "item_id", "quantity", "price"}
  const DemandRequired: set<string> := {"date", "item_id", "place_id", "demand"}

  predicate IsNullPlace(p: Option<int>) { p.None? }
  predicate IsNonPositive(q: Option<real>) { q.Some? && q.value <= 0.0 }
  predicate IsNegative(q: Option<real>) { q.Some? && q.value < 0.0 }

  /** The checks of `validate_orders`. */
  function OrdersFindings(t: OrdersTable): seq<Finding> {
    var nulls := Count(t.placeIds, IsNullPlace);
    RequiredColumns(t.columns, OrdersRequired, "orders")
    + (if "created" in t.columns then CheckTimestamps(t.created, "created", "orders") else [])
    + (if "place_id" in t.columns && nulls > 0 then [Warning(NullPlaceIds(nulls))] else [])
  }

  function ValidateOrders(v: Validator, t: OrdersTable): Outcome {
    Validate(v, OrdersFindings(t))
  }

  /** The checks of `validate_order_items`. */
  function OrderItemsFindings(t: OrderItemsTable): seq<Finding> {
    var bad := Count(t.quantities, IsNonPositive);
    var negative := Count(t.prices, IsNegative);
    RequiredColumns(t.columns, OrderItemsRequired, "order_items")
    + (if "quantity" in t.columns && bad > 0 then [Error(NonPositiveQuantity(bad))] else [])
    + (if "price" in t.columns && negative > 0 then [Warning(NegativePrice(negative))] else [])
  }

  function ValidateOrderItems(v: Validator, t: OrderItemsTable): Outcome {
    Validate(v, OrderItemsFindings(t))
  }

  /** Rows whose (date, item, place) key already occurred earlier
      (`duplicated(subset=...)`, keeping the first). */
  function DuplicateCount(rows: seq<DemandRecord>): (n: nat)
    ensures n == 0 <==> forall i, j :: 0 <= j < i < |rows| ==> !SameKey(rows[i], rows[j])
    decreases |rows|
  {
    if |rows| == 0 then 0
    else
      var init := rows[..|rows| - 1];
      var last := rows[|rows| - 1];
      var dup := exists j :: 0 <= j < |init| && SameKey(last, init[j]);
      DuplicateCount(init) + (if dup then 1 else 0)
  }

  predicate SameKey(a: DemandRecord, b: DemandRecord) {
    a.date == b.date && a.itemId == b.itemId && a.placeId == b.placeId
  }

  /** The checks of `validate_demand_dataset`; `today` is the clock's date. */
  function DemandFindings(t: DemandTable, today: Date): seq<Finding> {
    var future := Count(t.rows, (r: DemandRecord) => Before(today, r.date));
    var dups := DuplicateCount(t.rows);
    var negative := Count(t.rows, (r: DemandRecord) => r.demand < 0.0);
    RequiredColumns(t.columns, DemandRequired, "demand")
    + (if "date" in t.columns && future > 0 then [Error(FutureDates(future))] else [])
    + (if {"date", "item_id", "place_id"} <= t.columns && dups > 0 then [Error(DuplicateKeys(dups))] else [])
    + (if "demand" in t.columns && negative > 0 then [Error(NegativeDemand(negative))] else [])
  }

  function ValidateDemandDataset(v: Validator, t: DemandTable, today: Date): Outcome {
    Validate(v, DemandFindings(t, today))
  }

  /** The checks of `validate_prediction_inputs`. The date must be an ISO
      calendar date; one more than 365 days after `today` is only a warning. */
  function PredictionInputFindings(itemId: Value, placeId: Value, date: string, period: string, today: Date): seq<Finding>
    requires Valid(today)
  {
    (if !IsInteger(itemId) then [Error(NotInteger("item_id", TypeName(itemId)))] else [])
    + (if !IsInteger(placeId) then [Error(NotInteger("place_id", TypeName(placeId)))] else [])
    + (match ParseIsoDate(date)
       case None => [Error(InvalidDate(date))]
       case Some(d) => if DayNumber(d) > DayNumber(today) + 365 then [Warning(FarFutureDate)] else [])
    + (if period !in Periods.ValidPeriodNames then [Error(InvalidPeriod(period))] else [])
  }

  function ValidatePredictionInputs(v: Validator, itemId: Value, placeId: Value, date: string, period: string, today: Date): Outcome
    requires Valid(today)
  {
    Validate(v, PredictionInputFindings(itemId, placeId, date, period, today))
  }

  /** Rows of the history that belong to the (item, place) pair. */
  function PairRows(history: seq<DemandRecord>, itemId: int, placeId: int): (r: seq<DemandRecord>)
    ensures forall x :: x in r <==> x in history && x.itemId == itemId && x.placeId == placeId
    decreases |history|
  {
    if |history| == 0 then []
    else
      assert history == [history[0]] + history[1..];
      var rest := PairRows(history[1..], itemId, placeId);
      if history[0].itemId == itemId && history[0].placeId == placeId then [history[0]] + rest else rest
  }

  /** The checks of `validate_historical_data`; `None` is an absent frame. */
  function HistoryFindings(history: Option<seq<DemandRecord>>, itemId: int, placeId: int, minHistoryDays: int): seq<Finding> {
    if history.None? || |history.value| == 0 then [Warning(NoHistoricalData)]
    else
      var n := |PairRows(history.value, itemId, placeId)|;
      if n == 0 then [Warning(NoHistoryForPair(itemId, placeId))]
      else if n < minHistoryDays then [Warning(ShortHistory(n, itemId, minHistoryDays))]
      else []
  }

  function ValidateHistoricalData(v: Validator, history: Option<seq<DemandRecord>>, itemId: int, placeId: int, minHistoryDays: int): Outcome {
    Validate(v, HistoryFindings(history, itemId, placeId, minHistoryDays))
  }

  const DefaultMinHistoryDays: int := 7

  /** The source's `'cold start' in str(warnings)`. */
  predicate WarnsColdStart(o: Outcome) {
    exists i :: 0 <= i < |o.state.warnings| && MentionsColdStart(o.state.warnings[i])
  }

  // ------------------------------------------------------------ properties

  /** A lenient call's report lists exactly the checks' errors and warnings. */
  lemma LenientValidate(v: Validator, fs: seq<Finding>)
    requires !v.strict
    ensures Validate(v, fs).Completed?
    ensures GetReport(Validate(v, fs).state).errors == ErrorsOf(fs)
    ensures GetReport(Validate(v, fs).state).warnings == WarningsOf(fs)
  {
    LenientRun(NewValidator(false), fs);
  }

  lemma {:induction false} ErrorsOfAppend(a: seq<Finding>, b: seq<Finding>)
    ensures ErrorsOf(a + b) == ErrorsOf(a) + ErrorsOf(b)
    ensures WarningsOf(a + b) == WarningsOf(a) + WarningsOf(b)
    decreases |a|
  {
    if |a| == 0 {
      assert a + b == b;
    } else {
      assert (a + b)[0] == a[0];
      assert (a + b)[1..] == a[1..] + b;
      ErrorsOfAppend(a[1..], b);
      calc {
        ErrorsOf(a + b);
        ErrorsHere(a[0]) + ErrorsOf(a[1..] + b);
        ErrorsHere(a[0]) + (ErrorsOf(a[1..]) + ErrorsOf(b));
        ErrorsOf(a) + ErrorsOf(b);
      }
      calc {
        WarningsOf(a + b);
        WarningsHere(a[0]) + WarningsOf(a[1..] + b);
        WarningsHere(a[0]) + (WarningsOf(a[1..]) + WarningsOf(b));
        WarningsOf(a) + WarningsOf(b);
      }
    }
  }

  /** `validate_orders` finds an orders table valid exactly when it has all
      required columns and no numeric `created` value is negative; null
      places only warn. */
  lemma OrdersValidity(v: Validator, t: OrdersTable)
    requires !v.strict
    ensures ValidateOrders(v, t).Completed?
    ensures GetReport(ValidateOrders(v, t).state).valid <==>
      && OrdersRequired <= t.columns
      && !(t.created.Numeric? && exists i :: 0 <= i < |t.created.values| && t.created.values[i].Some? && t.created.values[i].value < 0.0)
  {
    LenientValidate(v, OrdersFindings(t));
    var a := RequiredColumns(t.columns, OrdersRequired, "orders");
    var b := if "created" in t.columns then CheckTimestamps(t.created, "created", "orders") else [];
    var nulls := Count(t.placeIds, IsNullPlace);
    var c: seq<Finding> := if "place_id" in t.columns && nulls > 0 then [Warning(NullPlaceIds(nulls))] else [];
    ErrorsOfAppend(a, b);
    ErrorsOfAppend(a + b, c);
    assert ErrorsOf(c) == [];
  }

  /** A strict `validate_orders` never raises for a negative timestamp: the
      raise happens inside the timestamp check's `try`, which records the
      error and then a `TimestampCheckFailed` warning. */
  lemma StrictOrdersNegativeTimestampDoesNotRaise()
    ensures
      var t := OrdersTable(OrdersRequired, Numeric([Some(-5.0)]), [Some(1)]);
      var o := ValidateOrders(NewValidator(true), t);
      && o.Completed?
      && o.state.errors == [NegativeTimestamps("orders", "created")]
      && o.state.warnings == [TimestampCheckFailed("orders", "created", NegativeTimestamps("orders", "created"))]
  {
    var t := OrdersTable(OrdersRequired, Numeric([Some(-5.0)]), [Some(1)]);
    var neg := NegativeTimestamps("orders", "created");
    assert Present([Some(-5.0)]) == [-5.0];
    assert MinOf([-5.0]) == -5.0 && MaxOf([-5.0]) == -5.0;
    var body := [Error(neg)];
    assert body == [Error(neg)] + [];
    assert CheckTimestamps(t.created, "created", "orders") == [Guarded("orders", "created", body)];
    assert Count(t.placeIds, IsNullPlace) == 0;
    assert RequiredColumns(t.columns, OrdersRequired, "orders") == [];
    var fs := OrdersFindings(t);
    assert fs == [Guarded("orders", "created", body)];
    var v0 := NewValidator(true);
    assert Run(v0, body) == Raised(v0.(errors := [neg]), neg);
    var v1 := v0.(errors := [neg], warnings := [TimestampCheckFailed("orders", "created", neg)]);
    assert Step(v0, fs[0]) == Completed(v1);
    assert fs[1..] == [];
    assert Run(v0, fs) == Run(v1, []);
  }

  /** `validate_order_items` rejects non-positive quantities but only warns
      about negative prices. */
  lemma OrderItemsValidity(v: Validator, t: OrderItemsTable)
    requires !v.strict
    ensures ValidateOrderItems(v, t).Completed?
    ensures GetReport(ValidateOrderItems(v, t).state).valid <==>
      && OrderItemsRequired <= t.columns
      && forall i :: 0 <= i < |t.quantities| ==> !IsNonPositive(t.quantities[i])
  {
    var fs := OrderItemsFindings(t);
    LenientValidate(v, fs);
    var a := RequiredColumns(t.columns, OrderItemsRequired, "order_items");
    var bad := Count(t.quantities, IsNonPositive);
    var negative := Count(t.prices, IsNegative);
    var b: seq<Finding> := if "quantity" in t.columns && bad > 0 then [Error(NonPositiveQuantity(bad))] else [];
    var c: seq<Finding> := if "price" in t.columns && negative > 0 then [Warning(NegativePrice(negative))] else [];
    ErrorsOfAppend(a, b);
    ErrorsOfAppend(a + b, c);
    assert ErrorsOf(c) == [];
  }

  /** `validate_demand_dataset` finds a complete table valid exactly when no
      date lies after `today`, no key repeats and no demand is negative. */
  lemma DemandValidity(v: Validator, t: DemandTable, today: Date)
    requires !v.strict
    requires DemandRequired <= t.columns
    ensures ValidateDemandDataset(v, t, today).Completed?
    ensures GetReport(ValidateDemandDataset(v, t, today).state).valid <==>
      && (forall i :: 0 <= i < |t.rows| ==> !Before(today, t.rows[i].date))
      && (forall i, j :: 0 <= j < i < |t.rows| ==> !SameKey(t.rows[i], t.rows[j]))
      && (forall i :: 0 <= i < |t.rows| ==> t.rows[i].demand >= 0.0)
  {
    var fs := DemandFindings(t, today);
    LenientValidate(v, fs);
    var future := Count(t.rows, (r: DemandRecord) => Before(today, r.date));
    var dups := DuplicateCount(t.rows);
    var negative := Count(t.rows, (r: DemandRecord) => r.demand < 0.0);
    var a := RequiredColumns(t.columns, DemandRequired, "demand");
    var b: seq<Finding> := if future > 0 then [Error(FutureDates(future))] else [];
    var c: seq<Finding> := if dups > 0 then [Error(DuplicateKeys(dups))] else [];
    var d: seq<Finding> := if negative > 0 then [Error(NegativeDemand(negative))] else [];
    assert fs == a + b + c + d;
    ErrorsOfAppend(a, b);
    ErrorsOfAppend(a + b, c);
    ErrorsOfAppend(a + b + c, d);
  }

  /** A prediction request is valid exactly when both ids are integers, the
      date parses and the period is one of the three names; a far-future
      date never makes it invalid. Strict mode raises exactly on the invalid ones. */
  lemma PredictionInputsValidity(v: Validator, itemId: Value, placeId: Value, date: string, period: string, today: Date)
    requires Valid(today)
    ensures var ok := IsInteger(itemId) && IsInteger(placeId) && ParseIsoDate(date).Some? && period in Periods.ValidPeriodNames;
      && (!v.strict ==> (ValidatePredictionInputs(v, itemId, placeId, date, period, today).Completed?
                         && (GetReport(ValidatePredictionInputs(v, itemId, placeId, date, period, today).state).valid <==> ok)))
      && (v.strict ==> (ValidatePredictionInputs(v, itemId, placeId, date, period, today).Raised? <==> !ok))
  {
    var fs := PredictionInputFindings(itemId, placeId, date, period, today);
    PredictionInputErrors(itemId, placeId, date, period, today);
    if v.strict {
      StrictRun(NewValidator(true), fs);
    } else {
      LenientValidate(v, fs);
    }
  }

  /** The prediction-input checks hold an error exactly when some input is
      malformed; the far-future date is only a warning. */
  lemma PredictionInputErrors(itemId: Value, placeId: Value, date: string, period: string, today: Date)
    requires Valid(today)
    ensures var fs := PredictionInputFindings(itemId, placeId, date, period, today);
      var ok := IsInteger(itemId) && IsInteger(placeId) && ParseIsoDate(date).Some? && period in Periods.ValidPeriodNames;
      && (ErrorsOf(fs) == [] <==> ok)
      && (FirstError(fs).None? <==> ok)
  {
    var fs := PredictionInputFindings(itemId, placeId, date, period, today);
    var ok := IsInteger(itemId) && IsInteger(placeId) && ParseIsoDate(date).Some? && period in Periods.ValidPeriodNames;
    var a: seq<Finding> := if !IsInteger(itemId) then [Error(NotInteger("item_id", TypeName(itemId)))] else [];
    var b: seq<Finding> := if !IsInteger(placeId) then [Error(NotInteger("place_id", TypeName(placeId)))] else [];
    var c: seq<Finding> := match ParseIsoDate(date)
       case None => [Error(InvalidDate(date))]
       case Some(d) => if DayNumber(d) > DayNumber(today) + 365 then [Warning(FarFutureDate)] else [];
    var d: seq<Finding> := if period !in Periods.ValidPeriodNames then [Error(InvalidPeriod(period))] else [];
    assert fs == a + b + c + d;
    ErrorsOfAppend(a, b);
    ErrorsOfAppend(a + b, c);
    ErrorsOfAppend(a + b + c, d);
    if ok {
      assert forall i :: 0 <= i < |fs| ==> !fs[i].Error?;
    } else {
      var k :| 0 <= k < |fs| && fs[k].Error?;
    }
  }

  /** `validate_historical_data` never records an error, in either mode, and
      its warnings mention cold start exactly when there is no history at
      all or none for the pair. */
  lemma HistoryValidity(v: Validator, history: Option<seq<DemandRecord>>, itemId: int, placeId: int, minHistoryDays: int)
    ensures var o := ValidateHistoricalData(v, history, itemId, placeId, minHistoryDays);
      && o.Completed?
      && GetReport(o.state).valid
      && (WarnsColdStart(o) <==>
            history.None? || |history.value| == 0 || |PairRows(history.value, itemId, placeId)| == 0)
  {
    var fs := HistoryFindings(history, itemId, placeId, minHistoryDays);
    WarningsOnlyRun(NewValidator(v.strict), fs);
    var o := ValidateHistoricalData(v, history, itemId, placeId, minHistoryDays);
    assert |fs| <= 1;
    if |fs| == 1 {
      assert fs == [fs[0]];
      OneFinding(fs[0]);
      assert o.state.warnings == [fs[0].msg];
      assert WarnsColdStart(o) <==> MentionsColdStart(o.state.warnings[0]);
    } else {
      assert o.state.warnings == [];
    }
  }

  /** Between one and `minHistoryDays - 1` rows for the pair is a short
      history, not a cold start. */
  lemma ShortHistoryIsNotColdStart(v: Validator, history: seq<DemandRecord>, itemId: int, placeId: int)
    requires 0 < |PairRows(history, itemId, placeId)| < DefaultMinHistoryDays
    ensures !WarnsColdStart(ValidateHistoricalData(v, Some(history), itemId, placeId, DefaultMinHistoryDays))
    ensures |ValidateHistoricalData(v, Some(history), itemId, placeId, DefaultMinHistoryDays).state.warnings| == 1
  {
    HistoryValidity(v, Some(history), itemId, placeId, DefaultMinHistoryDays);
    var fs := HistoryFindings(Some(history), itemId, placeId, DefaultMinHistoryDays);
    WarningsOnlyRun(NewValidator(v.strict), fs);
    OneFinding(fs[0]);
  }
}
