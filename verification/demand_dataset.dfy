/** Building the aggregated demand dataset from the order tables
    (`create_demand_dataset`, identical in the modular feature engineer and
    the older single-file forecaster).

    The orders' columns are selected, order lines are joined to their
    orders, lines of orders whose textual status is not a completed one are
    dropped, each line's calendar date is bucketed to its period, and the
    lines are grouped by (date, item, place): units and amounts are summed,
    prices averaged. A missing column raises `KeyError`. Lines without a
    timestamp or a place have no group and disappear. pandas returns the
    groups sorted by key. */
module DemandDataset {

  import opened Wrappers
  import opened Seqs
  import opened Calendar
  import opened Rows

  /** An order. `placeId` is `None` where the cell is null. */
  datatype Order = Order(id: int, created: Option<CalDate>, placeId: Option<int>, status: Option<string>)

  /** An order line. `created`, `placeId` and `status` are read only when the
      line table has columns of those names, which then win over the order's
      in the join. */
  datatype OrderLine = OrderLine(
    orderId: int,
    itemId: int,
    quantity: real,
    price: real,
    totalAmount: real,
    created: Option<CalDate>,
    placeId: Option<int>,
    status: Option<string>)

  /** `columns` are the table's column names; `statusIsText` says whether the
      status column holds strings (pandas dtype `object`). */
  datatype OrdersFrame = OrdersFrame(columns: set<string>, statusIsText: bool, rows: seq<Order>)
  datatype LinesFrame = LinesFrame(columns: set<string>, statusIsText: bool, rows: seq<OrderLine>)

  /** The orders columns selected before the merge, and the line columns the
      merge key and the aggregation read. */
  const OrderColumns: seq<string> := ["id", "created", "place_id", "type", "channel", "status"]
  const LineColumns: seq<string> := ["order_id", "item_id", "quantity", "price"]

  predicate HasAll(columns: set<string>, names: seq<string>) {
    forall i :: 0 <= i < |names| ==> names[i] in columns
  }

  /** The two `KeyError`s: the orders selection lacks a column, or the merge
      or the aggregation reads a line column that is not there. */
  const OrdersKeyError: string := "KeyError: orders column missing"
  const LinesKeyError: string := "KeyError: order_items column missing"

  /** One row of the joined table. */
  datatype Joined = Joined(
    created: Option<CalDate>,
    itemId: int,
    placeId: Option<int>,
    status: Option<string>,
    quantity: real,
    price: real,
    totalAmount: real)

  /** Joins one line to one order: line columns win, and `total_amount`
      defaults to quantity times price when the line table has none. */
  function Combine(columns: set<string>, l: OrderLine, o: Order): Joined {
    Joined(
      if "created" in columns then l.created else o.created,
      l.itemId,
      if "place_id" in columns then l.placeId else o.placeId,
      if "status" in columns then l.status else o.status,
      l.quantity,
      l.price,
      if "total_amount" in columns then l.totalAmount else l.quantity * l.price)
  }

  /** The merge condition `order_id == id` for one line's `order_id`. */
  function IdIs(id: int): Order -> bool {
    (o: Order) => o.id == id
  }

  /** One line combined with each of the given orders, in their order. */
  function CombineEach(columns: set<string>, l: OrderLine, os: seq<Order>): (r: seq<Joined>)
    ensures |r| == |os|
    ensures forall i :: 0 <= i < |os| ==> r[i] == Combine(columns, l, os[i])
    decreases |os|
  {
    if |os| == 0 then [] else [Combine(columns, l, os[0])] + CombineEach(columns, l, os[1..])
  }

  /** The joins of one line with the orders: one joined row per order
      carrying its `order_id`, in the orders' order. */
  function JoinLine(columns: set<string>, l: OrderLine, orders: seq<Order>): (r: seq<Joined>)
    ensures r == CombineEach(columns, l, Filter(orders, IdIs(l.orderId)))
    ensures |r| == Count(orders, IdIs(l.orderId))
    ensures forall j :: j in r <==> exists o :: o in orders && o.id == l.orderId && j == Combine(columns, l, o)
    decreases |orders|
  {
    if |orders| == 0 then []
    else
      var rest := JoinLine(columns, l, orders[1..]);
      MatchingStep(orders, l.orderId);
      assert orders == [orders[0]] + orders[1..];
      if orders[0].id == l.orderId then [Combine(columns, l, orders[0])] + rest else rest
  }

  /** The matching orders of a non-empty list: its head if it matches, then
      the matching orders of the rest. */
  lemma MatchingStep(orders: seq<Order>, id: int)
    requires |orders| > 0
    ensures orders[0].id == id ==>
      IsCons(Filter(orders, IdIs(id)), orders[0], Filter(orders[1..], IdIs(id)))
    ensures orders[0].id != id ==> Filter(orders, IdIs(id)) == Filter(orders[1..], IdIs(id))
  {
    assert orders == [orders[0]] + orders[1..];
  }

  /** `xs` is `x` followed by `rest`. */
  predicate IsCons(xs: seq<Order>, x: Order, rest: seq<Order>) {
    |xs| > 0 && xs[0] == x && xs[1..] == rest
  }

  /** The number of (line, order) pairs the merge matches. */
  function MatchCount(ls: seq<OrderLine>, orders: seq<Order>): nat
    decreases |ls|
  {
    if |ls| == 0 then 0 else Count(orders, IdIs(ls[0].orderId)) + MatchCount(ls[1..], orders)
  }

  /** The inner merge of the line table with the orders on `order_id == id`:
      one row per matching (line, order) pair, in line order. */
  function Join(lines: LinesFrame, orders: OrdersFrame): (r: seq<Joined>)
    ensures |r| == MatchCount(lines.rows, orders.rows)
    ensures forall j :: j in r <==>
      exists l, o :: l in lines.rows && o in orders.rows && o.id == l.orderId && j == Combine(lines.columns, l, o)
  {
    JoinRows(lines.columns, lines.rows, orders.rows)
  }

  function JoinRows(columns: set<string>, ls: seq<OrderLine>, orders: seq<Order>): (r: seq<Joined>)
    ensures |r| == MatchCount(ls, orders)
    ensures forall j :: j in r <==>
      exists l, o :: l in ls && o in orders && o.id == l.orderId && j == Combine(columns, l, o)
    decreases |ls|
  {
    if |ls| == 0 then []
    else
      assert ls == [ls[0]] + ls[1..];
      JoinLine(columns, ls[0], orders) + JoinRows(columns, ls[1..], orders)
  }

  /** Joining two runs of lines joins each in turn. */
  lemma {:induction false} JoinRowsAppend(columns: set<string>, a: seq<OrderLine>, b: seq<OrderLine>, orders: seq<Order>)
    ensures JoinRows(columns, a + b, orders) == JoinRows(columns, a, orders) + JoinRows(columns, b, orders)
    ensures MatchCount(a + b, orders) == MatchCount(a, orders) + MatchCount(b, orders)
    decreases |a|
  {
    if |a| == 0 {
      assert a + b == b;
    } else {
      assert (a + b)[1..] == a[1..] + b;
      JoinRowsAppend(columns, a[1..], b, orders);
    }
  }

  /** Line `i`'s joined rows form one block of the merge, placed after the
      rows of the lines before it: the merge keeps line order and repeats a
      line once per matching order. */
  lemma JoinBlock(columns: set<string>, ls: seq<OrderLine>, orders: seq<Order>, i: nat)
    requires i < |ls|
    ensures var lo := MatchCount(ls[..i], orders);
      var hi := lo + Count(orders, IdIs(ls[i].orderId));
      && hi <= |JoinRows(columns, ls, orders)|
      && JoinRows(columns, ls, orders)[lo..hi] == JoinLine(columns, ls[i], orders)
  {
    var pre, tail := ls[..i], ls[i + 1..];
    assert ls == pre + ([ls[i]] + tail);
    JoinRowsAppend(columns, pre, [ls[i]] + tail, orders);
    JoinRowsAppend(columns, [ls[i]], tail, orders);
    JoinRowsSingle(columns, ls[i], orders);
    MiddleBlock(JoinRows(columns, pre, orders), JoinLine(columns, ls[i], orders), JoinRows(columns, tail, orders));
  }

  lemma JoinRowsSingle(columns: set<string>, l: OrderLine, orders: seq<Order>)
    ensures JoinRows(columns, [l], orders) == JoinLine(columns, l, orders)
  {
    assert [l][1..] == [];
  }

  /** The middle part of a three-part concatenation. */
  lemma MiddleBlock<T>(a: seq<T>, b: seq<T>, c: seq<T>)
    ensures |a| + |b| <= |a + (b + c)|
    ensures (a + (b + c))[|a|..|a| + |b|] == b
  {
  }

  const CompletedStatuses: seq<string> := ["Closed", "closed", "Completed", "completed", "Paid", "paid"]

  predicate IsCompleted(j: Joined) {
    j.status.Some? && j.status.value in CompletedStatuses
  }

  /** The status filter: applied only to a textual status column. */
  function KeepCompleted(rows: seq<Joined>, statusIsText: bool): (r: seq<Joined>)
    ensures !statusIsText ==> r == rows
    ensures statusIsText ==> forall j :: j in r <==> j in rows && IsCompleted(j)
  {
    if statusIsText then Filter(rows, IsCompleted) else rows
  }

  /** The date a timestamp's line is counted under for a period: the day
      itself, the Monday of its week, or the first of its month. Any other
      period name counts by day. */
  function Bucket(d: CalDate, period: string): (b: CalDate)
    ensures period == "weekly" ==> Weekday(b) == 0 && DayNumber(b) <= DayNumber(d) <= DayNumber(b) + 6
    ensures period == "monthly" ==> b.year == d.year && b.month == d.month && b.day == 1
    ensures period != "weekly" && period != "monthly" ==> b == d
  {
    if period == "weekly" then MondayOfWeek(d)
    else if period == "monthly" then FirstOfMonth(d)
    else d
  }

  /** The group key of a dataset row. */
  datatype Key = Key(date: CalDate, itemId: int, placeId: int)

  /** pandas' key order: by date, then item, then place. */
  predicate KeyLess(a: Key, b: Key) {
    Before(a.date, b.date)
    || (a.date == b.date && (a.itemId < b.itemId || (a.itemId == b.itemId && a.placeId < b.placeId)))
  }

  lemma KeyLessTotal(a: Key, b: Key)
    ensures KeyLess(a, b) || KeyLess(b, a) || a == b
  {
  }

  lemma KeyLessTransitive(a: Key, b: Key, c: Key)
    requires KeyLess(a, b) && KeyLess(b, c)
    ensures KeyLess(a, c)
  {
  }

  lemma KeyLessIrreflexive(a: Key)
    ensures !KeyLess(a, a)
  {
  }

  /** The running aggregate of one group. */
  datatype Group = Group(key: Key, quantity: real, priceSum: real, count: nat, totalAmount: real)

  predicate StrictlySorted(gs: seq<Group>) {
    forall i, j :: 0 <= i < j < |gs| ==> KeyLess(gs[i].key, gs[j].key)
  }

  /** The group with key `k`, if any. */
  function Find(gs: seq<Group>, k: Key): (r: Option<Group>)
    ensures r.Some? ==> r.value in gs && r.value.key == k
    ensures r.None? ==> forall i :: 0 <= i < |gs| ==> gs[i].key != k
    decreases |gs|
  {
    if |gs| == 0 then None
    else if gs[0].key == k then Some(gs[0])
    else Find(gs[1..], k)
  }

  /** One more line in group `k`. */
  function Absorb(g: Option<Group>, k: Key, q: real, p: real, t: real): Group {
    match g
    case None => Group(k, q, p, 1, t)
    case Some(h) => Group(k, h.quantity + q, h.priceSum + p, h.count + 1, h.totalAmount + t)
  }

  /** Adds one line to a key-sorted group list, keeping it key-sorted. */
  function AddLine(gs: seq<Group>, k: Key, q: real, p: real, t: real): (r: seq<Group>)
    requires StrictlySorted(gs)
    ensures StrictlySorted(r)
    ensures Find(r, k) == Some(Absorb(Find(gs, k), k, q, p, t))
    ensures forall k' :: k' != k ==> Find(r, k') == Find(gs, k')
    ensures forall g :: g in r ==> g in gs || g.key == k
    decreases |gs|
  {
    if |gs| == 0 then [Absorb(None, k, q, p, t)]
    else if gs[0].key == k then
      [Absorb(Some(gs[0]), k, q, p, t)] + gs[1..]
    else if KeyLess(k, gs[0].key) then
      forall i | 0 <= i < |gs|
        ensures gs[i].key != k
      {
        if i > 0 {
          KeyLessTransitive(k, gs[0].key, gs[i].key);
        }
        KeyLessIrreflexive(k);
      }
      [Absorb(None, k, q, p, t)] + gs
    else
      KeyLessTotal(k, gs[0].key);
      var rest := AddLine(gs[1..], k, q, p, t);
      var r := [gs[0]] + rest;
      forall j | 0 <= j < |rest|
        ensures KeyLess(gs[0].key, rest[j].key)
      {
        assert rest[j] in rest;
      }
      r
  }

  /** A row's group key. `groupby` drops rows with a null key part, so a row
      without a timestamp or without a place has none. */
  function KeyOf(j: Joined, period: string): (k: Option<Key>)
    ensures k.None? <==> j.created.None? || j.placeId.None?
    ensures k.Some? ==> k.value == Key(Bucket(j.created.value, period), j.itemId, j.placeId.value)
  {
    match (j.created, j.placeId)
    case (Some(d), Some(p)) => Some(Key(Bucket(d, period), j.itemId, p))
    case _ => None
  }

  /** Groups the rows, last row added last. */
  function Aggregate(rows: seq<Joined>, period: string): (gs: seq<Group>)
    ensures StrictlySorted(gs)
    decreases |rows|
  {
    if |rows| == 0 then []
    else
      var last := rows[|rows| - 1];
      var gs := Aggregate(rows[..|rows| - 1], period);
      match KeyOf(last, period)
      case None => gs
      case Some(k) => AddLine(gs, k, last.quantity, last.price, last.totalAmount)
  }

  /** Reference: the total units of the rows whose key is `k`. */
  function UnitsFor(rows: seq<Joined>, period: string, k: Key): real
    decreases |rows|
  {
    if |rows| == 0 then 0.0
    else
      var last := rows[|rows| - 1];
      UnitsFor(rows[..|rows| - 1], period, k) + (if KeyOf(last, period) == Some(k) then last.quantity else 0.0)
  }

  /** Reference: how many rows have key `k`. */
  function RowsFor(rows: seq<Joined>, period: string, k: Key): nat
    decreases |rows|
  {
    if |rows| == 0 then 0
    else
      var last := rows[|rows| - 1];
      RowsFor(rows[..|rows| - 1], period, k) + (if KeyOf(last, period) == Some(k) then 1 else 0)
  }

  /** A row without a place, like one without a timestamp, adds to no
      group: the units of every key stay as they were. */
  lemma PlacelessRowUncounted(rows: seq<Joined>, j: Joined, period: string, k: Key)
    requires j.placeId.None?
    ensures UnitsFor(rows + [j], period, k) == UnitsFor(rows, period, k)
    ensures RowsFor(rows + [j], period, k) == RowsFor(rows, period, k)
  {
    assert (rows + [j])[..|rows|] == rows;
  }

  /** Every key's group holds the number and total units of the rows with
      that key, and keys without rows have no group. */
  lemma {:induction false} AggregateIsGroupSum(rows: seq<Joined>, period: string, k: Key)
    ensures Find(Aggregate(rows, period), k).Some? <==> RowsFor(rows, period, k) > 0
    ensures Find(Aggregate(rows, period), k).Some? ==>
      && Find(Aggregate(rows, period), k).value.count == RowsFor(rows, period, k)
      && Find(Aggregate(rows, period), k).value.quantity == UnitsFor(rows, period, k)
    ensures RowsFor(rows, period, k) == 0 ==> UnitsFor(rows, period, k) == 0.0
    decreases |rows|
  {
    if |rows| > 0 {
      AggregateIsGroupSum(rows[..|rows| - 1], period, k);
    }
  }

  /** The dataset row of a finished group: units summed, price averaged. */
  function ToRecord(g: Group): DemandRecord
    requires g.count > 0
  {
    DemandRecord(g.key.date, g.key.itemId, g.key.placeId, g.quantity, g.priceSum / (g.count as real), g.totalAmount)
  }

  lemma {:induction false} AggregateCountsPositive(rows: seq<Joined>, period: string)
    ensures forall g :: g in Aggregate(rows, period) ==> g.count > 0
    decreases |rows|
  {
    if |rows| > 0 {
      AggregateCountsPositive(rows[..|rows| - 1], period);
    }
  }

  function Records(gs: seq<Group>): (r: seq<DemandRecord>)
    requires forall g :: g in gs ==> g.count > 0
    ensures |r| == |gs|
    ensures forall i :: 0 <= i < |gs| ==> r[i] == ToRecord(gs[i])
  {
    seq(|gs|, i requires 0 <= i < |gs| => ToRecord(gs[i]))
  }

  /** The completed, joined rows the dataset is grouped from. */
  function CompletedRows(lines: LinesFrame, orders: OrdersFrame): seq<Joined> {
    var statusIsText := if "status" in lines.columns then lines.statusIsText else orders.statusIsText;
    KeepCompleted(Join(lines, orders), statusIsText)
  }

  /** The grouped dataset of the completed rows. */
  function GroupedRows(orders: OrdersFrame, lines: LinesFrame, period: string): seq<DemandRecord> {
    var rows := CompletedRows(lines, orders);
    AggregateCountsPositive(rows, period);
    Records(Aggregate(rows, period))
  }

  /** `create_demand_dataset`: the column selection of the orders, then the
      merge and the aggregation, each raising `KeyError` on a missing column. */
  function CreateDemandDataset(orders: OrdersFrame, lines: LinesFrame, period: string): (r: Result<seq<DemandRecord>, string>)
    ensures !HasAll(orders.columns, OrderColumns) ==> r == Failure(OrdersKeyError)
    ensures HasAll(orders.columns, OrderColumns) && !HasAll(lines.columns, LineColumns) ==> r == Failure(LinesKeyError)
    ensures r.Success? <==> HasAll(orders.columns, OrderColumns) && HasAll(lines.columns, LineColumns)
  {
    if !HasAll(orders.columns, OrderColumns) then Failure(OrdersKeyError)
    else if !HasAll(lines.columns, LineColumns) then Failure(LinesKeyError)
    else Success(GroupedRows(orders, lines, period))
  }

  /** `type` and `channel` are selected but read nowhere: an orders table
      without them fails even though every other column is there. */
  lemma UnreadColumnsRequired(orders: OrdersFrame, lines: LinesFrame, period: string)
    requires "type" !in orders.columns || "channel" !in orders.columns
    ensures CreateDemandDataset(orders, lines, period) == Failure(OrdersKeyError)
  {
    assert OrderColumns[3] == "type" && OrderColumns[4] == "channel";
  }

  function RecordKey(r: DemandRecord): Key {
    Key(r.date, r.itemId, r.placeId)
  }

  /** The dataset lists each (date, item, place) once, in key order, and each
      row's demand is the total units of the completed lines with its key. */
  lemma DatasetRowsAreGroupTotals(orders: OrdersFrame, lines: LinesFrame, period: string)
    ensures var d := CreateDemandDataset(orders, lines, period);
      d.Success? ==> var r := d.value;
      && (forall i, j :: 0 <= i < j < |r| ==> KeyLess(RecordKey(r[i]), RecordKey(r[j])))
      && (forall i :: 0 <= i < |r| ==>
            var rows := CompletedRows(lines, orders);
            RowsFor(rows, period, RecordKey(r[i])) > 0
            && r[i].demand == UnitsFor(rows, period, RecordKey(r[i])))
  {
    var rows := CompletedRows(lines, orders);
    var gs := Aggregate(rows, period);
    AggregateCountsPositive(rows, period);
    var r := GroupedRows(orders, lines, period);
    forall i | 0 <= i < |r|
      ensures RowsFor(rows, period, RecordKey(r[i])) > 0
      ensures r[i].demand == UnitsFor(rows, period, RecordKey(r[i]))
    {
      var k := gs[i].key;
      assert RecordKey(r[i]) == k;
      AggregateIsGroupSum(rows, period, k);
      FindUnique(gs, i);
    }
  }

  /** In a key-sorted list, looking up an element's key finds that element. */
  lemma {:induction false} FindUnique(gs: seq<Group>, i: nat)
    requires StrictlySorted(gs) && i < |gs|
    ensures Find(gs, gs[i].key) == Some(gs[i])
    decreases i
  {
    if i > 0 {
      KeyLessIrreflexive(gs[0].key);
      assert gs[0].key != gs[i].key;
      FindUnique(gs[1..], i - 1);
    }
  }

  /** Every completed line with a timestamp and a place is counted in some
      row of a dataset that was built. */
  lemma EveryLineHasARow(orders: OrdersFrame, lines: LinesFrame, period: string, k: Key)
    requires CreateDemandDataset(orders, lines, period).Success?
    requires RowsFor(CompletedRows(lines, orders), period, k) > 0
    ensures exists i :: 0 <= i < |CreateDemandDataset(orders, lines, period).value|
                     && RecordKey(CreateDemandDataset(orders, lines, period).value[i]) == k
  {
    var rows := CompletedRows(lines, orders);
    var gs := Aggregate(rows, period);
    AggregateIsGroupSum(rows, period, k);
    AggregateCountsPositive(rows, period);
    var g := Find(gs, k).value;
    var i :| 0 <= i < |gs| && gs[i] == g;
    assert RecordKey(CreateDemandDataset(orders, lines, period).value[i]) == k;
  }

  /** Weekly datasets are dated on Mondays, monthly ones on the first. */
  lemma BucketedDates(orders: OrdersFrame, lines: LinesFrame, period: string)
    ensures var d := CreateDemandDataset(orders, lines, period);
      d.Success? ==> var r := d.value;
      && (period == "weekly" ==> forall i :: 0 <= i < |r| ==> Weekday(r[i].date) == 0)
      && (period == "monthly" ==> forall i :: 0 <= i < |r| ==> r[i].date.day == 1)
  {
    var rows := CompletedRows(lines, orders);
    var gs := Aggregate(rows, period);
    AggregateCountsPositive(rows, period);
    forall i | 0 <= i < |gs|
      ensures period == "weekly" ==> Weekday(gs[i].key.date) == 0
      ensures period == "monthly" ==> gs[i].key.date.day == 1
    {
      AggregatedKeysAreBucketed(rows, period, gs[i]);
    }
  }

  lemma {:induction false} AggregatedKeysAreBucketed(rows: seq<Joined>, period: string, g: Group)
    requires g in Aggregate(rows, period)
    ensures exists j :: j in rows && KeyOf(j, period) == Some(g.key)
    ensures period == "weekly" ==> Weekday(g.key.date) == 0
    ensures period == "monthly" ==> g.key.date.day == 1
    decreases |rows|
  {
    var init := rows[..|rows| - 1];
    var last := rows[|rows| - 1];
    if g in Aggregate(init, period) {
      AggregatedKeysAreBucketed(init, period, g);
      var j :| j in init && KeyOf(j, period) == Some(g.key);
      assert j in rows;
    } else {
      assert last in rows;
    }
  }
}
