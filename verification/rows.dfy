/** Row types shared by the forecasting components, and the pandas
    conventions for missing values. A DataFrame is a sequence of rows;
    a NaN cell is `None`. */
module Rows {

  import opened Wrappers
  import opened Calendar

  /** One row of the aggregated demand dataset: total units of one item at
      one place over one period starting on `date`. */
  datatype DemandRecord = DemandRecord(
    date: CalDate,
    itemId: int,
    placeId: int,
    demand: real,
    price: real,
    totalAmount: real)

  /** A dynamically typed Python argument, as the prediction entry points
      receive `item_id` and `place_id`. */
  datatype Value = VInt(i: int) | VBool(b: bool) | VFloat(r: real) | VStr(s: string) | VNone

  /** `isinstance(v, (int, np.integer))`; a Python `bool` is an `int`. */
  predicate IsInteger(v: Value) {
    v.VInt? || v.VBool?
  }

  /** The integer an integer-typed value stands for. */
  function IntOf(v: Value): int
    requires IsInteger(v)
  {
    match v
    case VInt(i) => i
    case VBool(b) => if b then 1 else 0
  }

  /** `type(v).__name__`. */
  function TypeName(v: Value): string {
    match v
    case VInt(_) => "int"
    case VBool(_) => "bool"
    case VFloat(_) => "float"
    case VStr(_) => "str"
    case VNone => "NoneType"
  }

  /** The non-missing cells of a column, in order (what pandas reductions see). */
  function Present(xs: seq<Option<real>>): (r: seq<real>)
    ensures |r| <= |xs|
    ensures forall x :: x in r <==> Some(x) in xs
    ensures |r| == 0 <==> forall i :: 0 <= i < |xs| ==> xs[i].None?
    decreases |xs|
  {
    if |xs| == 0 then []
    else
      assert xs == [xs[0]] + xs[1..];
      match xs[0]
      case Some(x) => [x] + Present(xs[1..])
      case None => Present(xs[1..])
  }
}
