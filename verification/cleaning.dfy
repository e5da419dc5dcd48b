/**
  The cleaning stage (app.py lines 69-81): numeric coercion of the order
  identifier with removal of the rows where it fails, integer conversion of the
  surviving identifiers, delivery time in days, coercion of the item order key
  and price, and one unit per item row.
 */
module Cleaning {
  import opened Tables
  import Seqs

  predicate IsDigit(c: char) {
    '0' <= c <= '9'
  }

  predicate AllDigits(s: string) {
    forall i :: 0 <= i < |s| ==> IsDigit(s[i])
  }

  /** The texts the model accepts as numbers: an optional sign followed by at least one decimal digit. */
  predicate IsIntegerText(s: string) {
    || (|s| > 0 && AllDigits(s))
    || (|s| > 1 && (s[0] == '-' || s[0] == '+') && AllDigits(s[1..]))
  }

  /** The value of a string of decimal digits, most significant first. */
  function DigitsValue(s: string): nat
    requires AllDigits(s)
  {
    if s == [] then 0
    else DigitsValue(s[..|s| - 1]) * 10 + (s[|s| - 1] as int - '0' as int)
  }

  /** The decimal digits of `n`, without leading zeros. */
  function Digits(n: nat): (s: string)
    ensures |s| > 0 && AllDigits(s)
  {
    if n < 10 then [('0' as int + n) as char]
    else Digits(n / 10) + [('0' as int + n % 10) as char]
  }

  /** How a whole number is written as text. */
  function ShowInteger(k: int): string {
    if k < 0 then "-" + Digits(-k) else Digits(k)
  }

  /** Text to integer; `None` for text that is not an integer. */
  function ParseInteger(s: string): (r: Option<int>)
    ensures r.Some? <==> IsIntegerText(s)
    ensures r.Some? && s[0] == '-' ==> r.value <= 0
    ensures r.Some? && s[0] != '-' ==> r.value >= 0
  {
    if |s| > 0 && AllDigits(s) then Some(DigitsValue(s))
    else if |s| > 1 && s[0] == '-' && AllDigits(s[1..]) then Some(0 - DigitsValue(s[1..]))
    else if |s| > 1 && s[0] == '+' && AllDigits(s[1..]) then Some(DigitsValue(s[1..]))
    else None
  }

  lemma {:induction false} DigitsRoundTrip(n: nat)
    ensures DigitsValue(Digits(n)) == n
  {
    if n >= 10 {
      DigitsRoundTrip(n / 10);
      var s := Digits(n);
      assert s[..|s| - 1] == Digits(n / 10);
    }
  }

  /** Reading back the text of an integer gives the integer. */
  lemma ParseShowRoundTrip(k: int)
    ensures ParseInteger(ShowInteger(k)) == Some(k)
  {
    if k < 0 {
      DigitsRoundTrip(-k);
      var s := ShowInteger(k);
      assert s[1..] == Digits(-k);
      assert !AllDigits(s) by { assert !IsDigit(s[0]); }
    } else {
      DigitsRoundTrip(k);
    }
  }

  /** `pd.to_numeric(errors='coerce')` on one cell: numbers pass, integer text
      is parsed, anything else becomes NaN (`None`). */
  function ToNumeric(c: Cell): (r: Option<real>)
    ensures c.Num? ==> r == Some(c.x)
    ensures c.Blank? ==> r == None
    ensures c.Text? ==> (r.Some? <==> IsIntegerText(c.s))
    ensures c.Text? && r.Some? ==> r == Some(ParseInteger(c.s).value as real)
  {
    match c
    case Num(x) => Some(x)
    case Text(s) => (match ParseInteger(s) case Some(k) => Some(k as real) case None => None)
    case Blank => None
  }

  /** `astype(int)` on a float: truncation toward zero. */
  function TruncateToInt(x: real): (r: int)
    ensures x >= 0.0 ==> r as real <= x < r as real + 1.0
    ensures x < 0.0 ==> r as real - 1.0 < x <= r as real
  {
    if x >= 0.0 then x.Floor else -((-x).Floor)
  }

  /** The cleaned identifier of an order row, or `None` when coercion fails and the row is dropped. */
  function CoerceOrderId(c: Cell): Option<int> {
    match ToNumeric(c)
    case Some(x) => Some(TruncateToInt(x))
    case None => None
  }

  predicate HasOrderId(r: RawOrder) {
    CoerceOrderId(r.id).Some?
  }

  /** Whole days from one day to a later one (`(b - a).dt.days`); not clamped,
      so it is negative when the second day comes first, and blank when either is. */
  function DaysBetween(from: Option<int>, to: Option<int>): (r: Option<int>)
    ensures r.Some? <==> from.Some? && to.Some?
    ensures r.Some? ==> from.value + r.value == to.value
    ensures r.Some? ==> (r.value < 0 <==> to.value < from.value)
  {
    if from.Some? && to.Some? then Some(to.value - from.value) else None
  }

  /** A cleaned order: `tempo_entrega_dias` is the delivery day minus the order day. */
  function MakeOrder(id: int, f: OrderFields): Order {
    Order(id, f, DaysBetween(f.orderDay, f.deliveryDay))
  }

  /** The order table after lines 69-76: rows whose identifier fails coercion are
      dropped, the others keep their columns and get an integer identifier. */
  function CleanOrders(raw: seq<RawOrder>): (r: seq<Order>)
    ensures |r| == Seqs.Count(raw, HasOrderId)
  {
    if raw == [] then []
    else
      var x := raw[|raw| - 1];
      var r := CleanOrders(raw[..|raw| - 1]);
      match CoerceOrderId(x.id)
      case None => r
      case Some(k) => r + [MakeOrder(k, x.fields)]
  }

  /** Every surviving order comes from a raw row whose identifier coerces to its integer identifier. */
  lemma {:induction false} CleanOrdersSound(raw: seq<RawOrder>)
    ensures forall o :: o in CleanOrders(raw) ==>
      exists i :: 0 <= i < |raw| && CoerceOrderId(raw[i].id) == Some(o.id) && o == MakeOrder(o.id, raw[i].fields)
  {
    if raw != [] {
      var init := raw[..|raw| - 1];
      var x := raw[|raw| - 1];
      var r := CleanOrders(init);
      CleanOrdersSound(init);
      var k := CoerceOrderId(x.id);
      assert CleanOrders(raw) == if k.Some? then r + [MakeOrder(k.value, x.fields)] else r;
      forall o | o in CleanOrders(raw)
        ensures exists i :: 0 <= i < |raw| && CoerceOrderId(raw[i].id) == Some(o.id) && o == MakeOrder(o.id, raw[i].fields)
      {
        if o in r {
          var i :| 0 <= i < |init| && CoerceOrderId(init[i].id) == Some(o.id) && o == MakeOrder(o.id, init[i].fields);
          assert raw[i] == init[i];
        } else {
          assert raw[|raw| - 1] == x;
        }
      }
    }
  }

  /** Every raw row whose identifier coerces survives, with that identifier. */
  lemma {:induction false} CleanOrdersComplete(raw: seq<RawOrder>)
    ensures forall i :: 0 <= i < |raw| && HasOrderId(raw[i]) ==>
      MakeOrder(CoerceOrderId(raw[i].id).value, raw[i].fields) in CleanOrders(raw)
  {
    if raw != [] {
      var init := raw[..|raw| - 1];
      var x := raw[|raw| - 1];
      var r := CleanOrders(init);
      CleanOrdersComplete(init);
      var k := CoerceOrderId(x.id);
      assert CleanOrders(raw) == if k.Some? then r + [MakeOrder(k.value, x.fields)] else r;
      forall i | 0 <= i < |raw| && HasOrderId(raw[i])
        ensures MakeOrder(CoerceOrderId(raw[i].id).value, raw[i].fields) in CleanOrders(raw)
      {
        if i < |raw| - 1 {
          assert raw[i] == init[i];
        }
      }
    }
  }

  /** An order as a loaded row again, its identifier stored as a number. */
  function AsRaw(o: Order): RawOrder {
    RawOrder(Num(o.id as real), o.fields)
  }

  function AsRawTable(os: seq<Order>): (r: seq<RawOrder>)
    ensures |r| == |os|
    ensures forall i :: 0 <= i < |os| ==> r[i] == AsRaw(os[i])
  {
    seq(|os|, i requires 0 <= i < |os| => AsRaw(os[i]))
  }

  /** Cleaning an already cleaned order table changes nothing. */
  lemma {:induction false} CleanOrdersOfCleaned(os: seq<Order>)
    requires forall i :: 0 <= i < |os| ==> os[i] == MakeOrder(os[i].id, os[i].fields)
    ensures CleanOrders(AsRawTable(os)) == os
  {
    if os != [] {
      var init := os[..|os| - 1];
      var o := os[|os| - 1];
      assert AsRawTable(os)[..|os| - 1] == AsRawTable(init);
      CleanOrdersOfCleaned(init);
      assert TruncateToInt(o.id as real) == o.id;
      assert CoerceOrderId(AsRaw(o).id) == Some(o.id);
    }
  }

  /** Running the cleaning twice yields the same rows as running it once. */
  lemma CleanOrdersIdempotent(raw: seq<RawOrder>)
    ensures CleanOrders(AsRawTable(CleanOrders(raw))) == CleanOrders(raw)
  {
    var os := CleanOrders(raw);
    CleanOrdersSound(raw);
    forall i | 0 <= i < |os|
      ensures os[i] == MakeOrder(os[i].id, os[i].fields)
    {
      assert os[i] in os;
      var j :| 0 <= j < |raw| && CoerceOrderId(raw[j].id) == Some(os[i].id) && os[i] == MakeOrder(os[i].id, raw[j].fields);
    }
    CleanOrdersOfCleaned(os);
  }

  /** `pd.to_numeric(price, errors='coerce').fillna(0)`. */
  function CoercePrice(c: Cell): (p: real)
    ensures ToNumeric(c).Some? ==> p == ToNumeric(c).value
    ensures ToNumeric(c).None? ==> p == 0.0
  {
    match ToNumeric(c)
    case Some(x) => x
    case None => 0.0
  }

  /** The item table after lines 79-81: no row is dropped, the order key is
      coerced (and may be missing), the price defaults to 0, the quantity is 1. */
  function CleanItems(raw: seq<RawItem>): (r: seq<Item>)
    ensures |r| == |raw|
    ensures forall i :: 0 <= i < |raw| ==>
      && r[i].quantity == 1
      && r[i].orderKey == ToNumeric(raw[i].orderId)
      && r[i].price == CoercePrice(raw[i].price)
      && r[i].materialId == raw[i].materialId
      && r[i].name == raw[i].name
      && r[i].category == raw[i].category
  {
    seq(|raw|, i requires 0 <= i < |raw| =>
      Item(ToNumeric(raw[i].orderId), raw[i].materialId, raw[i].name, raw[i].category,
           CoercePrice(raw[i].price), 1))
  }
}
