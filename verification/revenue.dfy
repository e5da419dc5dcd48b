/**
  Line revenue, per-order subtotal and the discount validity band (app.py
  lines 113-114 and 218-228): the inferred discount of an order is its
  subtotal minus its invoice value, and only orders whose discount is
  non-negative and below 95% of the subtotal are kept for the
  discount-versus-value analysis.
 */
module Revenue {
  import opened Tables
  import opened Seqs

  /** Line revenue `quantidade * price`; blank (NaN) for an order row without an item. */
  function LineRevenue(u: Unified): (r: Option<real>)
    ensures r.Some? <==> u.line.Some?
    ensures r.Some? ==> r.value == (u.line.value.item.quantity as real) * u.line.value.item.price
  {
    if u.line.Some? then Some((u.line.value.item.quantity as real) * u.line.value.item.price) else None
  }

  /** The revenue a row adds to a sum: pandas' `sum` skips blanks. */
  function RevenueValue(u: Unified): real {
    var r := LineRevenue(u);
    if r.Some? then r.value else 0.0
  }

  /** The mask of the rows of order `id`. */
  function OfOrder(id: int): Unified -> bool {
    (u: Unified) => u.order.id == id
  }

  /** `subtotal_calculado`: the summed line revenue of order `id`. */
  function Subtotal(rows: seq<Unified>, id: int): (r: real)
    ensures r == Sum(Filter(rows, OfOrder(id)), RevenueValue)
  {
    SumKeyIsFilterSum(rows, OrderIdOf, id, RevenueValue, OfOrder(id));
    SumKey(rows, OrderIdOf, id, RevenueValue)
  }

  /** The price a row adds to a sum of prices; a row without an item adds nothing. */
  function PriceValue(u: Unified): real {
    if u.line.Some? then u.line.value.item.price else 0.0
  }

  /** With one unit per item row, as the cleaned item table has, an order's
      subtotal is the sum of its items' prices; an order without items has 0. */
  lemma SubtotalIsPriceSum(rows: seq<Unified>, id: int)
    requires forall i :: 0 <= i < |rows| && rows[i].line.Some? ==> rows[i].line.value.item.quantity == 1
    ensures Subtotal(rows, id) == SumKey(rows, OrderIdOf, id, PriceValue)
    ensures (forall i :: 0 <= i < |rows| && rows[i].order.id == id ==> rows[i].line.None?) ==> Subtotal(rows, id) == 0.0
  {
    SumKeyCongruent(rows, OrderIdOf, id, RevenueValue, PriceValue);
    if forall i :: 0 <= i < |rows| && rows[i].order.id == id ==> rows[i].line.None? {
      SumKeyZero(rows, OrderIdOf, id, RevenueValue);
    }
  }

  /** The per-order subtotals add up to the revenue of the whole table. */
  lemma SubtotalsConserveRevenue(rows: seq<Unified>)
    ensures SumOverKeys(Keys(rows, OrderIdOf), rows, OrderIdOf, RevenueValue) == Sum(rows, RevenueValue)
  {
    GroupSumsConserveTotal(rows, OrderIdOf, RevenueValue);
  }

  /** The share of the subtotal a plausible discount stays below. */
  const BandLimit: real := 0.95

  /** The filter of lines 225-228 on the inferred discount `subtotal - invoice`. */
  predicate InDiscountBand(subtotal: real, invoice: real): (r: bool)
    ensures r <==> subtotal > 0.0 && 0.0 <= (subtotal - invoice) / subtotal < BandLimit
  {
    var discount := subtotal - invoice;
    discount >= 0.0 && discount < subtotal * BandLimit
  }

  /** The band read on the invoice instead of the discount: more than 5% of the
      subtotal and no more than the subtotal itself. */
  lemma DiscountBandOnInvoice(subtotal: real, invoice: real)
    ensures InDiscountBand(subtotal, invoice) <==> subtotal * 0.05 < invoice <= subtotal
    ensures InDiscountBand(subtotal, invoice) ==> subtotal > 0.0
  {
  }

  /** Subtotal 100 with invoice 90 (discount 10) is kept; invoice 1 (discount 99) is not. */
  lemma DiscountBandExamples()
    ensures InDiscountBand(100.0, 90.0)
    ensures !InDiscountBand(100.0, 1.0)
  {
  }

  /** One point of the discount scatter plot. */
  datatype DiscountPoint = DiscountPoint(id: int, subtotal: real, invoice: real, discount: real)

  /** The columns `[id_pedido, valor_nf]` whose distinct pairs the analysis is over. */
  function InvoiceKey(u: Unified): (int, Option<real>) {
    (u.order.id, u.order.fields.invoice)
  }

  /** The kept points for the listed (order, invoice) pairs; a blank invoice
      makes the discount NaN, which fails both comparisons. */
  function PointsFor(pairs: seq<(int, Option<real>)>, rows: seq<Unified>): (r: seq<DiscountPoint>)
    ensures forall p :: p in r ==>
      && (p.id, Some(p.invoice)) in pairs
      && p.subtotal == Subtotal(rows, p.id)
      && p.discount == p.subtotal - p.invoice
      && InDiscountBand(p.subtotal, p.invoice)
    ensures forall k :: k in pairs && k.1.Some? && InDiscountBand(Subtotal(rows, k.0), k.1.value) ==>
      exists p :: p in r && p.id == k.0 && p.invoice == k.1.value
  {
    if pairs == [] then []
    else
      var init := pairs[..|pairs| - 1];
      var k := pairs[|pairs| - 1];
      var r := PointsFor(init, rows);
      assert forall q :: q in pairs <==> q in init || q == k;
      var s := Subtotal(rows, k.0);
      if k.1.Some? && InDiscountBand(s, k.1.value) then
        var p := DiscountPoint(k.0, s, k.1.value, s - k.1.value);
        assert p in r + [p];
        r + [p]
      else r
  }

  /** The filtered discount analysis of lines 218-228. */
  function DiscountPoints(rows: seq<Unified>): (r: seq<DiscountPoint>)
    ensures forall p :: p in r ==>
      && p.subtotal == Subtotal(rows, p.id)
      && p.discount == p.subtotal - p.invoice
      && 0.0 <= p.discount < p.subtotal * BandLimit
  {
    PointsFor(Keys(rows, InvoiceKey), rows)
  }

  /** An order is kept exactly when its invoice is present and its discount lies
      in the band; a kept point carries the order's subtotal and discount. */
  lemma DiscountPointsSpec(rows: seq<Unified>)
    ensures forall p :: p in DiscountPoints(rows) ==>
      && (exists i :: 0 <= i < |rows| && rows[i].order.id == p.id && rows[i].order.fields.invoice == Some(p.invoice))
      && p.subtotal == Subtotal(rows, p.id)
      && p.discount == p.subtotal - p.invoice
      && InDiscountBand(p.subtotal, p.invoice)
    ensures forall i :: 0 <= i < |rows| && rows[i].order.fields.invoice.Some?
                        && InDiscountBand(Subtotal(rows, rows[i].order.id), rows[i].order.fields.invoice.value) ==>
      exists p :: p in DiscountPoints(rows) && p.id == rows[i].order.id && p.invoice == rows[i].order.fields.invoice.value
  {
    var pairs := Keys(rows, InvoiceKey);
    forall p | p in DiscountPoints(rows)
      ensures exists i :: 0 <= i < |rows| && rows[i].order.id == p.id && rows[i].order.fields.invoice == Some(p.invoice)
    {
      assert (p.id, Some(p.invoice)) in pairs;
      var i :| 0 <= i < |rows| && InvoiceKey(rows[i]) == (p.id, Some(p.invoice));
    }
    forall i | 0 <= i < |rows| && rows[i].order.fields.invoice.Some?
               && InDiscountBand(Subtotal(rows, rows[i].order.id), rows[i].order.fields.invoice.value)
      ensures exists p :: p in DiscountPoints(rows) && p.id == rows[i].order.id && p.invoice == rows[i].order.fields.invoice.value
    {
      var k := InvoiceKey(rows[i]);
      assert k in pairs;
      assert k.0 == rows[i].order.id && k.1 == rows[i].order.fields.invoice;
      assert k.1.Some? && InDiscountBand(Subtotal(rows, k.0), k.1.value);
      assert DiscountPoints(rows) == PointsFor(pairs, rows);
    }
  }
}
