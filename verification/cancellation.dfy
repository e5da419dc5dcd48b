/**
  Cancellation rates (app.py lines 505-524).  The overall rate is taken over
  the orders, each order once, through its first unified row; the rate per
  carrier and the volume filter that keeps carriers with more than 50 rows are
  both counted over unified rows, so an order with several items weighs once
  per item.
 */
module Cancellation {
  import opened Tables
  import opened Seqs
  import opened Sorting

  /** `drop_duplicates(subset='id_pedido')`: the first row of each order. */
  function UniqueOrders(rows: seq<Unified>): (r: seq<Unified>)
    ensures |r| <= |rows|
    ensures DistinctOrders(r)
  {
    FirstPerKey(rows, OrderIdOf)
  }

  /** There is one first row per distinct order: each kept row is the first row of
      the table with its order id, and every order keeps one. */
  lemma UniqueOrdersSpec(rows: seq<Unified>)
    ensures |UniqueOrders(rows)| == |Keys(rows, OrderIdOf)|
    ensures forall u :: u in UniqueOrders(rows) ==> u in rows
    ensures forall u :: u in UniqueOrders(rows) ==>
      exists i :: 0 <= i < |rows| && rows[i] == u && FirstWithKey(rows, OrderIdOf, i)
    ensures forall i :: 0 <= i < |rows| ==> exists j :: 0 <= j < |UniqueOrders(rows)| && UniqueOrders(rows)[j].order.id == rows[i].order.id
  {
    FirstPerKeyKeys(rows, OrderIdOf);
    FirstPerKeySpec(rows, OrderIdOf);
  }

  /** `taxa_cancelamento_geral`: cancelled orders over orders, times 100; `None`
      when there is no order, where the division by zero raises. */
  function OverallCancelRate(rows: seq<Unified>): (r: Option<real>)
    ensures r.None? <==> rows == []
    ensures r.Some? ==> 0.0 <= r.value <= 100.0
    ensures r.Some? ==> RateOf(r.value, Count(UniqueOrders(rows), IsCanceled), |Keys(rows, OrderIdOf)|)
  {
    var u := UniqueOrders(rows);
    UniqueOrdersSpec(rows);
    if rows == [] then None
    else
      assert OrderIdOf(rows[0]) in Keys(rows, OrderIdOf);
      Some(Percent(Count(u, IsCanceled), |u|))
  }

  /** The rows of carrier `c`; rows with a blank carrier are in no group. */
  function CarrierGroup(rows: seq<Unified>, c: string): (g: seq<Unified>)
    ensures forall u :: u in g <==> u in rows && CarrierOf(u) == Some(c)
  {
    Filter(rows, u => CarrierOf(u) == Some(c))
  }

  /** A carrier needs more than this many rows to be shown. */
  const VolumeThreshold: nat := 50

  /** One bar of the chart: a carrier, its row count and its cancellation rate. */
  datatype CarrierCancel = CarrierCancel(carrier: string, volume: nat, rate: real)

  /** Some row names carrier `c`. */
  predicate HasCarrier(rows: seq<Unified>, c: string) {
    exists i :: 0 <= i < |rows| && CarrierOf(rows[i]) == Some(c)
  }

  /** The bar of carrier `c`: cancelled rows over rows, times 100. */
  function CarrierCancelOf(rows: seq<Unified>, c: string): (e: CarrierCancel)
    requires HasCarrier(rows, c)
    ensures e.carrier == c && e.volume == |CarrierGroup(rows, c)| > 0
    ensures 0.0 <= e.rate <= 100.0
    ensures RateOf(e.rate, Count(CarrierGroup(rows, c), IsCanceled), e.volume)
  {
    var g := CarrierGroup(rows, c);
    var i :| 0 <= i < |rows| && CarrierOf(rows[i]) == Some(c);
    assert rows[i] in g;
    CarrierCancel(c, |g|, Percent(Count(g, IsCanceled), |g|))
  }

  /** Bars for the listed carriers, in list order. */
  function CarrierCancels(cs: seq<string>, rows: seq<Unified>): (r: seq<CarrierCancel>)
    requires forall i :: 0 <= i < |cs| ==> HasCarrier(rows, cs[i])
    ensures |r| == |cs|
    ensures forall i :: 0 <= i < |cs| ==> r[i] == CarrierCancelOf(rows, cs[i])
  {
    seq(|cs|, i requires 0 <= i < |cs| => CarrierCancelOf(rows, cs[i]))
  }

  /** `sort_values(ascending=False)` on the rate. */
  predicate HigherRate(a: CarrierCancel, b: CarrierCancel) {
    a.rate >= b.rate
  }

  lemma HigherRateIsPreorder()
    ensures TotalPreorder(HigherRate)
  {
  }

  /** Every carrier with a row, with its bar, highest rate first. */
  function RankedCarriers(rows: seq<Unified>): (r: seq<CarrierCancel>)
    ensures multiset(r) == multiset(CarrierCancels(PresentKeys(rows, CarrierOf), rows))
    ensures forall i, j :: 0 <= i < j < |r| ==> r[i].rate >= r[j].rate
  {
    var cs := PresentKeys(rows, CarrierOf);
    HigherRateIsPreorder();
    var r := Sort(CarrierCancels(cs, rows), HigherRate);
    assert SortedBy(r, HigherRate);
    r
  }

  /** A bar is shown for carriers with more than `VolumeThreshold` rows. */
  predicate Relevant(e: CarrierCancel) {
    e.volume > VolumeThreshold
  }

  /** `cancel_por_transportadora` after the volume filter. */
  function CarrierCancelRates(rows: seq<Unified>): (r: seq<CarrierCancel>)
    ensures forall i, j :: 0 <= i < j < |r| ==> r[i].rate >= r[j].rate
  {
    var ranked := RankedCarriers(rows);
    var r := Filter(ranked, Relevant);
    FilterKeepsOrder(ranked, Relevant, HigherRate);
    r
  }

  /** A shown bar belongs to a carrier with more than 50 rows and holds its rate. */
  lemma CarrierCancelRatesSound(rows: seq<Unified>)
    ensures forall e :: e in CarrierCancelRates(rows) ==>
      && HasCarrier(rows, e.carrier)
      && e == CarrierCancelOf(rows, e.carrier)
      && e.volume > VolumeThreshold
  {
    var ranked := RankedCarriers(rows);
    assert CarrierCancelRates(rows) == Filter(ranked, Relevant);
    forall e | e in CarrierCancelRates(rows)
      ensures HasCarrier(rows, e.carrier) && e == CarrierCancelOf(rows, e.carrier) && e.volume > VolumeThreshold
    {
      assert e in ranked && Relevant(e);
      RankedCarrierEntry(rows, e);
    }
  }

  /** A ranked bar is the bar of a carrier with a row. */
  lemma RankedCarrierEntry(rows: seq<Unified>, e: CarrierCancel)
    requires e in RankedCarriers(rows)
    ensures HasCarrier(rows, e.carrier) && e == CarrierCancelOf(rows, e.carrier)
  {
    var cs := PresentKeys(rows, CarrierOf);
    CarriersPresent(rows);
    var es := CarrierCancels(cs, rows);
    assert e in multiset(RankedCarriers(rows));
    assert e in multiset(es);
    var k :| 0 <= k < |es| && es[k] == e;
    assert HasCarrier(rows, cs[k]) && e == CarrierCancelOf(rows, cs[k]);
  }

  /** Every grouped carrier names some row. */
  lemma CarriersPresent(rows: seq<Unified>)
    ensures forall i :: 0 <= i < |PresentKeys(rows, CarrierOf)| ==> HasCarrier(rows, PresentKeys(rows, CarrierOf)[i])
  {
    var cs := PresentKeys(rows, CarrierOf);
    forall i | 0 <= i < |cs| ensures HasCarrier(rows, cs[i]) {
      assert cs[i] in cs;
    }
  }

  /** Every carrier with more than 50 rows is shown. */
  lemma CarrierCancelRatesComplete(rows: seq<Unified>, c: string)
    requires |CarrierGroup(rows, c)| > VolumeThreshold
    ensures CarrierCancelOf(rows, c) in CarrierCancelRates(rows)
  {
    var cs := PresentKeys(rows, CarrierOf);
    var u := CarrierGroup(rows, c)[0];
    assert u in CarrierGroup(rows, c);
    var i :| 0 <= i < |rows| && rows[i] == u;
    assert HasCarrier(rows, c);
    assert c in cs;
    var k :| 0 <= k < |cs| && cs[k] == c;
    var es := CarrierCancels(cs, rows);
    assert es[k] in multiset(RankedCarriers(rows));
  }

  /** No carrier is shown twice. */
  lemma CarrierCancelRatesDistinct(rows: seq<Unified>)
    ensures forall i, j :: 0 <= i < j < |CarrierCancelRates(rows)| ==>
      CarrierCancelRates(rows)[i].carrier != CarrierCancelRates(rows)[j].carrier
  {
    var cs := PresentKeys(rows, CarrierOf);
    var es := CarrierCancels(cs, rows);
    var ranked := RankedCarriers(rows);
    var r := CarrierCancelRates(rows);
    assert NoDups(es) by {
      forall i, j | 0 <= i < j < |es| ensures es[i] != es[j] {
        assert es[i].carrier == cs[i] && es[j].carrier == cs[j];
      }
    }
    PermutationKeepsNoDups(es, ranked);
    FilterKeepsNoDups(ranked, Relevant);
    CarrierCancelRatesSound(rows);
    forall i, j | 0 <= i < j < |r| ensures r[i].carrier != r[j].carrier {
      assert r[i] in r && r[j] in r;
      assert r[i] != r[j];
    }
  }
}
