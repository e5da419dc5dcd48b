/**
  Delivery performance (app.py lines 447-457 and 600-615).  Both analyses read
  one row per order.  The funnel keeps the orders whose preparation time
  (order to shipment) and transit time (shipment to delivery) are both known
  and non-negative.  The SLA analysis keeps the orders with a delivery day and
  a carrier deadline, calls a delivery late when it comes strictly after the
  deadline, and reports per carrier the deliveries, the late ones and their
  percentage.
 */
module Logistics {
  import opened Tables
  import opened Seqs
  import opened Cleaning
  import opened Cancellation
  import opened Sorting

  /** `tempo_preparo`: days from order to shipment. */
  function PrepDays(u: Unified): (r: Option<int>)
    ensures r.Some? <==> u.order.fields.orderDay.Some? && u.order.fields.shippedDay.Some?
    ensures r.Some? ==> u.order.fields.orderDay.value + r.value == u.order.fields.shippedDay.value
  {
    DaysBetween(u.order.fields.orderDay, u.order.fields.shippedDay)
  }

  /** `tempo_transito`: days from shipment to delivery. */
  function TransitDays(u: Unified): (r: Option<int>)
    ensures r.Some? <==> u.order.fields.shippedDay.Some? && u.order.fields.deliveryDay.Some?
    ensures r.Some? ==> u.order.fields.shippedDay.value + r.value == u.order.fields.deliveryDay.value
  {
    DaysBetween(u.order.fields.shippedDay, u.order.fields.deliveryDay)
  }

  /** A blank day count fails the `>= 0` test, as a NaN comparison does. */
  predicate NonNegative(d: Option<int>) {
    d.Some? && d.value >= 0
  }

  /** The funnel keeps an order dated at all three steps, shipped no earlier than
      ordered and delivered no earlier than shipped. */
  predicate InFunnel(u: Unified): (r: bool)
    ensures r <==>
      && u.order.fields.orderDay.Some? && u.order.fields.shippedDay.Some? && u.order.fields.deliveryDay.Some?
      && u.order.fields.orderDay.value <= u.order.fields.shippedDay.value <= u.order.fields.deliveryDay.value
  {
    NonNegative(PrepDays(u)) && NonNegative(TransitDays(u))
  }

  /** `df_funil` after the non-negativity filter: the orders dated at every
      step, with the steps in order. */
  function FunnelRows(rows: seq<Unified>): (r: seq<Unified>)
    ensures forall u :: u in r <==>
      && u in UniqueOrders(rows)
      && u.order.fields.orderDay.Some? && u.order.fields.shippedDay.Some? && u.order.fields.deliveryDay.Some?
      && u.order.fields.orderDay.value <= u.order.fields.shippedDay.value <= u.order.fields.deliveryDay.value
    ensures DistinctOrders(r)
  {
    var us := UniqueOrders(rows);
    var r := Filter(us, InFunnel);
    FilterKeepsOrderIds(us);
    r
  }

  /** A mask over the first rows per order still has one row per order. */
  lemma FilterKeepsOrderIds(us: seq<Unified>)
    requires DistinctOrders(us)
    ensures DistinctOrders(Filter(us, InFunnel))
  {
    DistinctIdsFilter(us, InFunnel);
  }

  /** Rows with distinct orders keep distinct orders under any mask. */
  lemma {:induction false} DistinctIdsFilter(us: seq<Unified>, p: Unified -> bool)
    requires DistinctOrders(us)
    ensures DistinctOrders(Filter(us, p))
  {
    if us != [] {
      var init := us[..|us| - 1];
      var x := us[|us| - 1];
      assert DistinctOrders(init) by {
        forall i, j | 0 <= i < j < |init| ensures init[i].order.id != init[j].order.id {
          assert init[i] == us[i] && init[j] == us[j];
        }
      }
      DistinctIdsFilter(init, p);
      var r := Filter(init, p);
      if p(x) {
        forall i | 0 <= i < |r| ensures r[i].order.id != x.order.id {
          assert r[i] in init;
          var k :| 0 <= k < |init| && init[k] == r[i];
          assert us[k] == r[i];
        }
        var f := r + [x];
        assert Filter(us, p) == f;
        forall i, j | 0 <= i < j < |f| ensures f[i].order.id != f[j].order.id {
          if j == |r| {
            assert f[i] == r[i] && f[j] == x;
          } else {
            assert f[i] == r[i] && f[j] == r[j];
          }
        }
      } else {
        assert Filter(us, p) == r;
      }
    }
  }

  /** The two stages of a funnel order add up to its delivery time, which for a
      cleaned order is its `tempo_entrega_dias`. */
  lemma FunnelSplitsDelivery(rows: seq<Unified>, u: Unified)
    requires u in FunnelRows(rows)
    ensures PrepDays(u).value + TransitDays(u).value == DaysBetween(u.order.fields.orderDay, u.order.fields.deliveryDay).value
    ensures u.order == MakeOrder(u.order.id, u.order.fields) ==>
      u.order.deliveryDays == Some(PrepDays(u).value + TransitDays(u).value)
  {
  }

  /** The delivery and deadline columns are both filled (`dropna`). */
  predicate HasSlaDates(u: Unified) {
    u.order.fields.deliveryDay.Some? && u.order.fields.deadlineDay.Some?
  }

  /** `atrasado`: delivered on a later day than the carrier's deadline. */
  predicate IsLate(u: Unified): (r: bool)
    ensures r <==> HasSlaDates(u) && DaysBetween(u.order.fields.deadlineDay, u.order.fields.deliveryDay).value >= 1
  {
    HasSlaDates(u) && u.order.fields.deliveryDay.value > u.order.fields.deadlineDay.value
  }

  /** Delivery on the deadline day is on time; one day after is late. */
  lemma LateExamples(u: Unified)
    requires HasSlaDates(u)
    ensures u.order.fields.deliveryDay == u.order.fields.deadlineDay ==> !IsLate(u)
    ensures u.order.fields.deliveryDay.value == u.order.fields.deadlineDay.value + 1 ==> IsLate(u)
  {
  }

  /** `df_prazos`: one row per order, with both days known. */
  function SlaRows(rows: seq<Unified>): (r: seq<Unified>)
    ensures forall u :: u in r <==> u in UniqueOrders(rows) && HasSlaDates(u)
    ensures DistinctOrders(r)
  {
    var us := UniqueOrders(rows);
    DistinctIdsFilter(us, HasSlaDates);
    Filter(us, HasSlaDates)
  }

  /** The SLA rows of carrier `c`. */
  function SlaGroup(rows: seq<Unified>, c: string): (r: seq<Unified>)
    ensures forall u :: u in r <==> u in UniqueOrders(rows) && HasSlaDates(u) && CarrierOf(u) == Some(c)
    ensures DistinctOrders(r)
  {
    var sla := SlaRows(rows);
    DistinctIdsFilter(sla, u => CarrierOf(u) == Some(c));
    CarrierGroup(sla, c)
  }

  /** One carrier's line of `sla_transportadora`. */
  datatype CarrierSla = CarrierSla(carrier: string, total: nat, late: nat, rate: real)

  /** Some SLA row names carrier `c`. */
  predicate HasSlaCarrier(rows: seq<Unified>, c: string) {
    HasCarrier(SlaRows(rows), c)
  }

  /** The line of carrier `c`: deliveries, late ones, and late over deliveries times 100. */
  function SlaOf(rows: seq<Unified>, c: string): (e: CarrierSla)
    requires HasSlaCarrier(rows, c)
    ensures e.carrier == c && e.total == |SlaGroup(rows, c)| > 0
    ensures e.late == Count(SlaGroup(rows, c), IsLate) <= e.total
    ensures 0.0 <= e.rate <= 100.0
    ensures RateOf(e.rate, e.late, e.total)
  {
    var g := SlaGroup(rows, c);
    var sla := SlaRows(rows);
    var i :| 0 <= i < |sla| && CarrierOf(sla[i]) == Some(c);
    assert sla[i] in g;
    var late := Count(g, IsLate);
    CarrierSla(c, |g|, late, Percent(late, |g|))
  }

  /** Lines for the listed carriers, in list order. */
  function SlaLines(cs: seq<string>, rows: seq<Unified>): (r: seq<CarrierSla>)
    requires forall i :: 0 <= i < |cs| ==> HasSlaCarrier(rows, cs[i])
    ensures |r| == |cs|
    ensures forall i :: 0 <= i < |cs| ==> r[i] == SlaOf(rows, cs[i])
  {
    seq(|cs|, i requires 0 <= i < |cs| => SlaOf(rows, cs[i]))
  }

  /** `sla_transportadora`: a line per carrier of the SLA rows. */
  function SlaByCarrier(rows: seq<Unified>): (r: seq<CarrierSla>)
    ensures forall i :: 0 <= i < |r| ==> HasSlaCarrier(rows, r[i].carrier) && r[i] == SlaOf(rows, r[i].carrier)
    ensures forall i, j :: 0 <= i < j < |r| ==> r[i].carrier != r[j].carrier
  {
    var cs := PresentKeys(SlaRows(rows), CarrierOf);
    SlaLines(cs, rows)
  }

  /** `sort_values('taxa_atraso_%', ascending=False)`. */
  predicate LaterRate(a: CarrierSla, b: CarrierSla) {
    a.rate >= b.rate
  }

  lemma LaterRateIsPreorder()
    ensures TotalPreorder(LaterRate)
  {
  }

  /** The bars of the SLA chart: every carrier's line, highest late rate first. */
  function SlaChart(rows: seq<Unified>): (r: seq<CarrierSla>)
    ensures multiset(r) == multiset(SlaByCarrier(rows))
    ensures forall i, j :: 0 <= i < j < |r| ==> r[i].rate >= r[j].rate
  {
    LaterRateIsPreorder();
    var r := Sort(SlaByCarrier(rows), LaterRate);
    assert SortedBy(r, LaterRate);
    r
  }

  /** Each bar of the SLA chart is the line of a carrier with an SLA row. */
  lemma SlaChartSound(rows: seq<Unified>)
    ensures forall e :: e in SlaChart(rows) ==> HasSlaCarrier(rows, e.carrier) && e == SlaOf(rows, e.carrier)
  {
    var lines := SlaByCarrier(rows);
    forall e | e in SlaChart(rows)
      ensures HasSlaCarrier(rows, e.carrier) && e == SlaOf(rows, e.carrier)
    {
      assert e in multiset(SlaChart(rows));
      assert e in multiset(lines);
      var k :| 0 <= k < |lines| && lines[k] == e;
    }
  }

  /** Every carrier with an SLA row has a bar. */
  lemma SlaChartComplete(rows: seq<Unified>, c: string)
    requires HasSlaCarrier(rows, c)
    ensures SlaOf(rows, c) in SlaChart(rows)
  {
    SlaByCarrierMembers(rows, c);
    var lines := SlaByCarrier(rows);
    var k :| 0 <= k < |lines| && lines[k].carrier == c;
    assert lines[k] in multiset(SlaChart(rows));
  }

  /** Exactly the carriers with an SLA row have a line. */
  lemma SlaByCarrierMembers(rows: seq<Unified>, c: string)
    ensures (exists i :: 0 <= i < |SlaByCarrier(rows)| && SlaByCarrier(rows)[i].carrier == c) <==> HasSlaCarrier(rows, c)
  {
    var cs := PresentKeys(SlaRows(rows), CarrierOf);
    if HasSlaCarrier(rows, c) {
      assert c in cs;
      var k :| 0 <= k < |cs| && cs[k] == c;
      assert SlaByCarrier(rows) == SlaLines(cs, rows);
      assert SlaByCarrier(rows)[k].carrier == c;
    }
  }
}
