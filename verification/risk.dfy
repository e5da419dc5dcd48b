/**
  Supply-risk tiers and the cancellation rate per tier (app.py lines 311-335).
  A material in the critical list with zero days of coverage is in rupture, one
  with 1 to 6 days is on alert; every unified row takes the tier of its
  material (`Baixo` by default, then `Médio`, then `Alto`, each assignment
  overriding the previous one), an order takes the highest tier of its rows,
  and the cancellation rate of a tier is the share of the distinct
  (order, status) pairs of its orders whose status is `canceled`.
 */
module Risk {
  import opened Tables
  import opened Seqs
  import opened Stock

  /** `Baixo`, `Médio (Alerta)`, `Alto (Ruptura)`. */
  datatype Tier = Low | Medium | High

  /** `risco_num`. */
  function Rank(t: Tier): nat {
    match t
    case Low => 0
    case Medium => 1
    case High => 2
  }

  /** Coverage below this many days puts a material on alert. */
  const AlertDays: int := 7

  /** `ids_ruptura`: a listed row of `m` has zero days of coverage. */
  predicate InRupture(list: seq<Critical>, m: int) {
    exists i :: 0 <= i < |list| && list[i].materialId == m && list[i].coverage == 0
  }

  /** `ids_alerta`: a listed row of `m` has between 1 and 6 days of coverage. */
  predicate InAlert(list: seq<Critical>, m: int) {
    exists i :: 0 <= i < |list| && list[i].materialId == m && 0 < list[i].coverage < AlertDays
  }

  /** `risco_item`: the default, overwritten for alert materials, then for rupture
      materials.  A row without an item, or with a blank material id, matches neither list. */
  function ItemTier(list: seq<Critical>, u: Unified): (t: Tier)
    ensures t == High <==> MaterialOf(u).Some? && InRupture(list, MaterialOf(u).value)
    ensures t == Medium <==> MaterialOf(u).Some? && !InRupture(list, MaterialOf(u).value) && InAlert(list, MaterialOf(u).value)
  {
    var base := Low;
    var alerted := if MaterialOf(u).Some? && InAlert(list, MaterialOf(u).value) then Medium else base;
    if MaterialOf(u).Some? && InRupture(list, MaterialOf(u).value) then High else alerted
  }

  /** The tier a single coverage figure calls for. */
  function TierOfCoverage(c: int): Tier {
    if c == 0 then High else if 0 < c < AlertDays then Medium else Low
  }

  /** With one row per material, as the critical list has, a row's tier is the
      tier of its material's coverage, and `Baixo` for unlisted materials. */
  lemma ItemTierByCoverage(list: seq<Critical>, u: Unified)
    requires forall i, j :: 0 <= i < j < |list| ==> list[i].materialId != list[j].materialId
    ensures MaterialOf(u).None? ==> ItemTier(list, u) == Low
    ensures forall i :: 0 <= i < |list| && MaterialOf(u) == Some(list[i].materialId) ==>
      ItemTier(list, u) == TierOfCoverage(list[i].coverage)
    ensures MaterialOf(u).Some? && (forall i :: 0 <= i < |list| ==> list[i].materialId != MaterialOf(u).value) ==>
      ItemTier(list, u) == Low
  {
    forall i | 0 <= i < |list| && MaterialOf(u) == Some(list[i].materialId)
      ensures ItemTier(list, u) == TierOfCoverage(list[i].coverage)
    {
      assert forall j :: 0 <= j < |list| && list[j].materialId == list[i].materialId ==> j == i;
    }
  }

  /** `risco_por_pedido`: the highest tier over the rows of order `id`. */
  function OrderTier(rows: seq<Unified>, list: seq<Critical>, id: int): (t: Tier)
    ensures forall i :: 0 <= i < |rows| && rows[i].order.id == id ==> Rank(ItemTier(list, rows[i])) <= Rank(t)
    ensures t != Low ==> exists i :: 0 <= i < |rows| && rows[i].order.id == id && ItemTier(list, rows[i]) == t
  {
    if rows == [] then Low
    else
      var init := rows[..|rows| - 1];
      var u := rows[|rows| - 1];
      var t := OrderTier(init, list, id);
      assert forall i :: 0 <= i < |init| ==> rows[i] == init[i];
      if u.order.id == id && Rank(ItemTier(list, u)) > Rank(t) then ItemTier(list, u) else t
  }

  /** One row in rupture puts its whole order in rupture, whatever its other rows are. */
  lemma OrderTierHighWins(rows: seq<Unified>, list: seq<Critical>, i: int)
    requires 0 <= i < |rows| && ItemTier(list, rows[i]) == High
    ensures OrderTier(rows, list, rows[i].order.id) == High
  {
  }

  /** An order none of whose rows is listed stays `Baixo`. */
  lemma OrderTierLowWhenUnlisted(rows: seq<Unified>, list: seq<Critical>, id: int)
    requires forall i :: 0 <= i < |rows| && rows[i].order.id == id ==> ItemTier(list, rows[i]) == Low
    ensures OrderTier(rows, list, id) == Low
  {
  }

  /** The columns `[id_pedido, status_pedido]` whose distinct pairs the rates are over. */
  function StatusKey(u: Unified): (int, Option<string>) {
    (u.order.id, u.order.fields.status)
  }

  /** The order of pair `p` is in tier `t`. */
  predicate PairInTier(rows: seq<Unified>, list: seq<Critical>, t: Tier, p: (int, Option<string>)) {
    OrderTier(rows, list, p.0) == t
  }

  /** `foi_cancelado`; a blank status is not cancelled. */
  predicate PairCanceled(p: (int, Option<string>)) {
    p.1 == Some(Canceled)
  }

  /** The mask of pairs whose order is in tier `t`. */
  function InTier(rows: seq<Unified>, list: seq<Critical>, t: Tier): ((int, Option<string>)) -> bool {
    p => PairInTier(rows, list, t, p)
  }

  /** The mask of cancelled pairs whose order is in tier `t`. */
  function CanceledInTier(rows: seq<Unified>, list: seq<Critical>, t: Tier): ((int, Option<string>)) -> bool {
    p => PairInTier(rows, list, t, p) && PairCanceled(p)
  }

  /** Over the listed pairs: how many have their order in tier `t`, and how many of those are cancelled. */
  function TierTally(ps: seq<(int, Option<string>)>, rows: seq<Unified>, list: seq<Critical>, t: Tier): (r: (nat, nat))
    ensures r.0 == Count(ps, InTier(rows, list, t))
    ensures r.1 == Count(ps, CanceledInTier(rows, list, t))
    ensures r.1 <= r.0
    ensures r.0 == 0 <==> forall k :: 0 <= k < |ps| ==> !PairInTier(rows, list, t, ps[k])
  {
    if ps == [] then (0, 0)
    else
      var init := ps[..|ps| - 1];
      var p := ps[|ps| - 1];
      var r := TierTally(init, rows, list, t);
      assert forall k :: 0 <= k < |init| ==> ps[k] == init[k];
      var inTier := PairInTier(rows, list, t, p);
      (r.0 + (if inTier then 1 else 0), r.1 + (if inTier && PairCanceled(p) then 1 else 0))
  }

  /** Number of distinct (order, status) pairs whose order is in tier `t`. */
  function TierOrders(rows: seq<Unified>, list: seq<Critical>, t: Tier): (n: nat)
    ensures n == Count(Keys(rows, StatusKey), InTier(rows, list, t))
  {
    TierTally(Keys(rows, StatusKey), rows, list, t).0
  }

  /** Number of those pairs whose status is `canceled`. */
  function TierCanceled(rows: seq<Unified>, list: seq<Critical>, t: Tier): (c: nat)
    ensures c == Count(Keys(rows, StatusKey), CanceledInTier(rows, list, t))
    ensures c <= TierOrders(rows, list, t)
  {
    TierTally(Keys(rows, StatusKey), rows, list, t).1
  }

  /** No pair is in tier `t` exactly when no row's order is. */
  lemma TierOrdersZero(rows: seq<Unified>, list: seq<Critical>, t: Tier)
    ensures TierOrders(rows, list, t) == 0 <==> forall i :: 0 <= i < |rows| ==> OrderTier(rows, list, rows[i].order.id) != t
  {
    var ps := Keys(rows, StatusKey);
    if TierOrders(rows, list, t) == 0 {
      forall i | 0 <= i < |rows| ensures OrderTier(rows, list, rows[i].order.id) != t {
        assert StatusKey(rows[i]) in ps;
        var k :| 0 <= k < |ps| && ps[k] == StatusKey(rows[i]);
        assert !PairInTier(rows, list, t, ps[k]);
      }
    } else {
      var k :| 0 <= k < |ps| && PairInTier(rows, list, t, ps[k]);
      assert ps[k] in ps;
      var i :| 0 <= i < |rows| && StatusKey(rows[i]) == ps[k];
    }
  }

  /** `taxa_percentual` of tier `t`: cancelled pairs over pairs, times 100; `None`
      when no order is in the tier (the tier has no bar). */
  function CancelRateByTier(rows: seq<Unified>, list: seq<Critical>, t: Tier): (r: Option<real>)
    ensures r.None? <==> forall i :: 0 <= i < |rows| ==> OrderTier(rows, list, rows[i].order.id) != t
    ensures r.Some? ==> 0.0 <= r.value <= 100.0
    ensures r.Some? ==> RateOf(r.value, TierCanceled(rows, list, t), TierOrders(rows, list, t))
  {
    var n := TierOrders(rows, list, t);
    var c := TierCanceled(rows, list, t);
    TierOrdersZero(rows, list, t);
    if n == 0 then None else Some(Percent(c, n))
  }

  /** The tier rates as the script computes them.  When no row is active the
      critical list is never defined, so reading it at line 311 fails; a list
      that could not be computed stops the script earlier. */
  function TierRateAsWritten(rows: seq<Unified>, t: Tier): (r: Result<Option<real>, Fault>)
    ensures r.Err? <==> CriticalList(rows).Err?
    ensures ActiveRows(rows) == [] ==> r == Err(NoActiveRows)
  {
    match CriticalList(rows)
    case Err(f) => Err(f)
    case Ok(list) => Ok(CancelRateByTier(rows, list, t))
  }

  /** The critical list the tiers read, with "no active rows" read as an empty list. */
  function RiskList(rows: seq<Unified>): (r: Result<seq<Critical>, Fault>)
    ensures r.Err? <==> CriticalList(rows) == Err(UndatedSales)
    ensures ActiveRows(rows) == [] ==> r == Ok([])
    ensures CriticalList(rows).Ok? ==> r == CriticalList(rows)
  {
    if CriticalList(rows) == Err(NoActiveRows) then Ok([]) else CriticalList(rows)
  }

  /** The tier rates with the missing list read as empty: every order is then `Baixo`. */
  function TierRate(rows: seq<Unified>, t: Tier): (r: Result<Option<real>, Fault>)
    ensures r.Err? <==> CriticalList(rows) == Err(UndatedSales)
    ensures CriticalList(rows).Ok? ==> r == TierRateAsWritten(rows, t)
  {
    match RiskList(rows)
    case Err(f) => Err(f)
    case Ok(list) => Ok(CancelRateByTier(rows, list, t))
  }

  /** With no active rows every order is `Baixo`: only the `Baixo` tier has a
      rate, and it has one as soon as there is a row. */
  lemma TierRateWithoutActiveRows(rows: seq<Unified>, t: Tier)
    requires ActiveRows(rows) == []
    ensures TierRate(rows, t).Ok?
    ensures t != Low ==> TierRate(rows, t).value.None?
    ensures t == Low ==> (TierRate(rows, t).value.Some? <==> rows != [])
  {
    assert RiskList(rows) == Ok([]);
    forall i | 0 <= i < |rows| ensures OrderTier(rows, [], rows[i].order.id) == Low {
      OrderTierLowWhenUnlisted(rows, [], rows[i].order.id);
    }
    if rows != [] {
      assert OrderTier(rows, [], rows[0].order.id) == Low;
    }
  }

  /** A table whose one row is discontinued has no active row. */
  lemma SingleDiscontinuedRow(u: Unified)
    requires DiscontinuedOf(u) == Some(true)
    ensures ActiveRows([u]) == []
  {
    assert [u][..0] == [];
  }

  /** One order whose only item is discontinued: the script fails where the
      corrected rates report that order as a `Baixo` order that was not cancelled. */
  lemma NoActiveRowsCounterexample()
    ensures
      var f := OrderFields(Some(0), 0, None, None, None, None, None, None);
      var it := Item(Some(1.0), Some(7), Some("Capa"), None, 10.0, 1);
      var u := Unified(Order(1, f, None), Some(ItemSupply(it, Some(0.0), Some(true), None)), "Capa");
      && TierRateAsWritten([u], Low) == Err(NoActiveRows)
      && TierRate([u], Low) == Ok(Some(0.0))
  {
    var f := OrderFields(Some(0), 0, None, None, None, None, None, None);
    var it := Item(Some(1.0), Some(7), Some("Capa"), None, 10.0, 1);
    var u := Unified(Order(1, f, None), Some(ItemSupply(it, Some(0.0), Some(true), None)), "Capa");
    SingleDiscontinuedRow(u);
    TierRateWithoutActiveRows([u], Low);
    UncancelledSingleRow(u);
    var r := TierRate([u], Low).value.value;
    assert RateOf(r, 0, 1);
  }

  /** A one-row table whose order is not cancelled has, with an empty list, one
      `Baixo` pair and no cancelled one. */
  lemma UncancelledSingleRow(u: Unified)
    requires u.order.fields.status != Some(Canceled)
    ensures TierOrders([u], [], Low) == 1
    ensures TierCanceled([u], [], Low) == 0
  {
    var rows := [u];
    assert rows[..0] == [];
    assert Keys(rows[..0], StatusKey) == [];
    var ps := Keys(rows, StatusKey);
    assert ps == [StatusKey(u)];
    OrderTierLowWhenUnlisted(rows, [], u.order.id);
    assert InTier(rows, [], Low)(ps[0]);
    assert !CanceledInTier(rows, [], Low)(ps[0]);
  }
}
