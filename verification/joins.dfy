/**
  The two left joins that build the unified table (app.py lines 87-93): line
  items with the supply aggregate on the material, then orders with the
  item-supply rows on the order identifier, and the default name for rows
  whose material name is missing.
 */
module Joins {
  import opened Tables
  import Supply
  import Cleaning

  // ---------------------------------------------------------------------------
  // Items with the supply aggregate, on material_id.

  /** The aggregate rows of material `k`, in table order; a blank id matches none. */
  function SupplyMatches(aggs: seq<SupplyAgg>, k: Option<int>): seq<SupplyAgg> {
    if aggs == [] then []
    else
      var m := SupplyMatches(aggs[..|aggs| - 1], k);
      if Some(aggs[|aggs| - 1].materialId) == k then m + [aggs[|aggs| - 1]] else m
  }

  /** With unique materials, a material matches its one aggregate row, or none. */
  lemma {:induction false} SupplyMatchesUnique(aggs: seq<SupplyAgg>, k: Option<int>)
    requires UniqueMaterials(aggs)
    ensures |SupplyMatches(aggs, k)| <= 1
    ensures forall i :: 0 <= i < |aggs| && Some(aggs[i].materialId) == k ==> SupplyMatches(aggs, k) == [aggs[i]]
    ensures SupplyMatches(aggs, k) == [] <==> forall i :: 0 <= i < |aggs| ==> Some(aggs[i].materialId) != k
  {
    if aggs != [] {
      var init := aggs[..|aggs| - 1];
      assert UniqueMaterials(init);
      SupplyMatchesUnique(init, k);
      assert forall i :: 0 <= i < |init| ==> aggs[i] == init[i];
      if Some(aggs[|aggs| - 1].materialId) == k {
        assert forall i :: 0 <= i < |init| ==> Some(init[i].materialId) != k;
      }
    }
  }

  /** With unique materials an item yields exactly one joined row. */
  lemma JoinItemUnique(it: Item, aggs: seq<SupplyAgg>)
    requires UniqueMaterials(aggs)
    ensures forall j :: 0 <= j < |aggs| && Some(aggs[j].materialId) == it.materialId ==> JoinItem(it, aggs) == [Attach(it, aggs[j])]
    ensures (forall j :: 0 <= j < |aggs| ==> Some(aggs[j].materialId) != it.materialId) ==> JoinItem(it, aggs) == [Unmatched(it)]
  {
    SupplyMatchesUnique(aggs, it.materialId);
  }

  /** No aggregate row carries a blank material id, so an item whose id is blank
      matches nothing and joins with blank supply columns. */
  lemma {:induction false} BlankMaterialUnmatched(it: Item, aggs: seq<SupplyAgg>)
    requires it.materialId.None?
    ensures JoinItem(it, aggs) == [Unmatched(it)]
  {
    BlankMatchesNothing(aggs);
  }

  lemma {:induction false} BlankMatchesNothing(aggs: seq<SupplyAgg>)
    ensures SupplyMatches(aggs, None) == []
  {
    if aggs != [] {
      BlankMatchesNothing(aggs[..|aggs| - 1]);
    }
  }

  /** An item joined with the aggregate row of its material. */
  function Attach(it: Item, a: SupplyAgg): ItemSupply {
    ItemSupply(it, Some(a.stock), a.discontinued, a.leadtime)
  }

  /** An item that found no aggregate row: every supply column is blank. */
  function Unmatched(it: Item): ItemSupply {
    ItemSupply(it, None, None, None)
  }

  /** The rows one item contributes to a left join: one per matching aggregate row, or a blank row. */
  function JoinItem(it: Item, aggs: seq<SupplyAgg>): (r: seq<ItemSupply>)
    ensures |r| >= 1
    ensures forall x :: x in r ==> x.item == it
  {
    var m := SupplyMatches(aggs, it.materialId);
    if m == [] then [Unmatched(it)]
    else seq(|m|, i requires 0 <= i < |m| => Attach(it, m[i]))
  }

  /** `pd.merge(items, supply_agg, on='material_id', how='left')`. */
  function JoinItemsSupply(items: seq<Item>, aggs: seq<SupplyAgg>): (r: seq<ItemSupply>)
    ensures |r| >= |items|
    ensures forall x :: x in r ==> x.item in items
  {
    if items == [] then []
    else
      var init := items[..|items| - 1];
      var r := JoinItemsSupply(init, aggs);
      assert forall x :: x in init ==> x in items;
      r + JoinItem(items[|items| - 1], aggs)
  }

  /** With unique materials, row `i` of the join is the single row item `i` yields. */
  lemma {:induction false} JoinItemsSupplyRows(items: seq<Item>, aggs: seq<SupplyAgg>)
    requires UniqueMaterials(aggs)
    ensures |JoinItemsSupply(items, aggs)| == |items|
    ensures forall i :: 0 <= i < |items| ==> [JoinItemsSupply(items, aggs)[i]] == JoinItem(items[i], aggs)
  {
    if items != [] {
      var init := items[..|items| - 1];
      var it := items[|items| - 1];
      JoinItemsSupplyRows(init, aggs);
      JoinItemUnique(it, aggs);
      var r0 := JoinItemsSupply(init, aggs);
      var r := JoinItemsSupply(items, aggs);
      var last := JoinItem(it, aggs);
      assert |last| == 1 by {
        if exists j :: 0 <= j < |aggs| && Some(aggs[j].materialId) == it.materialId {
          var j :| 0 <= j < |aggs| && Some(aggs[j].materialId) == it.materialId;
        }
      }
      assert r == r0 + last;
      forall i | 0 <= i < |items|
        ensures [r[i]] == JoinItem(items[i], aggs)
      {
        if i < |init| {
          assert items[i] == init[i] && r[i] == r0[i];
        } else {
          assert items[i] == it && r[i] == last[0];
        }
      }
    }
  }

  /** Because the aggregate has one row per material, the left join keeps every
      item exactly once and in order; an item with a supply row carries its
      values, an item without one carries none. */
  lemma JoinItemsSupplyOneToOne(items: seq<Item>, aggs: seq<SupplyAgg>)
    requires UniqueMaterials(aggs)
    ensures |JoinItemsSupply(items, aggs)| == |items|
    ensures forall i :: 0 <= i < |items| ==> JoinItemsSupply(items, aggs)[i].item == items[i]
    ensures forall i, j :: 0 <= i < |items| && 0 <= j < |aggs| && Some(aggs[j].materialId) == items[i].materialId ==>
      JoinItemsSupply(items, aggs)[i] == Attach(items[i], aggs[j])
    ensures forall i :: 0 <= i < |items| && (forall j :: 0 <= j < |aggs| ==> Some(aggs[j].materialId) != items[i].materialId) ==>
      JoinItemsSupply(items, aggs)[i] == Unmatched(items[i])
  {
    JoinItemsSupplyRows(items, aggs);
    var r := JoinItemsSupply(items, aggs);
    forall i | 0 <= i < |items|
      ensures r[i].item == items[i]
      ensures forall j :: 0 <= j < |aggs| && Some(aggs[j].materialId) == items[i].materialId ==> r[i] == Attach(items[i], aggs[j])
      ensures (forall j :: 0 <= j < |aggs| ==> Some(aggs[j].materialId) != items[i].materialId) ==> r[i] == Unmatched(items[i])
    {
      JoinItemUnique(items[i], aggs);
      assert [r[i]] == JoinItem(items[i], aggs);
      assert r[i] in JoinItem(items[i], aggs);
    }
  }

  // ---------------------------------------------------------------------------
  // Orders with the item-supply rows, on id_pedido.

  /** An item-supply row belongs to an order when its coerced key equals the
      order identifier (a float key 12.0 matches order 12; a blank key matches nothing). */
  predicate KeyMatches(x: ItemSupply, o: Order) {
    x.item.orderKey == Some(o.id as real)
  }

  /** The item-supply rows of order `o`, in table order. */
  function OrderMatches(o: Order, xs: seq<ItemSupply>): (m: seq<ItemSupply>)
    ensures |m| <= |xs|
    ensures forall x :: x in m <==> x in xs && KeyMatches(x, o)
  {
    if xs == [] then []
    else
      var init := xs[..|xs| - 1];
      var x := xs[|xs| - 1];
      assert xs == init + [x];
      var m := OrderMatches(o, init);
      if KeyMatches(x, o) then m + [x] else m
  }

  /** The material name with the missing-name default (the intent of line 93). */
  function NameOrDefault(n: Option<string>): (s: string)
    ensures n.Some? ==> s == n.value
    ensures n.None? ==> s == NotInformed
  {
    if n.Some? then n.value else NotInformed
  }

  /** The unified row of order `o` joined with item-supply row `x`. */
  function Combine(o: Order, x: ItemSupply): Unified {
    Unified(o, Some(x), NameOrDefault(x.item.name))
  }

  /** The unified row of an order that has no item: blank item columns and the default name. */
  function Lone(o: Order): Unified {
    Unified(o, None, NotInformed)
  }

  /** The rows one order contributes to the left join. */
  function JoinOrder(o: Order, xs: seq<ItemSupply>): (r: seq<Unified>)
    ensures |r| >= 1
    ensures OrderMatches(o, xs) == [] ==> r == [Lone(o)]
    ensures OrderMatches(o, xs) != [] ==> |r| == |OrderMatches(o, xs)|
    ensures forall u :: u in r ==> u.order == o
  {
    var m := OrderMatches(o, xs);
    if m == [] then [Lone(o)]
    else seq(|m|, i requires 0 <= i < |m| => Combine(o, m[i]))
  }

  /** `pd.merge(orders, items_supply, on='id_pedido', how='left')`, then the name default. */
  function JoinOrders(orders: seq<Order>, xs: seq<ItemSupply>): (r: seq<Unified>)
    ensures |r| >= |orders|
    ensures forall o :: o in orders ==> exists u :: u in r && u.order == o
  {
    if orders == [] then []
    else
      var init := orders[..|orders| - 1];
      var o := orders[|orders| - 1];
      var r0 := JoinOrders(init, xs);
      var last := JoinOrder(o, xs);
      assert last[0] in last;
      assert forall p :: p in orders ==> p in init || p == o;
      assert forall u :: u in r0 ==> u in r0 + last;
      assert last[0] in r0 + last;
      r0 + last
  }

  /** Every unified row is an order of the table, either joined with one of its
      own item rows (named after the item, or the default) or, when the order has
      no item, alone with the default name. */
  lemma {:induction false} JoinOrdersSound(orders: seq<Order>, xs: seq<ItemSupply>)
    ensures forall u :: u in JoinOrders(orders, xs) ==>
      && u.order in orders
      && (u.line.Some? ==> u.line.value in xs && KeyMatches(u.line.value, u.order)
                           && u.name == NameOrDefault(u.line.value.item.name))
      && (u.line.None? ==> u.name == NotInformed
                           && forall x :: x in xs ==> !KeyMatches(x, u.order))
  {
    if orders != [] {
      var init := orders[..|orders| - 1];
      var o := orders[|orders| - 1];
      JoinOrdersSound(init, xs);
      var m := OrderMatches(o, xs);
      forall u | u in JoinOrder(o, xs)
        ensures u.line.Some? ==> u.line.value in xs && KeyMatches(u.line.value, u.order)
                                 && u.name == NameOrDefault(u.line.value.item.name)
        ensures u.line.None? ==> u.name == NotInformed && forall x :: x in xs ==> !KeyMatches(x, u.order)
      {
        if m != [] {
          var i :| 0 <= i < |m| && JoinOrder(o, xs)[i] == u;
          assert m[i] in m;
        }
      }
      assert forall u :: u in init ==> u in orders;
    }
  }

  /** Every pairing of an order with one of its item rows appears. */
  lemma {:induction false} JoinOrdersComplete(orders: seq<Order>, xs: seq<ItemSupply>)
    ensures forall o, x :: o in orders && x in xs && KeyMatches(x, o) ==> Combine(o, x) in JoinOrders(orders, xs)
  {
    if orders != [] {
      var init := orders[..|orders| - 1];
      var o := orders[|orders| - 1];
      JoinOrdersComplete(init, xs);
      var r := JoinOrders(orders, xs);
      var part := JoinOrder(o, xs);
      assert r == JoinOrders(init, xs) + part;
      forall x | x in xs && KeyMatches(x, o)
        ensures Combine(o, x) in r
      {
        var m := OrderMatches(o, xs);
        var i :| 0 <= i < |m| && m[i] == x;
        assert part[i] == Combine(o, x);
      }
      assert forall p :: p in orders ==> p in init || p == o;
    }
  }

  // ---------------------------------------------------------------------------
  // Row count of the unified table.

  /** The number of orders that item-supply row `x` belongs to. */
  function NumOwners(orders: seq<Order>, x: ItemSupply): nat {
    if orders == [] then 0
    else NumOwners(orders[..|orders| - 1], x) + (if KeyMatches(x, orders[|orders| - 1]) then 1 else 0)
  }

  /** Total number of (order, own item row) pairs. */
  function Pairs(orders: seq<Order>, xs: seq<ItemSupply>): nat {
    if orders == [] then 0
    else Pairs(orders[..|orders| - 1], xs) + |OrderMatches(orders[|orders| - 1], xs)|
  }

  lemma {:induction false} PairsAppendItem(orders: seq<Order>, xs: seq<ItemSupply>, x: ItemSupply)
    ensures Pairs(orders, xs + [x]) == Pairs(orders, xs) + NumOwners(orders, x)
  {
    if orders != [] {
      PairsAppendItem(orders[..|orders| - 1], xs, x);
      assert (xs + [x])[..|xs + [x]| - 1] == xs;
    }
  }

  lemma {:induction false} PairsCountItems(orders: seq<Order>, xs: seq<ItemSupply>)
    requires forall i :: 0 <= i < |xs| ==> NumOwners(orders, xs[i]) == 1
    ensures Pairs(orders, xs) == |xs|
  {
    if xs != [] {
      var init := xs[..|xs| - 1];
      var x := xs[|xs| - 1];
      assert xs == init + [x];
      assert forall i :: 0 <= i < |init| ==> init[i] == xs[i];
      assert NumOwners(orders, x) == 1;
      PairsCountItems(orders, init);
      PairsAppendItem(orders, init, x);
      assert Pairs(orders, init + [x]) == |init| + 1;
    } else {
      PairsNoItems(orders);
    }
  }

  lemma {:induction false} PairsNoItems(orders: seq<Order>)
    ensures Pairs(orders, []) == 0
  {
    if orders != [] {
      PairsNoItems(orders[..|orders| - 1]);
    }
  }

  lemma {:induction false} JoinOrdersLength(orders: seq<Order>, xs: seq<ItemSupply>)
    requires forall i :: 0 <= i < |orders| ==> OrderMatches(orders[i], xs) != []
    ensures |JoinOrders(orders, xs)| == Pairs(orders, xs)
  {
    if orders != [] {
      JoinOrdersLength(orders[..|orders| - 1], xs);
    }
  }

  /** When every order has at least one item row and every item row belongs to
      exactly one order, the unified table has exactly one row per item row. */
  lemma JoinOrdersRowCount(orders: seq<Order>, xs: seq<ItemSupply>)
    requires forall i :: 0 <= i < |orders| ==> OrderMatches(orders[i], xs) != []
    requires forall i :: 0 <= i < |xs| ==> NumOwners(orders, xs[i]) == 1
    ensures |JoinOrders(orders, xs)| == |xs|
  {
    JoinOrdersLength(orders, xs);
    PairsCountItems(orders, xs);
  }

  // ---------------------------------------------------------------------------
  // The whole preparation stage.

  /** Cleaning, supply aggregation and both joins (lines 69-93). */
  function Unify(rawOrders: seq<RawOrder>, rawItems: seq<RawItem>, supply: seq<SupplyRow>): seq<Unified> {
    JoinOrders(Cleaning.CleanOrders(rawOrders), JoinItemsSupply(Cleaning.CleanItems(rawItems), Supply.Aggregate(supply)))
  }

  /** The item-supply table of the pipeline has exactly one row per raw item row, in order. */
  lemma PipelineKeepsItems(rawItems: seq<RawItem>, supply: seq<SupplyRow>)
    ensures |JoinItemsSupply(Cleaning.CleanItems(rawItems), Supply.Aggregate(supply))| == |rawItems|
    ensures forall i :: 0 <= i < |rawItems| ==>
      JoinItemsSupply(Cleaning.CleanItems(rawItems), Supply.Aggregate(supply))[i].item == Cleaning.CleanItems(rawItems)[i]
  {
    JoinItemsSupplyOneToOne(Cleaning.CleanItems(rawItems), Supply.Aggregate(supply));
  }
}
