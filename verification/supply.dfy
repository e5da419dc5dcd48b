/**
  The supply rollup (app.py lines 84-86): supply rows grouped by material,
  with the stock summed, the first discontinued flag kept and the lead time
  averaged.  pandas' `sum` and `mean` skip blanks and `first` returns the first
  NON-blank value of the group, which is what is modelled here.  `groupby`
  drops the rows whose material id is blank: they reach no aggregate row.
 */
module Supply {
  import opened Tables
  import opened Seqs

  function RowMaterial(r: SupplyRow): Option<int> { r.materialId }

  /** A blank stock cell adds nothing to the group sum. */
  function StockValue(r: SupplyRow): real {
    if r.stock.Some? then r.stock.value else 0.0
  }

  /** The stock a row brings to the rollup: nothing when its material id is blank. */
  function KeyedStock(r: SupplyRow): real {
    if r.materialId.Some? then StockValue(r) else 0.0
  }

  function LeadValue(r: SupplyRow): real {
    if r.leadtime.Some? then r.leadtime.value else 0.0
  }

  function AggStock(a: SupplyAgg): real { a.stock }

  /** The first non-blank discontinued flag among the rows of material `k`. */
  function FirstDiscontinued(rows: seq<SupplyRow>, k: int): (r: Option<bool>)
    ensures r.Some? ==> exists i :: (0 <= i < |rows| && rows[i].materialId == Some(k) && rows[i].discontinued == r
      && forall j :: 0 <= j < i && rows[j].materialId == Some(k) ==> rows[j].discontinued.None?)
    ensures r.None? ==> forall i :: 0 <= i < |rows| && rows[i].materialId == Some(k) ==> rows[i].discontinued.None?
  {
    if rows == [] then None
    else if rows[0].materialId == Some(k) && rows[0].discontinued.Some? then
      rows[0].discontinued
    else
      var r := FirstDiscontinued(rows[1..], k);
      assert forall i :: 1 <= i < |rows| ==> rows[i] == rows[1..][i - 1];
      if r.Some? then
        var i :| 0 <= i < |rows[1..]| && rows[1..][i].materialId == Some(k) && rows[1..][i].discontinued == r
          && forall j :: 0 <= j < i && rows[1..][j].materialId == Some(k) ==> rows[1..][j].discontinued.None?;
        assert rows[i + 1].discontinued == r;
        r
      else r
  }

  /** Rows of material `k` that carry a lead time. */
  function LeadCount(rows: seq<SupplyRow>, k: int): nat {
    Count(rows, (r: SupplyRow) => r.materialId == Some(k) && r.leadtime.Some?)
  }

  /** Mean lead time of material `k` over its non-blank lead times; `None` (NaN) when it has none. */
  function MeanLeadtime(rows: seq<SupplyRow>, k: int): (r: Option<real>)
    ensures r.None? <==> forall i :: 0 <= i < |rows| && rows[i].materialId == Some(k) ==> rows[i].leadtime.None?
    ensures r.Some? ==> r.value * (LeadCount(rows, k) as real) == SumKey(rows, RowMaterial, Some(k), LeadValue)
  {
    var n := LeadCount(rows, k);
    if n == 0 then None
    else Some(SumKey(rows, RowMaterial, Some(k), LeadValue) / (n as real))
  }

  /** The aggregate row of material `k`. */
  function AggregateOf(rows: seq<SupplyRow>, k: int): SupplyAgg {
    SupplyAgg(k, SumKey(rows, RowMaterial, Some(k), StockValue), FirstDiscontinued(rows, k), MeanLeadtime(rows, k))
  }

  /** Aggregate rows for the listed materials, in list order. */
  function AggregateKeys(ks: seq<int>, rows: seq<SupplyRow>): (r: seq<SupplyAgg>)
    ensures |r| == |ks|
    ensures forall i :: 0 <= i < |ks| ==> r[i].materialId == ks[i]
    ensures forall i :: 0 <= i < |ks| ==> r[i] == AggregateOf(rows, ks[i])
  {
    if ks == [] then []
    else AggregateKeys(ks[..|ks| - 1], rows) + [AggregateOf(rows, ks[|ks| - 1])]
  }

  /** The materials named by the rows of a supply table (blank ids name none). */
  function MaterialSet(rows: seq<SupplyRow>): set<int> {
    set j | 0 <= j < |rows| && rows[j].materialId.Some? :: rows[j].materialId.value
  }

  /** The materials that have an aggregate row. */
  function AggMaterialSet(aggs: seq<SupplyAgg>): set<int> {
    set i | 0 <= i < |aggs| :: aggs[i].materialId
  }

  /** `groupby('material_id').agg(sum, first, mean).reset_index()`. */
  function Aggregate(rows: seq<SupplyRow>): (r: seq<SupplyAgg>)
    ensures UniqueMaterials(r)
    ensures forall i :: 0 <= i < |r| ==> r[i] == AggregateOf(rows, r[i].materialId)
  {
    var ks := PresentKeys(rows, RowMaterial);
    var r := AggregateKeys(ks, rows);
    assert forall i :: 0 <= i < |r| ==> r[i].materialId == ks[i];
    r
  }

  /** Exactly the materials named in the supply table have an aggregate row. */
  lemma AggregateMaterials(rows: seq<SupplyRow>)
    ensures AggMaterialSet(Aggregate(rows)) == MaterialSet(rows)
  {
    var ks := PresentKeys(rows, RowMaterial);
    var r := AggregateKeys(ks, rows);
    assert Aggregate(rows) == r;
    forall k | k in MaterialSet(rows)
      ensures k in AggMaterialSet(r)
    {
      var j :| 0 <= j < |rows| && rows[j].materialId == Some(k);
      assert RowMaterial(rows[j]) == Some(k);
      assert k in ks;
      var i :| 0 <= i < |ks| && ks[i] == k;
      assert r[i].materialId == k;
    }
    forall k | k in AggMaterialSet(r)
      ensures k in MaterialSet(rows)
    {
      var i :| 0 <= i < |r| && r[i].materialId == k;
      assert ks[i] == k;
      assert k in ks;
      var j :| 0 <= j < |rows| && RowMaterial(rows[j]) == Some(k);
      assert rows[j].materialId == Some(k);
    }
  }

  /** Stock is conserved group by group: the aggregate rows of the present labels
      hold the group sums of every label, the blank label's group counting nothing. */
  lemma {:induction false} AggregateValuesStock(oks: seq<Option<int>>, rows: seq<SupplyRow>)
    ensures Sum(AggregateKeys(Values(oks), rows), AggStock) == SumOverKeys(oks, rows, RowMaterial, KeyedStock)
  {
    if oks != [] {
      var init := oks[..|oks| - 1];
      var k := oks[|oks| - 1];
      AggregateValuesStock(init, rows);
      if k.None? {
        SumKeyZero(rows, RowMaterial, k, KeyedStock);
      } else {
        var vs := Values(init);
        assert Values(oks) == vs + [k.value];
        var r := AggregateKeys(vs + [k.value], rows);
        assert (vs + [k.value])[..|vs|] == vs;
        assert r[..|r| - 1] == AggregateKeys(vs, rows);
        SumKeyCongruent(rows, RowMaterial, k, StockValue, KeyedStock);
      }
    }
  }

  /** The stock of the aggregate table adds up to the stock of the supply rows
      that name a material. */
  lemma AggregateConservesStock(rows: seq<SupplyRow>)
    ensures Sum(Aggregate(rows), AggStock) == Sum(rows, KeyedStock)
  {
    AggregateValuesStock(Keys(rows, RowMaterial), rows);
    GroupSumsConserveTotal(rows, RowMaterial, KeyedStock);
  }

  /** A material's aggregate stock is the sum of its raw stock values (blanks as 0). */
  lemma {:induction false} StockIsGroupSum(rows: seq<SupplyRow>, k: int)
    ensures AggregateOf(rows, k).stock == Sum(Filter(rows, (r: SupplyRow) => r.materialId == Some(k)), StockValue)
  {
    if rows != [] {
      var init := rows[..|rows| - 1];
      StockIsGroupSum(init, k);
      var p := (r: SupplyRow) => r.materialId == Some(k);
      var f := Filter(rows, p);
      assert f == if p(rows[|rows| - 1]) then Filter(init, p) + [rows[|rows| - 1]] else Filter(init, p);
      if p(rows[|rows| - 1]) {
        assert f[..|f| - 1] == Filter(init, p);
      }
    }
  }
}
