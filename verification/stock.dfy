/**
  The active-product filter and the critical-stock list (app.py lines 150 and
  243-266).  Over the active rows of the unified table the analysis span is the
  number of whole days between the first and the last order timestamp (at
  least one), a
  material's average daily sales are its units sold divided by that span, its
  stock is the stock on its first active row (blank as 0), and its coverage in
  days is stock over average sales, rounded half to even.  The list keeps the
  materials that sell and ranks them by coverage, then by sales, most urgent
  first.
 */
module Stock {
  import opened Tables
  import opened Seqs
  import opened Sorting
  import Cleaning

  /** `discontinued.fillna(False) == False`: a row is active unless its material is flagged discontinued. */
  predicate IsActive(u: Unified): (r: bool)
    ensures r <==> u.line.None? || u.line.value.discontinued.None? || u.line.value.discontinued == Some(false)
  {
    match DiscontinuedOf(u)
    case Some(flag) => !flag
    case None => true
  }

  /** The active rows, in table order.  Rows without an item and items that
      found no supply row have a blank flag and stay. */
  function ActiveRows(rows: seq<Unified>): (r: seq<Unified>)
    ensures |r| <= |rows|
    ensures forall u :: u in r <==> u in rows && (u.line.None? || u.line.value.discontinued != Some(true))
  {
    Filter(rows, IsActive)
  }

  /** The order timestamp of a row in seconds: `data_pedido` as parsed at line 77,
      time of day kept; blank when the date did not parse. */
  function StampOf(u: Unified): Option<int> {
    var f := u.order.fields;
    if f.orderDay.Some? then Some(f.orderDay.value * DaySeconds + f.orderTime) else None
  }

  /** The order timestamps present on the rows, in table order. */
  function OrderStamps(rows: seq<Unified>): (r: seq<int>)
    ensures forall t :: t in r <==> exists i :: 0 <= i < |rows| && StampOf(rows[i]) == Some(t)
  {
    if rows == [] then []
    else
      var init := rows[..|rows| - 1];
      var r := OrderStamps(init);
      assert forall i :: 0 <= i < |init| ==> rows[i] == init[i];
      var t := StampOf(rows[|rows| - 1]);
      if t.Some? then r + [t.value] else r
  }

  function MaxOf(ts: seq<int>): (m: int)
    requires |ts| > 0
    ensures m in ts
    ensures forall t :: t in ts ==> t <= m
  {
    if |ts| == 1 then ts[0]
    else
      var m := MaxOf(ts[..|ts| - 1]);
      assert forall t :: t in ts ==> t in ts[..|ts| - 1] || t == ts[|ts| - 1];
      if ts[|ts| - 1] > m then ts[|ts| - 1] else m
  }

  function MinOf(ts: seq<int>): (m: int)
    requires |ts| > 0
    ensures m in ts
    ensures forall t :: t in ts ==> m <= t
  {
    if |ts| == 1 then ts[0]
    else
      var m := MinOf(ts[..|ts| - 1]);
      assert forall t :: t in ts ==> t in ts[..|ts| - 1] || t == ts[|ts| - 1];
      if ts[|ts| - 1] < m then ts[|ts| - 1] else m
  }

  /** `dias_analise`: the whole days (`Timedelta.days`, which floors) between the
      first and the last order timestamp, with 0 replaced by 1; `None` (NaN) when
      no row has an order date. */
  function AnalysisSpan(rows: seq<Unified>): (r: Option<int>)
    ensures r.Some? <==> exists i :: 0 <= i < |rows| && StampOf(rows[i]).Some?
    ensures r.Some? ==> r.value >= 1
    ensures r.Some? ==> forall i, j :: 0 <= i < |rows| && 0 <= j < |rows| && StampOf(rows[i]).Some? && StampOf(rows[j]).Some?
                          ==> StampOf(rows[i]).value - StampOf(rows[j]).value < (r.value + 1) * DaySeconds
    ensures r.Some? && r.value > 1 ==>
      exists i, j :: 0 <= i < |rows| && 0 <= j < |rows| && StampOf(rows[i]).Some? && StampOf(rows[j]).Some?
                     && StampOf(rows[i]).value - StampOf(rows[j]).value >= r.value * DaySeconds
  {
    var ts := OrderStamps(rows);
    if ts == [] then
      assert forall i :: 0 <= i < |rows| ==> StampOf(rows[i]).None? || StampOf(rows[i]).value in ts;
      None
    else
      assert ts[0] in ts;
      var hi := MaxOf(ts);
      var lo := MinOf(ts);
      assert forall i :: 0 <= i < |rows| && StampOf(rows[i]).Some? ==> lo <= StampOf(rows[i]).value <= hi by {
        forall i | 0 <= i < |rows| && StampOf(rows[i]).Some? ensures lo <= StampOf(rows[i]).value <= hi {
          assert StampOf(rows[i]).value in ts;
        }
      }
      var days := (hi - lo) / DaySeconds;
      assert days * DaySeconds <= hi - lo < (days + 1) * DaySeconds;
      if days == 0 then Some(1) else Some(days)
  }

  /** Orders at 10:00 on day 0 and at 09:00 on day 27 are 27 calendar days apart
      but 26 whole days, and the span is 26. */
  lemma AnalysisSpanExample()
    ensures
      var early := Unified(Order(1, OrderFields(Some(0), 36000, None, None, None, None, None, None), None), None, NotInformed);
      var late := Unified(Order(2, OrderFields(Some(27), 32400, None, None, None, None, None, None), None), None, NotInformed);
      && AnalysisSpan([early, late]) == Some(26)
      && Cleaning.DaysBetween(Some(0), Some(27)) == Some(27)
  {
    var early := Unified(Order(1, OrderFields(Some(0), 36000, None, None, None, None, None, None), None), None, NotInformed);
    var late := Unified(Order(2, OrderFields(Some(27), 32400, None, None, None, None, None, None), None), None, NotInformed);
    var rows := [early, late];
    assert StampOf(early) == Some(36000);
    assert StampOf(late) == Some(2365200);
    assert rows[..1] == [early] && [early][..0] == [];
    assert OrderStamps([early]) == [36000];
    var ts := OrderStamps(rows);
    assert ts == [36000, 2365200];
    assert MaxOf(ts) == 2365200 && MinOf(ts) == 36000;
    assert (2365200 - 36000) / DaySeconds == 26;
  }

  /** The materials sold on the rows, each once (here in order of first appearance; pandas
      sorts them, which the ranking below makes irrelevant); rows without an item or
      with a blank material id have none. */
  function Materials(rows: seq<Unified>): (r: seq<int>)
    ensures NoDups(r)
    ensures forall m :: m in r <==> exists i :: 0 <= i < |rows| && MaterialOf(rows[i]) == Some(m)
  {
    PresentKeys(rows, MaterialOf)
  }

  function QuantityValue(u: Unified): real {
    QuantityOf(u) as real
  }

  /** `vendas_totais`: units of material `m` sold on the rows. */
  function Sales(rows: seq<Unified>, m: int): real {
    SumKey(rows, MaterialOf, Some(m), QuantityValue)
  }

  predicate SellsMaterial(m: int, u: Unified) {
    MaterialOf(u) == Some(m)
  }

  /** With one unit per item row, the units sold are the number of rows of the material. */
  lemma {:induction false} SalesCountsRows(rows: seq<Unified>, m: int)
    requires forall i :: 0 <= i < |rows| && rows[i].line.Some? ==> rows[i].line.value.item.quantity == 1
    ensures Sales(rows, m) == Count(rows, (u: Unified) => SellsMaterial(m, u)) as real
  {
    if rows != [] {
      var init := rows[..|rows| - 1];
      assert forall i :: 0 <= i < |init| ==> rows[i] == init[i];
      SalesCountsRows(init, m);
    }
  }

  /** Average daily sales of material `m` over a span of `span` days. */
  function AvgDaily(rows: seq<Unified>, span: int, m: int): (r: real)
    requires span >= 1
    ensures r * (span as real) == Sales(rows, m)
  {
    Sales(rows, m) / (span as real)
  }

  /** Positive average daily sales are positive sales. */
  lemma AvgDailyPositive(rows: seq<Unified>, span: int, m: int)
    requires span >= 1
    ensures AvgDaily(rows, span, m) > 0.0 <==> Sales(rows, m) > 0.0
  {
    var x := Sales(rows, m);
    var d := span as real;
    assert x == AvgDaily(rows, span, m) * d;
  }

  /** Index of the first row of material `m` (the row `drop_duplicates(subset='material_id')` keeps). */
  function FirstOf(rows: seq<Unified>, m: int): (i: nat)
    requires exists j :: 0 <= j < |rows| && MaterialOf(rows[j]) == Some(m)
    ensures i < |rows| && MaterialOf(rows[i]) == Some(m)
    ensures forall j :: 0 <= j < i ==> MaterialOf(rows[j]) != Some(m)
  {
    if MaterialOf(rows[0]) == Some(m) then 0
    else
      assert forall j :: 1 <= j < |rows| ==> rows[j] == rows[1..][j - 1];
      var j :| 0 <= j < |rows| && MaterialOf(rows[j]) == Some(m);
      assert MaterialOf(rows[1..][j - 1]) == Some(m);
      1 + FirstOf(rows[1..], m)
  }

  /** `estoque_disponivel` of the material's first row, a blank stock read as 0. */
  function StockFor(rows: seq<Unified>, m: int): (s: real)
    requires m in Materials(rows)
    ensures StockOf(rows[FirstOf(rows, m)]).Some? ==> s == StockOf(rows[FirstOf(rows, m)]).value
    ensures StockOf(rows[FirstOf(rows, m)]).None? ==> s == 0.0
  {
    var u := rows[FirstOf(rows, m)];
    if StockOf(u).Some? then StockOf(u).value else 0.0
  }

  /** Round to the nearest integer, halves to the even neighbour (numpy's `round`). */
  function RoundHalfEven(x: real): (n: int)
    ensures -0.5 <= (n as real) - x <= 0.5
    ensures ((n as real) - x == 0.5 || (n as real) - x == -0.5) ==> n % 2 == 0
  {
    var f := x.Floor;
    var d := x - (f as real);
    if d < 0.5 then f
    else if d > 0.5 then f + 1
    else if f % 2 == 0 then f
    else f + 1
  }

  /** The nearest integer is the only candidate when it is strictly nearer than a half. */
  lemma RoundHalfEvenUnique(x: real, n: int)
    requires -0.5 < (n as real) - x < 0.5
    ensures RoundHalfEven(x) == n
  {
    var r := RoundHalfEven(x);
    assert -1.0 < (r as real) - (n as real) < 1.0;
  }

  /** Whole numbers are left as they are; ties go to the even side. */
  lemma RoundHalfEvenExamples()
    ensures RoundHalfEven(3.0) == 3
    ensures RoundHalfEven(0.5) == 0
    ensures RoundHalfEven(2.5) == 2
    ensures RoundHalfEven(3.5) == 4
    ensures RoundHalfEven(-0.5) == 0
    ensures RoundHalfEven(2.4) == 2
  {
  }

  /** The small constant added to the average before dividing. */
  const Epsilon: real := 0.0001

  /** `dias_cobertura`: stock over (average daily sales + epsilon), rounded. */
  function CoverageDays(stock: real, avg: real): (c: int)
    requires avg > 0.0
    ensures -0.5 <= (c as real) - stock / (avg + Epsilon) <= 0.5
    ensures stock == 0.0 ==> c == 0
    ensures stock >= 0.0 ==> c >= 0
  {
    var q := stock / (avg + Epsilon);
    assert stock >= 0.0 ==> q >= 0.0;
    assert stock == 0.0 ==> RoundHalfEven(q) == 0 by {
      if stock == 0.0 { RoundHalfEvenUnique(q, 0); }
    }
    RoundHalfEven(q)
  }

  /** One row of `produtos_criticos`. */
  datatype Critical = Critical(materialId: int, name: string, stock: real, avgDaily: real, coverage: int)

  /** The row of material `m`. */
  function EntryOf(rows: seq<Unified>, span: int, m: int): (e: Critical)
    requires span >= 1 && m in Materials(rows) && AvgDaily(rows, span, m) > 0.0
  {
    var avg := AvgDaily(rows, span, m);
    var stock := StockFor(rows, m);
    Critical(m, rows[FirstOf(rows, m)].name, stock, avg, CoverageDays(stock, avg))
  }

  /** Rows for the listed materials, in list order. */
  function EntriesFor(ms: seq<int>, rows: seq<Unified>, span: int): (r: seq<Critical>)
    requires span >= 1
    requires forall m :: m in ms ==> m in Materials(rows) && AvgDaily(rows, span, m) > 0.0
    ensures |r| == |ms|
    ensures forall i :: 0 <= i < |ms| ==> r[i] == EntryOf(rows, span, ms[i])
  {
    if ms == [] then []
    else EntriesFor(ms[..|ms| - 1], rows, span) + [EntryOf(rows, span, ms[|ms| - 1])]
  }

  /** The sort order: fewer days of coverage first, then higher daily sales. */
  predicate MoreUrgent(a: Critical, b: Critical) {
    a.coverage < b.coverage || (a.coverage == b.coverage && a.avgDaily >= b.avgDaily)
  }

  lemma MoreUrgentIsPreorder()
    ensures TotalPreorder(MoreUrgent)
  {
  }

  /** Why the critical list cannot be produced. */
  datatype Fault =
    | NoActiveRows   // the list is never defined: the guard at line 249 fails
    | UndatedSales   // NaN span with materials to rate: the integer cast of the coverage raises

  /** The materials of the active rows with positive average daily sales. */
  function Selling(rows: seq<Unified>, span: int): (r: seq<int>)
    requires span >= 1
    ensures forall m :: m in r <==> m in Materials(rows) && AvgDaily(rows, span, m) > 0.0
    ensures NoDups(r)
  {
    var ms := Materials(rows);
    var r := Filter(ms, m => AvgDaily(rows, span, m) > 0.0);
    FilterKeepsNoDups(ms, m => AvgDaily(rows, span, m) > 0.0);
    r
  }

  /** `produtos_criticos`: the ranked coverage analysis of the active rows. */
  function CriticalList(rows: seq<Unified>): (r: Result<seq<Critical>, Fault>)
    ensures r == Err(NoActiveRows) <==> ActiveRows(rows) == []
    ensures r == Err(UndatedSales) <==>
      ActiveRows(rows) != [] && AnalysisSpan(ActiveRows(rows)).None? && Materials(ActiveRows(rows)) != []
    ensures r.Ok? && r.value != [] ==> AnalysisSpan(ActiveRows(rows)).Some?
  {
    var active := ActiveRows(rows);
    if active == [] then Err(NoActiveRows)
    else
      match AnalysisSpan(active)
      case None => if Materials(active) == [] then Ok([]) else Err(UndatedSales)
      case Some(span) =>
        Ok(Ranked(active, span))
  }

  /** The coverage rows of the selling materials, most urgent first. */
  function Ranked(active: seq<Unified>, span: int): (r: seq<Critical>)
    requires span >= 1
    ensures multiset(r) == multiset(EntriesFor(Selling(active, span), active, span))
    ensures SortedBy(r, MoreUrgent)
  {
    MoreUrgentIsPreorder();
    Sort(EntriesFor(Selling(active, span), active, span), MoreUrgent)
  }

  /** A ranked row is the row of a selling material. */
  lemma RankedEntry(active: seq<Unified>, span: int, e: Critical)
    requires span >= 1 && e in Ranked(active, span)
    ensures e.materialId in Selling(active, span)
    ensures e == EntryOf(active, span, e.materialId)
  {
    var sel := Selling(active, span);
    var es := EntriesFor(sel, active, span);
    assert e in multiset(Ranked(active, span));
    assert e in multiset(es);
    var k :| 0 <= k < |es| && es[k] == e;
    assert e == EntryOf(active, span, sel[k]);
  }

  /** A listed row is the row of its material, computed over the analysis span. */
  lemma ListedEntry(rows: seq<Unified>, e: Critical)
    requires CriticalList(rows).Ok? && e in CriticalList(rows).value
    ensures AnalysisSpan(ActiveRows(rows)).Some?
    ensures e.materialId in Selling(ActiveRows(rows), AnalysisSpan(ActiveRows(rows)).value)
    ensures e == EntryOf(ActiveRows(rows), AnalysisSpan(ActiveRows(rows)).value, e.materialId)
  {
    var active := ActiveRows(rows);
    var span := AnalysisSpan(active).value;
    assert CriticalList(rows) == Ok(Ranked(active, span));
    RankedEntry(active, span, e);
  }

  /** The list is ranked by coverage ascending and, on equal coverage, by daily sales descending. */
  lemma CriticalListOrdered(rows: seq<Unified>)
    ensures CriticalList(rows).Ok? ==>
      var list := CriticalList(rows).value;
      forall i, j :: 0 <= i < j < |list| ==>
        && list[i].coverage <= list[j].coverage
        && (list[i].coverage == list[j].coverage ==> list[i].avgDaily >= list[j].avgDaily)
  {
    var r := CriticalList(rows);
    if r.Ok? && r.value != [] {
      var active := ActiveRows(rows);
      var span := AnalysisSpan(active).value;
      assert r.value == Ranked(active, span);
      assert SortedBy(r.value, MoreUrgent);
    }
  }

  /** Every listed material sells: its average daily sales are positive. */
  lemma CriticalListSelling(rows: seq<Unified>)
    ensures CriticalList(rows).Ok? ==> forall e :: e in CriticalList(rows).value ==> e.avgDaily > 0.0
  {
    if CriticalList(rows).Ok? {
      forall e | e in CriticalList(rows).value ensures e.avgDaily > 0.0 {
        ListedEntry(rows, e);
      }
    }
  }

  /** What a listed row holds: the average daily sales over the analysis span, the
      stock and name of the material's first active row, and the rounded coverage;
      so zero stock means zero days of coverage. */
  lemma CriticalListEntries(rows: seq<Unified>)
    ensures CriticalList(rows).Ok? ==>
      forall e :: e in CriticalList(rows).value ==>
        && AnalysisSpan(ActiveRows(rows)).Some?
        && e.materialId in Materials(ActiveRows(rows))
        && e.avgDaily == Sales(ActiveRows(rows), e.materialId) / (AnalysisSpan(ActiveRows(rows)).value as real)
        && e.stock == StockFor(ActiveRows(rows), e.materialId)
        && e.name == ActiveRows(rows)[FirstOf(ActiveRows(rows), e.materialId)].name
        && e.avgDaily > 0.0
        && e.coverage == CoverageDays(e.stock, e.avgDaily)
        && (e.stock == 0.0 ==> e.coverage == 0)
  {
    if CriticalList(rows).Ok? {
      forall e | e in CriticalList(rows).value
        ensures
          && AnalysisSpan(ActiveRows(rows)).Some?
          && e.materialId in Materials(ActiveRows(rows))
          && e.avgDaily == Sales(ActiveRows(rows), e.materialId) / (AnalysisSpan(ActiveRows(rows)).value as real)
          && e.stock == StockFor(ActiveRows(rows), e.materialId)
          && e.name == ActiveRows(rows)[FirstOf(ActiveRows(rows), e.materialId)].name
          && e.avgDaily > 0.0
          && e.coverage == CoverageDays(e.stock, e.avgDaily)
          && (e.stock == 0.0 ==> e.coverage == 0)
      {
        ListedEntry(rows, e);
      }
    }
  }

  /** The materials that carry a row of the list. */
  function ListedMaterials(list: seq<Critical>): set<int> {
    set i | 0 <= i < |list| :: list[i].materialId
  }

  /** A listed material is sold on the active rows. */
  lemma ListedSells(rows: seq<Unified>, m: int)
    requires CriticalList(rows).Ok? && m in ListedMaterials(CriticalList(rows).value)
    ensures m in Materials(ActiveRows(rows)) && Sales(ActiveRows(rows), m) > 0.0
  {
    var list := CriticalList(rows).value;
    var i :| 0 <= i < |list| && list[i].materialId == m;
    ListedEntry(rows, list[i]);
    var active := ActiveRows(rows);
    var span := AnalysisSpan(active).value;
    AvgDailyPositive(active, span, m);
  }

  /** An active material with positive sales is listed. */
  lemma SellsListed(rows: seq<Unified>, m: int)
    requires CriticalList(rows).Ok?
    requires m in Materials(ActiveRows(rows)) && Sales(ActiveRows(rows), m) > 0.0
    ensures m in ListedMaterials(CriticalList(rows).value)
  {
    var r := CriticalList(rows);
    var active := ActiveRows(rows);
    assert AnalysisSpan(active).Some?;
    var span := AnalysisSpan(active).value;
    var sel := Selling(active, span);
    var es := EntriesFor(sel, active, span);
    AvgDailyPositive(active, span, m);
    assert m in sel;
    var k :| 0 <= k < |sel| && sel[k] == m;
    assert r.value == Ranked(active, span);
    assert es[k] in multiset(r.value);
    var i :| 0 <= i < |r.value| && r.value[i] == es[k];
  }

  /** Exactly the materials of the active rows with positive sales are listed. */
  lemma CriticalListMembers(rows: seq<Unified>)
    ensures CriticalList(rows).Ok? ==>
      forall m :: m in ListedMaterials(CriticalList(rows).value) <==>
        m in Materials(ActiveRows(rows)) && Sales(ActiveRows(rows), m) > 0.0
  {
    if CriticalList(rows).Ok? {
      forall m ensures m in ListedMaterials(CriticalList(rows).value) <==>
                       m in Materials(ActiveRows(rows)) && Sales(ActiveRows(rows), m) > 0.0
      {
        if m in ListedMaterials(CriticalList(rows).value) { ListedSells(rows, m); }
        if m in Materials(ActiveRows(rows)) && Sales(ActiveRows(rows), m) > 0.0 { SellsListed(rows, m); }
      }
    }
  }

  /** No material is listed twice. */
  lemma CriticalListDistinct(rows: seq<Unified>)
    ensures CriticalList(rows).Ok? ==>
      var list := CriticalList(rows).value;
      forall i, j :: 0 <= i < j < |list| ==> list[i].materialId != list[j].materialId
  {
    var r := CriticalList(rows);
    if r.Ok? && r.value != [] {
      var active := ActiveRows(rows);
      var span := AnalysisSpan(active).value;
      var sel := Selling(active, span);
      var es := EntriesFor(sel, active, span);
      assert r.value == Ranked(active, span);
      assert NoDups(es) by {
        forall i, j | 0 <= i < j < |es| ensures es[i] != es[j] {
          assert es[i].materialId == sel[i] && es[j].materialId == sel[j];
        }
      }
      PermutationKeepsNoDups(es, r.value);
      forall i, j | 0 <= i < j < |r.value| ensures r.value[i].materialId != r.value[j].materialId {
        ListedEntry(rows, r.value[i]);
        ListedEntry(rows, r.value[j]);
        assert r.value[i] != r.value[j];
      }
    }
  }
}
