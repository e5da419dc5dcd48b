/**
  Basket co-occurrence (app.py lines 183-189): for a reference product, the
  orders that contain it, the other products on the rows of those orders, and
  the five products that occur on the most such rows, with their row counts.
 */
module Basket {
  import opened Tables
  import opened Seqs
  import opened Sorting

  /** How many of the top products are shown. */
  const TopN: nat := 5

  function NameOf(u: Unified): string { u.name }

  /** `pedidos_com_produto`: the orders with a row named `ref`, each once, in order of first appearance. */
  function RefOrders(rows: seq<Unified>, ref: string): (r: seq<int>)
    ensures NoDups(r)
    ensures forall id :: id in r <==> exists i :: 0 <= i < |rows| && rows[i].order.id == id && rows[i].name == ref
  {
    if rows == [] then []
    else
      var init := rows[..|rows| - 1];
      var u := rows[|rows| - 1];
      var r := RefOrders(init, ref);
      assert forall i :: 0 <= i < |init| ==> rows[i] == init[i];
      if u.name == ref && u.order.id !in r then r + [u.order.id] else r
  }

  /** The rows of `s` that belong to an order listed in `ids` and name another product. */
  function Companions(s: seq<Unified>, ids: seq<int>, ref: string): (r: seq<Unified>)
    ensures forall u :: u in r <==> u in s && u.order.id in ids && u.name != ref
  {
    if s == [] then []
    else
      var init := s[..|s| - 1];
      var u := s[|s| - 1];
      var r := Companions(init, ids, ref);
      assert forall v :: v in s <==> v in init || v == u;
      if u.order.id in ids && u.name != ref then r + [u] else r
  }

  /** Number of rows of `s` named `n`. */
  function NameCount(s: seq<Unified>, n: string): nat {
    if s == [] then 0
    else NameCount(s[..|s| - 1], n) + (if s[|s| - 1].name == n then 1 else 0)
  }

  /** A product and the number of rows it has in orders with the reference product. */
  datatype Companion = Companion(name: string, count: nat)

  /** One entry per listed name, with its row count in `s`. */
  function Tally(ns: seq<string>, s: seq<Unified>): (r: seq<Companion>)
    ensures |r| == |ns|
    ensures forall i :: 0 <= i < |ns| ==> r[i] == Companion(ns[i], NameCount(s, ns[i]))
  {
    if ns == [] then []
    else Tally(ns[..|ns| - 1], s) + [Companion(ns[|ns| - 1], NameCount(s, ns[|ns| - 1]))]
  }

  /** `value_counts` order: higher counts first. */
  predicate CountFirst(a: Companion, b: Companion) {
    a.count >= b.count
  }

  lemma CountFirstIsPreorder()
    ensures TotalPreorder(CountFirst)
  {
  }

  /** The rows of the reference product's orders that name another product. */
  function Others(rows: seq<Unified>, ref: string): seq<Unified> {
    Companions(rows, RefOrders(rows, ref), ref)
  }

  /** `value_counts` before ranking: each other product with its row count. */
  function TallyOf(rows: seq<Unified>, ref: string): seq<Companion> {
    var others := Others(rows, ref);
    Tally(Keys(others, NameOf), others)
  }

  /** The tally ranked by count, highest first. */
  function Ranking(rows: seq<Unified>, ref: string): (r: seq<Companion>)
    ensures multiset(r) == multiset(TallyOf(rows, ref))
    ensures |r| == |TallyOf(rows, ref)|
    ensures forall i, j :: 0 <= i < j < |r| ==> r[i].count >= r[j].count
  {
    CountFirstIsPreorder();
    var r := Sort(TallyOf(rows, ref), CountFirst);
    assert SortedBy(r, CountFirst);
    r
  }

  /** `produtos_associados`: the first five of the ranking. */
  function Associated(rows: seq<Unified>, ref: string): (r: seq<Companion>)
    ensures |r| <= TopN
    ensures |r| == if |Ranking(rows, ref)| <= TopN then |Ranking(rows, ref)| else TopN
    ensures forall i :: 0 <= i < |r| ==> r[i] == Ranking(rows, ref)[i]
  {
    var ranked := Ranking(rows, ref);
    if |ranked| <= TopN then ranked else ranked[..TopN]
  }

  /** The reference product's orders, read straight off the table. */
  predicate WithRef(rows: seq<Unified>, ref: string, id: int) {
    exists i :: 0 <= i < |rows| && rows[i].order.id == id && rows[i].name == ref
  }

  /** Rows of `s` named `n` whose order also has a row named `ref`. */
  function CoCount(s: seq<Unified>, rows: seq<Unified>, ref: string, n: string): nat {
    if s == [] then 0
    else
      var u := s[|s| - 1];
      CoCount(s[..|s| - 1], rows, ref, n) + (if u.name == n && WithRef(rows, ref, u.order.id) then 1 else 0)
  }

  /** Counting a product among the companions is counting its rows in the reference product's orders. */
  lemma {:induction false} CompanionCount(s: seq<Unified>, rows: seq<Unified>, ref: string, n: string)
    requires n != ref
    ensures NameCount(Companions(s, RefOrders(rows, ref), ref), n) == CoCount(s, rows, ref, n)
  {
    if s != [] {
      var init := s[..|s| - 1];
      var u := s[|s| - 1];
      var ids := RefOrders(rows, ref);
      CompanionCount(init, rows, ref, n);
      var c := Companions(s, ids, ref);
      if u.order.id in ids && u.name != ref {
        assert c[..|c| - 1] == Companions(init, ids, ref);
      }
    }
  }

  /** A row of the ranking is a companion product with its co-occurrence count. */
  lemma RankedEntry(rows: seq<Unified>, ref: string, e: Companion)
    requires e in Ranking(rows, ref)
    ensures e.name != ref
    ensures e.count == CoCount(rows, rows, ref, e.name)
    ensures e.count > 0
  {
    var others := Others(rows, ref);
    var ns := Keys(others, NameOf);
    var tally := TallyOf(rows, ref);
    assert e in multiset(tally);
    var k :| 0 <= k < |tally| && tally[k] == e;
    assert ns[k] in ns;
    var i :| 0 <= i < |others| && NameOf(others[i]) == ns[k];
    assert others[i] in others;
    CompanionCount(rows, rows, ref, e.name);
    NameCountPositive(others, i);
  }

  /** A name that occurs counts at least once. */
  lemma {:induction false} NameCountPositive(s: seq<Unified>, i: int)
    requires 0 <= i < |s|
    ensures NameCount(s, s[i].name) > 0
  {
    if i < |s| - 1 {
      NameCountPositive(s[..|s| - 1], i);
    }
  }

  /** The reference product is never listed, each count is its co-occurrence
      count, and the counts do not increase down the list. */
  lemma AssociatedSpec(rows: seq<Unified>, ref: string)
    ensures forall e :: e in Associated(rows, ref) ==>
      e.name != ref && e.count == CoCount(rows, rows, ref, e.name) && e.count > 0
    ensures forall i, j :: 0 <= i < j < |Associated(rows, ref)| ==>
      Associated(rows, ref)[i].count >= Associated(rows, ref)[j].count
  {
    var r := Associated(rows, ref);
    forall e | e in r ensures e.name != ref && e.count == CoCount(rows, rows, ref, e.name) && e.count > 0 {
      var q :| 0 <= q < |r| && r[q] == e;
      assert Ranking(rows, ref)[q] == e;
      RankedEntry(rows, ref, e);
    }
  }

  /** No product is listed twice. */
  lemma AssociatedDistinct(rows: seq<Unified>, ref: string)
    ensures forall i, j :: 0 <= i < j < |Associated(rows, ref)| ==>
      Associated(rows, ref)[i].name != Associated(rows, ref)[j].name
  {
    var others := Others(rows, ref);
    var ns := Keys(others, NameOf);
    var tally := TallyOf(rows, ref);
    var ranked := Ranking(rows, ref);
    var r := Associated(rows, ref);
    assert NoDups(tally) by {
      forall i, j | 0 <= i < j < |tally| ensures tally[i] != tally[j] {
        assert tally[i].name == ns[i] && tally[j].name == ns[j];
      }
    }
    PermutationKeepsNoDups(tally, ranked);
    forall i, j | 0 <= i < j < |r| ensures r[i].name != r[j].name {
      assert r[i] == ranked[i] && r[j] == ranked[j];
      assert ranked[i] in multiset(tally) && ranked[j] in multiset(tally);
      var a :| 0 <= a < |tally| && tally[a] == ranked[i];
      var b :| 0 <= b < |tally| && tally[b] == ranked[j];
      assert a != b;
    }
  }

  /** Top five: a product that shares an order with the reference product is
      either listed with its count, or the list is full and every listed count
      is at least its count. */
  lemma AssociatedTop(rows: seq<Unified>, ref: string, n: string)
    requires n != ref && CoCount(rows, rows, ref, n) > 0
    ensures || Companion(n, CoCount(rows, rows, ref, n)) in Associated(rows, ref)
            || (&& |Associated(rows, ref)| == TopN
                && forall e :: e in Associated(rows, ref) ==> e.count >= CoCount(rows, rows, ref, n))
  {
    var others := Others(rows, ref);
    var ns := Keys(others, NameOf);
    var tally := TallyOf(rows, ref);
    var ranked := Ranking(rows, ref);
    var r := Associated(rows, ref);
    CompanionCount(rows, rows, ref, n);
    var c := CoCount(rows, rows, ref, n);
    var i := NameCountWitness(others, n);
    assert NameOf(others[i]) == n;
    assert n in ns;
    var k :| 0 <= k < |ns| && ns[k] == n;
    assert tally[k] == Companion(n, c);
    assert tally[k] in multiset(ranked);
    var p :| 0 <= p < |ranked| && ranked[p] == Companion(n, c);
    if p < |r| {
      assert r[p] == ranked[p];
    } else {
      forall e | e in r ensures e.count >= c {
        var q :| 0 <= q < |r| && r[q] == e;
        assert ranked[q] == e;
      }
    }
  }

  /** A positive count has a row behind it. */
  lemma {:induction false} NameCountWitness(s: seq<Unified>, n: string) returns (i: int)
    requires NameCount(s, n) > 0
    ensures 0 <= i < |s| && s[i].name == n
  {
    if s[|s| - 1].name == n {
      i := |s| - 1;
    } else {
      i := NameCountWitness(s[..|s| - 1], n);
    }
  }
}
