/**
  Sorting a table by a total preorder, as `sort_values` / `nlargest` do.
  The dashboard never relies on how rows with equal sort keys are ordered, so
  the model states only the ordering on keys and that the rows are a
  permutation of the input.
 */
module Sorting {
  import opened Seqs

  /** `le` is total and transitive: a ranking that may have ties. */
  ghost predicate TotalPreorder<T(!new)>(le: (T, T) -> bool) {
    && (forall a, b :: le(a, b) || le(b, a))
    && (forall a, b, c :: le(a, b) && le(b, c) ==> le(a, c))
  }

  /** Every row comes no later than the rows after it. */
  predicate SortedBy<T>(s: seq<T>, le: (T, T) -> bool) {
    forall i, j :: 0 <= i < j < |s| ==> le(s[i], s[j])
  }

  /** `x` placed before the first row it ranks no later than. */
  function Insert<T(!new)>(x: T, s: seq<T>, le: (T, T) -> bool): (r: seq<T>)
    requires TotalPreorder(le)
    requires SortedBy(s, le)
    ensures multiset(r) == multiset(s) + multiset{x}
    ensures SortedBy(r, le)
  {
    if s == [] then [x]
    else if le(x, s[0]) then
      assert forall j :: 0 <= j < |s| ==> le(x, s[j]) by {
        forall j | 0 <= j < |s| ensures le(x, s[j]) {
          if j > 0 { assert le(s[0], s[j]); }
        }
      }
      [x] + s
    else
      var t := Insert(x, s[1..], le);
      assert s == [s[0]] + s[1..];
      assert le(s[0], x);
      assert forall k :: 0 <= k < |t| ==> le(s[0], t[k]) by {
        forall k | 0 <= k < |t| ensures le(s[0], t[k]) {
          assert t[k] in multiset(t);
          if t[k] != x {
            assert t[k] in multiset(s[1..]);
          }
        }
      }
      [s[0]] + t
  }

  /** Insertion sort: the rows of `s`, rearranged into ranking order. */
  function Sort<T(!new)>(s: seq<T>, le: (T, T) -> bool): (r: seq<T>)
    requires TotalPreorder(le)
    ensures multiset(r) == multiset(s)
    ensures |r| == |s|
    ensures SortedBy(r, le)
  {
    if s == [] then []
    else
      var r := Insert(s[0], Sort(s[1..], le), le);
      assert s == [s[0]] + s[1..];
      assert |r| == |multiset(r)|;
      r
  }

  /** Every row of `s` occurs at most once in it. */
  lemma {:induction false} NoDupsCounts<T>(s: seq<T>)
    requires NoDups(s)
    ensures forall x :: multiset(s)[x] <= 1
  {
    if s != [] {
      var init := s[..|s| - 1];
      assert s == init + [s[|s| - 1]];
      assert NoDups(init);
      NoDupsCounts(init);
      assert s[|s| - 1] !in init;
    }
  }

  /** A sequence whose rows each occur at most once has no duplicates. */
  lemma CountsNoDups<T>(s: seq<T>)
    requires forall x :: multiset(s)[x] <= 1
    ensures NoDups(s)
  {
    forall i, j | 0 <= i < j < |s|
      ensures s[i] != s[j]
    {
      var before := s[..j];
      assert s == before + [s[j]] + s[j + 1..];
      assert multiset(s) == multiset(before) + multiset{s[j]} + multiset(s[j + 1..]);
      assert s[i] in multiset(before);
      assert multiset(s)[s[i]] >= multiset(before)[s[i]] + multiset{s[j]}[s[i]];
    }
  }

  /** Rearranging a table keeps it free of duplicate rows. */
  lemma PermutationKeepsNoDups<T>(s: seq<T>, t: seq<T>)
    requires multiset(s) == multiset(t)
    requires NoDups(s)
    ensures NoDups(t)
  {
    NoDupsCounts(s);
    CountsNoDups(t);
  }

  /** A mask keeps a table free of duplicate rows. */
  lemma FilterKeepsNoDups<T(!new)>(s: seq<T>, p: T -> bool)
    requires NoDups(s)
    ensures NoDups(Filter(s, p))
  {
    NoDupsCounts(s);
    CountsNoDups(Filter(s, p));
  }

  /** A mask keeps the rows in their order: the ranking survives the filter. */
  lemma {:induction false} FilterKeepsOrder<T(!new)>(s: seq<T>, p: T -> bool, le: (T, T) -> bool)
    requires SortedBy(s, le)
    ensures SortedBy(Filter(s, p), le)
  {
    if s != [] {
      var init := s[..|s| - 1];
      var x := s[|s| - 1];
      FilterKeepsOrder(init, p, le);
      var r := Filter(init, p);
      if p(x) {
        forall i | 0 <= i < |r| ensures le(r[i], x) {
          assert r[i] in init;
          var k :| 0 <= k < |init| && init[k] == r[i];
          assert s[k] == r[i];
        }
      }
    }
  }
}
