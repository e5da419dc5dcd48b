/**
  Generic operations over tables held as sequences of rows: boolean masks,
  counts, sums and group-by keys.  They play the part of the dataframe
  primitives the dashboard is written with (`df[mask]`, `groupby(...).sum()`,
  `value_counts()`, `drop_duplicates(subset=...)`).  Every definition walks the
  table from its last row, so that "append one row" is the induction step.
 */
module Seqs {

  /** No value occurs twice in `s`. */
  predicate NoDups<T(==)>(s: seq<T>) {
    forall i, j :: 0 <= i < j < |s| ==> s[i] != s[j]
  }

  /** The rows of `s` that satisfy `p`, in table order (a boolean mask). */
  function Filter<T(==,!new)>(s: seq<T>, p: T -> bool): (r: seq<T>)
    ensures |r| <= |s|
    ensures forall i :: 0 <= i < |r| ==> p(r[i])
    ensures forall x :: multiset(r)[x] == if p(x) then multiset(s)[x] else 0
    ensures forall x :: x in r <==> x in s && p(x)
  {
    if s == [] then []
    else
      var init := s[..|s| - 1];
      assert s == init + [s[|s| - 1]];
      var r := Filter(init, p);
      if p(s[|s| - 1]) then r + [s[|s| - 1]] else r
  }

  /** The number of rows of `s` that satisfy `p`. */
  function Count<T(==,!new)>(s: seq<T>, p: T -> bool): (n: nat)
    ensures n <= |s|
    ensures n == 0 <==> forall i :: 0 <= i < |s| ==> !p(s[i])
    ensures n == |s| <==> forall i :: 0 <= i < |s| ==> p(s[i])
  {
    if s == [] then 0
    else
      var init := s[..|s| - 1];
      var x := s[|s| - 1];
      var c := Count(init, p);
      assert forall i :: 0 <= i < |init| ==> s[i] == init[i];
      c + (if p(x) then 1 else 0)
  }

  /** `rate` percent of `whole` is `part`. */
  predicate RateOf(rate: real, part: nat, whole: nat) {
    rate * (whole as real) == 100.0 * (part as real)
  }

  /** A percentage of a part in a whole. */
  function Percent(part: nat, whole: nat): (r: real)
    requires part <= whole && whole > 0
    ensures 0.0 <= r <= 100.0
    ensures RateOf(r, part, whole)
  {
    var r := 100.0 * (part as real) / (whole as real);
    assert r * (whole as real) == 100.0 * (part as real);
    assert (part as real) / (whole as real) <= 1.0;
    r
  }

  /** Sum of `val` over the rows of `s` (pandas `sum`, missing values already mapped to 0). */
  function Sum<T>(s: seq<T>, val: T -> real): real
  {
    if s == [] then 0.0 else Sum(s[..|s| - 1], val) + val(s[|s| - 1])
  }

  /** Sum of `val` over the rows of `s` whose `key` is `k` (one cell of `groupby(key)[val].sum()`). */
  function SumKey<T, K(==)>(s: seq<T>, key: T -> K, k: K, val: T -> real): real
  {
    if s == [] then 0.0
    else SumKey(s[..|s| - 1], key, k, val) + (if key(s[|s| - 1]) == k then val(s[|s| - 1]) else 0.0)
  }

  /** A group sum is the plain sum over the group's rows, selected by a mask that
      holds exactly on rows with key `k`. */
  lemma {:induction false} SumKeyIsFilterSum<T(!new), K>(s: seq<T>, key: T -> K, k: K, val: T -> real, p: T -> bool)
    requires forall x :: p(x) <==> key(x) == k
    ensures SumKey(s, key, k, val) == Sum(Filter(s, p), val)
  {
    if s != [] {
      var init := s[..|s| - 1];
      var x := s[|s| - 1];
      SumKeyIsFilterSum(init, key, k, val, p);
      var f := Filter(s, p);
      assert f == if p(x) then Filter(init, p) + [x] else Filter(init, p);
      if p(x) {
        assert f[..|f| - 1] == Filter(init, p);
      }
    }
  }

  /** A group whose rows all carry the value 0 (in particular a group with no row) sums to zero. */
  lemma {:induction false} SumKeyZero<T, K>(s: seq<T>, key: T -> K, k: K, val: T -> real)
    requires forall i :: 0 <= i < |s| && key(s[i]) == k ==> val(s[i]) == 0.0
    ensures SumKey(s, key, k, val) == 0.0
  {
    if s != [] {
      SumKeyZero(s[..|s| - 1], key, k, val);
    }
  }

  /** A group's sum depends only on the values of the group's own rows. */
  lemma {:induction false} SumKeyCongruent<T, K>(s: seq<T>, key: T -> K, k: K, v: T -> real, w: T -> real)
    requires forall i :: 0 <= i < |s| && key(s[i]) == k ==> v(s[i]) == w(s[i])
    ensures SumKey(s, key, k, v) == SumKey(s, key, k, w)
  {
    if s != [] {
      SumKeyCongruent(s[..|s| - 1], key, k, v, w);
    }
  }

  /** The keys of `s`, each once, in order of first appearance: the group labels
      of `groupby(key)`, which pandas would also sort. */
  function Keys<T, K(==,!new)>(s: seq<T>, key: T -> K): (r: seq<K>)
    ensures NoDups(r)
    ensures forall k :: k in r <==> exists i :: 0 <= i < |s| && key(s[i]) == k
  {
    if s == [] then []
    else
      var r := Keys(s[..|s| - 1], key);
      var k := key(s[|s| - 1]);
      if k in r then r else r + [k]
  }

  /** Sum over a list of group labels of each group's total. */
  function SumOverKeys<T, K(==)>(ks: seq<K>, s: seq<T>, key: T -> K, val: T -> real): real
  {
    if ks == [] then 0.0
    else SumOverKeys(ks[..|ks| - 1], s, key, val) + SumKey(s, key, ks[|ks| - 1], val)
  }

  /** Appending a row to the table adds its value to the total of exactly one listed group, if any. */
  lemma {:induction false} SumOverKeysAppend<T, K>(ks: seq<K>, s: seq<T>, x: T, key: T -> K, val: T -> real)
    requires NoDups(ks)
    ensures SumOverKeys(ks, s + [x], key, val)
         == SumOverKeys(ks, s, key, val) + (if key(x) in ks then val(x) else 0.0)
  {
    if ks != [] {
      var init := ks[..|ks| - 1];
      assert (s + [x])[..|s + [x]| - 1] == s;
      SumOverKeysAppend(init, s, x, key, val);
      assert key(x) in ks <==> key(x) in init || key(x) == ks[|ks| - 1];
      assert key(x) == ks[|ks| - 1] ==> key(x) !in init;
    }
  }

  /** Grouping conserves the total: the group sums add up to the sum over the whole table. */
  lemma {:induction false} GroupSumsConserveTotal<T, K(!new)>(s: seq<T>, key: T -> K, val: T -> real)
    ensures SumOverKeys(Keys(s, key), s, key, val) == Sum(s, val)
  {
    if s != [] {
      var init := s[..|s| - 1];
      var x := s[|s| - 1];
      assert s == init + [x];
      var ks := Keys(init, key);
      GroupSumsConserveTotal(init, key, val);
      SumOverKeysAppend(ks, init, x, key, val);
      if key(x) !in ks {
        assert forall i :: 0 <= i < |init| ==> key(init[i]) != key(x);
        SumKeyZero(init, key, key(x), val);
        assert Keys(s, key) == ks + [key(x)];
        assert (ks + [key(x)])[..|ks|] == ks;
      }
    }
  }

  /** Row `i` of `s` is the first row with its key. */
  predicate FirstWithKey<T, K(==)>(s: seq<T>, key: T -> K, i: int)
    requires 0 <= i < |s|
  {
    forall j :: 0 <= j < i ==> key(s[j]) != key(s[i])
  }

  /** The first row for each key, in table order (`drop_duplicates(subset=key)`). */
  function FirstPerKey<T, K(==)>(s: seq<T>, key: T -> K): (r: seq<T>)
    ensures |r| <= |s|
    ensures forall i, j :: 0 <= i < j < |r| ==> key(r[i]) != key(r[j])
  {
    if s == [] then []
    else
      var r := FirstPerKey(s[..|s| - 1], key);
      if exists j :: 0 <= j < |r| && key(r[j]) == key(s[|s| - 1]) then r
      else r + [s[|s| - 1]]
  }

  /** Every kept row is the first row of the table with its key, and every key of the table is kept. */
  lemma {:induction false} FirstPerKeySpec<T, K>(s: seq<T>, key: T -> K)
    ensures forall x :: x in FirstPerKey(s, key) ==>
      exists i :: 0 <= i < |s| && s[i] == x && FirstWithKey(s, key, i)
    ensures forall i :: 0 <= i < |s| ==>
      exists j :: 0 <= j < |FirstPerKey(s, key)| && key(FirstPerKey(s, key)[j]) == key(s[i])
  {
    if s != [] {
      var init := s[..|s| - 1];
      var x := s[|s| - 1];
      var r := FirstPerKey(init, key);
      FirstPerKeySpec(init, key);
      forall y | y in r
        ensures exists i :: 0 <= i < |s| && s[i] == y && FirstWithKey(s, key, i)
      {
        var i :| 0 <= i < |init| && init[i] == y && FirstWithKey(init, key, i);
        assert s[i] == y && FirstWithKey(s, key, i);
      }
      if !exists j :: 0 <= j < |r| && key(r[j]) == key(x) {
        assert FirstPerKey(s, key) == r + [x];
        forall j | 0 <= j < |s| - 1
          ensures key(s[j]) != key(x)
        {
          assert s[j] == init[j];
        }
        assert FirstWithKey(s, key, |s| - 1);
      }
      var r' := FirstPerKey(s, key);
      forall i | 0 <= i < |s|
        ensures exists j :: 0 <= j < |r'| && key(r'[j]) == key(s[i])
      {
        if i < |s| - 1 {
          assert s[i] == init[i];
          var j :| 0 <= j < |r| && key(r[j]) == key(init[i]);
          assert r'[j] == r[j];
        } else if exists j :: 0 <= j < |r| && key(r[j]) == key(x) {
          var j :| 0 <= j < |r| && key(r[j]) == key(x);
          assert r'[j] == r[j];
        } else {
          assert r'[|r|] == x;
        }
      }
    }
  }

  /** The first rows per key carry exactly the keys of the table, in the same order. */
  lemma {:induction false} FirstPerKeyKeys<T, K(!new)>(s: seq<T>, key: T -> K)
    ensures |FirstPerKey(s, key)| == |Keys(s, key)|
    ensures forall i :: 0 <= i < |Keys(s, key)| ==> key(FirstPerKey(s, key)[i]) == Keys(s, key)[i]
  {
    if s != [] {
      var init := s[..|s| - 1];
      var x := s[|s| - 1];
      FirstPerKeyKeys(init, key);
      var r := FirstPerKey(init, key);
      var ks := Keys(init, key);
      assert (exists j :: 0 <= j < |r| && key(r[j]) == key(x)) <==> key(x) in ks by {
        if key(x) in ks {
          var j :| 0 <= j < |ks| && ks[j] == key(x);
          assert key(r[j]) == key(x);
        }
      }
    }
  }
}
