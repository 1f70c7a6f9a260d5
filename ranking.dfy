/**
 * Python's stable `sorted(..., key=k, reverse=True)`: a descending sort in which
 * elements with equal keys keep their original order.  Written as an insertion
 * sort over sequences, with the key as a parameter.
 */
module Ranking {
  import Seqs

  /** Keys never increase from left to right. */
  predicate SortedDesc<T>(s: seq<T>, key: T -> real) {
    forall i, j :: 0 <= i < j < |s| ==> key(s[i]) >= key(s[j])
  }

  /** The elements of `s` whose key is `k`, in their order in `s`. */
  function WithKey<T>(s: seq<T>, key: T -> real, k: real): (r: seq<T>)
    ensures |r| <= |s|
  {
    if s == [] then []
    else if key(s[0]) == k then [s[0]] + WithKey(s[1..], key, k)
    else WithKey(s[1..], key, k)
  }

  /** Puts `x` in front of the first element whose key is not larger than its own. */
  function Insert<T>(x: T, s: seq<T>, key: T -> real): (r: seq<T>)
    ensures |r| == |s| + 1
    ensures multiset(r) == multiset(s) + multiset{x}
  {
    if s == [] then [x]
    else if key(x) >= key(s[0]) then [x] + s
    else
      assert s == [s[0]] + s[1..];
      [s[0]] + Insert(x, s[1..], key)
  }

  function SortDesc<T>(s: seq<T>, key: T -> real): (r: seq<T>)
    ensures multiset(r) == multiset(s)
    ensures |r| == |s|
  {
    if s == [] then []
    else
      assert s == [s[0]] + s[1..];
      Insert(s[0], SortDesc(s[1..], key), key)
  }

  /** No element of `s` has a key above `b`. */
  predicate KeysAtMost<T>(s: seq<T>, key: T -> real, b: real) {
    forall i :: 0 <= i < |s| ==> key(s[i]) <= b
  }

  lemma {:induction false} InsertKeysAtMost<T>(x: T, s: seq<T>, key: T -> real, b: real)
    requires KeysAtMost(s, key, b) && key(x) <= b
    ensures KeysAtMost(Insert(x, s, key), key, b)
  {
    if s != [] && key(x) < key(s[0]) {
      InsertKeysAtMost(x, s[1..], key, b);
    }
  }

  lemma ConsSorted<T>(h: T, t: seq<T>, key: T -> real)
    requires SortedDesc(t, key) && KeysAtMost(t, key, key(h))
    ensures SortedDesc([h] + t, key)
  {
    var r := [h] + t;
    forall i, j | 0 <= i < j < |r| ensures key(r[i]) >= key(r[j]) {
      assert r[j] == t[j - 1];
      if i > 0 {
        assert r[i] == t[i - 1];
      }
    }
  }

  lemma {:induction false} InsertSorted<T>(x: T, s: seq<T>, key: T -> real)
    requires SortedDesc(s, key)
    ensures SortedDesc(Insert(x, s, key), key)
  {
    if s == [] {
    } else if key(x) >= key(s[0]) {
      ConsSorted(x, s, key);
    } else {
      var t := s[1..];
      assert SortedDesc(t, key);
      assert KeysAtMost(t, key, key(s[0]));
      InsertSorted(x, t, key);
      InsertKeysAtMost(x, t, key, key(s[0]));
      ConsSorted(s[0], Insert(x, t, key), key);
    }
  }

  /** The sort orders by descending key. */
  lemma {:induction false} SortDescSorted<T>(s: seq<T>, key: T -> real)
    ensures SortedDesc(SortDesc(s, key), key)
  {
    if s != [] {
      SortDescSorted(s[1..], key);
      InsertSorted(s[0], SortDesc(s[1..], key), key);
    }
  }

  lemma {:induction false} InsertWithKey<T>(x: T, s: seq<T>, key: T -> real, k: real)
    ensures WithKey(Insert(x, s, key), key, k)
         == if key(x) == k then [x] + WithKey(s, key, k) else WithKey(s, key, k)
  {
    if s == [] {
    } else if key(x) >= key(s[0]) {
      assert ([x] + s)[1..] == s;
    } else {
      InsertWithKey(x, s[1..], key, k);
      assert ([s[0]] + Insert(x, s[1..], key))[1..] == Insert(x, s[1..], key);
    }
  }

  /** The sort is stable: elements with the same key appear in their original order. */
  lemma {:induction false} SortDescStable<T>(s: seq<T>, key: T -> real, k: real)
    ensures WithKey(SortDesc(s, key), key, k) == WithKey(s, key, k)
  {
    if s != [] {
      SortDescStable(s[1..], key, k);
      InsertWithKey(s[0], SortDesc(s[1..], key), key, k);
    }
  }

  /** Python's `s[:n]` for a non-negative `n`. */
  function Take<T>(s: seq<T>, n: nat): (r: seq<T>)
    ensures |r| == if n < |s| then n else |s|
    ensures r == s[..|r|]
  {
    if n < |s| then s[..n] else s
  }

  /**
   * The first `n` elements of the sorted sequence are sorted, and none of the
   * elements cut off has a larger key than one that was kept.
   */
  lemma TopOfSorted<T>(s: seq<T>, key: T -> real, n: nat)
    ensures var sorted := SortDesc(s, key); var top := Take(sorted, n);
      SortedDesc(top, key)
      && forall i, j :: 0 <= i < |top| <= j < |sorted| ==> key(sorted[i]) >= key(sorted[j])
  {
    SortDescSorted(s, key);
  }

  /**
   * An element left out of the first `n` of the sorted sequence is left out
   * only when `n` were taken, and every one taken has at least its key.
   */
  lemma TopLeftOut<T>(s: seq<T>, key: T -> real, n: nat, x: T)
    requires x in s
    ensures var top := Take(SortDesc(s, key), n);
      x !in top ==> |top| == n && forall r :: r in top ==> key(r) >= key(x)
  {
    var sorted := SortDesc(s, key);
    var top := Take(sorted, n);
    if x !in top {
      TopOfSorted(s, key, n);
      SortDescMembership(s, key, x);
      var j :| 0 <= j < |sorted| && sorted[j] == x;
      assert j >= |top|;
      forall r | r in top ensures key(r) >= key(x) {
        var i :| 0 <= i < |top| && top[i] == r;
        assert sorted[i] == r;
      }
    }
  }

  /** Sorting keeps exactly the same elements. */
  lemma SortDescMembership<T>(s: seq<T>, key: T -> real, x: T)
    ensures x in SortDesc(s, key) <==> x in s
  {
    assert multiset(SortDesc(s, key)) == multiset(s);
    assert x in SortDesc(s, key) <==> x in multiset(SortDesc(s, key));
  }

  lemma SnocSorted<T>(s: seq<T>, x: T, key: T -> real)
    requires SortedDesc(s, key)
    requires forall i :: 0 <= i < |s| ==> key(x) <= key(s[i])
    ensures SortedDesc(s + [x], key)
  {
    var r := s + [x];
    forall i, j | 0 <= i < j < |r| ensures key(r[i]) >= key(r[j]) {
      assert r[i] == s[i];
      if j < |s| {
        assert r[j] == s[j];
      }
    }
  }

  /** Dropping elements from a sorted sequence leaves it sorted. */
  lemma {:induction false} FilterSorted<T>(s: seq<T>, key: T -> real, p: T -> bool)
    requires SortedDesc(s, key)
    ensures SortedDesc(Seqs.Filter(s, p), key)
  {
    if s != [] {
      var init, x := s[..|s| - 1], s[|s| - 1];
      assert SortedDesc(init, key);
      FilterSorted(init, key, p);
      if p(x) {
        var f := Seqs.Filter(init, p);
        forall i | 0 <= i < |f| ensures key(x) <= key(f[i]) {
          Seqs.FilterMembership(init, p, f[i]);
          var j :| 0 <= j < |init| && init[j] == f[i];
          assert s[j] == f[i];
        }
        SnocSorted(f, x, key);
      }
    }
  }
}
