/** Sequence helpers shared by the store, the digest and the keyboards. */
module Seqs {
  /** Python's `[x for x in s if p(x)]`, peeled from the end so that it follows a left-to-right loop. */
  function Filter<T>(s: seq<T>, p: T -> bool): (r: seq<T>)
    ensures |r| <= |s|
    ensures forall i :: 0 <= i < |r| ==> p(r[i])
  {
    if s == [] then []
    else Filter(s[..|s| - 1], p) + (if p(s[|s| - 1]) then [s[|s| - 1]] else [])
  }

  /** Exactly the elements that satisfy `p` survive. */
  lemma {:induction false} FilterMembership<T>(s: seq<T>, p: T -> bool, x: T)
    ensures x in Filter(s, p) <==> x in s && p(x)
  {
    if s != [] {
      var init := s[..|s| - 1];
      FilterMembership(init, p, x);
      assert s == init + [s[|s| - 1]];
    }
  }

  /** A filter that every element passes changes nothing. */
  lemma {:induction false} FilterAll<T>(s: seq<T>, p: T -> bool)
    requires forall i :: 0 <= i < |s| ==> p(s[i])
    ensures Filter(s, p) == s
  {
    if s != [] {
      FilterAll(s[..|s| - 1], p);
    }
  }

  /** Filtering one more element at the end, as a loop does. */
  lemma FilterSnoc<T>(s: seq<T>, x: T, p: T -> bool)
    ensures Filter(s + [x], p) == Filter(s, p) + (if p(x) then [x] else [])
  {
    assert (s + [x])[..|s|] == s;
  }

  /** Filters that agree on the elements of `s` agree on `s`. */
  lemma {:induction false} FilterAgree<T>(s: seq<T>, p: T -> bool, q: T -> bool)
    requires forall i :: 0 <= i < |s| ==> p(s[i]) == q(s[i])
    ensures Filter(s, p) == Filter(s, q)
  {
    if s != [] {
      FilterAgree(s[..|s| - 1], p, q);
    }
  }

  /** A filter that no element passes leaves nothing. */
  lemma {:induction false} FilterNone<T>(s: seq<T>, p: T -> bool)
    requires forall i :: 0 <= i < |s| ==> !p(s[i])
    ensures Filter(s, p) == []
  {
    if s != [] {
      FilterNone(s[..|s| - 1], p);
    }
  }

  /** A relation that holds between every earlier and later element still holds after filtering. */
  lemma {:induction false} FilterPairwise<T>(s: seq<T>, p: T -> bool, rel: (T, T) -> bool)
    requires forall i, j :: 0 <= i < j < |s| ==> rel(s[i], s[j])
    ensures var f := Filter(s, p); forall i, j :: 0 <= i < j < |f| ==> rel(f[i], f[j])
  {
    if s != [] {
      var init, x := s[..|s| - 1], s[|s| - 1];
      FilterPairwise(init, p, rel);
      var fi := Filter(init, p);
      forall i | 0 <= i < |fi| ensures rel(fi[i], x) {
        FilterMembership(init, p, fi[i]);
        var j :| 0 <= j < |init| && init[j] == fi[i];
        assert s[j] == fi[i];
      }
    }
  }

  /** The concatenation of the parts. */
  function Flatten<T>(parts: seq<seq<T>>): (r: seq<T>)
    ensures |parts| > 0 ==> |r| >= |parts[0]|
  {
    if parts == [] then [] else parts[0] + Flatten(parts[1..])
  }

  /** One more part at the end adds its elements at the end. */
  lemma {:induction false} FlattenSnoc<T>(parts: seq<seq<T>>, x: seq<T>)
    ensures Flatten(parts + [x]) == Flatten(parts) + x
  {
    if parts == [] {
      assert [] + [x] == [x];
      assert Flatten([x]) == x + Flatten([]);
    } else {
      assert (parts + [x])[1..] == parts[1..] + [x];
      FlattenSnoc(parts[1..], x);
    }
  }

  /** Stepping one element into the front part of a concatenation. */
  lemma DropFrontConcat<T>(a: seq<T>, j: nat, b: seq<T>)
    requires j < |a|
    ensures (a[j..] + b)[0] == a[j] && (a[j..] + b)[1..] == a[j + 1..] + b
  {
    assert (a[j..] + b)[1..] == a[j..][1..] + b;
  }
}
