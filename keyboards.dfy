/** Splitting a button list into rows of at most `n`. */
module Keyboards {
  import opened Wrappers
  import opened Seqs

  /** Why `chunk` fails: a zero step is a `ValueError` in Python's `range`. */
  datatype ChunkError = ZeroStep

  /** Consecutive slices of length `n`, the last possibly shorter. */
  function Chunks<T>(items: seq<T>, n: nat): (parts: seq<seq<T>>)
    requires n > 0
    ensures Flatten(parts) == items
    ensures forall k :: 0 <= k < |parts| ==> 0 < |parts[k]| <= n
    ensures forall k :: 0 <= k < |parts| - 1 ==> |parts[k]| == n
    decreases |items|
  {
    if |items| == 0 then []
    else if |items| <= n then
      assert Flatten([items]) == items + [];
      [items]
    else
      var rest := Chunks(items[n..], n);
      assert items == items[..n] + items[n..];
      [items[..n]] + rest
  }

  /** Python's `chunk(items, n)`: a zero step fails, a negative step yields nothing. */
  function Chunk<T>(items: seq<T>, n: int): (r: Result<seq<seq<T>>, ChunkError>)
    ensures r.Err? <==> n == 0
    ensures n < 0 ==> r == Ok([])
    ensures n > 0 ==> r == Ok(Chunks(items, n))
  {
    if n == 0 then Err(ZeroStep)
    else if n < 0 then Ok([])
    else Ok(Chunks(items, n))
  }

  /**
   * The number of chunks is the ceiling of |items| / n: the fewest
   * n-element rows that hold all items (none for an empty list).
   */
  lemma {:induction false} ChunksCount<T>(items: seq<T>, n: nat)
    requires n > 0
    ensures var k := |Chunks(items, n)|; (k - 1) * n < |items| <= k * n
    decreases |items|
  {
    if |items| > n {
      var rest := Chunks(items[n..], n);
      ChunksCount(items[n..], n);
      var k := |rest|;
      assert (k + 1) * n == k * n + n;
      assert (k + 1 - 1) * n == (k - 1) * n + n;
    }
  }

  /**
   * Appending one short row after `k` full rows adds exactly that row: this is
   * how a loop that closes a row every `n` buttons builds the same chunking.
   */
  lemma {:induction false} ChunksAppendRow<T>(a: seq<T>, c: seq<T>, n: nat, k: nat)
    requires n > 0 && |a| == k * n && 0 < |c| <= n
    ensures Chunks(a + c, n) == Chunks(a, n) + [c]
    decreases k
  {
    if k == 0 {
      assert a + c == c;
    } else {
      assert (k - 1) * n == k * n - n;
      var ac := a + c;
      assert ac[..n] == a[..n];
      assert ac[n..] == a[n..] + c;
      ChunksAppendRow(a[n..], c, n, k - 1);
      if |a| <= n {
        assert a[n..] == [];
        assert Chunks(a[n..], n) == [];
      }
    }
  }

  /** When `n` divides the length evenly, every row is full. */
  lemma {:induction false} ChunksExact<T>(items: seq<T>, n: nat, k: nat)
    requires n > 0 && |items| == k * n
    ensures |Chunks(items, n)| == k
    ensures forall j :: 0 <= j < k ==> |Chunks(items, n)[j]| == n
    decreases k
  {
    if k == 1 {
      assert Chunks(items, n) == [items];
    } else if k > 1 {
      assert (k - 1) * n == k * n - n;
      var rest := items[n..];
      ChunksExact(rest, n, k - 1);
      assert Chunks(items, n) == [items[..n]] + Chunks(rest, n);
    }
  }
}
