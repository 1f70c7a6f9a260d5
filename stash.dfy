/**
 * The per-user callback payload store both catalogue bots keep in their
 * session data: each payload is filed under the next counter value, written
 * in decimal, so that button callback data stays short.
 */
module PayloadStash {
  import opened Wrappers
  import opened Text
  import opened Keyboards

  /** A keyboard button: its label and its callback data. */
  type Button = (string, string)

  /** The keys handed out by the first `n` stash calls: "1" .. str(n). */
  function IssuedKeys(n: nat): set<string> {
    if n == 0 then {} else IssuedKeys(n - 1) + {NatToString(n)}
  }

  /** A key is issued exactly when it is the decimal form of some counter value 1..n. */
  lemma {:induction false} IssuedKeysMembers(n: nat, k: string)
    ensures k in IssuedKeys(n) <==> exists i :: 1 <= i <= n && NatToString(i) == k
  {
    if n > 0 {
      IssuedKeysMembers(n - 1, k);
      if k == NatToString(n) {
        assert 1 <= n <= n && NatToString(n) == k;
      }
    }
  }

  /** A counter value beyond `n` gives a key not issued yet. */
  lemma {:induction false} LaterKeyFresh(n: nat, m: nat)
    requires m > n
    ensures NatToString(m) !in IssuedKeys(n)
  {
    if n > 0 {
      LaterKeyFresh(n - 1, m);
      if NatToString(m) == NatToString(n) {
        NatToStringInjective(m, n);
      }
    }
  }

  /** Every stash call adds one key: nothing is evicted or shared. */
  lemma {:induction false} IssuedKeysCount(n: nat)
    ensures |IssuedKeys(n)| == n
  {
    if n > 0 {
      IssuedKeysCount(n - 1);
      LaterKeyFresh(n - 1, n);
    }
  }

  /** "0" and the empty key are never handed out. */
  lemma NeverIssued(n: nat)
    ensures "0" !in IssuedKeys(n) && "" !in IssuedKeys(n)
  {
    IssuedKeysMembers(n, "0");
    IssuedKeysMembers(n, "");
    if "0" in IssuedKeys(n) {
      var i :| 1 <= i <= n && NatToString(i) == "0";
      assert NatToString(0) == "0";
      NatToStringInjective(i, 0);
    }
  }

  /** The store after filing `objs` one by one, starting from counter `n`. */
  function StashedAll<T>(m: map<string, T>, n: nat, objs: seq<T>): map<string, T>
    decreases |objs|
  {
    if objs == [] then m
    else StashedAll(m, n, objs[..|objs| - 1])[NatToString(n + |objs|) := objs[|objs| - 1]]
  }

  /**
   * Filing a run of payloads files each under its own counter key and leaves
   * every earlier entry as it was.
   */
  lemma {:induction false} StashedAllSpec<T>(m: map<string, T>, n: nat, objs: seq<T>)
    requires m.Keys == IssuedKeys(n)
    ensures StashedAll(m, n, objs).Keys == IssuedKeys(n + |objs|)
    ensures forall j :: n < j <= n + |objs| ==>
              NatToString(j) in StashedAll(m, n, objs)
              && StashedAll(m, n, objs)[NatToString(j)] == objs[j - n - 1]
    ensures forall k :: k in m ==> k in StashedAll(m, n, objs) && StashedAll(m, n, objs)[k] == m[k]
    decreases |objs|
  {
    if objs != [] {
      var init := objs[..|objs| - 1];
      StashedAllSpec(m, n, init);
      var ri := StashedAll(m, n, init);
      var last := NatToString(n + |objs|);
      LaterKeyFresh(n + |init|, n + |objs|);
      var r := ri[last := objs[|objs| - 1]];
      assert r == StashedAll(m, n, objs);
      assert IssuedKeys(n + |objs|) == IssuedKeys(n + |init|) + {last};
      forall j | n < j <= n + |objs|
        ensures NatToString(j) in StashedAll(m, n, objs)
             && StashedAll(m, n, objs)[NatToString(j)] == objs[j - n - 1]
      {
        if j < n + |objs| {
          var k := NatToString(j);
          assert init[j - n - 1] == objs[j - n - 1];
          assert k in ri && ri[k] == init[j - n - 1];
          if k == last {
            NatToStringInjective(j, n + |objs|);
          }
          assert r[k] == ri[k];
        }
      }
      forall k | k in m
        ensures k in r && r[k] == m[k]
      {
        assert k in ri && ri[k] == m[k];
        assert k != last;
      }
    }
  }

  /** One user's payload store for one bot: an entry map and a counter. */
  class Stash<T> {
    var payloads: map<string, T>
    var counter: nat

    /** Exactly the keys "1" .. str(counter) are filed. */
    ghost predicate Valid()
      reads this
    {
      payloads.Keys == IssuedKeys(counter)
    }

    /** Session data that has not been stashed into yet. */
    constructor ()
      ensures Valid() && payloads == map[] && counter == 0
    {
      payloads := map[];
      counter := 0;
    }

    /** Look a payload up; an unknown key gives nothing. */
    function Fetch(key: string): (r: Option<T>)
      reads this
      ensures r.Some? <==> key in payloads
      ensures r.Some? ==> r.value == payloads[key]
    {
      if key in payloads then Some(payloads[key]) else None
    }

    /** File `obj` under the next counter value and return that key. */
    method Put(obj: T) returns (key: string)
      requires Valid()
      modifies this
      ensures Valid()
      ensures counter == old(counter) + 1 && key == NatToString(counter)
      ensures key !in old(payloads)
      ensures payloads == old(payloads)[key := obj]
      ensures Fetch(key) == Some(obj)
      ensures forall k :: k != key ==> Fetch(k) == old(Fetch(k))
    {
      counter := counter + 1;
      key := NatToString(counter);
      LaterKeyFresh(counter - 1, counter);
      payloads := payloads[key := obj];
    }
  }

  /** The buttons for `labels`, each carrying `prefix` and the key filed for it. */
  function Buttons(labels: seq<string>, prefix: string, n: nat): seq<Button> {
    seq(|labels|, i requires 0 <= i < |labels| => (labels[i], prefix + NatToString(n + i + 1)))
  }

  /**
   * File one payload per item and label a button with each key, in item
   * order (the subcategory loop).
   */
  method StashLabelled<E, T>(st: Stash<T>, items: seq<E>, payloadOf: E -> T,
                             labelOf: E -> string, prefix: string)
    returns (buttons: seq<Button>)
    requires st.Valid()
    modifies st
    ensures st.Valid()
    ensures st.counter == old(st.counter) + |items|
    ensures st.payloads == StashedAll(old(st.payloads), old(st.counter), Payloads(items, payloadOf))
    ensures buttons == Buttons(Labels(items, labelOf), prefix, old(st.counter))
  {
    ghost var n0 := st.counter;
    ghost var m0 := st.payloads;
    buttons := [];
    var i := 0;
    while i < |items|
      invariant 0 <= i <= |items|
      invariant st.Valid() && st.counter == n0 + i
      invariant st.payloads == StashedAll(m0, n0, Payloads(items[..i], payloadOf))
      invariant buttons == Buttons(Labels(items[..i], labelOf), prefix, n0)
    {
      var token := st.Put(payloadOf(items[i]));
      buttons := buttons + [(labelOf(items[i]), prefix + token)];
      StashedStep(m0, n0, items, payloadOf, i);
      assert items[..i + 1][..i] == items[..i];
      i := i + 1;
    }
    assert items[..i] == items;
  }

  /** Filing the payload of item `i` after those of the items before it. */
  lemma StashedStep<E, T>(m: map<string, T>, n: nat, items: seq<E>, payloadOf: E -> T, i: nat)
    requires i < |items|
    ensures StashedAll(m, n, Payloads(items[..i + 1], payloadOf))
         == StashedAll(m, n, Payloads(items[..i], payloadOf))[NatToString(n + i + 1) := payloadOf(items[i])]
  {
    var p := Payloads(items[..i + 1], payloadOf);
    assert p[..i] == Payloads(items[..i], payloadOf) && p[i] == payloadOf(items[i]);
  }

  /**
   * After `i` buttons, the closed rows chunk the first buttons two by two and
   * the open row holds the rest.
   */
  ghost predicate Laid(all: seq<Button>, rows: seq<seq<Button>>, row: seq<Button>, i: nat) {
    i == 2 * |rows| + |row| && |row| < 2 && i <= |all|
    && rows == Chunks(all[..2 * |rows|], 2) && row == all[2 * |rows|..i]
  }

  /** Closing a non-empty row after the rows built so far extends their chunking. */
  lemma CloseRow(all: seq<Button>, rows: seq<seq<Button>>, row: seq<Button>)
    requires 2 * |rows| + |row| <= |all| && 0 < |row| <= 2
    requires rows == Chunks(all[..2 * |rows|], 2)
    requires row == all[2 * |rows|..2 * |rows| + |row|]
    ensures rows + [row] == Chunks(all[..2 * |rows| + |row|], 2)
  {
    ChunksAppendRow(all[..2 * |rows|], row, 2, |rows|);
    assert all[..2 * |rows|] + row == all[..2 * |rows| + |row|];
  }

  /** Adding the next button, and closing the row once it holds two. */
  lemma LaidStep(all: seq<Button>, rows: seq<seq<Button>>, row: seq<Button>, i: nat)
    requires Laid(all, rows, row, i) && i < |all|
    ensures var r := row + [all[i]];
      if |r| == 2 then Laid(all, rows + [r], [], i + 1) else Laid(all, rows, r, i + 1)
  {
    var r := row + [all[i]];
    assert r == all[2 * |rows|..i + 1];
    if |r| == 2 {
      CloseRow(all, rows, r);
    }
  }

  /** At the end, a last open row is closed and the rows are the full chunking. */
  lemma LaidDone(all: seq<Button>, rows: seq<seq<Button>>, row: seq<Button>)
    requires Laid(all, rows, row, |all|)
    ensures (if row == [] then rows else rows + [row]) == Chunks(all, 2)
  {
    assert all[..|all|] == all;
    if row != [] {
      CloseRow(all, rows, row);
    }
  }

  /** Adds button `i` to the open row, closing the row once it holds two. */
  method PlaceButton(ghost all: seq<Button>, rows: seq<seq<Button>>, row: seq<Button>, ghost i: nat, b: Button)
    returns (rows': seq<seq<Button>>, row': seq<Button>)
    requires Laid(all, rows, row, i) && i < |all| && all[i] == b
    ensures Laid(all, rows', row', i + 1)
  {
    LaidStep(all, rows, row, i);
    row' := row + [b];
    rows' := rows;
    if |row'| == 2 {
      rows' := rows + [row'];
      row' := [];
    }
  }

  function Payloads<E, T>(items: seq<E>, payloadOf: E -> T): seq<T> {
    seq(|items|, i requires 0 <= i < |items| => payloadOf(items[i]))
  }

  function Labels<E>(items: seq<E>, labelOf: E -> string): seq<string> {
    seq(|items|, i requires 0 <= i < |items| => labelOf(items[i]))
  }

  /**
   * File one payload per item and lay the buttons out two per row, closing a
   * row at every second button and keeping a last single button on a row of
   * its own (the category loop).
   */
  method StashInRows<E, T>(st: Stash<T>, items: seq<E>, payloadOf: E -> T,
                           labelOf: E -> string, prefix: string)
    returns (rows: seq<seq<Button>>)
    requires st.Valid()
    modifies st
    ensures st.Valid()
    ensures st.counter == old(st.counter) + |items|
    ensures st.payloads == StashedAll(old(st.payloads), old(st.counter), Payloads(items, payloadOf))
    ensures rows == Chunks(Buttons(Labels(items, labelOf), prefix, old(st.counter)), 2)
  {
    ghost var n0 := st.counter;
    ghost var m0 := st.payloads;
    ghost var all := Buttons(Labels(items, labelOf), prefix, n0);
    rows := [];
    var row: seq<Button> := [];
    var i := 0;
    while i < |items|
      invariant 0 <= i <= |items|
      invariant st.Valid() && st.counter == n0 + i
      invariant st.payloads == StashedAll(m0, n0, Payloads(items[..i], payloadOf))
      invariant Laid(all, rows, row, i)
    {
      var token := st.Put(payloadOf(items[i]));
      StashedStep(m0, n0, items, payloadOf, i);
      rows, row := PlaceButton(all, rows, row, i, (labelOf(items[i]), prefix + token));
      i := i + 1;
    }
    assert items[..i] == items;
    LaidDone(all, rows, row);
    if row != [] {
      rows := rows + [row];
    }
  }
}
