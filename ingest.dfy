/**
 * Keyed upsert of a scraped batch.  Each record is normalized; a stored row
 * with the same (source, external_id) gets the new snapshot and keeps its id
 * and creation time; an unseen key becomes a new row stamped `now`.
 * A record later in the batch finds the rows added earlier in the same batch.
 */
module Ingest {
  import opened Wrappers
  import opened Schemas
  import opened Models
  import Normalizer
  import Geo

  type Snapshot = Normalizer.Snapshot

  predicate HasKey(rows: seq<Listing>, k: ListingKey) {
    exists i :: 0 <= i < |rows| && Key(rows[i]) == k
  }

  /** The query by (source, external_id): the position of the first row with that key. */
  function FindKey(rows: seq<Listing>, k: ListingKey): (r: Option<nat>)
    ensures r.Some? ==> r.value < |rows| && Key(rows[r.value]) == k
    ensures r.None? <==> !HasKey(rows, k)
  {
    if rows == [] then None
    else if Key(rows[0]) == k then Some(0)
    else
      var r := FindKey(rows[1..], k);
      if r.None? then
        assert forall i :: 1 <= i < |rows| ==> rows[i] == rows[1..][i - 1];
        None
      else Some(r.value + 1)
  }

  /** One record: overwrite the matching row's snapshot, or append a new row. */
  function UpsertOne(rows: seq<Listing>, snap: Snapshot, now: int): seq<Listing> {
    match FindKey(rows, Normalizer.SnapKey(snap))
    case Some(p) => rows[p := Listing(rows[p].id, snap, rows[p].createdAt)]
    case None => rows + [Listing(|rows| + 1, snap, now)]
  }

  /** The whole batch, record by record from the first. */
  function UpsertAll(rows: seq<Listing>, snaps: seq<Snapshot>, now: int): seq<Listing> {
    if snaps == [] then rows
    else UpsertOne(UpsertAll(rows, snaps[..|snaps| - 1], now), snaps[|snaps| - 1], now)
  }

  /** The last snapshot in the batch with key `k`: the one whose fields win. */
  function LastFor(snaps: seq<Snapshot>, k: ListingKey): (r: Option<Snapshot>)
    ensures r.Some? ==> Normalizer.SnapKey(r.value) == k
    ensures r.None? <==> forall j :: 0 <= j < |snaps| ==> Normalizer.SnapKey(snaps[j]) != k
  {
    if snaps == [] then None
    else if Normalizer.SnapKey(snaps[|snaps| - 1]) == k then Some(snaps[|snaps| - 1])
    else LastFor(snaps[..|snaps| - 1], k)
  }

  function Snapshots(raws: seq<RawListing>, baseLat: real, baseLon: real,
                     gc: Geo.GreatCircle): (r: seq<Snapshot>)
    ensures |r| == |raws|
    ensures forall i :: 0 <= i < |raws| ==>
              Normalizer.SnapKey(r[i]) == KeyOf(raws[i]) && r[i].raw == raws[i]
  {
    seq(|raws|, i requires 0 <= i < |raws| =>
      Normalizer.NormalizeAndSnapshot(raws[i], baseLat, baseLon, gc))
  }

  /**
   * What upserting `snaps` into `before` produced `after`: the old rows keep
   * their id, key and creation time and carry the batch's last snapshot for
   * their key (or their own, when the key is not in the batch); the new rows
   * are stamped `now`, carry the last snapshot for a key that was not stored
   * before; every key of the batch is stored; keys stay unique.
   */
  predicate Upserted(before: seq<Listing>, snaps: seq<Snapshot>, now: int, after: seq<Listing>) {
    |before| <= |after|
    && ListingsValid(after)
    && (forall i :: 0 <= i < |before| ==>
          after[i] == Listing(before[i].id, LastFor(snaps, Key(before[i])).GetOr(before[i].snap),
                              before[i].createdAt))
    && (forall i :: |before| <= i < |after| ==>
          after[i].createdAt == now && LastFor(snaps, Key(after[i])) == Some(after[i].snap)
          && !HasKey(before, Key(after[i])))
    && (forall j :: 0 <= j < |snaps| ==> HasKey(after, Normalizer.SnapKey(snaps[j])))
  }

  lemma LastForSnoc(init: seq<Snapshot>, s: Snapshot, k: ListingKey)
    ensures LastFor(init + [s], k)
         == if Normalizer.SnapKey(s) == k then Some(s) else LastFor(init, k)
  {
    assert (init + [s])[..|init|] == init;
  }

  /** A row's key is the key it had before the batch. */
  lemma UpsertedKeepsKeys(before: seq<Listing>, snaps: seq<Snapshot>, now: int,
                          after: seq<Listing>, i: int)
    requires Upserted(before, snaps, now, after) && 0 <= i < |before|
    ensures Key(after[i]) == Key(before[i])
  {
  }

  /** Replacing a row by one with the same key and id keeps every key and the table invariants. */
  lemma ReplaceKeepsKeys(rows: seq<Listing>, p: nat, l: Listing)
    requires ListingsValid(rows) && p < |rows| && Key(l) == Key(rows[p]) && l.id == rows[p].id
    ensures ListingsValid(rows[p := l])
    ensures forall i :: 0 <= i < |rows| ==> Key(rows[p := l][i]) == Key(rows[i])
  {
  }

  lemma UpsertStepExisting(before: seq<Listing>, init: seq<Snapshot>, s: Snapshot, now: int,
                           mid: seq<Listing>, p: nat)
    requires ListingsValid(before)
    requires Upserted(before, init, now, mid)
    requires p < |mid| && Key(mid[p]) == Normalizer.SnapKey(s)
    ensures Upserted(before, init + [s], now,
                     mid[p := Listing(mid[p].id, s, mid[p].createdAt)])
  {
    var k := Normalizer.SnapKey(s);
    var snaps := init + [s];
    var after := mid[p := Listing(mid[p].id, s, mid[p].createdAt)];
    ReplaceKeepsKeys(mid, p, Listing(mid[p].id, s, mid[p].createdAt));
    forall k' ensures LastFor(snaps, k') == if k' == k then Some(s) else LastFor(init, k') {
      LastForSnoc(init, s, k');
    }
    forall i | 0 <= i < |before|
      ensures after[i] == Listing(before[i].id, LastFor(snaps, Key(before[i])).GetOr(before[i].snap),
                                  before[i].createdAt)
    {
      UpsertedKeepsKeys(before, init, now, mid, i);
      if i != p {
        assert Key(mid[i]) != k;
      }
    }
    forall i | |before| <= i < |after|
      ensures after[i].createdAt == now && LastFor(snaps, Key(after[i])) == Some(after[i].snap)
              && !HasKey(before, Key(after[i]))
    {
      if i != p {
        assert Key(mid[i]) != k;
      }
    }
    forall j | 0 <= j < |snaps| ensures HasKey(after, Normalizer.SnapKey(snaps[j])) {
      if j < |init| {
        var q :| 0 <= q < |mid| && Key(mid[q]) == Normalizer.SnapKey(init[j]);
        assert snaps[j] == init[j];
        assert Key(after[q]) == Key(mid[q]);
      } else {
        assert Key(after[p]) == k;
      }
    }
  }

  lemma UpsertStepNew(before: seq<Listing>, init: seq<Snapshot>, s: Snapshot, now: int,
                      mid: seq<Listing>)
    requires ListingsValid(before)
    requires Upserted(before, init, now, mid)
    requires !HasKey(mid, Normalizer.SnapKey(s))
    ensures Upserted(before, init + [s], now, mid + [Listing(|mid| + 1, s, now)])
  {
    var k := Normalizer.SnapKey(s);
    var snaps := init + [s];
    var after := mid + [Listing(|mid| + 1, s, now)];
    forall k' ensures LastFor(snaps, k') == if k' == k then Some(s) else LastFor(init, k') {
      LastForSnoc(init, s, k');
    }
    forall i | 0 <= i < |before|
      ensures after[i] == Listing(before[i].id, LastFor(snaps, Key(before[i])).GetOr(before[i].snap),
                                  before[i].createdAt)
    {
      UpsertedKeepsKeys(before, init, now, mid, i);
      assert Key(mid[i]) != k;
    }
    if HasKey(before, k) {
      var q :| 0 <= q < |before| && Key(before[q]) == k;
      UpsertedKeepsKeys(before, init, now, mid, q);
      assert false;
    }
    forall i | |before| <= i < |after|
      ensures after[i].createdAt == now && LastFor(snaps, Key(after[i])) == Some(after[i].snap)
              && !HasKey(before, Key(after[i]))
    {
      if i < |mid| {
        assert Key(mid[i]) != k;
      }
    }
    forall j | 0 <= j < |snaps| ensures HasKey(after, Normalizer.SnapKey(snaps[j])) {
      if j < |init| {
        var q :| 0 <= q < |mid| && Key(mid[q]) == Normalizer.SnapKey(init[j]);
        assert snaps[j] == init[j];
        assert after[q] == mid[q];
      } else {
        assert Key(after[|mid|]) == k;
      }
    }
  }

  /** The batch upsert does what its description says (see `Upserted`). */
  lemma {:induction false} UpsertAllSpec(before: seq<Listing>, snaps: seq<Snapshot>, now: int)
    requires ListingsValid(before)
    ensures Upserted(before, snaps, now, UpsertAll(before, snaps, now))
  {
    if snaps == [] {
    } else {
      var init, s := snaps[..|snaps| - 1], snaps[|snaps| - 1];
      assert snaps == init + [s];
      UpsertAllSpec(before, init, now);
      var mid := UpsertAll(before, init, now);
      assert UpsertAll(before, snaps, now) == UpsertOne(mid, s, now);
      var found := FindKey(mid, Normalizer.SnapKey(s));
      if found.Some? {
        var p := found.value;
        assert UpsertOne(mid, s, now) == mid[p := Listing(mid[p].id, s, mid[p].createdAt)];
        UpsertStepExisting(before, init, s, now, mid, p);
      } else {
        assert UpsertOne(mid, s, now) == mid + [Listing(|mid| + 1, s, now)];
        UpsertStepNew(before, init, s, now, mid);
      }
    }
  }

  /** Upserting the same batch again, at any later time, changes nothing. */
  lemma UpsertAllIdempotent(before: seq<Listing>, snaps: seq<Snapshot>, now: int, later: int)
    requires ListingsValid(before)
    ensures var once := UpsertAll(before, snaps, now);
            UpsertAll(once, snaps, later) == once
  {
    var once := UpsertAll(before, snaps, now);
    UpsertAllSpec(before, snaps, now);
    UpsertAllSpec(once, snaps, later);
    var twice := UpsertAll(once, snaps, later);
    if |twice| > |once| {
      var k := Key(twice[|once|]);
      var last := LastFor(snaps, k);
      assert false;
    }
    forall i | 0 <= i < |once| ensures twice[i] == once[i] {
      var k := Key(once[i]);
      if i < |before| {
        UpsertedKeepsKeys(before, snaps, now, once, i);
      }
    }
  }

  /** Every stored key is kept, and every key of the batch ends up stored. */
  lemma UpsertAllKeys(before: seq<Listing>, snaps: seq<Snapshot>, now: int, k: ListingKey)
    requires ListingsValid(before)
    ensures var after := UpsertAll(before, snaps, now);
            HasKey(after, k) <==> HasKey(before, k) || LastFor(snaps, k).Some?
  {
    var after := UpsertAll(before, snaps, now);
    UpsertAllSpec(before, snaps, now);
    if HasKey(before, k) {
      var q :| 0 <= q < |before| && Key(before[q]) == k;
      UpsertedKeepsKeys(before, snaps, now, after, q);
    }
    if HasKey(after, k) && !HasKey(before, k) {
      var q :| 0 <= q < |after| && Key(after[q]) == k;
      if q < |before| {
        UpsertedKeepsKeys(before, snaps, now, after, q);
      }
    }
  }

  /**
   * The ingest job: normalize each record against the base, upsert it, and
   * count it.  Every record counts, whether it was new or an update.
   */
  method UpsertListings(db: Database, raws: seq<RawListing>, baseLat: real, baseLon: real,
                        gc: Geo.GreatCircle, now: int) returns (count: nat)
    requires db.Valid()
    modifies db
    ensures db.Valid()
    ensures count == |raws|
    ensures db.listings == UpsertAll(old(db.listings), Snapshots(raws, baseLat, baseLon, gc), now)
    ensures db.users == old(db.users) && db.watches == old(db.watches)
    ensures db.seen == old(db.seen)
  {
    ghost var snaps := Snapshots(raws, baseLat, baseLon, gc);
    count := 0;
    var i := 0;
    while i < |raws|
      invariant 0 <= i <= |raws| && count == i
      invariant db.listings == UpsertAll(old(db.listings), snaps[..i], now)
      invariant db.users == old(db.users) && db.watches == old(db.watches)
      invariant db.seen == old(db.seen)
    {
      var snap := Normalizer.NormalizeAndSnapshot(raws[i], baseLat, baseLon, gc);
      assert snaps[..i + 1][..i] == snaps[..i];
      var existing := FindKey(db.listings, Normalizer.SnapKey(snap));
      match existing {
        case Some(p) =>
          db.listings := db.listings[p := Listing(db.listings[p].id, snap, db.listings[p].createdAt)];
        case None =>
          db.listings := db.listings + [Listing(|db.listings| + 1, snap, now)];
      }
      count := count + 1;
      i := i + 1;
    }
    assert snaps[..i] == snaps;
    UpsertAllSpec(old(db.listings), snaps, now);
  }
}
