/**
 * The four tables: listings, users, watches and the per-user seen marks.
 * Times are whole seconds.  Row ids of listings are their position in the
 * table plus one; a new watch takes the largest stored watch id plus one,
 * as SQLite assigns an integer primary key.
 */
module Models {
  import opened Wrappers
  import opened Schemas
  import Config
  import Normalizer

  /** A stored listing: the snapshot fields, its id and the time it was first stored. */
  datatype Listing = Listing(id: nat, snap: Normalizer.Snapshot, createdAt: int)

  function Key(l: Listing): ListingKey { Normalizer.SnapKey(l.snap) }

  datatype User = User(
    tgUserId: int,
    username: string,
    baseCity: string,
    baseLat: real,
    baseLon: real,
    radiusKm: int,
    isPremium: bool,
    createdAt: int)

  /** A keyword watch.  The overrides are stored but nothing reads them. */
  datatype Watch = Watch(
    id: nat,
    userId: int,
    keyword: string,
    radiusKm: Option<int>,
    minMarginEur: Option<real>,
    maxPriceEur: Option<real>,
    categories: Option<string>,
    createdAt: int)

  /** A user row with the column defaults: 500 km around Marseille, not premium. */
  function NewUser(tgUserId: int, username: string, now: int): (u: User)
    ensures u.tgUserId == tgUserId && u.username == username && u.createdAt == now
    ensures u.radiusKm == 500 && !u.isPremium
    ensures u.baseCity == "Marseille" && u.baseLat == 43.2965 && u.baseLon == 5.3698
  {
    User(tgUserId, username, Config.BaseCity, Config.BaseLat, Config.BaseLon, 500, false, now)
  }

  /** A watch row with every override unset. */
  function NewWatch(id: nat, userId: int, keyword: string, now: int): (w: Watch)
    ensures w.id == id && w.userId == userId && w.keyword == keyword && w.createdAt == now
    ensures w.radiusKm.None? && w.minMarginEur.None? && w.maxPriceEur.None? && w.categories.None?
  {
    Watch(id, userId, keyword, None, None, None, None, now)
  }

  /** Unique constraint on (source, external_id). */
  predicate UniqueKeys(rows: seq<Listing>) {
    forall i, j :: 0 <= i < j < |rows| ==> Key(rows[i]) != Key(rows[j])
  }

  /** Ids are the table positions, counted from one. */
  predicate IdsArePositions(rows: seq<Listing>) {
    forall i :: 0 <= i < |rows| ==> rows[i].id == i + 1
  }

  predicate ListingsValid(rows: seq<Listing>) {
    UniqueKeys(rows) && IdsArePositions(rows)
  }

  /** Watch ids are positive and distinct. */
  predicate WatchesValid(ws: seq<Watch>) {
    (forall i :: 0 <= i < |ws| ==> 0 < ws[i].id)
    && forall i, j :: 0 <= i < j < |ws| ==> ws[i].id != ws[j].id
  }

  /** The largest stored watch id, 0 for an empty table. */
  function MaxWatchId(ws: seq<Watch>): (m: nat)
    ensures forall i :: 0 <= i < |ws| ==> ws[i].id <= m
    ensures ws == [] ==> m == 0
    ensures ws != [] ==> exists i :: 0 <= i < |ws| && ws[i].id == m
  {
    if ws == [] then 0
    else
      var m := MaxWatchId(ws[1..]);
      if ws[0].id >= m then ws[0].id else m
  }

  /** The user map is keyed by each user's own id. */
  predicate UsersValid(users: map<int, User>) {
    forall uid :: uid in users ==> users[uid].tgUserId == uid
  }

  /** The watches of one user, in table order. */
  function WatchesOf(ws: seq<Watch>, uid: int): (r: seq<Watch>)
    ensures |r| <= |ws|
    ensures forall i :: 0 <= i < |r| ==> r[i].userId == uid
    ensures forall w :: w in ws && w.userId == uid ==> w in r
    ensures forall w :: w in r ==> w in ws
    ensures r == [] <==> forall w :: w in ws ==> w.userId != uid
  {
    if ws == [] then []
    else if ws[0].userId == uid then [ws[0]] + WatchesOf(ws[1..], uid)
    else WatchesOf(ws[1..], uid)
  }

  /**
   * The store.  `seen` holds (user id, listing id) pairs, so the unique
   * constraint on the seen table holds by construction.
   */
  class Database {
    var listings: seq<Listing>
    var users: map<int, User>
    var watches: seq<Watch>
    var seen: set<(int, int)>

    ghost predicate Valid()
      reads this
    {
      ListingsValid(listings) && UsersValid(users) && WatchesValid(watches)
    }

    /** An empty store. */
    constructor ()
      ensures Valid()
      ensures listings == [] && users == map[] && watches == [] && seen == {}
    {
      listings := [];
      users := map[];
      watches := [];
      seen := {};
    }

    /** Deleting a user deletes its watches; listings and seen marks stay. */
    method DeleteUser(uid: int)
      requires Valid()
      modifies this
      ensures Valid()
      ensures users == old(users) - {uid}
      ensures forall w :: w in watches <==> w in old(watches) && w.userId != uid
      ensures listings == old(listings) && seen == old(seen)
    {
      var kept: seq<Watch> := [];
      var i := 0;
      while i < |watches|
        invariant 0 <= i <= |watches|
        invariant forall w :: w in kept <==> w in watches[..i] && w.userId != uid
        invariant WatchesValid(kept)
        invariant forall a, b :: 0 <= a < |kept| && i <= b < |watches| ==> kept[a].id != watches[b].id
      {
        var w := watches[i];
        assert watches[..i + 1] == watches[..i] + [w];
        if w.userId != uid {
          kept := kept + [w];
        }
        i := i + 1;
      }
      assert watches[..i] == watches;
      users := users - {uid};
      watches := kept;
    }
  }
}
