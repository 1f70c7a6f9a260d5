/**
 * The hourly digest.  For every user with at least one watch it takes the
 * listings stored in the last 24 hours, keeps those within the user's radius,
 * passing the footwear gate and matching some watch, ranks them by the
 * recency-boosted score, keeps the best ten, drops those the user has already
 * been sent, sends the rest and records them as seen.  Sending is abstract: it
 * always completes before the seen marks are committed.
 */
module Alerts {
  import opened Wrappers
  import opened Text
  import opened Seqs
  import opened Ranking
  import opened Models
  import Scoring

  const DigestSize: nat := 10
  /** How far back the digest looks: 24 hours, in seconds. */
  const RecentWindow: int := 24 * 3600
  const DefaultRadiusKm: int := 500
  /** The hard-coded footwear words a title must contain one of. */
  const FootwearWords: seq<string> := ["sneaker", "shoe", "trainer", "adidas", "nike"]

  // --------------------------------------------------------------- the gates

  /** The user's radius; an unset (zero) radius means 500 km. */
  function EffectiveRadius(u: User): (r: int)
    ensures u.radiusKm != 0 ==> r == u.radiusKm
    ensures u.radiusKm == 0 ==> r == DefaultRadiusKm
  {
    if u.radiusKm != 0 then u.radiusKm else DefaultRadiusKm
  }

  /** A missing or zero distance always passes; otherwise it must not exceed the radius. */
  predicate WithinRadius(l: Listing, u: User) {
    var d := l.snap.distanceKm;
    !(d.Some? && d.value != 0.0 && d.value > EffectiveRadius(u) as real)
  }

  /** Python's `any(k in text for k in words)`. */
  predicate AnyWordIn(words: seq<string>, text: string) {
    words != [] && (Contains(text, words[0]) || AnyWordIn(words[1..], text))
  }

  lemma {:induction false} AnyWordInMeans(words: seq<string>, text: string)
    ensures AnyWordIn(words, text) <==> exists k :: k in words && Contains(text, k)
  {
    if words != [] {
      AnyWordInMeans(words[1..], text);
      assert forall k :: k in words <==> k == words[0] || k in words[1..];
    }
  }

  /** The lowercased title contains one of the footwear words. */
  predicate FootwearGate(title: string) {
    AnyWordIn(FootwearWords, Lower(title))
  }

  /** Some whitespace-separated word of the watch's lowercased keyword occurs in the lowercased title. */
  predicate WatchMatches(w: Watch, title: string) {
    AnyWordIn(SplitWhitespace(Lower(w.keyword)), Lower(title))
  }

  predicate IsCandidate(l: Listing, u: User, ws: seq<Watch>) {
    WithinRadius(l, u) && FootwearGate(l.snap.title)
    && exists w :: w in ws && WatchMatches(w, l.snap.title)
  }

  function CandidateTest(u: User, ws: seq<Watch>): Listing -> bool {
    (l: Listing) => IsCandidate(l, u, ws)
  }

  function RecentTest(now: int): Listing -> bool {
    (l: Listing) => l.createdAt >= now - RecentWindow
  }

  function UnseenTest(seenIds: set<nat>): Listing -> bool {
    (l: Listing) => l.id !in seenIds
  }

  /** The rank key: the flip score boosted by how recently the listing was stored. */
  function RankKey(now: int): Listing -> real {
    (l: Listing) => Scoring.FinalRankScore(Some(l.snap.flipScore), Some(l.createdAt), now)
  }

  // ----------------------------------------------------------- the pipeline

  function RecentListings(listings: seq<Listing>, now: int): seq<Listing> {
    Filter(listings, RecentTest(now))
  }

  function Candidates(recent: seq<Listing>, u: User, ws: seq<Watch>): seq<Listing> {
    Filter(recent, CandidateTest(u, ws))
  }

  predicate HasId(s: seq<Listing>, id: nat) {
    exists i :: 0 <= i < |s| && s[i].id == id
  }

  /** One listing per id, in the order the ids first appear. */
  function DedupeById(s: seq<Listing>): (r: seq<Listing>)
    ensures forall x :: x in r ==> x in s
    ensures forall i, j :: 0 <= i < j < |r| ==> r[i].id != r[j].id
    ensures forall i :: 0 <= i < |s| ==> HasId(r, s[i].id)
  {
    if s == [] then []
    else
      var init, x := s[..|s| - 1], s[|s| - 1];
      var d := DedupeById(init);
      assert forall i :: 0 <= i < |s| - 1 ==> s[i] == init[i];
      if HasId(d, x.id) then d
      else
        var r := d + [x];
        assert r[|d|] == x;
        assert forall i :: 0 <= i < |d| ==> r[i] == d[i];
        assert forall id :: HasId(d, id) ==> HasId(r, id);
        r
  }

  /** The ten best candidates by rank, before the seen filter. */
  function TopCandidates(recent: seq<Listing>, u: User, ws: seq<Watch>, now: int): seq<Listing> {
    Take(SortDesc(DedupeById(Candidates(recent, u, ws)), RankKey(now)), DigestSize)
  }

  /** The ids of listings already sent to `uid`. */
  function SeenIds(seen: set<(int, int)>, uid: int): set<nat> {
    set p | p in seen && p.0 == uid && p.1 >= 0 :: p.1 as nat
  }

  /** What one user is sent in a cycle. */
  function UserDigest(listings: seq<Listing>, u: User, allWatches: seq<Watch>,
                      seenIds: set<nat>, now: int): seq<Listing>
  {
    var ws := WatchesOf(allWatches, u.tgUserId);
    if ws == [] then []
    else Filter(TopCandidates(RecentListings(listings, now), u, ws, now), UnseenTest(seenIds))
  }

  /** The seen marks for sending `batch` to `uid`. */
  function Marks(uid: int, batch: seq<Listing>): set<(int, int)> {
    set l | l in batch :: (uid, l.id as int)
  }

  /** The seen marks a cycle writes: one per user and listing sent. */
  function Delivered(sent: map<int, seq<Listing>>): set<(int, int)> {
    set uid, l | uid in sent && l in sent[uid] :: (uid, l.id as int)
  }

  // ------------------------------------------------------------ properties

  lemma TopCandidatesMembers(recent: seq<Listing>, u: User, ws: seq<Watch>, now: int, l: Listing)
    requires l in TopCandidates(recent, u, ws, now)
    ensures l in recent && IsCandidate(l, u, ws)
  {
    var cands := Candidates(recent, u, ws);
    var sorted := SortDesc(DedupeById(cands), RankKey(now));
    assert l in sorted;
    SortDescMembership(DedupeById(cands), RankKey(now), l);
    FilterMembership(recent, CandidateTest(u, ws), l);
  }

  /**
   * Everything a user is sent is recent, within the radius, passes the
   * footwear gate, matches one of that user's watches, and was not sent before.
   */
  lemma DigestMembers(listings: seq<Listing>, u: User, allWatches: seq<Watch>,
                      seenIds: set<nat>, now: int, l: Listing)
    requires l in UserDigest(listings, u, allWatches, seenIds, now)
    ensures l in listings && l.createdAt >= now - RecentWindow
    ensures WithinRadius(l, u) && FootwearGate(l.snap.title)
    ensures exists w :: w in allWatches && w.userId == u.tgUserId && WatchMatches(w, l.snap.title)
    ensures l.id !in seenIds
  {
    var ws := WatchesOf(allWatches, u.tgUserId);
    var recent := RecentListings(listings, now);
    var top := TopCandidates(recent, u, ws, now);
    FilterMembership(top, UnseenTest(seenIds), l);
    TopCandidatesMembers(recent, u, ws, now, l);
    FilterMembership(listings, RecentTest(now), l);
    var w :| w in ws && WatchMatches(w, l.snap.title);
    assert w in allWatches && w.userId == u.tgUserId;
  }

  /** A user is sent at most ten listings, best rank first. */
  lemma DigestOrderedAndBounded(listings: seq<Listing>, u: User, allWatches: seq<Watch>,
                                seenIds: set<nat>, now: int)
    ensures var d := UserDigest(listings, u, allWatches, seenIds, now);
      |d| <= DigestSize && SortedDesc(d, RankKey(now))
  {
    var ws := WatchesOf(allWatches, u.tgUserId);
    if ws != [] {
      var uniq := DedupeById(Candidates(RecentListings(listings, now), u, ws));
      TopOfSorted(uniq, RankKey(now), DigestSize);
      FilterSorted(TopCandidates(RecentListings(listings, now), u, ws, now), RankKey(now),
                   UnseenTest(seenIds));
    }
  }

  /** A user without watches is sent nothing. */
  lemma NoWatchesNoDigest(listings: seq<Listing>, u: User, allWatches: seq<Watch>,
                          seenIds: set<nat>, now: int)
    requires forall w :: w in allWatches ==> w.userId != u.tgUserId
    ensures UserDigest(listings, u, allWatches, seenIds, now) == []
  {
  }

  /**
   * A recent listing that passes the radius and footwear gates reaches the
   * candidates exactly when one of the user's watches matches it.
   */
  lemma CandidateIffSomeWatchMatches(recent: seq<Listing>, u: User, ws: seq<Watch>, l: Listing)
    requires l in recent && WithinRadius(l, u) && FootwearGate(l.snap.title)
    ensures l in Candidates(recent, u, ws) <==> exists w :: w in ws && WatchMatches(w, l.snap.title)
  {
    FilterMembership(recent, CandidateTest(u, ws), l);
  }

  /**
   * The seen filter runs after the cut to ten: an unsent candidate the user
   * has not seen is left out only when ten candidates ranked at least as high
   * took the slots, whether or not the user had seen them.
   */
  lemma SeenListingsStillTakeSlots(listings: seq<Listing>, u: User, allWatches: seq<Watch>,
                                   seenIds: set<nat>, now: int, x: Listing)
    requires WatchesOf(allWatches, u.tgUserId) != []
    requires x in DedupeById(Candidates(RecentListings(listings, now), u,
                                        WatchesOf(allWatches, u.tgUserId)))
    requires x.id !in seenIds
    requires x !in UserDigest(listings, u, allWatches, seenIds, now)
    ensures var top := TopCandidates(RecentListings(listings, now), u,
                                     WatchesOf(allWatches, u.tgUserId), now);
      |top| == DigestSize && forall y :: y in top ==> RankKey(now)(y) >= RankKey(now)(x)
  {
    var ws := WatchesOf(allWatches, u.tgUserId);
    var uniq := DedupeById(Candidates(RecentListings(listings, now), u, ws));
    var sorted := SortDesc(uniq, RankKey(now));
    var top := Take(sorted, DigestSize);
    FilterMembership(top, UnseenTest(seenIds), x);
    assert x !in top;
    SortDescMembership(uniq, RankKey(now), x);
    var j :| 0 <= j < |sorted| && sorted[j] == x;
    assert j >= |top|;
    TopOfSorted(uniq, RankKey(now), DigestSize);
    forall y | y in top ensures RankKey(now)(y) >= RankKey(now)(x) {
      var i :| 0 <= i < |top| && top[i] == y;
      assert sorted[i] == y;
    }
  }

  /** The digest depends on the seen marks only through the user's own. */
  lemma DigestDependsOnOwnSeen(listings: seq<Listing>, u: User, allWatches: seq<Watch>,
                               seen1: set<(int, int)>, seen2: set<(int, int)>, now: int)
    requires forall p: (int, int) :: p.0 == u.tgUserId ==> (p in seen1 <==> p in seen2)
    ensures UserDigest(listings, u, allWatches, SeenIds(seen1, u.tgUserId), now)
         == UserDigest(listings, u, allWatches, SeenIds(seen2, u.tgUserId), now)
  {
    var a, b := SeenIds(seen1, u.tgUserId), SeenIds(seen2, u.tgUserId);
    forall id: nat ensures id in a <==> id in b {
      assert id in a <==> (u.tgUserId, id as int) in seen1;
      assert id in b <==> (u.tgUserId, id as int) in seen2;
    }
    assert a == b;
  }

  /** Stored listings have distinct ids, so deduplication changes nothing. */
  lemma {:induction false} DedupeDistinct(s: seq<Listing>)
    requires forall i, j :: 0 <= i < j < |s| ==> s[i].id != s[j].id
    ensures DedupeById(s) == s
  {
    if s != [] {
      var init, x := s[..|s| - 1], s[|s| - 1];
      DedupeDistinct(init);
      assert !HasId(init, x.id) by {
        forall i | 0 <= i < |init| ensures init[i].id != x.id {
          assert init[i] == s[i];
        }
      }
      assert s == init + [x];
    }
  }

  // ------------------------------------------------------------- the job

  /** The watch loop: stops at the first watch that matches the title. */
  method AnyWatchMatches(ws: seq<Watch>, title: string) returns (matched: bool)
    ensures matched <==> exists w :: w in ws && WatchMatches(w, title)
  {
    matched := false;
    var j := 0;
    while j < |ws| && !matched
      invariant 0 <= j <= |ws|
      invariant matched <==> exists k :: 0 <= k < j && WatchMatches(ws[k], title)
    {
      matched := WatchMatches(ws[j], title);
      j := j + 1;
    }
    if !matched {
      NoWatchMatches(ws, title);
    }
  }

  lemma NoWatchMatches(ws: seq<Watch>, title: string)
    requires !exists k :: 0 <= k < |ws| && WatchMatches(ws[k], title)
    ensures !exists w :: w in ws && WatchMatches(w, title)
  {
    forall w | w in ws ensures !WatchMatches(w, title) {
      var k :| 0 <= k < |ws| && ws[k] == w;
    }
  }

  /**
   * The candidate loop: every recent listing is tested against the gates and
   * then against the user's watches, stopping at the first watch that matches.
   */
  method CollectCandidates(recent: seq<Listing>, u: User, ws: seq<Watch>)
    returns (cands: seq<Listing>)
    ensures cands == Candidates(recent, u, ws)
  {
    cands := [];
    var i := 0;
    while i < |recent|
      invariant 0 <= i <= |recent|
      invariant cands == Filter(recent[..i], CandidateTest(u, ws))
    {
      var l := recent[i];
      assert recent[..i + 1] == recent[..i] + [l];
      FilterSnoc(recent[..i], l, CandidateTest(u, ws));
      if WithinRadius(l, u) && FootwearGate(l.snap.title) {
        var matched := AnyWatchMatches(ws, l.snap.title);
        if matched {
          cands := cands + [l];
        }
      }
      i := i + 1;
    }
    assert recent[..i] == recent;
  }

  /** The marks of a cycle so far say nothing about a user not yet visited. */
  lemma DeliveredOthers(sent: map<int, seq<Listing>>, uid: int)
    requires uid !in sent
    ensures forall p: (int, int) :: p.0 == uid ==> p !in Delivered(sent)
  {
  }

  lemma DeliveredAdd(sent: map<int, seq<Listing>>, uid: int, batch: seq<Listing>)
    requires uid !in sent
    ensures Delivered(sent[uid := batch])
         == Delivered(sent) + Marks(uid, batch)
  {
    var m := sent[uid := batch];
    forall p | p in Delivered(m)
      ensures p in Delivered(sent) + Marks(uid, batch)
    {
      var v: int, l: Listing :| v in m && l in m[v] && p == (v, l.id as int);
      if v != uid {
        assert l in sent[v];
      }
    }
    forall l | l in batch ensures (uid, l.id as int) in Delivered(m) {
      assert uid in m && l in m[uid];
    }
    forall p | p in Delivered(sent) ensures p in Delivered(m) {
      var v: int, l: Listing :| v in sent && l in sent[v] && p == (v, l.id as int);
      assert m[v] == sent[v];
    }
  }

  /**
   * A cycle's marks are all new: nothing sent was already marked seen, so the
   * unique constraint on (user_id, listing_id) is never hit.
   */
  lemma DeliveredFresh(listings: seq<Listing>, users: map<int, User>, allWatches: seq<Watch>,
                       seen: set<(int, int)>, now: int, sent: map<int, seq<Listing>>)
    requires forall uid :: uid in sent ==>
               (uid in users && sent[uid] == UserDigest(listings, users[uid], allWatches, SeenIds(seen, uid), now))
    ensures Delivered(sent) !! seen
  {
    forall p | p in Delivered(sent) ensures p !in seen {
      var uid: int, l: Listing :| uid in sent && l in sent[uid] && p == (uid, l.id as int);
      DigestMembers(listings, users[uid], allWatches, SeenIds(seen, uid), now, l);
    }
  }

  /**
   * A listing sent to a user in one cycle is never sent to that user again:
   * once its mark is added, no later digest for the user holds a listing with
   * its id, whatever the listings, watches and time of that later cycle.
   */
  lemma NeverSentTwice(sent: map<int, seq<Listing>>, seen: set<(int, int)>, l: Listing,
                       listings: seq<Listing>, u: User, allWatches: seq<Watch>, now: int)
    requires u.tgUserId in sent && l in sent[u.tgUserId]
    ensures forall x :: x in UserDigest(listings, u, allWatches, SeenIds(seen + Delivered(sent), u.tgUserId), now)
              ==> x.id != l.id
  {
    var uid := u.tgUserId;
    var later := SeenIds(seen + Delivered(sent), uid);
    assert (uid, l.id as int) in Delivered(sent);
    assert l.id in later;
    forall x | x in UserDigest(listings, u, allWatches, later, now) ensures x.id != l.id {
      DigestMembers(listings, u, allWatches, later, now, x);
    }
  }

  /** The next user to visit; the order is whatever the user query returns. */
  method PickUser(todo: set<int>) returns (uid: int)
    requires todo != {}
    ensures uid in todo
  {
    assert exists x :: x in todo by {
      if forall x :: x !in todo {
        assert false;
      }
    }
    uid :| uid in todo;
  }

  /**
   * One user's turn: rank the candidates, drop what the user has seen, send
   * the rest and mark each sent listing as seen.  The commit follows the sends.
   */
  method DigestForUser(db: Database, u: User, recent: seq<Listing>, now: int)
    returns (batch: seq<Listing>)
    requires recent == RecentListings(db.listings, now)
    modifies db`seen
    ensures batch == UserDigest(db.listings, u, db.watches, SeenIds(old(db.seen), u.tgUserId), now)
    ensures db.seen == old(db.seen) + Marks(u.tgUserId, batch)
  {
    var uid := u.tgUserId;
    var ws := WatchesOf(db.watches, uid);
    ghost var want := UserDigest(db.listings, u, db.watches, SeenIds(db.seen, uid), now);
    batch := [];
    if ws != [] {
      var cands := CollectCandidates(recent, u, ws);
      var ranked := Take(SortDesc(DedupeById(cands), RankKey(now)), DigestSize);
      var seenIds := SeenIds(db.seen, uid);
      assert want == Filter(ranked, UnseenTest(seenIds));
      if ranked != [] {
        ranked := Filter(ranked, UnseenTest(seenIds));
        if ranked != [] {
          // Dispatch to the user happens here and is not modelled.
          MarkSeen(db, uid, ranked);
          batch := ranked;
        }
      }
    }
    assert batch == want;
    if batch == [] {
      assert Marks(uid, batch) == {};
    }
  }

  /** Records one seen mark per listing sent. */
  method MarkSeen(db: Database, uid: int, ranked: seq<Listing>)
    modifies db`seen
    ensures db.seen == old(db.seen) + Marks(uid, ranked)
  {
    var i := 0;
    while i < |ranked|
      invariant 0 <= i <= |ranked|
      invariant db.seen == old(db.seen) + Marks(uid, ranked[..i])
    {
      assert ranked[..i + 1] == ranked[..i] + [ranked[i]];
      db.seen := db.seen + {(uid, ranked[i].id as int)};
      i := i + 1;
    }
    assert ranked[..i] == ranked;
  }

  /**
   * One digest cycle.  `sent` maps each user to what that user was sent; the
   * users are visited in an unspecified order, which the result does not
   * depend on.  Afterwards the seen marks are the old ones plus exactly what
   * was sent.
   */
  method SendHourlyDigest(db: Database, now: int) returns (sent: map<int, seq<Listing>>)
    requires db.Valid()
    modifies db
    ensures db.Valid()
    ensures db.listings == old(db.listings) && db.users == old(db.users)
    ensures db.watches == old(db.watches)
    ensures sent.Keys == db.users.Keys
    ensures forall uid :: uid in sent ==>
              sent[uid] == UserDigest(db.listings, db.users[uid], db.watches,
                                      SeenIds(old(db.seen), uid), now)
    ensures db.seen == old(db.seen) + Delivered(sent)
    ensures Delivered(sent) !! old(db.seen)
  {
    var recent := RecentListings(db.listings, now);
    sent := map[];
    var todo := db.users.Keys;
    while todo != {}
      invariant todo <= db.users.Keys
      invariant sent.Keys == db.users.Keys - todo
      invariant db.listings == old(db.listings) && db.users == old(db.users)
      invariant db.watches == old(db.watches)
      invariant forall uid :: uid in sent ==>
                  sent[uid] == UserDigest(db.listings, db.users[uid], db.watches,
                                          SeenIds(old(db.seen), uid), now)
      invariant db.seen == old(db.seen) + Delivered(sent)
      decreases |todo|
    {
      var uid := PickUser(todo);
      var u := db.users[uid];
      assert u.tgUserId == uid;
      DeliveredOthers(sent, uid);
      DigestDependsOnOwnSeen(db.listings, u, db.watches, db.seen, old(db.seen), now);
      var batch := DigestForUser(db, u, recent, now);
      DeliveredAdd(sent, uid, batch);
      sent := sent[uid := batch];
      todo := todo - {uid};
    }
    assert Delivered(sent) !! old(db.seen) by {
      DeliveredFresh(db.listings, db.users, db.watches, old(db.seen), now, sent);
    }
  }
}
