/**
 * The store effects of the bot's commands.  Replies are reduced to which
 * branch answered; their text is not modelled.  `args` are the words after
 * the command, as the bot framework splits them.
 */
module Handlers {
  import opened Wrappers
  import opened Text
  import opened Seqs
  import opened Ranking
  import opened Models
  import Alerts

  datatype UnwatchReply = NoWatchesYet | ListedWatches(ws: seq<Watch>) | UnwatchUsage | Removed
  datatype NearReply = NearUsage | OutOfRange | RadiusSet(km: int)

  const TopSize: nat := 10
  const MinRadiusKm: int := 10
  const MaxRadiusKm: int := 3000

  /** `/start`: register the caller unless already registered. */
  method Start(db: Database, uid: int, username: Option<string>, now: int)
    requires db.Valid()
    modifies db
    ensures db.Valid()
    ensures uid in old(db.users) ==> db.users == old(db.users)
    ensures uid !in old(db.users) ==> db.users == old(db.users)[uid := NewUser(uid, username.GetOr(""), now)]
    ensures db.listings == old(db.listings) && db.watches == old(db.watches)
    ensures db.seen == old(db.seen)
  {
    if uid !in db.users {
      db.users := db.users[uid := NewUser(uid, username.GetOr(""), now)];
    }
  }

  /** `/watch <words>`: add one watch for the caller; no words, no watch. */
  method AddWatch(db: Database, uid: int, args: seq<string>, now: int) returns (added: Option<Watch>)
    requires db.Valid()
    modifies db
    ensures db.Valid()
    ensures args == [] ==> added.None? && db.watches == old(db.watches)
    ensures args != [] ==> added == Some(NewWatch(MaxWatchId(old(db.watches)) + 1, uid, JoinSpace(args), now))
                           && db.watches == old(db.watches) + [added.value]
    ensures db.listings == old(db.listings) && db.users == old(db.users) && db.seen == old(db.seen)
  {
    if args == [] {
      return None;
    }
    var w := NewWatch(MaxWatchId(db.watches) + 1, uid, JoinSpace(args), now);
    var ws := db.watches + [w];
    assert forall i :: 0 <= i < |db.watches| ==> ws[i] == db.watches[i];
    db.watches := ws;
    added := Some(w);
  }

  /** Deleting by id is scoped to the caller: only a watch with that id and owner goes. */
  function RemoveWatch(ws: seq<Watch>, wid: int, uid: int): (r: seq<Watch>)
    ensures forall w :: w in r <==> w in ws && !(w.id == wid && w.userId == uid)
  {
    var keep := (w: Watch) => !(w.id == wid && w.userId == uid);
    assert forall w :: w in Filter(ws, keep) <==> w in ws && keep(w) by {
      forall w { FilterMembership(ws, keep, w); }
    }
    Filter(ws, keep)
  }

  /**
   * Watch ids are not a sequence that only grows: once the watch holding the
   * largest id is deleted, the next `/watch` is handed an id no larger than it.
   */
  lemma NewestIdReused(ws: seq<Watch>, w: Watch)
    requires WatchesValid(ws) && w in ws && w.id == MaxWatchId(ws)
    ensures MaxWatchId(RemoveWatch(ws, w.id, w.userId)) + 1 <= w.id
  {
    var r := RemoveWatch(ws, w.id, w.userId);
    forall x | x in r ensures x.id < w.id {
      var i :| 0 <= i < |ws| && ws[i] == x;
      var j :| 0 <= j < |ws| && ws[j] == w;
      assert ws[i].id == ws[j].id ==> i == j;
    }
    if r != [] {
      var k :| 0 <= k < |r| && r[k].id == MaxWatchId(r);
      assert r[k] in r;
    }
  }

  /** `/unwatch [<id>]`: list the caller's watches, or delete one of them by id. */
  method Unwatch(db: Database, uid: int, args: seq<string>) returns (reply: UnwatchReply)
    requires db.Valid()
    modifies db
    ensures db.Valid()
    ensures args == [] ==> db.watches == old(db.watches)
                           && reply == (if WatchesOf(db.watches, uid) == [] then NoWatchesYet
                                        else ListedWatches(WatchesOf(db.watches, uid)))
    ensures args != [] && ParseInt(args[0]).None? ==> reply == UnwatchUsage && db.watches == old(db.watches)
    ensures args != [] && ParseInt(args[0]).Some? ==>
              reply == Removed && db.watches == RemoveWatch(old(db.watches), ParseInt(args[0]).value, uid)
    ensures db.listings == old(db.listings) && db.users == old(db.users)
    ensures db.seen == old(db.seen)
  {
    var ws := WatchesOf(db.watches, uid);
    if args == [] {
      if ws == [] {
        return NoWatchesYet;
      }
      return ListedWatches(ws);
    }
    var wid := ParseInt(args[0]);
    if wid.None? {
      return UnwatchUsage;
    }
    var keep := (w: Watch) => !(w.id == wid.value && w.userId == uid);
    FilterPairwise(db.watches, keep, (a: Watch, b: Watch) => a.id != b.id);
    forall w | w in Filter(db.watches, keep) ensures 0 < w.id {
      FilterMembership(db.watches, keep, w);
    }
    db.watches := RemoveWatch(db.watches, wid.value, uid);
    reply := Removed;
  }

  /** The radius `/near` accepts: an integer from 10 to 3000. */
  function ParseRadius(arg: string): (r: Option<int>)
    ensures r.Some? <==> ParseInt(arg).Some? && MinRadiusKm <= ParseInt(arg).value <= MaxRadiusKm
    ensures r.Some? ==> r.value == ParseInt(arg).value
  {
    match ParseInt(arg)
    case Some(km) => if MinRadiusKm <= km <= MaxRadiusKm then Some(km) else None
    case None => None
  }

  /** `/near <km>`: set the caller's radius, if the caller is registered; never registers. */
  method NearCmd(db: Database, uid: int, args: seq<string>) returns (reply: NearReply)
    requires db.Valid()
    modifies db
    ensures db.Valid()
    ensures args == [] ==> reply == NearUsage && db.users == old(db.users)
    ensures args != [] && ParseRadius(args[0]).None? ==> reply == OutOfRange && db.users == old(db.users)
    ensures args != [] && ParseRadius(args[0]).Some? ==>
              var km := ParseRadius(args[0]).value;
              reply == RadiusSet(km)
              && db.users == if uid in old(db.users)
                             then old(db.users)[uid := old(db.users)[uid].(radiusKm := km)]
                             else old(db.users)
    ensures db.users.Keys == old(db.users).Keys
    ensures db.listings == old(db.listings) && db.watches == old(db.watches)
    ensures db.seen == old(db.seen)
  {
    if args == [] {
      return NearUsage;
    }
    var km := ParseRadius(args[0]);
    if km.None? {
      return OutOfRange;
    }
    if uid in db.users {
      db.users := db.users[uid := db.users[uid].(radiusKm := km.value)];
    }
    reply := RadiusSet(km.value);
  }

  function FlipKey(): Listing -> real {
    (l: Listing) => l.snap.flipScore
  }

  /** `/top`: the ten best flip scores among listings stored in the last 24 hours. */
  function TopListings(listings: seq<Listing>, now: int): seq<Listing> {
    Take(SortDesc(Alerts.RecentListings(listings, now), FlipKey()), TopSize)
  }

  method Top(db: Database, now: int) returns (rows: seq<Listing>)
    ensures rows == TopListings(db.listings, now)
  {
    var recent := Alerts.RecentListings(db.listings, now);
    rows := Take(SortDesc(recent, FlipKey()), TopSize);
  }

  /**
   * At most ten recent listings, best flip score first; a recent listing left
   * out scores no higher than any listing shown, and is left out only when ten
   * were shown.
   */
  lemma TopListingsSpec(listings: seq<Listing>, now: int)
    ensures var rows := TopListings(listings, now);
      |rows| <= TopSize && SortedDesc(rows, FlipKey())
      && (forall l :: l in rows ==> l in listings && l.createdAt >= now - Alerts.RecentWindow)
      && forall l :: l in listings && l.createdAt >= now - Alerts.RecentWindow && l !in rows ==>
           |rows| == TopSize && forall r :: r in rows ==> r.snap.flipScore >= l.snap.flipScore
  {
    var recent := Alerts.RecentListings(listings, now);
    var sorted := SortDesc(recent, FlipKey());
    var rows := Take(sorted, TopSize);
    TopOfSorted(recent, FlipKey(), TopSize);
    forall l | l in rows ensures l in listings && l.createdAt >= now - Alerts.RecentWindow {
      SortDescMembership(recent, FlipKey(), l);
      FilterMembership(listings, Alerts.RecentTest(now), l);
    }
    forall l | l in listings && l.createdAt >= now - Alerts.RecentWindow && l !in rows
      ensures |rows| == TopSize && forall r :: r in rows ==> r.snap.flipScore >= l.snap.flipScore
    {
      FilterMembership(listings, Alerts.RecentTest(now), l);
      TopLeftOut(recent, FlipKey(), TopSize, l);
    }
  }

  /**
   * The words of a watch's keyword are the words it was added with, so the
   * digest matches against exactly those words.
   */
  lemma WatchKeywordWords(args: seq<string>)
    requires forall k :: 0 <= k < |args| ==> IsToken(args[k])
    ensures SplitWhitespace(JoinSpace(args)) == args
  {
    SplitJoinRoundTrip(args);
  }

  // ------------------------------------------------ the module's one line

  /**
   * Python's line-continuation rule on one physical line: inside a `"…"`
   * literal a backslash escapes the next character, and outside any literal
   * a backslash must be the last character of the line. True when some
   * backslash outside a literal is followed by more text, which the tokenizer
   * rejects with "unexpected character after line continuation character".
   */
  function StrayContinuation(line: string, inLiteral: bool): (r: bool)
    ensures r ==> |line| >= 2
  {
    if line == [] then false
    else if line[0] == '"' then StrayContinuation(line[1..], !inLiteral)
    else if line[0] == '\\' && inLiteral then
      |line| > 1 && StrayContinuation(line[2..], true)
    else if line[0] == '\\' then |line| > 1
    else StrayContinuation(line[1..], inLiteral)
  }

  /** Once a stray continuation is seen, nothing later on the line undoes it. */
  lemma {:induction false} StrayExtends(line: string, more: string, inLiteral: bool)
    requires StrayContinuation(line, inLiteral)
    ensures StrayContinuation(line + more, inLiteral)
  {
    if line[0] == '"' {
      assert (line + more)[1..] == line[1..] + more;
      StrayExtends(line[1..], more, !inLiteral);
    } else if line[0] == '\\' && inLiteral {
      assert (line + more)[2..] == line[2..] + more;
      StrayExtends(line[2..], more, true);
    } else if line[0] != '\\' {
      assert (line + more)[1..] == line[1..] + more;
      StrayExtends(line[1..], more, inLiteral);
    }
  }

  /** No quote and no backslash in `s`. */
  predicate Plain(s: string)
    ensures Plain(s) ==> '"' !in s && '\\' !in s
  {
    s == [] || (s[0] != '"' && s[0] != '\\' && Plain(s[1..]))
  }

  /** Text without quotes or backslashes passes through the rule untouched. */
  lemma {:induction false} PlainSkipped(plain: string, more: string, inLiteral: bool)
    requires Plain(plain)
    ensures StrayContinuation(plain + more, inLiteral) == StrayContinuation(more, inLiteral)
  {
    if plain != [] {
      assert plain + more == [plain[0]] + (plain[1..] + more);
      PlainStep(plain[0], plain[1..] + more, inLiteral);
      PlainSkipped(plain[1..], more, inLiteral);
    } else {
      assert plain + more == more;
    }
  }

  /**
   * The physical line the handler file ends with opens with the `/start`
   * reply's closing argument: the indentation, an f-string whose words hold
   * no quote or backslash, and a comma.
   */
  function ClosingArgument(indent: string, words: string): string {
    indent + "f" + "\"" + words + "\"" + ","
  }

  /** One step of the rule: a quote opens or closes a literal. */
  lemma QuoteStep(more: string, inLiteral: bool)
    ensures StrayContinuation("\"" + more, inLiteral) == StrayContinuation(more, !inLiteral)
  {
    assert ("\"" + more)[1..] == more;
  }

  /** One step of the rule: a backslash outside a literal with text after it is stray. */
  lemma BackslashStep(more: string)
    requires more != []
    ensures StrayContinuation("\\" + more, false)
  {
  }

  /** One step of the rule: any other plain character is skipped. */
  lemma PlainStep(c: char, more: string, inLiteral: bool)
    requires c != '"' && c != '\\'
    ensures StrayContinuation([c] + more, inLiteral) == StrayContinuation(more, inLiteral)
  {
    assert ([c] + more)[1..] == more;
  }

  /** The closing argument followed by `more`, taken apart character class by character class. */
  lemma ClosingShape(indent: string, words: string, more: string)
    ensures ClosingArgument(indent, words) + more
      == indent + ("f" + ("\"" + (words + ("\"" + ("," + more)))))
  {
  }

  /**
   * As written, that argument is followed on the same line by the two
   * characters `\` `n` where a line break was meant, outside any literal, so
   * the line is rejected whatever follows: the file does not parse and none of
   * its handlers exists.
   */
  lemma LastLineRejected(indent: string, words: string, rest: string)
    requires Plain(indent) && Plain(words)
    ensures StrayContinuation(ClosingArgument(indent, words) + "\\n" + rest, false)
  {
    var tail := "\\n" + rest;
    assert tail == "\\" + ("n" + rest);
    BackslashStep("n" + rest);
    PlainStep(',', tail, false);
    QuoteStep("," + tail, true);
    PlainSkipped(words, "\"" + ("," + tail), true);
    QuoteStep(words + ("\"" + ("," + tail)), false);
    PlainStep('f', "\"" + (words + ("\"" + ("," + tail))), false);
    PlainSkipped(indent, "f" + ("\"" + (words + ("\"" + ("," + tail)))), false);
    ClosingShape(indent, words, tail);
    assert ClosingArgument(indent, words) + "\\n" + rest == ClosingArgument(indent, words) + tail;
  }

  /** Read as a line break, the same escape ends a physical line the rule accepts. */
  lemma LineBreakReadingAccepted(indent: string, words: string)
    requires Plain(indent) && Plain(words)
    ensures !StrayContinuation(ClosingArgument(indent, words), false)
  {
    assert !StrayContinuation(",", false);
    QuoteStep(",", true);
    PlainSkipped(words, "\"" + ",", true);
    QuoteStep(words + ("\"" + ","), false);
    PlainStep('f', "\"" + (words + ("\"" + ",")), false);
    PlainSkipped(indent, "f" + ("\"" + (words + ("\"" + ","))), false);
    var none: string := [];
    ClosingShape(indent, words, none);
    assert ClosingArgument(indent, words) + none == ClosingArgument(indent, words);
    assert "," + none == ",";
  }
}
