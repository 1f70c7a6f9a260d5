/**
 * The Vavato catalogue bot.  Its flow mirrors the Troostwijk bot's, with
 * payloads carrying page URLs and a separate "vvt_" stash.  Three calls in
 * the handlers do not match the scraper they call, so each handler is given
 * twice: as written (it stops at that call) and as evidently intended.
 */
module VavatoBot {
  import opened Wrappers
  import opened Text
  import opened Keyboards
  import opened Seqs
  import opened PayloadStash
  import opened CatalogueBrowse
  import opened Schemas
  import opened Models
  import VavatoScraper
  import Ingest
  import Geo
  import Config

  const TopData := "vvt:top:"
  const SubData := "vvt:sub:"
  const ModeData := "vvt:mode:"
  const ExpiredText := "Session expired. Send /vavato again."
  const NoCategoriesText := "Could not discover categories right now. Try again shortly."

  /** A top category as the scraper's discovery returns it: no URL field. */
  datatype VTop = VTop(name: string, slug: string, uuid: string)

  /** A subcategory as the scraper's discovery returns it. */
  datatype VSub = VSub(name: string, topSlug: string, subSlug: string, uuid: string, url: string)

  /** The payloads the bot stashes. */
  datatype Payload =
    | TopPick(topName: string, topUrl: string)
    | SubPick(subName: string, subUrl: string)
    | ModePick(url: string, name: string)

  /** The page of a top category, as the scraper builds it. */
  function TopPageUrl(c: VTop): string {
    VavatoScraper.BaseUrl + "/en/c/" + c.slug + "/" + c.uuid
  }

  function TopPayload(c: VTop): Payload { TopPick(c.name, TopPageUrl(c)) }

  function TopLabel(c: VTop): string { c.name }

  function SubPayload(sc: VSub): Payload { SubPick(sc.name, sc.url) }

  function SubLabel(sc: VSub): string { ButtonLabel(sc.name) }

  // ------------------------------------------------------------------ /vavato

  /**
   * `vavato_entry` as written: the payload of the first category reads
   * `cat.url`, which a discovered category does not have, so only an empty
   * discovery gets a reply, and nothing is ever stashed.
   */
  function EntryAsWritten(tops: seq<VTop>): (r: Reply)
    ensures tops == [] <==> r == Message(NoCategoriesText)
    ensures tops != [] <==> r == Raised(AttributeError)
    ensures !r.Menu?
  {
    if tops == [] then Message(NoCategoriesText) else Raised(AttributeError)
  }

  /**
   * `vavato_entry` with each category's page URL stashed: an empty discovery
   * replies with an error and stashes nothing; otherwise one button per
   * category, two per row.
   */
  method VavatoEntry(st: Stash<Payload>, tops: seq<VTop>) returns (reply: Reply)
    requires st.Valid()
    modifies st
    ensures st.Valid()
    ensures tops == [] ==>
      reply == Message(NoCategoriesText) && st.payloads == old(st.payloads) && st.counter == old(st.counter)
    ensures tops != [] ==>
      && st.counter == old(st.counter) + |tops|
      && st.payloads == StashedAll(old(st.payloads), old(st.counter), Payloads(tops, TopPayload))
      && reply == Menu(Chunks(Buttons(Labels(tops, TopLabel), TopData, old(st.counter)), 2))
  {
    if tops == [] {
      return Message(NoCategoriesText);
    }
    var rows := StashInRows(st, tops, TopPayload, TopLabel, TopData);
    reply := Menu(rows);
  }

  /**
   * The category keyboard: rows of two with a possible single last one, and
   * button `i` labelled with category `i` and fetching back its page.
   */
  lemma EntryRowsSpec(m: map<string, Payload>, n: nat, tops: seq<VTop>, i: nat)
    requires m.Keys == IssuedKeys(n) && i < |tops|
    ensures var rows := Chunks(Buttons(Labels(tops, TopLabel), TopData, n), 2);
      && Flatten(rows) == Buttons(Labels(tops, TopLabel), TopData, n)
      && (forall k :: 0 <= k < |rows| - 1 ==> |rows[k]| == 2)
      && (forall k :: 0 <= k < |rows| ==> 0 < |rows[k]| <= 2)
    ensures var b := Buttons(Labels(tops, TopLabel), TopData, n)[i];
      var st := StashedAll(m, n, Payloads(tops, TopPayload));
      && b.0 == tops[i].name && StartsWith(b.1, TopData)
      && b.1[|TopData|..] in st && st[b.1[|TopData|..]] == TopPick(tops[i].name, TopPageUrl(tops[i]))
  {
    ButtonFetchesItsPayload(m, n, tops, TopPayload, TopLabel, TopData, i);
  }

  // -------------------------------------------------------- category button

  /**
   * `vavato_pick_top` as written, on the fetched payload: the subcategory
   * listing is called with the URL alone where it takes a slug and a uuid,
   * so a category payload always ends in a `TypeError`.
   */
  function PickTopAsWritten(p: Option<Payload>): (r: Reply)
    ensures p.None? <==> r == Message(ExpiredText)
    ensures p.Some? && p.value.TopPick? <==> r == Raised(TypeError)
    ensures p.Some? && !p.value.TopPick? <==> r == Raised(KeyError)
  {
    if p.None? then Message(ExpiredText)
    else if !p.value.TopPick? then Raised(KeyError)
    else Raised(TypeError)
  }

  /**
   * `vavato_pick_top` with the listing taken by URL, as the handler calls
   * it.  `subsAt` stands for fetching the page and discovering its
   * subcategories.
   */
  method VavatoPickTop(st: Stash<Payload>, data: string, subsAt: string -> seq<VSub>)
    returns (reply: Reply)
    requires StartsWith(data, TopData) && st.Valid()
    modifies st
    ensures st.Valid()
    ensures var p := old(st.Fetch(data[|TopData|..]));
      && (p.None? ==> reply == Message(ExpiredText) && st.payloads == old(st.payloads) && st.counter == old(st.counter))
      && (p.Some? && !p.value.TopPick? ==>
            reply == Raised(KeyError) && st.payloads == old(st.payloads) && st.counter == old(st.counter))
      && (p.Some? && p.value.TopPick? ==>
            var subs := subsAt(p.value.topUrl);
            && (subs == [] ==>
                  var key := NatToString(old(st.counter) + 1);
                  && st.counter == old(st.counter) + 1
                  && st.payloads == old(st.payloads)[key := ModePick(p.value.topUrl, p.value.topName)]
                  && reply == Menu(ModeRow("vvt:", key)))
            && (subs != [] ==>
                  && st.counter == old(st.counter) + |subs|
                  && st.payloads == StashedAll(old(st.payloads), old(st.counter), Payloads(subs, SubPayload))
                  && reply == Menu(Chunks(Buttons(Labels(subs, SubLabel), SubData, old(st.counter)), 2))))
  {
    var payload := st.Fetch(data[|TopData|..]);
    if payload.None? {
      return Message(ExpiredText);
    }
    if !payload.value.TopPick? {
      return Raised(KeyError);
    }
    var subs := subsAt(payload.value.topUrl);
    if subs == [] {
      var t2 := st.Put(ModePick(payload.value.topUrl, payload.value.topName));
      return Menu(ModeRow("vvt:", t2));
    }
    var labels := StashLabelled(st, subs, SubPayload, SubLabel, SubData);
    reply := Menu(Chunks(labels, 2));
  }

  /**
   * The subcategory keyboard: every label the first 35 characters of its
   * subcategory's name, rows of two, and button `i` fetching back the name
   * and page of subcategory `i`.
   */
  lemma SubRowsSpec(m: map<string, Payload>, n: nat, subs: seq<VSub>, i: nat)
    requires m.Keys == IssuedKeys(n) && i < |subs|
    ensures var rows := Chunks(Buttons(Labels(subs, SubLabel), SubData, n), 2);
      && Flatten(rows) == Buttons(Labels(subs, SubLabel), SubData, n)
      && (forall k :: 0 <= k < |rows| - 1 ==> |rows[k]| == 2)
      && (forall k :: 0 <= k < |rows| ==> 0 < |rows[k]| <= 2)
    ensures var b := Buttons(Labels(subs, SubLabel), SubData, n)[i];
      var st := StashedAll(m, n, Payloads(subs, SubPayload));
      && |b.0| <= 35 && |b.0| <= |subs[i].name| && b.0 == subs[i].name[..|b.0|]
      && b.1[|SubData|..] in st && st[b.1[|SubData|..]] == SubPick(subs[i].name, subs[i].url)
  {
    ButtonFetchesItsPayload(m, n, subs, SubPayload, SubLabel, SubData, i);
  }

  // ----------------------------------------------------- subcategory button

  /** `vavato_pick_sub`: the subcategory's page and name become the target of the ordering buttons. */
  method VavatoPickSub(st: Stash<Payload>, data: string) returns (reply: Reply)
    requires StartsWith(data, SubData) && st.Valid()
    modifies st
    ensures st.Valid()
    ensures var p := old(st.Fetch(data[|SubData|..]));
      && (p.None? ==> reply == Message(ExpiredText) && st.payloads == old(st.payloads) && st.counter == old(st.counter))
      && (p.Some? && !p.value.SubPick? ==>
            reply == Raised(KeyError) && st.payloads == old(st.payloads) && st.counter == old(st.counter))
      && (p.Some? && p.value.SubPick? ==>
            var key := NatToString(old(st.counter) + 1);
            && st.counter == old(st.counter) + 1
            && st.payloads == old(st.payloads)[key := ModePick(p.value.subUrl, p.value.subName)]
            && reply == Menu(ModeRow("vvt:", key)))
  {
    var payload := st.Fetch(data[|SubData|..]);
    if payload.None? {
      return Message(ExpiredText);
    }
    if !payload.value.SubPick? {
      return Raised(KeyError);
    }
    var t2 := st.Put(ModePick(payload.value.subUrl, payload.value.subName));
    reply := Menu(ModeRow("vvt:", t2));
  }

  // --------------------------------------------------------- ordering button

  /**
   * `vavato_show_mode` as written, on the callback data after "vvt:mode:"
   * and the stash: the scraper has no `fetch_lots_from_url`, so every
   * ordering button that finds its payload ends in an `AttributeError`
   * before anything is stored.
   */
  function ShowModeAsWritten(rest: string, st: Stash<Payload>): (r: Reply)
    reads st
    ensures ':' !in rest <==> r == Raised(ValueError)
    ensures ModeArgs(rest).Ok? ==>
      (st.Fetch(ModeArgs(rest).value.0).None? <==> r == Message(ExpiredText))
    ensures ModeArgs(rest).Ok? && st.Fetch(ModeArgs(rest).value.0).Some? ==>
      (st.Fetch(ModeArgs(rest).value.0).value.ModePick? <==> r == Raised(AttributeError))
    ensures !r.Lots?
  {
    match ModeArgs(rest)
    case Err(e) => Raised(e)
    case Ok((token, _)) =>
      var container := st.Fetch(token);
      if container.None? then Message(ExpiredText)
      else if !container.value.ModePick? then Raised(KeyError)
      else Raised(AttributeError)
  }

  /**
   * `vavato_show_mode` with the lots of the payload's page.  `lotsAt` stands
   * for fetching a page and reading at most `MaxMedia` records from it.
   */
  method VavatoShowMode(db: Database, st: Stash<Payload>, data: string,
                        lotsAt: string -> seq<RawListing>, gc: Geo.GreatCircle, now: int)
    returns (reply: Reply)
    requires StartsWith(data, ModeData) && db.Valid()
    modifies db
    ensures db.Valid()
    ensures var args := ModeArgs(data[|ModeData|..]);
      && (args.Err? ==> reply == Raised(ValueError))
      && (args.Ok? && st.Fetch(args.value.0).None? ==> reply == Message(ExpiredText))
      && (args.Ok? && st.Fetch(args.value.0).Some? && !st.Fetch(args.value.0).value.ModePick? ==>
            reply == Raised(KeyError))
      && (args.Ok? && st.Fetch(args.value.0).Some? && st.Fetch(args.value.0).value.ModePick? ==>
            var snaps := Ingest.Snapshots(lotsAt(st.Fetch(args.value.0).value.url),
                                          Config.BaseLat, Config.BaseLon, gc);
            && db.listings == Ingest.UpsertAll(old(db.listings), snaps, now)
            && reply == Lots(Shown(snaps, args.value.1)))
    ensures !(ModeArgs(data[|ModeData|..]).Ok? && st.Fetch(ModeArgs(data[|ModeData|..]).value.0).Some?
              && st.Fetch(ModeArgs(data[|ModeData|..]).value.0).value.ModePick?) ==>
      db.listings == old(db.listings)
    ensures db.users == old(db.users) && db.watches == old(db.watches)
    ensures db.seen == old(db.seen)
  {
    var args := ModeArgs(data[|ModeData|..]);
    if args.Err? {
      return Raised(ValueError);
    }
    var (token, mode) := args.value;
    var container := st.Fetch(token);
    if container.None? {
      return Message(ExpiredText);
    }
    if !container.value.ModePick? {
      return Raised(KeyError);
    }
    var raws := lotsAt(container.value.url);
    var _ := Ingest.UpsertListings(db, raws, Config.BaseLat, Config.BaseLon, gc, now);
    var snaps := Ingest.Snapshots(raws, Config.BaseLat, Config.BaseLon, gc);
    reply := Lots(Shown(snaps, mode));
  }

  /**
   * However many records the page yields, at most ten cards are sent, each
   * the snapshot of a fetched record, highest flip score first in mode "T".
   */
  lemma ShowModeCards(raws: seq<RawListing>, gc: Geo.GreatCircle, mode: string)
    ensures var shown := Shown(Ingest.Snapshots(raws, Config.BaseLat, Config.BaseLon, gc), mode);
      && |shown| <= MaxMedia
      && (forall s :: s in shown ==> s.raw in raws)
      && (mode == "T" ==> Ranking.SortedDesc(shown, FlipKey))
  {
    var snaps := Ingest.Snapshots(raws, Config.BaseLat, Config.BaseLon, gc);
    ShownSpec(snaps, mode);
    forall s | s in Shown(snaps, mode) ensures s.raw in raws {
      var i :| 0 <= i < |snaps| && snaps[i] == s;
      assert raws[i] == s.raw;
    }
  }
}
