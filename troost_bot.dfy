/**
 * The Troostwijk catalogue bot: /troost lists the fixed top categories, a
 * category button lists its subcategories (or offers the two orderings when
 * it has none), a subcategory button offers the orderings, and an ordering
 * button fetches the page, stores its records and sends at most ten cards.
 * Every payload a button needs is kept in the user's "troo_" stash.
 */
module TroostBot {
  import opened Wrappers
  import opened Text
  import opened Keyboards
  import opened Seqs
  import opened PayloadStash
  import opened CatalogueBrowse
  import opened TroostwijkScraper
  import opened Schemas
  import opened Models
  import Ingest
  import Geo
  import Config

  const TopData := "troo:top:"
  const SubData := "troo:sub:"
  const ModeData := "troo:mode:"
  const ExpiredText := "Session expired. Send /troost again."

  /** Whose lots an ordering button fetches. */
  datatype Target =
    | WholeTop(topSlug: string, topUuid: string)
    | OneSub(topSlug: string, subSlug: string, uuid: string, name: string)

  /** The payloads the bot stashes; each key of the Python dicts is a field here. */
  datatype Payload =
    | TopPick(topSlug: string, topUuid: string, name: string)
    | SubPick(topSlug: string, subSlug: string, uuid: string, name: string)
    | ModePick(target: Target)

  function TopPayload(c: TopCategory): Payload { TopPick(c.slug, c.uuid, c.name) }

  function TopLabel(c: TopCategory): string { c.name }

  function SubPayload(sc: SubCategory): Payload { SubPick(sc.topSlug, sc.subSlug, sc.uuid, sc.name) }

  function SubLabel(sc: SubCategory): string { ButtonLabel(sc.name) }

  // ------------------------------------------------------------------ /troost

  /** The keyboard of /troost when the stash counter stands at `n`. */
  function EntryRows(n: nat): seq<seq<Button>> {
    Chunks(Buttons(Labels(TopCategories, TopLabel), TopData, n), 2)
  }

  /** `troost_entry`: one stashed button per top category, two per row. */
  method TroostEntry(st: Stash<Payload>) returns (reply: Reply)
    requires st.Valid()
    modifies st
    ensures st.Valid() && st.counter == old(st.counter) + |TopCategories|
    ensures st.payloads == StashedAll(old(st.payloads), old(st.counter), Payloads(TopCategories, TopPayload))
    ensures reply == Menu(EntryRows(old(st.counter)))
  {
    var tops := ListTopCategories();
    var rows := StashInRows(st, tops, TopPayload, TopLabel, TopData);
    reply := Menu(rows);
  }

  /**
   * The ten categories fill five rows of two, in table order, and button `i`
   * is labelled with category `i` and fetches back its payload.
   */
  lemma EntryRowsSpec(m: map<string, Payload>, n: nat, i: nat)
    requires m.Keys == IssuedKeys(n) && i < |TopCategories|
    ensures |EntryRows(n)| == 5 && forall k :: 0 <= k < 5 ==> |EntryRows(n)[k]| == 2
    ensures var b := Buttons(Labels(TopCategories, TopLabel), TopData, n)[i];
      var st := StashedAll(m, n, Payloads(TopCategories, TopPayload));
      && b.0 == TopCategories[i].name && StartsWith(b.1, TopData)
      && b.1[|TopData|..] in st && st[b.1[|TopData|..]] == TopPayload(TopCategories[i])
  {
    var all := Buttons(Labels(TopCategories, TopLabel), TopData, n);
    var rows := EntryRows(n);
    ChunksExact(all, 2, 5);
    ButtonFetchesItsPayload(m, n, TopCategories, TopPayload, TopLabel, TopData, i);
  }

  // -------------------------------------------------------- category button

  /** The subcategories `troost_pick_top` offers: none when the listing raised. */
  function SubsOf(links: Option<seq<SubLink>>, topSlug: string): seq<SubCategory> {
    if links.None? then [] else SubsPass(links.value, topSlug, [])
  }

  /**
   * `troost_pick_top`.  `linksOf` stands for fetching a category page and
   * selecting its links; `None` is a fetch that raised.
   */
  method TroostPickTop(st: Stash<Payload>, data: string,
                       linksOf: (string, string) -> Option<seq<SubLink>>)
    returns (reply: Reply)
    requires StartsWith(data, TopData) && st.Valid()
    modifies st
    ensures st.Valid()
    ensures var p := old(st.Fetch(data[|TopData|..]));
      && (p.None? ==> reply == Message(ExpiredText) && st.payloads == old(st.payloads) && st.counter == old(st.counter))
      && (p.Some? && !p.value.TopPick? ==>
            reply == Raised(KeyError) && st.payloads == old(st.payloads) && st.counter == old(st.counter))
      && (p.Some? && p.value.TopPick? ==>
            var subs := SubsOf(linksOf(p.value.topSlug, p.value.topUuid), p.value.topSlug);
            && (subs == [] ==>
                  var key := NatToString(old(st.counter) + 1);
                  && st.counter == old(st.counter) + 1
                  && st.payloads == old(st.payloads)[key := ModePick(WholeTop(p.value.topSlug, p.value.topUuid))]
                  && reply == Menu(ModeRow("troo:", key)))
            && (subs != [] ==>
                  && st.counter == old(st.counter) + |subs|
                  && st.payloads == StashedAll(old(st.payloads), old(st.counter), Payloads(subs, SubPayload))
                  && reply == Menu(Chunks(Buttons(Labels(subs, SubLabel), SubData, old(st.counter)), 2))))
  {
    var token := data[|TopData|..];
    var payload := st.Fetch(token);
    if payload.None? {
      return Message(ExpiredText);
    }
    if !payload.value.TopPick? {
      return Raised(KeyError);
    }
    var topSlug, topUuid := payload.value.topSlug, payload.value.topUuid;
    var links := linksOf(topSlug, topUuid);
    var subs: seq<SubCategory> := [];
    if links.Some? {
      subs := ListSubcategories(links.value, topSlug);
    }
    if subs == [] {
      var t2 := st.Put(ModePick(WholeTop(topSlug, topUuid)));
      return Menu(ModeRow("troo:", t2));
    }
    var labels := StashLabelled(st, subs, SubPayload, SubLabel, SubData);
    reply := Menu(Chunks(labels, 2));
  }

  /**
   * The subcategory keyboard: rows of two with a possible single last one,
   * every label the first 35 characters of its subcategory's name, and
   * button `i` fetching back subcategory `i`.
   */
  lemma SubRowsSpec(m: map<string, Payload>, n: nat, subs: seq<SubCategory>, i: nat)
    requires m.Keys == IssuedKeys(n) && i < |subs|
    ensures var rows := Chunks(Buttons(Labels(subs, SubLabel), SubData, n), 2);
      && Flatten(rows) == Buttons(Labels(subs, SubLabel), SubData, n)
      && (forall k :: 0 <= k < |rows| - 1 ==> |rows[k]| == 2)
      && (forall k :: 0 <= k < |rows| ==> 0 < |rows[k]| <= 2)
    ensures var b := Buttons(Labels(subs, SubLabel), SubData, n)[i];
      var st := StashedAll(m, n, Payloads(subs, SubPayload));
      && |b.0| <= 35 && |b.0| <= |subs[i].name| && b.0 == subs[i].name[..|b.0|]
      && b.1[|SubData|..] in st && st[b.1[|SubData|..]] == SubPayload(subs[i])
  {
    ButtonFetchesItsPayload(m, n, subs, SubPayload, SubLabel, SubData, i);
  }

  // ----------------------------------------------------- subcategory button

  /** `troost_pick_sub`: a subcategory payload is kept whole as the target of the ordering buttons. */
  method TroostPickSub(st: Stash<Payload>, data: string) returns (reply: Reply)
    requires StartsWith(data, SubData) && st.Valid()
    modifies st
    ensures st.Valid()
    ensures var p := old(st.Fetch(data[|SubData|..]));
      && (p.None? ==> reply == Message(ExpiredText) && st.payloads == old(st.payloads) && st.counter == old(st.counter))
      && (p.Some? && !p.value.SubPick? ==>
            reply == Raised(KeyError) && st.payloads == old(st.payloads) && st.counter == old(st.counter))
      && (p.Some? && p.value.SubPick? ==>
            var key := NatToString(old(st.counter) + 1);
            var q := p.value;
            && st.counter == old(st.counter) + 1
            && st.payloads == old(st.payloads)[key := ModePick(OneSub(q.topSlug, q.subSlug, q.uuid, q.name))]
            && reply == Menu(ModeRow("troo:", key)))
  {
    var payload := st.Fetch(data[|SubData|..]);
    if payload.None? {
      return Message(ExpiredText);
    }
    if !payload.value.SubPick? {
      return Raised(KeyError);
    }
    var q := payload.value;
    var t2 := st.Put(ModePick(OneSub(q.topSlug, q.subSlug, q.uuid, q.name)));
    reply := Menu(ModeRow("troo:", t2));
  }

  // --------------------------------------------------------- ordering button

  /** The page a target's lots are read from, and the category they are filed under. */
  function PageOf(t: Target): (string, string) {
    match t
    case WholeTop(slug, uuid) => (CategoryPageUrl(slug, uuid), slug)
    case OneSub(top, sub, uuid, _) => (SubcategoryPageUrl(top, sub, uuid), SubcategoryLabel(top, sub))
  }

  /** The records an ordering button fetches: at most ten, from the target's page. */
  function Fetched(t: Target, cardsAt: string -> seq<Card>): seq<RawListing> {
    CardsPass(cardsAt(PageOf(t).0), PageOf(t).1, MaxMedia, [])
  }

  /**
   * `troost_show_mode`.  `cardsAt` stands for fetching a page and selecting
   * its cards.  The records are upserted and normalized against the base
   * location, and the cards sent are those of the chosen ordering.
   */
  method TroostShowMode(db: Database, st: Stash<Payload>, data: string,
                        cardsAt: string -> seq<Card>, gc: Geo.GreatCircle, now: int)
    returns (reply: Reply)
    requires StartsWith(data, ModeData) && db.Valid()
    modifies db
    ensures db.Valid()
    ensures var args := ModeArgs(data[|ModeData|..]);
      && (args.Err? ==> reply == Raised(ValueError))
      && (args.Ok? && st.Fetch(args.value.0).None? ==> reply == Message(ExpiredText))
      && (args.Ok? && st.Fetch(args.value.0).Some? && !st.Fetch(args.value.0).value.ModePick? ==>
            reply == Raised(KeyError))
      && (args.Ok? && st.Fetch(args.value.0).Some? && st.Fetch(args.value.0).value.ModePick? ==>
            var snaps := Ingest.Snapshots(Fetched(st.Fetch(args.value.0).value.target, cardsAt),
                                          Config.BaseLat, Config.BaseLon, gc);
            && db.listings == Ingest.UpsertAll(old(db.listings), snaps, now)
            && reply == Lots(Shown(snaps, args.value.1)))
    ensures !(ModeArgs(data[|ModeData|..]).Ok? && st.Fetch(ModeArgs(data[|ModeData|..]).value.0).Some?
              && st.Fetch(ModeArgs(data[|ModeData|..]).value.0).value.ModePick?) ==>
      db.listings == old(db.listings)
    ensures db.users == old(db.users) && db.watches == old(db.watches)
    ensures db.seen == old(db.seen)
  {
    var args := ModeArgs(data[|ModeData|..]);
    if args.Err? {
      return Raised(ValueError);
    }
    var (token, mode) := args.value;
    var container := st.Fetch(token);
    if container.None? {
      return Message(ExpiredText);
    }
    if !container.value.ModePick? {
      return Raised(KeyError);
    }
    var target := container.value.target;
    var page := PageOf(target);
    var raws := ParseLotsFromPage(cardsAt(page.0), page.1, MaxMedia);
    var _ := Ingest.UpsertListings(db, raws, Config.BaseLat, Config.BaseLon, gc, now);
    var snaps := Ingest.Snapshots(raws, Config.BaseLat, Config.BaseLon, gc);
    reply := Lots(Shown(snaps, mode));
  }

  /**
   * An ordering button fetches at most ten records, the first ones of its
   * page, and every card sent is the snapshot of one of them.
   */
  lemma ShowModeCards(t: Target, cardsAt: string -> seq<Card>, gc: Geo.GreatCircle, mode: string)
    ensures var raws := Fetched(t, cardsAt);
      && |raws| <= MaxMedia
      && raws == SliceTo(Records(cardsAt(PageOf(t).0), PageOf(t).1), MaxMedia)
    ensures var snaps := Ingest.Snapshots(Fetched(t, cardsAt), Config.BaseLat, Config.BaseLon, gc);
      && |Shown(snaps, mode)| == |snaps|
      && forall s :: s in Shown(snaps, mode) ==> s.raw in Fetched(t, cardsAt)
  {
    ParseLotsFromPageSpec(cardsAt(PageOf(t).0), PageOf(t).1, MaxMedia);
    ShownOfRecords(Fetched(t, cardsAt), gc, mode);
  }

  /** Of at most ten records, every one is shown, and each card is one record's snapshot. */
  lemma ShownOfRecords(raws: seq<RawListing>, gc: Geo.GreatCircle, mode: string)
    requires |raws| <= MaxMedia
    ensures var snaps := Ingest.Snapshots(raws, Config.BaseLat, Config.BaseLon, gc);
      && |Shown(snaps, mode)| == |snaps|
      && forall s :: s in Shown(snaps, mode) ==> s.raw in raws
  {
    ShownSpec(Ingest.Snapshots(raws, Config.BaseLat, Config.BaseLon, gc), mode);
    SnapshotsOfRecords(raws, gc);
  }

  /** Every snapshot of a batch is the snapshot of one of its records. */
  lemma SnapshotsOfRecords(raws: seq<RawListing>, gc: Geo.GreatCircle)
    ensures forall s :: s in Ingest.Snapshots(raws, Config.BaseLat, Config.BaseLon, gc) ==> s.raw in raws
  {
    var snaps := Ingest.Snapshots(raws, Config.BaseLat, Config.BaseLon, gc);
    forall s | s in snaps ensures s.raw in raws {
      var i :| 0 <= i < |snaps| && snaps[i] == s;
      assert raws[i] == s.raw;
    }
  }
}
