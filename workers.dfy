/**
 * The scrape cycle: ask every source for the fixed keyword list, keep what
 * each successful source returned (a source that raises is skipped), and
 * upsert the whole batch once against the configured base.
 */
module Workers {
  import opened Schemas
  import opened Models
  import Config
  import Geo
  import Ingest

  datatype Source = Troostwijk | Vavato

  /** What one `search` call did: returned records, or raised. */
  datatype SearchOutcome = Found(items: seq<RawListing>) | Raised

  const Keywords: seq<string> := ["sneaker", "shoes", "nike", "adidas"]
  const Scrapers: seq<Source> := [Troostwijk, Vavato]

  /** The search both sources inherit: it always raises. */
  function InheritedSearch(src: Source, keywords: seq<string>): (o: SearchOutcome)
    ensures o.Raised?
  {
    Raised
  }

  function ItemsOf(o: SearchOutcome): seq<RawListing> {
    if o.Found? then o.items else []
  }

  /** The batch: the successful sources' records, concatenated in source order. */
  function Collected(sources: seq<Source>, search: (Source, seq<string>) -> SearchOutcome)
    : seq<RawListing>
  {
    if sources == [] then []
    else Collected(sources[..|sources| - 1], search)
         + ItemsOf(search(sources[|sources| - 1], Keywords))
  }

  /** Collecting over two runs of sources is collecting over each. */
  lemma {:induction false} CollectedAppend(a: seq<Source>, b: seq<Source>,
                                           search: (Source, seq<string>) -> SearchOutcome)
    ensures Collected(a + b, search) == Collected(a, search) + Collected(b, search)
    decreases |b|
  {
    if b == [] {
      assert a + b == a;
    } else {
      var init := b[..|b| - 1];
      assert (a + b)[..|a + b| - 1] == a + init;
      assert (a + b)[|a + b| - 1] == b[|b| - 1];
      CollectedAppend(a, init, search);
    }
  }

  /** A source that raises contributes nothing and does not stop the sources after it. */
  lemma FailingSourceIsolated(before: seq<Source>, src: Source, after: seq<Source>,
                              search: (Source, seq<string>) -> SearchOutcome)
    requires search(src, Keywords).Raised?
    ensures Collected(before + [src] + after, search)
         == Collected(before, search) + Collected(after, search)
  {
    var pre := before + [src];
    assert pre[..|pre| - 1] == before;
    assert Collected(pre, search) == Collected(before, search);
    CollectedAppend(pre, after, search);
  }

  /** As wired, both sources raise, so a cycle ingests nothing and the store is unchanged. */
  lemma AsWiredIngestsNothing(rows: seq<Listing>, now: int, gc: Geo.GreatCircle)
    ensures Collected(Scrapers, InheritedSearch) == []
    ensures Ingest.UpsertAll(rows, Ingest.Snapshots([], Config.BaseLat, Config.BaseLon, gc), now) == rows
  {
    assert Scrapers[..1] == [Troostwijk];
    assert [Troostwijk][..0] == [];
  }

  /** One scrape cycle; `search` stands for each source's network search. */
  method RunScrapeCycle(db: Database, search: (Source, seq<string>) -> SearchOutcome,
                        gc: Geo.GreatCircle, now: int)
    requires db.Valid()
    modifies db
    ensures db.Valid()
    ensures db.listings == Ingest.UpsertAll(old(db.listings),
             Ingest.Snapshots(Collected(Scrapers, search), Config.BaseLat, Config.BaseLon, gc), now)
    ensures db.users == old(db.users) && db.watches == old(db.watches) && db.seen == old(db.seen)
  {
    var allRaw: seq<RawListing> := [];
    var i := 0;
    while i < |Scrapers|
      invariant 0 <= i <= |Scrapers|
      invariant allRaw == Collected(Scrapers[..i], search)
    {
      assert Scrapers[..i + 1][..i] == Scrapers[..i];
      var outcome := search(Scrapers[i], Keywords);
      if outcome.Found? {
        allRaw := allRaw + outcome.items;
      }
      i := i + 1;
    }
    assert Scrapers[..i] == Scrapers;
    var _ := Ingest.UpsertListings(db, allRaw, Config.BaseLat, Config.BaseLon, gc, now);
  }
}
