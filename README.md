# EU Liquidation Radar — a verified model of its core

EU Liquidation Radar scrapes two auction sites, Troostwijk and Vavato, for lots.
It prices each lot for resale and stores the lots in a listings table. A
Telegram bot then alerts its users. This project models the parts of that
system that carry logic, in Dafny, and proves what they promise:

- **Economics.** A scraped `RawListing` becomes a priced snapshot:
  - per-unit and per-kg prices;
  - fees of 12 %;
  - shipping of 25 € plus 1.8 €/kg (10 kg when the weight is unknown);
  - a margin from a resale multiplier (1.35 for "sneaker", else 1.2);
  - a distance-penalised flip score that is never negative;
  - a recency-boosted rank score.

  Amounts are `real`s.
- **Listing store.** The store is a class `Models.Database` that holds the tables:
  - listings, with unique `(source, external_id)` and ids that are positions plus one;
  - users, watches and the per-user seen marks.

  `Ingest.UpsertListings` upserts a batch. An existing row takes the newest
  snapshot and keeps its creation time; a new key is appended. It returns the
  batch size. Upserting the same batch twice changes nothing more.
- **Hourly digest.** For each user with watches, the digest takes the listings
  stored in the last 24 hours and keeps those that pass all three gates: the
  radius, the five-word footwear gate and a watch match. It then:
  - dedupes by id;
  - ranks by a stable descending sort and cuts to ten;
  - drops what the user was already sent;
  - records the rest as seen.

  Dispatch is an abstract step before the commit.
- **Bot commands.** They are modelled as the handler file evidently means them. As written, that file does not parse: its last line spells its line breaks as `\n` outside any literal (see "## Findings").
  - `/start` registers a user only if absent.
  - `/watch` adds one watch.
  - `/unwatch` deletes only the caller's watch.
  - `/near` accepts 10..3000 km.
  - `/top` returns the ten best flip scores of the last day.
- **Scrape cycle.** Each source's `search` may fail. Failing sources contribute
  nothing. As wired, both scrapers inherit a `search` that raises.
- **Catalogue bots.** The Troostwijk and Vavato bots hand out counter-keyed
  payload stashes ("1", "2", …). Their buttons are laid out two per row, with
  subcategory labels cut to 35 characters. The "Latest 10" / "Top 10" choice
  sorts by flip score for "T" and shows at most ten cards.
- **Scraper helpers.** These are modelled over abstract inputs (card records
  and a JSON datatype) in place of HTML and regular expressions:
  - price parsing;
  - the Troostwijk external-id rules and subcategory dedupe;
  - the Vavato JSON walk, `_deep_get`, embedded-JSON extraction with id dedupe;
  - the card/JSON merge under a limit.
- **Link joining.** `urljoin` of a link against the scraper's site root, as in
  Python 3.12: `urlsplit` and `urlparse` take the link apart, "." and ".."
  segments are resolved, an empty query or fragment is dropped, and a link
  on another scheme or with its own host is kept.
- **Small helpers.** `to_async_url` and `chunk`.

Time is whole seconds and "now" is a parameter. The great-circle distance is a
function parameter. It yields nothing exactly when a listing coordinate is
missing. Network fetches are parameters: functions from a URL to the records
a page yields.

## Model

| member | source | states |
|---|---|---|
| Normalizer.PricePerUnit | app/normalizer.py:9 | present exactly when the unit count is positive, and then it times the count gives the price |
| Normalizer.PricePerKg | app/normalizer.py:10 | present exactly when the weight is positive, and then it times the weight gives the price |
| Normalizer.ResaleMultiplier | app/normalizer.py:16 | 1.35 exactly when the lowercased category or title contains "sneaker", otherwise 1.2 |
| Normalizer.MarginPct | app/normalizer.py:20 | 0 when the total cost is not positive, otherwise the margin divided by the total cost |
| Normalizer.DistancePenalty | app/normalizer.py:21-28 | 1.0 for no distance or up to 400 km, 0.85 on (400, 800], 0.75 on (800, 1500], 0.6 beyond; always within [0.6, 1] |
| Normalizer.FlipScore | app/normalizer.py:30 | never negative; positive exactly when the base score is, and then the base score times the distance penalty |
| Normalizer.NormalizeAndSnapshot | app/normalizer.py:7-56 | the snapshot keeps the listing key, has a non-negative flip score, and has no distance exactly when a coordinate is missing |
| Normalizer.SnapshotCopiesRecord | app/normalizer.py:32-55 | the snapshot copies key, url, category, location, coordinates, photo, currency, units, weight and posting time, sets price_eur to the price, strips the title, records fee 0.12 and the raw record |
| Normalizer.PenaltyNonIncreasing | app/normalizer.py:21-28 | a larger distance never gets a larger penalty factor |
| Normalizer.FartherNeverScoresHigher | app/normalizer.py:21-30 | of two snapshots of one record differing only in distance, the farther never has the higher flip score |
| Normalizer.MarginFormula | app/normalizer.py:12-18 | margin = price · multiplier − (price + 0.12 · price + shipping) |
| Normalizer.WorkedExample | app/normalizer.py:12-18 | price 500, weight 20 and "sneaker" in the title give fees 60, shipping 61 and margin 54 |
| Normalizer.PositiveFlipIffPositiveMargin | app/normalizer.py:14-30 | for a non-negative price the flip score is positive exactly when the margin is |
| Logistics.EstimateShippingEur | app/utils/logistics.py:4-6 | shipping always exceeds the fixed 25 € |
| Logistics.ApplyFees | app/utils/logistics.py:8-9 | for a non-negative price the fees lie between 0 and the price |
| Logistics.ShippingWithoutWeight | app/utils/logistics.py:5-6 | a missing or non-positive weight gives 25 + 1.8 · 10 = 43 |
| Logistics.ShippingWithWeight | app/utils/logistics.py:5-6 | a positive weight w gives 25 + 1.8 · w |
| Logistics.ShippingMonotone | app/utils/logistics.py:6 | shipping does not decrease with a larger positive weight |
| Logistics.FeesLinear | app/utils/logistics.py:9 | fees are 0.12 · price, additive and homogeneous in the price |
| Scoring.BoostForAge | app/scoring.py:8-14 | within [1, 1.15]; 1.15 exactly below 6 hours; 1.0 exactly from 72 hours |
| Scoring.RecencyBoost | app/scoring.py:4-14 | within [1, 1.15]; 1.0 when there is no creation time |
| Scoring.FinalRankScore | app/scoring.py:16-18 | 0 for a missing flip score; for a non-negative flip score f, between f and 1.15 · f |
| Scoring.BoostBands | app/scoring.py:8-14 | 1.15 below 6 h, 1.08 on [6, 24), 1.02 on [24, 72), 1.0 from 72 h |
| Scoring.BoostNonIncreasing | app/scoring.py:8-14 | an older age never gets a larger boost |
| Scoring.RecencyBoostOlderNotHigher | app/scoring.py:4-14 | a listing created earlier never gets a larger boost at the same moment |
| Geo.HaversineKm | app/utils/geo.py:5-7 | no distance exactly when a listing coordinate is missing; otherwise the great-circle value |
| Schemas.ScrapedRaw | app/schemas.py:6-20 | a scraped record carries the given key, url, title and price, currency "EUR", and no coordinates, unit count or weight |
| Models.NewUser | app/models.py:43-52 | a new user has radius 500, base Marseille (43.2965, 5.3698), is not premium, and is stamped now |
| Models.NewWatch | app/models.py:56-67 | a new watch has the given owner and keyword and every override unset |
| Models.WatchesOf | app/services/alerts.py:39 | exactly the watches owned by the user, in table order; empty exactly when the user owns none |
| Models.Database.constructor | app/models.py:8-76 | an empty store satisfies the table invariants |
| Models.Database.DeleteUser | app/models.py:54-59 | the user and exactly its watches are removed; listings and seen marks stay |
| Ingest.FindKey | app/services/ingest.py:14-16 | the position of the row with the key, and none exactly when no row has it |
| Ingest.LastFor | app/services/ingest.py:12-19 | the last snapshot of the batch with the key, and none exactly when the batch lacks the key |
| Ingest.Snapshots | app/services/ingest.py:13 | one snapshot per raw record, in order, with that record's key |
| Ingest.LastForSnoc | app/services/ingest.py:17-19 | a later snapshot for a key replaces the earlier one |
| Ingest.UpsertStepExisting | app/services/ingest.py:17-20 | overwriting the stored row of the key with the new snapshot, keeping id and creation time, keeps the upsert relation |
| Ingest.UpsertStepNew | app/services/ingest.py:21-23 | appending a row stamped now for an absent key keeps the upsert relation |
| Ingest.UpsertAllSpec | app/services/ingest.py:9-25 | after the batch, old rows keep id, key and creation time and carry the last snapshot for their key; new rows are stamped now; every batch key is stored once |
| Ingest.UpsertAllIdempotent | app/services/ingest.py:14-23 | upserting the same batch again, at any later time, leaves the table unchanged |
| Ingest.UpsertAllKeys | app/services/ingest.py:14-23 | a key is stored afterwards exactly when it was stored before or occurs in the batch |
| Ingest.UpsertListings | app/services/ingest.py:9-25 | returns the batch size; the table becomes the upsert of the batch's snapshots; the other tables are unchanged |
| Alerts.EffectiveRadius | app/services/alerts.py:45 | the user's radius, or 500 when it is unset |
| Alerts.AnyWordInMeans | app/services/alerts.py:47-50 | the word check holds exactly when some word occurs in the text |
| Alerts.DedupeById | app/services/alerts.py:54 | keeps only candidates, with distinct ids, and keeps every id |
| Alerts.TopCandidatesMembers | app/services/alerts.py:43-55 | everything ranked is a recent candidate that passed all gates |
| Alerts.DigestMembers | app/services/alerts.py:35-60 | everything sent to a user is recent, within radius, passes the footwear gate, matches one of that user's watches, and was not sent before |
| Alerts.DigestOrderedAndBounded | app/services/alerts.py:55-60 | at most ten listings, in non-increasing rank-score order |
| Alerts.NoWatchesNoDigest | app/services/alerts.py:39-41 | a user without watches is sent nothing |
| Alerts.CandidateIffSomeWatchMatches | app/services/alerts.py:49-52 | a recent listing passing both gates is a candidate exactly when some watch word occurs in its lowercased title |
| Alerts.SeenListingsStillTakeSlots | app/services/alerts.py:55-60 | an unseen candidate is left out only when ten candidates ranked at least as high took the slots, seen or not |
| Alerts.DigestDependsOnOwnSeen | app/services/alerts.py:59 | a user's digest depends only on that user's own seen marks |
| Alerts.DedupeDistinct | app/services/alerts.py:54 | with distinct ids, deduplication changes nothing |
| Alerts.AnyWatchMatches | app/services/alerts.py:49-52 | the watch loop finds a match exactly when some watch matches the title |
| Alerts.CollectCandidates | app/services/alerts.py:43-52 | the candidate loop yields exactly the filtered candidates, in listing order |
| Alerts.PickUser | app/services/alerts.py:38 | the next user is one not yet visited |
| Alerts.DigestForUser | app/services/alerts.py:39-85 | the batch is the user's digest; the seen marks grow by one per listing sent |
| Alerts.MarkSeen | app/services/alerts.py:83-84 | the seen marks grow by exactly one mark per listing |
| Alerts.SendHourlyDigest | app/services/alerts.py:32-85 | every user gets their digest computed against the old seen marks; afterwards the seen marks are the old ones plus exactly what was sent, and none of the new marks was already there; other tables are unchanged |
| Alerts.DeliveredFresh | app/services/alerts.py:59-60 | nothing a digest round sends was already marked as seen for that user |
| Alerts.NeverSentTwice | app/services/alerts.py:59-62 | once a listing has been sent to a user and marked, a later digest for that user never holds it again |
| Handlers.Start | app/bot/handlers.py:20-26 | creates a user with the configured base only when none with that id exists; otherwise nothing changes |
| Handlers.AddWatch | app/bot/handlers.py:29 | no arguments add nothing; otherwise exactly one watch whose keyword is the arguments joined by single spaces and whose id is the largest stored watch id plus one |
| Handlers.NewestIdReused | app/bot/handlers.py:29 | after the watch with the largest id is removed, the id the next new watch gets is no larger than the removed one, so ids are reused |
| Models.MaxWatchId | app/models.py:58 | the largest stored watch id, 0 for an empty table, held by some watch otherwise |
| Handlers.RemoveWatch | app/bot/handlers.py:29 | removes exactly the watches with that id owned by the caller |
| Handlers.Unwatch | app/bot/handlers.py:29 | no arguments list the caller's watches; a non-integer id deletes nothing; an integer id deletes only the caller's watch with it |
| Handlers.ParseRadius | app/bot/handlers.py:29 | accepts exactly the integers from 10 to 3000 |
| Handlers.NearCmd | app/bot/handlers.py:29 | an accepted radius is set on an existing user only; nobody is created; a rejected or missing argument changes nothing |
| Handlers.Top | app/bot/handlers.py:29 | the rows are the top listings of the day |
| Handlers.TopListingsSpec | app/bot/handlers.py:29 | at most ten listings, all from the last 24 hours, by flip score descending; a recent listing left out means ten were shown, none scoring lower |
| Handlers.WatchKeywordWords | app/bot/handlers.py:29 | the words of a stored keyword are the words the watch was added with |
| Handlers.StrayContinuation | app/bot/handlers.py:29 | Python's rule that a backslash outside a string literal must end its physical line; a rejected line holds at least a backslash and the character after it |
| Handlers.PlainSkipped | app/bot/handlers.py:29 | text with no quote and no backslash leaves Python's line-continuation rule where it was |
| Handlers.QuoteStep | app/bot/handlers.py:29 | a quote opens or closes a string literal for the rule |
| Handlers.PlainStep | app/bot/handlers.py:29 | any other character leaves the rule where it was |
| Handlers.BackslashStep | app/bot/handlers.py:29 | a backslash outside a literal with more text after it on the line is rejected |
| Handlers.ClosingShape | app/bot/handlers.py:29 | the `/start` reply's closing argument is indentation, `f"…"` and a comma |
| Handlers.LastLineRejected | app/bot/handlers.py:29 | as written, the closing argument followed by the literal characters `\` `n` is rejected, whatever the rest of the line holds |
| Handlers.LineBreakReadingAccepted | app/bot/handlers.py:29 | with the `\n` read as a line break, the same physical line passes the rule |
| Workers.InheritedSearch | app/scrapers/base.py:17-18 | the inherited search always raises |
| Workers.CollectedAppend | app/workers.py:10-16 | the collected batch over two source lists is the concatenation of both |
| Workers.FailingSourceIsolated | app/workers.py:12-16 | a failing source contributes nothing and does not stop the sources after it |
| Workers.AsWiredIngestsNothing | app/workers.py:9-19 | with the inherited search, the cycle collects nothing and the table is unchanged |
| Workers.RunScrapeCycle | app/workers.py:7-19 | one upsert, with the configured base, of the concatenated results of the sources that succeeded, in order |
| DbUrl.AsyncPrefixesUnhandled | app/db.py:9-17 | no rewritten prefix is one the rewriting handles |
| DbUrl.ToAsyncUrlOutputUnhandled | app/db.py:9-17 | a rewritten URL starts with no handled prefix |
| DbUrl.ToAsyncUrlIdempotent | app/db.py:8-18 | rewriting twice equals rewriting once |
| DbUrl.UnhandledUnchanged | app/db.py:18 | a URL with no handled prefix is returned unchanged |
| DbUrl.DefaultUrlNotRewritten | app/db.py:8-20 | the configured default URL is returned unchanged |
| DbUrl.FixedSqliteRewrite | app/db.py:9-11 | with the colon, a sync SQLite URL becomes the async one with the same path |
| DbUrl.DefaultUrlFixed | app/db.py:20 | with the colon, the default becomes "sqlite+aiosqlite:///./radar.db" |
| Keyboards.Chunks | app/bot/keyboards.py:9-11 | the chunks concatenate back to the input; each holds 1..n items; all but the last hold exactly n |
| Keyboards.Chunk | app/bot/keyboards.py:9-11 | a zero size raises, a negative size yields nothing, a positive size yields the chunks |
| Keyboards.ChunksCount | app/bot/keyboards.py:10 | the number of chunks is the length divided by n, rounded up |
| Keyboards.ChunksAppendRow | app/bot/keyboards.py:10-11 | after whole rows, a short tail forms exactly one more chunk |
| Keyboards.ChunksExact | app/bot/keyboards.py:10-11 | k · n items form k chunks of exactly n |
| PayloadStash.IssuedKeysMembers | app/bot/troost.py:24-27 | after n stashes the keys are exactly "1" … str(n) |
| PayloadStash.LaterKeyFresh | app/bot/troost.py:24-27 | a later key was never issued before |
| PayloadStash.IssuedKeysCount | app/bot/troost.py:23-27 | n stashes hold exactly n keys |
| PayloadStash.NeverIssued | app/bot/troost.py:30-31 | "0" and "" are never keys, so fetching them finds nothing |
| PayloadStash.StashedAllSpec | app/bot/troost.py:79-87 | stashing a list files item j under str(n + j + 1) and keeps every earlier entry |
| PayloadStash.Stash.constructor | app/bot/troost.py:23-24 | a fresh stash is empty with counter 0 |
| PayloadStash.Stash.Fetch | app/bot/troost.py:30-31 | the payload filed under the key, or none exactly when the key was never issued |
| PayloadStash.Stash.Put | app/bot/troost.py:22-28 | returns str(counter + 1), a key not used before; files the object there; every other key fetches what it did before |
| PayloadStash.StashLabelled | app/bot/troost.py:79-87 | one stash and one labelled button per item, button i carrying the key of item i |
| PayloadStash.LaidDone | app/bot/troost.py:43-44 | the row loop, once the last partial row is closed, lays out the buttons two per row |
| PayloadStash.PlaceButton | app/bot/troost.py:40-42 | placing one button keeps the two-per-row layout of the prefix |
| PayloadStash.StashInRows | app/bot/troost.py:37-44 | one stash per item, and the buttons laid out two per row |
| CatalogueBrowse.ModeArgs | app/bot/troost.py:118 | fails with ValueError exactly when no further ':' follows; otherwise splits at the first ':' |
| CatalogueBrowse.ModeArgsRoundTrip | app/bot/troost.py:107-118 | a token without ':' and a mode read back from the mode data |
| CatalogueBrowse.StashKeyHasNoColon | app/bot/troost.py:26 | a stash key holds no ':' |
| CatalogueBrowse.ModeDataReadsBack | app/bot/troost.py:107-118 | the data of a mode button starts with its prefix and reads back as its key and mode |
| CatalogueBrowse.ModeRowReadsBack | app/bot/troost.py:69-71 | the mode row has two buttons, reading back as the key with "L" and "T" |
| CatalogueBrowse.ButtonLabel | app/bot/troost.py:87 | a subcategory label, in either bot, is a prefix of the name of at most 35 characters, the whole name when it is that short |
| CatalogueBrowse.OrderedSpec | app/bot/troost.py:134-135 | mode "T" is a permutation sorted by flip score descending and stable among equal scores; other modes keep the order |
| CatalogueBrowse.ShownSpec | app/bot/troost.py:134-143 | at most ten cards, all fetched; the first ones for other modes; for "T" sorted, with nothing left out scoring higher |
| CatalogueBrowse.ButtonFetchesItsPayload | app/bot/troost.py:81-87 | pressing button i fetches the payload of item i |
| TroostBot.TroostEntry | app/bot/troost.py:33-50 | stashes the ten top categories and replies with their buttons |
| TroostBot.EntryRowsSpec | app/bot/troost.py:37-44 | five rows of two buttons; button i shows category i and fetches its payload |
| TroostBot.TroostPickTop | app/bot/troost.py:52-94 | an unknown key replies "Session expired" and a wrong payload raises KeyError, both changing nothing; with no subcategories it stashes one mode payload and offers the mode row; otherwise it stashes each subcategory and replies with rows of two |
| TroostBot.SubRowsSpec | app/bot/troost.py:79-89 | rows of two with a possible single last row; each label is the name cut to 35; button i fetches subcategory i |
| TroostBot.TroostPickSub | app/bot/troost.py:96-113 | expired and wrong payloads change nothing; otherwise one mode payload for the subcategory and the mode row |
| TroostBot.TroostShowMode | app/bot/troost.py:115-138 | a missing mode raises ValueError; expired, wrong payloads change nothing; otherwise the page's lots are upserted and the cards shown in mode order |
| TroostBot.ShowModeCards | app/bot/troost.py:125-143 | at most ten records are fetched, the first ten of the page; every card shown comes from them |
| VavatoBot.EntryAsWritten | app/bot/vavato.py:36-50 | no categories give the error reply; any category ends in AttributeError; never a menu |
| VavatoBot.VavatoEntry | app/bot/vavato.py:36-50 | no categories give the error reply and no stash; otherwise one stash per category and rows of two |
| VavatoBot.EntryRowsSpec | app/bot/vavato.py:43-50 | rows of two with a possible single last row; button i shows category i and fetches its page |
| VavatoBot.PickTopAsWritten | app/bot/vavato.py:58-68 | an unknown key replies "Session expired"; a category payload ends in TypeError; another payload in KeyError |
| VavatoBot.VavatoPickTop | app/bot/vavato.py:58-92 | expired and wrong payloads change nothing; with no subcategories one mode payload for the top page; otherwise one stash per subcategory and rows of two |
| VavatoBot.SubRowsSpec | app/bot/vavato.py:82-87 | rows of two; each label is the name cut to 35; button i fetches subcategory i |
| VavatoBot.VavatoPickSub | app/bot/vavato.py:94-110 | expired and wrong payloads change nothing; otherwise one mode payload for the subcategory page and the mode row |
| VavatoBot.ShowModeAsWritten | app/bot/vavato.py:112-123 | a missing mode raises ValueError; an unknown key replies "Session expired"; a mode payload ends in AttributeError; never cards |
| VavatoBot.VavatoShowMode | app/bot/vavato.py:112-133 | a missing mode raises ValueError; expired, wrong payloads change nothing; otherwise the page's lots are upserted and shown in mode order |
| VavatoBot.ShowModeCards | app/bot/vavato.py:127-140 | at most ten cards, all from the fetched records, sorted by flip score for "T" |
| TroostwijkScraper.ListTopCategories | app/scrapers/troostwijk.py:33-47 | the fixed ten categories, with distinct slugs |
| TroostwijkScraper.NonSlashRun | app/scrapers/troostwijk.py:62 | the longest prefix without '/' |
| TroostwijkScraper.SubMatch | app/scrapers/troostwijk.py:62 | a match is the top's path, a non-empty slug without '/', a 36-character uuid and a proper end |
| TroostwijkScraper.SubMatchComplete | app/scrapers/troostwijk.py:62 | every href of that shape matches, with its slug and uuid |
| TroostwijkScraper.SubFrom | app/scrapers/troostwijk.py:59-66 | a link yields a subcategory exactly when its href matches, with the link text as name |
| TroostwijkScraper.ListSubcategories | app/scrapers/troostwijk.py:49-80 | the loop yields the page-order dedupe pass over the links |
| TroostwijkScraper.SubsPassDistinct | app/scrapers/troostwijk.py:69-79 | no two entries share (sub_slug, uuid), and every matching link is listed |
| TroostwijkScraper.SubsPassByDistinct | app/scrapers/troostwijk.py:69-79 | the dedupe pass, for any link reader, lists no (sub_slug, uuid) twice and lists every key a link yields |
| TroostwijkScraper.SubsPassByFirstKept | app/scrapers/troostwijk.py:69-79 | each entry is the first link in page order with its (sub_slug, uuid) |
| TroostwijkScraper.SubsPassByKeeps | app/scrapers/troostwijk.py:69-79 | entries already listed stay, in place |
| TroostwijkScraper.IdRun | app/scrapers/troostwijk.py:109 | the longest prefix of digits and dashes |
| TroostwijkScraper.LastA1 | app/scrapers/troostwijk.py:109 | the last "-A1-" within the first path segment after "/l/" |
| TroostwijkScraper.A1From | app/scrapers/troostwijk.py:109 | a group found is "A1-" followed by digits and dashes |
| TroostwijkScraper.A1Search | app/scrapers/troostwijk.py:109 | a group found is "A1-" followed by digits and dashes |
| TroostwijkScraper.FirstDash | app/scrapers/troostwijk.py:109 | the first '-' followed by a digit |
| TroostwijkScraper.DigitsSearch | app/scrapers/troostwijk.py:109 | a group found is a non-empty run of digits |
| TroostwijkScraper.ExternalId | app/scrapers/troostwijk.py:109-110 | the "A1-…" group if found, else the digits after the first '-' past "/l/", else the whole href |
| TroostwijkScraper.NoLotPathKeepsHref | app/scrapers/troostwijk.py:109-110 | an href without "/l/" is its own id |
| TroostwijkScraper.A1Suffix | app/scrapers/troostwijk.py:109-110 | "/l/name-A1-d" has id "A1-d" |
| TroostwijkScraper.DigitsSuffix | app/scrapers/troostwijk.py:109-110 | without "-A1-", "/l/name-digits" falls back to the digits as id |
| TroostwijkScraper.DigitsSuffixExample | app/scrapers/troostwijk.py:109-110 | "/l/name-123" has id "123" |
| TroostwijkScraper.RawFromCardFields | app/scrapers/troostwijk.py:99-139 | a card yields a record exactly when it has a link with a non-empty text; the record carries the id rule, the url joined to the site root (the root and the href for a plain path), title cut to 180, category, photo and parsed price |
| TroostwijkScraper.ParseLotsFromPage | app/scrapers/troostwijk.py:91-142 | the card loop yields the card pass with its limit |
| TroostwijkScraper.CollectTakes | app/scrapers/troostwijk.py:122-141 | stopping once the limit is reached yields the first records up to the limit, at least one |
| TroostwijkScraper.ParseLotsFromPageSpec | app/scrapers/troostwijk.py:98-142 | the items are the first max(limit, 1) records of the cards, in page order |
| TroostwijkScraper.RecordsOfCards | app/scrapers/troostwijk.py:98-139 | at most one record per card, each from a card |
| VavatoScraper.LotsItems | app/scrapers/vavato.py:292-295 | only objects of a "lots" list are taken |
| VavatoScraper.WalkJsonForLots | app/scrapers/vavato.py:289-307 | the walk appends exactly the lot candidates of the node, in visiting order |
| VavatoScraper.AppendLotsItems | app/scrapers/vavato.py:292-295 | appends the objects of the node's "lots" list |
| VavatoScraper.WalkValues | app/scrapers/vavato.py:303-304 | appends the candidates of every value, in order |
| VavatoScraper.WalkItems | app/scrapers/vavato.py:305-307 | appends the candidates of every list item, in order |
| VavatoScraper.CandidatesAreObjects | app/scrapers/vavato.py:289-307 | every candidate is an object |
| VavatoScraper.LotLikeCollected | app/scrapers/vavato.py:292-302 | a lot-like object and every object of its "lots" list are candidates |
| VavatoScraper.ChildCollected | app/scrapers/vavato.py:303-307 | every candidate of a value or item is a candidate of the node |
| VavatoScraper.DeepGet | app/scrapers/vavato.py:309-316 | the loop walks the dotted path, none unless every step is an object holding the key |
| VavatoScraper.WalkAppend | app/scrapers/vavato.py:311-315 | walking a joined path is walking the first part, then the rest |
| VavatoScraper.DeepGetTwoSteps | app/scrapers/vavato.py:309-316 | "a.b" gives d[a][b] when both steps hold the key, otherwise none |
| VavatoScraper.LastSegment | app/scrapers/vavato.py:141 | the last segment holds no '/' |
| VavatoScraper.RawFromAnchor | app/scrapers/vavato.py:130-174 | a record exactly for an href starting "/en/lots/" with a non-empty title; id the last segment, url joined to the site root (the root and the href for a plain path), title cut to 180, photo and parsed price |
| VavatoScraper.HashOf | app/scrapers/vavato.py:239-241 | a list or object id cannot enter the seen set |
| VavatoScraper.OrJ | app/scrapers/vavato.py:205-210 | a Python "or" is truthy exactly when either side is |
| VavatoScraper.LotUrl | app/scrapers/vavato.py:215-230 | fails for a non-string url; none exactly when no url, slug or id is truthy; a url found is non-empty |
| VavatoScraper.LotsPath | app/scrapers/vavato.py:226-228 | the lot page of a slug or id: the site root and "/en/lots/" and the slug, when that is a plain path |
| VavatoScraper.PhotoValue | app/scrapers/vavato.py:244-251 | fails exactly for a photo value that is neither null nor a string |
| VavatoScraper.LotStep | app/scrapers/vavato.py:203-285 | no title skips the object; a lot emitted has a fresh id, a resolved url, the source and a title of at most 180 |
| VavatoScraper.AllCandidates | app/scrapers/vavato.py:194-201 | every candidate of the parsed blobs is an object |
| VavatoScraper.ExtractAllDistinct | app/scrapers/vavato.py:239-241 | no two lots emitted share an id, nor reuse a seen one |
| VavatoScraper.IntAndStringIdsBothKept | app/scrapers/vavato.py:233-271 | ids 5 and "5" are distinct in the seen set yet both render as "5" |
| VavatoScraper.ExtractFrom | app/scrapers/vavato.py:203-285 | the candidate loop computes the extraction fold, or stops with its error |
| VavatoScraper.ExtractLotsFromEmbeddedJson | app/scrapers/vavato.py:176-287 | the loops compute the embedded-JSON lots of the blobs |
| VavatoScraper.CollectCards | app/scrapers/vavato.py:104-110 | the anchor loop yields the card pass, checking the limit after each anchor |
| VavatoScraper.MergeJson | app/scrapers/vavato.py:117-123 | the JSON loop yields the merge pass |
| VavatoScraper.ParseLotsFromPage | app/scrapers/vavato.py:94-125 | the page method computes the page lots |
| VavatoScraper.CardsPassShape | app/scrapers/vavato.py:104-110 | the card pass keeps what it had, stays within the limit, and adds only records of anchors |
| VavatoScraper.JsonPassFresh | app/scrapers/vavato.py:117-123 | the merge keeps what it had, stays within the limit, and adds only JSON lots whose id is not yet taken |
| VavatoScraper.PageLotsBounded | app/scrapers/vavato.py:94-125 | a failed fetch gives no lots; never more than the limit; none for a non-positive limit |
| VavatoScraper.PageLotsOrder | app/scrapers/vavato.py:109-125 | with a full card pass the JSON is never consulted; otherwise the cards come first, then fresh-id JSON lots |
| Scrape.DigitRun | app/scrapers/vavato.py:322 | the longest run of digits at the front |
| Scrape.AmountAt | app/scrapers/vavato.py:322-324 | the amount read is never negative |
| Scrape.SearchEuro | app/scrapers/vavato.py:322 | an amount found is never negative |
| Scrape.ParsePrice | app/scrapers/vavato.py:318-326 | never negative; 0.0 for no or empty text |
| Scrape.NoEuroNoAmount | app/scrapers/vavato.py:322-324 | text without "€" yields no amount |
| Scrape.ParsePriceWithoutEuro | app/scrapers/vavato.py:318-326 | text without "€" parses as 0.0 |
| Scrape.EuroWithoutDigitSkipped | app/scrapers/vavato.py:322 | a "€" not followed by spaces and a digit is passed over |
| Scrape.FirstEuroAmount | app/scrapers/vavato.py:322-324 | the first "€", spaces and digits give the amount of those digits |
| Scrape.ParsePriceExample | app/scrapers/vavato.py:318-326 | "€ 1.234,50" parses as 1234.5 |
| Scrape.CleanExample | app/scrapers/vavato.py:321 | "€ 1.234,50" cleans to "€ 1234.50" |
| Scrape.AmountExample | app/scrapers/vavato.py:324 | "1234.50" reads as 1234.5 |
| Urls.SplitScheme | app/scrapers/troostwijk.py:103 | the lowercased text before the first ":" when it is a scheme name, else the default scheme and the whole text |
| Urls.StripC0Suffix | app/scrapers/troostwijk.py:103 | stripping the leading controls and spaces leaves a suffix of the reference |
| Urls.NetlocEnd | app/scrapers/troostwijk.py:103 | the network location ends at the first "/", "?" or "#" |
| Urls.SplitOnce | app/scrapers/troostwijk.py:103 | the text before the first separator and the rest, or the whole text |
| Urls.SplitNetloc | app/scrapers/troostwijk.py:103 | after a leading "//", the location holds no "/", "?" or "#" and the text is "//" + location + rest |
| Urls.UrlSplit | app/scrapers/troostwijk.py:103 | no delimiter in the location, no "?" or "#" in the path, no "#" in the query |
| Urls.SplitParams | app/scrapers/troostwijk.py:103 | parameters follow the first ";" of the last segment, and the path is rebuilt from the two parts |
| Urls.UrlParse | app/scrapers/troostwijk.py:103 | the parts of `urlsplit`, with the path either unchanged or cut at its parameters |
| Urls.UrlUnparse | app/scrapers/troostwijk.py:103 | the reassembled URL holds "//" and the location |
| Urls.WithSep | app/scrapers/troostwijk.py:103 | an empty part adds nothing, its separator included |
| Urls.Resolve | app/scrapers/troostwijk.py:103 | the segment loop never brings back a dot segment |
| Urls.ResolveSegments | app/scrapers/troostwijk.py:103 | resolved segments hold no "." or ".." |
| Urls.ResolveKeepsDotFree | app/scrapers/troostwijk.py:103 | without dot segments the loop keeps every segment, in order |
| Urls.ResolveDotFree | app/scrapers/troostwijk.py:103 | a dot-free path resolves to itself |
| Urls.ResolveIdempotent | app/scrapers/troostwijk.py:103 | resolving twice is resolving once |
| Urls.JoinSplitRoundTrip | app/scrapers/troostwijk.py:103 | joining a split with its separator gives the text back |
| Urls.SplitJoinRoundTrip | app/scrapers/troostwijk.py:103 | splitting a join of separator-free parts gives the parts back |
| Urls.SiteRootParts | app/scrapers/troostwijk.py:103 | `urlparse` of a site root is its https scheme and host, and `urlunparse` of those is the root |
| Urls.UrlJoin | app/scrapers/troostwijk.py:103 | an empty reference gives the base, and the join is never empty |
| Urls.JoinPlainPath | app/scrapers/troostwijk.py:103 | an absolute path without dot segments is appended to the root |
| Urls.JoinPlainPathIf | app/scrapers/vavato.py:134 | the same, for any reference |
| Urls.EmptyQueryDropped | app/scrapers/troostwijk.py:103 | a trailing bare "?" is dropped |
| Urls.EmptyFragmentDropped | app/scrapers/troostwijk.py:103 | a trailing bare "#" is dropped |
| Urls.JoinTailOnly | app/scrapers/troostwijk.py:103 | a reference of only a query and a fragment keeps the root and its empty path |
| Urls.QueryOnly | app/scrapers/troostwijk.py:103 | "?q" gives the root and "?q"; a bare "?" gives the root |
| Urls.FragmentOnly | app/scrapers/troostwijk.py:103 | "#f" gives the root and "#f"; a bare "#" gives the root |
| Urls.JoinAbsPath | app/scrapers/vavato.py:221 | an absolute path is appended to the root with its "." and ".." segments resolved |
| Urls.DotDotCancels | app/scrapers/vavato.py:221 | a segment and the ".." after it cancel between dot-free segments |
| Urls.FinalDotDot | app/scrapers/vavato.py:221 | a final ".." cancels the segment before it and leaves an empty last segment |
| Urls.DotDotResolved | app/scrapers/vavato.py:221 | "/pre/seg/../post" joins to the root and "/pre/post" |
| Urls.NetworkPath | app/scrapers/troostwijk.py:103 | "//host/path" takes the https scheme |
| Urls.HttpsUrlKept | app/scrapers/vavato.py:134 | an absolute https URL is kept, whatever the base |
| Urls.OtherSchemeKept | app/scrapers/vavato.py:134 | a reference on another scheme is returned as it is |
| Scrape.Or | app/scrapers/troostwijk.py:115 | a Python "or" of optional strings is one of them, truthy exactly when either is |
| Scrape.PhotoScheme | app/scrapers/troostwijk.py:112-117 | the first truthy of src, data-src, data-srcset, with "https:" before a leading "//" |
| Json.FindKey | app/scrapers/vavato.py:312 | the first entry with the key, and none exactly when no entry has it |
| Json.Get | app/scrapers/vavato.py:312-313 | a value exactly when the object holds the key |
| Json.FirstTruthy | app/scrapers/vavato.py:205-210 | the first truthy lookup, or the last lookup when none is truthy |
| Text.Lower | app/normalizer.py:16 | the same length, each character lowercased |
| Text.StripLeft | app/normalizer.py:36 | drops exactly the leading whitespace |
| Text.StripRight | app/normalizer.py:36 | drops exactly the trailing whitespace |
| Text.StripCharacterized | app/normalizer.py:36 | the stripped title is the middle part, edged by non-space, with only whitespace dropped |
| Text.StripNoop | app/normalizer.py:36 | a title edged by non-space is kept |
| Text.SplitWhitespace | app/services/alerts.py:50 | the words contain no whitespace and are non-empty |
| Text.SplitJoinRoundTrip | app/bot/handlers.py:29 | splitting words joined by single spaces gives the words back |
| Text.SplitOn | app/scrapers/vavato.py:311 | splitting always yields at least one part |
| Text.SplitOnPartsFree | app/scrapers/vavato.py:311 | no part holds the separator |
| Text.SplitOnAbsent | app/scrapers/vavato.py:311 | text without the separator is one part |
| Text.SplitOnAppend | app/scrapers/vavato.py:311 | splitting at a separator splits both sides independently |
| Text.SliceTo | app/scrapers/troostwijk.py:105 | Python's [:n]: the first n elements, or all of them |
| Text.NatToString | app/bot/troost.py:26 | a non-empty string of digits |
| Text.NatToStringInjective | app/bot/troost.py:26 | distinct counters give distinct keys |
| Text.UnderscoreDigits | app/bot/handlers.py:29 | like int(), "1_000" reads as 1000 |
| Text.ParseIntRoundTrip | app/bot/handlers.py:29 | int(str(i)) == i |
| Text.IntToStringInjective | app/bot/handlers.py:29 | distinct integers render differently |
| Ranking.SortDesc | app/services/alerts.py:55 | a permutation of the input |
| Ranking.SortDescSorted | app/services/alerts.py:55 | the result is in non-increasing key order |
| Ranking.SortDescStable | app/services/alerts.py:55 | elements with equal keys keep their order |
| Ranking.Take | app/services/alerts.py:55 | the first n elements, or all of them |
| Ranking.TopOfSorted | app/services/alerts.py:55 | the first n are sorted and none after them has a larger key |
| Ranking.TopLeftOut | app/services/alerts.py:55 | an element left out means n were taken, each with at least its key |
| Ranking.SortDescMembership | app/services/alerts.py:55 | sorting keeps exactly the same elements |
| Ranking.FilterSorted | app/services/alerts.py:60 | the seen filter keeps the order sorted |
| Seqs.Filter | app/services/alerts.py:60 | keeps only elements that pass |
| Seqs.FilterMembership | app/services/alerts.py:60 | an element is kept exactly when it is present and passes |

## Left out

- HTTP fetching, BeautifulSoup selectors, `json.loads` and the regular-expression engine. Pages are given as records: cards, anchors with their text, href, image and price text, and parsed JSON trees. A blob that fails to parse is `None`. The patterns' `\d` is rendered as the ASCII digits, while Python's `re` also matches every other Unicode decimal digit.
- Json.Get: a JSON object is a list of entries that may repeat a key, which `json.loads` never produces (it keeps the last value of a repeated key); Get reads the first entry with the key.
- `_extract_lots_from_embedded_json`'s blob search (`__NEXT_DATA__`, else every `application/json` script) is given as the list of blobs.
- Telegram I/O: message texts and emoji, `_fmt_card`, `_format_listing`, the `/top` captions, `send_media_group` and the `send_photo` fallback, and the photo/caption partition. A reply is one of: a message, a menu, the cards shown in summary order, or the exception raised.
- IEEE floating point: amounts are exact `real`s. `float()` of a JSON price is the parameter `parseFloat`, and `str()` of a JSON value is the parameter `render`.
- Haversine trigonometry: HaversineKm takes the great-circle formula as the parameter `gc`.
- `datetime.now`: "now" is a parameter. Creation times are whole seconds.
- `humanize.naturaltime`, and the `.title()` / `replace('-', ' ')` headings in the bot texts.
- Text.Lower: ASCII letters only. Python lowercases all of Unicode.
- Text.ParseInt: ASCII digits only. Python's `int()` also accepts every other Unicode decimal digit. Underscores between digits are accepted, as `int()` does.
- Scoring.RecencyBoost: creation times read back from the store are taken to keep their time zone. With SQLite, SQLAlchemy's `DateTime(timezone=True)` comes back naive, and the subtraction at app/scoring.py:7 would then raise `TypeError` in the digest ranking.
- Handlers.TopListingsSpec: ties in `ORDER BY flip_score DESC` are broken by table order, and the digest's recent-listings query, which has no `ORDER BY`, returns table order. SQL leaves both orders unspecified.
- Urls.UrlJoin: the base is always an https site root with no path, as both scrapers pass; its parts are RootParts, which SiteRootParts proves are what `urlparse` finds. `urlunparse` of parts without a network location, the `ValueError` for unbalanced brackets in a location, the NFKC check on a location, and IPv6 literals are not modelled. The relative branch follows the Python 3.12 `urljoin`.
- Urls.JoinPlainPath: the lemmas about joined text are stated for a plain host name and for paths without ";", "?" or "#" in a segment, which is what the scrapers pass; other references are covered by UrlJoin alone.
- VavatoScraper.LotsPath: states the joined text only when the slug makes a plain path; otherwise it states that the result is UrlJoin of the path.
- SQLAlchemy sessions, autoflush and transactions. A handler's writes either all happen or none do. The watch foreign key is not checked on insert, as SQLite leaves foreign keys off by default.
- The scheduler, `main.py`, the web health endpoint, and env-file loading. Settings are fixed constants.
- `_LegacyTroostwijkSearch`, a keyword search that no caller uses.
- Vavato `list_top_categories` and `list_subcategories`, since their discovery is regex matching over HTML. The bot handlers take the categories and subcategories they return as inputs (`tops`, `subsAt`), and a failed homepage fetch gives no categories.
- VavatoBot.VavatoShowMode: the lots of a page are a parameter `lotsAt`, because the scraper has no `fetch_lots_from_url`. The limit of ten is therefore not proved for this handler; only the cap of ten cards shown is.
- VavatoScraper.ExtractAllDistinct: distinctness holds for the raw JSON ids that enter the seen set, not for the emitted `str()` ids. IntAndStringIdsBothKept shows an integer id and its string both being emitted.
- TroostBot.TroostPickTop: the exception caught around `list_subcategories` is modelled as no links (`None`). A fetch failure in `troost_show_mode` or in the Vavato `list_subcategories` call, which propagates, is not modelled.
- Alerts.SendHourlyDigest: the user order of `select(User)` is left unspecified, and the result does not depend on it. A send that raises after the media fallback, which would skip the commit, is not modelled.
- pydantic validation of `RawListing` beyond the one case it decides here: a photo value that is neither null nor a string raises (PhotoValue). Numeric coercion is not modelled.
- Handlers.AddWatch, Handlers.Unwatch, Handlers.NearCmd, Handlers.Top: app/bot/handlers.py ends in one physical line (line 29) in which every intended line break is written as the two characters `\` and `n` outside any string literal. As written, Python refuses the module and none of the bot commands exists (see "## Findings"). These handlers model that line with each `\n` read as a line break. Handlers.Start, which begins on the well-formed lines 20-26, is part of the same unparsable module.
- Listing ids are assigned as table position plus one. That is the order SQLite assigns them in an insert-only table. Watch ids, whose rows can be deleted, are the largest stored id plus one, as SQLite assigns an integer primary key without AUTOINCREMENT.

## Findings

| source | as written | input that shows it | evidently intended | confidence | as-written member | corrected member |
|---|---|---|---|---|---|---|
| app/db.py:9-13 | the SQLite prefixes are matched without the colon ("sqlite+sqlite///", "sqlite///") | the default "sqlite+sqlite:///./radar.db" matches no branch and is passed through unchanged | "sqlite+sqlite:///x" becomes "sqlite+aiosqlite:///x" | not executed | DbUrl.DefaultUrlNotRewritten | DbUrl.DefaultUrlFixed |
| app/bot/vavato.py:45 | the entry reads `cat.url`, but `VTopCategory` has only name, slug and uuid | any non-empty category list raises AttributeError before a menu is sent | the payload carries the top page URL built from slug and uuid | not executed | VavatoBot.EntryAsWritten | VavatoBot.VavatoEntry |
| app/bot/vavato.py:68 | `list_subcategories` is called with one argument, but it takes slug and uuid | every category button raises TypeError | list the subcategories of the chosen top page | not executed | VavatoBot.PickTopAsWritten | VavatoBot.VavatoPickTop |
| app/bot/vavato.py:123 | `fetch_lots_from_url` does not exist on the scraper | every mode button with a live payload raises AttributeError | fetch at most ten lots from the stashed page URL | not executed | VavatoBot.ShowModeAsWritten | VavatoBot.VavatoShowMode |
| app/bot/handlers.py:29 | the last line writes its line breaks as the two characters `\` `n`, outside any string literal, right after the `/start` reply's closing argument | the line itself: the tokenizer stops at the first backslash with "unexpected character after line continuation character", so the module and `build_app` fail to import and no handler is registered | the multi-line `/start` tail, `help_cmd`, `watch`, `unwatch`, `near_cmd`, `top` and `build_app`, whose behaviour Handlers.AddWatch, Handlers.Unwatch, Handlers.NearCmd and Handlers.Top model | not executed | Handlers.LastLineRejected | Handlers.LineBreakReadingAccepted |
