/**
 * What the two catalogue bots share: the replies a callback can end in, the
 * "Latest 10" / "Top 10 (flip score)" choice and how its callback data is
 * read back, and the ordering and cap of the cards a choice shows.
 */
module CatalogueBrowse {
  import opened Wrappers
  import opened Text
  import opened Ranking
  import opened Normalizer
  import opened PayloadStash

  /** At most this many cards are sent for one choice. */
  const MaxMedia: nat := 10

  /** How a handler ended for the user. */
  datatype BotError = KeyError | ValueError | AttributeError | TypeError

  datatype Reply =
    | Message(text: string)                 // a plain text reply or edit
    | Menu(rows: seq<seq<Button>>)          // a keyboard of buttons
    | Lots(cards: seq<Snapshot>)            // the cards shown, in summary order
    | Raised(error: BotError)               // the handler stopped with an exception

  // ----------------------------------------------------------- mode row

  /** The callback data of an ordering button. */
  function ModeButtonData(prefix: string, token: string, mode: string): string {
    prefix + "mode:" + token + ":" + mode
  }

  /** The one-row keyboard that offers the two orderings for stashed token `token`. */
  function ModeRow(prefix: string, token: string): (rows: seq<seq<Button>>) {
    [[("Latest 10", ModeButtonData(prefix, token, "L")),
      ("Top 10 (flip score)", ModeButtonData(prefix, token, "T"))]]
  }

  /** The position of the first ':' in `s`, or `|s|` when there is none. */
  function ColonAt(s: string): (i: nat)
    ensures i <= |s|
    ensures i < |s| <==> ':' in s
    ensures ':' !in s[..i]
    ensures i < |s| ==> s[i] == ':'
    decreases |s|
  {
    if s == [] then 0
    else if s[0] == ':' then 0
    else
      var j := ColonAt(s[1..]);
      assert s[..j + 1] == [s[0]] + s[1..][..j];
      j + 1
  }

  /**
   * The token and the mode of a mode callback, from the data after
   * "<bot>:mode:": the text up to the next ':' and everything after it.
   * Without a further ':' the four-way unpacking fails.
   */
  function ModeArgs(rest: string): (r: Result<(string, string), BotError>)
    ensures r.Err? <==> ':' !in rest
    ensures r.Err? ==> r.error == ValueError
    ensures r.Ok? ==> ':' !in r.value.0 && rest == r.value.0 + ":" + r.value.1
  {
    var i := ColonAt(rest);
    if i == |rest| then Err(ValueError)
    else
      assert rest == rest[..i] + ":" + rest[i + 1..];
      Ok((rest[..i], rest[i + 1..]))
  }

  /** A token without a ':' and any mode read back from the mode callback data. */
  lemma ModeArgsRoundTrip(token: string, mode: string)
    requires ':' !in token
    ensures ModeArgs(token + ":" + mode) == Ok((token, mode))
  {
    var rest := token + ":" + mode;
    assert rest[|token|] == ':';
    assert ':' in rest;
    var r := ModeArgs(rest);
    var t := r.value.0;
    assert t == token;
    assert r.value.1 == rest[|token| + 1..] == mode;
  }

  /** A stash key is digits only, so it never holds a ':'. */
  lemma StashKeyHasNoColon(n: nat)
    ensures ':' !in NatToString(n)
  {
  }

  /** The data of one mode button, after "<bot>:mode:", reads back as its key and mode. */
  lemma ModeDataReadsBack(prefix: string, token: string, mode: string)
    requires ':' !in token
    ensures var data := ModeButtonData(prefix, token, mode);
      StartsWith(data, prefix + "mode:") && ModeArgs(data[|prefix| + 5..]) == Ok((token, mode))
  {
    var data := ModeButtonData(prefix, token, mode);
    assert data == (prefix + "mode:") + (token + ":" + mode);
    assert data[|prefix| + 5..] == token + ":" + mode;
    ModeArgsRoundTrip(token, mode);
  }

  /**
   * The two buttons of the mode row for a stash key carry data that reads
   * back as that key with mode "L" and "T" respectively.
   */
  lemma ModeRowReadsBack(prefix: string, n: nat)
    ensures var kb := ModeRow(prefix, NatToString(n));
      && |kb| == 1 && |kb[0]| == 2
      && (forall k :: 0 <= k < 2 ==> StartsWith(kb[0][k].1, prefix + "mode:"))
      && ModeArgs((kb[0][0].1)[|prefix| + 5..]) == Ok((NatToString(n), "L"))
      && ModeArgs((kb[0][1].1)[|prefix| + 5..]) == Ok((NatToString(n), "T"))
  {
    var t := NatToString(n);
    StashKeyHasNoColon(n);
    ModeDataReadsBack(prefix, t, "L");
    ModeDataReadsBack(prefix, t, "T");
  }

  /** A subcategory button shows at most the first 35 characters of its name. */
  function ButtonLabel(name: string): (shown: string)
    ensures |shown| <= 35 && |shown| <= |name| && shown == name[..|shown|]
    ensures |name| <= 35 ==> shown == name
  {
    SliceTo(name, 35)
  }

  // -------------------------------------------------------- card order

  /** The sort key of mode "T"; a snapshot always carries its flip score. */
  function FlipKey(s: Snapshot): real { s.flipScore }

  /** The snapshots in the order of the chosen mode: mode "T" by flip score, highest first. */
  function Ordered(snaps: seq<Snapshot>, mode: string): seq<Snapshot> {
    if mode == "T" then SortDesc(snaps, FlipKey) else snaps
  }

  /** The cards sent for a choice: the first `MaxMedia` snapshots in mode order. */
  function Shown(snaps: seq<Snapshot>, mode: string): seq<Snapshot> {
    Take(Ordered(snaps, mode), MaxMedia)
  }

  /**
   * Any mode keeps the same snapshots; mode "T" orders them by flip score,
   * highest first, keeping the fetched order among equal scores, and every
   * other mode keeps the fetched order.
   */
  lemma OrderedSpec(snaps: seq<Snapshot>, mode: string)
    ensures multiset(Ordered(snaps, mode)) == multiset(snaps)
    ensures mode == "T" ==> SortedDesc(Ordered(snaps, mode), FlipKey)
    ensures mode == "T" ==> forall k :: WithKey(Ordered(snaps, mode), FlipKey, k) == WithKey(snaps, FlipKey, k)
    ensures mode != "T" ==> Ordered(snaps, mode) == snaps
  {
    if mode == "T" {
      SortDescSorted(snaps, FlipKey);
      forall k ensures WithKey(Ordered(snaps, mode), FlipKey, k) == WithKey(snaps, FlipKey, k) {
        SortDescStable(snaps, FlipKey, k);
      }
    }
  }

  /**
   * At most ten cards are sent, all of them fetched; in mode "T" they are
   * sorted and none left out scores higher than one sent, and otherwise they
   * are the first fetched ones.
   */
  lemma ShownSpec(snaps: seq<Snapshot>, mode: string)
    ensures var r := Shown(snaps, mode);
      && |r| == (if |snaps| < MaxMedia then |snaps| else MaxMedia)
      && (forall s :: s in r ==> s in snaps)
      && (mode != "T" ==> r == snaps[..|r|])
      && (mode == "T" ==> SortedDesc(r, FlipKey))
      && (mode == "T" ==> forall s, t :: s in r && t in snaps && t !in r ==> s.flipScore >= t.flipScore)
  {
    var r := Shown(snaps, mode);
    var o := Ordered(snaps, mode);
    OrderedSpec(snaps, mode);
    forall s | s in r ensures s in snaps {
      assert s in multiset(o);
    }
    if mode == "T" {
      TopOfSorted(snaps, FlipKey, MaxMedia);
      forall s, t | s in r && t in snaps && t !in r ensures s.flipScore >= t.flipScore {
        TopLeftOut(snaps, FlipKey, MaxMedia, t);
      }
    }
  }

  // ------------------------------------------------------ stashed buttons

  /**
   * The data of a stashed button, after its prefix, is the key its payload
   * was filed under: pressing button `i` fetches back the payload of item `i`.
   */
  lemma ButtonFetchesItsPayload<E, T>(m: map<string, T>, n: nat, items: seq<E>, payloadOf: E -> T,
                                      labelOf: E -> string, prefix: string, i: nat)
    requires m.Keys == IssuedKeys(n) && i < |items|
    ensures var b := Buttons(Labels(items, labelOf), prefix, n)[i];
      var st := StashedAll(m, n, Payloads(items, payloadOf));
      && b.0 == labelOf(items[i])
      && StartsWith(b.1, prefix)
      && b.1[|prefix|..] in st && st[b.1[|prefix|..]] == payloadOf(items[i])
  {
    var b := Buttons(Labels(items, labelOf), prefix, n)[i];
    StashedAllSpec(m, n, Payloads(items, payloadOf));
    assert b.1 == prefix + NatToString(n + i + 1);
    assert b.1[|prefix|..] == NatToString(n + i + 1);
  }
}
