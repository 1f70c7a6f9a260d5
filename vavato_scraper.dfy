/**
 * The Vavato scraper's pure parts: finding lot-like objects in embedded
 * JSON, dotted lookups, turning lot anchors and JSON objects into records,
 * and merging the two sources of one category page under a limit.
 * Fetching the page, the HTML selectors and the regular expressions that cut
 * JSON blobs out of it are inputs here.
 */
module VavatoScraper {
  import opened Wrappers
  import opened Text
  import opened Seqs
  import opened Json
  import opened Schemas
  import opened Scrape
  import Urls

  const Source: string := "vavato"
  const BaseUrl: Urls.SiteRoot := "https://www.vavato.com"

  const IdKeys: seq<string> := ["id", "uuid", "lotId"]
  const TitleKeys: seq<string> := ["title", "name", "lotTitle"]
  const ImageKeys: seq<string> := ["image", "imageUrl", "thumbnailUrl", "mainImageUrl", "thumbnail"]

  /** An object with an id key, a title key and an image key looks like a lot. */
  predicate LotLike(j: Json) {
    j.JObj? && HasAny(j, IdKeys) && HasAny(j, TitleKeys) && HasAny(j, ImageKeys)
  }

  function IsObject(): Json -> bool { (j: Json) => j.JObj? }

  /** The object elements of a `lots` list, when the node has one. */
  function LotsItems(j: Json): (r: seq<Json>)
    ensures forall x :: x in r ==> x.JObj?
  {
    match Get(j, "lots")
    case Some(JArr(xs)) =>
      var r := Filter(xs, IsObject());
      assert forall x :: x in r ==> x.JObj? by {
        forall x | x in r ensures x.JObj? { FilterMembership(xs, IsObject(), x); }
      }
      r
    case _ => []
  }

  /** The lot candidates of every value of an object, in entry order. */
  function ValueCandidates(es: seq<Entry>): seq<Json>
    decreases es
  {
    if es == [] then []
    else
      var e := es[|es| - 1];
      assert e in es;
      ValueCandidates(es[..|es| - 1]) + LotCandidates(e.value)
  }

  /** The lot candidates of every item of a list, in order. */
  function ItemCandidates(xs: seq<Json>): seq<Json>
    decreases xs
  {
    if xs == [] then [] else ItemCandidates(xs[..|xs| - 1]) + LotCandidates(xs[|xs| - 1])
  }

  /**
   * What `_walk_json_for_lots` appends for `node`, in order: the object items
   * of its `lots` list, the node itself when it looks like a lot, then the
   * candidates of its values; for a list, the candidates of its items.
   */
  function LotCandidates(node: Json): seq<Json>
    decreases node
  {
    match node
    case JObj(es) => LotsItems(node) + (if LotLike(node) then [node] else []) + ValueCandidates(es)
    case JArr(xs) => ItemCandidates(xs)
    case _ => []
  }

  /**
   * `_walk_json_for_lots(node, out)`: appends the candidates of `node` to
   * `out`, visiting the `lots` list, the node, then every value or item.
   */
  method WalkJsonForLots(node: Json, out: seq<Json>) returns (result: seq<Json>)
    ensures result == out + LotCandidates(node)
    decreases node, 1
  {
    match node {
      case JObj(es) =>
        ghost var own := if LotLike(node) then [node] else [];
        var mid := AppendLotsItems(node, out);
        if LotLike(node) {
          mid := mid + [node];
        }
        result := WalkValues(node, es, mid);
        ObjectCandidates(node, out, mid, result);
      case JArr(xs) =>
        result := WalkItems(node, xs, out);
      case _ =>
        result := out;
    }
  }

  /** The three parts an object's walk appends add up to its candidates. */
  lemma ObjectCandidates(node: Json, out: seq<Json>, mid: seq<Json>, result: seq<Json>)
    requires node.JObj?
    requires mid == out + LotsItems(node) + (if LotLike(node) then [node] else [])
    requires result == mid + ValueCandidates(node.entries)
    ensures result == out + LotCandidates(node)
  {
  }

  /** The loop over a `lots` list, keeping its objects. */
  method AppendLotsItems(node: Json, out: seq<Json>) returns (result: seq<Json>)
    ensures result == out + LotsItems(node)
  {
    result := out;
    var lots := Get(node, "lots");
    if lots.Some? && lots.value.JArr? {
      var xs := lots.value.items;
      var k := 0;
      while k < |xs|
        invariant 0 <= k <= |xs|
        invariant result == out + Filter(xs[..k], IsObject())
      {
        assert xs[..k + 1] == xs[..k] + [xs[k]];
        FilterSnoc(xs[..k], xs[k], IsObject());
        if xs[k].JObj? {
          result := result + [xs[k]];
        }
        k := k + 1;
      }
      assert xs[..k] == xs;
    }
  }

  /** The loop over an object's values. */
  method WalkValues(node: Json, es: seq<Entry>, out: seq<Json>) returns (result: seq<Json>)
    requires node.JObj? && es == node.entries
    ensures result == out + ValueCandidates(es)
    decreases node, 0
  {
    result := out;
    var i := 0;
    while i < |es|
      invariant 0 <= i <= |es|
      invariant result == out + ValueCandidates(es[..i])
    {
      assert es[i] in es;
      assert es[..i + 1][..i] == es[..i] && es[..i + 1][i] == es[i];
      result := WalkJsonForLots(es[i].value, result);
      i := i + 1;
    }
    assert es[..i] == es;
  }

  /** The loop over a list's items. */
  method WalkItems(node: Json, xs: seq<Json>, out: seq<Json>) returns (result: seq<Json>)
    requires node.JArr? && xs == node.items
    ensures result == out + ItemCandidates(xs)
    decreases node, 0
  {
    result := out;
    var i := 0;
    while i < |xs|
      invariant 0 <= i <= |xs|
      invariant result == out + ItemCandidates(xs[..i])
    {
      assert xs[..i + 1][..i] == xs[..i] && xs[..i + 1][i] == xs[i];
      result := WalkJsonForLots(xs[i], result);
      i := i + 1;
    }
    assert xs[..i] == xs;
  }

  /** Only objects are ever collected. */
  lemma {:induction false} CandidatesAreObjects(node: Json)
    ensures forall x :: x in LotCandidates(node) ==> x.JObj?
    decreases node, 1
  {
    match node {
      case JObj(es) => ValueCandidatesAreObjects(es);
      case JArr(xs) => ItemCandidatesAreObjects(xs);
      case _ =>
    }
  }

  lemma {:induction false} ValueCandidatesAreObjects(es: seq<Entry>)
    ensures forall x :: x in ValueCandidates(es) ==> x.JObj?
    decreases es, 0
  {
    if es != [] {
      var e := es[|es| - 1];
      assert e in es;
      ValueCandidatesAreObjects(es[..|es| - 1]);
      CandidatesAreObjects(e.value);
    }
  }

  lemma {:induction false} ItemCandidatesAreObjects(xs: seq<Json>)
    ensures forall x :: x in ItemCandidates(xs) ==> x.JObj?
    decreases xs, 0
  {
    if xs != [] {
      ItemCandidatesAreObjects(xs[..|xs| - 1]);
      CandidatesAreObjects(xs[|xs| - 1]);
    }
  }

  /** A lot-like object, and every object in its `lots` list, is collected. */
  lemma LotLikeCollected(node: Json)
    requires node.JObj?
    ensures LotLike(node) ==> node in LotCandidates(node)
    ensures forall x :: x in LotsItems(node) ==> x in LotCandidates(node)
  {
  }

  /** The walk goes into every value of an object... */
  lemma {:induction false} ValueCollected(es: seq<Entry>, k: nat, x: Json)
    requires k < |es| && x in LotCandidates(es[k].value)
    ensures x in ValueCandidates(es)
    decreases es
  {
    if k < |es| - 1 {
      ValueCollected(es[..|es| - 1], k, x);
    }
  }

  /** ...and into every item of a list. */
  lemma {:induction false} ItemCollected(xs: seq<Json>, k: nat, x: Json)
    requires k < |xs| && x in LotCandidates(xs[k])
    ensures x in ItemCandidates(xs)
    decreases xs
  {
    if k < |xs| - 1 {
      ItemCollected(xs[..|xs| - 1], k, x);
    }
  }

  /** So whatever a child yields, its parent yields too. */
  lemma ChildCollected(node: Json, k: nat, x: Json)
    requires node.JObj? ==> k < |node.entries| && x in LotCandidates(node.entries[k].value)
    requires node.JArr? ==> k < |node.items| && x in LotCandidates(node.items[k])
    requires node.JObj? || node.JArr?
    ensures x in LotCandidates(node)
  {
    if node.JObj? {
      ValueCollected(node.entries, k, x);
    } else {
      ItemCollected(node.items, k, x);
    }
  }

  // ---------------------------------------------------------------- deep get

  /** Following `parts` key by key through nested objects. */
  function Walk(cur: Json, parts: seq<string>): (r: Option<Json>)
    decreases |parts|
  {
    if parts == [] then Some(cur)
    else if Has(cur, parts[0]) then Walk(Get(cur, parts[0]).value, parts[1..])
    else None
  }

  /** `_deep_get(d, path)`: the value at the dotted path, or nothing as soon as a step misses. */
  method DeepGet(d: Json, path: string) returns (r: Option<Json>)
    ensures r == Walk(d, SplitOn(path, '.'))
  {
    var parts := SplitOn(path, '.');
    var cur := d;
    var i := 0;
    while i < |parts|
      invariant 0 <= i <= |parts|
      invariant Walk(d, parts) == Walk(cur, parts[i..])
    {
      assert parts[i..][1..] == parts[i + 1..];
      if Has(cur, parts[i]) {
        cur := Get(cur, parts[i]).value;
      } else {
        return None;
      }
      i := i + 1;
    }
    return Some(cur);
  }

  /** Walking a longer path is walking its first part, then the rest from there. */
  lemma {:induction false} WalkAppend(d: Json, p: seq<string>, q: seq<string>)
    ensures Walk(d, p + q) == if Walk(d, p).Some? then Walk(Walk(d, p).value, q) else None
    decreases |p|
  {
    if p == [] {
      assert p + q == q;
    } else {
      assert (p + q)[0] == p[0] && (p + q)[1..] == p[1..] + q;
      if Has(d, p[0]) {
        WalkAppend(Get(d, p[0]).value, p[1..], q);
      }
    }
  }

  /** `_deep_get(d, "a.b")` is `d["a"]["b"]` when both steps are objects holding the key. */
  lemma DeepGetTwoSteps(d: Json, a: string, b: string)
    requires '.' !in a && '.' !in b
    ensures Walk(d, SplitOn(a + "." + b, '.'))
         == if Has(d, a) && Has(Get(d, a).value, b) then Get(Get(d, a).value, b) else None
  {
    SplitOnAppend(a, '.', b);
    SplitOnAbsent(a, '.');
    SplitOnAbsent(b, '.');
    assert a + "." + b == a + ['.'] + b;
    WalkAppend(d, [a], [b]);
    assert [a][1..] == [] && [b][1..] == [];
  }

  // ----------------------------------------------------------------- anchors

  /**
   * One lot anchor of a category page: its `href`, the stripped text of its
   * title element (a heading inside it, else the anchor), the image found in
   * it or else in its parent, and the text of the first euro string near it.
   */
  datatype Anchor = Anchor(href: Option<string>, titleText: string, img: Option<Img>,
                           priceText: Option<string>)

  const LotPrefix: string := "/en/lots/"
  const TitleLimit: nat := 180

  /** `href.strip("/").split("/")[-1]`: the last path segment. */
  function LastSegment(href: string): (r: string)
    ensures '/' !in r
  {
    var parts := SplitOn(StripChar(href, '/'), '/');
    SplitOnPartsFree(StripChar(href, '/'), '/');
    parts[|parts| - 1]
  }

  /**
   * `_raw_from_anchor`: a record only for a lot link with a non-empty title,
   * identified by the link's last path segment.
   */
  function RawFromAnchor(a: Anchor, category: string): (r: Option<RawListing>)
    ensures r.Some? <==> StartsWith(a.href.GetOr(""), LotPrefix) && a.titleText != ""
    ensures r.Some? ==> var href := a.href.GetOr("");
      && r.value.source == Source
      && r.value.externalId == LastSegment(href) && '/' !in r.value.externalId
      && r.value.url == Urls.UrlJoin(BaseUrl, href)
      && (Urls.PlainPath(href) ==> r.value.url == BaseUrl + href)
      && 0 < |r.value.title| <= TitleLimit && |r.value.title| <= |a.titleText|
      && r.value.title == a.titleText[..|r.value.title|]
      && r.value.category == Some(category)
      && r.value.priceValue == ParsePrice(a.priceText) && r.value.photoUrl == PhotoOf(a.img)
  {
    var href := a.href.GetOr("");
    if !StartsWith(href, LotPrefix) then None
    else
      var title := SliceTo(a.titleText, TitleLimit);
      if title == "" then None
      else
        Urls.JoinPlainPathIf(BaseUrl, href);
        Some(ScrapedRaw(Source, LastSegment(href), Urls.UrlJoin(BaseUrl, href), title,
                        Some(category), PhotoOf(a.img), ParsePrice(a.priceText)))
  }

  // ------------------------------------------------------ embedded JSON lots

  /** What Python raises while turning a JSON object into a record. */
  datatype PyError = AttributeError | TypeError | ValidationError

  /**
   * The identity of an id value in Python's `seen_ids` set: numbers and
   * booleans compare by value (1 == 1.0 == True), strings by text.
   */
  datatype HashKey = HNone | HNum(n: real) | HStr(s: string)

  /** Hashing an id; lists and objects are unhashable. */
  function HashOf(j: Json): (r: Result<HashKey, PyError>)
    ensures r.Err? <==> j.JArr? || j.JObj?
  {
    match j
    case JNull => Ok(HNone)
    case JBool(b) => Ok(HNum(if b then 1.0 else 0.0))
    case JInt(i) => Ok(HNum(i as real))
    case JFloat(x) => Ok(HNum(x))
    case JStr(s) => Ok(HStr(s))
    case _ => Err(TypeError)
  }

  /**
   * Python's `str(v)`; `render` stands for the text of a float, a list or an
   * object, which the model does not spell out.
   */
  function PyStr(j: Json, render: Json -> string): string {
    match j
    case JNull => "None"
    case JBool(b) => if b then "True" else "False"
    case JInt(i) => IntToString(i)
    case JStr(s) => s
    case _ => render(j)
  }

  const LotTitleKeys: seq<string> := ["title", "name", "lotTitle", "lotName"]
  const UrlKeys: seq<string> := ["url", "href", "lotUrl"]
  const SlugKeys: seq<string> := ["slug", "lotSlug"]
  const LotIdKeys: seq<string> := ["id", "lotId", "uuid"]
  const PhotoKeys: seq<string> := ["image", "imageUrl", "thumbnailUrl", "mainImageUrl"]
  const PriceKeys: seq<string> := ["price", "currentPrice", "biddingPrice"]
  /** The dotted `_deep_get` paths, split at their dots (DeepGetTwoSteps). */
  const PhotoPaths: seq<seq<string>> := [["image", "src"], ["thumbnail", "src"]]
  const PricePaths: seq<seq<string>> :=
    [["currentPrice", "amount"], ["current_price", "amount"], ["price", "amount"], ["price", "value"]]

  /** Python's `a or b` on looked-up values. */
  function OrJ(a: Option<Json>, b: Option<Json>): (r: Option<Json>)
    ensures TruthyOpt(r) <==> TruthyOpt(a) || TruthyOpt(b)
  {
    if TruthyOpt(a) then a else b
  }

  /** `… or _deep_get(obj, p1) or _deep_get(obj, p2) …` after a first value. */
  function OrPaths(first: Option<Json>, obj: Json, paths: seq<seq<string>>): Option<Json>
    decreases |paths|
  {
    if paths == [] then first
    else OrPaths(OrJ(first, Walk(obj, paths[0])), obj, paths[1..])
  }

  /**
   * The lot URL of an object: its url/href/lotUrl value, joined to the site
   * when it starts with "/"; failing that, a lots path built from the slug
   * or else the id. A truthy url that is not a string has no `startswith`.
   */
  function LotUrl(obj: Json, render: Json -> string): (r: Result<Option<string>, PyError>)
    requires obj.JObj?
    ensures r.Err? <==> TruthyOpt(FirstTruthy(obj, UrlKeys)) && !FirstTruthy(obj, UrlKeys).value.JStr?
    ensures r.Ok? && r.value.Some? ==> r.value.value != ""
    ensures r == Ok(None) <==> !TruthyOpt(FirstTruthy(obj, UrlKeys)) && !TruthyOpt(FirstTruthy(obj, SlugKeys))
                               && !TruthyOpt(FirstTruthy(obj, LotIdKeys))
  {
    var u := FirstTruthy(obj, UrlKeys);
    if TruthyOpt(u) then
      if !u.value.JStr? then Err(AttributeError)
      else if StartsWith(u.value.s, "/") then Ok(Some(Urls.UrlJoin(BaseUrl, u.value.s)))
      else Ok(Some(u.value.s))
    else
      var slug := FirstTruthy(obj, SlugKeys);
      var id := FirstTruthy(obj, LotIdKeys);
      if TruthyOpt(slug) then Ok(Some(LotsPath(PyStr(slug.value, render))))
      else if TruthyOpt(id) then Ok(Some(LotsPath(PyStr(id.value, render))))
      else Ok(None)
  }

  /** `urljoin(base_url, f"/en/lots/{x}")`. */
  function LotsPath(x: string): (r: string)
    ensures r != ""
    ensures Urls.PlainPath(LotPrefix + x) ==> r == BaseUrl + LotPrefix + x
  {
    Urls.JoinPlainPathIf(BaseUrl, LotPrefix + x);
    Urls.UrlJoin(BaseUrl, LotPrefix + x)
  }

  /** `float(str(price).replace(",", "."))`, and 0.0 where that raises. */
  function PriceValue(p: Option<Json>, parseFloat: string -> Option<real>): real {
    if p.None? then 0.0
    else match p.value
      case JInt(i) => i as real
      case JFloat(x) => x
      case JStr(s) => parseFloat(ReplaceAll(s, ",", ".")).GetOr(0.0)
      case _ => 0.0
  }

  /** The photo a record can carry: a string or nothing; anything else fails validation. */
  function PhotoValue(p: Option<Json>): (r: Result<Option<string>, PyError>)
    ensures r.Err? <==> p.Some? && !p.value.JNull? && !p.value.JStr?
  {
    if p.None? || p.value.JNull? then Ok(None)
    else if p.value.JStr? then Ok(Some(p.value.s))
    else Err(ValidationError)
  }

  /** A record made from a JSON object, with the raw id value it was deduplicated on. */
  datatype Lot = Lot(key: HashKey, raw: RawListing)

  /**
   * One candidate of the extraction loop: skipped without a title, without a
   * URL, or with an id already seen; otherwise a record.
   */
  function LotStep(obj: Json, seen: set<HashKey>, category: string, render: Json -> string,
                   parseFloat: string -> Option<real>): (r: Result<Option<Lot>, PyError>)
    requires obj.JObj?
    ensures !TruthyOpt(FirstTruthy(obj, LotTitleKeys)) ==> r == Ok(None)
    ensures r.Ok? && r.value.Some? ==>
      && r.value.value.key !in seen
      && TruthyOpt(FirstTruthy(obj, LotTitleKeys))
      && LotUrl(obj, render).Ok? && LotUrl(obj, render).value.Some?
      && r.value.value.raw.url == LotUrl(obj, render).value.value
      && r.value.value.raw.source == Source
      && |r.value.value.raw.title| <= TitleLimit
  {
    var title := FirstTruthy(obj, LotTitleKeys);
    if !TruthyOpt(title) then Ok(None)
    else match LotUrl(obj, render)
      case Err(e) => Err(e)
      case Ok(None) => Ok(None)
      case Ok(Some(url)) =>
        var id := FirstTruthy(obj, LotIdKeys);
        var external := if TruthyOpt(id) then id.value else JStr(LastSegment(url));
        match HashOf(external)
        case Err(e) => Err(e)
        case Ok(key) =>
          if key in seen then Ok(None)
          else
            var photo := OrPaths(FirstTruthy(obj, PhotoKeys), obj, PhotoPaths);
            var price := OrPaths(FirstTruthy(obj, PriceKeys), obj, PricePaths);
            match PhotoValue(photo)
            case Err(e) => Err(e)
            case Ok(ph) =>
              Ok(Some(Lot(key, ScrapedRaw(Source, PyStr(external, render), url,
                                           SliceTo(PyStr(title.value, render), TitleLimit),
                                           Some(category), ph, PriceValue(price, parseFloat)))))
  }

  /** The extraction loop over the candidates, carrying the ids seen so far. */
  function ExtractAll(cands: seq<Json>, seen: set<HashKey>, category: string,
                      render: Json -> string, parseFloat: string -> Option<real>)
    : Result<seq<Lot>, PyError>
    requires forall x :: x in cands ==> x.JObj?
    decreases |cands|
  {
    if cands == [] then Ok([])
    else match LotStep(cands[0], seen, category, render, parseFloat)
      case Err(e) => Err(e)
      case Ok(None) => ExtractAll(cands[1..], seen, category, render, parseFloat)
      case Ok(Some(l)) => Prepend([l], ExtractAll(cands[1..], seen + {l.key}, category, render, parseFloat))
  }

  function Prepend<T>(xs: seq<T>, r: Result<seq<T>, PyError>): Result<seq<T>, PyError> {
    match r
    case Ok(ys) => Ok(xs + ys)
    case Err(e) => Err(e)
  }

  /** Every parsed blob's candidates, blob by blob; a blob that did not parse gives none. */
  function AllCandidates(blobs: seq<Option<Json>>): (r: seq<Json>)
    ensures forall x :: x in r ==> x.JObj?
  {
    if blobs == [] then []
    else
      var here := if blobs[0].Some? then LotCandidates(blobs[0].value) else [];
      assert forall x :: x in here ==> x.JObj? by {
        if blobs[0].Some? { CandidatesAreObjects(blobs[0].value); }
      }
      here + AllCandidates(blobs[1..])
  }

  function Raws(lots: seq<Lot>): seq<RawListing> {
    seq(|lots|, i requires 0 <= i < |lots| => lots[i].raw)
  }

  /** What `_extract_lots_from_embedded_json` returns for the blobs cut out of a page. */
  function EmbeddedLots(blobs: seq<Option<Json>>, category: string, render: Json -> string,
                        parseFloat: string -> Option<real>): Result<seq<RawListing>, PyError>
  {
    match ExtractAll(AllCandidates(blobs), {}, category, render, parseFloat)
    case Ok(lots) => Ok(Raws(lots))
    case Err(e) => Err(e)
  }

  /** The keys of `lots` avoid `seen` and are pairwise distinct. */
  ghost predicate FreshKeys(lots: seq<Lot>, seen: set<HashKey>) {
    && (forall i :: 0 <= i < |lots| ==> lots[i].key !in seen)
    && (forall i, j :: 0 <= i < j < |lots| ==> lots[i].key != lots[j].key)
  }

  lemma FreshKeysCons(l: Lot, rest: seq<Lot>, seen: set<HashKey>)
    requires l.key !in seen && FreshKeys(rest, seen + {l.key})
    ensures FreshKeys([l] + rest, seen)
  {
    var all := [l] + rest;
    assert forall i :: 1 <= i < |all| ==> all[i] == rest[i - 1];
  }

  /**
   * No two extracted records share a raw id value, and none repeats an id
   * seen before the loop started.
   */
  lemma {:induction false} ExtractAllDistinct(cands: seq<Json>, seen: set<HashKey>, category: string,
                                              render: Json -> string, parseFloat: string -> Option<real>)
    requires forall x :: x in cands ==> x.JObj?
    ensures var r := ExtractAll(cands, seen, category, render, parseFloat);
      r.Ok? ==> FreshKeys(r.value, seen)
    decreases |cands|
  {
    if cands != [] {
      var step := LotStep(cands[0], seen, category, render, parseFloat);
      if step.Ok? && step.value.None? {
        ExtractAllDistinct(cands[1..], seen, category, render, parseFloat);
      } else if step.Ok? {
        var l := step.value.value;
        var rest := ExtractAll(cands[1..], seen + {l.key}, category, render, parseFloat);
        assert ExtractAll(cands, seen, category, render, parseFloat) == Prepend([l], rest);
        ExtractAllDistinct(cands[1..], seen + {l.key}, category, render, parseFloat);
        if rest.Ok? {
          FreshKeysCons(l, rest.value, seen);
        }
      }
    }
  }

  /**
   * A numeric id and the string of its digits are different members of the
   * seen-id set, yet both become the same external id.
   */
  lemma IntAndStringIdsBothKept(i: int, render: Json -> string)
    ensures HashOf(JInt(i)) != HashOf(JStr(IntToString(i)))
    ensures PyStr(JInt(i), render) == PyStr(JStr(IntToString(i)), render)
  {}

  /** One step of the extraction loop, after the records `lots` already made. */
  lemma ExtractAllFront(xs: seq<Json>, lots: seq<Lot>, seen: set<HashKey>, category: string,
                        render: Json -> string, parseFloat: string -> Option<real>)
    requires xs != [] && forall x :: x in xs ==> x.JObj?
    ensures var st := LotStep(xs[0], seen, category, render, parseFloat);
      && (st.Err? ==> Prepend(lots, ExtractAll(xs, seen, category, render, parseFloat)) == Err(st.error))
      && (st.Ok? && st.value.None? ==>
            Prepend(lots, ExtractAll(xs, seen, category, render, parseFloat))
              == Prepend(lots, ExtractAll(xs[1..], seen, category, render, parseFloat)))
      && (st.Ok? && st.value.Some? ==>
            Prepend(lots, ExtractAll(xs, seen, category, render, parseFloat))
              == Prepend(lots + [st.value.value],
                         ExtractAll(xs[1..], seen + {st.value.value.key}, category, render, parseFloat)))
  {
    var st := LotStep(xs[0], seen, category, render, parseFloat);
    if st.Ok? && st.value.Some? {
      var l := st.value.value;
      PrependAppend(lots, l, ExtractAll(xs[1..], seen + {l.key}, category, render, parseFloat));
    }
  }

  lemma PrependNil(r: Result<seq<Lot>, PyError>)
    ensures Prepend([], r) == r
  {
    if r.Ok? { assert [] + r.value == r.value; }
  }

  lemma PrependAppend(lots: seq<Lot>, l: Lot, r: Result<seq<Lot>, PyError>)
    ensures Prepend(lots, Prepend([l], r)) == Prepend(lots + [l], r)
  {
    if r.Ok? { assert lots + ([l] + r.value) == (lots + [l]) + r.value; }
  }

  lemma AllCandidatesFront(blobs: seq<Option<Json>>, b: nat)
    requires b < |blobs|
    ensures AllCandidates(blobs[b..])
         == (if blobs[b].Some? then LotCandidates(blobs[b].value) else []) + AllCandidates(blobs[b + 1..])
  {
    assert blobs[b..][0] == blobs[b] && blobs[b..][1..] == blobs[b + 1..];
  }

  /**
   * The candidate loop for one blob, continuing from the records and ids
   * gathered so far: either the extraction of `cands` is done, leaving the
   * rest of the candidates to come, or a candidate raised `err`.
   */
  method ExtractFrom(cands: seq<Json>, ghost rest: seq<Json>, lots0: seq<Lot>, seen0: set<HashKey>,
                     category: string, render: Json -> string, parseFloat: string -> Option<real>)
    returns (ok: bool, err: PyError, lots: seq<Lot>, seen: set<HashKey>)
    requires forall x :: x in cands ==> x.JObj?
    requires forall x :: x in rest ==> x.JObj?
    ensures ok ==>
      Prepend(lots0, ExtractAll(cands + rest, seen0, category, render, parseFloat))
        == Prepend(lots, ExtractAll(rest, seen, category, render, parseFloat))
    ensures !ok ==> Prepend(lots0, ExtractAll(cands + rest, seen0, category, render, parseFloat)) == Err(err)
  {
    ghost var full := Prepend(lots0, ExtractAll(cands + rest, seen0, category, render, parseFloat));
    ok, err, lots, seen := true, TypeError, lots0, seen0;
    var j := 0;
    assert cands[j..] == cands;
    while j < |cands|
      invariant 0 <= j <= |cands|
      invariant full == Prepend(lots, ExtractAll(cands[j..] + rest, seen, category, render, parseFloat))
    {
      DropFrontConcat(cands, j, rest);
      ExtractAllFront(cands[j..] + rest, lots, seen, category, render, parseFloat);
      var step := LotStep(cands[j], seen, category, render, parseFloat);
      if step.Err? {
        return false, step.error, lots, seen;
      }
      if step.value.Some? {
        var l := step.value.value;
        lots := lots + [l];
        seen := seen + {l.key};
      }
      j := j + 1;
    }
    assert cands[j..] + rest == rest;
  }

  /**
   * `_extract_lots_from_embedded_json` over the script blobs cut out of the
   * page (`None` where `json.loads` fails): every lot-like object of every
   * blob, in order, with raw ids deduplicated.
   */
  method ExtractLotsFromEmbeddedJson(blobs: seq<Option<Json>>, category: string, render: Json -> string,
                                     parseFloat: string -> Option<real>)
    returns (r: Result<seq<RawListing>, PyError>)
    ensures r == EmbeddedLots(blobs, category, render, parseFloat)
  {
    ghost var full := ExtractAll(AllCandidates(blobs), {}, category, render, parseFloat);
    var lots: seq<Lot> := [];
    var seen: set<HashKey> := {};
    var b := 0;
    assert blobs[b..] == blobs;
    PrependNil(full);
    while b < |blobs|
      invariant 0 <= b <= |blobs|
      invariant full == Prepend(lots, ExtractAll(AllCandidates(blobs[b..]), seen, category, render, parseFloat))
    {
      ghost var rest := AllCandidates(blobs[b + 1..]);
      if blobs[b].Some? {
        var cands := WalkJsonForLots(blobs[b].value, []);
        assert AllCandidates(blobs[b..]) == cands + rest && forall x :: x in cands ==> x.JObj? by {
          AllCandidatesFront(blobs, b);
          assert cands == LotCandidates(blobs[b].value);
          CandidatesAreObjects(blobs[b].value);
        }
        var ok, err;
        ok, err, lots, seen := ExtractFrom(cands, rest, lots, seen, category, render, parseFloat);
        if !ok {
          return Err(err);
        }
      } else {
        assert AllCandidates(blobs[b..]) == rest by { AllCandidatesFront(blobs, b); }
      }
      b := b + 1;
    }
    assert blobs[b..] == [] && lots + [] == lots;
    assert full == Ok(lots);
    r := Ok(Raws(lots));
  }

  // ------------------------------------------------------------ page merge

  /** A fetched category page: its lot anchors and its script blobs. */
  datatype Page = Page(anchors: seq<Anchor>, blobs: seq<Option<Json>>)

  /** What each anchor yields, in page order. */
  function AnchorOutcomes(anchors: seq<Anchor>, category: string): (r: seq<Option<RawListing>>)
    ensures |r| == |anchors|
  {
    seq(|anchors|, i requires 0 <= i < |anchors| => RawFromAnchor(anchors[i], category))
  }

  /** A collecting loop that looks at the limit after every outcome, present or not. */
  function Gather<T>(outs: seq<Option<T>>, limit: int, items: seq<T>): seq<T>
    decreases |outs|
  {
    if outs == [] then items
    else
      var next := items + Found(outs[0]);
      if |next| >= limit then next else Gather(outs[1..], limit, next)
  }

  /** The anchor pass: records in anchor order, stopping once `limit` are held. */
  function CardsPass(anchors: seq<Anchor>, category: string, limit: int, items: seq<RawListing>)
    : seq<RawListing>
  {
    Gather(AnchorOutcomes(anchors, category), limit, items)
  }

  function Found<T>(o: Option<T>): seq<T> {
    if o.Some? then [o.value] else []
  }

  /** One step of the collecting loop: outcome `i` is added, then the limit is looked at. */
  lemma GatherStep<T>(outs: seq<Option<T>>, i: int, limit: int, items: seq<T>)
    requires 0 <= i < |outs|
    ensures var next := items + Found(outs[i]);
      Gather(outs[i..], limit, items) == if |next| >= limit then next else Gather(outs[i + 1..], limit, next)
  {
    assert outs[i..][0] == outs[i] && outs[i..][1..] == outs[i + 1..];
  }

  /** Some record already held carries this external id. */
  predicate IdTaken(items: seq<RawListing>, id: string) {
    exists x :: x in items && x.externalId == id
  }

  /** The JSON pass: records whose external id is not yet held, until `limit` are held. */
  function JsonPass(json: seq<RawListing>, limit: int, items: seq<RawListing>): seq<RawListing>
    decreases |json|
  {
    if json == [] then items
    else if IdTaken(items, json[0].externalId) then JsonPass(json[1..], limit, items)
    else
      var next := items + [json[0]];
      if |next| >= limit then next else JsonPass(json[1..], limit, next)
  }

  /**
   * `_parse_lots_from_page`: `None` is a page that could not be fetched.
   * Anchors first; the embedded JSON only when they fall short of `limit`.
   */
  function PageLots(page: Option<Page>, category: string, limit: int, render: Json -> string,
                    parseFloat: string -> Option<real>): Result<seq<RawListing>, PyError>
  {
    if page.None? then Ok([])
    else
      var items := CardsPass(page.value.anchors, category, limit, []);
      if |items| >= limit then Ok(SliceTo(items, limit))
      else match EmbeddedLots(page.value.blobs, category, render, parseFloat)
        case Err(e) => Err(e)
        case Ok(json) => Ok(SliceTo(JsonPass(json, limit, items), limit))
  }

  /** The anchor loop of `_parse_lots_from_page`. */
  method CollectCards(anchors: seq<Anchor>, category: string, limit: int) returns (items: seq<RawListing>)
    ensures items == CardsPass(anchors, category, limit, [])
  {
    ghost var outs := AnchorOutcomes(anchors, category);
    items := [];
    var i := 0;
    while i < |anchors|
      invariant 0 <= i <= |anchors|
      invariant Gather(outs, limit, []) == Gather(outs[i..], limit, items)
    {
      GatherStep(outs, i, limit, items);
      ghost var before := items;
      var rl := RawFromAnchor(anchors[i], category);
      assert outs[i] == rl;
      if rl.Some? {
        items := items + [rl.value];
      }
      assert items == before + Found(rl);
      i := i + 1;
      if |items| >= limit {
        return;
      }
    }
    assert outs[i..] == [];
  }

  /** The JSON loop of `_parse_lots_from_page`, skipping external ids already held. */
  method MergeJson(js: seq<RawListing>, limit: int, init: seq<RawListing>) returns (items: seq<RawListing>)
    requires |init| < limit
    ensures items == JsonPass(js, limit, init)
  {
    items := init;
    var k := 0;
    while k < |js|
      invariant 0 <= k <= |js|
      invariant JsonPass(js, limit, init) == JsonPass(js[k..], limit, items)
      invariant |items| < limit
    {
      assert js[k..][0] == js[k] && js[k..][1..] == js[k + 1..];
      if !IdTaken(items, js[k].externalId) {
        items := items + [js[k]];
        if |items| >= limit {
          return;
        }
      }
      k := k + 1;
    }
  }

  method ParseLotsFromPage(page: Option<Page>, category: string, limit: int, render: Json -> string,
                           parseFloat: string -> Option<real>)
    returns (r: Result<seq<RawListing>, PyError>)
    ensures r == PageLots(page, category, limit, render, parseFloat)
  {
    if page.None? {
      return Ok([]);
    }
    var items := CollectCards(page.value.anchors, category, limit);
    if |items| >= limit {
      return Ok(SliceTo(items, limit));
    }
    var json := ExtractLotsFromEmbeddedJson(page.value.blobs, category, render, parseFloat);
    if json.Err? {
      return Err(json.error);
    }
    items := MergeJson(json.value, limit, items);
    r := Ok(SliceTo(items, limit));
  }

  /**
   * The gathering loop keeps what it was given and adds present outcomes;
   * from fewer than `limit` held it never goes past `limit`, and from any
   * start it adds at most one value once `limit` is reached.
   */
  lemma {:induction false} GatherShape<T>(outs: seq<Option<T>>, limit: int, items: seq<T>)
    ensures var r := Gather(outs, limit, items);
      && |items| <= |r| && r[..|items|] == items
      && (|items| < limit ==> |r| <= limit)
      && |r| <= |items| + |outs|
      && (outs != [] && |items| + 1 >= limit ==> |r| <= |items| + 1)
      && (forall k :: |items| <= k < |r| ==> exists i :: 0 <= i < |outs| && outs[i] == Some(r[k]))
    decreases |outs|
  {
    if outs != [] {
      var next := items + Found(outs[0]);
      if |next| < limit {
        GatherShape(outs[1..], limit, next);
        var r := Gather(outs[1..], limit, next);
        assert r[..|items|] == r[..|next|][..|items|];
        forall k | |items| <= k < |r|
          ensures exists i :: 0 <= i < |outs| && outs[i] == Some(r[k])
        {
          if k < |next| {
            assert r[k] == next[k];
            assert outs[0] == Some(r[k]);
          } else {
            var i :| 0 <= i < |outs[1..]| && outs[1..][i] == Some(r[k]);
            assert outs[i + 1] == Some(r[k]);
          }
        }
      } else {
        forall k | |items| <= k < |next|
          ensures exists i :: 0 <= i < |outs| && outs[i] == Some(next[k])
        {
          assert outs[0] == Some(next[k]);
        }
      }
    }
  }

  /**
   * The anchor pass keeps what it was given and adds records made from
   * anchors; from fewer than `limit` held it never goes past `limit`, and
   * from any start it adds at most one record once `limit` is reached.
   */
  lemma CardsPassShape(anchors: seq<Anchor>, category: string, limit: int, items: seq<RawListing>)
    ensures var r := CardsPass(anchors, category, limit, items);
      && |items| <= |r| && r[..|items|] == items
      && (|items| < limit ==> |r| <= limit)
      && |r| <= |items| + |anchors|
      && (anchors != [] && |items| + 1 >= limit ==> |r| <= |items| + 1)
      && (forall k :: |items| <= k < |r| ==> exists a :: a in anchors && RawFromAnchor(a, category) == Some(r[k]))
  {
    var outs := AnchorOutcomes(anchors, category);
    GatherShape(outs, limit, items);
    var r := CardsPass(anchors, category, limit, items);
    forall k | |items| <= k < |r|
      ensures exists a :: a in anchors && RawFromAnchor(a, category) == Some(r[k])
    {
      var i :| 0 <= i < |outs| && outs[i] == Some(r[k]);
      assert RawFromAnchor(anchors[i], category) == Some(r[k]);
    }
  }


  /**
   * The JSON pass keeps what it was given and adds, in order, records of the
   * JSON list whose external id is held by none before it; from fewer than
   * `limit` held it never goes past `limit`.
   */
  lemma {:induction false} JsonPassFresh(json: seq<RawListing>, limit: int, items: seq<RawListing>)
    ensures var r := JsonPass(json, limit, items);
      && |items| <= |r| && r[..|items|] == items
      && (|items| < limit ==> |r| <= limit)
      && (forall k :: |items| <= k < |r| ==> r[k] in json && !IdTaken(r[..k], r[k].externalId))
    decreases |json|
  {
    if json != [] {
      if IdTaken(items, json[0].externalId) {
        JsonPassFresh(json[1..], limit, items);
        var r := JsonPass(json[1..], limit, items);
        forall k | |items| <= k < |r| ensures r[k] in json { assert r[k] in json[1..]; }
      } else {
        var next := items + [json[0]];
        assert !IdTaken(next[..|items|], next[|items|].externalId) by { assert next[..|items|] == items; }
        if |next| < limit {
          JsonPassFresh(json[1..], limit, next);
          var r := JsonPass(json[1..], limit, next);
          assert r[..|items|] == r[..|next|][..|items|];
          forall k | |items| <= k < |r| ensures r[k] in json && !IdTaken(r[..k], r[k].externalId) {
            if k == |items| {
              assert r[k] == next[k] && r[..k] == next[..k];
            } else {
              assert r[k] in json[1..];
            }
          }
        }
      }
    }
  }

  /**
   * A page never yields more than `limit` records, none when `limit` is not
   * positive; an unfetched page yields none.
   */
  lemma PageLotsBounded(page: Option<Page>, category: string, limit: int, render: Json -> string,
                        parseFloat: string -> Option<real>)
    ensures var r := PageLots(page, category, limit, render, parseFloat);
      && (page.None? ==> r == Ok([]))
      && (r.Ok? ==> |r.value| <= if limit > 0 then limit else 0)
      && (limit <= 0 ==> r == Ok([]))
  {
    if page.Some? {
      var items := CardsPass(page.value.anchors, category, limit, []);
      CardsPassShape(page.value.anchors, category, limit, []);
      if limit <= 0 {
        assert |items| <= 1;
      }
    }
  }

  /**
   * The embedded JSON matters only when the anchors fall short of `limit`:
   * then the anchor records come first and every JSON record after them has
   * an external id held by none before it.
   */
  lemma PageLotsOrder(page: Page, category: string, limit: int, render: Json -> string,
                      parseFloat: string -> Option<real>)
    ensures var cards := CardsPass(page.anchors, category, limit, []);
      var r := PageLots(Some(page), category, limit, render, parseFloat);
      && (|cards| >= limit ==> forall blobs :: PageLots(Some(Page(page.anchors, blobs)), category, limit, render, parseFloat) == r)
      && (|cards| < limit && r.Ok? ==>
            && |cards| <= |r.value| && r.value[..|cards|] == cards
            && EmbeddedLots(page.blobs, category, render, parseFloat).Ok?
            && forall k :: |cards| <= k < |r.value| ==>
                 r.value[k] in EmbeddedLots(page.blobs, category, render, parseFloat).value
                 && !IdTaken(r.value[..k], r.value[k].externalId))
  {
    var cards := CardsPass(page.anchors, category, limit, []);
    var r := PageLots(Some(page), category, limit, render, parseFloat);
    if |cards| < limit && r.Ok? {
      var js := EmbeddedLots(page.blobs, category, render, parseFloat).value;
      JsonPassFresh(js, limit, cards);
      var all := JsonPass(js, limit, cards);
      assert r.value == SliceTo(all, limit) == all;
    }
  }
}
