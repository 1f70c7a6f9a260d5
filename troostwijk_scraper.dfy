// Model of app/scrapers/troostwijk.py: the fixed table of top categories,
// subcategory discovery from the links of a top page, the external id read
// off a lot link, and the card loop of a category page. The page itself is
// an input: its links and cards as the selectors find them.
module TroostwijkScraper {
  import opened Wrappers
  import opened Text
  import opened Schemas
  import opened Scrape
  import Urls

  const Source: string := "troostwijk"
  const BaseUrl: Urls.SiteRoot := "https://www.troostwijkauctions.com"
  const TitleLimit: nat := 180

  // ------------------------------------------------------------ categories

  datatype TopCategory = TopCategory(name: string, slug: string, uuid: string)

  /** The ten top categories, each with the uuid its page needs. */
  const TopCategories: seq<TopCategory> := [
    TopCategory("Agricultural", "agricultural", "ca789c2c-b997-4f21-81d4-0bf285aca622"),
    TopCategory("Construction & Earthmoving", "construction-and-earthmoving", "f77365fe-eaa8-42d1-97fc-b14d0111160c"),
    TopCategory("Metalworking", "metalworking", "0d91005a-fa8e-4e8f-98b1-f4854018329f"),
    TopCategory("Food industry", "food-industry", "56dcb02b-18a2-4f41-b002-2009beddbee5"),
    TopCategory("Transport & Logistics", "transport-and-logistics", "22430513-5e00-4758-9889-a4e52c0bb221"),
    TopCategory("Woodworking", "woodworking", "41176767-df26-4cea-80b5-3024e6ab4916"),
    TopCategory("Retail & Office", "retail-and-office", "256d5fe2-d104-485f-a332-cfb61fd0d56c"),
    TopCategory("More industrial categories", "more-industrial-categories", "6319e404-42d1-4701-87a1-7597c57a4907"),
    TopCategory("Art & Antiques", "art", "34fcdec2-39f3-4248-8569-4c08ed4dd03e"),
    TopCategory("Clothing, shoes, accessories", "clothing-shoes-accessories", "5e9116de-6c73-484b-a136-f2ce256ff11d")
  ]

  /** `[0-9a-fA-F-]`. */
  predicate IsUuidChar(c: char) {
    IsDigit(c) || 'a' <= c <= 'f' || 'A' <= c <= 'F' || c == '-'
  }

  /** `[0-9a-fA-F-]{36}`. */
  predicate IsUuidText(u: string) {
    |u| == 36 && forall i :: 0 <= i < 36 ==> IsUuidChar(u[i])
  }

  /** `list_top_categories`: the fixed table, never fetched. */
  function ListTopCategories(): (r: seq<TopCategory>)
    ensures |r| == 10
    ensures forall i, j :: 0 <= i < j < |r| ==> r[i].slug != r[j].slug
  {
    TopCategories
  }

  // ---------------------------------------------------------- subcategories

  /** A link of a top page: its `href` and its stripped text. */
  datatype SubLink = SubLink(href: Option<string>, text: string)

  datatype SubCategory = SubCategory(topSlug: string, subSlug: string, uuid: string, name: string, url: string)

  /** The length of the run of non-slash characters at the front of `s`. */
  function NonSlashRun(s: string): (n: nat)
    ensures n <= |s|
    ensures forall i :: 0 <= i < n ==> s[i] != '/'
    ensures n < |s| ==> s[n] == '/'
    decreases |s|
  {
    if |s| > 0 && s[0] != '/' then 1 + NonSlashRun(s[1..]) else 0
  }

  /** `(?:/|$|\?)`, where `$` also matches before a final newline. */
  predicate UuidEnd(t: string) {
    t == "" || t == "\n" || t[0] == '/' || t[0] == '?'
  }

  /** The fixed front of a subcategory link under `top`. */
  function SubPrefix(top: string): string {
    "/en/c/" + top + "/"
  }

  /**
   * `re.match(rf"^/en/c/{re.escape(top)}/([^/]+)/({UUID_RE})(?:/|$|\?)", href)`:
   * the subcategory slug and the uuid of a matching link.
   */
  function SubMatch(href: string, top: string): (m: Option<(string, string)>)
    ensures m.Some? ==>
      var (sub, uuid) := m.value;
      var n := |SubPrefix(top) + sub + "/" + uuid|;
      && sub != "" && '/' !in sub && IsUuidText(uuid)
      && n <= |href| && href[..n] == SubPrefix(top) + sub + "/" + uuid && UuidEnd(href[n..])
  {
    var prefix := SubPrefix(top);
    if !StartsWith(href, prefix) then None
    else
      var rest := href[|prefix|..];
      var n := NonSlashRun(rest);
      if n == 0 || n == |rest| then None
      else
        var after := rest[n + 1..];
        if |after| < 36 || !IsUuidText(after[..36]) || !UuidEnd(after[36..]) then None
        else
          var sub, uuid := rest[..n], after[..36];
          assert '/' !in sub by {
            forall i | 0 <= i < |sub| ensures sub[i] != '/' { assert sub[i] == rest[i]; }
          }
          assert href == prefix + rest;
          assert rest == sub + "/" + uuid + after[36..];
          assert href == (prefix + sub + "/" + uuid) + after[36..];
          Some((sub, uuid))
  }

  lemma NonSlashRunOf(a: string, b: string)
    requires '/' !in a
    ensures NonSlashRun(a + "/" + b) == |a|
    decreases |a|
  {
    if |a| > 0 {
      assert (a + "/" + b)[1..] == a[1..] + "/" + b;
      NonSlashRunOf(a[1..], b);
    } else {
      assert (a + "/" + b)[0] == '/';
    }
  }

  /** Every link of the matching shape is matched, with its own slug and uuid. */
  lemma SubMatchComplete(top: string, sub: string, uuid: string, tail: string)
    requires sub != "" && '/' !in sub && IsUuidText(uuid) && UuidEnd(tail)
    ensures SubMatch(SubPrefix(top) + sub + "/" + uuid + tail, top) == Some((sub, uuid))
  {
    var prefix := SubPrefix(top);
    var href := prefix + sub + "/" + uuid + tail;
    var rest := sub + "/" + (uuid + tail);
    assert href == prefix + rest;
    assert StartsWith(href, prefix) by { assert href[..|prefix|] == prefix; }
    assert href[|prefix|..] == rest;
    NonSlashRunOf(sub, uuid + tail);
    assert rest[..|sub|] == sub;
    assert rest[|sub| + 1..] == uuid + tail;
    assert (uuid + tail)[..36] == uuid && (uuid + tail)[36..] == tail;
  }

  /** One link of the discovery loop: a subcategory when it matches. */
  function SubFrom(link: SubLink, top: string): (r: Option<SubCategory>)
    ensures r.Some? <==> SubMatch(link.href.GetOr(""), top).Some?
    ensures r.Some? ==>
      && r.value.topSlug == top && r.value.name == link.text
      && (r.value.subSlug, r.value.uuid) == SubMatch(link.href.GetOr(""), top).value
  {
    var href := link.href.GetOr("");
    match SubMatch(href, top)
    case None => None
    case Some((sub, uuid)) => Some(SubCategory(top, sub, uuid, link.text, Urls.UrlJoin(BaseUrl, href)))
  }

  /** Some subcategory held already has this slug and uuid. */
  predicate Listed(subs: seq<SubCategory>, sub: string, uuid: string) {
    exists sc :: sc in subs && sc.subSlug == sub && sc.uuid == uuid
  }

  /**
   * The discovery loop for any way `make` of reading a link: matching links
   * in page order, a slug and uuid pair kept once. Its properties below do
   * not depend on what `make` does with the href.
   */
  function SubsPassBy(links: seq<SubLink>, make: SubLink -> Option<SubCategory>, subs: seq<SubCategory>): seq<SubCategory>
    decreases |links|
  {
    if links == [] then subs
    else match make(links[0])
      case None => SubsPassBy(links[1..], make, subs)
      case Some(sc) =>
        if Listed(subs, sc.subSlug, sc.uuid) then SubsPassBy(links[1..], make, subs)
        else SubsPassBy(links[1..], make, subs + [sc])
  }

  /** Reading the links of the top category `top`. */
  function Maker(top: string): SubLink -> Option<SubCategory> {
    link => SubFrom(link, top)
  }

  /** The discovery loop of `list_subcategories`. */
  function SubsPass(links: seq<SubLink>, top: string, subs: seq<SubCategory>): seq<SubCategory> {
    SubsPassBy(links, Maker(top), subs)
  }

  /** `list_subcategories` over the links of the fetched top page. */
  method ListSubcategories(links: seq<SubLink>, top: string) returns (subs: seq<SubCategory>)
    ensures subs == SubsPass(links, top, [])
  {
    subs := [];
    var i := 0;
    while i < |links|
      invariant 0 <= i <= |links|
      invariant SubsPass(links, top, []) == SubsPassBy(links[i..], Maker(top), subs)
    {
      assert links[i..][0] == links[i] && links[i..][1..] == links[i + 1..];
      var sc := SubFrom(links[i], top);
      assert Maker(top)(links[i]) == sc;
      if sc.Some? && !Listed(subs, sc.value.subSlug, sc.value.uuid) {
        subs := subs + [sc.value];
      }
      i := i + 1;
    }
  }

  /** No two subcategories share their slug and uuid. */
  ghost predicate Distinct(subs: seq<SubCategory>) {
    forall i, j :: 0 <= i < j < |subs| ==> (subs[i].subSlug, subs[i].uuid) != (subs[j].subSlug, subs[j].uuid)
  }

  /**
   * The loop keeps its result free of repeats, loses nothing it held, and
   * lists every slug and uuid pair some link yields.
   */
  lemma {:induction false} SubsPassByDistinct(links: seq<SubLink>, make: SubLink -> Option<SubCategory>, subs: seq<SubCategory>)
    requires Distinct(subs)
    ensures var r := SubsPassBy(links, make, subs);
      && Distinct(r) && |subs| <= |r| && r[..|subs|] == subs
      && forall i :: 0 <= i < |links| && make(links[i]).Some? ==>
           Listed(r, make(links[i]).value.subSlug, make(links[i]).value.uuid)
    decreases |links|
  {
    if links != [] {
      var sc := make(links[0]);
      var next := if sc.Some? && !Listed(subs, sc.value.subSlug, sc.value.uuid) then subs + [sc.value] else subs;
      assert SubsPassBy(links, make, subs) == SubsPassBy(links[1..], make, next);
      assert Distinct(next) by {
        if next != subs {
          forall i | 0 <= i < |subs|
            ensures (subs[i].subSlug, subs[i].uuid) != (sc.value.subSlug, sc.value.uuid)
          {
            assert subs[i] in subs;
          }
        }
      }
      SubsPassByDistinct(links[1..], make, next);
      var r := SubsPassBy(links[1..], make, next);
      assert r[..|subs|] == r[..|next|][..|subs|];
      forall i | 0 <= i < |links| && make(links[i]).Some?
        ensures Listed(r, make(links[i]).value.subSlug, make(links[i]).value.uuid)
      {
        if i == 0 {
          var x := sc.value;
          if Listed(subs, x.subSlug, x.uuid) {
            var y :| y in subs && y.subSlug == x.subSlug && y.uuid == x.uuid;
            var k :| 0 <= k < |subs| && subs[k] == y;
            assert r[k] == y;
          } else {
            assert r[|subs|] == next[|subs|] == x;
          }
        } else {
          assert links[i] == links[1..][i - 1];
        }
      }
    }
  }

  /** `list_subcategories` lists no (sub_slug, uuid) twice, and lists each one a link matches. */
  lemma SubsPassDistinct(links: seq<SubLink>, top: string, subs: seq<SubCategory>)
    requires Distinct(subs)
    ensures var r := SubsPass(links, top, subs);
      && Distinct(r) && |subs| <= |r| && r[..|subs|] == subs
      && forall i :: 0 <= i < |links| && SubFrom(links[i], top).Some? ==>
           Listed(r, SubFrom(links[i], top).value.subSlug, SubFrom(links[i], top).value.uuid)
  {
    SubsPassByDistinct(links, Maker(top), subs);
    forall i | 0 <= i < |links|
      ensures Maker(top)(links[i]) == SubFrom(links[i], top)
    {
    }
  }

  function KeyOfSub(sc: SubCategory): (string, string) {
    (sc.subSlug, sc.uuid)
  }

  /** Link `i` makes `sc`, and no earlier link makes one with its slug and uuid. */
  predicate FirstWithBy(links: seq<SubLink>, make: SubLink -> Option<SubCategory>, i: int, sc: SubCategory) {
    && 0 <= i < |links| && make(links[i]) == Some(sc)
    && forall j :: 0 <= j < i && make(links[j]).Some? ==> KeyOfSub(make(links[j]).value) != KeyOfSub(sc)
  }

  /**
   * The first link that yields a given slug and uuid is the one kept: every
   * entry added is the one its earliest yielding link makes. With
   * `make == Maker(top)` this is `list_subcategories` (SubsPass).
   */
  lemma {:induction false} SubsPassByFirstKept(links: seq<SubLink>, make: SubLink -> Option<SubCategory>, subs: seq<SubCategory>)
    ensures var r := SubsPassBy(links, make, subs);
      forall k :: |subs| <= k < |r| ==>
        !Listed(subs, r[k].subSlug, r[k].uuid) && exists i :: FirstWithBy(links, make, i, r[k])
    decreases |links|
  {
    if links != [] {
      var sc := make(links[0]);
      var added := sc.Some? && !Listed(subs, sc.value.subSlug, sc.value.uuid);
      var next := if added then subs + [sc.value] else subs;
      assert SubsPassBy(links, make, subs) == SubsPassBy(links[1..], make, next);
      SubsPassByFirstKept(links[1..], make, next);
      SubsPassByKeeps(links[1..], make, next);
      var r := SubsPassBy(links[1..], make, next);
      forall k | |subs| <= k < |r|
        ensures !Listed(subs, r[k].subSlug, r[k].uuid)
        ensures exists i :: FirstWithBy(links, make, i, r[k])
      {
        if added && k == |subs| {
          assert r[k] == next[k] == sc.value;
          assert make(links[0]) == Some(r[k]);
          assert FirstWithBy(links, make, 0, r[k]);
        } else {
          assert !Listed(next, r[k].subSlug, r[k].uuid);
          assert !Listed(subs, r[k].subSlug, r[k].uuid);
          var i :| FirstWithBy(links[1..], make, i, r[k]);
          assert make(links[i + 1]) == Some(r[k]);
          forall j | 0 <= j < i + 1 && make(links[j]).Some?
            ensures KeyOfSub(make(links[j]).value) != KeyOfSub(r[k])
          {
            if j == 0 {
              if !added {
                var y :| y in subs && y.subSlug == sc.value.subSlug && y.uuid == sc.value.uuid;
                assert y in next;
              } else {
                assert sc.value in next;
              }
            } else {
              assert links[j] == links[1..][j - 1];
            }
          }
          assert FirstWithBy(links, make, i + 1, r[k]);
        }
      }
    }
  }

  /** The loop only ever appends to what it holds. */
  lemma {:induction false} SubsPassByKeeps(links: seq<SubLink>, make: SubLink -> Option<SubCategory>, subs: seq<SubCategory>)
    ensures var r := SubsPassBy(links, make, subs); |subs| <= |r| && r[..|subs|] == subs
    decreases |links|
  {
    if links != [] {
      var sc := make(links[0]);
      var next := if sc.Some? && !Listed(subs, sc.value.subSlug, sc.value.uuid) then subs + [sc.value] else subs;
      assert SubsPassBy(links, make, subs) == SubsPassBy(links[1..], make, next);
      SubsPassByKeeps(links[1..], make, next);
      var r := SubsPassBy(links[1..], make, next);
      assert r[..|subs|] == r[..|next|][..|subs|];
    }
  }

  // ----------------------------------------------------------- external id

  /** `[\d-]`. */
  predicate IsIdChar(c: char) {
    IsDigit(c) || c == '-'
  }

  /** The length of the run of `[\d-]` at the front of `s`. */
  function IdRun(s: string): (n: nat)
    ensures n <= |s|
    ensures forall i :: 0 <= i < n ==> IsIdChar(s[i])
    ensures n < |s| ==> !IsIdChar(s[n])
    decreases |s|
  {
    if |s| > 0 && IsIdChar(s[0]) then 1 + IdRun(s[1..]) else 0
  }

  /** `-(A1-[\d-]+)` can start at `q`. */
  predicate A1Here(h: string, q: int) {
    0 <= q && q + 5 <= |h| && h[q..q + 4] == "-A1-" && IsIdChar(h[q + 4])
  }

  /** The largest `q` with `lo < q <= hi` where `-A1-` and an id character start. */
  function LastA1(h: string, lo: int, hi: int): (r: Option<int>)
    ensures r.Some? ==> lo < r.value <= hi && A1Here(h, r.value)
    ensures r.Some? ==> forall q :: r.value < q <= hi ==> !A1Here(h, q)
    ensures r.None? ==> forall q :: lo < q <= hi ==> !A1Here(h, q)
    decreases hi - lo
  {
    if hi <= lo then None
    else if A1Here(h, hi) then Some(hi)
    else LastA1(h, lo, hi - 1)
  }

  /**
   * `[^/]+-(A1-[\d-]+)` right after a "/l/" ending at `start`: the greedy
   * run of non-slash characters gives back characters until the rest matches,
   * so the group starts at the last `-A1-` of the path segment.
   */
  function A1From(h: string, start: nat): (g: Option<string>)
    requires start <= |h|
    ensures g.Some? ==> |g.value| > 3 && g.value[..3] == "A1-"
                        && forall i :: 3 <= i < |g.value| ==> IsIdChar(g.value[i])
  {
    var e := start + NonSlashRun(h[start..]);
    match LastA1(h, start, e - 1)
    case None => None
    case Some(q) =>
      var d := h[q + 4..];
      var n := IdRun(d);
      Some("A1-" + d[..n])
  }

  /** `re.search(r"/l/[^/]+-(A1-[\d-]+)", h)` from position `p` on: the leftmost match. */
  function A1Search(h: string, p: nat): (g: Option<string>)
    ensures g.Some? ==> |g.value| > 3 && g.value[..3] == "A1-"
                        && forall i :: 3 <= i < |g.value| ==> IsIdChar(g.value[i])
    decreases |h| - p
  {
    if p + 3 > |h| then None
    else if OccursAt("/l/", h, p) && A1From(h, p + 3).Some? then A1From(h, p + 3)
    else A1Search(h, p + 1)
  }

  /**
   * `.*?-(\d+)` from `q`: the first "-" followed by a digit, where the lazy
   * `.*?` cannot cross a newline.
   */
  function FirstDash(h: string, q: nat): (r: Option<nat>)
    ensures r.Some? ==> q <= r.value && r.value + 1 < |h| && h[r.value] == '-' && IsDigit(h[r.value + 1])
    decreases |h| - q
  {
    if q + 1 >= |h| then None
    else if h[q] == '-' && IsDigit(h[q + 1]) then Some(q)
    else if h[q] == '\n' then None
    else FirstDash(h, q + 1)
  }

  /** `re.search(r"/l/.*?-(\d+)", h)` from position `p` on: the leftmost match. */
  function DigitsSearch(h: string, p: nat): (g: Option<string>)
    ensures g.Some? ==> g.value != [] && forall i :: 0 <= i < |g.value| ==> IsDigit(g.value[i])
    decreases |h| - p
  {
    if p + 3 > |h| then None
    else if OccursAt("/l/", h, p) && FirstDash(h, p + 3).Some? then
      var d := h[FirstDash(h, p + 3).value + 1..];
      Some(d[..DigitRun(d)])
    else DigitsSearch(h, p + 1)
  }

  /** The external id of a lot link: the `A1-…` suffix, else the first `-digits`, else the link itself. */
  function ExternalId(href: string): (id: string)
    ensures A1Search(href, 0).Some? ==> id == A1Search(href, 0).value && id[..3] == "A1-"
    ensures A1Search(href, 0).None? && DigitsSearch(href, 0).Some? ==>
      id == DigitsSearch(href, 0).value && id != [] && forall i :: 0 <= i < |id| ==> IsDigit(id[i])
    ensures A1Search(href, 0).None? && DigitsSearch(href, 0).None? ==> id == href
  {
    match A1Search(href, 0)
    case Some(g) => g
    case None => DigitsSearch(href, 0).GetOr(href)
  }

  /** No search finds anything at or after `p` when "/l/" never occurs there. */
  lemma {:induction false} NoLotPathNoMatch(h: string, p: nat)
    requires forall i :: p <= i ==> !OccursAt("/l/", h, i)
    ensures A1Search(h, p).None? && DigitsSearch(h, p).None?
    decreases |h| - p
  {
    if p + 3 <= |h| {
      NoLotPathNoMatch(h, p + 1);
    }
  }

  /** A link without "/l/" is its own external id. */
  lemma NoLotPathKeepsHref(href: string)
    requires !Contains(href, "/l/")
    ensures ExternalId(href) == href
  {
    forall i | 0 <= i
      ensures !OccursAt("/l/", href, i)
    {
    }
    NoLotPathNoMatch(href, 0);
  }

  /**
   * A lot link "/l/<name>-A1-<id>" yields "A1-<id>", even when the name
   * holds an "-A1-" of its own: the last one in the segment wins.
   */
  lemma A1Suffix(name: string, d: string)
    requires name != [] && '/' !in name
    requires d != [] && forall i :: 0 <= i < |d| ==> IsIdChar(d[i])
    ensures ExternalId("/l/" + name + "-A1-" + d) == "A1-" + d
  {
    var h := "/l/" + name + "-A1-" + d;
    var q := 3 + |name|;
    assert h[..3] == "/l/" && OccursAt("/l/", h, 0);
    A1SuffixSegment(name, d);
    NonSlashRunAll(h[3..]);
    A1SuffixLast(name, d);
    assert LastA1(h, 3, |h| - 1) == Some(q);
    assert h[q + 4..] == d;
    IdRunAll(d);
    assert d[..|d|] == d;
  }

  /**
   * A lot link "/l/<name>-<digits>" without any "-A1-" falls back to the
   * `-(\d+)` match and yields the digits, e.g. "/l/name-123" has id "123".
   */
  lemma DigitsSuffix(name: string, d: string)
    requires '/' !in name && '-' !in name && '\n' !in name
    requires d != [] && forall i :: 0 <= i < |d| ==> IsDigit(d[i])
    ensures ExternalId("/l/" + name + "-" + d) == d
  {
    var h := "/l/" + name + "-" + d;
    var q := 3 + |name|;
    DigitsSuffixChars(name, d);
    assert h[..3] == "/l/" && OccursAt("/l/", h, 0);
    forall p | 1 <= p ensures !OccursAt("/l/", h, p) {
      if p + 3 <= |h| { assert h[p..p + 3][2] == h[p + 2]; }
    }
    NoLotPathNoMatch(h, 1);
    assert LastA1(h, 3, 3 + NonSlashRun(h[3..]) - 1).None? by {
      forall k | 3 < k <= |h| - 1 ensures !A1Here(h, k) {
        if k + 5 <= |h| { assert h[k..k + 4][0] == h[k] && h[k..k + 4][1] == h[k + 1]; }
      }
    }
    FirstDashAt(h, 3, q);
    assert h[q + 1..] == d;
    assert DigitRun(d) == |d|;
    assert d[..|d|] == d;
  }

  /** "/l/name-123" has external id "123". */
  lemma DigitsSuffixExample()
    ensures ExternalId("/l/name-123") == "123"
  {
    assert "/l/name-123" == "/l/" + "name" + "-" + "123";
    DigitsSuffix("name", "123");
  }

  /** Where the characters of "/l/<name>-<digits>" come from. */
  lemma DigitsSuffixChars(name: string, d: string)
    requires '/' !in name && '-' !in name && '\n' !in name
    requires forall i :: 0 <= i < |d| ==> IsDigit(d[i])
    ensures var h := "/l/" + name + "-" + d; var q := 3 + |name|;
      q + 1 <= |h| && h[q] == '-' && h[q + 1..] == d
      && (forall k :: 3 <= k < |h| ==> h[k] != '/')
      && (forall k :: 3 <= k < |h| && k != q ==> h[k] != '-')
      && (forall k :: 3 <= k < q ==> h[k] != '\n')
  {
    var h := "/l/" + name + "-" + d;
    var q := 3 + |name|;
    forall k | 3 <= k < |h| ensures h[k] != '/' && (k != q ==> h[k] != '-') && (k < q ==> h[k] != '\n') {
      if k < q { assert h[k] == name[k - 3]; }
      else if k > q { assert h[k] == d[k - q - 1]; }
    }
    assert h[q + 1..] == d;
  }

  /** `FirstDash` stops at the first "-digit", scanning past a line with neither. */
  lemma {:induction false} FirstDashAt(h: string, k: nat, q: nat)
    requires k <= q && q + 1 < |h| && h[q] == '-' && IsDigit(h[q + 1])
    requires forall j :: k <= j < q ==> h[j] != '-' && h[j] != '\n'
    ensures FirstDash(h, k) == Some(q)
    decreases q - k
  {
    if k < q {
      FirstDashAt(h, k + 1, q);
    }
  }

  lemma A1SuffixSegment(name: string, d: string)
    requires '/' !in name
    requires forall i :: 0 <= i < |d| ==> IsIdChar(d[i])
    ensures var h := "/l/" + name + "-A1-" + d; '/' !in h[3..]
  {
    var h := "/l/" + name + "-A1-" + d;
    var t := h[3..];
    assert t == name + "-A1-" + d;
    forall i | 0 <= i < |t| ensures t[i] != '/' {
      if i < |name| { assert t[i] == name[i]; }
      else if i < |name| + 4 { assert t[i] == "-A1-"[i - |name|]; }
      else { assert t[i] == d[i - |name| - 4]; }
    }
  }

  lemma A1SuffixLast(name: string, d: string)
    requires d != [] && forall i :: 0 <= i < |d| ==> IsIdChar(d[i])
    ensures var h := "/l/" + name + "-A1-" + d; var q := 3 + |name|;
      A1Here(h, q) && forall q' :: q < q' <= |h| - 1 ==> !A1Here(h, q')
  {
    var h := "/l/" + name + "-A1-" + d;
    var q := 3 + |name|;
    assert h[q..q + 4] == "-A1-" && h[q + 4] == d[0];
    assert h[q + 1] == 'A' && h[q + 2] == '1' && h[q + 3] == '-';
    forall q' | q < q' <= |h| - 1 ensures !A1Here(h, q') {
      assert q' + 1 < q + 4 || q' + 1 >= |h| || h[q' + 1] == d[q' + 1 - q - 4];
    }
  }

  lemma {:induction false} NonSlashRunAll(s: string)
    requires '/' !in s
    ensures NonSlashRun(s) == |s|
    decreases |s|
  {
    if |s| > 0 {
      assert '/' !in s[1..] by { forall i | 0 <= i < |s[1..]| ensures s[1..][i] != '/' { assert s[1..][i] == s[i + 1]; } }
      NonSlashRunAll(s[1..]);
    }
  }

  lemma {:induction false} IdRunAll(s: string)
    requires forall i :: 0 <= i < |s| ==> IsIdChar(s[i])
    ensures IdRun(s) == |s|
    decreases |s|
  {
    if |s| > 0 {
      IdRunAll(s[1..]);
    }
  }

  // ------------------------------------------------------------------ cards

  /** The lot link of a card: its `href` and its stripped text. */
  datatype Link = Link(href: Option<string>, text: string)

  /**
   * A listing card as the page selectors find it: its lot link (the first
   * one inside it, or the card itself when it is a link), its first image
   * and the first euro string inside it.
   */
  datatype Card = Card(link: Option<Link>, img: Option<Img>, priceText: Option<string>)

  /** One card of `_parse_lots_from_page`: a record unless it has no link or an empty title. */
  function RawFromCard(card: Card, category: string): (r: Option<RawListing>)
  {
    if card.link.None? then None
    else
      var href := card.link.value.href.GetOr("");
      var title := SliceTo(card.link.value.text, TitleLimit);
      if title == "" then None
      else Some(ScrapedRaw(Source, ExternalId(href), Urls.UrlJoin(BaseUrl, href), title, Some(category),
                           PhotoOf(card.img), ParsePrice(card.priceText)))
  }

  /**
   * A card makes a record exactly when it has a link with a non-empty
   * title; the record is identified by the link's external id and carries
   * the title cut to 180 characters.
   */
  lemma RawFromCardFields(card: Card, category: string)
    ensures var r := RawFromCard(card, category);
      && (r.Some? <==> card.link.Some? && card.link.value.text != "")
      && (r.Some? ==>
            var href := card.link.value.href.GetOr("");
            && r.value.source == Source
            && r.value.externalId == ExternalId(href)
            && r.value.url == Urls.UrlJoin(BaseUrl, href)
            && (Urls.PlainPath(href) ==> r.value.url == BaseUrl + href)
            && 0 < |r.value.title| <= TitleLimit && |r.value.title| <= |card.link.value.text|
            && r.value.title == card.link.value.text[..|r.value.title|]
            && r.value.category == Some(category)
            && r.value.photoUrl == PhotoOf(card.img) && r.value.priceValue == ParsePrice(card.priceText))
  {
    if card.link.Some? {
      Urls.JoinPlainPathIf(BaseUrl, card.link.value.href.GetOr(""));
    }
  }

  /** What each card yields, in page order. */
  function Outcomes(cards: seq<Card>, category: string): (r: seq<Option<RawListing>>)
    ensures |r| == |cards|
  {
    seq(|cards|, i requires 0 <= i < |cards| => RawFromCard(cards[i], category))
  }

  /** The values among `outs`, in order. */
  function Somes<T>(outs: seq<Option<T>>): seq<T>
    decreases |outs|
  {
    if outs == [] then []
    else (if outs[0].Some? then [outs[0].value] else []) + Somes(outs[1..])
  }

  /** A collecting loop that looks at the limit only after it appends a value. */
  function Collect<T>(outs: seq<Option<T>>, limit: int, items: seq<T>): seq<T>
    decreases |outs|
  {
    if outs == [] then items
    else match outs[0]
      case None => Collect(outs[1..], limit, items)
      case Some(r) =>
        var next := items + [r];
        if |next| >= limit then next else Collect(outs[1..], limit, next)
  }

  /** The records the cards yield, in page order, with no limit. */
  function Records(cards: seq<Card>, category: string): seq<RawListing> {
    Somes(Outcomes(cards, category))
  }

  /** The card loop of `_parse_lots_from_page`, from the records collected so far. */
  function CardsPass(cards: seq<Card>, category: string, limit: int, items: seq<RawListing>)
    : seq<RawListing>
  {
    Collect(Outcomes(cards, category), limit, items)
  }

  /** `_parse_lots_from_page` over the cards of the fetched page. */
  method ParseLotsFromPage(cards: seq<Card>, category: string, limit: int) returns (items: seq<RawListing>)
    ensures items == CardsPass(cards, category, limit, [])
  {
    ghost var outs := Outcomes(cards, category);
    items := [];
    var i := 0;
    while i < |cards|
      invariant 0 <= i <= |cards|
      invariant Collect(outs, limit, []) == Collect(outs[i..], limit, items)
    {
      assert outs[i..][0] == outs[i] && outs[i..][1..] == outs[i + 1..];
      var rl := RawFromCard(cards[i], category);
      assert outs[i] == rl;
      i := i + 1;
      if rl.Some? {
        items := items + [rl.value];
        if |items| >= limit {
          return;
        }
      }
    }
    assert outs[i..] == [];
  }

  /** How many records the card loop can collect: `limit`, but one even when `limit` is not positive. */
  function Cap(limit: int): nat {
    if limit >= 1 then limit else 1
  }

  /** Taking one more than `n` from a sequence with a first element. */
  lemma SliceToCons<T>(x: T, rest: seq<T>, n: nat)
    ensures SliceTo([x] + rest, n + 1) == [x] + SliceTo(rest, n)
  {
    if n < |rest| {
      assert ([x] + rest)[..n + 1] == [x] + rest[..n];
    }
  }

  /** Appending the next value and then taking one less is taking from the value onwards. */
  lemma PushSlice<T>(items: seq<T>, r: T, rest: seq<T>, room: nat)
    requires room >= 1
    ensures (items + [r]) + SliceTo(rest, room - 1) == items + SliceTo([r] + rest, room)
  {
    SliceToCons(r, rest, room - 1);
    assert (items + [r]) + SliceTo(rest, room - 1) == items + ([r] + SliceTo(rest, room - 1));
  }

  /** The values of outcomes with a first element. */
  lemma SomesFront<T>(outs: seq<Option<T>>)
    requires outs != []
    ensures outs[0].None? ==> Somes(outs) == Somes(outs[1..])
    ensures outs[0].Some? ==> Somes(outs) == [outs[0].value] + Somes(outs[1..])
  {
    if outs[0].None? {
      assert [] + Somes(outs[1..]) == Somes(outs[1..]);
    }
  }

  /** From fewer than the cap held, the loop adds the next values until the cap. */
  lemma {:induction false} CollectTakes<T>(outs: seq<Option<T>>, limit: int, items: seq<T>)
    requires |items| < Cap(limit)
    requires limit >= 1 || items == []
    ensures Collect(outs, limit, items) == items + SliceTo(Somes(outs), Cap(limit) - |items|)
    decreases |outs|
  {
    if outs == [] {
      assert items + [] == items;
    } else {
      SomesFront(outs);
      var rest := Somes(outs[1..]);
      var room := Cap(limit) - |items|;
      if outs[0].None? {
        CollectTakes(outs[1..], limit, items);
      } else {
        var r := outs[0].value;
        if |items + [r]| >= limit {
          PushSlice(items, r, rest, 1);
        } else {
          CollectTakes(outs[1..], limit, items + [r]);
          PushSlice(items, r, rest, room);
        }
      }
    }
  }

  /**
   * A page yields its first records up to the limit, in page order, and a
   * single record when the limit is zero or negative.
   */
  lemma ParseLotsFromPageSpec(cards: seq<Card>, category: string, limit: int)
    ensures CardsPass(cards, category, limit, []) == SliceTo(Records(cards, category), Cap(limit))
  {
    CollectTakes(Outcomes(cards, category), limit, []);
    assert [] + SliceTo(Records(cards, category), Cap(limit)) == SliceTo(Records(cards, category), Cap(limit));
  }

  /** The values among `outs` are the present outcomes, at most one per outcome. */
  lemma {:induction false} SomesFrom<T>(outs: seq<Option<T>>)
    ensures |Somes(outs)| <= |outs|
    ensures forall x :: x in Somes(outs) ==> exists i :: 0 <= i < |outs| && outs[i] == Some(x)
    decreases |outs|
  {
    if outs != [] {
      SomesFrom(outs[1..]);
      forall x | x in Somes(outs) ensures exists i :: 0 <= i < |outs| && outs[i] == Some(x) {
        if x !in Somes(outs[1..]) {
          assert outs[0] == Some(x);
        } else {
          var i :| 0 <= i < |outs[1..]| && outs[1..][i] == Some(x);
          assert outs[i + 1] == Some(x);
        }
      }
    }
  }

  /** Every record of the page comes from one of its cards, at most one per card. */
  lemma RecordsOfCards(cards: seq<Card>, category: string)
    ensures |Records(cards, category)| <= |cards|
    ensures forall r :: r in Records(cards, category) ==>
      exists c :: c in cards && RawFromCard(c, category) == Some(r)
  {
    var outs := Outcomes(cards, category);
    SomesFrom(outs);
    forall r | r in Records(cards, category)
      ensures exists c :: c in cards && RawFromCard(c, category) == Some(r)
    {
      var i :| 0 <= i < |outs| && outs[i] == Some(r);
      assert RawFromCard(cards[i], category) == Some(r);
    }
  }

  // --------------------------------------------------------------- fetching

  /** The page of a top category. */
  function CategoryPageUrl(topSlug: string, topUuid: string): string {
    BaseUrl + "/en/c/" + topSlug + "/" + topUuid
  }

  /** The page of a subcategory. */
  function SubcategoryPageUrl(topSlug: string, subSlug: string, uuid: string): string {
    BaseUrl + "/en/c/" + topSlug + "/" + subSlug + "/" + uuid
  }

  /** The category a subcategory's records are filed under. */
  function SubcategoryLabel(topSlug: string, subSlug: string): string {
    topSlug + "/" + subSlug
  }
}
