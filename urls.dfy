/**
 * Python's `urllib.parse.urljoin`, as in Python 3.12, against a site root:
 * the scrapers complete every link they find by joining it to their base
 * URL. `urlsplit` and `urlparse` take the reference apart, the dot segments
 * of its path are resolved, and `urlunparse` puts the pieces together again.
 */
module Urls {
  import opened Text
  import opened Seqs

  // --------------------------------------------------------------- site roots

  /** A character of a plain host name: printable ASCII, no delimiter, no bracket. */
  predicate HostChar(c: char) {
    ' ' < c <= '~' && c != '/' && c != '?' && c != '#' && c != '[' && c != ']'
  }

  predicate IsSiteRoot(b: string) {
    |b| > 8 && b[..8] == "https://" && forall i :: 8 <= i < |b| ==> HostChar(b[i])
  }

  /** A base URL of the https scheme and a host only: no path, query or fragment. */
  type SiteRoot = b: string | IsSiteRoot(b) witness "https://a"

  // ------------------------------------------------------------ finding text

  /** `s.find(c, start)`: the first index of `c` from `start` on, or -1. */
  function FindFrom(s: string, c: char, start: nat): (i: int)
    requires start <= |s|
    ensures -1 <= i < |s|
    ensures i == -1 <==> c !in s[start..]
    ensures 0 <= i ==> start <= i && s[i] == c && c !in s[start..i]
    decreases |s| - start
  {
    if start == |s| then -1
    else if s[start] == c then start
    else
      var i := FindFrom(s, c, start + 1);
      assert s[start..] == [s[start]] + s[start + 1..];
      assert 0 <= i ==> s[start..i] == [s[start]] + s[start + 1..i];
      i
  }

  /** `s.rfind(c)`: the last index of `c`, or -1. */
  function RFind(s: string, c: char): (i: int)
    ensures -1 <= i < |s|
    ensures i == -1 <==> c !in s
    ensures 0 <= i ==> s[i] == c && c !in s[i + 1..]
  {
    if s == [] then -1
    else if s[|s| - 1] == c then |s| - 1
    else
      var i := RFind(s[..|s| - 1], c);
      assert s == s[..|s| - 1] + [s[|s| - 1]];
      assert 0 <= i ==> s[i + 1..] == s[..|s| - 1][i + 1..] + [s[|s| - 1]];
      i
  }

  // ------------------------------------------------------------------ urlsplit

  /** `_WHATWG_C0_CONTROL_OR_SPACE`: the characters `urlsplit` strips from the front. */
  predicate IsC0OrSpace(c: char) { c <= ' ' }

  /** `_UNSAFE_URL_BYTES_TO_REMOVE`: tab, carriage return and newline, removed everywhere. */
  predicate IsUnsafe(c: char) { c == '\t' || c == '\r' || c == '\n' }

  predicate NoUnsafe(s: string) { forall i :: 0 <= i < |s| ==> !IsUnsafe(s[i]) }

  /** `url.lstrip(_WHATWG_C0_CONTROL_OR_SPACE)`. */
  function StripC0(s: string): (r: string)
    ensures |r| <= |s|
    ensures forall i :: 0 <= i < |s| - |r| ==> IsC0OrSpace(s[i])
    ensures r == [] || !IsC0OrSpace(r[0])
  {
    if s != [] && IsC0OrSpace(s[0]) then StripC0(s[1..]) else s
  }

  /** Stripping keeps a suffix of the text. */
  lemma {:induction false} StripC0Suffix(s: string)
    ensures StripC0(s) == s[|s| - |StripC0(s)|..]
    decreases |s|
  {
    if s != [] && IsC0OrSpace(s[0]) {
      StripC0Suffix(s[1..]);
      assert s[1..][|s[1..]| - |StripC0(s[1..])|..] == s[|s| - |StripC0(s)|..];
    }
  }

  /** `url.replace(b, "")` for each unsafe character `b`. */
  function RemoveUnsafe(s: string): (r: string)
    ensures |r| <= |s| && NoUnsafe(r)
  {
    if s == [] then []
    else (if IsUnsafe(s[0]) then [] else [s[0]]) + RemoveUnsafe(s[1..])
  }

  /** Removal keeps a text that has nothing to remove. */
  lemma {:induction false} RemoveUnsafeNoop(s: string)
    requires NoUnsafe(s)
    ensures RemoveUnsafe(s) == s
  {
    if s != [] {
      RemoveUnsafeNoop(s[1..]);
      assert [s[0]] + s[1..] == s;
    }
  }

  /** Removal works on the two halves of a text independently. */
  lemma {:induction false} RemoveUnsafeAppend(a: string, b: string)
    ensures RemoveUnsafe(a + b) == RemoveUnsafe(a) + RemoveUnsafe(b)
  {
    if a != [] {
      RemoveUnsafeAppend(a[1..], b);
      assert (a + b)[1..] == a[1..] + b;
    } else {
      assert a + b == b;
    }
  }

  /** What `urlsplit` reads: the reference stripped in front and without unsafe characters. */
  function Cleaned(url: string): string {
    RemoveUnsafe(StripC0(url))
  }

  /** A text that does not start with a control character or space and holds no unsafe character reads as itself. */
  lemma CleanedNoop(url: string)
    requires url == [] || !IsC0OrSpace(url[0])
    requires NoUnsafe(url)
    ensures Cleaned(url) == url
  {
    RemoveUnsafeNoop(url);
  }

  predicate IsAsciiLetter(c: char) { 'a' <= c <= 'z' || 'A' <= c <= 'Z' }

  /** `scheme_chars`: ASCII letters, digits, "+", "-" and ".". */
  predicate IsSchemeChar(c: char) { IsAsciiLetter(c) || IsDigit(c) || c == '+' || c == '-' || c == '.' }

  /**
   * The scheme step of `urlsplit`: the text before the first ":", lowercased,
   * when it starts with an ASCII letter and holds only scheme characters;
   * otherwise the default scheme and the whole text.
   */
  function SplitScheme(url: string, default: string): (r: (string, string))
    ensures r == (default, url)
            || (var i := |url| - |r.1| - 1;
                0 < i && url[i] == ':' && ':' !in url[..i] && r.1 == url[i + 1..] && r.0 == Lower(url[..i]))
    ensures url != [] && !IsAsciiLetter(url[0]) ==> r == (default, url)
    ensures ':' !in url ==> r == (default, url)
  {
    var i := FindFrom(url, ':', 0);
    if 0 < i && IsAsciiLetter(url[0]) && forall k :: 0 <= k < i ==> IsSchemeChar(url[k]) then
      (Lower(url[..i]), url[i + 1..])
    else (default, url)
  }

  /** `_splitnetloc(url, start)`: the network location ends at the first "/", "?" or "#". */
  function NetlocEnd(s: string, start: nat): (d: nat)
    requires start <= |s|
    ensures start <= d <= |s|
    ensures forall k :: start <= k < d ==> s[k] != '/' && s[k] != '?' && s[k] != '#'
    ensures d < |s| ==> s[d] == '/' || s[d] == '?' || s[d] == '#'
    decreases |s| - start
  {
    if start == |s| || s[start] == '/' || s[start] == '?' || s[start] == '#' then start
    else NetlocEnd(s, start + 1)
  }

  /** Python's `s.split(c, 1)` when `c` occurs, and `(s, "")` when it does not. */
  function SplitOnce(s: string, c: char): (r: (string, string))
    ensures c !in s ==> r == (s, "")
    ensures c in s ==> s == r.0 + [c] + r.1 && c !in r.0
  {
    var i := FindFrom(s, c, 0);
    if i < 0 then (s, "")
    else
      CutAround(s, i);
      (s[..i], s[i + 1..])
  }

  /** A text is what comes before a position, the character there, and what follows. */
  lemma CutAround(s: string, i: nat)
    requires i < |s|
    ensures s == s[..i] + [s[i]] + s[i + 1..]
  {
  }

  /** The network-location step of `urlsplit`: after a leading "//", up to the next "/", "?" or "#". */
  function SplitNetloc(rest: string): (r: (string, string))
    ensures '/' !in r.0 && '?' !in r.0 && '#' !in r.0
    ensures !StartsWith(rest, "//") ==> r == ("", rest)
    ensures StartsWith(rest, "//") ==> rest == "//" + r.0 + r.1
  {
    if |rest| >= 2 && rest[..2] == "//" then
      var d := NetlocEnd(rest, 2);
      assert forall k :: 0 <= k < d - 2 ==> rest[2..d][k] == rest[k + 2];
      assert rest == rest[..2] + rest[2..d] + rest[d..];
      (rest[2..d], rest[d..])
    else ("", rest)
  }

  datatype SplitResult = SplitResult(scheme: string, netloc: string, path: string, query: string, fragment: string)

  /**
   * `urlsplit(url, scheme)`: the scheme, a network location after "//", the
   * path, the query after the first "?" and the fragment after the first "#".
   */
  function UrlSplit(url: string, scheme: string): (r: SplitResult)
    ensures '/' !in r.netloc && '?' !in r.netloc && '#' !in r.netloc
    ensures '?' !in r.path && '#' !in r.path && '#' !in r.query
  {
    var (sch, rest) := SplitScheme(Cleaned(url), scheme);
    var (netloc, rest2) := SplitNetloc(rest);
    var (rest3, fragment) := SplitOnce(rest2, '#');
    var (path, query) := SplitOnce(rest3, '?');
    assert '#' !in rest3;
    assert '#' !in path && '#' !in query by {
      assert rest3 == path + ['?'] + query || path == rest3;
    }
    SplitResult(sch, netloc, path, query, fragment)
  }

  // ------------------------------------------------------------------ urlparse

  /** Where the parameters of a path may start: at its last "/", or at the front without one. */
  function ParamStart(path: string): (j: nat)
    ensures j <= |path|
  {
    var j := RFind(path, '/');
    if j < 0 then 0 else j
  }

  /** `_splitparams`: the parameters follow the first ";" of the last path segment. */
  function SplitParams(path: string): (r: (string, string))
    ensures ';' !in path[ParamStart(path)..] ==> r == (path, "")
    ensures ';' in path[ParamStart(path)..] ==>
              path == r.0 + ";" + r.1 && ParamStart(path) <= |r.0| && ';' !in path[ParamStart(path)..|r.0|]
  {
    var i := FindFrom(path, ';', ParamStart(path));
    if i < 0 then (path, "")
    else
      CutAround(path, i);
      (path[..i], path[i + 1..])
  }

  /** `uses_params`: the schemes whose last path segment may carry parameters. */
  const UsesParams: set<string> :=
    {"", "ftp", "hdl", "prospero", "http", "imap", "https", "shttp", "rtsp", "rtsps", "rtspu",
     "sip", "sips", "mms", "sftp", "tel"}

  datatype ParseResult = ParseResult(scheme: string, netloc: string, path: string, params: string,
                                     query: string, fragment: string)

  /** `urlparse(url, scheme)`: `urlsplit`, with the parameters cut off the path. */
  function UrlParse(url: string, scheme: string): (r: ParseResult)
    ensures var s := UrlSplit(url, scheme);
      && r.scheme == s.scheme && r.netloc == s.netloc && r.query == s.query && r.fragment == s.fragment
      && (s.path == r.path || s.path == r.path + ";" + r.params)
  {
    var s := UrlSplit(url, scheme);
    if s.scheme in UsesParams && ';' in s.path then
      var (path, params) := SplitParams(s.path);
      assert ';' in s.path[ParamStart(s.path)..] ==> s.path == path + ";" + params;
      ParseResult(s.scheme, s.netloc, path, params, s.query, s.fragment)
    else ParseResult(s.scheme, s.netloc, s.path, "", s.query, s.fragment)
  }

  /**
   * `urlunparse` of parts with a network location: "//" and the location,
   * the path (given a leading "/"), the parameters, query and fragment each
   * with its separator when it is not empty.
   */
  function UrlUnparse(p: ParseResult): (r: string)
    requires p.netloc != ""
    ensures |r| >= 2 + |p.netloc|
  {
    var path := WithSep(p.path, ';', p.params);
    var u := "//" + p.netloc + (if path != "" && path[0] != '/' then "/" + path else path);
    WithSep(WithSep(if p.scheme != "" then p.scheme + ":" + u else u, '?', p.query), '#', p.fragment)
  }

  /** A part added with its separator, and nothing at all for an empty part. */
  function WithSep(u: string, sep: char, part: string): (r: string)
    ensures part == "" ==> r == u
    ensures part != "" ==> r == u + [sep] + part
  {
    if part == "" then u else u + [sep] + part
  }

  // ---------------------------------------------------------- dot segments

  predicate IsDot(seg: string) { seg == "." || seg == ".." }

  predicate DotFree(segs: seq<string>) { forall k :: 0 <= k < |segs| ==> !IsDot(segs[k]) }

  /** The segment loop of `urljoin`: ".." drops the last kept segment if there is one, "." is skipped, any other segment is kept. */
  function Resolve(segs: seq<string>, kept: seq<string>): (r: seq<string>)
    ensures DotFree(kept) ==> DotFree(r)
    decreases |segs|
  {
    if segs == [] then kept
    else if segs[0] == ".." then Resolve(segs[1..], if kept == [] then [] else kept[..|kept| - 1])
    else if segs[0] == "." then Resolve(segs[1..], kept)
    else Resolve(segs[1..], kept + [segs[0]])
  }

  /** The resolved path segments, with an empty segment after a final "." or "..". */
  function ResolveSegments(segs: seq<string>): (r: seq<string>)
    ensures DotFree(r)
  {
    var r := Resolve(segs, []);
    if segs != [] && IsDot(segs[|segs| - 1]) then r + [""] else r
  }

  /** Without dot segments the loop keeps every segment. */
  lemma {:induction false} ResolveKeepsDotFree(segs: seq<string>, kept: seq<string>)
    requires DotFree(segs)
    ensures Resolve(segs, kept) == kept + segs
    decreases |segs|
  {
    if segs != [] {
      assert !IsDot(segs[0]);
      ResolveKeepsDotFree(segs[1..], kept + [segs[0]]);
      assert kept + [segs[0]] + segs[1..] == kept + segs;
    }
  }

  /** A path without dot segments resolves to itself. */
  lemma ResolveDotFree(segs: seq<string>)
    requires DotFree(segs)
    ensures ResolveSegments(segs) == segs
  {
    ResolveKeepsDotFree(segs, []);
  }

  /** Resolving a resolved path changes nothing. */
  lemma ResolveIdempotent(segs: seq<string>)
    ensures ResolveSegments(ResolveSegments(segs)) == ResolveSegments(segs)
  {
    ResolveDotFree(ResolveSegments(segs));
  }

  /** `c.join(parts)`. */
  function JoinOn(parts: seq<string>, c: char): string {
    if |parts| == 0 then ""
    else if |parts| == 1 then parts[0]
    else parts[0] + [c] + JoinOn(parts[1..], c)
  }

  /** `c.join(s.split(c)) == s`. */
  lemma {:induction false} JoinSplitRoundTrip(s: string, c: char)
    ensures JoinOn(SplitOn(s, c), c) == s
    decreases |s|
  {
    if |s| > 0 {
      JoinSplitRoundTrip(s[1..], c);
      var tail := SplitOn(s[1..], c);
      if s[0] == c {
        assert ([""] + tail)[1..] == tail;
      } else if |tail| > 1 {
        var parts := [[s[0]] + tail[0]] + tail[1..];
        assert parts[1..] == tail[1..];
      }
      assert [s[0]] + s[1..] == s;
    }
  }

  /** A text without the separator is one part. */
  lemma {:induction false} SplitOnWhole(seg: string, c: char)
    requires c !in seg
    ensures SplitOn(seg, c) == [seg]
    decreases |seg|
  {
    if seg != [] {
      SplitOnWhole(seg[1..], c);
      assert [seg[0]] + seg[1..] == seg;
    }
  }

  /** A segment without the separator and the separator split off the front. */
  lemma {:induction false} SplitOnSegment(seg: string, c: char, rest: string)
    requires c !in seg
    ensures SplitOn(seg + [c] + rest, c) == [seg] + SplitOn(rest, c)
    decreases |seg|
  {
    var s := seg + [c] + rest;
    if seg == [] {
      assert s == [c] + rest && s[1..] == rest;
    } else {
      assert s[1..] == seg[1..] + [c] + rest;
      SplitOnSegment(seg[1..], c, rest);
      assert [seg[0]] + seg[1..] == seg;
    }
  }

  /** `segments[1:-1] = filter(None, segments[1:-1])`: empty inner segments go. */
  function DropEmptyInner(segs: seq<string>): (r: seq<string>)
    ensures |r| <= |segs|
  {
    if |segs| >= 2 then [segs[0]] + Filter(segs[1..|segs| - 1], (seg: string) => seg != "") + [segs[|segs| - 1]]
    else segs
  }

  // ------------------------------------------------------------------ urljoin

  /** A site root reads as itself. */
  lemma SiteRootCleaned(base: SiteRoot)
    ensures Cleaned(base) == base
  {
    assert NoUnsafe(base) by {
      forall i | 0 <= i < |base| ensures !IsUnsafe(base[i]) {
        if i < 8 { assert base[i] == "https://"[i]; }
      }
    }
    CleanedNoop(base);
  }

  /** A text that starts with "https://" has the scheme "https", and "//" follows it. */
  lemma HttpsScheme(url: string, default: string)
    requires |url| >= 8 && url[..8] == "https://"
    ensures SplitScheme(url, default) == ("https", url[6..])
  {
    assert url[..5] == "https" by { assert url[..5] == url[..8][..5]; }
    assert FindFrom(url, ':', 0) == 5 by {
      assert url[5] == ':' && ':' !in url[..5];
    }
    assert Lower("https") == "https";
  }

  /** The scheme of a site root is "https", and "//" and the host follow it. */
  lemma SiteRootScheme(base: SiteRoot)
    ensures SplitScheme(base, "") == ("https", base[6..])
  {
    HttpsScheme(base, "");
  }

  /** After the scheme, a site root is "//" and a network location that runs to the end. */
  lemma SiteRootNetloc(base: SiteRoot)
    ensures SplitNetloc(base[6..]) == (base[8..], "")
  {
    var rest := base[6..];
    assert rest[..2] == "//" by { assert rest[..2] == base[..8][6..]; }
    assert forall k :: 2 <= k < |rest| ==> rest[k] == base[k + 6];
    var d := NetlocEnd(rest, 2);
    assert d == |rest|;
    assert rest[2..d] == base[8..] && rest[d..] == "";
  }

  /** The parts of a site root: the https scheme and its host, nothing else. */
  lemma SiteRootParts(base: SiteRoot)
    ensures UrlParse(base, "") == ParseResult("https", base[8..], "", "", "", "")
    ensures UrlUnparse(ParseResult("https", base[8..], "", "", "", "")) == base
  {
    SiteRootSplit(base);
    UrlParseNoParams(base, "");
    SiteRootUnparse(base);
  }

  /** `urlsplit` of a site root: the https scheme and the host. */
  lemma SiteRootSplit(base: SiteRoot)
    ensures UrlSplit(base, "") == SplitResult("https", base[8..], "", "", "")
  {
    SiteRootSteps(base);
    UrlSplitSteps(base, "", "https", base[6..], base[8..], "", "", "", "", "");
  }

  /** The steps of `urlsplit` on a site root. */
  lemma SiteRootSteps(base: SiteRoot)
    ensures Cleaned(base) == base && SplitScheme(base, "") == ("https", base[6..])
    ensures SplitNetloc(base[6..]) == (base[8..], "") && SplitOnce("", '#') == ("", "") && SplitOnce("", '?') == ("", "")
  {
    SiteRootCleaned(base);
    SiteRootScheme(base);
    SiteRootNetloc(base);
    PathCuts("");
  }

  /** `urlunparse` of the https scheme and a host. */
  lemma SiteRootUnparse(base: SiteRoot)
    ensures UrlUnparse(ParseResult("https", base[8..], "", "", "", "")) == base
  {
    assert base == "https://" + base[8..];
  }

  /** The branch of `urljoin` for a reference on the same scheme without a network location of its own. */
  function JoinRelative(b: ParseResult, p: ParseResult): (r: string)
    requires b.netloc != ""
  {
    if p.path == "" && p.params == "" then
      UrlUnparse(ParseResult(p.scheme, b.netloc, b.path, b.params, if p.query == "" then b.query else p.query, p.fragment))
    else
      var bp := SplitOn(b.path, '/');
      var baseParts := if bp[|bp| - 1] != "" then bp[..|bp| - 1] else bp;
      var segs :=
        if StartsWith(p.path, "/") then SplitOn(p.path, '/')
        else DropEmptyInner(baseParts + SplitOn(p.path, '/'));
      var path := JoinOn(ResolveSegments(segs), '/');
      UrlUnparse(ParseResult(p.scheme, b.netloc, if path == "" then "/" else path, p.params, p.query, p.fragment))
  }

  /** The parts `urlparse` gives a site root (SiteRootParts): the https scheme and the host. */
  function RootParts(base: SiteRoot): (b: ParseResult)
    ensures b.scheme == "https" && b.netloc != "" && b.path == "" && b.params == "" && b.query == "" && b.fragment == ""
  {
    ParseResult("https", base[8..], "", "", "", "")
  }

  /**
   * `urljoin(base, ref)` for a site root: an empty reference is the base; a
   * reference on another scheme is returned as it is; one with its own
   * network location is reassembled; any other takes the base's location and
   * has its path resolved. The base's parts are RootParts, which are those
   * `urlparse` finds (SiteRootParts).
   */
  function UrlJoin(base: SiteRoot, ref: string): (r: string)
    ensures ref == "" ==> r == base
    ensures r != ""
  {
    if ref == "" then base
    else
      var b := RootParts(base);
      var p := UrlParse(ref, b.scheme);
      if p.scheme != b.scheme then ref
      else if p.netloc != "" then UrlUnparse(p)
      else JoinRelative(b, p)
  }

  // ------------------------------------------------------- what joining gives

  /** A plain host name, as links to another server carry it. */
  predicate HostText(h: string) { h != "" && forall i :: 0 <= i < |h| ==> HostChar(h[i]) }

  /** An absolute path: one "/" in front, no query, fragment or parameters, nothing `urlsplit` removes. */
  predicate AbsPath(p: string) {
    StartsWith(p, "/") && !StartsWith(p, "//") && '?' !in p && '#' !in p && ';' !in p && NoUnsafe(p)
  }

  /** An absolute path without "." or ".." segments. */
  predicate PlainPath(p: string) { AbsPath(p) && DotFree(SplitOn(p, '/')) }

  /** Splitting at the first separator: the text before it and the text after it. */
  lemma SplitOnceAt(a: string, c: char, b: string)
    requires c !in a
    ensures SplitOnce(a + [c] + b, c) == (a, b)
  {
    var s := a + [c] + b;
    assert forall k :: 0 <= k < |a| ==> s[k] == a[k];
    assert s[|a|] == c;
    assert s[..|a|] == a && s[|a| + 1..] == b;
  }

  lemma NoUnsafeAppend(a: string, b: string)
    requires NoUnsafe(a) && NoUnsafe(b)
    ensures NoUnsafe(a + b)
  {
    assert forall i :: |a| <= i < |a + b| ==> (a + b)[i] == b[i - |a|];
  }

  /** `urlsplit` step by step: the pieces each step cuts give the split. */
  lemma UrlSplitSteps(url: string, default: string, scheme: string, rest: string, netloc: string, rest2: string,
                      rest3: string, fragment: string, path: string, query: string)
    requires SplitScheme(Cleaned(url), default) == (scheme, rest)
    requires SplitNetloc(rest) == (netloc, rest2)
    requires SplitOnce(rest2, '#') == (rest3, fragment)
    requires SplitOnce(rest3, '?') == (path, query)
    ensures UrlSplit(url, default) == SplitResult(scheme, netloc, path, query, fragment)
  {
  }

  /** `urlparse` of a split whose path holds no ";". */
  lemma UrlParseNoParams(url: string, default: string)
    requires ';' !in UrlSplit(url, default).path
    ensures var s := UrlSplit(url, default);
      UrlParse(url, default) == ParseResult(s.scheme, s.netloc, s.path, "", s.query, s.fragment)
  {
  }

  /** `urlparse` on the https scheme from the results of its steps, for a path without parameters. */
  lemma ParseSteps(ref: string, after: string, netloc: string, rest: string, a: string, p: string, q: string, f: string)
    requires Cleaned(ref) == ref && SplitScheme(ref, "https") == ("https", after) && SplitNetloc(after) == (netloc, rest)
    requires SplitOnce(rest, '#') == (a, f) && SplitOnce(a, '?') == (p, q) && ';' !in p
    ensures UrlParse(ref, "https") == ParseResult("https", netloc, p, "", q, f)
  {
    UrlSplitSteps(ref, "https", "https", after, netloc, rest, a, f, p, q);
    UrlParseNoParams(ref, "https");
  }

  /**
   * The text after a path: `qs` is empty or "?" and the query `q`, and `fs` is
   * empty or "#" and the fragment `f`.
   */
  predicate IsTail(qs: string, q: string, fs: string, f: string) {
    && ((qs == "" && q == "") || qs == "?" + q)
    && ((fs == "" && f == "") || fs == "#" + f)
    && '#' !in q && NoUnsafe(q) && NoUnsafe(f)
  }

  /** The cut of `urlsplit` at `c` on a text without `c` and an optional part led by `c`. */
  lemma SplitPart(a: string, c: char, ps: string, part: string)
    requires c !in a && ((ps == "" && part == "") || ps == [c] + part)
    ensures SplitOnce(a + ps, c) == (a, part)
  {
    if ps == "" {
      assert a + ps == a;
    } else {
      assert a + ps == a + [c] + part;
      SplitOnceAt(a, c, part);
    }
  }

  /** A path without "#" followed by a query part has no "#" before the fragment. */
  lemma NoHashBeforeFragment(p: string, qs: string, q: string)
    requires '#' !in p && '#' !in q && ((qs == "" && q == "") || qs == "?" + q)
    ensures '#' !in p + qs
  {
    if qs != "" {
      assert p + qs == p + ['?'] + q;
    }
  }

  /** A query part and a fragment part start with "?" or "#", or are empty. */
  lemma TailStart(qs: string, q: string, fs: string, f: string)
    requires IsTail(qs, q, fs, f)
    ensures var t := qs + fs; (t == [] || t[0] == '?' || t[0] == '#') && NoUnsafe(t)
  {
    assert NoUnsafe(qs) by { if qs != "" { NoUnsafeAppend("?", q); } }
    assert NoUnsafe(fs) by { if fs != "" { NoUnsafeAppend("#", f); } }
    NoUnsafeAppend(qs, fs);
    if qs != "" {
      assert (qs + fs)[0] == qs[0];
    } else {
      assert qs + fs == fs;
    }
  }

  /** A path (or nothing) and such a tail start with "/", "?" or "#", never with "//". */
  lemma PathThenTail(p: string, t: string)
    requires p == "" || AbsPath(p)
    requires (t == [] || t[0] == '?' || t[0] == '#') && NoUnsafe(t)
    ensures var ref := p + t;
      && (ref == [] || ref[0] == '/' || ref[0] == '?' || ref[0] == '#')
      && !StartsWith(ref, "//") && NoUnsafe(ref)
  {
    var ref := p + t;
    NoUnsafeAppend(p, t);
    if p != "" {
      assert p[0] == '/' by { assert p[..1] == "/"; }
      assert ref[0] == p[0];
      if |p| >= 2 {
        assert ref[..2] == p[..2];
      } else {
        assert t != [] ==> ref[1] == t[0];
      }
    } else {
      assert ref == t;
    }
  }

  /** A reference made of a path (or nothing), a query part and a fragment part starts with "/", "?" or "#", never with "//". */
  lemma TailShape(p: string, qs: string, q: string, fs: string, f: string)
    requires p == "" || AbsPath(p)
    requires IsTail(qs, q, fs, f)
    ensures var ref := p + qs + fs;
      && (ref == [] || ref[0] == '/' || ref[0] == '?' || ref[0] == '#')
      && !StartsWith(ref, "//") && NoUnsafe(ref)
  {
    TailStart(qs, q, fs, f);
    PathThenTail(p, qs + fs);
    assert p + qs + fs == p + (qs + fs);
  }

  /** A reference that starts with "/", "?" or "#" has no scheme of its own. */
  lemma NoSchemeBeforePath(ref: string)
    requires ref == [] || ref[0] == '/' || ref[0] == '?' || ref[0] == '#'
    ensures SplitScheme(ref, "https") == ("https", ref)
  {
  }

  /** A reference that does not start with "//" has no network location. */
  lemma NoNetlocWithoutSlashes(ref: string)
    requires !StartsWith(ref, "//")
    ensures SplitNetloc(ref) == ("", ref)
  {
  }

  /** Such a reference reads as itself, with no scheme and no network location. */
  lemma TailCleaned(ref: string)
    requires ref == [] || ref[0] == '/' || ref[0] == '?' || ref[0] == '#'
    requires !StartsWith(ref, "//") && NoUnsafe(ref)
    ensures Cleaned(ref) == ref
    ensures SplitScheme(ref, "https") == ("https", ref)
    ensures SplitNetloc(ref) == ("", ref)
  {
    CleanedNoop(ref);
    NoSchemeBeforePath(ref);
    NoNetlocWithoutSlashes(ref);
  }

  /** The fragment and query cuts of `urlsplit` on a path, a query part and a fragment part. */
  lemma SplitTail(p: string, qs: string, q: string, fs: string, f: string)
    requires '?' !in p && '#' !in p
    requires IsTail(qs, q, fs, f)
    ensures SplitOnce(p + qs + fs, '#') == (p + qs, f)
    ensures SplitOnce(p + qs, '?') == (p, q)
  {
    NoHashBeforeFragment(p, qs, q);
    SplitPart(p + qs, '#', fs, f);
    SplitPart(p, '?', qs, q);
  }

  /** A path (or nothing), a query and a fragment parse into exactly those parts, on the default scheme. */
  lemma ParseAbsPath(p: string, qs: string, q: string, fs: string, f: string)
    requires p == "" || AbsPath(p)
    requires IsTail(qs, q, fs, f)
    ensures UrlParse(p + qs + fs, "https") == ParseResult("https", "", p, "", q, f)
  {
    AbsPathSteps(p, qs, q, fs, f);
    ParseSteps(p + qs + fs, p + qs + fs, "", p + qs + fs, p + qs, p, q, f);
  }

  /** The steps of `urlsplit` on a path (or nothing), a query part and a fragment part. */
  lemma AbsPathSteps(p: string, qs: string, q: string, fs: string, f: string)
    requires p == "" || AbsPath(p)
    requires IsTail(qs, q, fs, f)
    ensures var ref := p + qs + fs;
      && Cleaned(ref) == ref && SplitScheme(ref, "https") == ("https", ref) && SplitNetloc(ref) == ("", ref)
      && SplitOnce(ref, '#') == (p + qs, f) && SplitOnce(p + qs, '?') == (p, q) && ';' !in p
  {
    SplitTail(p, qs, q, fs, f);
    TailShape(p, qs, q, fs, f);
    TailCleaned(p + qs + fs);
  }

  /** `urljoin` of a reference on the https scheme without a network location of its own. */
  lemma JoinSameScheme(base: SiteRoot, ref: string)
    requires ref != ""
    requires UrlParse(ref, "https").scheme == "https" && UrlParse(ref, "https").netloc == ""
    ensures UrlJoin(base, ref) == JoinRelative(ParseResult("https", base[8..], "", "", "", ""), UrlParse(ref, "https"))
  {
  }

  /** `urlunparse` on the https scheme, a host, and a path that is empty or starts with "/". */
  lemma UnparseRoot(host: string, path: string, q: string, f: string)
    requires host != "" && (path == "" || path[0] == '/')
    ensures UrlUnparse(ParseResult("https", host, path, "", q, f))
         == WithSep(WithSep("https://" + host + path, '?', q), '#', f)
  {
    assert "https" + ":" + ("//" + host + path) == "https://" + host + path;
  }

  /** The relative branch for an absolute path without dot segments: the path is kept. */
  lemma RelativePlainPath(host: string, p: ParseResult)
    requires host != "" && PlainPath(p.path)
    ensures JoinRelative(ParseResult("https", host, "", "", "", ""), p)
         == UrlUnparse(ParseResult(p.scheme, host, p.path, p.params, p.query, p.fragment))
  {
    ResolveDotFree(SplitOn(p.path, '/'));
    JoinSplitRoundTrip(p.path, '/');
  }

  /**
   * A path without dot segments is appended to the site root as it stands,
   * and so are a query and a fragment, except that an empty one loses its
   * separator.
   */
  lemma JoinPlainPathParts(base: SiteRoot, p: string, qs: string, q: string, fs: string, f: string)
    requires PlainPath(p) && IsTail(qs, q, fs, f)
    ensures UrlJoin(base, p + qs + fs) == WithSep(WithSep(base + p, '?', q), '#', f)
  {
    assert |p + qs + fs| >= |p| > 0;
    ParseAbsPath(p, qs, q, fs, f);
    JoinParsedPath(base, p + qs + fs, p, q, f);
  }

  /** The join of a reference that parses into a plain path, a query and a fragment. */
  lemma JoinParsedPath(base: SiteRoot, ref: string, p: string, q: string, f: string)
    requires ref != "" && PlainPath(p) && UrlParse(ref, "https") == ParseResult("https", "", p, "", q, f)
    ensures UrlJoin(base, ref) == WithSep(WithSep(base + p, '?', q), '#', f)
  {
    JoinSameScheme(base, ref);
    RelativePlainPath(base[8..], UrlParse(ref, "https"));
    UnparseRootPath(base, p, q, f);
  }

  /** `urlunparse` of the site root's parts with a path in place of its empty one. */
  lemma UnparseRootPath(base: SiteRoot, p: string, q: string, f: string)
    requires p == "" || AbsPath(p)
    ensures UrlUnparse(ParseResult("https", base[8..], p, "", q, f)) == WithSep(WithSep(base + p, '?', q), '#', f)
  {
    assert p != "" ==> p[0] == '/' by { if p != "" { assert p[..1] == "/"; } }
    UnparseRoot(base[8..], p, q, f);
    assert base + p == "https://" + base[8..] + p;
  }

  /** `urljoin(root, "/path")` is the root followed by the path when it has no dot segments. */
  lemma JoinPlainPath(base: SiteRoot, p: string)
    requires PlainPath(p)
    ensures UrlJoin(base, p) == base + p
  {
    assert p + "" + "" == p;
    JoinPlainPathParts(base, p, "", "", "", "");
  }

  /** The same, stated for any reference. */
  lemma JoinPlainPathIf(base: SiteRoot, p: string)
    ensures PlainPath(p) ==> UrlJoin(base, p) == base + p
  {
    if PlainPath(p) {
      JoinPlainPath(base, p);
    }
  }

  /** An empty query loses its "?": `urljoin(root, "/l/x?")` is the root and "/l/x". */
  lemma EmptyQueryDropped(base: SiteRoot, p: string)
    requires PlainPath(p)
    ensures UrlJoin(base, p + "?") == base + p
  {
    assert p + "?" + "" == p + "?";
    assert "?" == "?" + "";
    JoinPlainPathParts(base, p, "?", "", "", "");
  }

  /** An empty fragment loses its "#". */
  lemma EmptyFragmentDropped(base: SiteRoot, p: string)
    requires PlainPath(p)
    ensures UrlJoin(base, p + "#") == base + p
  {
    assert p + "" + "#" == p + "#";
    assert "#" == "#" + "";
    JoinPlainPathParts(base, p, "", "", "#", "");
  }

  /** A query part and a fragment part parse into the query and the fragment. */
  lemma ParseTail(qs: string, q: string, fs: string, f: string)
    requires IsTail(qs, q, fs, f)
    ensures UrlParse(qs + fs, "https") == ParseResult("https", "", "", "", q, f)
  {
    assert "" + qs + fs == qs + fs;
    ParseAbsPath("", qs, q, fs, f);
  }

  /** The relative branch for a reference without a path: the base's empty path is kept. */
  lemma RelativeNoPath(host: string, p: ParseResult)
    requires host != "" && p.path == "" && p.params == ""
    ensures JoinRelative(ParseResult("https", host, "", "", "", ""), p)
         == UrlUnparse(ParseResult(p.scheme, host, "", "", p.query, p.fragment))
  {
  }

  /** The join of a reference that parses into only a query and a fragment. */
  lemma JoinParsedTail(base: SiteRoot, ref: string, q: string, f: string)
    requires ref != "" && UrlParse(ref, "https") == ParseResult("https", "", "", "", q, f)
    ensures UrlJoin(base, ref) == WithSep(WithSep(base, '?', q), '#', f)
  {
    JoinSameScheme(base, ref);
    RelativeNoPath(base[8..], UrlParse(ref, "https"));
    UnparseRootPath(base, "", q, f);
    assert base + "" == base;
  }

  /** A reference of only a query or only a fragment keeps the root's empty path. */
  lemma JoinTailOnly(base: SiteRoot, qs: string, q: string, fs: string, f: string)
    requires IsTail(qs, q, fs, f) && qs + fs != ""
    ensures UrlJoin(base, qs + fs) == WithSep(WithSep(base, '?', q), '#', f)
  {
    ParseTail(qs, q, fs, f);
    JoinParsedTail(base, qs + fs, q, f);
  }

  /** `urljoin(root, "?q")` is the root and "?q"; a bare "?" gives the root. */
  lemma QueryOnly(base: SiteRoot, q: string)
    requires '#' !in q && NoUnsafe(q)
    ensures UrlJoin(base, "?" + q) == if q == "" then base else base + "?" + q
  {
    JoinTailOnly(base, "?" + q, q, "", "");
    assert "?" + q + "" == "?" + q;
  }

  /** `urljoin(root, "#f")` is the root and "#f"; a bare "#" gives the root. */
  lemma FragmentOnly(base: SiteRoot, f: string)
    requires NoUnsafe(f)
    ensures UrlJoin(base, "#" + f) == if f == "" then base else base + "#" + f
  {
    JoinTailOnly(base, "", "", "#" + f, f);
    assert "" + ("#" + f) == "#" + f;
  }

  // ------------------------------------------------------ dot segments joined

  /** The path `urljoin` writes for joined segments: "/" for nothing, and a leading "/" `urlunparse` supplies. */
  function Rooted(path: string): (r: string)
    ensures r != "" && r[0] == '/'
    ensures path != "" && path[0] == '/' ==> r == path
  {
    if path == "" then "/" else if path[0] != '/' then "/" + path else path
  }

  /** `urlunparse` of the site root's location and the path the segment loop built. */
  lemma UnparseRooted(base: SiteRoot, path: string)
    ensures UrlUnparse(ParseResult("https", base[8..], if path == "" then "/" else path, "", "", ""))
         == base + Rooted(path)
  {
    var host := base[8..];
    assert base == "https://" + host;
    if path != "" && path[0] != '/' {
      assert WithSep(path, ';', "") == path;
      assert "https" + ":" + ("//" + host + ("/" + path)) == "https://" + host + ("/" + path);
    } else {
      UnparseRoot(host, if path == "" then "/" else path, "", "");
    }
  }

  /** The relative branch for an absolute path: the segments of the path are resolved. */
  lemma RelativeAbsPath(host: string, p: ParseResult)
    requires host != "" && StartsWith(p.path, "/") && p.params == "" && p.query == "" && p.fragment == ""
    ensures var path := JoinOn(ResolveSegments(SplitOn(p.path, '/')), '/');
      JoinRelative(ParseResult("https", host, "", "", "", ""), p)
      == UrlUnparse(ParseResult(p.scheme, host, if path == "" then "/" else path, "", "", ""))
  {
  }

  /** `urljoin(root, "/path")` is the root and the path with its "." and ".." segments resolved. */
  lemma JoinAbsPath(base: SiteRoot, p: string)
    requires AbsPath(p)
    ensures UrlJoin(base, p) == base + Rooted(JoinOn(ResolveSegments(SplitOn(p, '/')), '/'))
  {
    assert p + "" + "" == p;
    ParseAbsPath(p, "", "", "", "");
    JoinSameScheme(base, p);
    RelativeAbsPath(base[8..], UrlParse(p, "https"));
    UnparseRooted(base, JoinOn(ResolveSegments(SplitOn(p, '/')), '/'));
  }

  /** Path segments: no delimiter and nothing `urlsplit` removes in any of them. */
  predicate PathParts(segs: seq<string>) {
    forall k :: 0 <= k < |segs| ==>
      '/' !in segs[k] && '?' !in segs[k] && '#' !in segs[k] && ';' !in segs[k] && NoUnsafe(segs[k])
  }

  /** `s.split(c)` of `c.join(parts)` gives the parts back when none holds `c`. */
  lemma {:induction false} SplitJoinRoundTrip(parts: seq<string>, c: char)
    requires |parts| > 0 && forall k :: 0 <= k < |parts| ==> c !in parts[k]
    ensures SplitOn(JoinOn(parts, c), c) == parts
    decreases |parts|
  {
    if |parts| == 1 {
      SplitOnWhole(parts[0], c);
    } else {
      SplitJoinRoundTrip(parts[1..], c);
      SplitOnSegment(parts[0], c, JoinOn(parts[1..], c));
      assert [parts[0]] + parts[1..] == parts;
    }
  }

  /** A character in none of the parts and other than the separator is not in their join. */
  lemma {:induction false} JoinOnExcludes(parts: seq<string>, c: char, d: char)
    requires d != c && forall k :: 0 <= k < |parts| ==> d !in parts[k]
    ensures d !in JoinOn(parts, c)
    decreases |parts|
  {
    if |parts| > 1 {
      JoinOnExcludes(parts[1..], c, d);
    }
  }

  /** Parts without unsafe characters, joined by a safe separator, have none. */
  lemma {:induction false} JoinOnSafe(parts: seq<string>, c: char)
    requires !IsUnsafe(c) && forall k :: 0 <= k < |parts| ==> NoUnsafe(parts[k])
    ensures NoUnsafe(JoinOn(parts, c))
    decreases |parts|
  {
    if |parts| > 1 {
      JoinOnSafe(parts[1..], c);
      NoUnsafeAppend(parts[0], [c]);
      NoUnsafeAppend(parts[0] + [c], JoinOn(parts[1..], c));
    }
  }

  /** "/" and the joined segments. */
  lemma JoinLeadingEmpty(segs: seq<string>, c: char)
    requires |segs| > 0
    ensures JoinOn([""] + segs, c) == [c] + JoinOn(segs, c)
  {
    assert ([""] + segs)[1..] == segs;
  }

  /** The join of segments starts with their first segment. */
  lemma JoinFirstChar(segs: seq<string>, c: char)
    requires |segs| > 0 && segs[0] != ""
    ensures JoinOn(segs, c) != "" && JoinOn(segs, c)[0] == segs[0][0]
  {
  }

  /** Joined path segments hold no "?", "#", ";" and nothing `urlsplit` removes. */
  lemma JoinPartsFree(segs: seq<string>)
    requires PathParts(segs)
    ensures var t := JoinOn(segs, '/'); '?' !in t && '#' !in t && ';' !in t && NoUnsafe(t)
  {
    JoinOnExcludes(segs, '/', '?');
    JoinOnExcludes(segs, '/', '#');
    JoinOnExcludes(segs, '/', ';');
    JoinOnSafe(segs, '/');
  }

  /** "/" and a text that starts with anything but "/" and holds no delimiter is an absolute path. */
  lemma SlashThen(t: string)
    requires t != "" && t[0] != '/' && '?' !in t && '#' !in t && ';' !in t && NoUnsafe(t)
    ensures AbsPath("/" + t)
  {
    var p := "/" + t;
    assert p[..1] == "/";
    assert p[1] == t[0];
    NoUnsafeAppend("/", t);
  }

  /** "/" and segments whose first is not empty make an absolute path, which splits into them again. */
  lemma SegmentsPath(segs: seq<string>)
    requires |segs| > 0 && segs[0] != "" && PathParts(segs)
    ensures AbsPath(JoinOn([""] + segs, '/'))
    ensures SplitOn(JoinOn([""] + segs, '/'), '/') == [""] + segs
  {
    var t := JoinOn(segs, '/');
    JoinLeadingEmpty(segs, '/');
    JoinFirstChar(segs, '/');
    JoinPartsFree(segs);
    SlashThen(t);
    SplitJoinRoundTrip(segs, '/');
    SplitOnSegment("", '/', t);
    assert "" + ['/'] + t == "/" + t;
  }

  /** `urljoin(root, "/" + "/".join(segs))` resolves the segments. */
  lemma JoinSegments(base: SiteRoot, segs: seq<string>)
    requires |segs| > 0 && segs[0] != "" && PathParts(segs)
    ensures UrlJoin(base, JoinOn([""] + segs, '/')) == base + Rooted(JoinOn(ResolveSegments([""] + segs), '/'))
  {
    SegmentsPath(segs);
    JoinAbsPath(base, JoinOn([""] + segs, '/'));
  }

  /** A segment and ".." after it cancel, whatever dot-free segments come before and after them. */
  lemma {:induction false} DotDotCancels(pre: seq<string>, seg: string, post: seq<string>, kept: seq<string>)
    requires DotFree(pre) && !IsDot(seg) && DotFree(post)
    ensures Resolve(pre + [seg, ".."] + post, kept) == kept + pre + post
    decreases |pre|
  {
    var segs := pre + [seg, ".."] + post;
    if pre == [] {
      assert segs[0] == seg && segs[1..] == [".."] + post;
      assert ([".."] + post)[0] == ".." && ([".."] + post)[1..] == post;
      assert (kept + [seg])[..|kept|] == kept;
      ResolveKeepsDotFree(post, kept);
    } else {
      assert segs[0] == pre[0] && segs[1..] == pre[1..] + [seg, ".."] + post;
      assert !IsDot(pre[0]);
      DotDotCancels(pre[1..], seg, post, kept + [pre[0]]);
      assert kept + [pre[0]] + pre[1..] == kept + pre;
    }
  }

  /** A final ".." also cancels the segment before it, and leaves an empty last segment. */
  lemma FinalDotDot(pre: seq<string>, seg: string)
    requires DotFree(pre) && !IsDot(seg)
    ensures ResolveSegments(pre + [seg, ".."]) == pre + [""]
  {
    DotDotCancels(pre, seg, [], []);
    assert pre + [seg, ".."] + [] == pre + [seg, ".."];
  }

  /** Resolving "", the segments before, a segment, "..", and the segments after keeps all but those two. */
  lemma ResolveCancel(pre: seq<string>, seg: string, post: seq<string>)
    requires DotFree(pre) && !IsDot(seg) && DotFree(post) && post != []
    ensures ResolveSegments([""] + pre + [seg, ".."] + post) == [""] + pre + post
  {
    DotDotCancels([""] + pre, seg, post, []);
    assert !IsDot(post[|post| - 1]);
    assert [] + ([""] + pre) + post == [""] + pre + post;
  }

  /**
   * ".." drops the segment before it: with dot-free segments around them,
   * `urljoin(root, "/pre/seg/../post")` is `root + "/pre/post"`.
   */
  lemma DotDotResolved(base: SiteRoot, pre: seq<string>, seg: string, post: seq<string>)
    requires PathParts(pre + [seg, ".."] + post)
    requires DotFree(pre) && !IsDot(seg) && DotFree(post) && post != []
    requires (pre + [seg])[0] != ""
    ensures UrlJoin(base, JoinOn([""] + pre + [seg, ".."] + post, '/')) == base + Rooted(JoinOn([""] + pre + post, '/'))
  {
    var segs := pre + [seg, ".."] + post;
    assert segs[0] == (pre + [seg])[0];
    assert [""] + segs == [""] + pre + [seg, ".."] + post;
    ResolveCancel(pre, seg, post);
    JoinSegments(base, segs);
  }

  // ------------------------------------------------- links to other servers

  /** A host and a path (or nothing) hold nothing `urlsplit` removes. */
  lemma HostPathSafe(h: string, p: string)
    requires HostText(h) && (p == "" || AbsPath(p))
    ensures NoUnsafe(h + p)
  {
    assert NoUnsafe(h);
    NoUnsafeAppend(h, p);
  }

  /** After "//", the network location is the host, up to the path. */
  lemma NetlocOfHost(h: string, p: string)
    requires HostText(h) && (p == "" || AbsPath(p))
    ensures SplitNetloc("//" + h + p) == (h, p)
  {
    var rest := "//" + h + p;
    var e := 2 + |h|;
    assert rest[..2] == "//";
    assert forall k :: 2 <= k < e ==> rest[k] == h[k - 2];
    assert e < |rest| ==> rest[e] == '/' by {
      if p != "" { assert p[..1] == "/"; assert rest[e] == p[0]; }
    }
    assert NetlocEnd(rest, 2) == e;
    assert rest[2..e] == h && rest[e..] == p;
  }

  /** A prefix, a host and a path read as themselves. */
  lemma HostRefCleaned(pre: string, h: string, p: string)
    requires pre != "" && !IsC0OrSpace(pre[0]) && NoUnsafe(pre)
    requires HostText(h) && (p == "" || AbsPath(p))
    ensures Cleaned(pre + h + p) == pre + h + p
  {
    HostPathSafe(h, p);
    NoUnsafeAppend(pre, h + p);
    assert pre + h + p == pre + (h + p);
    CleanedNoop(pre + h + p);
  }

  /** A path (or nothing) has no fragment, query or parameters to cut. */
  lemma PathCuts(p: string)
    requires p == "" || AbsPath(p)
    ensures SplitOnce(p, '#') == (p, "") && SplitOnce(p, '?') == (p, "") && ';' !in p
  {
  }

  /** "//", a host and a path (or nothing) parse into that location and path, on the default scheme. */
  lemma ParseNetworkPath(h: string, p: string)
    requires HostText(h) && (p == "" || AbsPath(p))
    ensures UrlParse("//" + h + p, "https") == ParseResult("https", h, p, "", "", "")
  {
    NetworkPathSteps(h, p);
    ParseSteps("//" + h + p, "//" + h + p, h, p, p, p, "", "");
  }

  /** The steps of `urlsplit` on "//", a host and a path. */
  lemma NetworkPathSteps(h: string, p: string)
    requires HostText(h) && (p == "" || AbsPath(p))
    ensures var ref := "//" + h + p;
      && Cleaned(ref) == ref && SplitScheme(ref, "https") == ("https", ref) && SplitNetloc(ref) == (h, p)
      && SplitOnce(p, '#') == (p, "") && SplitOnce(p, '?') == (p, "") && ';' !in p
  {
    var ref := "//" + h + p;
    HostRefCleaned("//", h, p);
    NoSchemeBeforePath(ref);
    NetlocOfHost(h, p);
    PathCuts(p);
  }

  /** "https://", a host and a path (or nothing) parse into that location and path. */
  lemma ParseHttpsUrl(h: string, p: string)
    requires HostText(h) && (p == "" || AbsPath(p))
    ensures UrlParse("https://" + h + p, "https") == ParseResult("https", h, p, "", "", "")
  {
    HttpsUrlSteps(h, p);
    ParseSteps("https://" + h + p, "//" + h + p, h, p, p, p, "", "");
  }

  /** The steps of `urlsplit` on "https://", a host and a path. */
  lemma HttpsUrlSteps(h: string, p: string)
    requires HostText(h) && (p == "" || AbsPath(p))
    ensures var ref := "https://" + h + p;
      && Cleaned(ref) == ref && SplitScheme(ref, "https") == ("https", "//" + h + p) && SplitNetloc("//" + h + p) == (h, p)
      && SplitOnce(p, '#') == (p, "") && SplitOnce(p, '?') == (p, "") && ';' !in p
  {
    var ref := "https://" + h + p;
    assert ref[..8] == "https://" && ref[6..] == "//" + h + p;
    HostRefCleaned("https://", h, p);
    HttpsScheme(ref, "https");
    NetlocOfHost(h, p);
    PathCuts(p);
  }

  /** `urljoin` of a reference on the https scheme with a network location of its own. */
  lemma JoinOwnNetloc(base: SiteRoot, ref: string)
    requires ref != ""
    requires UrlParse(ref, "https").scheme == "https" && UrlParse(ref, "https").netloc != ""
    ensures UrlJoin(base, ref) == UrlUnparse(UrlParse(ref, "https"))
  {
  }

  /** `urlunparse` of an https location and a path (or nothing) with no query or fragment. */
  lemma UnparseHostPath(h: string, p: string)
    requires HostText(h) && (p == "" || AbsPath(p))
    ensures UrlUnparse(ParseResult("https", h, p, "", "", "")) == "https://" + h + p
  {
    assert p != "" ==> p[0] == '/' by { if p != "" { assert p[..1] == "/"; } }
    UnparseRoot(h, p, "", "");
  }

  /** A network-path reference "//host/path" takes the base's scheme: `urljoin(root, "//cdn/x")` is "https://cdn/x". */
  lemma NetworkPath(base: SiteRoot, h: string, p: string)
    requires HostText(h) && (p == "" || AbsPath(p))
    ensures UrlJoin(base, "//" + h + p) == "https://" + h + p
  {
    ParseNetworkPath(h, p);
    JoinOwnNetloc(base, "//" + h + p);
    UnparseHostPath(h, p);
  }

  /** An absolute https URL of a plain host and path is kept as it is, whatever the base. */
  lemma HttpsUrlKept(base: SiteRoot, h: string, p: string)
    requires HostText(h) && (p == "" || AbsPath(p))
    ensures UrlJoin(base, "https://" + h + p) == "https://" + h + p
  {
    ParseHttpsUrl(h, p);
    JoinOwnNetloc(base, "https://" + h + p);
    UnparseHostPath(h, p);
  }

  /** A scheme name: an ASCII letter, then scheme characters. */
  predicate SchemeName(sch: string) {
    sch != "" && IsAsciiLetter(sch[0]) && forall k :: 0 <= k < |sch| ==> IsSchemeChar(sch[k])
  }

  /** Scheme characters are not removed by `urlsplit`. */
  lemma SchemeNameSafe(sch: string)
    requires SchemeName(sch)
    ensures NoUnsafe(sch + ":")
  {
    var t := sch + ":";
    assert forall k :: 0 <= k < |sch| ==> t[k] == sch[k];
  }

  /** The scheme step on a reference that starts with a scheme name and ":". */
  lemma SchemeOfName(sch: string, rest: string)
    requires SchemeName(sch)
    ensures SplitScheme(sch + ":" + rest, "https").0 == Lower(sch)
  {
    var url := sch + ":" + rest;
    assert forall k :: 0 <= k < |sch| ==> url[k] == sch[k];
    assert url[|sch|] == ':';
    assert url[..|sch|] == sch;
    assert ':' !in sch;
    assert FindFrom(url, ':', 0) == |sch|;
  }

  /** What `urlsplit` reads of such a reference still starts with the scheme name and ":". */
  lemma CleanedSchemeName(sch: string, rest: string)
    requires SchemeName(sch)
    ensures Cleaned(sch + ":" + rest) == sch + ":" + RemoveUnsafe(rest)
  {
    var url := sch + ":" + rest;
    assert StripC0(url) == url by { assert !IsC0OrSpace(url[0]); }
    SchemeNameSafe(sch);
    RemoveUnsafeAppend(sch + ":", rest);
    RemoveUnsafeNoop(sch + ":");
  }

  /** A reference on another scheme ("http:", "mailto:", ...) is returned as it is. */
  lemma OtherSchemeKept(base: SiteRoot, sch: string, rest: string)
    requires SchemeName(sch) && Lower(sch) != "https"
    ensures UrlJoin(base, sch + ":" + rest) == sch + ":" + rest
  {
    var ref := sch + ":" + rest;
    CleanedSchemeName(sch, rest);
    SchemeOfName(sch, RemoveUnsafe(rest));
    assert UrlParse(ref, "https").scheme == Lower(sch);
  }
}

