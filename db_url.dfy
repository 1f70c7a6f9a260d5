/** Rewriting a configured database URL to the matching async driver. */
module DbUrl {
  import opened Text
  import Config

  /**
   * The prefixes are tried in order.  The first two have no colon after the
   * dialect, so a URL such as "sqlite+sqlite:///x" matches neither.
   */
  function ToAsyncUrl(url: string): string {
    if StartsWith(url, "sqlite+sqlite///") then
      "sqlite+aiosqlite:///" + ReplaceAll(url, "sqlite+sqlite///", "")
    else if StartsWith(url, "sqlite///") then
      ReplaceAll(url, "sqlite///", "sqlite+aiosqlite///")
    else if StartsWith(url, "postgresql://") then
      ReplaceAll(url, "postgresql://", "postgresql+asyncpg://")
    else if StartsWith(url, "postgresql+psycopg://") then
      ReplaceAll(url, "postgresql+psycopg://", "postgresql+asyncpg://")
    else url
  }

  /** No prefix the rewriting handles. */
  predicate Unhandled(url: string) {
    !StartsWith(url, "sqlite+sqlite///") && !StartsWith(url, "sqlite///")
    && !StartsWith(url, "postgresql://") && !StartsWith(url, "postgresql+psycopg://")
  }

  lemma StartsWithMismatch(s: string, p: string, q: string, i: nat)
    requires StartsWith(s, p) && i < |p| && i < |q| && p[i] != q[i]
    ensures !StartsWith(s, q)
  {
    assert s[..|p|][i] == p[i];
    assert |q| > |s| || s[..|q|][i] != q[i];
  }

  /** Every rewritten URL starts with one of the async prefixes, which no branch handles. */
  lemma AsyncPrefixesUnhandled(s: string)
    ensures StartsWith(s, "sqlite+aiosqlite:///") ==> Unhandled(s)
    ensures StartsWith(s, "sqlite+aiosqlite///") ==> Unhandled(s)
    ensures StartsWith(s, "postgresql+asyncpg://") ==> Unhandled(s)
  {
    if StartsWith(s, "sqlite+aiosqlite:///") {
      StartsWithMismatch(s, "sqlite+aiosqlite:///", "sqlite+sqlite///", 7);
      StartsWithMismatch(s, "sqlite+aiosqlite:///", "sqlite///", 6);
      StartsWithMismatch(s, "sqlite+aiosqlite:///", "postgresql://", 0);
      StartsWithMismatch(s, "sqlite+aiosqlite:///", "postgresql+psycopg://", 0);
    }
    if StartsWith(s, "sqlite+aiosqlite///") {
      StartsWithMismatch(s, "sqlite+aiosqlite///", "sqlite+sqlite///", 7);
      StartsWithMismatch(s, "sqlite+aiosqlite///", "sqlite///", 6);
      StartsWithMismatch(s, "sqlite+aiosqlite///", "postgresql://", 0);
      StartsWithMismatch(s, "sqlite+aiosqlite///", "postgresql+psycopg://", 0);
    }
    if StartsWith(s, "postgresql+asyncpg://") {
      StartsWithMismatch(s, "postgresql+asyncpg://", "sqlite+sqlite///", 0);
      StartsWithMismatch(s, "postgresql+asyncpg://", "sqlite///", 0);
      StartsWithMismatch(s, "postgresql+asyncpg://", "postgresql://", 10);
      StartsWithMismatch(s, "postgresql+asyncpg://", "postgresql+psycopg://", 11);
    }
  }

  lemma StartsWithConcat(p: string, rest: string)
    ensures StartsWith(p + rest, p)
  {
    assert (p + rest)[..|p|] == p;
  }

  /** The output of the rewriting is never rewritten again. */
  lemma ToAsyncUrlOutputUnhandled(url: string)
    requires !Unhandled(url)
    ensures Unhandled(ToAsyncUrl(url))
  {
    var r := ToAsyncUrl(url);
    if StartsWith(url, "sqlite+sqlite///") {
      StartsWithConcat("sqlite+aiosqlite:///", ReplaceAll(url, "sqlite+sqlite///", ""));
    } else if StartsWith(url, "sqlite///") {
      ReplaceAllKeepsLeadingReplacement(url, "sqlite///", "sqlite+aiosqlite///");
    } else if StartsWith(url, "postgresql://") {
      ReplaceAllKeepsLeadingReplacement(url, "postgresql://", "postgresql+asyncpg://");
    } else {
      ReplaceAllKeepsLeadingReplacement(url, "postgresql+psycopg://", "postgresql+asyncpg://");
    }
    AsyncPrefixesUnhandled(r);
  }

  /** Rewriting twice is rewriting once. */
  lemma ToAsyncUrlIdempotent(url: string)
    ensures ToAsyncUrl(ToAsyncUrl(url)) == ToAsyncUrl(url)
  {
    if !Unhandled(url) {
      ToAsyncUrlOutputUnhandled(url);
    }
  }

  /** A URL with none of the handled prefixes comes back unchanged. */
  lemma UnhandledUnchanged(url: string)
    requires Unhandled(url)
    ensures ToAsyncUrl(url) == url
  {
  }

  /** The configured default is left unchanged, so the engine never gets the async driver. */
  lemma DefaultUrlNotRewritten()
    ensures ToAsyncUrl(Config.DatabaseUrl) == Config.DatabaseUrl
  {
    var u := Config.DatabaseUrl;
    assert u[13] == ':';
    StartsWithMismatch(u, u[..16], "sqlite+sqlite///", 13);
    StartsWithMismatch(u, u[..9], "sqlite///", 6);
    StartsWithMismatch(u, u[..1], "postgresql://", 0);
    StartsWithMismatch(u, u[..1], "postgresql+psycopg://", 0);
  }

  /** The evidently intended rewriting: the same branches with the colon after each dialect. */
  function ToAsyncUrlFixed(url: string): string {
    if StartsWith(url, "sqlite+sqlite:///") then
      "sqlite+aiosqlite:///" + ReplaceAll(url, "sqlite+sqlite:///", "")
    else if StartsWith(url, "sqlite:///") then
      ReplaceAll(url, "sqlite:///", "sqlite+aiosqlite:///")
    else if StartsWith(url, "postgresql://") then
      ReplaceAll(url, "postgresql://", "postgresql+asyncpg://")
    else if StartsWith(url, "postgresql+psycopg://") then
      ReplaceAll(url, "postgresql+psycopg://", "postgresql+asyncpg://")
    else url
  }

  /** With the colon, a sync SQLite URL gets the async driver and keeps its path. */
  lemma FixedSqliteRewrite(rest: string)
    requires !Contains(rest, "sqlite+sqlite:///")
    ensures ToAsyncUrlFixed("sqlite+sqlite:///" + rest) == "sqlite+aiosqlite:///" + rest
  {
    var p := "sqlite+sqlite:///";
    var u := p + rest;
    StartsWithConcat(p, rest);
    assert u[|p|..] == rest;
    ReplaceAllAbsent(rest, p, "");
    assert ReplaceAll(u, p, "") == "" + ReplaceAll(rest, p, "");
  }

  /** With the colon, the default URL gets the async SQLite driver. */
  lemma DefaultUrlFixed()
    ensures ToAsyncUrlFixed(Config.DatabaseUrl) == "sqlite+aiosqlite:///./radar.db"
  {
    assert Config.DatabaseUrl == "sqlite+sqlite:///" + "./radar.db";
    FixedSqliteRewrite("./radar.db");
  }
}
