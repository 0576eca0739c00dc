/**
 * The site's base URL, shared by the robots file and the sitemap: the
 * configured `NEXT_PUBLIC_BASE_URL`, or a local default when it is unset or
 * empty, with one trailing `/` removed.
 */
module BaseUrl {
  import opened Optional

  const DefaultBaseUrl := "http://localhost:3000"

  predicate EndsWith(s: string, suffix: string) {
    |suffix| <= |s| && s[|s| - |suffix|..] == suffix
  }

  /** `process.env.NEXT_PUBLIC_BASE_URL || 'http://localhost:3000'`. */
  function ResolveBaseUrl(configured: Option<string>): (r: string)
    ensures r != ""
    ensures configured == None || configured == Some("") ==> r == DefaultBaseUrl
    ensures configured.Some? && configured.value != "" ==> r == configured.value
  {
    match configured
    case None => DefaultBaseUrl
    case Some(url) => if url == "" then DefaultBaseUrl else url
  }

  /** `baseUrl.endsWith('/') ? baseUrl.slice(0, -1) : baseUrl`. */
  function CleanBaseUrl(url: string): (r: string)
    ensures |r| <= |url| <= |r| + 1 && r == url[..|r|]
    ensures EndsWith(url, "/") ==> r + "/" == url
    ensures !EndsWith(url, "/") ==> r == url
  {
    if EndsWith(url, "/") then url[..|url| - 1] else url
  }

  /** The cleaned base of the configured URL. */
  function SiteBase(configured: Option<string>): string {
    CleanBaseUrl(ResolveBaseUrl(configured))
  }

  /** Appending the same text to both sides preserves the suffix relation, in both directions. */
  lemma AppendEndsWithIff(s: string, suffix: string, t: string)
    ensures EndsWith(s + t, suffix + t) <==> EndsWith(s, suffix)
  {
    var st := s + t;
    if EndsWith(s, suffix) {
      assert st[|st| - |suffix + t|..] == s[|s| - |suffix|..] + t;
    }
    if EndsWith(st, suffix + t) {
      assert s[|s| - |suffix|..] == st[|s| - |suffix|..|s|];
      assert st[|s| - |suffix|..|s|] == (suffix + t)[..|suffix|];
    }
  }

  /** A path joined to the cleaned base follows a doubled slash exactly when the URL ended with `//`. */
  lemma JoinDoubleSlashIff(url: string, path: string)
    ensures EndsWith(CleanBaseUrl(url) + path, "/" + path) <==> EndsWith(url, "//")
  {
    CleanedEndsWithSlashIff(url);
    AppendEndsWithIff(CleanBaseUrl(url), "/", path);
  }

  /** The default URL has no trailing slash, so cleaning leaves it alone. */
  lemma DefaultIsClean()
    ensures SiteBase(None) == DefaultBaseUrl
    ensures SiteBase(Some("")) == DefaultBaseUrl
  {
    assert !EndsWith(DefaultBaseUrl, "/") by {
      assert DefaultBaseUrl[|DefaultBaseUrl| - 1] == '0';
    }
  }

  /** The cleaned base still ends with `/` exactly when the URL ended with `//`. */
  lemma CleanedEndsWithSlashIff(url: string)
    ensures EndsWith(CleanBaseUrl(url), "/") <==> EndsWith(url, "//")
  {
    var r := CleanBaseUrl(url);
    if EndsWith(url, "//") {
      assert url[|url| - 1] == '/' && url[|url| - 2] == '/';
      assert EndsWith(url, "/");
      assert r[|r| - 1] == url[|url| - 2];
    }
    if EndsWith(r, "/") {
      assert r[|r| - 1] == '/';
      assert EndsWith(url, "/");
      assert url[|url| - 2] == r[|r| - 1];
      assert url[|url| - 2..] == "//";
    }
  }

  /** Only one slash is removed: `x//` becomes `x/`, so cleaning is not idempotent. */
  lemma OnlyOneSlashRemoved()
    ensures CleanBaseUrl("x//") == "x/"
    ensures CleanBaseUrl(CleanBaseUrl("x//")) != CleanBaseUrl("x//")
  {
    assert EndsWith("x//", "/");
    assert EndsWith("x/", "/");
  }
}
