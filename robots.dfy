/** The generated `robots.txt`: two crawler rules and the sitemap location. */
module Robots {
  import opened Optional
  import opened BaseUrl

  datatype Rule = Rule(userAgent: string, allow: string, disallow: seq<string>)

  datatype RobotsFile = RobotsFile(rules: seq<Rule>, sitemap: string)

  const DisallowedPaths: seq<string> := ["/admin/", "/api/", "/_next/", "/static/"]

  /** `robots()` for a given value of `NEXT_PUBLIC_BASE_URL`. */
  function Robots(configured: Option<string>): RobotsFile {
    RobotsFile(CrawlerRules, SiteBase(configured) + SitemapPath)
  }

  const SitemapPath := "/sitemap.xml"

  /** One rule for every crawler and one for Googlebot, each listing the four paths. */
  const CrawlerRules: seq<Rule> :=
    [ Rule("*", "/", DisallowedPaths), Rule("Googlebot", "/", DisallowedPaths) ]

  /** Exactly two rules, for every crawler and for Googlebot, which allow `/` and disallow the same four paths. */
  lemma RobotsRules(configured: Option<string>)
    ensures |Robots(configured).rules| == 2
    ensures Robots(configured).rules[0].userAgent == "*"
    ensures Robots(configured).rules[1].userAgent == "Googlebot"
    ensures forall r :: r in Robots(configured).rules ==> r.allow == "/" && r.disallow == DisallowedPaths
  {
  }

  /** The sitemap is the cleaned base followed by `/sitemap.xml`; with no URL configured it is the local one. */
  lemma SitemapLocation(configured: Option<string>)
    ensures Robots(configured).sitemap == SiteBase(configured) + "/sitemap.xml"
    ensures EndsWith(Robots(configured).sitemap, "/sitemap.xml")
    ensures configured == None ==> Robots(configured).sitemap == DefaultBaseUrl + "/sitemap.xml"
  {
    var s := Robots(configured).sitemap;
    assert s[|s| - |"/sitemap.xml"|..] == "/sitemap.xml";
    DefaultIsClean();
  }

  /** Robots rules match by path prefix. */
  predicate Disallows(rule: Rule, path: string) {
    exists p :: p in rule.disallow && |p| <= |path| && path[..|p|] == p
  }

  /** No disallowed path is a prefix of `/admin`: `/api/` differs at its third character, the rest are longer. */
  lemma AdminPathUncovered()
    ensures forall p :: p in DisallowedPaths ==> !(|p| <= |"/admin"| && "/admin"[..|p|] == p)
  {
    forall p | p in DisallowedPaths
      ensures !(|p| <= |"/admin"| && "/admin"[..|p|] == p)
    {
      if p == "/api/" {
        assert "/admin"[..|p|][2] == 'd' && p[2] == 'p';
      } else {
        assert |p| > |"/admin"|;
      }
    }
  }

  /** The admin listing at `/admin` is not covered by the `/admin/` rule of either crawler. */
  lemma AdminPageNotDisallowed(configured: Option<string>)
    ensures forall r :: r in Robots(configured).rules ==> !Disallows(r, "/admin")
  {
    var rules := Robots(configured).rules;
    assert rules == CrawlerRules;
    forall r | r in rules
      ensures !Disallows(r, "/admin")
    {
      RuleUncoversAdmin(r);
    }
  }

  /** A rule listing exactly the four disallowed paths does not cover `/admin`. */
  lemma RuleUncoversAdmin(r: Rule)
    requires r.disallow == DisallowedPaths
    ensures !Disallows(r, "/admin")
  {
    AdminPathUncovered();
  }
}
