/** The generated `sitemap.xml`: the home page and the admin listing. */
module Sitemap {
  import opened Optional
  import opened BaseUrl
  import Robots

  datatype ChangeFrequency = Daily | Weekly

  datatype Entry = Entry(url: string, lastModified: int, changeFrequency: ChangeFrequency, priority: real)

  /** `sitemap()` for a given value of `NEXT_PUBLIC_BASE_URL` and the current time. */
  function Sitemap(configured: Option<string>, now: int): seq<Entry> {
    var base := SiteBase(configured);
    [ Entry(base, now, Daily, 1.0),
      Entry(base + "/admin", now, Weekly, 0.3) ]
  }

  /**
   * Two entries in order: the cleaned base, changing daily, then the base
   * followed by `/admin`, changing weekly, with the lower priority.
   */
  lemma SitemapEntries(configured: Option<string>, now: int)
    ensures |Sitemap(configured, now)| == 2
    ensures Sitemap(configured, now)[0].url == SiteBase(configured)
    ensures Sitemap(configured, now)[1].url == Sitemap(configured, now)[0].url + "/admin"
    ensures Sitemap(configured, now)[0].changeFrequency == Daily
    ensures Sitemap(configured, now)[1].changeFrequency == Weekly
    ensures Sitemap(configured, now)[0].priority > Sitemap(configured, now)[1].priority
    ensures configured == None ==> Sitemap(configured, now)[0].url == DefaultBaseUrl
  {
    DefaultIsClean();
  }

  /** The robots file points at the sitemap below the home page the sitemap lists. */
  lemma RobotsPointsBelowHome(configured: Option<string>, now: int)
    ensures Robots.Robots(configured).sitemap == Sitemap(configured, now)[0].url + "/sitemap.xml"
  {
  }
}
