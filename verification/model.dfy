/**
 * The values the sitemap crawler works with: the module-level settings, the
 * outside world it consults (the HTTP session and the URL library), the
 * records it appends to `urlset`, and the two decisions it makes about a
 * page before recording it (the depth guard and the modification-time filter).
 */
module SitemapModel {

  type Url = string

  /** One `url` element of `urlset`: `loc`, `lastmod`, `changefreq`, `priority`.
      The timestamp is kept as an integer; its ISO-8601 rendering is not modelled. */
  datatype Entry = Entry(loc: Url, lastmod: int, changefreq: string, priority: string)

  /** What `session.get(url)` gives back: either it raised a `RequestException`,
      or a response with a status code, the parsed `last-modified` time and the
      `href` values of the page's `<a>` elements in document order. */
  datatype Fetch = Raised | Response(status: int, lastmod: int, hrefs: seq<string>)

  /** The module-level settings `DOMAIN`, `START_URL`, `MAX_DEPTH`,
      `USE_TIME_FILTER` and `TIME_FILTER_THRESHOLD`. */
  datatype Config = Config(
    domain: string,
    start: Url,
    maxDepth: int,
    useTimeFilter: bool,
    threshold: int)

  /** The collaborators the crawler calls but does not define: the network
      (`session.get`), `urljoin` and `urlparse(...).netloc`. They are taken as
      arbitrary total functions, so nothing below depends on how they behave. */
  datatype Env = Env(
    fetch: Url -> Fetch,
    join: (Url, string) -> Url,
    netloc: Url -> string)

  /** The shared mutable state of a crawl: `visited_urls` and the children of `urlset`. */
  datatype State = State(visited: set<Url>, entries: seq<Entry>)

  /** The record `process_page` builds for a page. */
  function PageEntry(url: Url, lastmod: int): Entry
  {
    Entry(url, lastmod, "daily", "1.0")
  }

  /** The depth guard of `generate_sitemap`: the call returns at once. */
  predicate BeyondDepth(depth: int, maxDepth: int)
  {
    depth > maxDepth
  }

  /** The time filter: with the filter on, a page not modified strictly after
      the threshold is dropped. */
  predicate FilteredOut(c: Config, lastmod: int)
  {
    c.useTimeFilter && lastmod <= c.threshold
  }

  /** `href.startswith('#')`: a reference to a fragment of the same page. */
  predicate IsFragmentRef(href: string)
  {
    |href| > 0 && href[0] == '#'
  }

  /** A fetch outcome that lets `generate_sitemap` go on to record the page:
      no exception, status 200 and not dropped by the time filter. */
  predicate Accepted(c: Config, f: Fetch)
  {
    f.Response? && f.status == 200 && !FilteredOut(c, f.lastmod)
  }

  /** The elements of a sequence, as a set. */
  function Elems(s: seq<Url>): set<Url>
  {
    set x | x in s
  }

  /** How many entries have `loc == u`. */
  function Count(entries: seq<Entry>, u: Url): nat
  {
    if entries == [] then 0
    else Count(entries[..|entries| - 1], u) + (if entries[|entries| - 1].loc == u then 1 else 0)
  }

  lemma CountAppend(entries: seq<Entry>, e: Entry, u: Url)
    ensures Count(entries + [e], u) == Count(entries, u) + (if e.loc == u then 1 else 0)
  {
    assert (entries + [e])[..|entries|] == entries;
  }
}
