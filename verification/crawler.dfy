/**
 * The crawler as the program runs it: the globals `visited_urls` and `urlset`
 * as fields updated in place, `process_page` and `generate_sitemap` as
 * methods, and the script's two statements as `BuildSitemap`. Every method is
 * proved to do what the functions of `CrawlSpec` and `LinkAdmission` say.
 */
module SitemapGenerator {
  import opened SitemapModel
  import opened LinkAdmission
  import opened CrawlSpec

  class Crawler {
    const cfg: Config
    const env: Env
    /** `visited_urls` */
    var visited: set<Url>
    /** the `url` children of `urlset`, in the order they were appended */
    var entries: seq<Entry>

    ghost function Snapshot(): State
      reads this
    {
      State(visited, entries)
    }

    /** The module's globals as the script starts: an empty set and an empty `urlset`. */
    constructor (cfg: Config, env: Env)
      ensures this.cfg == cfg && this.env == env
      ensures visited == {} && entries == []
    {
      this.cfg := cfg;
      this.env := env;
      visited := {};
      entries := [];
    }

    /** `process_page`: append one `url` element; nothing before it changes. */
    method ProcessPage(url: Url, lastmod: int)
      modifies this`entries
      ensures entries == old(entries) + [Entry(url, lastmod, "daily", "1.0")]
    {
      entries := entries + [PageEntry(url, lastmod)];
    }

    /** The `for link in soup.find_all(...)` loop: returns `links_to_process`. */
    method AdmitLinks(base: Url, hrefs: seq<string>) returns (links: seq<Url>)
      modifies this`visited
      ensures links == Admit(cfg, env, old(visited), base, hrefs)
      ensures visited == old(visited) + Elems(links)
      ensures forall i :: 0 <= i < |links| ==> links[i] !in old(visited) && env.netloc(links[i]) == cfg.domain
      ensures forall i, j :: 0 <= i < j < |links| ==> links[i] != links[j]
    {
      links := [];
      var i := 0;
      while i < |hrefs|
        invariant 0 <= i <= |hrefs|
        invariant links == Admit(cfg, env, old(visited), base, hrefs[..i])
        invariant visited == old(visited) + Elems(links)
      {
        var href := hrefs[i];
        AdmitSnoc(cfg, env, old(visited), base, hrefs, i);
        if !IsFragmentRef(href) {
          var fullUrl := env.join(base, href);
          var domain := env.netloc(fullUrl);
          if fullUrl !in visited && domain == cfg.domain {
            visited := visited + {fullUrl};
            assert Elems(links + [fullUrl]) == Elems(links) + {fullUrl};
            links := links + [fullUrl];
          }
        }
        i := i + 1;
      }
      assert hrefs[..i] == hrefs;
    }

    /** `generate_sitemap(url, maxDepth, depth)`. The children run one after
        another instead of on a thread pool. */
    method GenerateSitemap(url: Url, maxDepth: int, depth: nat)
      modifies this
      ensures Snapshot() == Generate(cfg, env, old(Snapshot()), url, maxDepth, depth)
      decreases Fuel(maxDepth, depth)
    {
      if BeyondDepth(depth, maxDepth) {
        return;
      }
      var response := env.fetch(url);
      if response.Raised? {
        return;
      }
      if response.status != 200 {
        return;
      }
      var lastmod := response.lastmod;
      if FilteredOut(cfg, lastmod) {
        return;
      }
      ProcessPage(url, lastmod);
      var links := AdmitLinks(url, response.hrefs);
      ghost var admitted := Snapshot();
      var i := 0;
      while i < |links|
        invariant 0 <= i <= |links|
        invariant GenerateAll(cfg, env, Snapshot(), links[i..], maxDepth, depth + 1)
          == GenerateAll(cfg, env, admitted, links, maxDepth, depth + 1)
      {
        assert links[i..][1..] == links[i + 1..];
        GenerateSitemap(links[i], maxDepth, depth + 1);
        i := i + 1;
      }
    }
  }

  /** The script: crawl from `START_URL` with `MAX_DEPTH` on fresh globals and
      return the `url` elements that go into the written file. */
  method BuildSitemap(cfg: Config, env: Env) returns (urlset: seq<Entry>)
    ensures urlset == Crawl(cfg, env).entries
    ensures forall u :: Count(urlset, u) <= (if u == cfg.start then 2 else 1)
    ensures forall e :: e in urlset ==>
      (e.loc == cfg.start || env.netloc(e.loc) == cfg.domain)
      && env.fetch(e.loc).Response? && env.fetch(e.loc).status == 200
      && (cfg.useTimeFilter ==> e.lastmod > cfg.threshold)
    ensures 1 <= cfg.maxDepth && Accepted(cfg, env.fetch(cfg.start)) ==>
      forall l :: l in Admit(cfg, env, {}, cfg.start, env.fetch(cfg.start).hrefs) && Accepted(cfg, env.fetch(l)) ==>
        PageEntry(l, env.fetch(l).lastmod) in urlset
  {
    var crawler := new Crawler(cfg, env);
    crawler.GenerateSitemap(cfg.start, cfg.maxDepth, 0);
    urlset := crawler.entries;
    CrawlRecordsOnce(cfg, env);
    CrawlSound(cfg, env);
    if 1 <= cfg.maxDepth && Accepted(cfg, env.fetch(cfg.start)) {
      CrawlDescends(cfg, env);
    }
  }
}
