/**
 * What one call of `generate_sitemap` does to the shared state, as a function
 * of the state before it. The children a page admits are handed to a thread
 * pool; here they run one after another in admission order, which is one of
 * the orders the pool may produce once the lock makes each guarded block
 * atomic.
 */
module CrawlSpec {
  import opened SitemapModel
  import opened LinkAdmission

  /** The number of depth levels a call at `depth` may still descend. */
  function Fuel(maxDepth: int, depth: nat): nat
  {
    if depth <= maxDepth then maxDepth - depth + 1 else 0
  }

  /** `generate_sitemap(url, maxDepth, depth)` run from state `s`. */
  function Generate(c: Config, env: Env, s: State, url: Url, maxDepth: int, depth: nat): (r: State)
    ensures s.visited <= r.visited
    ensures s.entries <= r.entries
    ensures depth > maxDepth ==> r == s
    ensures env.fetch(url).Raised? || env.fetch(url).status != 200 ==> r == s
    ensures env.fetch(url).Response? && c.useTimeFilter && env.fetch(url).lastmod <= c.threshold ==> r == s
    ensures (depth <= maxDepth && env.fetch(url).Response? && env.fetch(url).status == 200
             && (!c.useTimeFilter || env.fetch(url).lastmod > c.threshold)) ==>
      |s.entries| < |r.entries| && r.entries[|s.entries|] == Entry(url, env.fetch(url).lastmod, "daily", "1.0")
    decreases Fuel(maxDepth, depth), 1, 0
  {
    if BeyondDepth(depth, maxDepth) then s
    else
      var response := env.fetch(url);
      if !Accepted(c, response) then s
      else
        var recorded := s.(entries := s.entries + [PageEntry(url, response.lastmod)]);
        var links := Admit(c, env, recorded.visited, url, response.hrefs);
        GenerateAll(c, env, recorded.(visited := recorded.visited + Elems(links)), links, maxDepth, depth + 1)
  }

  /** The children `links`, each handed to `generate_sitemap` once, at `depth`,
      with the same `maxDepth`. */
  function GenerateAll(c: Config, env: Env, s: State, links: seq<Url>, maxDepth: int, depth: nat): (r: State)
    ensures s.visited <= r.visited
    ensures s.entries <= r.entries
    ensures depth > maxDepth ==> r == s
    decreases Fuel(maxDepth, depth), 2, |links|
  {
    if links == [] then s
    else GenerateAll(c, env, Generate(c, env, s, links[0], maxDepth, depth), links[1..], maxDepth, depth)
  }

  /** The script: `generate_sitemap(START_URL)` on the empty globals. The
      sitemap is empty exactly when `MAX_DEPTH` is negative or the start page
      is rejected; otherwise its first entry is the start page's. */
  function Crawl(c: Config, env: Env): (r: State)
    ensures (c.maxDepth < 0 || env.fetch(c.start).Raised? || env.fetch(c.start).status != 200
             || (c.useTimeFilter && env.fetch(c.start).lastmod <= c.threshold)) ==> r == State({}, [])
    ensures (0 <= c.maxDepth && env.fetch(c.start).Response? && env.fetch(c.start).status == 200
             && (!c.useTimeFilter || env.fetch(c.start).lastmod > c.threshold)) ==>
      |r.entries| > 0 && r.entries[0] == Entry(c.start, env.fetch(c.start).lastmod, "daily", "1.0")
  {
    Generate(c, env, State({}, []), c.start, c.maxDepth, 0)
  }

  /** A page at exactly the maximum depth is still recorded and still admits its
      links into `visited_urls`, but none of those children is fetched. */
  lemma AtMaxDepth(c: Config, env: Env, s: State, url: Url, maxDepth: nat)
    requires Accepted(c, env.fetch(url))
    ensures var links := Admit(c, env, s.visited, url, env.fetch(url).hrefs);
      Generate(c, env, s, url, maxDepth, maxDepth)
        == State(s.visited + Elems(links), s.entries + [PageEntry(url, env.fetch(url).lastmod)])
  {
  }

  // ---------------------------------------------------------------------------
  // Descent: admitted links are crawled.
  // ---------------------------------------------------------------------------

  /** Every child handed on within the depth limit whose fetch is accepted gets
      its entry, whatever its siblings do before or after it. */
  lemma {:induction false} GenerateAllRecords(c: Config, env: Env, s: State, links: seq<Url>, maxDepth: int, depth: nat)
    requires depth <= maxDepth
    ensures forall l :: l in links && Accepted(c, env.fetch(l)) ==>
      PageEntry(l, env.fetch(l).lastmod) in GenerateAll(c, env, s, links, maxDepth, depth).entries
    decreases |links|
  {
    if links != [] {
      var first := Generate(c, env, s, links[0], maxDepth, depth);
      var r := GenerateAll(c, env, first, links[1..], maxDepth, depth);
      assert r == GenerateAll(c, env, s, links, maxDepth, depth);
      GenerateAllRecords(c, env, first, links[1..], maxDepth, depth);
      if Accepted(c, env.fetch(links[0])) {
        var e := PageEntry(links[0], env.fetch(links[0]).lastmod);
        assert first.entries[|s.entries|] == e;
        assert first.entries <= r.entries;
        assert r.entries[|s.entries|] == e;
      }
      forall l | l in links && Accepted(c, env.fetch(l))
        ensures PageEntry(l, env.fetch(l).lastmod) in r.entries
      {
        if l != links[0] {
          assert l in links[1..];
        }
      }
    }
  }

  /** An accepted page inserts every link it admits into `visited_urls`, and
      below the maximum depth every admitted child whose fetch is accepted is
      recorded. */
  lemma GenerateDescends(c: Config, env: Env, s: State, url: Url, maxDepth: int, depth: nat)
    requires depth <= maxDepth && Accepted(c, env.fetch(url))
    ensures var links := Admit(c, env, s.visited, url, env.fetch(url).hrefs);
      var r := Generate(c, env, s, url, maxDepth, depth);
      s.visited + Elems(links) <= r.visited
      && (depth < maxDepth ==>
            forall l :: l in links && Accepted(c, env.fetch(l)) ==> PageEntry(l, env.fetch(l).lastmod) in r.entries)
  {
    var links := Admit(c, env, s.visited, url, env.fetch(url).hrefs);
    var admitted := State(s.visited + Elems(links), s.entries + [PageEntry(url, env.fetch(url).lastmod)]);
    assert Generate(c, env, s, url, maxDepth, depth) == GenerateAll(c, env, admitted, links, maxDepth, depth + 1);
    if depth < maxDepth {
      GenerateAllRecords(c, env, admitted, links, maxDepth, depth + 1);
    }
  }

  /** The whole crawl: with `MAX_DEPTH` at least 1 and the start page accepted,
      every link the start page admits is visited, and recorded when its own
      fetch is accepted. */
  lemma CrawlDescends(c: Config, env: Env)
    requires 1 <= c.maxDepth && Accepted(c, env.fetch(c.start))
    ensures var links := Admit(c, env, {}, c.start, env.fetch(c.start).hrefs);
      forall l :: l in links ==>
        l in Crawl(c, env).visited
        && (Accepted(c, env.fetch(l)) ==> PageEntry(l, env.fetch(l).lastmod) in Crawl(c, env).entries)
  {
    GenerateDescends(c, env, State({}, []), c.start, c.maxDepth, 0);
  }

  // ---------------------------------------------------------------------------
  // Reachability: the hops a crawl may take.
  // ---------------------------------------------------------------------------

  /** A link the crawler follows from page `v` to `u`: `v` was accepted and one
      of its non-fragment `href`s resolves to `u`, which is on the domain. */
  ghost predicate Hop(c: Config, env: Env, v: Url, u: Url)
  {
    Accepted(c, env.fetch(v)) && env.netloc(u) == c.domain && LinkedFrom(env, v, env.fetch(v).hrefs, u)
  }

  /** `u` is the start URL or is at most `n` hops from it. */
  ghost predicate Reachable(c: Config, env: Env, u: Url, n: nat)
    decreases n
  {
    if n == 0 then u == c.start
    else Reachable(c, env, u, n - 1) || exists v :: Reachable(c, env, v, n - 1) && Hop(c, env, v, u)
  }

  /** `u` is at most `maxDepth` hops from the start URL. */
  ghost predicate WithinHops(c: Config, env: Env, u: Url, maxDepth: int)
  {
    exists n: nat :: n as int <= maxDepth && Reachable(c, env, u, n)
  }

  // ---------------------------------------------------------------------------
  // Soundness: what every recorded entry and every visited URL satisfies.
  // ---------------------------------------------------------------------------

  /** An entry that a crawl bounded by `maxDepth` may have produced. */
  ghost predicate Recordable(c: Config, env: Env, maxDepth: int, visited: set<Url>, e: Entry)
  {
    (e.loc == c.start || e.loc in visited)
    && Accepted(c, env.fetch(e.loc))
    && e == PageEntry(e.loc, env.fetch(e.loc).lastmod)
    && WithinHops(c, env, e.loc, maxDepth)
  }

  ghost predicate Sound(c: Config, env: Env, maxDepth: int, s: State)
  {
    (forall u :: u in s.visited ==> env.netloc(u) == c.domain)
    && (forall i :: 0 <= i < |s.entries| ==> Recordable(c, env, maxDepth, s.visited, s.entries[i]))
  }

  lemma SoundGrow(c: Config, env: Env, maxDepth: int, s: State, visited: set<Url>)
    requires Sound(c, env, maxDepth, s)
    requires s.visited <= visited
    requires forall u :: u in visited ==> env.netloc(u) == c.domain
    ensures Sound(c, env, maxDepth, s.(visited := visited))
  {
  }

  lemma {:induction false} GenerateSound(c: Config, env: Env, s: State, url: Url, maxDepth: int, depth: nat)
    requires Sound(c, env, maxDepth, s)
    requires url == c.start || url in s.visited
    requires Reachable(c, env, url, depth)
    ensures Sound(c, env, maxDepth, Generate(c, env, s, url, maxDepth, depth))
    decreases Fuel(maxDepth, depth), 1, 0
  {
    var response := env.fetch(url);
    if !BeyondDepth(depth, maxDepth) && Accepted(c, response) {
      var e := PageEntry(url, response.lastmod);
      var recorded := s.(entries := s.entries + [e]);
      assert Recordable(c, env, maxDepth, s.visited, e);
      assert Sound(c, env, maxDepth, recorded);
      var links := Admit(c, env, recorded.visited, url, response.hrefs);
      var admitted := recorded.(visited := recorded.visited + Elems(links));
      SoundGrow(c, env, maxDepth, recorded, admitted.visited);
      AdmitExactly(c, env, recorded.visited, url, response.hrefs);
      forall u | u in links
        ensures u in admitted.visited && Reachable(c, env, u, depth + 1)
      {
        assert Hop(c, env, url, u);
      }
      GenerateAllSound(c, env, admitted, links, maxDepth, depth + 1);
    }
  }

  lemma {:induction false} GenerateAllSound(c: Config, env: Env, s: State, links: seq<Url>, maxDepth: int, depth: nat)
    requires Sound(c, env, maxDepth, s)
    requires forall u :: u in links ==> u in s.visited && Reachable(c, env, u, depth)
    ensures Sound(c, env, maxDepth, GenerateAll(c, env, s, links, maxDepth, depth))
    decreases Fuel(maxDepth, depth), 2, |links|
  {
    if links != [] {
      GenerateSound(c, env, s, links[0], maxDepth, depth);
      GenerateAllSound(c, env, Generate(c, env, s, links[0], maxDepth, depth), links[1..], maxDepth, depth);
    }
  }

  // ---------------------------------------------------------------------------
  // At most once: each URL is recorded once per "ticket". The start URL holds
  // one ticket from the script's call; every URL receives one more when it is
  // inserted into `visited_urls`. A pending call holds a ticket it has not
  // spent yet.
  // ---------------------------------------------------------------------------

  function Tickets(c: Config, s: State, u: Url): nat
  {
    (if u == c.start then 1 else 0) + (if u in s.visited then 1 else 0)
  }

  ghost predicate WithinTickets(c: Config, s: State, pending: multiset<Url>)
  {
    forall u :: Count(s.entries, u) + pending[u] <= Tickets(c, s, u)
  }

  lemma DistinctMultiplicity(links: seq<Url>, u: Url)
    requires forall i, j :: 0 <= i < j < |links| ==> links[i] != links[j]
    ensures multiset(links)[u] == if u in links then 1 else 0
  {
    if links != [] {
      assert links == [links[0]] + links[1..];
      DistinctMultiplicity(links[1..], u);
    }
  }

  lemma {:induction false} GenerateTickets(c: Config, env: Env, s: State, url: Url, maxDepth: int, depth: nat, pending: multiset<Url>)
    requires url in pending && WithinTickets(c, s, pending)
    ensures WithinTickets(c, Generate(c, env, s, url, maxDepth, depth), pending - multiset{url})
    decreases Fuel(maxDepth, depth), 1, 0
  {
    var rest := pending - multiset{url};
    var response := env.fetch(url);
    if !BeyondDepth(depth, maxDepth) && Accepted(c, response) {
      var recorded := s.(entries := s.entries + [PageEntry(url, response.lastmod)]);
      forall u ensures Count(recorded.entries, u) + rest[u] <= Tickets(c, recorded, u) {
        CountAppend(s.entries, PageEntry(url, response.lastmod), u);
      }
      var links := Admit(c, env, recorded.visited, url, response.hrefs);
      var admitted := recorded.(visited := recorded.visited + Elems(links));
      forall u ensures Count(admitted.entries, u) + (rest + multiset(links))[u] <= Tickets(c, admitted, u) {
        DistinctMultiplicity(links, u);
      }
      GenerateAllTickets(c, env, admitted, links, maxDepth, depth + 1, rest);
    }
  }

  lemma {:induction false} GenerateAllTickets(c: Config, env: Env, s: State, links: seq<Url>, maxDepth: int, depth: nat, pending: multiset<Url>)
    requires WithinTickets(c, s, pending + multiset(links))
    ensures WithinTickets(c, GenerateAll(c, env, s, links, maxDepth, depth), pending)
    decreases Fuel(maxDepth, depth), 2, |links|
  {
    if links != [] {
      assert links == [links[0]] + links[1..];
      var all := pending + multiset(links);
      GenerateTickets(c, env, s, links[0], maxDepth, depth, all);
      assert all - multiset{links[0]} == pending + multiset(links[1..]);
      GenerateAllTickets(c, env, Generate(c, env, s, links[0], maxDepth, depth), links[1..], maxDepth, depth, pending);
    }
  }

  // ---------------------------------------------------------------------------
  // The whole crawl.
  // ---------------------------------------------------------------------------

  /** No URL other than the start URL is recorded more than once; the start URL
      is recorded at most twice, and twice only if some page links back to it
      (which puts it into `visited_urls`). */
  lemma CrawlRecordsOnce(c: Config, env: Env)
    ensures var r := Crawl(c, env);
      forall u :: Count(r.entries, u) <= (if u == c.start then 2 else 1)
    ensures var r := Crawl(c, env);
      Count(r.entries, c.start) == 2 ==> c.start in r.visited
  {
    var s0 := State({}, []);
    assert WithinTickets(c, s0, multiset{c.start});
    GenerateTickets(c, env, s0, c.start, c.maxDepth, 0, multiset{c.start});
    assert multiset{c.start} - multiset{c.start} == multiset{};
  }

  /** Every recorded page answered 200, passed the time filter, carries its
      fetched modification time and the fixed `daily`/`1.0` values, lies on the
      domain unless it is the start URL, and is reachable from the start URL in
      at most `MAX_DEPTH` hops. Every URL in `visited_urls` is on the domain. */
  lemma CrawlSound(c: Config, env: Env)
    ensures var r := Crawl(c, env);
      forall u :: u in r.visited ==> env.netloc(u) == c.domain
    ensures var r := Crawl(c, env);
      forall e :: e in r.entries ==>
        (e.loc == c.start || env.netloc(e.loc) == c.domain)
        && env.fetch(e.loc).Response? && env.fetch(e.loc).status == 200
        && e.lastmod == env.fetch(e.loc).lastmod
        && (c.useTimeFilter ==> e.lastmod > c.threshold)
        && e.changefreq == "daily" && e.priority == "1.0"
    ensures var r := Crawl(c, env);
      forall e :: e in r.entries ==> WithinHops(c, env, e.loc, c.maxDepth)
  {
    var s0 := State({}, []);
    GenerateSound(c, env, s0, c.start, c.maxDepth, 0);
    var r := Crawl(c, env);
    forall e | e in r.entries
      ensures Recordable(c, env, c.maxDepth, r.visited, e)
    {
      var i :| 0 <= i < |r.entries| && r.entries[i] == e;
    }
  }
}
