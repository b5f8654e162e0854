/**
 * Small concrete sites that pin down behaviour the general lemmas only bound:
 * the start URL recorded twice, fragments kept in admitted URLs, the depth
 * limit of zero, the time filter dropping the start page, and a site where
 * the depth-first order leaves a URL unrecorded although it lies within the
 * depth limit.
 */
module Scenarios {
  import opened SitemapModel
  import opened LinkAdmission
  import opened CrawlSpec

  const Home: Url := "https://www.example.com/home"

  /** The module's default settings, with the threshold as an integer. */
  function Settings(maxDepth: int): Config
  {
    Config("www.example.com", Home, maxDepth, true, 100)
  }

  /** A site whose pages answer 200 with `lastmod` 200 and the given links;
      every `href` is a site-absolute path. */
  function Site(links: Url -> seq<string>): Env
  {
    Env(
      u => Response(200, 200, links(u)),
      (base, href) => "https://www.example.com" + href,
      u => "www.example.com")
  }

  /** The second visit of a self-linking home page, at depth 1: it is recorded
      again, and its link is not admitted again. */
  lemma SelfLinkSecondVisit()
    ensures var e := PageEntry(Home, 200);
      Generate(Settings(10), Site(u => ["/home"]), State({Home}, [e]), Home, 10, 1) == State({Home}, [e, e])
  {
    var c, env := Settings(10), Site(u => ["/home"]);
    var e := PageEntry(Home, 200);
    assert env.join(Home, "/home") == Home;
    assert Admit(c, env, {Home}, Home, ["/home"]) == [];
    assert Elems([]) == {};
    assert [e] + [e] == [e, e];
  }

  /** The first visit, at depth 0: the home page is recorded and admits itself. */
  lemma SelfLinkFirstVisit()
    ensures var e := PageEntry(Home, 200);
      Crawl(Settings(10), Site(u => ["/home"]))
        == GenerateAll(Settings(10), Site(u => ["/home"]), State({Home}, [e]), [Home], 10, 1)
  {
    var c, env := Settings(10), Site(u => ["/home"]);
    assert env.join(Home, "/home") == Home;
    assert Admit(c, env, {}, Home, ["/home"]) == [Home];
    assert Elems([Home]) == {Home};
    var e := PageEntry(Home, 200);
    assert [] + [e] == [e];
    assert {} + Elems([Home]) == {Home};
    assert Accepted(c, env.fetch(Home)) && env.fetch(Home).hrefs == ["/home"];
  }

  /** A home page that links to itself is recorded twice: the start URL is not
      in `visited_urls` when the link to it is examined. */
  lemma StartRecordedTwice()
    ensures var r := Crawl(Settings(10), Site(u => ["/home"]));
      r.entries == [PageEntry(Home, 200), PageEntry(Home, 200)]
      && Count(r.entries, Home) == 2
  {
    var c, env := Settings(10), Site(u => ["/home"]);
    var e := PageEntry(Home, 200);
    SelfLinkFirstVisit();
    SelfLinkSecondVisit();
    assert [Home][1..] == [];
    assert GenerateAll(c, env, State({Home}, [e]), [Home], 10, 1) == State({Home}, [e, e]);
    CountAppend([e], e, Home);
    CountAppend([], e, Home);
    assert [] + [e] == [e];
    assert [e] + [e] == [e, e];
  }

  /** `/b#x` and `/b` are different keys: the fragment is not stripped, so both
      are admitted, while the fragment-only `#top` is skipped. */
  lemma FragmentsNotStripped()
    ensures Admit(Settings(10), Site(u => []), {}, Home, ["#top", "/b#x", "/b"])
      == ["https://www.example.com/b#x", "https://www.example.com/b"]
  {
    var c, env := Settings(10), Site(u => []);
    var bx, b := "https://www.example.com/b#x", "https://www.example.com/b";
    assert env.join(Home, "/b#x") == bx && env.join(Home, "/b") == b;
    assert bx != b by { assert |bx| != |b|; }
    assert IsFragmentRef("#top");
    assert !IsFragmentRef("/b#x") && !IsFragmentRef("/b");
    assert ["#top", "/b#x", "/b"][1..] == ["/b#x", "/b"];
    assert ["/b#x", "/b"][1..] == ["/b"];
    assert ["/b"][1..] == [];
    assert Admit(c, env, {bx, b}, Home, []) == [];
    assert Admit(c, env, {bx}, Home, ["/b"]) == [b];
    assert Admit(c, env, {}, Home, ["/b#x", "/b"]) == [bx, b];
  }

  /** With a maximum depth of 0 only the start page is recorded; its links are
      admitted into `visited_urls` but never fetched. */
  lemma DepthZeroRecordsOnlyStart()
    ensures var r := Crawl(Settings(0), Site(u => if u == Home then ["/a"] else []));
      r.entries == [PageEntry(Home, 200)] && r.visited == {"https://www.example.com/a"}
  {
    var c, env := Settings(0), Site(u => if u == Home then ["/a"] else []);
    var a := "https://www.example.com/a";
    assert env.join(Home, "/a") == a;
    assert Admit(c, env, {}, Home, ["/a"]) == [a];
    assert Elems([a]) == {a};
  }

  /** With the filter on, a start page last modified at the threshold is not
      recorded, and its links are not followed. */
  lemma StalePageDropped()
    ensures var env := Env(u => Response(200, 100, ["/a"]), (base, href) => base + href, u => "www.example.com");
      Crawl(Settings(10), env) == State({}, [])
  {
  }

  // A site where the depth-first order hides a short path. The home page links
  // to /a and /x, /a links to /b, and both /b and /x link to /y. The paths are
  // /a, /bb, /xxx and /yyyy, so that their lengths alone tell them apart.

  const PageA: Url := "https://www.example.com/a"
  const PageB: Url := "https://www.example.com/bb"
  const PageX: Url := "https://www.example.com/xxx"
  const PageY: Url := "https://www.example.com/yyyy"

  function Links(u: Url): seq<string>
  {
    if u == Home then ["/a", "/xxx"]
    else if u == PageA then ["/bb"]
    else if u == PageB || u == PageX then ["/yyyy"]
    else []
  }

  /** /b, at the maximum depth 2, is recorded and admits /y, which is never fetched. */
  lemma DetourVisitB()
    ensures var e := (u: Url) => PageEntry(u, 200);
      Generate(Settings(2), Site(Links), State({PageA, PageX, PageB}, [e(Home), e(PageA)]), PageB, 2, 2)
        == State({PageA, PageX, PageB, PageY}, [e(Home), e(PageA), e(PageB)])
  {
    var c, env := Settings(2), Site(Links);
    assert Links(PageB) == ["/yyyy"];
    assert env.join(PageB, "/yyyy") == PageY;
    assert PageY !in {PageA, PageX, PageB} by { assert |PageY| != |PageA| && |PageY| != |PageX| && |PageY| != |PageB|; }
    assert Admit(c, env, {PageA, PageX, PageB}, PageB, ["/yyyy"]) == [PageY];
    assert Elems([PageY]) == {PageY};
    assert {PageA, PageX, PageB} + {PageY} == {PageA, PageX, PageB, PageY};
  }

  /** /a, at depth 1, is recorded, admits /b, and /b's visit follows. */
  lemma DetourVisitA()
    ensures var e := (u: Url) => PageEntry(u, 200);
      Generate(Settings(2), Site(Links), State({PageA, PageX}, [e(Home)]), PageA, 2, 1)
        == State({PageA, PageX, PageB, PageY}, [e(Home), e(PageA), e(PageB)])
  {
    var c, env := Settings(2), Site(Links);
    assert Links(PageA) == ["/bb"] by { assert PageA != Home by { assert |PageA| != |Home|; } }
    assert env.join(PageA, "/bb") == PageB;
    assert PageB !in {PageA, PageX} by { assert |PageB| != |PageA| && |PageB| != |PageX|; }
    assert Admit(c, env, {PageA, PageX}, PageA, ["/bb"]) == [PageB];
    assert Elems([PageB]) == {PageB};
    assert {PageA, PageX} + {PageB} == {PageA, PageX, PageB};
    assert [PageB][1..] == [];
    DetourVisitB();
  }

  /** /x, at depth 1, is recorded, but /y is already visited, so /x admits nothing. */
  lemma DetourVisitX()
    ensures var e := (u: Url) => PageEntry(u, 200);
      Generate(Settings(2), Site(Links), State({PageA, PageX, PageB, PageY}, [e(Home), e(PageA), e(PageB)]), PageX, 2, 1)
        == State({PageA, PageX, PageB, PageY}, [e(Home), e(PageA), e(PageB), e(PageX)])
  {
    var c, env := Settings(2), Site(Links);
    assert Links(PageX) == ["/yyyy"] by {
      assert PageX != Home && PageX != PageA && PageX != PageB by { assert |PageX| == 27; }
    }
    assert env.join(PageX, "/yyyy") == PageY;
    assert Admit(c, env, {PageA, PageX, PageB, PageY}, PageX, ["/yyyy"]) == [];
    assert Elems([]) == {};
  }

  /** The home page, at depth 0, is recorded and admits /a and /x, in that order. */
  lemma DetourVisitHome()
    ensures Crawl(Settings(2), Site(Links))
      == GenerateAll(Settings(2), Site(Links), State({PageA, PageX}, [PageEntry(Home, 200)]), [PageA, PageX], 2, 1)
  {
    var c, env := Settings(2), Site(Links);
    assert env.join(Home, "/a") == PageA && env.join(Home, "/xxx") == PageX;
    assert PageA != PageX by { assert |PageA| != |PageX|; }
    assert Admit(c, env, {PageA}, Home, ["/xxx"]) == [PageX];
    assert Admit(c, env, {}, Home, ["/a", "/xxx"]) == [PageA, PageX] by {
      assert ["/a", "/xxx"][1..] == ["/xxx"];
    }
    assert Elems([PageA, PageX]) == {PageA, PageX};
    assert [] + [PageEntry(Home, 200)] == [PageEntry(Home, 200)];
    assert {} + {PageA, PageX} == {PageA, PageX};
  }

  /** The whole crawl with maximum depth 2 records the home page, /a, /b and /x,
      in that order; /y is admitted (by /b, at depth 3) but never recorded. */
  lemma DetourCrawl()
    ensures var e := (u: Url) => PageEntry(u, 200);
      Crawl(Settings(2), Site(Links))
        == State({PageA, PageX, PageB, PageY}, [e(Home), e(PageA), e(PageB), e(PageX)])
  {
    var c, env := Settings(2), Site(Links);
    var e := (u: Url) => PageEntry(u, 200);
    var s1 := State({PageA, PageX}, [e(Home)]);
    var s2 := State({PageA, PageX, PageB, PageY}, [e(Home), e(PageA), e(PageB)]);
    DetourVisitHome();
    DetourVisitA();
    DetourVisitX();
    assert [PageA, PageX][1..] == [PageX] && [PageX][1..] == [];
    assert GenerateAll(c, env, s1, [PageA, PageX], 2, 1) == GenerateAll(c, env, s2, [PageX], 2, 1);
  }

  /** /y is two hops from the home page: home -> /x -> /y. */
  lemma DetourTwoHops()
    ensures WithinHops(Settings(2), Site(Links), PageY, 2)
  {
    var c, env := Settings(2), Site(Links);
    assert Hop(c, env, Home, PageX) by {
      assert env.join(Home, "/xxx") == PageX;
      assert "/xxx" in Links(Home);
    }
    assert Reachable(c, env, Home, 0);
    assert Reachable(c, env, PageX, 1);
    assert Hop(c, env, PageX, PageY) by {
      assert Links(PageX) == ["/yyyy"] by { assert |PageX| == 27; }
      assert env.join(PageX, "/yyyy") == PageY;
      assert "/yyyy" in Links(PageX);
    }
    assert Reachable(c, env, PageY, 2);
  }

  /** The hop bound of a crawl is soundness only: /y is within `max_depth` hops
      of the start, yet the depth-first order reaches it first on the longer
      path through /a and /b, and once it is visited the short path cannot
      admit it again. */
  lemma DetourHidesShortPath()
    ensures var r := Crawl(Settings(2), Site(Links));
      (forall i :: 0 <= i < |r.entries| ==> r.entries[i].loc != PageY)
      && WithinHops(Settings(2), Site(Links), PageY, 2)
  {
    DetourCrawl();
    DetourTwoHops();
    assert PageY != Home && PageY != PageA && PageY != PageB && PageY != PageX by { assert |PageY| == 28; }
  }
}
