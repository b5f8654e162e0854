# Sitemap crawler: a Dafny model of its decision logic

The crawler in `sitemap_generator.py` starts at `START_URL` and calls `generate_sitemap` recursively. Each call applies, in order:

1. a depth guard;
2. a fetch-outcome check (exception or status other than 200);
3. an optional modification-time filter.

A page that passes all three is recorded in `urlset` by `process_page`. Its `href`s are then run through an admission loop that does check-and-insert on the global `visited_urls`. The admitted links are handed to a thread pool at `depth + 1`.

This project models that logic as follows.

- `model.dfy` (`SitemapModel`) holds the entities:
  - `Entry`, one `url` element;
  - `Fetch`, the outcome of `session.get`;
  - `Config`, the module globals;
  - `Env`, the network plus `urljoin` and `urlparse(...).netloc`, taken as arbitrary total functions;
  - `State`, which is `visited_urls` together with the entry list;
  - the depth-guard and time-filter predicates.
- `admission.dfy` (`LinkAdmission`) gives the admission loop as a function, `Admit`, and characterises it exactly.
- `crawl.dfy` (`CrawlSpec`) gives one call of `generate_sitemap` as a function of the state before it:
  - `Generate` covers one page, and `GenerateAll` its children in admission order;
  - `Crawl` is the script's call on `START_URL`;
  - it also holds the invariants that a whole crawl keeps.
- `crawler.dfy` (`SitemapGenerator`) is the program as it runs. The globals become the fields of a `Crawler` object. `ProcessPage`, `AdmitLinks` (a `while` loop) and `GenerateSitemap` (recursive) change those fields in place. Each method is proved equal to its function above. `BuildSitemap` is the script.
- `scenarios.dfy` holds concrete sites that show where behaviour is exact rather than merely bounded.

Two facts about the code are modelled as written:

- **The start URL is never put into `visited_urls` by the script.** So a page that links back to it admits it, and the start URL can be recorded a second time. That happens when the linking page is below `max_depth`, so that the admitted child is fetched. `CrawlRecordsOnce` proves that this is the only duplication: every other URL is recorded at most once, and the start URL at most twice. `StartRecordedTwice` shows that twice is reached.
- **Admitted URLs are the raw `urljoin` result.** Query and fragment are kept, so `/b#x` and `/b` are distinct keys (`FragmentsNotStripped`). The code strips neither query nor fragment and never consults robots.txt; the model follows the code.

Concurrency is modelled by sequentialisation. The lock makes each check-and-insert and each append atomic. The children of a page run one after another in admission order, which is one of the schedules the thread pool allows.

## Model

| member | source | states |
|---|---|---|
| `LinkAdmission.Admit` | sitemap_generator.py:82-92 | every admitted URL was absent from `visited_urls` before the loop and has host equal to `DOMAIN`; `links_to_process` has no duplicates |
| `LinkAdmission.AdmitExactly` | sitemap_generator.py:84-92 | a URL is admitted if and only if it is not yet visited, its host equals `DOMAIN`, and it is `urljoin(base, href)` for some `href` of the page not starting with `#` |
| `LinkAdmission.FragmentRefsIgnored` | sitemap_generator.py:86 | an `href` starting with `#` contributes nothing, whatever it would resolve to |
| `LinkAdmission.AdmitConcat` | sitemap_generator.py:84-92 | the loop over `a + b` admits what it admits over `a`, followed by what it admits over `b` starting from the enlarged visited set: only `visited_urls` carries over between iterations |
| `LinkAdmission.AdmitSnoc` | sitemap_generator.py:84-92 | one more iteration appends the resolved `href` exactly when it does not start with `#`, is not in the visited set the earlier iterations left, and is on `DOMAIN`; otherwise it appends nothing |
| `CrawlSpec.Generate` | sitemap_generator.py:50-96 | `visited_urls` only grows and earlier entries are unchanged; a call with `depth > max_depth`, a fetch exception, a status other than 200, or a filtered page with `lastmod <= threshold` changes nothing; otherwise the first new entry is `(url, lastmod, "daily", "1.0")`. That the page then descends into its admitted links is `GenerateDescends` |
| `CrawlSpec.GenerateAll` | sitemap_generator.py:94-96 | running the admitted children one after another only grows `visited_urls`, keeps earlier entries, and does nothing when the children's depth exceeds `max_depth`. That every child is run and, when accepted, recorded is `GenerateAllRecords` |
| `CrawlSpec.GenerateAllRecords` | sitemap_generator.py:94-96 | at a depth within `max_depth`, every child in the list whose fetch is accepted has its entry `(url, lastmod, "daily", "1.0")` in the result, whatever its siblings do |
| `CrawlSpec.GenerateDescends` | sitemap_generator.py:79-96 | an accepted page within `max_depth` leaves every link it admits in `visited_urls` (line 91). Below `max_depth` each admitted child whose fetch is accepted is recorded (lines 95-96) |
| `CrawlSpec.CrawlDescends` | sitemap_generator.py:50-100 | with `MAX_DEPTH >= 1` and the start page accepted, every link the start page admits is in `visited_urls` after the crawl, and is recorded when its own fetch is accepted |
| `CrawlSpec.AtMaxDepth` | sitemap_generator.py:54-96 | a page at exactly `depth == max_depth` is still recorded and still inserts its admitted links into `visited_urls`, but no child is fetched: the result is exactly one new entry plus the admitted links |
| `CrawlSpec.GenerateSound` | sitemap_generator.py:50-96 | keeps the crawl invariant: every visited URL is on `DOMAIN`; every entry is the start URL or a visited URL, was fetched with status 200, passed the time filter, carries its fetched `lastmod`, `daily` and `1.0`, and is reachable from the start URL within `max_depth` hops |
| `CrawlSpec.GenerateAllSound` | sitemap_generator.py:94-96 | the same invariant holds after all admitted children have run |
| `CrawlSpec.GenerateTickets` | sitemap_generator.py:79-96 | one call records its own URL at most once. Every URL it admits gets exactly one pending call, because the URL is inserted into `visited_urls` at admission. So no URL is recorded more often than the calls it was given |
| `CrawlSpec.GenerateAllTickets` | sitemap_generator.py:94-96 | handing each admitted URL to exactly one child call spends exactly one pending call per URL |
| `CrawlSpec.Crawl` | sitemap_generator.py:50-100 | the script's call `generate_sitemap(START_URL)` on empty globals. The sitemap is empty when `MAX_DEPTH` is negative, the start fetch raises, its status is not 200, or the filter drops it. Otherwise the first entry is `(START_URL, lastmod, "daily", "1.0")` |
| `CrawlSpec.CrawlRecordsOnce` | sitemap_generator.py:50-100 | in a whole crawl no URL other than `START_URL` is recorded more than once; `START_URL` is recorded at most twice, and twice only if it ended up in `visited_urls` |
| `CrawlSpec.CrawlSound` | sitemap_generator.py:50-100 | in a whole crawl every visited URL is on `DOMAIN`. Every entry is on `DOMAIN` unless it is `START_URL`, answered 200, has `lastmod > threshold` when the filter is on, carries `daily` and `1.0`, and is within `MAX_DEPTH` hops of the start. This bound is soundness only: a URL within `MAX_DEPTH` hops need not be recorded (`DetourHidesShortPath`) |
| `SitemapGenerator.Crawler.constructor` | sitemap_generator.py:25-29 | the globals start as an empty `visited_urls` and an empty `urlset` |
| `SitemapGenerator.Crawler.ProcessPage` | sitemap_generator.py:38-47 | the entry list grows by exactly one element `(url, lastmod, "daily", "1.0")`; earlier entries and `visited_urls` are unchanged |
| `SitemapGenerator.Crawler.AdmitLinks` | sitemap_generator.py:82-92 | returns `Admit` of the old `visited_urls`. Afterwards `visited_urls` is the old set plus the returned links and nothing else. The links are new, on `DOMAIN` and distinct |
| `SitemapGenerator.Crawler.GenerateSitemap` | sitemap_generator.py:50-96 | the new `visited_urls` and entry list are those `Generate` gives for the old ones: same guard order, and each admitted URL is handed on once, at `depth + 1` with the same `max_depth` |
| `SitemapGenerator.BuildSitemap` | sitemap_generator.py:99-104 | the written `urlset` is the whole crawl's entry list. No URL in it repeats except `START_URL`, which appears at most twice. Every entry is on `DOMAIN` unless it is `START_URL`, answered 200, and passes the time filter. With `MAX_DEPTH >= 1` and the start page accepted, every link it admits whose fetch is accepted is in `urlset` |
| `Scenarios.SelfLinkFirstVisit` | sitemap_generator.py:54-96 | with `max_depth` 10, the home page linking to itself is recorded at depth 0 and admits itself, because the script never put it into `visited_urls` |
| `Scenarios.SelfLinkSecondVisit` | sitemap_generator.py:54-96 | the admitted self-link, fetched at depth 1, records the home page again and admits nothing, since it is now visited |
| `Scenarios.StartRecordedTwice` | sitemap_generator.py:86-100 | a home page linking to itself yields exactly two entries for `START_URL` |
| `Scenarios.FragmentsNotStripped` | sitemap_generator.py:85-92 | from `#top`, `/b#x`, `/b`, the loop admits `.../b#x` and `.../b` as two URLs and skips `#top` |
| `Scenarios.DepthZeroRecordsOnlyStart` | sitemap_generator.py:54-96 | with `max_depth` 0 only the start page is recorded; its link is inserted into `visited_urls` but never fetched |
| `Scenarios.DetourVisitHome` | sitemap_generator.py:54-96 | on a site where home links to /a and /x, /a to /b, and /b and /x to /y (paths `/a`, `/bb`, `/xxx`, `/yyyy`), with `max_depth` 2, the home page is recorded and admits /a then /x |
| `Scenarios.DetourVisitA` | sitemap_generator.py:54-96 | /a at depth 1 is recorded, admits /b, and /b's subtree runs before /x |
| `Scenarios.DetourVisitB` | sitemap_generator.py:54-96 | /b at depth 2 (the maximum) is recorded and inserts /y into `visited_urls`, but the call for /y at depth 3 returns at once |
| `Scenarios.DetourVisitX` | sitemap_generator.py:84-92 | /x at depth 1 is recorded, but /y is already visited, so /x admits nothing |
| `Scenarios.DetourCrawl` | sitemap_generator.py:50-100 | the whole crawl of that site records home, /a, /b and /x in that order, and visits /y without recording it |
| `Scenarios.DetourTwoHops` | sitemap_generator.py:84-92 | /y is two hops from home, through /x |
| `Scenarios.DetourHidesShortPath` | sitemap_generator.py:50-100 | /y is within `max_depth` hops of the start yet absent from the sitemap: depth-first order reaches it first on the longer path, and once visited it is not admitted again |
| `Scenarios.StalePageDropped` | sitemap_generator.py:76-77 | with the filter on, a start page with `lastmod` equal to the threshold gives an empty sitemap and admits nothing |

The guards are written once, as small predicates in `SitemapModel`. The bodies of the functions and methods above use them. The contracts of `Generate`, `Crawl` and `ProcessPage` state the same guards and the same record in raw terms. The predicates are:

- `BeyondDepth` is the depth guard (line 54).
- `Accepted` combines the fetch checks and the filter (lines 60-65 and 76).
- `FilteredOut` is the time filter (line 76).
- `IsFragmentRef` is the `#` test (line 86).
- `PageEntry` is the record `process_page` builds (lines 43-47).

## Left out

- The `print` diagnostics on a fetch exception and on a status other than 200 (lines 61 and 65) are console output. The model keeps only the early return that follows them.
- HTTP fetching (`session.get`, line 59) is network I/O. Its outcome is an input: `Env.fetch` gives, for each URL, an exception or a status, a timestamp and the page's `href`s. The same URL always gives the same outcome, so a page that changes between two fetches of the start URL is not modelled. `session.get` is called without a timeout, so a fetch can block forever and the script never reaches `tree.write` (line 104). A fetch that never returns is not modelled.
- HTML parsing (`BeautifulSoup`, `find_all('a', href=True)`, lines 69 and 84) is a foreign library. The `href`s are part of the fetch outcome, in document order.
- `urljoin` and `urlparse(...).netloc` (lines 87-88) are library URL semantics. They are arbitrary total functions in `Env`, so every property holds whatever values they return.
- A `ValueError` from `urljoin` or `urlparse` inside the admission loop (lines 87-88) is not modelled; `Env.join` and `Env.netloc` always return. An example is an `href` of `http://[x`. By then `process_page` (line 79) has already appended the page, and the earlier `href`s (line 91) have already put their URLs into `visited_urls`. The exception skips the executor block (lines 95-96), so those admitted pages are lost: no call ever fetches them. At `START_URL` the exception ends the script before `tree.write` (line 104), so no sitemap file is written. `Admit`, `Generate` and `BuildSitemap` always finish and cannot show either outcome.
- Date handling (lines 72-73): `lastmod` is an integer. Three behaviours are not modelled. First, the `datetime.now().isoformat()` default for a missing `Last-Modified` header, which `parsedate_to_datetime` rejects. Second, the exception any malformed date raises. Third, comparing a naive with an aware datetime. Each would abort the call: silently in a pool worker, and the whole script for `START_URL`.
- The lock and `ThreadPoolExecutor` (lines 32, 42, 89, 95-96) are concurrency. Guarded blocks are atomic, and children run sequentially in admission order. Other interleavings of sibling subtrees are not modelled, nor are exceptions swallowed by `executor.map`.
- XML construction and `tree.write` (lines 26, 103-104) are serialization and file I/O. `urlset` is a sequence of `Entry` records, and `lastmod.isoformat()` is not rendered.
- `config.py` reads environment variables and has no logic to model. Its `RESPECT_ROBOTS_TXT`, `REQUEST_TIMEOUT` and `USER_AGENT` are not used by `sitemap_generator.py`. There is no robots.txt check or request timeout in the code, so none is modelled.
- `test_compatibility.py` and `test_generator.py` check the interpreter or drive a live site through a class that `sitemap_generator.py` does not define. They carry nothing to model.
