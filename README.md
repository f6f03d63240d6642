# External link checker, modelled in Dafny

`external_link_checker.py` crawls a website from a root URL. It follows same-site links and
records every link that leaves the site, together with the page it was found on. It then writes
these links to a CSV file. This project models that crawl engine in Dafny and proves what it
guarantees.

- **Origin test.** `is_external_link` becomes `Urls.IsExternal`. A link is external when its
  netloc differs from the root's.
- **URL resolution.** `urljoin(base_url, href)` becomes `Urls.Resolve`. An anchor is a `Href`:
  an absolute URL, a network-path reference (`//host/path`) or a path reference. Path references
  are merged with the root's path as in section 5.2.3 of RFC 3986.
- **Fetching and parsing.** `requests.get` + `raise_for_status` + BeautifulSoup's
  `find_all('a', href=True)` become a finite map `Crawl.Site` from URL to a `Response`. A
  response is either `Page(hrefs)` or `RequestError`. A URL the map does not hold fails like any
  other request.
- **Crawl state.** The module-level `visited_urls` set and `external_links` dict are the fields
  of `LinkChecker.Crawler`. The dict is a list of `Entry(link, source)` items with distinct
  links. This keeps Python's insertion order and its overwrite-in-place assignment. A ghost
  field `requests` logs every URL passed to `requests.get`, in call order. It is how "fetched
  at most once" is stated.
- **Crawl method.** `Crawler.ScrapeLinks` is `scrape_links`: a recursive method with the `for`
  loop over anchors. It is proved equal to the pure functions `Crawl.ScrapePage` /
  `Crawl.ScrapeAnchors`, which are a mutually recursive description of the same traversal.
  All properties are proved about those functions.
- **Termination.** On a cyclic site the crawl ends because the map is finite. Each recursive
  call strictly shrinks the set of linked URLs not yet visited.
- **Export and driver.** `Export.SaveToCsv` is the loop of `save_to_csv` and returns the rows it
  writes. `LinkChecker.Run` is `main`: crawl from the root, with the root also used as the
  resolution base, then export.

The main results:

- **Invariant.** `CrawlProperties.Sound` holds throughout: no page is requested twice, the log
  of requests and the visited set hold the same URLs, and every ledger entry is an external
  link found on its visited source page.
- **Whole-crawl theorem.** `CrawlTheorems.CrawlFromRootTheorem`: the crawl from the root visits
  exactly the pages reachable from the root by chains of internal links. Every external link
  on a visited page ends up in the ledger.
- **Last write wins.** The `Ledgers` lemmas: a second write to an existing link replaces its
  source page where it stands.
- **Worked example.** `Scenarios.ExampleCrawl` crawls a three-page site with a cycle.

Some descriptions of this tool mention a domain whitelist, filtering of `mailto:`/`tel:`
links, safety verdicts, screenshots and a sorted export. None of these is in
`external_link_checker.py`, and the model follows the code. A `mailto:` anchor resolves to a
URL with an empty netloc, so it is external and is recorded. Rows come out in dict order, not
sorted.

## Model

| member | source | states |
|---|---|---|
| `Urls.InternalIsSameNetloc` | external_link_checker.py:22-29 | no URL is external to itself; URLs with one netloc are both internal or both external; two URLs internal to one base are not external to each other |
| `Urls.Dir` | external_link_checker.py:49 | the directory part of a path is a prefix of it, ends in '/', and is followed by no '/' |
| `Urls.MergePath` | external_link_checker.py:49 | an absolute path replaces the base path; any merged path ends with the reference |
| `Urls.PathRefStaysInternal` | external_link_checker.py:49-51 | an href with no authority resolves onto the root's netloc, so it is never external |
| `Urls.ResolvedAgainstRoot` | external_link_checker.py:49 | resolving against the root gives `/about` for the anchor `about`; resolving against the page `/blog/` would give `/blog/about` |
| `Ledgers.Keys` | external_link_checker.py:68 | the dict's keys, one per entry, in iteration order |
| `Ledgers.Get` | external_link_checker.py:52 | a lookup fails exactly for links that are not keys; a hit is an entry of the dict |
| `Ledgers.Put` | external_link_checker.py:52 | assigning an existing key keeps the key sequence and the size; assigning a new key appends one entry at the end; nothing else appears |
| `Ledgers.PutExisting` | external_link_checker.py:52 | overwriting a present link changes only the source at that link's position |
| `Ledgers.PutKeepsUnique` | external_link_checker.py:14 | assignment keeps the links pairwise distinct |
| `Ledgers.GetPut` | external_link_checker.py:52 | last write wins: the written link now maps to the new source, every other link is unchanged |
| `Ledgers.OverwriteForgetsEarlier` | external_link_checker.py:52 | writing a source and then another under one link is the same as writing the second alone |
| `Crawl.ScrapePage` | external_link_checker.py:31-57 | the visited set only grows and contains the URL afterwards, even when its request failed; an already visited URL leaves the state unchanged |
| `Crawl.ScrapeAnchors` | external_link_checker.py:48-54 | processing anchors only grows the visited set |
| `Crawl.InDomain` | external_link_checker.py:48-49 | every resolved anchor of a fetched page lies in the finite set of linked URLs |
| `Crawl.MarkingShrinks` | external_link_checker.py:39-42 | marking an unvisited URL strictly shrinks the set of linked URLs still unvisited (termination) |
| `Crawl.GrowingShrinks` | external_link_checker.py:50-54 | a recursive call is made on a linked URL after the visited set has grown, so the measure does not grow (termination) |
| `CrawlProperties.InitialSound` | external_link_checker.py:11-14 | the empty set and dict satisfy the crawl invariant |
| `CrawlProperties.ScrapePageSound` | external_link_checker.py:37-57 | at most one request per URL, requests equal to visited URLs, distinct ledger links, every ledger key external, every source visited and linking to its key: all kept by `scrape_links` |
| `CrawlProperties.ScrapeAnchorsSound` | external_link_checker.py:48-54 | the same invariant is kept by the anchor loop |
| `CrawlProperties.ScrapePageAppends` | external_link_checker.py:42-44 | the request log and the ledger's key order are only extended, never reordered |
| `CrawlProperties.ScrapeAnchorsAppends` | external_link_checker.py:50-54 | the same for the anchor loop, including the overwrite at :52 |
| `CrawlProperties.ScrapePageStaysInternal` | external_link_checker.py:51-54 | apart from the URL it was called on, a crawl visits only internal pages; external links are never recursed into |
| `CrawlProperties.ScrapeAnchorsStaysInternal` | external_link_checker.py:51-54 | every page visited by the anchor loop is internal |
| `CrawlProperties.ScrapePageExplores` | external_link_checker.py:39-57 | every page a crawl newly visits ends with each of its links visited or recorded |
| `CrawlProperties.ScrapeAnchorsExplores` | external_link_checker.py:48-54 | the same for pages visited inside the anchor loop |
| `CrawlProperties.ScrapeAnchorsCoversLinks` | external_link_checker.py:48-54 | after the loop over some anchors, each of their links is visited or a ledger key |
| `CrawlTheorems.ScrapePageDiscovers` | external_link_checker.py:39-54 | each request after the first is for a link found on an earlier requested page |
| `CrawlTheorems.ScrapeAnchorsDiscovers` | external_link_checker.py:48-54 | the same for the anchor loop |
| `CrawlTheorems.RequestedIsReachable` | external_link_checker.py:51-54 | every requested page is reachable from the root: the lemma builds the chain of internal links along which it was discovered |
| `CrawlTheorems.ReachableIsVisited` | external_link_checker.py:48-54 | once the crawl is complete, every page reachable by internal links has been visited |
| `CrawlTheorems.KeysExternal` | external_link_checker.py:51-52 | every key of the ledger is an external link |
| `CrawlTheorems.RootCrawlInvariants` | external_link_checker.py:77 | after the crawl from the root: the invariant holds, requests are in discovery order, the root is visited, every visited page is internal and explored |
| `CrawlTheorems.FinishedCrawl` | external_link_checker.py:37-54 | a state with those invariants begins its requests with the root, has visited exactly the reachable pages and holds every external link of a visited page |
| `CrawlTheorems.CrawlFromRootTheorem` | external_link_checker.py:77 | `scrape_links(base_url, base_url)` from the empty state: the invariant holds; the first request is the root; visited = reachable by internal links; every external link of a visited page is in the ledger |
| `Export.EntryRows` | external_link_checker.py:68-69 | one `[link, source]` row per dict entry, at the entry's position |
| `Export.Rows` | external_link_checker.py:67-69 | the header `['External Link', 'Source Page']`, then exactly one row per ledger entry in dict order |
| `Export.SaveToCsv` | external_link_checker.py:59-69 | the loop writes exactly `Rows` of the ledger |
| `LinkChecker.Crawler.constructor` | external_link_checker.py:11-14 | the crawl state starts empty |
| `LinkChecker.Crawler.ScrapeLinks` | external_link_checker.py:31-57 | the in-place crawl leaves the fields equal to `ScrapePage` of the old state; the visited set grows and contains `url`; the invariant is kept |
| `LinkChecker.Run` | external_link_checker.py:71-78 | the rows written are those of the ledger produced by crawling from the root |
| `Scenarios.ContactStep` | external_link_checker.py:48-54 | on the example site, `/contact` skips the link back to `/` and records two external links |
| `Scenarios.EnterContact` | external_link_checker.py:39-54 | crawling `/contact` from `/` requests it once and explores it |
| `Scenarios.RootFirstAnchor` | external_link_checker.py:49-54 | the first anchor of `/` resolves to `/contact`, which is crawled |
| `Scenarios.OtherOverwritten` | external_link_checker.py:52 | writing a present link again replaces its source where it stands |
| `Scenarios.ExampleCrawl` | external_link_checker.py:52 | the example crawl visits `/` and `/contact` once each; a link found on both pages keeps its first position and takes its last writer as source |
| `Scenarios.ExampleRows` | external_link_checker.py:67-69 | the example's CSV rows: the header, then those two entries in dict order |

## Left out

- Network I/O: `requests.get`, `raise_for_status`, the proxy dict and the SSL-warning switch
  (external_link_checker.py:6-9, 16-20, 44-45). Their combined effect is a `Response` in the
  `Site` map. Timeouts and retries do not exist in the source.
- HTML parsing by BeautifulSoup (:46-48). Its output is the `hrefs` sequence of a `Page`, in
  document order.
- `urlparse` and `urljoin` internals (:29, :49). `Resolve` keeps the root's scheme and netloc
  for relative references and merges paths. It does not remove dot segments (`../`), and it
  gives no special treatment to query-only or fragment-only references.
- URLs are compared as the triple (scheme, netloc, rest), not as their strings. `Text` renders
  a URL for the CSV file.
- Exceptions other than `RequestException` propagate out of `scrape_links` in Python. Examples
  are a parser failure or a `RecursionError` on a very deep site. They are not modelled, and
  the model's crawl always completes.
- Termination relies on the `Site` map being finite. A site that links to infinitely many
  internal URLs would keep the Python program crawling forever; it has no counterpart here.
- The module-level state persists between calls to `main` within one Python process.
  `Run` always starts from a fresh `Crawler`. `Crawler.ScrapeLinks` works from any prior
  state.
- Writing the CSV file: opening, UTF-8 encoding and CSV quoting (:65-66). `SaveToCsv` returns
  the rows instead.
- The `print` logging (:57, :79) and the `argparse` command line (:81-86).
