/** What `scrape_links` computes, as functions on the crawl state: the visited
    set, the external-link ledger and the log of pages requested. The
    `Crawler` class in `checker.dfy` runs the same traversal in place and is
    proved equal to `ScrapePage`. */
module Crawl {
  import opened Urls
  import opened Ledgers

  /** What `requests.get` followed by `find_all('a', href=True)` gives for a
      URL: the page's anchors, or a request error (a network failure, or a
      status that `raise_for_status` rejects). */
  datatype Response = Page(hrefs: seq<Href>) | RequestError

  /** The web as the crawler can see it. A URL the map does not hold fails
      like any other request. The map being finite is what makes the crawl
      end: only finitely many internal URLs are ever linked. */
  type Site = map<Url, Response>

  function Fetch(site: Site, url: Url): Response
  {
    if url in site then site[url] else RequestError
  }

  /** The anchors of a page; none when the request fails. */
  function Anchors(site: Site, url: Url): seq<Href>
  {
    match Fetch(site, url)
    case Page(hrefs) => hrefs
    case RequestError => []
  }

  /** Every anchor of a sequence, resolved against the crawl root. */
  function ResolveAll(base: Url, hrefs: seq<Href>): (links: seq<Url>)
    ensures |links| == |hrefs|
    ensures forall i :: 0 <= i < |hrefs| ==> links[i] == Resolve(base, hrefs[i])
  {
    if hrefs == [] then [] else ResolveAll(base, hrefs[..|hrefs| - 1]) + [Resolve(base, hrefs[|hrefs| - 1])]
  }

  /** `page` was fetched and one of its anchors resolves to `link`. */
  predicate LinksTo(site: Site, base: Url, page: Url, link: Url)
  {
    link in ResolveAll(base, Anchors(site, page))
  }

  /** Every URL an anchor anywhere on the site resolves to. */
  ghost function Domain(site: Site, base: Url): set<Url>
  {
    set p, h | p in site && h in Anchors(site, p) :: Resolve(base, h)
  }

  lemma InDomain(site: Site, base: Url, page: Url, h: Href)
    requires h in Anchors(site, page)
    ensures Resolve(base, h) in Domain(site, base)
  {
  }

  /** The module-level state of the program, plus the pages requested, in
      the order in which `requests.get` was called on them. */
  datatype CrawlState = CrawlState(visited: set<Url>, externalLinks: Ledger, requests: seq<Url>)

  /** The state before `main` runs: nothing visited, recorded or requested. */
  const Initial := CrawlState({}, [], [])

  /** `visited_urls.add(url)` followed by the call to `requests.get(url)`. */
  function Mark(st: CrawlState, url: Url): CrawlState
  {
    CrawlState(st.visited + {url}, st.externalLinks, st.requests + [url])
  }

  /** `scrape_links(url, base_url)`: a visited URL returns at once; otherwise
      it is marked visited, then requested; a failed request abandons the
      page; a fetched page has its anchors processed in document order. */
  function ScrapePage(site: Site, base: Url, url: Url, st: CrawlState): (r: CrawlState)
    ensures st.visited <= r.visited && url in r.visited
    ensures url in st.visited ==> r == st
    decreases |(Domain(site, base) + {url}) - st.visited|, 0
  {
    if url in st.visited then st
    else
      var marked := Mark(st, url);
      match Fetch(site, url)
      case RequestError => marked
      case Page(hrefs) =>
        MarkingShrinks(Domain(site, base), st.visited, url);
        ScrapeAnchors(site, base, url, hrefs, marked)
  }

  /** The `for` loop of `scrape_links` over the first `|hrefs|` anchors of
      `page`: each anchor is resolved against `base`; a link already visited
      is skipped, an external one is written into the ledger with `page` as
      its source, an internal one is crawled. */
  function ScrapeAnchors(site: Site, base: Url, page: Url, hrefs: seq<Href>, st: CrawlState): (r: CrawlState)
    requires hrefs <= Anchors(site, page)
    ensures st.visited <= r.visited
    decreases |Domain(site, base) - st.visited|, 1, |hrefs|
  {
    if hrefs == [] then st
    else
      var before := ScrapeAnchors(site, base, page, hrefs[..|hrefs| - 1], st);
      var link := Resolve(base, hrefs[|hrefs| - 1]);
      if link in before.visited then before
      else if IsExternal(link, base) then before.(externalLinks := Put(before.externalLinks, link, page))
      else
        InDomain(site, base, page, hrefs[|hrefs| - 1]);
        GrowingShrinks(Domain(site, base), st.visited, before.visited, link);
        ScrapePage(site, base, link, before)
  }

  lemma MarkingShrinks(d: set<Url>, v: set<Url>, u: Url)
    requires u !in v
    ensures |d - (v + {u})| < |(d + {u}) - v|
  {
    var rest := d - (v + {u});
    assert (d + {u}) - v == rest + {u};
  }

  lemma GrowingShrinks(d: set<Url>, v: set<Url>, w: set<Url>, u: Url)
    requires v <= w && u in d
    ensures |(d + {u}) - w| <= |d - v|
  {
    assert d + {u} == d;
    SubsetNoLarger(d - w, d - v);
  }

  lemma {:induction false} SubsetNoLarger(a: set<Url>, b: set<Url>)
    requires a <= b
    ensures |a| <= |b|
    decreases a
  {
    if a != {} {
      var x :| x in a;
      SubsetNoLarger(a - {x}, b - {x});
    }
  }
}
