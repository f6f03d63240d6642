/** The program itself: the module-level `visited_urls` and `external_links`
    as the fields of a `Crawler`, `scrape_links` as a recursive method that
    updates them in place, and `main`. */
module LinkChecker {
  import opened Urls
  import opened Ledgers
  import opened Crawl
  import opened CrawlProperties
  import opened CrawlTheorems
  import opened Export

  class Crawler {
    /** `visited_urls`. */
    var visitedUrls: set<Url>
    /** `external_links`. */
    var externalLinks: Ledger
    /** The pages passed to `requests.get` so far, in call order. */
    ghost var requests: seq<Url>

    ghost function State(): CrawlState
      reads this
    {
      CrawlState(visitedUrls, externalLinks, requests)
    }

    /** The state at import time: an empty set and an empty dict. */
    constructor ()
      ensures State() == Initial
    {
      visitedUrls := {};
      externalLinks := [];
      requests := [];
    }

    /** `scrape_links(url, base_url)`, over the pages `site` serves. */
    method ScrapeLinks(url: Url, base: Url, site: Site)
      modifies this
      ensures State() == ScrapePage(site, base, url, old(State()))
      ensures old(visitedUrls) <= visitedUrls && url in visitedUrls
      ensures Sound(site, base, old(State())) ==> Sound(site, base, State())
      decreases |(Domain(site, base) + {url}) - visitedUrls|, 0
    {
      ghost var entry := State();
      if Sound(site, base, entry) {
        ScrapePageSound(site, base, url, entry);
      }
      if url in visitedUrls {
        return;
      }
      visitedUrls := visitedUrls + {url};
      requests := requests + [url];
      var response := Fetch(site, url);
      if response.RequestError? {
        return;
      }
      ghost var marked := State();
      assert marked == Mark(entry, url);
      var anchors := response.hrefs;
      for i := 0 to |anchors|
        invariant State() == ScrapeAnchors(site, base, url, anchors[..i], marked)
      {
        var link := Resolve(base, anchors[i]);
        if link !in visitedUrls {
          if IsExternal(link, base) {
            externalLinks := Put(externalLinks, link, url);
          } else {
            InDomain(site, base, url, anchors[i]);
            GrowingShrinks(Domain(site, base), marked.visited, visitedUrls, link);
            MarkingShrinks(Domain(site, base), entry.visited, url);
            ScrapeLinks(link, base, site);
          }
        }
        assert anchors[..i + 1][..i] == anchors[..i];
      }
      assert anchors[..|anchors|] == anchors;
    }
  }

  /** `main(base_url, output_file)`: crawl from the root, with the root as
      the base every link is resolved against, then export the ledger. The
      result is the rows written to `output_file`. */
  method Run(base: Url, site: Site) returns (rows: seq<Row>)
    ensures rows == Rows(CrawlFromRoot(site, base).externalLinks)
  {
    var crawler := new Crawler();
    crawler.ScrapeLinks(base, base, site);
    rows := SaveToCsv(crawler.externalLinks);
  }
}
