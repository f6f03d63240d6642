/** The crawl that `main` starts, `scrape_links(base_url, base_url)`, seen as
    a whole: it visits exactly the pages reachable from the root by internal
    links, requests each of them once, and records every external link that
    any of them holds. */
module CrawlTheorems {
  import opened Urls
  import opened Ledgers
  import opened Crawl
  import opened CrawlProperties

  /** Every request but the first is for a link found on a page requested
      earlier; the first is for the root. */
  ghost predicate Discovered(site: Site, base: Url, root: Url, st: CrawlState)
  {
    InDiscoveryOrder(site, base, root, st.requests)
  }

  ghost predicate InDiscoveryOrder(site: Site, base: Url, root: Url, requests: seq<Url>)
  {
    && (requests != [] ==> requests[0] == root)
    && (forall i :: 0 < i < |requests| ==>
          exists j :: 0 <= j < i && LinksTo(site, base, requests[j], requests[i]))
  }

  /** `url` may be crawled next without breaking `Discovered`: it is already
      visited, or it is the root of a crawl that has not started, or a visited
      page links to it. */
  ghost predicate MayRequest(site: Site, base: Url, root: Url, st: CrawlState, url: Url)
  {
    || url in st.visited
    || (st.requests == [] && url == root)
    || (exists p :: p in st.visited && LinksTo(site, base, p, url))
  }

  lemma {:induction false} ScrapePageDiscovers(site: Site, base: Url, root: Url, url: Url, st: CrawlState)
    requires Sound(site, base, st) && Discovered(site, base, root, st)
    requires MayRequest(site, base, root, st, url)
    ensures Discovered(site, base, root, ScrapePage(site, base, url, st))
    decreases |(Domain(site, base) + {url}) - st.visited|, 0
  {
    if url !in st.visited {
      var marked := Mark(st, url);
      MarkDiscovers(site, base, root, st, url);
      assert Sound(site, base, marked) by {
        assert url !in st.requests;
      }
      match Fetch(site, url)
      case RequestError =>
      case Page(hrefs) =>
        MarkingShrinks(Domain(site, base), st.visited, url);
        ScrapeAnchorsDiscovers(site, base, root, url, hrefs, marked);
    }
  }

  lemma MarkDiscovers(site: Site, base: Url, root: Url, st: CrawlState, url: Url)
    requires forall u :: u in st.visited ==> u in st.requests
    requires Discovered(site, base, root, st)
    requires MayRequest(site, base, root, st, url) && url !in st.visited
    ensures Discovered(site, base, root, Mark(st, url))
  {
    if st.requests == [] {
      assert st.requests + [url] == [root];
    } else {
      var p :| p in st.visited && LinksTo(site, base, p, url);
      AppendLinked(site, base, root, st.requests, p, url);
    }
  }

  lemma AppendLinked(site: Site, base: Url, root: Url, requests: seq<Url>, p: Url, url: Url)
    requires InDiscoveryOrder(site, base, root, requests)
    requires p in requests && LinksTo(site, base, p, url)
    ensures InDiscoveryOrder(site, base, root, requests + [url])
  {
    var m := requests + [url];
    var j :| 0 <= j < |requests| && requests[j] == p;
    assert m[j] == p && m[|requests|] == url;
    forall i | 0 < i < |requests| ensures exists j :: 0 <= j < i && LinksTo(site, base, m[j], m[i]) {
      var j :| 0 <= j < i && LinksTo(site, base, requests[j], requests[i]);
      assert m[j] == requests[j] && m[i] == requests[i];
    }
  }

  lemma {:induction false} ScrapeAnchorsDiscovers(site: Site, base: Url, root: Url, page: Url, hrefs: seq<Href>, st: CrawlState)
    requires hrefs <= Anchors(site, page)
    requires Sound(site, base, st) && Discovered(site, base, root, st) && page in st.visited
    ensures Discovered(site, base, root, ScrapeAnchors(site, base, page, hrefs, st))
    decreases |Domain(site, base) - st.visited|, 1, |hrefs|
  {
    if hrefs != [] {
      var prefix := hrefs[..|hrefs| - 1];
      ScrapeAnchorsDiscovers(site, base, root, page, prefix, st);
      ScrapeAnchorsSound(site, base, page, prefix, st);
      var before := ScrapeAnchors(site, base, page, prefix, st);
      var link := Resolve(base, hrefs[|hrefs| - 1]);
      if link !in before.visited && !IsExternal(link, base) {
        LastAnchorLinked(site, base, page, hrefs);
        InDomain(site, base, page, hrefs[|hrefs| - 1]);
        GrowingShrinks(Domain(site, base), st.visited, before.visited, link);
        ScrapePageDiscovers(site, base, root, link, before);
      }
    }
  }

  /** A chain of internal links from the root: the pages a crawl is meant to
      reach. */
  ghost predicate IsCrawlPath(site: Site, base: Url, path: seq<Url>)
  {
    && |path| > 0 && path[0] == base
    && (forall i :: 0 <= i < |path| ==> !IsExternal(path[i], base))
    && (forall i :: 0 <= i < |path| - 1 ==> LinksTo(site, base, path[i], path[i + 1]))
  }

  ghost predicate Reachable(site: Site, base: Url, u: Url)
  {
    exists path :: IsCrawlPath(site, base, path) && path[|path| - 1] == u
  }

  /** The chain of internal links along which the `i`-th request was
      discovered. */
  lemma {:induction false} RequestedIsReachable(site: Site, base: Url, requests: seq<Url>, i: nat)
      returns (path: seq<Url>)
    requires InDiscoveryOrder(site, base, base, requests)
    requires forall j :: 0 <= j < |requests| ==> !IsExternal(requests[j], base)
    requires i < |requests|
    ensures IsCrawlPath(site, base, path) && path[|path| - 1] == requests[i]
    decreases i
  {
    if i == 0 {
      path := [base];
    } else {
      var j :| 0 <= j < i && LinksTo(site, base, requests[j], requests[i]);
      var prefix := RequestedIsReachable(site, base, requests, j);
      ExtendPath(site, base, prefix, requests[i]);
      path := prefix + [requests[i]];
    }
  }

  lemma ExtendPath(site: Site, base: Url, path: seq<Url>, u: Url)
    requires IsCrawlPath(site, base, path)
    requires !IsExternal(u, base) && LinksTo(site, base, path[|path| - 1], u)
    ensures IsCrawlPath(site, base, path + [u]) && (path + [u])[|path|] == u
  {
    var longer := path + [u];
    forall i | 0 <= i < |longer| ensures !IsExternal(longer[i], base) {
      if i < |path| { assert longer[i] == path[i]; }
    }
    forall i | 0 <= i < |longer| - 1 ensures LinksTo(site, base, longer[i], longer[i + 1]) {
      if i < |path| - 1 { assert longer[i] == path[i] && longer[i + 1] == path[i + 1]; }
    }
  }

  lemma {:induction false} ReachableIsVisited(site: Site, base: Url, st: CrawlState, path: seq<Url>)
    requires base in st.visited
    requires forall p :: p in st.visited ==> Explored(site, base, st, p)
    requires forall k :: k in Keys(st.externalLinks) ==> IsExternal(k, base)
    requires IsCrawlPath(site, base, path)
    ensures path[|path| - 1] in st.visited
    decreases |path|
  {
    var n := |path|;
    if n > 1 {
      var shorter := path[..n - 1];
      assert IsCrawlPath(site, base, shorter);
      ReachableIsVisited(site, base, st, shorter);
      assert LinksTo(site, base, path[n - 2], path[n - 1]);
      assert !IsExternal(path[n - 1], base);
    }
  }

  /** The crawl `main` runs: `scrape_links(base_url, base_url)` on the empty
      state. */
  function CrawlFromRoot(site: Site, base: Url): CrawlState
  {
    ScrapePage(site, base, base, Initial)
  }

  /** Every key of a sound ledger is an external link. */
  lemma KeysExternal(site: Site, base: Url, st: CrawlState)
    requires Sound(site, base, st)
    ensures forall k :: k in Keys(st.externalLinks) ==> IsExternal(k, base)
  {
    forall k | k in Keys(st.externalLinks) ensures IsExternal(k, base) {
      var i :| 0 <= i < |st.externalLinks| && Keys(st.externalLinks)[i] == k;
      assert st.externalLinks[i] in st.externalLinks;
    }
  }

  /** The per-call lemmas, applied to the crawl from the root. */
  lemma RootCrawlInvariants(site: Site, base: Url)
    ensures var r := CrawlFromRoot(site, base);
            && Sound(site, base, r)
            && InDiscoveryOrder(site, base, base, r.requests)
            && base in r.visited
            && (forall u :: u in r.visited ==> !IsExternal(u, base))
            && (forall p :: p in r.visited ==> Explored(site, base, r, p))
  {
    InitialSound(site, base);
    ScrapePageSound(site, base, base, Initial);
    ScrapePageDiscovers(site, base, base, base, Initial);
    ScrapePageStaysInternal(site, base, base, Initial);
    ScrapePageExplores(site, base, base, Initial);
  }

  /** A finished crawl state with these invariants has visited exactly the
      reachable pages, first the root, and recorded every external link on
      them. */
  lemma FinishedCrawl(site: Site, base: Url, r: CrawlState)
    requires Sound(site, base, r)
    requires InDiscoveryOrder(site, base, base, r.requests)
    requires base in r.visited
    requires forall u :: u in r.visited ==> !IsExternal(u, base)
    requires forall p :: p in r.visited ==> Explored(site, base, r, p)
    ensures r.requests != [] && r.requests[0] == base
    ensures forall u :: u in r.visited <==> Reachable(site, base, u)
    ensures forall p, k :: p in r.visited && LinksTo(site, base, p, k) && IsExternal(k, base) ==>
              k in Keys(r.externalLinks)
  {
    assert base in r.requests;
    KeysExternal(site, base, r);
    forall j | 0 <= j < |r.requests| ensures !IsExternal(r.requests[j], base) {
      assert r.requests[j] in r.requests;
    }
    forall u ensures u in r.visited <==> Reachable(site, base, u) {
      if u in r.visited {
        var i :| 0 <= i < |r.requests| && r.requests[i] == u;
        var path := RequestedIsReachable(site, base, r.requests, i);
      }
      if Reachable(site, base, u) {
        var path :| IsCrawlPath(site, base, path) && path[|path| - 1] == u;
        ReachableIsVisited(site, base, r, path);
      }
    }
  }

  /** What the crawl from the root achieves. Every request is for a distinct
      page, the first one for the root; the visited pages are exactly those
      reachable from the root by internal links, so every one of them, even one
      whose request failed, was requested exactly once; each ledger entry is an
      external link found on its source page; every external link on a
      visited page is in the ledger. */
  lemma CrawlFromRootTheorem(site: Site, base: Url)
    ensures var r := CrawlFromRoot(site, base);
            && Sound(site, base, r)
            && r.requests != [] && r.requests[0] == base
            && (forall u :: u in r.visited <==> Reachable(site, base, u))
            && (forall p, k :: p in r.visited && LinksTo(site, base, p, k) && IsExternal(k, base) ==>
                  k in Keys(r.externalLinks))
  {
    RootCrawlInvariants(site, base);
    FinishedCrawl(site, base, CrawlFromRoot(site, base));
  }
}
