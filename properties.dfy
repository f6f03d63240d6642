/** What a crawl guarantees: every page is requested at most once, the ledger
    holds only external links found on visited pages, links are never
    reordered or dropped, external links are never crawled, and a crawl from
    the root visits exactly the pages reachable from it by internal links. */
module CrawlProperties {
  import opened Urls
  import opened Ledgers
  import opened Crawl

  ghost predicate NoDuplicates(s: seq<Url>)
  {
    forall i, j :: 0 <= i < j < |s| ==> s[i] != s[j]
  }

  /** The invariant of the program's module-level state with respect to one
      crawl root `base`: each visited page was requested exactly once, and each
      ledger entry is an external link that its (visited) source page links to. */
  ghost predicate Sound(site: Site, base: Url, st: CrawlState)
  {
    && NoDuplicates(st.requests)
    && (forall u :: u in st.requests <==> u in st.visited)
    && UniqueKeys(st.externalLinks)
    && (forall e :: e in st.externalLinks ==>
          IsExternal(e.link, base) && e.source in st.visited && LinksTo(site, base, e.source, e.link))
  }

  lemma InitialSound(site: Site, base: Url)
    ensures Sound(site, base, Initial)
  {
  }

  /** The last of the first `n + 1` anchors of a page is one of its links. */
  lemma LastAnchorLinked(site: Site, base: Url, page: Url, hrefs: seq<Href>)
    requires hrefs != [] && hrefs <= Anchors(site, page)
    ensures LinksTo(site, base, page, Resolve(base, hrefs[|hrefs| - 1]))
  {
    var n := |hrefs| - 1;
    assert ResolveAll(base, Anchors(site, page))[n] == Resolve(base, hrefs[n]);
  }

  /** `scrape_links` keeps the invariant. */
  lemma {:induction false} ScrapePageSound(site: Site, base: Url, url: Url, st: CrawlState)
    requires Sound(site, base, st)
    ensures Sound(site, base, ScrapePage(site, base, url, st))
    decreases |(Domain(site, base) + {url}) - st.visited|, 0
  {
    if url !in st.visited {
      var marked := Mark(st, url);
      assert Sound(site, base, marked) by {
        assert url !in st.requests;
      }
      match Fetch(site, url)
      case RequestError =>
      case Page(hrefs) =>
        MarkingShrinks(Domain(site, base), st.visited, url);
        ScrapeAnchorsSound(site, base, url, hrefs, marked);
    }
  }

  lemma {:induction false} ScrapeAnchorsSound(site: Site, base: Url, page: Url, hrefs: seq<Href>, st: CrawlState)
    requires hrefs <= Anchors(site, page)
    requires Sound(site, base, st) && page in st.visited
    ensures Sound(site, base, ScrapeAnchors(site, base, page, hrefs, st))
    decreases |Domain(site, base) - st.visited|, 1, |hrefs|
  {
    if hrefs != [] {
      var prefix := hrefs[..|hrefs| - 1];
      ScrapeAnchorsSound(site, base, page, prefix, st);
      var before := ScrapeAnchors(site, base, page, prefix, st);
      var link := Resolve(base, hrefs[|hrefs| - 1]);
      if link !in before.visited {
        if IsExternal(link, base) {
          LastAnchorLinked(site, base, page, hrefs);
          PutKeepsUnique(before.externalLinks, link, page);
        } else {
          InDomain(site, base, page, hrefs[|hrefs| - 1]);
          GrowingShrinks(Domain(site, base), st.visited, before.visited, link);
          ScrapePageSound(site, base, link, before);
        }
      }
    }
  }

  /** The crawl only appends: to the log of requests, and to the ledger's
      keys, which keep their insertion order. */
  lemma {:induction false} ScrapePageAppends(site: Site, base: Url, url: Url, st: CrawlState)
    ensures var r := ScrapePage(site, base, url, st);
            st.requests <= r.requests && Keys(st.externalLinks) <= Keys(r.externalLinks)
    decreases |(Domain(site, base) + {url}) - st.visited|, 0
  {
    if url !in st.visited {
      var marked := Mark(st, url);
      match Fetch(site, url)
      case RequestError =>
      case Page(hrefs) =>
        MarkingShrinks(Domain(site, base), st.visited, url);
        ScrapeAnchorsAppends(site, base, url, hrefs, marked);
    }
  }

  lemma {:induction false} ScrapeAnchorsAppends(site: Site, base: Url, page: Url, hrefs: seq<Href>, st: CrawlState)
    requires hrefs <= Anchors(site, page)
    ensures var r := ScrapeAnchors(site, base, page, hrefs, st);
            st.requests <= r.requests && Keys(st.externalLinks) <= Keys(r.externalLinks)
    decreases |Domain(site, base) - st.visited|, 1, |hrefs|
  {
    if hrefs != [] {
      var prefix := hrefs[..|hrefs| - 1];
      ScrapeAnchorsAppends(site, base, page, prefix, st);
      var before := ScrapeAnchors(site, base, page, prefix, st);
      var link := Resolve(base, hrefs[|hrefs| - 1]);
      if link !in before.visited {
        if IsExternal(link, base) {
          var l := before.externalLinks;
          if link !in Keys(l) {
            assert Keys(l + [Entry(link, page)]) == Keys(l) + [link];
          }
        } else {
          InDomain(site, base, page, hrefs[|hrefs| - 1]);
          GrowingShrinks(Domain(site, base), st.visited, before.visited, link);
          ScrapePageAppends(site, base, link, before);
        }
      }
    }
  }

  /** External links are never crawled: apart from the URL it was called on,
      a crawl visits only pages on the root's netloc. */
  lemma {:induction false} ScrapePageStaysInternal(site: Site, base: Url, url: Url, st: CrawlState)
    ensures var r := ScrapePage(site, base, url, st);
            forall u :: u in r.visited ==> u in st.visited || u == url || !IsExternal(u, base)
    decreases |(Domain(site, base) + {url}) - st.visited|, 0
  {
    if url !in st.visited {
      var marked := Mark(st, url);
      match Fetch(site, url)
      case RequestError =>
      case Page(hrefs) =>
        MarkingShrinks(Domain(site, base), st.visited, url);
        ScrapeAnchorsStaysInternal(site, base, url, hrefs, marked);
    }
  }

  lemma {:induction false} ScrapeAnchorsStaysInternal(site: Site, base: Url, page: Url, hrefs: seq<Href>, st: CrawlState)
    requires hrefs <= Anchors(site, page)
    ensures var r := ScrapeAnchors(site, base, page, hrefs, st);
            forall u :: u in r.visited ==> u in st.visited || !IsExternal(u, base)
    decreases |Domain(site, base) - st.visited|, 1, |hrefs|
  {
    if hrefs != [] {
      var prefix := hrefs[..|hrefs| - 1];
      ScrapeAnchorsStaysInternal(site, base, page, prefix, st);
      var before := ScrapeAnchors(site, base, page, prefix, st);
      var link := Resolve(base, hrefs[|hrefs| - 1]);
      if link !in before.visited && !IsExternal(link, base) {
        InDomain(site, base, page, hrefs[|hrefs| - 1]);
        GrowingShrinks(Domain(site, base), st.visited, before.visited, link);
        ScrapePageStaysInternal(site, base, link, before);
      }
    }
  }

  /** Every link of `p` was either visited or recorded as external. */
  ghost predicate Explored(site: Site, base: Url, st: CrawlState, p: Url)
  {
    forall k :: LinksTo(site, base, p, k) ==> k in st.visited || k in Keys(st.externalLinks)
  }

  lemma ExploredStays(site: Site, base: Url, st: CrawlState, st': CrawlState, p: Url)
    requires st.visited <= st'.visited && Keys(st.externalLinks) <= Keys(st'.externalLinks)
    requires Explored(site, base, st, p)
    ensures Explored(site, base, st', p)
  {
    forall k | LinksTo(site, base, p, k) ensures k in st'.visited || k in Keys(st'.externalLinks) {
      if k in Keys(st.externalLinks) {
        PrefixMember(Keys(st.externalLinks), Keys(st'.externalLinks), k);
      }
    }
  }

  /** A crawl leaves no page half done: every page it visits has had each of
      its links either visited or recorded, including a failed page (which
      has no links). */
  lemma {:induction false} ScrapePageExplores(site: Site, base: Url, url: Url, st: CrawlState)
    ensures var r := ScrapePage(site, base, url, st);
            forall p :: p in r.visited && p !in st.visited ==> Explored(site, base, r, p)
    decreases |(Domain(site, base) + {url}) - st.visited|, 0
  {
    if url !in st.visited {
      var marked := Mark(st, url);
      match Fetch(site, url)
      case RequestError =>
        assert Anchors(site, url) == [];
      case Page(hrefs) =>
        MarkingShrinks(Domain(site, base), st.visited, url);
        ScrapeAnchorsExplores(site, base, url, hrefs, marked);
        ScrapeAnchorsCoversLinks(site, base, url, hrefs, marked);
    }
  }

  lemma {:induction false} ScrapeAnchorsExplores(site: Site, base: Url, page: Url, hrefs: seq<Href>, st: CrawlState)
    requires hrefs <= Anchors(site, page)
    ensures var r := ScrapeAnchors(site, base, page, hrefs, st);
            forall p :: p in r.visited && p !in st.visited ==> Explored(site, base, r, p)
    decreases |Domain(site, base) - st.visited|, 1, |hrefs|
  {
    if hrefs != [] {
      var prefix := hrefs[..|hrefs| - 1];
      ScrapeAnchorsExplores(site, base, page, prefix, st);
      var before := ScrapeAnchors(site, base, page, prefix, st);
      var r := ScrapeAnchors(site, base, page, hrefs, st);
      var link := Resolve(base, hrefs[|hrefs| - 1]);
      LastAnchorGrows(site, base, page, hrefs, st);
      if link !in before.visited && !IsExternal(link, base) {
        InDomain(site, base, page, hrefs[|hrefs| - 1]);
        GrowingShrinks(Domain(site, base), st.visited, before.visited, link);
        ScrapePageExplores(site, base, link, before);
      }
      forall p | p in r.visited && p !in st.visited ensures Explored(site, base, r, p) {
        if p in before.visited {
          ExploredStays(site, base, before, r, p);
        }
      }
    }
  }

  /** After the loop over some anchors of a page, the link of each of them is
      visited or recorded. */
  lemma {:induction false} ScrapeAnchorsCoversLinks(site: Site, base: Url, page: Url, hrefs: seq<Href>, st: CrawlState)
    requires hrefs <= Anchors(site, page)
    ensures var r := ScrapeAnchors(site, base, page, hrefs, st);
            forall k :: k in ResolveAll(base, hrefs) ==> k in r.visited || k in Keys(r.externalLinks)
    decreases |hrefs|
  {
    if hrefs != [] {
      var prefix := hrefs[..|hrefs| - 1];
      ScrapeAnchorsCoversLinks(site, base, page, prefix, st);
      var before := ScrapeAnchors(site, base, page, prefix, st);
      var r := ScrapeAnchors(site, base, page, hrefs, st);
      LastAnchorGrows(site, base, page, hrefs, st);
      assert ResolveAll(base, hrefs) == ResolveAll(base, prefix) + [Resolve(base, hrefs[|hrefs| - 1])];
      forall k | k in ResolveAll(base, prefix) ensures k in r.visited || k in Keys(r.externalLinks) {
        if k in Keys(before.externalLinks) {
          PrefixMember(Keys(before.externalLinks), Keys(r.externalLinks), k);
        }
      }
    }
  }

  /** Processing one more anchor only adds to the visited set and the ledger's
      keys, and leaves the anchor's link visited or recorded. */
  lemma LastAnchorGrows(site: Site, base: Url, page: Url, hrefs: seq<Href>, st: CrawlState)
    requires hrefs != [] && hrefs <= Anchors(site, page)
    ensures var before := ScrapeAnchors(site, base, page, hrefs[..|hrefs| - 1], st);
            var r := ScrapeAnchors(site, base, page, hrefs, st);
            var link := Resolve(base, hrefs[|hrefs| - 1]);
            && before.visited <= r.visited
            && Keys(before.externalLinks) <= Keys(r.externalLinks)
            && (link in r.visited || link in Keys(r.externalLinks))
  {
    var before := ScrapeAnchors(site, base, page, hrefs[..|hrefs| - 1], st);
    var link := Resolve(base, hrefs[|hrefs| - 1]);
    if link !in before.visited {
      if IsExternal(link, base) {
        var l := before.externalLinks;
        if link !in Keys(l) {
          assert Keys(l + [Entry(link, page)]) == Keys(l) + [link];
        }
      } else {
        ScrapePageAppends(site, base, link, before);
      }
    }
  }

  lemma PrefixMember(a: seq<Url>, b: seq<Url>, k: Url)
    requires a <= b && k in a
    ensures k in b
  {
    var i :| 0 <= i < |a| && a[i] == k;
    assert b[i] == k;
  }
}
