/** One small site crawled from its root, worked out step by step: a cycle
    back to the root is not followed again, and an external link found on two
    pages keeps the position of its first recording and the source page of
    its last. */
module Scenarios {
  import opened Urls
  import opened Ledgers
  import opened Crawl
  import opened CrawlTheorems
  import opened Export

  const Root := Url("https", "site.example", "/")
  const Contact := Url("https", "site.example", "/contact")
  const Other := Url("http", "other.example", "/x")
  const Trusted := Url("http", "trusted.example", "/y")

  const RootAnchors := [PathRef("/contact"), Absolute(Other)]
  const ContactAnchors := [PathRef("/"), Absolute(Trusted), Absolute(Other)]

  /** "/" links to "/contact" and to an external page; "/contact" links back
      to "/", to a second external page, and to the first one again. */
  const ExampleSite: Site := map[Root := Page(RootAnchors), Contact := Page(ContactAnchors)]

  /** The state in which "/contact" is entered: both pages marked. */
  const AtContact := Mark(Mark(Initial, Root), Contact)

  /** "/contact" skips the link back to "/" and records both external links. */
  lemma ContactStep()
    ensures ScrapeAnchors(ExampleSite, Root, Contact, ContactAnchors, AtContact) ==
            AtContact.(externalLinks := [Entry(Trusted, Contact), Entry(Other, Contact)])
  {
    var s := ExampleSite;
    assert Fetch(s, Contact) == Page(ContactAnchors);
    assert Resolve(Root, PathRef("/")) == Root;
    assert ContactAnchors[..1] == [PathRef("/")];
    assert ContactAnchors[..2] == [PathRef("/"), Absolute(Trusted)];
    assert ScrapeAnchors(s, Root, Contact, [], AtContact) == AtContact;
    assert ScrapeAnchors(s, Root, Contact, ContactAnchors[..1], AtContact) == AtContact;
    assert ScrapeAnchors(s, Root, Contact, ContactAnchors[..2], AtContact) ==
           AtContact.(externalLinks := [Entry(Trusted, Contact)]);
  }

  /** Crawling "/contact" from "/": it is requested and then explored. */
  lemma EnterContact()
    ensures ScrapePage(ExampleSite, Root, Contact, Mark(Initial, Root)) ==
            AtContact.(externalLinks := [Entry(Trusted, Contact), Entry(Other, Contact)])
  {
    assert Fetch(ExampleSite, Contact) == Page(ContactAnchors);
    ContactStep();
  }

  /** The first anchor of "/" enters "/contact". */
  lemma RootFirstAnchor()
    ensures ScrapeAnchors(ExampleSite, Root, Root, RootAnchors[..1], Mark(Initial, Root)) ==
            AtContact.(externalLinks := [Entry(Trusted, Contact), Entry(Other, Contact)])
  {
    var atRoot := Mark(Initial, Root);
    assert Fetch(ExampleSite, Root) == Page(RootAnchors);
    assert Resolve(Root, PathRef("/contact")) == Contact;
    assert RootAnchors[..1] == [PathRef("/contact")];
    assert ScrapeAnchors(ExampleSite, Root, Root, [], atRoot) == atRoot;
    EnterContact();
  }

  /** Recording `Other` again, now from "/", overwrites its source in place. */
  lemma OtherOverwritten()
    ensures Put([Entry(Trusted, Contact), Entry(Other, Contact)], Other, Root) ==
            [Entry(Trusted, Contact), Entry(Other, Root)]
  {
    var l := [Entry(Trusted, Contact), Entry(Other, Contact)];
    assert l[0].link != Other;
    assert Put(l[1..], Other, Root) == [Entry(Other, Root)];
  }

  /** The crawl from "/": "/contact" is crawled once, "/" is not requested
      again, and the second anchor of "/" overwrites the source of the link
      that "/contact" recorded, leaving it in second position. */
  lemma ExampleCrawl()
    ensures CrawlFromRoot(ExampleSite, Root) ==
            CrawlState({Root, Contact}, [Entry(Trusted, Contact), Entry(Other, Root)], [Root, Contact])
  {
    var s := ExampleSite;
    var atRoot := Mark(Initial, Root);
    assert Fetch(s, Root) == Page(RootAnchors);
    RootFirstAnchor();
    OtherOverwritten();
    assert Other != Trusted && Other !in AtContact.visited;
    assert ScrapeAnchors(s, Root, Root, RootAnchors, atRoot) ==
           AtContact.(externalLinks := [Entry(Trusted, Contact), Entry(Other, Root)]);
    assert AtContact.visited == {Root, Contact};
  }

  /** The CSV rows of that crawl: the header, then the two external links in
      the order they were first recorded, each with its last source page. */
  lemma ExampleRows()
    ensures Rows(CrawlFromRoot(ExampleSite, Root).externalLinks) ==
            [Header, [Text(Trusted), Text(Contact)], [Text(Other), Text(Root)]]
  {
    ExampleCrawl();
    var rows := Rows([Entry(Trusted, Contact), Entry(Other, Root)]);
    assert |rows| == 3 && rows[0] == Header;
    assert rows[1] == [Text(Trusted), Text(Contact)];
    assert rows[2] == [Text(Other), Text(Root)];
  }
}
