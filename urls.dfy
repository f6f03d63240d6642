/**
  URLs as the crawler sees them: a scheme, an authority (what `urlparse`
  calls the netloc) and the rest of the reference (path, query, fragment).
  `Resolve` stands for `urljoin`, `IsExternal` for `is_external_link`.
 */
module Urls {

  /** An absolute URL, split the way `urlparse` splits it for this program:
      only the netloc is ever compared, the rest is carried along. */
  datatype Url = Url(scheme: string, netloc: string, path: string)

  /** The raw value of an anchor's `href` attribute, by the kind of
      reference it is. */
  datatype Href =
    | Absolute(url: Url)                          // "https://other.example/x", "mailto:a@b.example"
    | NetworkPath(netloc: string, path: string)   // "//cdn.example/lib.js"
    | PathRef(path: string)                       // "/about", "about", ""

  /** The string a URL is written as (what ends up in the CSV file). */
  function Text(u: Url): string
  {
    if u.netloc == "" then u.scheme + ":" + u.path
    else u.scheme + "://" + u.netloc + u.path
  }

  /** The directory part of a path: everything up to and including its last '/'. */
  function Dir(path: string): (d: string)
    ensures d <= path
    ensures d == [] || d[|d| - 1] == '/'
    ensures forall i :: |d| <= i < |path| ==> path[i] != '/'
  {
    if path == [] then []
    else if path[|path| - 1] == '/' then path
    else Dir(path[..|path| - 1])
  }

  /** Merging a relative path with the base URL's path (section 5.2.3 of
      RFC 3986, without the removal of dot segments). */
  function MergePath(base: Url, ref: string): (p: string)
    requires ref != []
    ensures ref[0] == '/' ==> p == ref
    ensures |ref| <= |p| && p[|p| - |ref|..] == ref
  {
    if ref[0] == '/' then ref
    else if base.netloc != "" && base.path == "" then "/" + ref
    else Dir(base.path) + ref
  }

  /** `urljoin(base, href)`: an absolute reference stands for itself, a
      network-path reference keeps the base's scheme, a path reference keeps
      the base's scheme and netloc, and the empty reference is the base. */
  function Resolve(base: Url, href: Href): Url
  {
    match href
    case Absolute(u) => u
    case NetworkPath(n, p) => Url(base.scheme, n, p)
    case PathRef(p) => if p == [] then base else Url(base.scheme, base.netloc, MergePath(base, p))
  }

  /** `is_external_link(url, base_url)`: the two netlocs differ. */
  predicate IsExternal(url: Url, base: Url)
  {
    url.netloc != base.netloc
  }

  /** Being internal is sharing the base's netloc: no URL is external to
      itself, and two URLs with one netloc are both internal or both
      external, relative to any base. */
  lemma InternalIsSameNetloc(u: Url, v: Url, base: Url)
    ensures !IsExternal(u, u)
    ensures u.netloc == v.netloc ==> (IsExternal(u, base) <==> IsExternal(v, base))
    ensures !IsExternal(u, base) && !IsExternal(v, base) ==> !IsExternal(u, v)
  {
  }

  /** What `Resolve` gives for a reference that names no authority: a URL on
      the base's own netloc, which is therefore never external. */
  lemma PathRefStaysInternal(base: Url, p: string)
    ensures Resolve(base, PathRef(p)).netloc == base.netloc
    ensures !IsExternal(Resolve(base, PathRef(p)), base)
    ensures p != [] && p[0] == '/' ==> Resolve(base, PathRef(p)) == Url(base.scheme, base.netloc, p)
  {
  }

  /** Links are resolved against the crawl root, not against the page that
      holds them: on the root "https://site.example/", the anchor "about"
      found on the page "/blog/" becomes "https://site.example/about", where
      resolving against the page would have given ".../blog/about". */
  lemma ResolvedAgainstRoot()
    ensures var root := Url("https", "site.example", "/");
            var page := Url("https", "site.example", "/blog/");
            && Resolve(root, PathRef("about")) == Url("https", "site.example", "/about")
            && Resolve(page, PathRef("about")) == Url("https", "site.example", "/blog/about")
  {
    var root := Url("https", "site.example", "/");
    var page := Url("https", "site.example", "/blog/");
    assert Dir(root.path) == "/";
    assert Dir(page.path) == "/blog/";
  }
}
