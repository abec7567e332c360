/** Link discovery: how one `<a href>` element of a crawled page is turned
    into a normalised target URL and admitted to, or rejected from, the list
    of discovered links (main.go, the `OnHTML("a[href]")` callback of
    `getPageLinks`). Everything here is a pure function of the list so far;
    the class in crawl.dfy applies these steps to its own state. */
module Links {
  import opened Strings
  import opened Seqs

  datatype Option<T> = None | Some(value: T)

  /** A discovered hyperlink: the page it was found on, the trimmed anchor
      text, and the normalised target URL. */
  datatype Link = Link(originUrl: string, originText: string, url: string)

  /** The page being harvested: its URL as given, and the scheme and host
      name that `url.ParseRequestURI` and `Hostname()` extract from it. */
  datatype Page = Page(url: string, scheme: string, host: string)

  /** One `<a href>` element: the raw `href` attribute, the raw element text,
      and the outcome of `url.ParseRequestURI(href)` — `None` when the href
      does not parse, otherwise the parsed scheme (empty for a path). */
  datatype Anchor = Anchor(href: string, text: string, scheme: Option<string>)

  /** The target URLs of `links`, in order. */
  function UrlsOf(links: seq<Link>): (us: seq<string>)
    ensures |us| == |links|
    ensures forall i :: 0 <= i < |links| ==> us[i] == links[i].url
  {
    if links == [] then [] else UrlsOf(links[..|links| - 1]) + [links[|links| - 1].url]
  }

  /** The schemes whose links are never checked. */
  predicate IsSkippedScheme(scheme: string) {
    scheme == "mailto" || scheme == "tel" || scheme == "irc" || scheme == "javascript" || scheme == "skype"
  }

  /** The absolute form of an href: an href without a scheme gets the page's
      scheme, "://" and host name put in front of it; an href with a scheme
      is kept as it is. */
  function Resolve(page: Page, href: string, scheme: string): (r: string)
  {
    if scheme == "" then page.scheme + "://" + page.host + href else href
  }

  /** The resolved href is the original href behind the page's scheme and
      host when it had no scheme, and the href itself otherwise. */
  lemma ResolveKeepsHref(page: Page, href: string, scheme: string)
    ensures var r := Resolve(page, href, scheme);
      |href| <= |r| && r[|r| - |href|..] == href
      && (scheme == "" ==> r[..|r| - |href|] == page.scheme + "://" + page.host)
      && (scheme != "" ==> r == href)
  {
  }

  /** The stored form of a resolved URL: cut before the first '#', and what
      remains cut before its first '&'. It is the longest prefix of the
      resolved URL containing neither character. */
  function Normalize(resolved: string): (r: string)
    ensures r <= resolved
    ensures '#' !in r && '&' !in r
    ensures |r| < |resolved| ==> resolved[|r|] == '#' || resolved[|r|] == '&'
  {
    BeforeFirst(BeforeFirst(resolved, '#'), '&')
  }

  /** The three facts of `Normalize`'s contract pin the result down: any
      prefix without '#' and '&' that stops at the end or at one of them is
      that result. */
  lemma NormalizeUnique(s: string, p: string)
    requires p <= s && '#' !in p && '&' !in p
    requires |p| == |s| || s[|p|] == '#' || s[|p|] == '&'
    ensures p == Normalize(s)
  {
  }

  /** Normalising a stored URL again changes nothing. */
  lemma NormalizeIdempotent(s: string)
    ensures Normalize(Normalize(s)) == Normalize(s)
  {
  }

  /** The '&' cut applies inside a query too: of a query the stored URL
      keeps the first parameter and drops every later one (and any
      fragment), so "/p?a=1&b=2#top" is stored as "/p?a=1". */
  lemma NormalizeKeepsFirstQueryParameter(path: string, first: string, rest: string)
    requires '#' !in path && '&' !in path && '#' !in first && '&' !in first
    ensures Normalize(path + "?" + first + "&" + rest) == path + "?" + first
  {
    var s := path + "?" + first + "&" + rest;
    var p := path + "?" + first;
    assert s == p + "&" + rest;
    NormalizeUnique(s, p);
  }

  /** The target an anchor found on `page` would be stored under. */
  function Target(page: Page, a: Anchor): (target: string)
    requires a.scheme.Some?
  {
    Normalize(Resolve(page, a.href, a.scheme.value))
  }

  /** Whether the anchor is added to `links`: its href parsed, its scheme is
      not a skipped one, and its target is not yet among the stored URLs. */
  predicate Admits(links: seq<Link>, page: Page, a: Anchor) {
    a.scheme.Some? && !IsSkippedScheme(a.scheme.value) && Target(page, a) !in UrlsOf(links)
  }

  /** The link list after the callback has seen anchor `a` on `page`. */
  function AdmitAnchor(links: seq<Link>, page: Page, a: Anchor): (r: seq<Link>)
  {
    if Admits(links, page, a) then links + [Link(page.url, TrimSpace(a.text), Target(page, a))]
    else links
  }

  /** An admitted anchor appends exactly one link carrying the page URL, the
      trimmed anchor text and the target; any other anchor — one whose href
      does not parse, one with a skipped scheme, one whose target is already
      stored — leaves the list as it is. */
  lemma AdmitAnchorEffect(links: seq<Link>, page: Page, a: Anchor)
    ensures var r := AdmitAnchor(links, page, a);
      links <= r
      && (|r| == |links| + 1 <==> Admits(links, page, a))
      && (!Admits(links, page, a) ==> r == links)
      && (Admits(links, page, a) ==> r[|links|] == Link(page.url, TrimSpace(a.text), Target(page, a)))
  {
  }

  /** Target URLs stay pairwise distinct as anchors are admitted. */
  lemma AdmitAnchorDistinct(links: seq<Link>, page: Page, a: Anchor)
    requires Distinct(UrlsOf(links))
    ensures Distinct(UrlsOf(AdmitAnchor(links, page, a)))
  {
  }

  /** The link list after the callback has run on every anchor of `page`,
      in document order. */
  function Harvest(links: seq<Link>, page: Page, anchors: seq<Anchor>): (r: seq<Link>)
    ensures links <= r
  {
    if anchors == [] then links
    else AdmitAnchor(Harvest(links, page, anchors[..|anchors| - 1]), page, anchors[|anchors| - 1])
  }

  /** Harvesting keeps the stored target URLs pairwise distinct. */
  lemma {:induction false} HarvestDistinct(links: seq<Link>, page: Page, anchors: seq<Anchor>)
    requires Distinct(UrlsOf(links))
    ensures Distinct(UrlsOf(Harvest(links, page, anchors)))
  {
    if anchors != [] {
      var n := |anchors| - 1;
      HarvestDistinct(links, page, anchors[..n]);
      AdmitAnchorDistinct(Harvest(links, page, anchors[..n]), page, anchors[n]);
    }
  }

  /** A stored target stays stored, and an admitted anchor's target is stored
      afterwards. */
  lemma AdmitAnchorStores(links: seq<Link>, page: Page, a: Anchor)
    ensures forall u :: u in UrlsOf(links) ==> u in UrlsOf(AdmitAnchor(links, page, a))
    ensures a.scheme.Some? && !IsSkippedScheme(a.scheme.value) ==> Target(page, a) in UrlsOf(AdmitAnchor(links, page, a))
  {
  }

  /** Every anchor whose href parsed with a scheme that is not skipped has its
      target stored after the harvest — by this anchor or by an earlier
      discoverer. */
  lemma {:induction false} HarvestCovers(links: seq<Link>, page: Page, anchors: seq<Anchor>, k: nat)
    requires k < |anchors|
    requires anchors[k].scheme.Some? && !IsSkippedScheme(anchors[k].scheme.value)
    ensures Target(page, anchors[k]) in UrlsOf(Harvest(links, page, anchors))
  {
    var n := |anchors| - 1;
    if k < n {
      assert anchors[..n][k] == anchors[k];
      HarvestCovers(links, page, anchors[..n], k);
    }
    AdmitAnchorStores(Harvest(links, page, anchors[..n]), page, anchors[n]);
  }

  /** Every link the harvest adds was produced by one of the anchors: it
      carries the page URL, the anchor's trimmed text and the anchor's
      target. */
  lemma {:induction false} HarvestSound(links: seq<Link>, page: Page, anchors: seq<Anchor>, i: nat)
    requires |links| <= i < |Harvest(links, page, anchors)|
    ensures exists k :: (0 <= k < |anchors| && anchors[k].scheme.Some? && !IsSkippedScheme(anchors[k].scheme.value)
      && Harvest(links, page, anchors)[i] == Link(page.url, TrimSpace(anchors[k].text), Target(page, anchors[k])))
  {
    var n := |anchors| - 1;
    var before := Harvest(links, page, anchors[..n]);
    if i < |before| {
      HarvestSound(links, page, anchors[..n], i);
      var k :| 0 <= k < n && anchors[..n][k].scheme.Some? && !IsSkippedScheme(anchors[..n][k].scheme.value)
        && before[i] == Link(page.url, TrimSpace(anchors[..n][k].text), Target(page, anchors[..n][k]));
      assert anchors[..n][k] == anchors[k];
    } else {
      assert Harvest(links, page, anchors)[i] == Link(page.url, TrimSpace(anchors[n].text), Target(page, anchors[n]));
    }
  }

  /** Harvesting the anchors of one page onto a list that already holds every
      target they would add changes nothing. */
  lemma {:induction false} HarvestNothingNew(links: seq<Link>, page: Page, anchors: seq<Anchor>)
    requires forall k :: (0 <= k < |anchors| && anchors[k].scheme.Some? && !IsSkippedScheme(anchors[k].scheme.value)
      ==> Target(page, anchors[k]) in UrlsOf(links))
    ensures Harvest(links, page, anchors) == links
  {
    if anchors != [] {
      var n := |anchors| - 1;
      assert forall k :: 0 <= k < n ==> anchors[..n][k] == anchors[k];
      HarvestNothingNew(links, page, anchors[..n]);
    }
  }

  /** Harvesting the same page a second time yields no second link for any
      target: the list is unchanged. */
  lemma HarvestTwiceIsOnce(links: seq<Link>, page: Page, anchors: seq<Anchor>)
    ensures Harvest(Harvest(links, page, anchors), page, anchors) == Harvest(links, page, anchors)
  {
    var once := Harvest(links, page, anchors);
    forall k | 0 <= k < |anchors| && anchors[k].scheme.Some? && !IsSkippedScheme(anchors[k].scheme.value)
      ensures Target(page, anchors[k]) in UrlsOf(once)
    {
      HarvestCovers(links, page, anchors, k);
    }
    HarvestNothingNew(once, page, anchors);
  }
}
