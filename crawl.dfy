/** The crawler's shared state and the operations that change it (main.go):
    the registry of discovered links (`url_list`), the registry of pages
    (`page_list`), and what checking the links records (`crawled_urls`,
    `request_errors`, `url_errors`, `num_errors`). Each operation runs
    sequentially here; its contract ties the new state to the pure
    definitions in links.dfy, sitemap.dfy and status.dfy. */
module Crawl {
  import opened Seqs
  import opened Strings
  import opened Links
  import opened Sitemap
  import opened Status

  /** What `parseSitemap` makes of a document: for an index, the child
      sitemap locations it goes on to fetch; otherwise the page URLs. */
  datatype Parsed = ChildSitemaps(sitemaps: seq<string>) | PageUrls(pages: seq<string>)

  class Crawler {
    /** Discovered links, at most one per target URL (`url_list`). */
    var urlList: seq<Link>
    /** Registered page and sitemap locations (`page_list`). */
    var pageList: seq<string>
    /** Every check made, in the order made (`crawled_urls`). */
    var crawledUrls: seq<CrawlResponse>
    /** GET retries that failed at the transport level (`request_errors`). */
    var requestErrors: seq<RequestError>
    /** The checks tallied as errors (`url_errors`) and their number (`num_errors`). */
    var urlErrors: seq<CrawlResponse>
    var numErrors: int

    /** The registries hold no duplicates, and the error counter counts the
        tallied entries. */
    ghost predicate Valid()
      reads this
    {
      Distinct(UrlsOf(urlList)) && Distinct(pageList) && numErrors == |urlErrors|
    }

    /** The state at program start: every list empty, no errors. */
    constructor ()
      ensures Valid()
      ensures urlList == [] && pageList == [] && crawledUrls == []
      ensures requestErrors == [] && urlErrors == [] && numErrors == 0
    {
      urlList := [];
      pageList := [];
      crawledUrls := [];
      requestErrors := [];
      urlErrors := [];
      numErrors := 0;
    }

    /** `isUniqueUrl`: whether no discovered link has target `linkUrl`. */
    method IsUniqueUrl(linkUrl: string) returns (isUnique: bool)
      ensures isUnique <==> linkUrl !in UrlsOf(urlList)
      ensures isUnique <==> forall k :: 0 <= k < |urlList| ==> urlList[k].url != linkUrl
    {
      for i := 0 to |urlList|
        invariant forall k :: 0 <= k < i ==> urlList[k].url != linkUrl
      {
        if urlList[i].url == linkUrl {
          assert UrlsOf(urlList)[i] == linkUrl;
          return false;
        }
      }
      return true;
    }

    /** `isUniquePage`: whether `pageUrl` is not a registered page. */
    method IsUniquePage(pageUrl: string) returns (isUnique: bool)
      ensures isUnique <==> pageUrl !in pageList
    {
      for i := 0 to |pageList|
        invariant pageUrl !in pageList[..i]
      {
        if pageList[i] == pageUrl {
          return false;
        }
        assert pageList[..i + 1] == pageList[..i] + [pageList[i]];
      }
      assert pageList[..|pageList|] == pageList;
      return true;
    }

    /** The `OnHTML("a[href]")` callback for one anchor of `page`: resolve
        the href against the page, cut it before '#' and then before '&',
        and append a link unless the href did not parse, its scheme is a
        skipped one, or its target is already registered. */
    method OnAnchor(page: Page, a: Anchor)
      requires Valid()
      modifies this`urlList
      ensures Valid()
      ensures urlList == AdmitAnchor(old(urlList), page, a)
    {
      var linkText := TrimSpace(a.text);
      match a.scheme {
        case None =>
        case Some(scheme) =>
          var linkUrl := a.href;
          if scheme == "" {
            var baseUrl := page.scheme + "://" + page.host;
            linkUrl := baseUrl + linkUrl;
          }
          var trimmed1 := BeforeFirst(linkUrl, '#');
          var trimmed2 := BeforeFirst(trimmed1, '&');
          assert linkUrl == Resolve(page, a.href, scheme);
          assert trimmed2 == Target(page, a);
          var isUnique := IsUniqueUrl(trimmed2);
          if isUnique && scheme != "mailto" && scheme != "tel" && scheme != "irc"
            && scheme != "javascript" && scheme != "skype"
          {
            assert Admits(urlList, page, a);
            AdmitAnchorDistinct(urlList, page, a);
            urlList := urlList + [Link(page.url, linkText, trimmed2)];
          } else {
            assert !Admits(urlList, page, a);
          }
      }
    }

    /** `getPageLinks` once the page has been fetched: the callback runs on
        each anchor of the page in document order, and the whole link list
        is returned. */
    method GetPageLinks(page: Page, anchors: seq<Anchor>) returns (links: seq<Link>)
      requires Valid()
      modifies this`urlList
      ensures Valid()
      ensures urlList == Harvest(old(urlList), page, anchors)
      ensures links == urlList
    {
      for i := 0 to |anchors|
        invariant Valid()
        invariant urlList == Harvest(old(urlList), page, anchors[..i])
      {
        assert anchors[..i + 1][..i] == anchors[..i];
        OnAnchor(page, anchors[i]);
      }
      assert anchors[..|anchors|] == anchors;
      links := urlList;
    }

    /** `parseUrlset`: register each `<loc>` text that is not yet a
        registered page, and return those, in document order. */
    method ParseUrlset(locs: seq<string>) returns (locations: seq<string>)
      requires Valid()
      modifies this`pageList
      ensures Valid()
      ensures locations == NewLocs(old(pageList), locs)
      ensures pageList == old(pageList) + locations
    {
      locations := [];
      for i := 0 to |locs|
        invariant Valid()
        invariant locations == NewLocs(old(pageList), locs[..i])
        invariant pageList == old(pageList) + locations
      {
        var result := locs[i];
        assert locs[..i + 1][..i] == locs[..i];
        NewLocsMembers(old(pageList), locs[..i], result);
        NewLocsDistinct(old(pageList), locs[..i + 1]);
        var isUnique := IsUniquePage(result);
        if isUnique {
          pageList := pageList + [result];
          locations := locations + [result];
        }
      }
      assert locs[..|locs|] == locs;
    }

    /** `parseSitemap`'s choice of shape: an index registers and returns its
        child sitemap locations; a url-set registers and returns its new page
        locations; any other document yields no pages. */
    method ParseSitemap(doc: Document) returns (parsed: Parsed)
      requires Valid()
      modifies this`pageList
      ensures Valid()
      ensures ShapeOf(doc) == Index ==> parsed == ChildSitemaps(NewLocs(old(pageList), doc.locs))
      ensures ShapeOf(doc) == UrlSet ==> parsed == PageUrls(NewLocs(old(pageList), doc.locs))
      ensures ShapeOf(doc) != Empty ==> pageList == old(pageList) + NewLocs(old(pageList), doc.locs)
      ensures ShapeOf(doc) == Empty ==> parsed == PageUrls([]) && pageList == old(pageList)
    {
      if doc.sitemapNodes > 0 {
        var sitemaps := ParseUrlset(doc.locs);
        parsed := ChildSitemaps(sitemaps);
      } else if doc.urlNodes > 0 {
        var pages := ParseUrlset(doc.locs);
        parsed := PageUrls(pages);
      } else {
        parsed := PageUrls([]);
      }
    }

    /** `checkUrlStatus`: a HEAD pass over `links`, a GET pass over the links
        whose HEAD failed, then the tally of every recorded check. */
    method CheckUrlStatus(links: seq<Link>, head: string -> Outcome, get: string -> Outcome)
      requires Valid()
      modifies this`crawledUrls, this`requestErrors, this`urlErrors, this`numErrors
      ensures Valid()
      ensures crawledUrls == old(crawledUrls) + Checked(links, head, get)
      ensures requestErrors == old(requestErrors) + GetFailures(Retries(links, head), get)
      ensures urlErrors == old(urlErrors) + NotOk(crawledUrls)
      ensures numErrors == old(numErrors) + |NotOk(crawledUrls)|
    {
      var retryUrls := HeadPass(links, head);
      if |retryUrls| > 0 {
        RetryPass(retryUrls, get);
      } else {
        assert Records(retryUrls, get) == [] && GetFailures(retryUrls, get) == [];
      }
      assert crawledUrls == old(crawledUrls) + Checked(links, head, get);
      TallyErrors();
    }

    /** The first loop of `checkUrlStatus`: one HEAD request per link. Each
        check is recorded with the response's status, or with the sentinel
        when the request failed, in which case the link is also returned for
        a retry. */
    method HeadPass(links: seq<Link>, head: string -> Outcome) returns (retryUrls: seq<Link>)
      modifies this`crawledUrls
      ensures crawledUrls == old(crawledUrls) + Records(links, head)
      ensures retryUrls == Retries(links, head)
    {
      retryUrls := [];
      for i := 0 to |links|
        invariant crawledUrls == old(crawledUrls) + Records(links[..i], head)
        invariant retryUrls == Retries(links[..i], head)
      {
        assert links[..i + 1][..i] == links[..i];
        var input := links[i];
        var outcome := head(input.url);
        var status := NoStatus;
        if outcome.Failure? {
          retryUrls := retryUrls + [input];
        } else {
          status := outcome.statusCode;
        }
        var isOk := false;
        if status >= 200 && status <= 299 {
          isOk := true;
        }
        crawledUrls := crawledUrls + [CrawlResponse(input.originUrl, input.originText, input.url, status, isOk)];
      }
      assert links[..|links|] == links;
    }

    /** The retry loop of `checkUrlStatus`: one GET request per link whose
        HEAD failed. Each check is recorded as in the HEAD pass, and a failed
        GET also records a request error. */
    method RetryPass(retryUrls: seq<Link>, get: string -> Outcome)
      modifies this`crawledUrls, this`requestErrors
      ensures crawledUrls == old(crawledUrls) + Records(retryUrls, get)
      ensures requestErrors == old(requestErrors) + GetFailures(retryUrls, get)
    {
      for j := 0 to |retryUrls|
        invariant crawledUrls == old(crawledUrls) + Records(retryUrls[..j], get)
        invariant requestErrors == old(requestErrors) + GetFailures(retryUrls[..j], get)
      {
        assert retryUrls[..j + 1][..j] == retryUrls[..j];
        var input := retryUrls[j];
        var outcome := get(input.url);
        var status := NoStatus;
        if outcome.Failure? {
          requestErrors := requestErrors + [RequestError(outcome.message, input.originUrl, input.originText)];
        } else {
          status := outcome.statusCode;
        }
        var isOk := false;
        if status >= 200 && status <= 299 {
          isOk := true;
        }
        crawledUrls := crawledUrls + [CrawlResponse(input.originUrl, input.originText, input.url, status, isOk)];
      }
      assert retryUrls[..|retryUrls|] == retryUrls;
    }

    /** The closing loop of `checkUrlStatus`: each recorded check that is not
        healthy raises the error count by one and is appended to the error
        list, in order. */
    method TallyErrors()
      requires Valid()
      modifies this`urlErrors, this`numErrors
      ensures Valid()
      ensures urlErrors == old(urlErrors) + NotOk(crawledUrls)
      ensures numErrors == old(numErrors) + |NotOk(crawledUrls)|
    {
      for i := 0 to |crawledUrls|
        invariant Valid()
        invariant urlErrors == old(urlErrors) + NotOk(crawledUrls[..i])
        invariant numErrors == old(numErrors) + |NotOk(crawledUrls[..i])|
      {
        assert crawledUrls[..i + 1][..i] == crawledUrls[..i];
        var item := crawledUrls[i];
        if !item.isOk {
          numErrors := numErrors + 1;
          urlErrors := urlErrors + [item];
        }
      }
      assert crawledUrls[..|crawledUrls|] == crawledUrls;
    }
  }
}
