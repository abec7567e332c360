# Sitemap link crawler — verified model of the sequential core

The crawler reads a site's sitemap (following sitemap indexes), harvests the
`<a href>` links of every listed page, and checks each link with a HEAD
request, retrying with GET when the HEAD request fails at the transport
level. At the end it counts the checks that did not return a 2xx status.

This project models the sequential core of that program in Dafny:

- **Link normalisation and admission** (`links.dfy`, `Crawl.Crawler.OnAnchor`):
  an href without a scheme gets the page's scheme, `"://"` and host name in
  front of it; the result is cut before its first `#` and then before its
  first `&`; the anchor is dropped if its href does not parse, if its scheme
  is `mailto`, `tel`, `irc`, `javascript` or `skype`, or if the cut URL is
  already registered; otherwise one `Link` (page URL, trimmed anchor text,
  cut URL) is appended.
- **The two registries** (`Crawl.Crawler.IsUniqueUrl`, `IsUniquePage`):
  read-only scans of the link list and of the page list.
- **Sitemap documents** (`sitemap.dfy`, `ParseUrlset`, `ParseSitemap`): the
  new `<loc>` entries of a document are registered and returned in document
  order; a document is an index if it has a `<sitemap>` element, else a
  url-set if it has a `<url>` element, else empty.
- **Link checking** (`status.dfy`, `CheckUrlStatus` and its passes): a status
  is healthy iff it lies in 200..299; a failed request records the sentinel
  status 0; every link whose HEAD failed is checked again with GET; finally
  every recorded check that is not healthy is counted and listed.

The program keeps its state in package-level variables; here they are the
fields of one `Crawl.Crawler` object, whose `Valid()` invariant says the
link list has pairwise distinct target URLs, the page list has no
duplicates, and the error counter equals the length of the error list. The
methods are proved against pure definitions (`AdmitAnchor`, `Harvest`,
`NewLocs`, `Records`, `Retries`, `NotOk`), and the lemmas beside those
definitions state what the program promises.

The network, the HTML and XML parsers and URL parsing are inputs: a page is
given with the scheme and host name its URL parses to, an anchor with the
scheme its href parses to (or no parse at all), a sitemap document with its
element counts and `<loc>` texts, and the network as two functions from URL
to the outcome of a HEAD or a GET request.

Behaviour of the code that the model keeps as written:

- The `&` cut looks meant to strip the query, but it cuts at the first `&`
  only, so `/p?a=1&b=2` is stored as `/p?a=1`
  (`Links.NormalizeKeepsFirstQueryParameter`).
- A GET retry does not replace the failed HEAD check: the code records both.
  In the model a failed request records the sentinel status 0, so there a
  link whose HEAD timed out is counted as an error even when its GET answers
  200 (`Status.FailedHeadRecordedTwice`). The code itself records whatever
  status the last returned response left in its shared `status` variable.
- An href that parses without a scheme gets scheme, `"://"` and host name
  (without a port) put in front of it; a relative path such as `a.html` does
  not parse as a request URI, so such an anchor is dropped.
- Only the five listed schemes are skipped; any other scheme (`ftp`, `data`)
  is admitted.
- A document that is neither an index nor a url-set yields no pages, not an
  error.

## Model

| member | source | states |
|---|---|---|
| `Strings.BeforeFirst` | main.go:304-305 | `strings.Split(s, c)[0]` is a prefix of `s` without `c`, and it stops at the end of `s` or just before a `c` |
| `Strings.BeforeFirstUnique` | main.go:304-305 | any prefix without `c` that ends at the end of `s` or before a `c` is that result, so the cut is exactly the part before the first `c` |
| `Strings.BeforeFirstIdempotent` | main.go:304-305 | cutting an already cut string changes nothing |
| `Strings.TrimSpace` | main.go:295 | the trimmed anchor text is the slice of the raw text after its leading white space, everything around it is white space (Go's `unicode.IsSpace`), and it neither starts nor ends with white space |
| `Strings.TrimSpaceIdempotent` | main.go:295 | trimming trimmed text changes nothing |
| `Links.ResolveKeepsHref` | main.go:299-302 | an href without a scheme becomes page scheme + `"://"` + host name + href; an href with a scheme is kept unchanged |
| `Links.Normalize` | main.go:303-305 | the stored target is a prefix of the resolved href, contains neither `#` nor `&`, and stops at the end or just before a `#` or `&` |
| `Links.NormalizeUnique` | main.go:303-305 | that description determines the stored target: it is the part before the first `#` or `&` |
| `Links.NormalizeIdempotent` | main.go:303-305 | normalising a stored target again changes nothing |
| `Links.NormalizeKeepsFirstQueryParameter` | main.go:305 | the `&` cut keeps a query's first parameter and drops the later ones and the fragment |
| `Links.AdmitAnchorEffect` | main.go:293-313 | the callback appends exactly one link (page URL, trimmed text, stored target) iff the href parsed, the scheme is not skipped and the target is new; otherwise the list is unchanged; earlier entries are never changed |
| `Links.AdmitAnchorDistinct` | main.go:307-311 | the callback keeps the stored target URLs pairwise distinct |
| `Links.HarvestDistinct` | main.go:293-321 | running the callback on all anchors of a page keeps the stored targets pairwise distinct |
| `Links.HarvestCovers` | main.go:293-321 | after a page is harvested, the target of every parsed anchor with a scheme that is not skipped is stored |
| `Links.HarvestSound` | main.go:293-321 | every link a harvest adds carries the page URL, the trimmed text and the target of one of the page's parsed anchors whose scheme is not skipped |
| `Links.HarvestTwiceIsOnce` | main.go:293-321 | harvesting the same page a second time adds nothing |
| `Sitemap.ShapeOf` | main.go:372-399 | a document is an index iff it has a `<sitemap>` element, a url-set iff it has none but has a `<url>` element, and empty otherwise |
| `Sitemap.NewLocsMembers` | main.go:357-370 | a location is contributed iff it is one of the document's `<loc>` texts and not already a registered page |
| `Sitemap.NewLocsDistinct` | main.go:357-370 | appending a document's contributed locations keeps the page list free of duplicates |
| `Sitemap.NewLocsBounded` | main.go:357-370 | at most one location per `<loc>` element is contributed, and one for each exactly when they are distinct and all unseen |
| `Status.OkBoundaries` | main.go:207-210 | 200 and 299 are healthy; 199, 300 and the initial status 0 are not |
| `Status.Record` | main.go:197-212 | a check records the link's origin and URL, the response status or 0 after a failed request, and is healthy iff a response came back with a status in 200..299 |
| `Status.RecordsAt` | main.go:187-215 | a pass records exactly one check per link, in link order |
| `Status.RetriesMembers` | main.go:197-202 | a link is retried iff it was checked and its HEAD request failed |
| `Status.NotOkMembers` | main.go:255-261 | a recorded check is tallied iff it is not healthy |
| `Status.NotOkAppend` | main.go:255-261 | the tally of a concatenation is the tallies of the parts, in order |
| `Status.FailedHeadRecordedTwice` | main.go:187-253 | a link whose HEAD failed is recorded at two positions: among the HEAD records with the sentinel status 0, which is tallied as an error, and among the GET records with its GET outcome |
| `Status.AnsweredHeadRecordedOnce` | main.go:187-253 | with distinct target URLs, exactly one recorded check carries the URL of a link whose HEAD answered, and it holds the answered status |
| `Crawl.Crawler.constructor` | main.go:55-66 | every list starts empty and the error count at 0 |
| `Crawl.Crawler.IsUniqueUrl` | main.go:265-273 | true iff no link in the list has that target URL; changes nothing |
| `Crawl.Crawler.IsUniquePage` | main.go:275-282 | true iff the page is not in the page list; changes nothing |
| `Crawl.Crawler.OnAnchor` | main.go:293-313 | the link list becomes `AdmitAnchor` of the old one and its targets stay distinct; nothing else changes |
| `Crawl.Crawler.GetPageLinks` | main.go:286-321 | the link list becomes `Harvest` of the old one over the page's anchors in document order, and the whole list is returned |
| `Crawl.Crawler.ParseUrlset` | main.go:357-370 | returns `NewLocs` of the old page list and the `<loc>` texts, and the page list grows by exactly that list and stays duplicate-free |
| `Crawl.Crawler.ParseSitemap` | main.go:372-399 | an index registers and returns its child sitemap locations, a url-set registers and returns its new pages, an empty document returns nothing and changes nothing |
| `Crawl.Crawler.CheckUrlStatus` | main.go:178-262 | the checks recorded are the HEAD records followed by the GET records of the retried links; the request errors are the failed GETs; the error list and count grow by exactly the unhealthy recorded checks |
| `Crawl.Crawler.HeadPass` | main.go:186-218 | records one HEAD check per link in order and returns the links whose HEAD failed |
| `Crawl.Crawler.RetryPass` | main.go:220-254 | records one GET check per retried link in order, and one request error per failed GET |
| `Crawl.Crawler.TallyErrors` | main.go:255-261 | the error count rises by the number of unhealthy recorded checks and exactly those are appended to the error list, in order |

## Left out

- HTTP requests, clients, timeouts, the User-Agent header and closing of response bodies (`getXML`, `client.Do`): network I/O. The outcome of each HEAD or GET request is a parameter, a function of the URL.
- A target URL that `http.NewRequest` rejects leaves a nil request whose header the source then sets, which crashes the program; the model only sees the request's outcome.
- Goroutines and the buffered-channel semaphores: concurrency. The model runs each pass in link order, so the order of recorded checks is the link order rather than completion order.
- The data races of the concurrent code: the shared `status` variable (a failed request records the sentinel 0 here, not a status left behind by another request), appends to shared slices that can be lost, and the `links` variable that each page's goroutine overwrites with the whole link list.
- The recursive `getSitemap` call for each child of a sitemap index fetches over the network: `Crawl.Crawler.ParseSitemap` returns the registered child locations instead of the pages the children yield.
- The retry pass as the code schedules it: each GET goroutine is started without first sending to `retry_queue` (main.go:225-227), so the loop at main.go:251-253 fills the buffer without waiting and the tally at main.go:256-261 can run before any GET record exists. `Crawl.Crawler.CheckUrlStatus` runs the tally after the GET pass, so every GET record is tallied there.
- HTML and XML parsing (colly, goquery), `url.ParseRequestURI` and `Hostname()`: foreign libraries. Their results are inputs (`Page`, `Anchor`, `Document`). A page URL that does not parse would make the source dereference nil for a scheme-less href; pages are given with a parsed scheme and host.
- The colly `RandomDelay` rate hint: timing only.
- Command-line flags, prompts, the log directory and file, console output, the final report and elapsed time (`main`): I/O.
- `Strings.TrimSpace` works on code points; Go's version decodes UTF-8 bytes, and an invalid byte sequence is not modelled.
- `Crawl.Crawler.TallyErrors`: the error count is an unbounded integer; Go's 64-bit `int` cannot overflow for any realistic number of checks.
