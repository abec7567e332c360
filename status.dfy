/** Link checking (main.go, `checkUrlStatus`): how a request's outcome is
    classified, which entries the HEAD pass and the GET retry pass record,
    and which recorded entries the final tally counts as errors. The network
    is a parameter: `head` and `get` give the outcome of a HEAD or a GET
    request for each URL. */
module Status {
  import opened Seqs
  import opened Links

  /** What a request came back with: a response carrying a status code, or a
      transport failure (timeout, DNS, refused connection, TLS) with its
      description. */
  datatype Outcome = Response(statusCode: int) | Failure(message: string)

  /** One recorded check of a link (Go's `CrawlResponse`). */
  datatype CrawlResponse = CrawlResponse(originUrl: string, originText: string, url: string, statusCode: int, isOk: bool)

  /** A GET retry that failed at the transport level (Go's `RequestErrors`). */
  datatype RequestError = RequestError(message: string, originUrl: string, originText: string)

  /** The status recorded when no response was obtained. */
  const NoStatus: int := 0

  /** A status is healthy when it is in the 2xx range. */
  predicate IsOk(status: int) {
    200 <= status && status <= 299
  }

  /** The range is closed at both ends, and the sentinel is not healthy. */
  lemma OkBoundaries()
    ensures IsOk(200) && IsOk(299)
    ensures !IsOk(199) && !IsOk(300) && !IsOk(NoStatus)
  {
  }

  /** The status recorded for an outcome. */
  function StatusOf(o: Outcome): (status: int) {
    match o
    case Response(code) => code
    case Failure(_) => NoStatus
  }

  /** The entry recorded for checking `l` with outcome `o`: it carries the
      link's origin and URL, the response's status or the sentinel, and is
      healthy exactly when a response arrived with a 2xx status. */
  function Record(l: Link, o: Outcome): (r: CrawlResponse)
    ensures r.originUrl == l.originUrl && r.originText == l.originText && r.url == l.url
    ensures r.isOk <==> o.Response? && 200 <= o.statusCode <= 299
    ensures o.Failure? ==> r.statusCode == NoStatus
    ensures o.Response? ==> r.statusCode == o.statusCode
  {
    var status := StatusOf(o);
    CrawlResponse(l.originUrl, l.originText, l.url, status, IsOk(status))
  }

  /** The entries one pass records for `links`, in order, when each request
      for a URL has the outcome `net` gives it. */
  function Records(links: seq<Link>, net: string -> Outcome): (rs: seq<CrawlResponse>)
  {
    if links == [] then []
    else
      var n := |links| - 1;
      Records(links[..n], net) + [Record(links[n], net(links[n].url))]
  }

  /** A pass records exactly one entry per link, at the link's position. */
  lemma {:induction false} RecordsAt(links: seq<Link>, net: string -> Outcome)
    ensures |Records(links, net)| == |links|
    ensures forall k :: 0 <= k < |links| ==> Records(links, net)[k] == Record(links[k], net(links[k].url))
  {
    if links != [] {
      var n := |links| - 1;
      RecordsAt(links[..n], net);
    }
  }

  /** The links whose HEAD request failed at the transport level, in order. */
  function Retries(links: seq<Link>, head: string -> Outcome): (retries: seq<Link>)
  {
    if links == [] then []
    else
      var n := |links| - 1;
      Retries(links[..n], head) + (if head(links[n].url).Failure? then [links[n]] else [])
  }

  /** A link is retried exactly when it was checked and its HEAD failed. */
  lemma {:induction false} RetriesMembers(links: seq<Link>, head: string -> Outcome, l: Link)
    ensures l in Retries(links, head) <==> l in links && head(l.url).Failure?
  {
    if links != [] {
      var n := |links| - 1;
      RetriesMembers(links[..n], head, l);
      assert links == links[..n] + [links[n]];
    }
  }

  /** The request errors the GET retry pass records, in order: one for each
      retried link whose GET failed too. */
  function GetFailures(retries: seq<Link>, get: string -> Outcome): (errors: seq<RequestError>)
  {
    if retries == [] then []
    else
      var n := |retries| - 1;
      var o := get(retries[n].url);
      GetFailures(retries[..n], get)
        + (if o.Failure? then [RequestError(o.message, retries[n].originUrl, retries[n].originText)] else [])
  }

  /** Everything `checkUrlStatus` records for `links`: one HEAD entry per
      link, followed by one GET entry per link whose HEAD failed. */
  function Checked(links: seq<Link>, head: string -> Outcome, get: string -> Outcome): (checked: seq<CrawlResponse>)
  {
    Records(links, head) + Records(Retries(links, head), get)
  }

  /** The recorded entries the tally counts as errors, in order. */
  function NotOk(rs: seq<CrawlResponse>): (errors: seq<CrawlResponse>)
  {
    if rs == [] then []
    else
      var n := |rs| - 1;
      NotOk(rs[..n]) + (if rs[n].isOk then [] else [rs[n]])
  }

  /** An entry is tallied exactly when it was recorded and is not healthy. */
  lemma {:induction false} NotOkMembers(rs: seq<CrawlResponse>, r: CrawlResponse)
    ensures r in NotOk(rs) <==> r in rs && !r.isOk
  {
    if rs != [] {
      var n := |rs| - 1;
      NotOkMembers(rs[..n], r);
      assert rs == rs[..n] + [rs[n]];
    }
  }

  /** Tallying a concatenation tallies each part, in order. */
  lemma {:induction false} NotOkAppend(a: seq<CrawlResponse>, b: seq<CrawlResponse>)
    ensures NotOk(a + b) == NotOk(a) + NotOk(b)
  {
    if b == [] {
      assert a + b == a;
    } else {
      var n := |b| - 1;
      assert (a + b)[..|a + b| - 1] == a + b[..n];
      assert (a + b)[|a + b| - 1] == b[n];
      NotOkAppend(a, b[..n]);
    }
  }

  /** A link whose HEAD failed is recorded twice, at two positions: once
      among the HEAD records with the sentinel status, which the tally counts
      as an error, and once among the GET records with its GET outcome. So in
      this model a link whose HEAD timed out is counted as an error even when
      its GET retry answers 200. */
  lemma FailedHeadRecordedTwice(links: seq<Link>, head: string -> Outcome, get: string -> Outcome, l: Link)
    requires l in links && head(l.url).Failure?
    ensures var checked := Checked(links, head, get);
      Record(l, head(l.url)) in checked && Record(l, head(l.url)).statusCode == NoStatus
      && Record(l, head(l.url)) in NotOk(checked)
      && Record(l, get(l.url)) in checked
    ensures var checked := Checked(links, head, get);
      exists i, j :: 0 <= i < |links| <= j < |checked|
        && checked[i] == Record(l, head(l.url)) && checked[j] == Record(l, get(l.url))
  {
    var checked := Checked(links, head, get);
    var retries := Retries(links, head);
    RecordsAt(links, head);
    RecordsAt(retries, get);
    RetriesMembers(links, head, l);
    var i :| 0 <= i < |links| && links[i] == l;
    assert checked[i] == Record(l, head(l.url));
    var j :| 0 <= j < |retries| && retries[j] == l;
    assert checked[|links| + j] == Record(l, get(l.url));
    assert |links| <= |links| + j < |checked|;
    NotOkMembers(checked, Record(l, head(l.url)));
  }

  /** With pairwise distinct target URLs, a link whose HEAD answered is
      recorded once, with the answered status: exactly one entry carries its
      URL, and it is that record. */
  lemma AnsweredHeadRecordedOnce(links: seq<Link>, head: string -> Outcome, get: string -> Outcome, l: Link)
    requires Distinct(UrlsOf(links))
    requires l in links && head(l.url).Response?
    ensures var checked := Checked(links, head, get);
      Record(l, head(l.url)) in checked
      && forall r :: r in checked && r.url == l.url ==> r == Record(l, head(l.url))
    ensures var checked := Checked(links, head, get);
      forall i, j :: 0 <= i < |checked| && 0 <= j < |checked| && checked[i].url == l.url && checked[j].url == l.url ==> i == j
  {
    var retries := Retries(links, head);
    var fromHead := Records(links, head);
    var fromGet := Records(retries, get);
    RecordsAt(links, head);
    RecordsAt(retries, get);
    var m :| 0 <= m < |links| && links[m] == l;
    assert fromHead[m] == Record(l, head(l.url));
    forall r | r in fromHead && r.url == l.url
      ensures r == Record(l, head(l.url))
    {
      var i :| 0 <= i < |fromHead| && fromHead[i] == r;
      assert UrlsOf(links)[i] == UrlsOf(links)[m];
    }
    forall r | r in fromGet
      ensures r.url != l.url
    {
      var i :| 0 <= i < |fromGet| && fromGet[i] == r;
      RetriesMembers(links, head, retries[i]);
    }
    var checked := fromHead + fromGet;
    forall i, j | 0 <= i < |checked| && 0 <= j < |checked| && checked[i].url == l.url && checked[j].url == l.url
      ensures i == j
    {
      if |links| <= i || |links| <= j {
        assert false;
      } else {
        assert UrlsOf(links)[i] == UrlsOf(links)[j];
      }
    }
  }
}
