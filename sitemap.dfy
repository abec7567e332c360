/** Sitemap documents (main.go, `parseUrlset` and `parseSitemap`): which of
    the `<loc>` entries of a document are new pages, and which shape a
    document is read as. The XML parsing itself is done by a library; a
    document is represented here by what the crawler asks of it. */
module Sitemap {
  import opened Seqs

  /** A parsed sitemap document: how many `<sitemap>` and `<url>` elements it
      has, and the text of each of its `<loc>` elements in document order. */
  datatype Document = Document(sitemapNodes: nat, urlNodes: nat, locs: seq<string>)

  /** A sitemap index (entries name further sitemaps), a url-set (entries
      name pages), or neither. */
  datatype Shape = Index | UrlSet | Empty

  /** The shape a document is read as: an index as soon as it has one
      `<sitemap>` element, otherwise a url-set as soon as it has one `<url>`
      element, otherwise empty. */
  function ShapeOf(doc: Document): (shape: Shape)
    ensures shape == Index <==> doc.sitemapNodes > 0
    ensures shape == UrlSet <==> doc.sitemapNodes == 0 && doc.urlNodes > 0
    ensures shape == Empty <==> doc.sitemapNodes == 0 && doc.urlNodes == 0
  {
    if doc.sitemapNodes > 0 then Index
    else if doc.urlNodes > 0 then UrlSet
    else Empty
  }

  /** Reference definition of the locations a document contributes: in input
      order, each `locs[i]` that is neither among the already `seen` pages nor
      an earlier entry of `locs`. */
  function NewLocs(seen: seq<string>, locs: seq<string>): (added: seq<string>)
  {
    if locs == [] then []
    else
      var n := |locs| - 1;
      NewLocs(seen, locs[..n]) + (if locs[n] !in seen && locs[n] !in locs[..n] then [locs[n]] else [])
  }

  /** A location is contributed exactly when it occurs in the document and
      was not seen before. */
  lemma {:induction false} NewLocsMembers(seen: seq<string>, locs: seq<string>, x: string)
    ensures x in NewLocs(seen, locs) <==> x in locs && x !in seen
  {
    if locs != [] {
      var n := |locs| - 1;
      NewLocsMembers(seen, locs[..n], x);
      assert locs == locs[..n] + [locs[n]];
    }
  }

  /** A duplicate-free page list stays duplicate-free when a document's new
      locations are appended to it. */
  lemma {:induction false} NewLocsDistinct(seen: seq<string>, locs: seq<string>)
    requires Distinct(seen)
    ensures Distinct(seen + NewLocs(seen, locs))
  {
    if locs != [] {
      var n := |locs| - 1;
      NewLocsDistinct(seen, locs[..n]);
      if locs[n] !in seen && locs[n] !in locs[..n] {
        var prev := seen + NewLocs(seen, locs[..n]);
        NewLocsMembers(seen, locs[..n], locs[n]);
        var all := prev + [locs[n]];
        assert seen + NewLocs(seen, locs) == all;
        forall i, j | 0 <= i < j < |all| ensures all[i] != all[j] {
          if j == |prev| {
            assert all[i] == prev[i];
          } else {
            assert all[i] == prev[i] && all[j] == prev[j];
          }
        }
      } else {
        assert seen + NewLocs(seen, locs) == seen + NewLocs(seen, locs[..n]);
      }
    }
  }

  /** A document contributes at most one location per `<loc>` element, and
      one for every element exactly when its locations are pairwise distinct
      and none was seen before. */
  lemma {:induction false} NewLocsBounded(seen: seq<string>, locs: seq<string>)
    ensures |NewLocs(seen, locs)| <= |locs|
    ensures |NewLocs(seen, locs)| == |locs| <==> Distinct(locs) && forall x :: x in locs ==> x !in seen
  {
    if locs != [] {
      var n := |locs| - 1;
      NewLocsBounded(seen, locs[..n]);
      if Distinct(locs) {
        assert Distinct(locs[..n]);
      }
    }
  }
}
