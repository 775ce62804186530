/** The page-count rule shared by scraper.py, category_info.py and
    Books_toScrape.py, and the "index" to "page-k" rewrite of listing URLs
    used by the latter two. */
module Pagination {
  import opened Common
  import opened Text

  /** The site lists at most this many books on one listing page. */
  const PageSize := 20

  /** The text removed from the page indicator before `int()` reads it. */
  const PageIndicatorPrefix := "Page 1 of"

  /** The number of listing pages: 1 for at most `PageSize` books, otherwise
      the integer left once "Page 1 of" is removed from the indicator. */
  function PageTotal(resultCount: string, pageIndicator: string): (r: Result<int>)
    ensures ParseInt(resultCount).Err? ==> r == Err(ParseInt(resultCount).failure)
    ensures ParseInt(resultCount).Ok? && ParseInt(resultCount).value <= PageSize ==> r == Ok(1)
  {
    match ParseInt(resultCount)
    case Err(f) => Err(f)
    case Ok(total) =>
      if total > PageSize then ParseInt(ReplaceAll(pageIndicator, PageIndicatorPrefix, ""))
      else Ok(1)
  }

  /** An indicator reading "Page 1 of N", whitespace around it, gives N pages. */
  lemma PageTotalFromIndicator(resultCount: string, w1: string, n: nat, w2: string)
    requires ParseInt(resultCount).Ok? && ParseInt(resultCount).value > PageSize
    requires AllWhite(w1) && AllWhite(w2)
    ensures PageTotal(resultCount, w1 + PageIndicatorPrefix + " " + NatToString(n) + w2) == Ok(n)
  {
    var rest := " " + NatToString(n) + w2;
    assert 'P' !in rest;
    ReplaceLeadingMarker(w1, PageIndicatorPrefix, rest, "");
    assert w1 + PageIndicatorPrefix + " " + NatToString(n) + w2 == w1 + PageIndicatorPrefix + rest;
    assert w1 + "" + rest == (w1 + " ") + NatToString(n) + w2;
    ParseNatToString(w1 + " ", n, w2);
  }

  /** `page_url.replace("index", "page-" + str(k))`. */
  function IndexedPageUrl(catUrl: string, k: nat): string {
    ReplaceAll(catUrl, "index", "page-" + NatToString(k))
  }

  lemma HtmlSuffixUnchanged(rep: string)
    ensures ReplaceAll(".html", "index", rep) == ".html"
  {
    ForeignCharNoOccurrence(".html", "index", 'i');
    ReplaceUnchanged(".html", "index", rep);
  }

  /** A category URL ending in "index.html" becomes the URL of listing page k. */
  lemma IndexedPageOfIndexUrl(base: string, k: nat)
    requires !Occurs(base, "index")
    requires NoStraddle(base, "index")
    ensures IndexedPageUrl(base + "index.html", k) == base + "page-" + NatToString(k) + ".html"
  {
    var rep := "page-" + NatToString(k);
    ReplaceConcat(base, "index.html", "index", rep);
    ReplaceFront("index", ".html", rep);
    HtmlSuffixUnchanged(rep);
    assert base + (rep + ".html") == base + "page-" + NatToString(k) + ".html";
  }
}
