/** category_info.py: the category stage of the package version. It names
    the category after its URL, counts its listing pages, and visits every
    book link page by page. */
module CategoryInfo {
  import opened Common
  import opened Text
  import opened Web
  import opened Pagination
  import Links
  import Naming

  const SiteRoot := "https://books.toscrape.com/"
  const CategoryPrefix := SiteRoot + "catalogue/category/books/"
  const IndexSuffix := "/index.html"

  /** `get_cat_name`: drops the catalogue prefix and "/index.html", deletes
      every "_", turns every "-" into a space and deletes every digit run. */
  function GetCatName(catUrl: string): (name: string)
    ensures forall i :: 0 <= i < |name| ==> !IsDigit(name[i])
    ensures '_' !in name && '-' !in name
  {
    var noPrefix := ReplaceAll(catUrl, CategoryPrefix, "");
    var noSuffix := ReplaceAll(noPrefix, IndexSuffix, "");
    var noUnderscore := ReplaceAll(noSuffix, "_", "");
    ReplaceCharRemoves(noSuffix, '_', "");
    var spaced := ReplaceAll(noUnderscore, "-", " ");
    ReplaceCharRemoves(noUnderscore, '-', " ");
    ReplaceChars(noUnderscore, "-", " ");
    DeleteDigits(spaced)
  }

  /** A slug of lower-case words joined by "-", as the site's category URLs use. */
  predicate IsSlug(slug: string) {
    forall i :: 0 <= i < |slug| ==> 'a' <= slug[i] <= 'z' || slug[i] == '-'
  }

  /** The prefix and the "/index.html" suffix come off a URL whose middle
      part holds neither ':' nor '/'. */
  lemma StripAffixes(mid: string)
    requires ':' !in mid && '/' !in mid
    ensures ReplaceAll(ReplaceAll(CategoryPrefix + mid + IndexSuffix, CategoryPrefix, ""), IndexSuffix, "") == mid
  {
    var rest := mid + IndexSuffix;
    assert CategoryPrefix + mid + IndexSuffix == CategoryPrefix + rest;
    assert ReplaceAll(CategoryPrefix + rest, CategoryPrefix, "") == rest by {
      assert CategoryPrefix[5] == ':' && ':' !in rest;
      ReplaceMarkerOnce(CategoryPrefix, rest, "", ':');
      assert "" + rest == rest;
    }
    assert ReplaceAll(rest, IndexSuffix, "") == mid by {
      ReplaceTrailingMarker(mid, IndexSuffix, "");
      assert mid + "" == mid;
    }
  }

  /** Deleting "_" from "<slug>_<digits>" joins the two parts. */
  lemma DropUnderscore(slug: string, n: string)
    requires '_' !in slug && AllDigits(n)
    ensures ReplaceAll(slug + "_" + n, "_", "") == slug + n
  {
    ReplaceCharConcat(slug + "_", n, '_', "");
    ReplaceCharConcat(slug, "_", '_', "");
    ForeignCharNoOccurrence(slug, "_", '_');
    ReplaceUnchanged(slug, "_", "");
    ReplaceFront("_", "", "");
    assert '_' !in n;
    ForeignCharNoOccurrence(n, "_", '_');
    ReplaceUnchanged(n, "_", "");
    assert "_" + "" == "_";
    assert slug + "" + n == slug + n;
  }

  /** The URL "<prefix><slug>_<id>/index.html" is named after its slug, with
      the hyphens read as spaces and the numeric id gone. */
  lemma CatNameOfCategoryUrl(slug: string, id: nat)
    requires IsSlug(slug)
    ensures GetCatName(CategoryPrefix + slug + "_" + NatToString(id) + IndexSuffix) == ReplaceAll(slug, "-", " ")
  {
    var n := NatToString(id);
    var mid := slug + "_" + n;
    var url := CategoryPrefix + slug + "_" + n + IndexSuffix;
    assert url == CategoryPrefix + mid + IndexSuffix;
    assert ':' !in mid && '/' !in mid && '_' !in slug;
    StripAffixes(mid);
    DropUnderscore(slug, n);
    SpacedSlugDigits(slug, n);
  }

  /** Once "-" is read as a space, deleting the digits of "<slug><digits>"
      leaves the slug. */
  lemma SpacedSlugDigits(slug: string, n: string)
    requires IsSlug(slug) && AllDigits(n)
    ensures DeleteDigits(ReplaceAll(slug + n, "-", " ")) == ReplaceAll(slug, "-", " ")
  {
    var spacedSlug := ReplaceAll(slug, "-", " ");
    assert ReplaceAll(slug + n, "-", " ") == spacedSlug + n by {
      ReplaceCharConcat(slug, n, '-', " ");
      assert '-' !in n;
      ForeignCharNoOccurrence(n, "-", '-');
      ReplaceUnchanged(n, "-", " ");
    }
    assert forall i :: 0 <= i < |spacedSlug| ==> !IsDigit(spacedSlug[i]) by {
      ReplaceChars(slug, "-", " ");
      forall i | 0 <= i < |spacedSlug| ensures !IsDigit(spacedSlug[i]) {
        assert spacedSlug[i] in spacedSlug;
      }
    }
    DeleteDigitsConcat(spacedSlug, n);
    DeleteDigitsOfText(spacedSlug);
    DeleteDigitsOfDigits(n);
    assert spacedSlug + "" == spacedSlug;
  }

  /** `get_book_urls`: the book links of one listing page, each with
      "../../../" rewritten to the catalogue root, in anchor order. */
  method GetBookUrls(site: Site, catPage: string) returns (links: seq<string>)
    ensures |links| == |site.listing(catPage).bookHrefs|
    ensures links == Links.PageLinks(site, catPage, SiteRoot)
  {
    var hrefs := site.listing(catPage).bookHrefs;
    links := [];
    var k := 0;
    while k < |hrefs|
      invariant 0 <= k <= |hrefs|
      invariant links == Links.PageLinks(site, catPage, SiteRoot)[..k]
    {
      links := links + [Links.NormaliseBookLink(hrefs[k], SiteRoot)];
      k := k + 1;
    }
  }

  /** `current_cat_pages` after the page loop: the category URL, then the
      URL with "index" rewritten to "page-k" for k = 2..page_total. */
  function PageList(catUrl: string, pageTotal: int): (pages: seq<string>)
    ensures |pages| == if pageTotal > 1 then pageTotal else 1
    ensures pages[0] == catUrl
    ensures forall p :: 1 <= p < |pages| ==> pages[p] == IndexedPageUrl(catUrl, p + 1)
  {
    var extra := if pageTotal > 1 then pageTotal - 1 else 0;
    [catUrl] + seq(extra, p requires 0 <= p < extra => IndexedPageUrl(catUrl, p + 2))
  }

  /** For a category URL ending in "index.html", listing page k is the same
      URL ending in "page-k.html". */
  lemma PageListOfIndexUrl(base: string, pageTotal: int, p: nat)
    requires !Occurs(base, "index") && NoStraddle(base, "index")
    requires 1 <= p < pageTotal
    ensures PageList(base + "index.html", pageTotal)[p] == base + "page-" + NatToString(p + 1) + ".html"
  {
    IndexedPageOfIndexUrl(base, p + 1);
  }

  /** The page loop of `get_cat_pages_urls`: builds the page list as it
      goes and collects the book links of each page in visiting order. No
      page is visited when the page count is below one. */
  method VisitPages(site: Site, catUrl: string, pageTotal: int) returns (pages: seq<string>, bookUrls: seq<string>)
    ensures pages == PageList(catUrl, pageTotal)
    ensures bookUrls == Links.LinksOfPages(site, if pageTotal >= 1 then pages else [], SiteRoot)
  {
    ghost var all := PageList(catUrl, pageTotal);
    pages := [catUrl];
    bookUrls := [];
    var page := 0;
    while page < pageTotal
      invariant 0 <= page <= |all|
      invariant page == 0 || page <= pageTotal
      invariant pages == all[..if page > 0 then page else 1]
      invariant bookUrls == Links.LinksOfPages(site, all[..page], SiteRoot)
    {
      if page > 0 {
        pages := pages + [IndexedPageUrl(catUrl, page + 1)];
      }
      assert pages[page] == all[page];
      var links := GetBookUrls(site, pages[page]);
      assert all[..page + 1][..page] == all[..page];
      bookUrls := bookUrls + links;
      page := page + 1;
    }
    if pageTotal >= 1 {
      assert all[..page] == all;
    } else {
      assert all[..0] == [];
      assert all[..1] == all;
    }
  }

  /** What `get_cat_pages_urls` produced for one category. */
  datatype CategoryExport =
    | NotFetched  // the listing request failed: nothing is done
    | Exported(name: string, csvFilename: string, pages: seq<string>, bookUrls: seq<string>)

  /** `get_cat_pages_urls`: names the category, and when its listing page is
      fetched, counts the pages, names the CSV file and visits every book
      link. An unreadable count stops the run. */
  method GetCatPagesUrls(site: Site, catUrl: string) returns (r: Result<CategoryExport>)
    ensures var listing := site.listing(catUrl);
      && (!ResponseOk(listing.status) ==> r == Ok(NotFetched))
      && (ResponseOk(listing.status) && PageTotal(listing.resultCount, listing.pageIndicator).Err? ==>
            r == Err(PageTotal(listing.resultCount, listing.pageIndicator).failure))
    ensures r.Ok? && r.value.Exported? ==>
      var listing := site.listing(catUrl);
      var total := PageTotal(listing.resultCount, listing.pageIndicator);
      && ResponseOk(listing.status) && total.Ok?
      && r.value.name == GetCatName(catUrl)
      && r.value.csvFilename == Naming.CsvFilename(GetCatName(catUrl))
      && r.value.pages == PageList(catUrl, total.value)
      && r.value.bookUrls == Links.LinksOfPages(site, if total.value >= 1 then r.value.pages else [], SiteRoot)
  {
    var catName := GetCatName(catUrl);
    var response := site.listing(catUrl);
    if !ResponseOk(response.status) {
      return Ok(NotFetched);
    }
    var pageTotal := PageTotal(response.resultCount, response.pageIndicator);
    if pageTotal.Err? {
      return Err(pageTotal.failure);
    }
    var csvFilename := Naming.CsvFilename(catName);
    var pages, bookUrls := VisitPages(site, catUrl, pageTotal.value);
    return Ok(Exported(catName, csvFilename, pages, bookUrls));
  }
}
