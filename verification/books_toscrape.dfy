/** Books_toScrape.py: the first, single-file version of the pipeline. It
    reuses the category name, page list and link rules that category_info.py
    later kept unchanged, and writes raw field texts to space-delimited CSV
    files. */
module BooksToScrape {
  import opened Common
  import opened Text
  import opened Web
  import opened Pagination
  import Rating
  import Links
  import Naming
  import Schema
  import CategoryInfo

  const SiteRoot := "https://books.toscrape.com/"
  const ExportsDir := "./exports/"
  const ImageDir := "exports/cover_images/"

  /** The number of title characters an image file name keeps. */
  const TitleLimit := 150

  /** The row `getBookInfo` appends: the URL, the table cells, title, raw
      description and category at their column positions. Fewer than six
      table cells raise an IndexError. */
  function BookRow(url: string, catName: string, page: DetailPage): (r: Result<seq<string>>)
    ensures r.Err? <==> |page.cells| < 6
    ensures r.Err? ==> r.failure == IndexError
    ensures r.Ok? ==> |r.value| == |Schema.Header|
    ensures r.Ok? ==>
      && r.value[0] == url && r.value[1] == page.cells[0] && r.value[2] == page.heading
      && r.value[3] == page.cells[3] && r.value[4] == page.cells[2] && r.value[5] == page.cells[5]
      && r.value[6] == page.description && r.value[7] == catName
  {
    if |page.cells| < 6 then Err(IndexError)
    else Ok([url, page.cells[0], page.heading, page.cells[3], page.cells[2], page.cells[5],
             page.description, catName, Rating.RatingText(Rating.ReviewRating(page.ratingClass)),
             Links.NormaliseImageLink(page.imageSrc, SiteRoot)])
  }

  /** A page whose rating class is one of the five marks and whose image
      link is relative gets a rating naming the number of stars and an
      absolute image link. */
  lemma RowOfDetailPage(url: string, catName: string, page: DetailPage, stars: nat, rest: string)
    requires |page.cells| >= 6
    requires 1 <= stars <= 5 && page.ratingClass == Rating.Marks[stars - 1]
    requires page.imageSrc == Links.ImagePrefix + rest && !Occurs(rest, Links.ImagePrefix)
    ensures BookRow(url, catName, page).value[8] == NatToString(stars) + " star(s)"
    ensures BookRow(url, catName, page).value[9] == SiteRoot + rest
  {
    Rating.ReviewRatingInOrder(stars);
    Links.RelativeImageLink(rest, SiteRoot);
  }

  /** The cover file name of `downloadImages`: the letters, digits and spaces
      of the first 150 title characters, spaces as "_", then ".jpg". */
  function ImageFilename(title: string): (f: string)
    ensures EndsWith(f, ".jpg") && |f| <= TitleLimit + 4
    ensures forall i :: 0 <= i < |f| - 4 ==> IsAlnum(f[i]) || f[i] == '_'
  {
    var stem := Naming.CleanTitle(Take(title, TitleLimit));
    assert (stem + ".jpg")[|stem + ".jpg"| - 4..] == ".jpg";
    stem + ".jpg"
  }

  /** A short title of letters, digits and spaces names its cover file with
      its spaces written as "_". */
  lemma ImageFilenameOfPlainTitle(title: string)
    requires |title| <= TitleLimit
    requires forall i :: 0 <= i < |title| ==> IsAlnum(title[i]) || title[i] == ' '
    ensures ImageFilename(title) == ReplaceAll(title, " ", "_") + ".jpg"
  {
    Naming.CleanTitlePlain(title);
  }

  /** `os.path.join(img_category_dir, img_filename)`. */
  function ImagePath(catName: string, title: string): (p: string)
    ensures p == ImageDir + catName + "/" + ImageFilename(title)
  {
    var f := ImageFilename(title);
    assert f[0] != '/' by {
      assert |f| >= 4;
      if |f| > 4 {
        assert IsAlnum(f[0]) || f[0] == '_';
      } else {
        assert f == f[|f| - 4..] == ".jpg";
      }
    }
    Naming.PathJoin(ImageDir + catName + "/", f)
  }

  /** The rows of the visited books, in visiting order; the first failing
      book stops the run. */
  function BookRows(site: Site, catName: string, urls: seq<string>): Result<seq<seq<string>>> {
    MapAll(u => BookRow(u, catName, site.detail(u)), urls)
  }

  /** One more book extends the rows, or stops the run with that book's failure. */
  lemma BookRowsSnoc(site: Site, catName: string, urls: seq<string>, k: nat)
    requires k < |urls| && BookRows(site, catName, urls[..k]).Ok?
    ensures var row := BookRow(urls[k], catName, site.detail(urls[k]));
      && (row.Err? ==> BookRows(site, catName, urls) == Err(row.failure))
      && (row.Ok? ==> BookRows(site, catName, urls[..k + 1]) == Ok(BookRows(site, catName, urls[..k]).value + [row.value]))
  {
    var f := u => BookRow(u, catName, site.detail(u));
    MapAllSnoc(f, urls, k);
    if f(urls[k]).Err? {
      MapAllFailPrefix(f, urls, k + 1);
    }
  }

  /** The cover image written for each visited book. */
  function ImagePaths(site: Site, catName: string, urls: seq<string>): seq<string> {
    seq(|urls|, k requires 0 <= k < |urls| => ImagePath(catName, site.detail(urls[k]).heading))
  }

  lemma ImagePathsSnoc(site: Site, catName: string, urls: seq<string>, k: nat)
    requires k < |urls|
    ensures ImagePaths(site, catName, urls[..k + 1])
         == ImagePaths(site, catName, urls[..k]) + [ImagePath(catName, site.detail(urls[k]).heading)]
  {
    assert urls[..k + 1][..k] == urls[..k];
  }

  /** What `getCatPagesUrls` leaves behind for one category. */
  datatype CategoryExport = CategoryExport(csvPath: string, rows: seq<seq<string>>, imagePaths: seq<string>)

  /** The book links `getCatPagesUrls` visits for a page count. */
  function VisitedBooks(site: Site, catUrl: string, pageTotal: int): seq<string> {
    Links.LinksOfPages(site, if pageTotal >= 1 then CategoryInfo.PageList(catUrl, pageTotal) else [], SiteRoot)
  }

  /** The per-book loop of `getCatPagesUrls`: a row and a cover image for
      every visited book, in order, stopping at the first failure. */
  method ExportBooks(site: Site, catName: string, bookUrls: seq<string>)
    returns (r: Result<(seq<seq<string>>, seq<string>)>)
    ensures r.Ok? <==> BookRows(site, catName, bookUrls).Ok?
    ensures r.Err? ==> r.failure == BookRows(site, catName, bookUrls).failure
    ensures r.Ok? ==> r.value.0 == BookRows(site, catName, bookUrls).value
    ensures r.Ok? ==> r.value.1 == ImagePaths(site, catName, bookUrls)
  {
    var rows: seq<seq<string>> := [];
    var images: seq<string> := [];
    var k := 0;
    assert bookUrls[..0] == [];
    while k < |bookUrls|
      invariant 0 <= k <= |bookUrls|
      invariant BookRows(site, catName, bookUrls[..k]) == Ok(rows)
      invariant images == ImagePaths(site, catName, bookUrls[..k])
    {
      var page := site.detail(bookUrls[k]);
      var row := BookRow(bookUrls[k], catName, page);
      BookRowsSnoc(site, catName, bookUrls, k);
      ImagePathsSnoc(site, catName, bookUrls, k);
      if row.Err? {
        return Err(row.failure);
      }
      rows := rows + [row.value];
      images := images + [ImagePath(catName, page.heading)];
      k := k + 1;
    }
    assert bookUrls[..k] == bookUrls;
    return Ok((rows, images));
  }

  /** `getCatPagesUrls`. When the listing request fails the page count is
      never assigned and reading it raises a NameError (after the CSV file
      has been created). Otherwise the category's pages are visited as in
      category_info.py and each book yields a row and a cover image. */
  method GetCatPagesUrls(site: Site, catUrl: string) returns (r: Result<CategoryExport>)
    ensures !ResponseOk(site.listing(catUrl).status) ==> r == Err(NameError)
    ensures var listing := site.listing(catUrl);
      var total := PageTotal(listing.resultCount, listing.pageIndicator);
      ResponseOk(listing.status) && total.Err? ==> r == Err(total.failure)
    ensures var listing := site.listing(catUrl);
      var total := PageTotal(listing.resultCount, listing.pageIndicator);
      ResponseOk(listing.status) && total.Ok? ==>
        var name := CategoryInfo.GetCatName(catUrl);
        var urls := VisitedBooks(site, catUrl, total.value);
        var rows := BookRows(site, name, urls);
        && (rows.Err? ==> r == Err(rows.failure))
        && (rows.Ok? ==> r == Ok(CategoryExport(ExportsDir + Naming.CsvFilename(name), rows.value, ImagePaths(site, name, urls))))
  {
    var catName := CategoryInfo.GetCatName(catUrl);
    var response := site.listing(catUrl);
    if !ResponseOk(response.status) {
      return Err(NameError);
    }
    var pageTotal := PageTotal(response.resultCount, response.pageIndicator);
    if pageTotal.Err? {
      return Err(pageTotal.failure);
    }
    var csvFilename := Naming.CsvFilename(catName);
    var pages, bookUrls := CategoryInfo.VisitPages(site, catUrl, pageTotal.value);
    var exported := ExportBooks(site, catName, bookUrls);
    if exported.Err? {
      return Err(exported.failure);
    }
    return Ok(CategoryExport(ExportsDir + csvFilename, exported.value.0, exported.value.1));
  }

  /** Every visited book contributes exactly one row and one cover image. */
  lemma OneRowPerBook(site: Site, catName: string, urls: seq<string>)
    requires BookRows(site, catName, urls).Ok?
    ensures |BookRows(site, catName, urls).value| == |urls| == |ImagePaths(site, catName, urls)|
    ensures forall k :: 0 <= k < |urls| ==>
      BookRow(urls[k], catName, site.detail(urls[k])) == Ok(BookRows(site, catName, urls).value[k])
  {
    MapAllOk(u => BookRow(u, catName, site.detail(u)), urls);
  }
}
