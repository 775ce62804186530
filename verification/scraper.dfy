/** scraper.py: the `BookScraper` class, the last version of the pipeline.
    It discovers the categories once, optionally filters them, collects one
    record per book into a map keyed by category name, and derives the CSV
    files and cover image paths from that map. */
module Scraper {
  import opened Common
  import opened Text
  import opened Web
  import Rating
  import Links
  import Naming
  import Fields
  import Schema
  import opened Pagination

  const RootUrl := "http://books.toscrape.com/"
  const CsvDir := "exports/csv/"
  const CoversDir := "exports/covers/"

  /** A category as a (name, url) tuple. */
  datatype Category = Category(name: string, url: string)

  /** The dict `book_data` builds for one book. */
  datatype BookRecord = BookRecord(
    productPageUrl: string,
    universalProductCode: string,
    title: string,
    priceIncludingTax: string,
    priceExcludingTax: string,
    numberAvailable: string,
    productDescription: string,
    category: string,
    reviewRating: string,
    imageUrl: string)

  // -----------------------------------------------------------------------
  // Categories
  // -----------------------------------------------------------------------

  /** `setup_categories`: pairs the i-th category link with the i-th label of
      the navigation list. The links and labels come from two different
      selectors, so a label can be missing (an IndexError). */
  method SetupCategories(status: int, hrefs: seq<string>, labels: seq<string>)
    returns (r: Result<seq<Category>>)
    ensures status != 200 ==> r == Err(ConnectionError(status))
    ensures status == 200 && |labels| < |hrefs| ==> r == Err(IndexError)
    ensures r.Ok? <==> status == 200 && |hrefs| <= |labels|
    ensures r.Ok? ==> |r.value| == |hrefs|
    ensures r.Ok? ==> forall i :: 0 <= i < |hrefs| ==>
      r.value[i] == Category(Lower(Strip(labels[i])), RootUrl + DropLastSegment(hrefs[i]))
  {
    if status != 200 {
      return Err(ConnectionError(status));
    }
    var urls := seq(|hrefs|, i requires 0 <= i < |hrefs| => RootUrl + DropLastSegment(hrefs[i]));
    var categories: seq<Category> := [];
    var i := 0;
    while i < |urls|
      invariant 0 <= i <= |urls| && i <= |labels|
      invariant |categories| == i
      invariant forall j :: 0 <= j < i ==> categories[j] == Category(Lower(Strip(labels[j])), urls[j])
    {
      if i >= |labels| {
        return Err(IndexError);
      }
      categories := categories + [Category(Lower(Strip(labels[i])), urls[i])];
      i := i + 1;
    }
    return Ok(categories);
  }

  /** `cat_conf[i] = category.rsplit("/", 1)[0]` for every selector, in place. */
  method StripSelectors(conf: array<string>)
    modifies conf
    ensures forall i :: 0 <= i < conf.Length ==> conf[i] == DropLastSegment(old(conf[i]))
  {
    var i := 0;
    while i < conf.Length
      invariant 0 <= i <= conf.Length
      invariant forall j :: 0 <= j < i ==> conf[j] == DropLastSegment(old(conf[j]))
      invariant forall j :: i <= j < conf.Length ==> conf[j] == old(conf[j])
    {
      conf[i] := DropLastSegment(conf[i]);
      i := i + 1;
    }
  }

  predicate Selected(c: Category, conf: seq<string>) {
    c.name in conf || c.url in conf
  }

  /** `[(n, u) for n, u in categories if n in cat_conf or u in cat_conf]`. */
  function KeepSelected(cats: seq<Category>, conf: seq<string>): (r: seq<Category>)
    ensures |r| <= |cats|
    ensures forall c :: c in r <==> c in cats && Selected(c, conf)
    decreases |cats|
  {
    if cats == [] then []
    else
      assert forall c :: c in cats <==> c == cats[0] || c in cats[1..];
      (if Selected(cats[0], conf) then [cats[0]] else []) + KeepSelected(cats[1..], conf)
  }

  /** The filter keeps the categories' original order. */
  lemma {:induction false} KeepSelectedConcat(a: seq<Category>, b: seq<Category>, conf: seq<string>)
    ensures KeepSelected(a + b, conf) == KeepSelected(a, conf) + KeepSelected(b, conf)
    decreases |a|
  {
    if a == [] {
      assert a + b == b;
    } else {
      assert (a + b)[1..] == a[1..] + b;
      KeepSelectedConcat(a[1..], b, conf);
    }
  }

  // -----------------------------------------------------------------------
  // Pagination and book links
  // -----------------------------------------------------------------------

  /** The listing pages `get_book_urls` fetches: the category URL itself for a
      single page, otherwise "/page-k.html" appended for k = 1..page_total. */
  function ListingUrls(catUrl: string, pageTotal: int): seq<string> {
    var n := if pageTotal > 0 then pageTotal else 0;
    seq(n, i requires 0 <= i < n =>
      if pageTotal == 1 then catUrl else catUrl + "/page-" + NatToString(i + 1) + ".html")
  }

  lemma {:induction false} NatToStringInjective(a: nat, b: nat)
    requires NatToString(a) == NatToString(b)
    ensures a == b
  {
    NatToStringValue(a);
    NatToStringValue(b);
  }

  /** Several listing pages are all different URLs, so no page is read twice. */
  lemma ListingUrlsDistinct(catUrl: string, pageTotal: int, i: nat, j: nat)
    requires pageTotal > 1 && i < j < pageTotal
    ensures ListingUrls(catUrl, pageTotal)[i] != ListingUrls(catUrl, pageTotal)[j]
  {
    var urls := ListingUrls(catUrl, pageTotal);
    var p := catUrl + "/page-";
    var a, b := NatToString(i + 1), NatToString(j + 1);
    if urls[i] == urls[j] {
      assert urls[i] == p + a + ".html" && urls[j] == p + b + ".html";
      assert |a| == |b|;
      assert a == (p + a + ".html")[|p|..|p| + |a|];
      assert b == (p + b + ".html")[|p|..|p| + |b|];
      NatToStringInjective(i + 1, j + 1);
    }
  }

  /** The loop of `get_book_urls` over the listing pages of one category,
      collecting each page's normalised book links. */
  method CollectBookUrls(site: Site, catUrl: string, pageTotal: int)
    returns (pages: seq<string>, bookUrls: seq<string>)
    ensures pages == ListingUrls(catUrl, pageTotal)
    ensures bookUrls == Links.LinksOfPages(site, pages, RootUrl)
  {
    pages, bookUrls := [], [];
    ghost var all := ListingUrls(catUrl, pageTotal);
    var i := 0;
    while i < pageTotal
      invariant 0 <= i && i <= |all|
      invariant pages == all[..i]
      invariant bookUrls == Links.LinksOfPages(site, pages, RootUrl)
    {
      var pageUrl := if pageTotal == 1 then catUrl else catUrl + "/page-" + NatToString(i + 1) + ".html";
      var hrefs := site.listing(pageUrl).bookHrefs;
      ghost var before := bookUrls;
      var k := 0;
      while k < |hrefs|
        invariant 0 <= k <= |hrefs|
        invariant bookUrls == before + Links.PageLinks(site, pageUrl, RootUrl)[..k]
      {
        bookUrls := bookUrls + [Links.NormaliseBookLink(hrefs[k], RootUrl)];
        k := k + 1;
      }
      assert Links.PageLinks(site, pageUrl, RootUrl)[..k] == Links.PageLinks(site, pageUrl, RootUrl);
      assert all[..i + 1] == all[..i] + [pageUrl];
      pages := pages + [pageUrl];
      assert pages[..|pages| - 1] == all[..i];
      i := i + 1;
    }
    assert all[..i] == all;
  }

  // -----------------------------------------------------------------------
  // One book
  // -----------------------------------------------------------------------

  /** The record `book_data` builds from a detail page: a non-200 response
      exits, and fewer than six table cells raise an IndexError. */
  function ExtractRecord(category: string, url: string, page: DetailPage): (r: Result<BookRecord>)
    ensures page.status != 200 ==> r == Err(ConnectionError(page.status))
    ensures page.status == 200 && |page.cells| < 6 ==> r == Err(IndexError)
    ensures r.Ok? <==> page.status == 200 && |page.cells| >= 6
    ensures r.Ok? ==> r.value.productPageUrl == url && r.value.category == category
    ensures r.Ok? ==> AllDigits(r.value.numberAvailable) && !IsSpace(r.value.productDescription)
  {
    if page.status != 200 then Err(ConnectionError(page.status))
    else if |page.cells| < 6 then Err(IndexError)
    else
      Ok(BookRecord(
        url,
        page.cells[0],
        page.heading,
        page.cells[3],
        page.cells[2],
        KeepDigits(page.cells[5]),
        Fields.CleanDescription(page.description),
        category,
        Rating.RatingText(Rating.ReviewRating(page.ratingClass)),
        Links.NormaliseImageLink(page.imageSrc, RootUrl)))
  }

  /** A well-formed detail page yields a record whose code, title and
      prices are the page's own, whose availability reads back as the stock
      count, whose rating text names the number of stars, and whose image
      link is absolute. */
  lemma RecordOfDetailPage(category: string, url: string, page: DetailPage,
                           before: string, n: nat, after: string, stars: nat, rest: string)
    requires page.status == 200 && |page.cells| >= 6
    requires page.cells[5] == before + NatToString(n) + after
    requires forall i :: 0 <= i < |before| ==> !IsDigit(before[i])
    requires forall i :: 0 <= i < |after| ==> !IsDigit(after[i])
    requires 1 <= stars <= 5 && page.ratingClass == Rating.Marks[stars - 1]
    requires page.imageSrc == Links.ImagePrefix + rest && !Occurs(rest, Links.ImagePrefix)
    ensures var r := ExtractRecord(category, url, page);
      && r.Ok?
      && r.value.universalProductCode == page.cells[0]
      && r.value.title == page.heading
      && r.value.priceIncludingTax == page.cells[3]
      && r.value.priceExcludingTax == page.cells[2]
      && ParseInt(r.value.numberAvailable) == Ok(n)
      && r.value.reviewRating == NatToString(stars) + " star(s)"
      && r.value.imageUrl == RootUrl + rest
  {
    Fields.AvailabilityCount(before, n, after);
    Rating.ReviewRatingInOrder(stars);
    Links.RelativeImageLink(rest, RootUrl);
  }

  /** The records of the given book pages, one per URL and in URL order; the
      first page that fails stops the run. */
  function Records(site: Site, category: string, urls: seq<string>): Result<seq<BookRecord>> {
    MapAll(u => ExtractRecord(category, u, site.detail(u)), urls)
  }

  /** One more book extends the records, or stops the run with that book's failure. */
  lemma RecordsSnoc(site: Site, category: string, urls: seq<string>, j: nat)
    requires j < |urls| && Records(site, category, urls[..j]).Ok?
    ensures var e := ExtractRecord(category, urls[j], site.detail(urls[j]));
      && (e.Err? ==> Records(site, category, urls) == Err(e.failure))
      && (e.Ok? ==> Records(site, category, urls[..j + 1]) == Ok(Records(site, category, urls[..j]).value + [e.value]))
  {
    var f := u => ExtractRecord(category, u, site.detail(u));
    MapAllSnoc(f, urls, j);
    if f(urls[j]).Err? {
      MapAllFailPrefix(f, urls, j + 1);
    }
  }

  /** What one category contributes: its listing page, its page count, and a
      record for every book link of every listing page. */
  function CategoryRecords(site: Site, cat: Category): Result<seq<BookRecord>> {
    var listing := site.listing(cat.url);
    if listing.status != 200 then Err(ConnectionError(listing.status))
    else
      match PageTotal(listing.resultCount, listing.pageIndicator)
      case Err(f) => Err(f)
      case Ok(n) => Records(site, cat.name, Links.LinksOfPages(site, ListingUrls(cat.url, n), RootUrl))
  }

  /** The books map after `get_book_urls` has handled `cats` in order: each
      category's list is reset to empty and then filled with its records. */
  function Run(books: map<string, seq<BookRecord>>, cats: seq<Category>, site: Site)
    : Result<map<string, seq<BookRecord>>>
    decreases |cats|
  {
    if cats == [] then Ok(books)
    else
      match CategoryRecords(site, cats[0])
      case Err(f) => Err(f)
      case Ok(rs) => Run(books[cats[0].name := rs], cats[1..], site)
  }

  function Names(cats: seq<Category>): set<string> {
    set c | c in cats :: c.name
  }

  predicate DistinctNames(cats: seq<Category>) {
    forall i, j :: 0 <= i < j < |cats| ==> cats[i].name != cats[j].name
  }

  /** After a successful run, every category (names being distinct) maps to
      exactly its own records, and every other key is left as it was. */
  lemma {:induction false} RunStoresEachCategory(books: map<string, seq<BookRecord>>, cats: seq<Category>, site: Site)
    requires DistinctNames(cats) && Run(books, cats, site).Ok?
    ensures var m := Run(books, cats, site).value;
      && m.Keys == books.Keys + Names(cats)
      && (forall k :: k in books && k !in Names(cats) ==> m[k] == books[k])
      && (forall i :: 0 <= i < |cats| ==> CategoryRecords(site, cats[i]) == Ok(m[cats[i].name]))
    decreases |cats|
  {
    if cats != [] {
      var rs := CategoryRecords(site, cats[0]).value;
      var rest := cats[1..];
      assert DistinctNames(rest) by {
        forall i, j | 0 <= i < j < |rest| ensures rest[i].name != rest[j].name {
          assert rest[i] == cats[i + 1] && rest[j] == cats[j + 1];
        }
      }
      RunStoresEachCategory(books[cats[0].name := rs], rest, site);
      assert Names(cats) == {cats[0].name} + Names(rest) by {
        assert forall c :: c in cats <==> c == cats[0] || c in rest;
      }
      assert cats[0].name !in Names(rest) by {
        forall c | c in rest ensures c.name != cats[0].name {
          var j :| 0 <= j < |rest| && rest[j] == c;
          assert cats[j + 1] == c;
        }
      }
      var m := Run(books, cats, site).value;
      forall i | 0 <= i < |cats| ensures CategoryRecords(site, cats[i]) == Ok(m[cats[i].name]) {
        if i > 0 {
          assert cats[i] == rest[i - 1];
        }
      }
    }
  }

  // -----------------------------------------------------------------------
  // Exports
  // -----------------------------------------------------------------------

  /** A CSV file `export_csv` writes: its path, header row and data rows. */
  datatype CsvExport = CsvExport(path: string, header: seq<string>, rows: seq<seq<string>>)

  /** The row `csv.DictWriter` writes for a record, in header order. */
  function Row(b: BookRecord): seq<string> {
    [b.productPageUrl, b.universalProductCode, b.title, b.priceIncludingTax, b.priceExcludingTax,
     b.numberAvailable, b.productDescription, b.category, b.reviewRating, b.imageUrl]
  }

  function RowsOf(records: seq<BookRecord>): seq<seq<string>> {
    seq(|records|, i requires 0 <= i < |records| => Row(records[i]))
  }

  /** The rows of several categories, category after category. */
  function RowsOfCategories(books: map<string, seq<BookRecord>>, cats: seq<Category>): seq<seq<string>>
    requires forall c :: c in cats ==> c.name in books
    decreases |cats|
  {
    if cats == [] then []
    else RowsOfCategories(books, cats[..|cats| - 1]) + RowsOf(books[cats[|cats| - 1].name])
  }

  /** `os.path.join(img_category_dir, img_name)` with `img_name` the UPC
      followed by ".jpg". */
  function CoverPath(category: string, b: BookRecord): (p: string)
    ensures EndsWith(p, ".jpg")
  {
    var name := b.universalProductCode + ".jpg";
    assert name[|name| - 4..] == ".jpg";
    Naming.PathJoin(CoversDir + category + "/", name)
  }

  /** A UPC that does not begin with "/" names its cover inside the
      category's directory below the covers directory. */
  lemma CoverPathInCategory(category: string, b: BookRecord)
    requires b.universalProductCode == [] || b.universalProductCode[0] != '/'
    ensures CoverPath(category, b) == CoversDir + category + "/" + b.universalProductCode + ".jpg"
    ensures StartsWith(CoverPath(category, b), CoversDir + category + "/")
  {
    var dir, name := CoversDir + category + "/", b.universalProductCode + ".jpg";
    assert name[0] != '/';
    assert (dir + name)[..|dir|] == dir;
  }

  /** The image files `download_images` writes, category after category:
      one per exported row. */
  function CoverPathsOf(books: map<string, seq<BookRecord>>, cats: seq<Category>): (paths: seq<string>)
    requires forall c :: c in cats ==> c.name in books
    ensures |paths| == |RowsOfCategories(books, cats)|
    ensures forall k :: 0 <= k < |paths| ==> EndsWith(paths[k], ".jpg")
    decreases |cats|
  {
    if cats == [] then []
    else
      var name := cats[|cats| - 1].name;
      var rs := books[name];
      var own := seq(|rs|, j requires 0 <= j < |rs| => CoverPath(name, rs[j]));
      CoverPathsOf(books, cats[..|cats| - 1]) + own
  }

  /** The file `export_csv` writes for one category. */
  function CategoryCsvPath(name: string): (path: string)
    ensures StartsWith(path, "./" + CsvDir) && EndsWith(path, ".csv")
  {
    var f := Naming.CsvFilename(name);
    var path := "./" + CsvDir + f;
    assert path[..|"./" + CsvDir|] == "./" + CsvDir;
    assert path[|path| - 4..] == f[|f| - 4..];
    path
  }

  /** The single file `export_csv` writes when asked for one file. */
  function OneFilePath(): (path: string)
    ensures StartsWith(path, "./" + CsvDir) && EndsWith(path, ".csv")
  {
    var path := "./" + CsvDir + "books.csv";
    assert path[..|"./" + CsvDir|] == "./" + CsvDir;
    assert path[|path| - 4..] == ".csv";
    path
  }

  // -----------------------------------------------------------------------
  // The scraper object
  // -----------------------------------------------------------------------

  class BookScraper {
    /** The status code of the root page fetched by the constructor. */
    const rootStatus: int
    var categories: seq<Category>
    var books: map<string, seq<BookRecord>>

    /** `__init__`, given the root response status and the categories that
        `SetupCategories` discovered from it. */
    constructor (rootStatus: int, categories: seq<Category>)
      ensures this.rootStatus == rootStatus && this.categories == categories
      ensures books == map[]
    {
      this.rootStatus := rootStatus;
      this.categories := categories;
      books := map[];
    }

    /** `book_data`: appends the record of one book page to its category's
        list and changes nothing else. */
    method BookData(category: string, url: string, site: Site) returns (outcome: Outcome)
      modifies this`books
      ensures var e := ExtractRecord(category, url, site.detail(url));
        && (e.Err? ==> outcome == Fail(e.failure) && books == old(books))
        && (e.Ok? && category !in old(books) ==> outcome == Fail(KeyError(category)) && books == old(books))
        && (e.Ok? && category in old(books) ==>
              outcome == Pass && books == old(books)[category := old(books)[category] + [e.value]])
    {
      var e := ExtractRecord(category, url, site.detail(url));
      if e.Err? {
        return Fail(e.failure);
      }
      if category !in books {
        return Fail(KeyError(category));
      }
      books := books[category := books[category] + [e.value]];
      return Pass;
    }

    /** The inner loop of `get_book_urls`: `book_data` for every book link of
        a category, in order, stopping at the first failure. */
    method AddRecords(name: string, bookUrls: seq<string>, site: Site) returns (outcome: Outcome)
      requires name in books
      modifies this`books
      ensures outcome == OutcomeOf(Records(site, name, bookUrls))
      ensures outcome.Pass? ==> books == old(books)[name := old(books)[name] + Records(site, name, bookUrls).value]
    {
      var j := 0;
      ghost var done: seq<BookRecord> := [];
      assert bookUrls[..0] == [];
      assert old(books)[name] + [] == old(books)[name];
      assert old(books)[name := old(books)[name]] == books;
      while j < |bookUrls|
        invariant 0 <= j <= |bookUrls|
        invariant Records(site, name, bookUrls[..j]) == Ok(done)
        invariant books == old(books)[name := old(books)[name] + done]
      {
        RecordsSnoc(site, name, bookUrls, j);
        outcome := BookData(name, bookUrls[j], site);
        if outcome.Fail? {
          return;
        }
        ghost var e := ExtractRecord(name, bookUrls[j], site.detail(bookUrls[j])).value;
        assert old(books)[name] + done + [e] == old(books)[name] + (done + [e]);
        UpdateTwice(old(books), name, old(books)[name] + done, old(books)[name] + (done + [e]));
        done := done + [e];
        j := j + 1;
      }
      assert bookUrls[..j] == bookUrls;
      return Pass;
    }

    /** One pass of the loop in `get_book_urls`: resets the category's list,
        reads the page count, collects the book links of every listing page
        and appends one record per link. */
    method ScrapeCategory(category: Category, site: Site) returns (outcome: Outcome)
      modifies this`books
      ensures outcome == OutcomeOf(CategoryRecords(site, category))
      ensures outcome.Pass? ==> books == old(books)[category.name := CategoryRecords(site, category).value]
    {
      books := books[category.name := []];
      var response := site.listing(category.url);
      if response.status != 200 {
        assert CategoryRecords(site, category) == Err(ConnectionError(response.status));
        return Fail(ConnectionError(response.status));
      }
      var pageTotal := PageTotal(response.resultCount, response.pageIndicator);
      if pageTotal.Err? {
        assert CategoryRecords(site, category) == Err(pageTotal.failure);
        return Fail(pageTotal.failure);
      }
      var pages, bookUrls := CollectBookUrls(site, category.url, pageTotal.value);
      assert CategoryRecords(site, category) == Records(site, category.name, bookUrls);
      ghost var reset := books;
      assert reset[category.name] == [];
      outcome := AddRecords(category.name, bookUrls, site);
      if outcome.Pass? {
        ghost var recs := Records(site, category.name, bookUrls).value;
        assert [] + recs == recs;
        assert books == reset[category.name := recs];
        UpdateTwice(old(books), category.name, [], recs);
      }
    }

    /** `get_book_urls`: scrapes every category in order; the first failure
        ends the run. */
    method GetBookUrls(site: Site) returns (outcome: Outcome)
      modifies this`books
      ensures outcome == OutcomeOf(Run(old(books), categories, site))
      ensures outcome.Pass? ==> books == Run(old(books), categories, site).value
    {
      var i := 0;
      while i < |categories|
        invariant 0 <= i <= |categories|
        invariant Run(old(books), categories, site) == Run(books, categories[i..], site)
      {
        assert categories[i..][0] == categories[i] && categories[i..][1..] == categories[i + 1..];
        outcome := ScrapeCategory(categories[i], site);
        if outcome.Fail? {
          return;
        }
        i := i + 1;
      }
      assert categories[i..] == [];
      return Pass;
    }

    /** `start_scraper`: checks the root response, applies the optional
        category filter (rewriting the selectors in place, ending the run when
        nothing is kept), then collects the books. The exports it triggers
        afterwards are `CsvExports` and `CoverPaths`. */
    method StartScraper(selectors: array?<string>, site: Site) returns (outcome: Outcome)
      modifies this`categories, this`books, selectors
      ensures rootStatus != 200 ==>
        outcome == Fail(ConnectionError(rootStatus)) && categories == old(categories) && books == old(books)
        && (selectors != null ==> selectors[..] == old(selectors[..]))
      ensures rootStatus == 200 && selectors != null ==>
        && (forall i :: 0 <= i < selectors.Length ==> selectors[i] == DropLastSegment(old(selectors[i])))
        && categories == KeepSelected(old(categories), selectors[..])
      ensures rootStatus == 200 && selectors == null ==> categories == old(categories)
      ensures rootStatus == 200 && selectors != null && categories == [] ==>
        outcome == Fail(InvalidCategories) && books == old(books)
      ensures rootStatus == 200 && (selectors == null || categories != []) ==>
        && outcome == OutcomeOf(Run(old(books), categories, site))
        && (outcome.Pass? ==> books == Run(old(books), categories, site).value)
    {
      if rootStatus != 200 {
        return Fail(ConnectionError(rootStatus));
      }
      if selectors != null {
        StripSelectors(selectors);
        categories := KeepSelected(categories, selectors[..]);
        if categories == [] {
          return Fail(InvalidCategories);
        }
      }
      outcome := GetBookUrls(site);
    }

    /** `export_csv`: one file per category named after it, or a single
        "books.csv" holding every category's rows in category order. */
    function CsvExports(oneFile: bool): (files: seq<CsvExport>)
      reads this
      requires forall c :: c in categories ==> c.name in books
      ensures |files| == if oneFile then 1 else |categories|
      ensures forall f :: f in files ==> f.header == Schema.Header && EndsWith(f.path, ".csv")
      ensures oneFile ==> files[0].path == OneFilePath() && files[0].rows == RowsOfCategories(books, categories)
      ensures !oneFile ==> forall i :: 0 <= i < |files| ==>
        files[i].path == CategoryCsvPath(categories[i].name) &&
        files[i].rows == RowsOf(books[categories[i].name])
    {
      var cats, bs := categories, books;
      if oneFile then
        [CsvExport(OneFilePath(), Schema.Header, RowsOfCategories(bs, cats))]
      else
        seq(|cats|, i requires 0 <= i < |cats| =>
          CsvExport(CategoryCsvPath(cats[i].name), Schema.Header, RowsOf(bs[cats[i].name])))
    }

    /** `download_images`: one cover file per record, "<upc>.jpg" in a
        directory named after the category. */
    function CoverPaths(): (paths: seq<string>)
      reads this
      requires forall c :: c in categories ==> c.name in books
      ensures |paths| == |RowsOfCategories(books, categories)|
      ensures forall k :: 0 <= k < |paths| ==> EndsWith(paths[k], ".jpg")
    {
      CoverPathsOf(books, categories)
    }
  }

  /** The single combined file holds exactly the rows of the per-category
      files, one file after the other. */
  lemma {:induction false} OneFileConcatenates(books: map<string, seq<BookRecord>>, cats: seq<Category>)
    requires forall c :: c in cats ==> c.name in books
    ensures |RowsOfCategories(books, cats)| == SumRows(books, cats)
    ensures forall i :: 0 <= i < |cats| ==>
      RowsOfCategories(books, cats[..i + 1]) == RowsOfCategories(books, cats[..i]) + RowsOf(books[cats[i].name])
    decreases |cats|
  {
    if cats != [] {
      var init := cats[..|cats| - 1];
      OneFileConcatenates(books, init);
      forall i | 0 <= i < |cats|
        ensures RowsOfCategories(books, cats[..i + 1]) == RowsOfCategories(books, cats[..i]) + RowsOf(books[cats[i].name])
      {
        assert cats[..i + 1][..i] == cats[..i];
      }
    }
  }

  /** The number of records of the given categories. */
  function SumRows(books: map<string, seq<BookRecord>>, cats: seq<Category>): nat
    requires forall c :: c in cats ==> c.name in books
    decreases |cats|
  {
    if cats == [] then 0 else SumRows(books, cats[..|cats| - 1]) + |books[cats[|cats| - 1].name]|
  }
}
