/** scraper_books.toscrape/getBookInfo.py: an early script that writes one
    space-delimited CSV file per category and a cover image per book, driven
    by the category lists of categoriesAll.py. */
module GetBookInfoScript {
  import opened Common
  import opened Text
  import opened Web
  import Pagination
  import Links
  import Naming
  import Schema
  import CategoryInfo

  /** `main_url` of categoriesAll.py. */
  const MainUrl := "http://books.toscrape.com/"
  const ExportsDir := "./exports/"
  const CoversDir := "exports/covers/"

  /** The text removed from the stripped page indicator; note the trailing space. */
  const IndicatorPrefix := "Page 1 of "

  /** The number of title characters an image file name keeps. */
  const TitleLimit := 150

  // -----------------------------------------------------------------------
  // Pure pieces
  // -----------------------------------------------------------------------

  /** `cat_name[i].replace(' ', '_') + ".csv"`; unlike the later versions the
      name is not lower-cased. */
  function CsvFilename(catName: string): (f: string)
    ensures ' ' !in f && EndsWith(f, ".csv")
    ensures |f| == |catName| + 4 && f[|catName|..] == ".csv"
    ensures forall i :: 0 <= i < |catName| ==> f[i] == (if catName[i] == ' ' then '_' else catName[i])
  {
    var stem := ReplaceAll(catName, " ", "_");
    ReplaceCharRemoves(catName, ' ', "_");
    ReplaceCharAt(catName, ' ', '_');
    var f := stem + ".csv";
    assert f[|f| - 4..] == ".csv";
    f
  }

  function CsvPath(catName: string): string {
    ExportsDir + CsvFilename(catName)
  }

  /** The listing pages: the category URL alone for at most 20 results,
      otherwise the pages the while loop builds from the page count. */
  function PagesOf(catUrl: string, listing: ListingPage): Result<seq<string>> {
    match ParseInt(listing.resultCount)
    case Err(f) => Err(f)
    case Ok(results) =>
      if results > Pagination.PageSize then
        match ParseInt(ReplaceAll(Strip(listing.pageIndicator), IndicatorPrefix, ""))
        case Err(f) => Err(f)
        case Ok(n) => Ok(CategoryInfo.PageList(catUrl, n))
      else Ok([catUrl])
  }

  /** The `while k < page_total` loop: starting from the category URL, appends
      the URL with "index" rewritten to "page-k" for k = 2..page_total. */
  method BuildPages(catUrl: string, pageTotal: int) returns (pages: seq<string>)
    ensures pages == CategoryInfo.PageList(catUrl, pageTotal)
  {
    ghost var all := CategoryInfo.PageList(catUrl, pageTotal);
    pages := [catUrl];
    var k := 1;
    while k < pageTotal
      invariant 1 <= k <= |all|
      invariant pages == all[..k]
    {
      k := k + 1;
      pages := pages + [Pagination.IndexedPageUrl(catUrl, k)];
    }
    assert all[..k] == all;
  }

  /** `main_url + href.replace("../../../", "catalogue/")`. */
  function BookLink(href: string): string {
    MainUrl + ReplaceAll(href, Links.BookPrefix, "catalogue/")
  }

  /** For the site's relative links this is the same URL the later versions
      build with the root inside the replacement. */
  lemma BookLinkAgrees(rest: string)
    requires !Occurs(rest, Links.BookPrefix)
    ensures BookLink(Links.BookPrefix + rest) == Links.NormaliseBookLink(Links.BookPrefix + rest, MainUrl)
    ensures BookLink(Links.BookPrefix + rest) == MainUrl + "catalogue/" + rest
  {
    ReplaceFront(Links.BookPrefix, rest, "catalogue/");
    ReplaceUnchanged(rest, Links.BookPrefix, "catalogue/");
    Links.RelativeBookLink(rest, MainUrl);
  }

  /** The links of one listing page, in anchor order. */
  function PageBookLinks(site: Site, page: string): seq<string> {
    var hrefs := site.listing(page).bookHrefs;
    seq(|hrefs|, k requires 0 <= k < |hrefs| => BookLink(hrefs[k]))
  }

  /** The links of several listing pages, page after page. */
  function LinksUpTo(site: Site, pages: seq<string>): seq<string>
    decreases |pages|
  {
    if pages == [] then [] else LinksUpTo(site, pages[..|pages| - 1]) + PageBookLinks(site, pages[|pages| - 1])
  }

  /** `main_url + src.replace("../../", "")`. */
  function ImageUrl(src: string): string {
    MainUrl + ReplaceAll(src, Links.ImagePrefix, "")
  }

  /** For the site's relative image links this is the URL the later versions
      build by replacing the prefix with the root. */
  lemma ImageUrlAgrees(rest: string)
    requires !Occurs(rest, Links.ImagePrefix)
    ensures ImageUrl(Links.ImagePrefix + rest) == Links.NormaliseImageLink(Links.ImagePrefix + rest, MainUrl)
  {
    ReplaceFront(Links.ImagePrefix, rest, "");
    ReplaceUnchanged(rest, Links.ImagePrefix, "");
    assert "" + rest == rest;
    Links.RelativeImageLink(rest, MainUrl);
  }

  /** Replaces each of `cs`, in turn, by "_". */
  function ReplaceEach(s: string, cs: seq<char>): string
    decreases |cs|
  {
    if cs == [] then s else ReplaceEach(ReplaceAll(s, [cs[0]], "_"), cs[1..])
  }

  /** A character that is not replaced survives. */
  lemma {:induction false} ReplaceEachKeeps(s: string, cs: seq<char>, x: char)
    requires x in s && x !in cs
    ensures x in ReplaceEach(s, cs)
    decreases |cs|
  {
    if cs != [] {
      ReplaceKeeps(s, [cs[0]], "_", x);
      ReplaceEachKeeps(ReplaceAll(s, [cs[0]], "_"), cs[1..], x);
    }
  }

  /** A character absent from the input, other than "_", stays absent. */
  lemma {:induction false} ReplaceEachAbsent(s: string, cs: seq<char>, x: char)
    requires x !in s && x != '_'
    ensures x !in ReplaceEach(s, cs)
    decreases |cs|
  {
    if cs != [] {
      ReplaceChars(s, [cs[0]], "_");
      ReplaceEachAbsent(ReplaceAll(s, [cs[0]], "_"), cs[1..], x);
    }
  }

  /** No replaced character is left. */
  lemma {:induction false} ReplaceEachRemoves(s: string, cs: seq<char>)
    requires '_' !in cs
    ensures forall c :: c in cs ==> c !in ReplaceEach(s, cs)
    decreases |cs|
  {
    if cs != [] {
      var s' := ReplaceAll(s, [cs[0]], "_");
      ReplaceCharRemoves(s, cs[0], "_");
      ReplaceEachAbsent(s', cs[1..], cs[0]);
      ReplaceEachRemoves(s', cs[1..]);
    }
  }

  /** Each character of `cs` becomes "_", position by position. */
  lemma {:induction false} ReplaceEachAt(s: string, cs: seq<char>)
    requires '_' !in cs
    ensures |ReplaceEach(s, cs)| == |s|
    ensures forall i :: 0 <= i < |s| ==> ReplaceEach(s, cs)[i] == (if s[i] in cs then '_' else s[i])
    decreases |cs|
  {
    if cs != [] {
      var s' := ReplaceAll(s, [cs[0]], "_");
      ReplaceCharAt(s, cs[0], '_');
      ReplaceEachAt(s', cs[1..]);
      assert cs == [cs[0]] + cs[1..];
    }
  }

  /** The characters the file name is meant to be rid of: ':', '/', the
      backslash, '-', '*', '?', ',', '"' and the space. */
  const Unsafe: seq<char> := [':', '/', '\\', '-', '*', '?', ',', '"', ' ']

  /** The title part of the image file name as written: the third step
      replaces the six-character text "U+005C", not a backslash. */
  function TitleStemAsWritten(title: string): string {
    var t := Take(title, TitleLimit);
    ReplaceEach(ReplaceAll(ReplaceEach(t, [':', '/']), "U+005C", "_"), ['-', '*', '?', ',', '"', ' '])
  }

  /** A backslash in the title survives into the file name. */
  lemma BackslashSurvives(title: string)
    requires '\\' in Take(title, TitleLimit)
    ensures '\\' in TitleStemAsWritten(title)
  {
    var t := Take(title, TitleLimit);
    ReplaceEachKeeps(t, [':', '/'], '\\');
    ReplaceKeeps(ReplaceEach(t, [':', '/']), "U+005C", "_", '\\');
    ReplaceEachKeeps(ReplaceAll(ReplaceEach(t, [':', '/']), "U+005C", "_"), ['-', '*', '?', ',', '"', ' '], '\\');
  }

  /** The title part with every unsafe character replaced, the backslash
      included. */
  function TitleStem(title: string): (stem: string)
    ensures |stem| == |Take(title, TitleLimit)|
    ensures forall i :: 0 <= i < |stem| ==>
      stem[i] == (if Take(title, TitleLimit)[i] in Unsafe then '_' else Take(title, TitleLimit)[i])
    ensures forall c :: c in Unsafe ==> c !in stem
  {
    ReplaceEachAt(Take(title, TitleLimit), Unsafe);
    ReplaceEachRemoves(Take(title, TitleLimit), Unsafe);
    ReplaceEach(Take(title, TitleLimit), Unsafe)
  }

  /** Both forms agree on titles without a backslash or the text "U+005C". */
  lemma TitleStemsAgree(title: string)
    requires '\\' !in Take(title, TitleLimit) && !Occurs(Take(title, TitleLimit), "U+005C")
    ensures TitleStemAsWritten(title) == TitleStem(title)
  {
    var t := Take(title, TitleLimit);
    var u := ReplaceEach(t, [':', '/']);
    ReplaceEachAt(t, [':', '/']);
    assert '_' !in "U+005C";
    OccursPointwise(t, u, "U+005C");
    ReplaceUnchanged(u, "U+005C", "_");
    ReplaceEachAbsent(t, [':', '/'], '\\');
    ForeignCharNoOccurrence(u, "\\", '\\');
    ReplaceUnchanged(u, "\\", "_");
    assert TitleStem(title) == ReplaceEach(ReplaceAll(u, "\\", "_"), ['-', '*', '?', ',', '"', ' ']);
  }

  /** `cat_name[i].lower().replace(' ', '_') + "_" + <title part> + '.jpg'`. */
  function ImageFilename(catName: string, title: string): (f: string)
    ensures StartsWith(f, ReplaceAll(Lower(catName), " ", "_") + "_")
    ensures EndsWith(f, TitleStem(title) + ".jpg") && EndsWith(f, ".jpg")
    ensures |f| == |catName| + 1 + |Take(title, TitleLimit)| + 4
  {
    var front := ReplaceAll(Lower(catName), " ", "_") + "_";
    var back := TitleStem(title) + ".jpg";
    ReplaceCharLength(Lower(catName), ' ', '_');
    assert front + back == front + TitleStem(title) + ".jpg";
    assert (front + back)[..|front|] == front;
    assert (front + back)[|front|..] == back;
    assert back[|back| - 4..] == ".jpg";
    front + back
  }

  /** What `getProductInfo` derives from one book page. */
  datatype Product = Product(row: seq<string>, image: string)

  /** `os.path.join(img_directory, img_filename)`. */
  function ImagePath(catName: string, title: string): (p: string)
    ensures EndsWith(p, ".jpg")
  {
    Naming.PathJoin(CoversDir, ImageFilename(catName, title))
  }

  /** A category name that does not begin with "/" puts the cover directly
      in the covers directory. */
  lemma ImagePathInCovers(catName: string, title: string)
    requires catName == [] || catName[0] != '/'
    ensures ImagePath(catName, title) == CoversDir + ImageFilename(catName, title)
    ensures StartsWith(ImagePath(catName, title), CoversDir)
  {
    var low := Lower(catName);
    var stem := ReplaceAll(low, " ", "_");
    var f := ImageFilename(catName, title);
    assert f[0] == (stem + "_")[0] by {
      assert f[..|stem + "_"|] == stem + "_";
    }
    if low != [] {
      ReplaceCharAt(low, ' ', '_');
      assert low[0] == LowerChar(catName[0]);
    }
    assert (CoversDir + f)[..|CoversDir|] == CoversDir;
  }

  /** A book page with seven cells and a relative image link yields its
      code, title, prices, availability, raw description, category, review
      count and absolute image link, and a cover named after its category
      and title inside the covers directory. */
  lemma ProductOfDetailPage(url: string, catName: string, page: DetailPage, rest: string)
    requires |page.cells| >= 7
    requires page.imageSrc == Links.ImagePrefix + rest && !Occurs(rest, Links.ImagePrefix)
    requires catName == [] || catName[0] != '/'
    ensures var p := ProductOf(url, catName, page).value;
      && p.row[1] == page.cells[0] && p.row[2] == page.heading
      && p.row[3] == page.cells[3] && p.row[4] == page.cells[2] && p.row[5] == page.cells[5]
      && p.row[6] == page.description && p.row[7] == catName
      && p.row[8] == page.cells[6] + " review(s)"
      && p.row[9] == MainUrl + rest
      && p.image == CoversDir + ImageFilename(catName, page.heading)
  {
    var p := ProductOf(url, catName, page).value;
    assert p.row[9] == MainUrl + rest by {
      ImageUrlAgrees(rest);
      Links.RelativeImageLink(rest, MainUrl);
    }
    assert p.image == CoversDir + ImageFilename(catName, page.heading) by {
      ImagePathInCovers(catName, page.heading);
    }
  }

  /** The row and cover path of one book; the review field reads the seventh
      table cell, so fewer than seven cells raise an IndexError. */
  function ProductOf(url: string, catName: string, page: DetailPage): (r: Result<Product>)
    ensures r.Err? <==> |page.cells| < 7
    ensures r.Err? ==> r.failure == IndexError
    ensures r.Ok? ==> |r.value.row| == |Schema.Header| && r.value.row[0] == url && r.value.row[7] == catName
    ensures r.Ok? ==> EndsWith(r.value.image, ".jpg")
  {
    if |page.cells| < 7 then Err(IndexError)
    else
      Ok(Product(
        [url, page.cells[0], page.heading, page.cells[3], page.cells[2], page.cells[5],
         page.description, catName, page.cells[6] + " review(s)", ImageUrl(page.imageSrc)],
        ImagePath(catName, page.heading)))
  }

  function ProductsOf(site: Site, catName: string, urls: seq<string>): Result<seq<Product>> {
    MapAll(u => ProductOf(u, catName, site.detail(u)), urls)
  }

  /** Processing one more book extends the run, or stops it with that book's failure. */
  lemma ProductsSnoc(site: Site, catName: string, urls: seq<string>, m: nat)
    requires m < |urls| && ProductsOf(site, catName, urls[..m]).Ok?
    ensures var p := ProductOf(urls[m], catName, site.detail(urls[m]));
      && (p.Err? ==> ProductsOf(site, catName, urls) == Err(p.failure))
      && (p.Ok? ==> ProductsOf(site, catName, urls[..m + 1]) == Ok(ProductsOf(site, catName, urls[..m]).value + [p.value]))
  {
    var f := u => ProductOf(u, catName, site.detail(u));
    MapAllSnoc(f, urls, m);
    if f(urls[m]).Err? {
      MapAllFailPrefix(f, urls, m + 1);
    }
  }

  /** The CSV rows of a run of products, in order. */
  function RowsOf(ps: seq<Product>): seq<seq<string>>
    decreases |ps|
  {
    if ps == [] then [] else RowsOf(ps[..|ps| - 1]) + [ps[|ps| - 1].row]
  }

  /** The cover image paths of a run of products, in order. */
  function ImagesOf(ps: seq<Product>): seq<string>
    decreases |ps|
  {
    if ps == [] then [] else ImagesOf(ps[..|ps| - 1]) + [ps[|ps| - 1].image]
  }

  lemma WrittenSnoc(done: seq<Product>, p: Product)
    ensures RowsOf(done + [p]) == RowsOf(done) + [p.row]
    ensures ImagesOf(done + [p]) == ImagesOf(done) + [p.image]
  {
    assert (done + [p])[..|done|] == done;
  }

  /** What the files hold after one more product is written behind a run. */
  lemma WrittenAfter(rows: seq<seq<string>>, images: seq<string>, done: seq<Product>, p: Product)
    ensures rows + RowsOf(done) + [p.row] == rows + RowsOf(done + [p])
    ensures images + ImagesOf(done) + [p.image] == images + ImagesOf(done + [p])
  {
    WrittenSnoc(done, p);
  }

  /** What the files hold after a further run is written behind a run. */
  lemma WrittenAfterAll(rows: seq<seq<string>>, images: seq<string>, done: seq<Product>, ps: seq<Product>)
    ensures rows + RowsOf(done) + RowsOf(ps) == rows + RowsOf(done + ps)
    ensures images + ImagesOf(done) + ImagesOf(ps) == images + ImagesOf(done + ps)
  {
    WrittenConcat(done, ps);
  }

  lemma {:induction false} RowsConcat(a: seq<Product>, b: seq<Product>)
    ensures RowsOf(a + b) == RowsOf(a) + RowsOf(b)
    decreases |b|
  {
    if b == [] {
      assert a + b == a;
    } else {
      var init, last := b[..|b| - 1], b[|b| - 1];
      RowsConcat(a, init);
      assert a + b == (a + init) + [last];
      assert (a + b)[..|a + b| - 1] == a + init;
    }
  }

  lemma {:induction false} ImagesConcat(a: seq<Product>, b: seq<Product>)
    ensures ImagesOf(a + b) == ImagesOf(a) + ImagesOf(b)
    decreases |b|
  {
    if b == [] {
      assert a + b == a;
    } else {
      var init, last := b[..|b| - 1], b[|b| - 1];
      ImagesConcat(a, init);
      assert a + b == (a + init) + [last];
      assert (a + b)[..|a + b| - 1] == a + init;
    }
  }

  /** Writing two runs one after the other writes their concatenation. */
  lemma WrittenConcat(a: seq<Product>, b: seq<Product>)
    ensures RowsOf(a + b) == RowsOf(a) + RowsOf(b)
    ensures ImagesOf(a + b) == ImagesOf(a) + ImagesOf(b)
  {
    RowsConcat(a, b);
    ImagesConcat(a, b);
  }

  /** The books `getBookUrls` as written processes, in order: after each
      listing page the whole accumulated URL list is processed again. */
  function AsWrittenRun(site: Site, catName: string, base: seq<string>, pages: seq<string>): Result<seq<Product>>
    decreases |pages|
  {
    if pages == [] then Ok([])
    else
      match AsWrittenRun(site, catName, base, pages[..|pages| - 1])
      case Err(f) => Err(f)
      case Ok(done) =>
        match ProductsOf(site, catName, base + LinksUpTo(site, pages))
        case Err(f) => Err(f)
        case Ok(ps) => Ok(done + ps)
  }

  /** Two listing pages write the first page's books twice. */
  lemma FirstPageWrittenTwice(site: Site, catName: string, p1: string, p2: string)
    requires AsWrittenRun(site, catName, [], [p1, p2]).Ok?
    ensures |AsWrittenRun(site, catName, [], [p1, p2]).value|
      == 2 * |PageBookLinks(site, p1)| + |PageBookLinks(site, p2)|
    ensures |AsWrittenRun(site, catName, [], [p1, p2]).value| > |LinksUpTo(site, [p1, p2])| <==> |PageBookLinks(site, p1)| > 0
  {
    var a := PageBookLinks(site, p1);
    var b := PageBookLinks(site, p2);
    assert [p1, p2][..1] == [p1] && [p1][..0] == [];
    assert LinksUpTo(site, [p1]) == a by {
      assert LinksUpTo(site, [p1]) == LinksUpTo(site, []) + a;
    }
    assert LinksUpTo(site, [p1, p2]) == a + b;
    assert [] + a == a && [] + (a + b) == a + b;
    var ps1 := ProductsOf(site, catName, a);
    var ps2 := ProductsOf(site, catName, a + b);
    assert AsWrittenRun(site, catName, [], [p1]) == Ok([] + ps1.value);
    assert AsWrittenRun(site, catName, [], [p1, p2]).value == [] + ps1.value + ps2.value;
    MapAllOk(u => ProductOf(u, catName, site.detail(u)), a);
    MapAllOk(u => ProductOf(u, catName, site.detail(u)), a + b);
  }

  // -----------------------------------------------------------------------
  // The files written
  // -----------------------------------------------------------------------

  class Exporter {
    /** The caller-owned `url_list` that `getBookUrls` appends to. */
    var urlList: seq<string>
    /** The rows of each CSV file, by path. */
    var csvFiles: map<string, seq<seq<string>>>
    /** The cover image files written, in order. */
    var images: seq<string>

    /** Every CSV file starts with the header row, and every image has a
        ".jpg" name. */
    predicate Valid()
      reads this
    {
      && (forall p :: p in csvFiles ==> |csvFiles[p]| > 0 && csvFiles[p][0] == Schema.Header)
      && (forall k :: 0 <= k < |images| ==> EndsWith(images[k], ".jpg"))
    }

    constructor ()
      ensures Valid() && urlList == [] && csvFiles == map[] && images == []
    {
      urlList := [];
      csvFiles := map[];
      images := [];
    }

    /** The body of the `getProductInfo` loop for one book: reads its page,
        then `downloadImages` and `csvFileAdd`. A page with too few cells
        stops the run before anything is written. */
    method ExportProduct(site: Site, url: string, catName: string, csv: string) returns (r: Result<Product>)
      requires Valid() && csv in csvFiles
      modifies this`csvFiles, this`images
      ensures Valid() && csvFiles.Keys == old(csvFiles).Keys
      ensures r == ProductOf(url, catName, site.detail(url))
      ensures r.Err? ==> csvFiles == old(csvFiles) && images == old(images)
      ensures r.Ok? ==> images == old(images) + [r.value.image]
      ensures r.Ok? ==> csvFiles == old(csvFiles)[csv := old(csvFiles)[csv] + [r.value.row]]
    {
      r := ProductOf(url, catName, site.detail(url));
      if r.Ok? {
        images := images + [r.value.image];
        assert (csvFiles[csv] + [r.value.row])[0] == csvFiles[csv][0];
        csvFiles := csvFiles[csv := csvFiles[csv] + [r.value.row]];
      }
    }

    /** `getProductInfo`: for each URL in order, writes the cover image and
        then appends the row to the category's CSV file. */
    method GetProductInfo(site: Site, urls: seq<string>, catName: string, csv: string) returns (outcome: Outcome)
      requires Valid() && csv in csvFiles
      modifies this`csvFiles, this`images
      ensures Valid() && csvFiles.Keys == old(csvFiles).Keys
      ensures outcome == OutcomeOf(ProductsOf(site, catName, urls))
      ensures outcome.Pass? ==>
        && csvFiles == old(csvFiles)[csv := old(csvFiles)[csv] + RowsOf(ProductsOf(site, catName, urls).value)]
        && images == old(images) + ImagesOf(ProductsOf(site, catName, urls).value)
    {
      var m := 0;
      ghost var done: seq<Product> := [];
      assert urls[..0] == [];
      assert RowsOf(done) == [] && ImagesOf(done) == [];
      assert old(csvFiles)[csv] + [] == old(csvFiles)[csv];
      assert old(csvFiles)[csv := old(csvFiles)[csv]] == csvFiles;
      while m < |urls|
        invariant 0 <= m <= |urls|
        invariant Valid() && csvFiles.Keys == old(csvFiles).Keys
        invariant ProductsOf(site, catName, urls[..m]) == Ok(done)
        invariant csvFiles == old(csvFiles)[csv := old(csvFiles)[csv] + RowsOf(done)]
        invariant images == old(images) + ImagesOf(done)
      {
        ghost var before := csvFiles;
        var product := ExportProduct(site, urls[m], catName, csv);
        ProductsSnoc(site, catName, urls, m);
        if product.Err? {
          return Fail(product.failure);
        }
        WrittenAfter(old(csvFiles)[csv], old(images), done, product.value);
        UpdateTwice(old(csvFiles), csv, old(csvFiles)[csv] + RowsOf(done), old(csvFiles)[csv] + RowsOf(done + [product.value]));
        done := done + [product.value];
        m := m + 1;
      }
      assert urls[..m] == urls;
      return Pass;
    }

    /** The inner loop of `getBookUrls`: appends one listing page's book
        links to `url_list`, in anchor order. */
    method AppendPageLinks(site: Site, page: string)
      modifies this`urlList
      ensures urlList == old(urlList) + PageBookLinks(site, page)
    {
      var hrefs := site.listing(page).bookHrefs;
      var h := 0;
      while h < |hrefs|
        invariant 0 <= h <= |hrefs|
        invariant urlList == old(urlList) + PageBookLinks(site, page)[..h]
      {
        urlList := urlList + [BookLink(hrefs[h])];
        h := h + 1;
      }
      assert PageBookLinks(site, page)[..h] == PageBookLinks(site, page);
    }

    /** `getBookUrls` as written: for each listing page, appends its book
        links to `url_list`, then runs `getProductInfo` over the whole list. */
    method GetBookUrlsAsWritten(site: Site, pages: seq<string>, catName: string, csv: string) returns (outcome: Outcome)
      requires Valid() && csv in csvFiles
      modifies this`urlList, this`csvFiles, this`images
      ensures Valid() && csvFiles.Keys == old(csvFiles).Keys
      ensures outcome == OutcomeOf(AsWrittenRun(site, catName, old(urlList), pages))
      ensures outcome.Pass? ==>
        var run := AsWrittenRun(site, catName, old(urlList), pages).value;
        && urlList == old(urlList) + LinksUpTo(site, pages)
        && csvFiles == old(csvFiles)[csv := old(csvFiles)[csv] + RowsOf(run)]
        && images == old(images) + ImagesOf(run)
    {
      var n := 0;
      ghost var done: seq<Product> := [];
      assert pages[..0] == [];
      assert RowsOf([]) == [] && ImagesOf([]) == [];
      assert old(csvFiles)[csv] + [] == old(csvFiles)[csv];
      assert old(csvFiles)[csv := old(csvFiles)[csv]] == csvFiles;
      assert urlList + [] == urlList && images + [] == images;
      while n < |pages|
        invariant 0 <= n <= |pages|
        invariant Valid() && csvFiles.Keys == old(csvFiles).Keys
        invariant AsWrittenRun(site, catName, old(urlList), pages[..n]) == Ok(done)
        invariant urlList == old(urlList) + LinksUpTo(site, pages[..n])
        invariant csvFiles == old(csvFiles)[csv := old(csvFiles)[csv] + RowsOf(done)]
        invariant images == old(images) + ImagesOf(done)
      {
        LinksSnoc(site, old(urlList), pages, n);
        AsWrittenSnoc(site, catName, old(urlList), pages, n);
        AppendPageLinks(site, pages[n]);
        outcome := GetProductInfo(site, urlList, catName, csv);
        if outcome.Fail? {
          return;
        }
        ghost var ps := ProductsOf(site, catName, urlList).value;
        WrittenAfterAll(old(csvFiles)[csv], old(images), done, ps);
        UpdateTwice(old(csvFiles), csv, old(csvFiles)[csv] + RowsOf(done), old(csvFiles)[csv] + RowsOf(done + ps));
        done := done + ps;
        n := n + 1;
      }
      assert pages[..n] == pages;
      return Pass;
    }

    /** `getBookUrls` as intended: the book links of every listing page are
        collected first and each book is then processed exactly once. */
    method GetBookUrls(site: Site, pages: seq<string>, catName: string, csv: string) returns (outcome: Outcome)
      requires Valid() && csv in csvFiles
      modifies this`urlList, this`csvFiles, this`images
      ensures Valid() && csvFiles.Keys == old(csvFiles).Keys
      ensures urlList == old(urlList) + LinksUpTo(site, pages)
      ensures outcome == OutcomeOf(ProductsOf(site, catName, urlList))
      ensures outcome.Pass? ==>
        && csvFiles == old(csvFiles)[csv := old(csvFiles)[csv] + RowsOf(ProductsOf(site, catName, urlList).value)]
        && images == old(images) + ImagesOf(ProductsOf(site, catName, urlList).value)
    {
      var n := 0;
      assert pages[..0] == [];
      while n < |pages|
        invariant 0 <= n <= |pages|
        invariant urlList == old(urlList) + LinksUpTo(site, pages[..n])
        invariant csvFiles == old(csvFiles) && images == old(images)
      {
        assert pages[..n + 1][..n] == pages[..n];
        AppendPageLinks(site, pages[n]);
        n := n + 1;
      }
      assert pages[..n] == pages;
      outcome := GetProductInfo(site, urlList, catName, csv);
    }

    /** `getCatPagesUrls` for one category: a failed listing request does
        nothing; otherwise the pages are listed, `url_list` starts empty and
        each page re-exports every book collected so far. */
    method GetCatPagesUrls(site: Site, catName: string, catUrl: string, csv: string) returns (outcome: Outcome)
      requires Valid() && csv in csvFiles
      modifies this`urlList, this`csvFiles, this`images
      ensures Valid() && csvFiles.Keys == old(csvFiles).Keys
      ensures !ResponseOk(site.listing(catUrl).status) ==>
        outcome == Pass && csvFiles == old(csvFiles) && images == old(images)
      ensures ResponseOk(site.listing(catUrl).status) && PagesOf(catUrl, site.listing(catUrl)).Err? ==>
        outcome == Fail(PagesOf(catUrl, site.listing(catUrl)).failure)
      ensures ResponseOk(site.listing(catUrl).status) && PagesOf(catUrl, site.listing(catUrl)).Ok? ==>
        var pages := PagesOf(catUrl, site.listing(catUrl)).value;
        var run := AsWrittenRun(site, catName, [], pages);
        && outcome == OutcomeOf(run)
        && (outcome.Pass? ==>
              && urlList == LinksUpTo(site, pages)
              && csvFiles == old(csvFiles)[csv := old(csvFiles)[csv] + RowsOf(run.value)]
              && images == old(images) + ImagesOf(run.value))
    {
      var response := site.listing(catUrl);
      if !ResponseOk(response.status) {
        return Pass;
      }
      var results := ParseInt(response.resultCount);
      if results.Err? {
        return Fail(results.failure);
      }
      var pages := [catUrl];
      if results.value > Pagination.PageSize {
        var pageTotal := ParseInt(ReplaceAll(Strip(response.pageIndicator), IndicatorPrefix, ""));
        if pageTotal.Err? {
          return Fail(pageTotal.failure);
        }
        pages := BuildPages(catUrl, pageTotal.value);
      }
      assert pages == PagesOf(catUrl, response).value;
      urlList := [];
      outcome := GetBookUrlsAsWritten(site, pages, catName, csv);
      assert [] + LinksUpTo(site, pages) == LinksUpTo(site, pages);
    }

    /** `createCsvFile`: for each category of categoriesAll.py, creates its
        CSV file holding the header row, then exports the category. */
    method CreateCsvFiles(site: Site, catNames: seq<string>, catUrls: seq<string>) returns (outcome: Outcome)
      requires Valid() && |catNames| == |catUrls|
      modifies this`urlList, this`csvFiles, this`images
      ensures Valid()
      ensures outcome.Pass? ==> forall i :: 0 <= i < |catNames| ==> CsvPath(catNames[i]) in csvFiles
      ensures old(csvFiles).Keys <= csvFiles.Keys
    {
      var i := 0;
      while i < |catNames|
        invariant 0 <= i <= |catNames|
        invariant Valid()
        invariant forall j :: 0 <= j < i ==> CsvPath(catNames[j]) in csvFiles
        invariant old(csvFiles).Keys <= csvFiles.Keys
      {
        var csv := CsvPath(catNames[i]);
        csvFiles := csvFiles[csv := [Schema.Header]];
        outcome := GetCatPagesUrls(site, catNames[i], catUrls[i], csv);
        if outcome.Fail? {
          return;
        }
        i := i + 1;
      }
      return Pass;
    }
  }

  /** The links collected after one more listing page. */
  lemma LinksSnoc(site: Site, base: seq<string>, pages: seq<string>, n: nat)
    requires n < |pages|
    ensures LinksUpTo(site, pages[..n + 1]) == LinksUpTo(site, pages[..n]) + PageBookLinks(site, pages[n])
    ensures base + LinksUpTo(site, pages[..n + 1]) == base + LinksUpTo(site, pages[..n]) + PageBookLinks(site, pages[n])
  {
    assert pages[..n + 1][..n] == pages[..n];
  }

  /** One more listing page extends the as-written run by a pass over every
      link collected so far, or stops it with that pass's failure. */
  lemma AsWrittenSnoc(site: Site, catName: string, base: seq<string>, pages: seq<string>, n: nat)
    requires n < |pages| && AsWrittenRun(site, catName, base, pages[..n]).Ok?
    ensures var ps := ProductsOf(site, catName, base + LinksUpTo(site, pages[..n + 1]));
      && (ps.Err? ==> AsWrittenRun(site, catName, base, pages) == Err(ps.failure))
      && (ps.Ok? ==> AsWrittenRun(site, catName, base, pages[..n + 1]) == Ok(AsWrittenRun(site, catName, base, pages[..n]).value + ps.value))
  {
    assert pages[..n + 1][..n] == pages[..n];
    if ProductsOf(site, catName, base + LinksUpTo(site, pages[..n + 1])).Err? {
      AsWrittenFailPrefix(site, catName, base, pages, n + 1);
    }
  }

  /** Once the run over a prefix of the pages fails, the whole run fails the
      same way. */
  lemma {:induction false} AsWrittenFailPrefix(site: Site, catName: string, base: seq<string>, pages: seq<string>, j: nat)
    requires j <= |pages| && AsWrittenRun(site, catName, base, pages[..j]).Err?
    ensures AsWrittenRun(site, catName, base, pages) == AsWrittenRun(site, catName, base, pages[..j])
    decreases |pages| - j
  {
    if j == |pages| {
      assert pages[..j] == pages;
    } else {
      var init := pages[..|pages| - 1];
      assert init[..j] == pages[..j];
      AsWrittenFailPrefix(site, catName, base, init, j);
    }
  }
}
