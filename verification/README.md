# books.toscrape.com scraper — a Dafny model

The program scrapes the demo bookshop books.toscrape.com. For every
category it reads the listing pages, visits every book's detail page,
extracts ten fields (page URL, UPC, title, both prices, availability,
description, category, rating, cover image URL), writes them as CSV rows and
saves each cover image. The repository holds several successive versions of
this pipeline:

- `scraper.py`: the `BookScraper` class. It keeps a per-category record map and
  exports CSV files and covers from it.
- `category_info.py` with `book_info.py`: a split version.
- `books_to_scrape/book_info.py` with `books_to_scrape/export_data.py`: the
  packaged version. It writes ";"-delimited files and names covers after the
  UPC.
- `Books_toScrape.py`: the first single-file version.
- `scraper_books.toscrape/getBookInfo.py`: an early script driven by the
  category lists of `categoriesAll.py`.

Fetching and HTML parsing are outside the model. A parsed page is a value
(`Web.ListingPage`, `Web.DetailPage`): the response status plus the texts
and attributes the selectors pick out. The network is a `Web.Site`, a pair
of functions from URL to parsed page. Python exceptions and calls to
`exit()` become `Common.Failure` values, and the per-book loops of every
version are runs that stop at the first failure (`Common.MapAll`).

Shared string rules live in their own modules:

- `Text`: Python's `str.replace`, `strip`, `lower`, `rsplit`, the digit
  filters of `re.sub`, `int()` and `str()`.
- `Rating`: the star lookup.
- `Pagination`: the page count and the "index" to "page-k" rewrite.
- `Links`: link normalisation.
- `Fields`: availability and description cleaning.
- `Naming`: CSV and cover file names, and `os.path.join`.
- `Schema`: the CSV header.

Four files carry the same rating loop: `scraper.py:148-158`,
`Books_toScrape.py:169-173`, `book_info.py:44-55` and
`books_to_scrape/book_info.py:51-62`. All four are modelled by
`Rating.ReviewRating`.

`Books_toScrape.py` has its own copies of two functions, and the model
shares `category_info.py`'s version of each:

- `getCatName` (`Books_toScrape.py:79-83`) is `CategoryInfo.GetCatName`.
- `getBookUrls` (`Books_toScrape.py:121-130`) is `CategoryInfo.GetBookUrls`.

Each pair is character for character the same rule.

The mutable parts are modelled as state:

- `scraper.py`'s object is the class `Scraper.BookScraper`. Its `books` map
  is reset and appended to in place.
- The selector list rewritten in place is an `array`.
- The early script's caller-owned `url_list`, CSV files and images are the
  fields of `GetBookInfoScript.Exporter`.

The remaining versions are pure functions from a parsed page to a row.

Two behaviours worth noting (the docstring at scraper.py:154 promises an
int rating):

- An unknown rating token is not an error. The lookup yields `None`, and
  the row holds the text "None star(s)". See `BookInfo.BlankDescriptionKept`
  and `Rating.RatingText`.
- A book page that cannot be read ends the run. It is not skipped.

## Model

| member | source | states |
|---|---|---|
| `Text.DropLastSegment` | scraper.py:44 | `rsplit("/", 1)[0]`: a string without "/" is unchanged. Otherwise the result is the prefix before the last "/", and no "/" follows it |
| `Text.KeepDigits` | scraper.py:136 | The digits-only filter yields only digits and is never longer than its input |
| `Text.DeleteDigits` | category_info.py:27 | Deleting every digit run leaves no digit and introduces no character |
| `Text.ParseNatToString` | scraper.py:92 | `int()` reads back the decimal text of any natural number, whatever whitespace surrounds it |
| `Rating.Lookup` | scraper.py:156-158 | The loop started at position i finds a value iff the token occurs among the remaining marks. The value is that mark's 1-based position |
| `Rating.ReviewRating` | scraper.py:148-158 | A value is returned iff the token is one of "One".."Five". It then lies in 1..5 and names the token's position; any other token gives no value |
| `Rating.ReviewRatingInOrder` | scraper.py:156 | "One".."Five" map to exactly 1..5, in list order |
| `Rating.RatingTextInjective` | scraper.py:139-140 | Different ratings (1..5 or none) are written as different "<n> star(s)" texts |
| `Pagination.PageTotal` | scraper.py:92-96 | An unreadable book total fails with `int()`'s ValueError. A total of at most 20 gives one page |
| `Pagination.PageTotalFromIndicator` | scraper.py:93-94 | Above 20 books, an indicator "Page 1 of N" with any surrounding whitespace gives N pages |
| `Pagination.IndexedPageOfIndexUrl` | category_info.py:64 | A category URL ending in "index.html" becomes the URL ending in "page-k.html", the rest unchanged |
| `Links.RelativeBookLink` | scraper.py:105-107 | A "../../../" book link becomes root + "catalogue/" + the rest of the link |
| `Links.RelativeImageLink` | scraper.py:129 | A "../../" image link becomes root + the rest of the link |
| `Links.AbsoluteLinkUnchanged` | scraper.py:107 | A link without "../../../" is left as it is |
| `Links.LinksOfPagesConcat` | scraper.py:98-107 | Collecting the links of several pages keeps every link and their order: page after page, anchor after anchor |
| `Fields.CleanDescription` | scraper.py:125-127 | The stored description is never whitespace-only. It is "n/a" exactly when the marker-stripped text is non-empty whitespace, otherwise that text; an empty text stays empty |
| `Fields.MarkerStripped` | scraper.py:125 | A description cut by the site reads back as the text before " ...more" |
| `Fields.AvailabilityCount` | scraper.py:136 | A cell like "In stock (22 available)" keeps exactly the count's digits, and `int()` reads the count back |
| `Naming.CsvFilename` | scraper.py:191 | The CSV file name has no space and ends in ".csv" |
| `Naming.CsvFilenameRoundTrip` | category_info.py:53 | For a name without "_", the file name gives back the lower-cased name |
| `Naming.CsvFilenameInjective` | Books_toScrape.py:98 | Names without "_" share a CSV file only when they differ in letter case alone |
| `Naming.CleanTitle` | Books_toScrape.py:207 | The cleaned title holds only letters, digits and "_", and is no longer than its input |
| `Naming.CleanTitleConcat` | books_to_scrape/export_data.py:67 | Cleaning works character by character and keeps the order of the surviving characters |
| `Naming.CleanTitleChar` | books_to_scrape/export_data.py:67 | A letter or digit is kept, a space becomes "_", any other character is dropped |
| `Naming.CleanTitlePlain` | Books_toScrape.py:207 | A title of letters, digits and spaces keeps every character, spaces written as "_" |
| `Naming.PathJoin` | books_to_scrape/export_data.py:73 | `os.path.join`: an absolute second part replaces the first. Otherwise the path starts with the first part and ends with the second |
| `Scraper.SetupCategories` | scraper.py:62-79 | A non-200 root page fails; a missing label raises an IndexError. Otherwise there is one pair per anchor, the i-th label stripped and lower-cased with root + href minus its last segment |
| `Scraper.StripSelectors` | scraper.py:42-44 | Every selector, in place, loses its last "/" and what follows it |
| `Scraper.KeepSelected` | scraper.py:45 | Exactly the categories whose name or URL is among the selectors are kept |
| `Scraper.KeepSelectedConcat` | scraper.py:45 | The filter keeps the categories' original order |
| `Scraper.ListingUrlsDistinct` | scraper.py:99-103 | With several pages, the listing URLs "/page-k.html" are pairwise different |
| `Scraper.CollectBookUrls` | scraper.py:98-107 | Visits 1 page (the category URL) or page-1..page-N, collecting each page's normalised links page after page, in anchor order |
| `Scraper.ExtractRecord` | scraper.py:115-146 | A non-200 page exits with a connection error; fewer than six cells raise an IndexError. A record keeps its URL and category, with digits-only availability and a description that is never whitespace-only |
| `Scraper.RecordOfDetailPage` | scraper.py:124-141 | A well-formed page gives its UPC, title and prices from cells 0, 3 and 2. It also gives the stock count, "<n> star(s)" and an absolute image link |
| `Scraper.RecordsSnoc` | scraper.py:109-110 | One more book either appends exactly its record or ends the run with that book's failure |
| `Scraper.RunStoresEachCategory` | scraper.py:87-110 | After a successful run each category (names distinct) maps to exactly its own records; every other key is unchanged |
| `Scraper.CoverPath` | scraper.py:237-238 | A cover file name ends in ".jpg" |
| `Scraper.CoverPathInCategory` | scraper.py:230-238 | A UPC not starting with "/" is saved as covers dir + category + "/" + UPC + ".jpg" |
| `Scraper.CoverPathsOf` | scraper.py:229-240 | One ".jpg" cover per exported row, category after category |
| `Scraper.CategoryCsvPath` | scraper.py:191-192 | A category's file lies under "./exports/csv/" and ends in ".csv" |
| `Scraper.OneFilePath` | scraper.py:182 | The single file lies under "./exports/csv/" and ends in ".csv" |
| `Scraper.OneFileConcatenates` | scraper.py:181-187 | The single file holds the per-category rows, one category after the other, as many rows as records |
| `Scraper.BookScraper.constructor` | scraper.py:12-18 | Starts with the given root status and categories and an empty books map |
| `Scraper.BookScraper.BookData` | scraper.py:115-146 | Appends exactly one record to its category's list and changes nothing else. A failing page or a missing category key changes nothing |
| `Scraper.BookScraper.AddRecords` | scraper.py:109-110 | On success the category's list gains the records of its book links, in order. The outcome is the first failure, if any |
| `Scraper.BookScraper.ScrapeCategory` | scraper.py:87-113 | The category's list is reset, then filled with the records of all its listing pages. Other categories are untouched |
| `Scraper.BookScraper.GetBookUrls` | scraper.py:81-113 | The books map after scraping every category in order is the specification `Run` |
| `Scraper.BookScraper.StartScraper` | scraper.py:25-60 | A bad root response fails. Selectors are cut in place and the categories filtered; an empty result fails with InvalidCategories, otherwise the books are collected |
| `Scraper.BookScraper.CsvExports` | scraper.py:160-196 | One file per category, or one file; every file has the header. The one file is "books.csv" holding every category's rows in category order; per category, a file named after it holds exactly its rows |
| `Scraper.BookScraper.CoverPaths` | scraper.py:221-240 | One ".jpg" cover file per exported row |
| `CategoryInfo.GetCatName` | category_info.py:18-30 | The category name has no digit, no "_" and no "-" |
| `CategoryInfo.StripAffixes` | category_info.py:25-26 | The catalogue prefix and "/index.html" both come off a category URL |
| `CategoryInfo.DropUnderscore` | category_info.py:26 | Deleting "_" joins the slug and its numeric id |
| `CategoryInfo.SpacedSlugDigits` | category_info.py:26-27 | Once "-" reads as a space, deleting digits removes exactly the id |
| `CategoryInfo.CatNameOfCategoryUrl` | category_info.py:25-27 | The URL of slug "mystery" with id 3 is named "mystery". In general a slug is named with its hyphens as spaces and its id gone |
| `CategoryInfo.GetBookUrls` | category_info.py:73-88 | One link per anchor, in anchor order, each with "../../../" rewritten to the catalogue root |
| `CategoryInfo.PageList` | category_info.py:56-64 | The list has max(page_total, 1) entries. Entry 0 is the category URL; entry p >= 1 is the URL with "index" rewritten to "page-(p+1)" |
| `CategoryInfo.PageListOfIndexUrl` | category_info.py:64 | For an "index.html" URL, listing page p >= 1 is the URL ending in "page-(p+1).html" |
| `CategoryInfo.VisitPages` | category_info.py:56-67 | Builds exactly that page list and visits the pages' book links page by page, in link order. No page is visited for a count below one |
| `CategoryInfo.GetCatPagesUrls` | category_info.py:33-67 | A failed listing does nothing, and an unreadable count fails. Otherwise it returns the name, the CSV file name, the page list and all visited book links |
| `BooksToScrape.BookRow` | Books_toScrape.py:145-162 | Fewer than six cells raise an IndexError; otherwise ten fields: the URL, UPC (cell 0), title, prices (cells 3 and 2), raw availability (cell 5), raw description and category in their columns |
| `BooksToScrape.RowOfDetailPage` | Books_toScrape.py:158-162 | A page rated by one of the five marks gets "<n> star(s)"; a relative image link becomes absolute under "https://books.toscrape.com/" |
| `BooksToScrape.ImageFilename` | Books_toScrape.py:207 | The name ends in ".jpg", has at most 154 characters, and its stem holds only letters, digits and "_" |
| `BooksToScrape.ImageFilenameOfPlainTitle` | Books_toScrape.py:207 | A title of at most 150 letters, digits and spaces is kept whole, spaces as "_" |
| `BooksToScrape.ImagePath` | Books_toScrape.py:205-212 | The join is plain concatenation here: "exports/cover_images/" + category + "/" + file name |
| `BooksToScrape.BookRowsSnoc` | Books_toScrape.py:105-112 | One more book appends exactly its row, or ends the run with its failure |
| `BooksToScrape.ExportBooks` | Books_toScrape.py:103-112 | The rows and covers of the visited books in order, or the first book's failure |
| `BooksToScrape.GetCatPagesUrls` | Books_toScrape.py:87-112 | A failed listing raises a NameError (the page count is never assigned); an unreadable count fails. Otherwise the result is the file, rows and covers of every visited book |
| `BooksToScrape.OneRowPerBook` | Books_toScrape.py:103-112 | Every visited book contributes exactly one row, its own, and one cover, in order |
| `GetBookInfoScript.CsvFilename` | scraper_books.toscrape/getBookInfo.py:13 | The file name is the category name, character for character, with each space replaced by "_" and letters kept in their case (not lower-cased), then ".csv" |
| `GetBookInfoScript.BuildPages` | scraper_books.toscrape/getBookInfo.py:30-37 | The while loop builds the category URL followed by the "page-k" URLs for k = 2..page_total |
| `GetBookInfoScript.BookLinkAgrees` | scraper_books.toscrape/getBookInfo.py:56 | main_url + href with "../../../" turned into "catalogue/" is the later versions' normalised link |
| `GetBookInfoScript.ImageUrlAgrees` | scraper_books.toscrape/getBookInfo.py:75 | main_url + src with "../../" removed is the later versions' image link |
| `GetBookInfoScript.BackslashSurvives` | scraper_books.toscrape/getBookInfo.py:111 | As written, a backslash in the title survives into the file name |
| `GetBookInfoScript.TitleStem` | scraper_books.toscrape/getBookInfo.py:108-111 | The title part keeps the length of the first 150 title characters; each of ':', '/', backslash, '-', '*', '?', ',', '"', ' ' becomes "_" and every other character is kept in place, so none of them is left |
| `GetBookInfoScript.TitleStemsAgree` | scraper_books.toscrape/getBookInfo.py:111 | The written and corrected title parts agree on every title whose first 150 characters hold no backslash and no occurrence of the text "U+005C" |
| `GetBookInfoScript.ImageFilename` | scraper_books.toscrape/getBookInfo.py:111 | The cover file name starts with the lower-cased category, spaces as "_", and "_"; ends with the title part and ".jpg"; and is exactly as long as those pieces |
| `GetBookInfoScript.ImagePath` | scraper_books.toscrape/getBookInfo.py:113 | The cover path ends in ".jpg" |
| `GetBookInfoScript.ImagePathInCovers` | scraper_books.toscrape/getBookInfo.py:107-113 | A category name not starting with "/" puts the cover directly in "exports/covers/" |
| `GetBookInfoScript.ProductOf` | scraper_books.toscrape/getBookInfo.py:62-77 | Fewer than seven cells raise an IndexError. Otherwise ten fields, the URL and category in place, and a ".jpg" cover, named through the corrected `GetBookInfoScript.TitleStem` |
| `GetBookInfoScript.ProductOfDetailPage` | scraper_books.toscrape/getBookInfo.py:67-78 | A seven-cell page gives UPC, title, prices, raw availability, raw description, category, "<cell 6> review(s)" and the image link under the main URL; the cover is the category-and-title file name in the covers directory |
| `GetBookInfoScript.ProductsSnoc` | scraper_books.toscrape/getBookInfo.py:63-79 | One more URL appends exactly its product, or ends the run with its failure |
| `GetBookInfoScript.WrittenConcat` | scraper_books.toscrape/getBookInfo.py:78-79 | Writing two runs one after the other writes their rows and covers concatenated |
| `GetBookInfoScript.LinksSnoc` | scraper_books.toscrape/getBookInfo.py:55-57 | After one more listing page, the URL list gains exactly that page's links at its end |
| `GetBookInfoScript.FirstPageWrittenTwice` | scraper_books.toscrape/getBookInfo.py:51-58 | As written, two listing pages export the first page's books twice. More rows than links appear iff the first page has a book |
| `GetBookInfoScript.Exporter.ExportProduct` | scraper_books.toscrape/getBookInfo.py:64-79 | On success the cover is added and one row appended to the category's file, nothing else. A short page changes nothing |
| `GetBookInfoScript.Exporter.GetProductInfo` | scraper_books.toscrape/getBookInfo.py:62-79 | Exports every URL in order: its file gains the rows, the covers are added; the outcome is the first failure |
| `GetBookInfoScript.Exporter.AppendPageLinks` | scraper_books.toscrape/getBookInfo.py:54-57 | The caller's `url_list` gains the page's links at its end, in anchor order |
| `GetBookInfoScript.Exporter.GetBookUrlsAsWritten` | scraper_books.toscrape/getBookInfo.py:50-58 | `url_list` ends holding every page's links. The file receives the as-written run, which re-exports the whole list after each page; its cover names use the corrected `GetBookInfoScript.TitleStem` |
| `GetBookInfoScript.Exporter.GetBookUrls` | scraper_books.toscrape/getBookInfo.py:50-57 | The links of every page are collected, then each book is exported exactly once, in order |
| `GetBookInfoScript.Exporter.GetCatPagesUrls` | scraper_books.toscrape/getBookInfo.py:24-47 | A failed listing writes nothing. Otherwise `url_list` starts empty and ends holding the links of every listing page, and the file and covers receive the as-written run from an empty list, which re-exports the whole list after each page; its cover names use the corrected `GetBookInfoScript.TitleStem` |
| `GetBookInfoScript.Exporter.CreateCsvFiles` | scraper_books.toscrape/getBookInfo.py:11-21 | Every category gets its CSV file, and every CSV file starts with the header row |
| `BookInfo.GetBookInfo` | book_info.py:15-41 | Fewer than six cells raise an IndexError. Otherwise ten fields, with the URL and category in place |
| `BookInfo.AgreesWithFirstVersion` | book_info.py:33-38 | The row is Books_toScrape.py's row with the description's " ...more" removed, and nothing else different |
| `BookInfo.RowOfDetailPage` | book_info.py:26-38 | Gives UPC, title, prices and raw availability from cells 0, 3, 2, 5, the description before the marker, "<n> star(s)" and the absolute image link |
| `BookInfo.BlankDescriptionKept` | book_info.py:33 | No "n/a" rule: a blank description is written as it is, and an unknown token as "None star(s)" |
| `PackageBookInfo.GetBookInfo` | books_to_scrape/book_info.py:16-48 | Fewer than six cells raise an IndexError. Otherwise ten fields with digits-only availability and a description that is never whitespace-only |
| `PackageBookInfo.AgreesWithTopLevel` | books_to_scrape/book_info.py:33-46 | The row is book_info.py's row with digits-only availability and the "n/a" rule applied |
| `PackageBookInfo.BlankDescriptionBecomesNa` | books_to_scrape/book_info.py:37-39 | A blank description is "n/a" here but written as it is by book_info.py |
| `PackageBookInfo.AgreesWithScraper` | books_to_scrape/book_info.py:27-46 | The row equals scraper.py's record row except the image link's root |
| `PackageBookInfo.RowOfDetailPage` | books_to_scrape/book_info.py:33-46 | Availability is the stock count, the rating "<n> star(s)", the image link absolute under "https://books.toscrape.com/" |
| `PackageBookInfo.CoverOfDetailPage` | books_to_scrape/book_info.py:48 | The cover is written in the category's directory under the UPC-and-title name |
| `ExportData.CreateCsvFile` | books_to_scrape/export_data.py:15-38 | The file holds exactly the header row (an existing one is emptied); no other file changes |
| `ExportData.CsvFileAppend` | books_to_scrape/export_data.py:41-50 | One row is appended, and a missing file is created; no other file changes |
| `ExportData.CreateThenAppend` | books_to_scrape/export_data.py:25-50 | Create then append each row: the file holds the header then the rows in order; no other file changes |
| `ExportData.RecreateDiscards` | books_to_scrape/export_data.py:25 | Creating the file again discards every row written before |
| `ExportData.CategoryImageDir` | books_to_scrape/export_data.py:65-66 | The category directory lies under "exports/cover_images/" and ends in "/" |
| `ExportData.ImageFilename` | books_to_scrape/export_data.py:67-68 | Starts with UPC + "_" and ends in ".jpg". The title part has at most 100 characters, all letters, digits or "_" |
| `ExportData.ImageFilenameOfPlainTitle` | books_to_scrape/export_data.py:67 | A title of at most 100 letters, digits and spaces is kept whole, spaces as "_" |
| `ExportData.UpcOfImageFilename` | books_to_scrape/export_data.py:68 | A UPC without "_" reads back from the file name |
| `ExportData.ImageFilenameNamesUpc` | books_to_scrape/export_data.py:67-68 | Books with different UPCs (no "_" in them) never share a file name, whatever their titles |
| `ExportData.ImagePathInCategory` | books_to_scrape/export_data.py:65-73 | A UPC not starting with "/" puts the cover directly in the category directory, under "exports/cover_images/", as ".jpg" |
| `ExportData.ImagePathsDistinct` | books_to_scrape/export_data.py:65-73 | Two books of one category with different UPCs are written to different files |

## Left out

- HTTP requests, status checks and BeautifulSoup parsing. Parsed pages are
  inputs. `connection_error` and `exit()` become `ConnectionError`, and the
  Python process ending becomes a `Failure` result.
- File and directory creation, image bytes, the csv module's quoting and
  line endings. Files are modelled as rows (or paths). The delimiters
  (" " in the two early scripts, ";" in export_data.py, the default ","
  in scraper.py) are not modelled, because a row is kept as its list of
  fields, not as a line of text.
- `BookScraper.export_json` (scraper.py:198-219): JSON serialisation is
  library output.
- main.py (the interactive loop) and the request categoriesAll.py makes at
  import. Its `main_url` is the constant `GetBookInfoScript.MainUrl`, and
  its category lists are parameters of
  `GetBookInfoScript.Exporter.CreateCsvFiles`.
- tqdm progress bars and console printing.
- Python's Unicode `isalnum`, `isspace`, `strip`, `lower`, `\D` and
  `int()`: `isspace`, `strip` and the whitespace `int()` skips cover the
  whitespace characters below U+0100 (U+0085 and U+00A0 included); the
  letters and digits of `isalnum`, `lower`, `\D` and `int()` are the ASCII
  ones. `int()`'s acceptance of "_" between digits is not modelled.
- The top-level export_data.py, imported by book_info.py and
  category_info.py, is not part of this model.
- `CategoryInfo.GetCatPagesUrls` returns the visited book links. It does not
  model the CSV file creation or the per-book writes, which go through that
  file; the row each book gets is `BookInfo.GetBookInfo`.
- `Scraper.BookScraper.GetBookUrls` and the other state-changing methods say
  nothing of the state after a failure. In the source the process ends
  there.
- `Scraper.BookScraper.constructor` takes the root response status and the
  categories as given. Discovering them is `Scraper.SetupCategories`.
- `Scraper.BookScraper.CoverPaths`: states only the count and the ".jpg"
  ending of the paths. The directory is stated per book by
  `Scraper.CoverPathInCategory`, for a UPC that does not begin with "/"; a
  UPC that does makes `os.path.join` drop the directory.
- `Scraper.CoverPathsOf`: states the same as `Scraper.BookScraper.CoverPaths`,
  for the same reason.
- `GetBookInfoScript.ImagePath`: states only the ".jpg" ending.
  `GetBookInfoScript.ImagePathInCovers` adds the directory for category
  names not beginning with "/".
- `GetBookInfoScript.Exporter.CreateCsvFiles`: states that every
  category's file exists and starts with the header. It does not state the
  rows, since two categories with the same file name share, and reset, one
  file.
- `GetBookInfoScript.ImageFilename`: uses the corrected title part
  (`TitleStem`). `TitleStemAsWritten` is the code as written; see Findings.
  The cover names of `GetBookInfoScript.ProductOf`,
  `GetBookInfoScript.Exporter.GetBookUrlsAsWritten` and
  `GetBookInfoScript.Exporter.GetCatPagesUrls` go through it, so for a
  title with a backslash or "U+005C" they differ from the code.
- `GetBookInfoScript.Exporter.GetBookUrls`: the corrected page loop of the
  Findings is not called by `GetBookInfoScript.Exporter.GetCatPagesUrls`,
  which drives the code as written (`GetBookUrlsAsWritten`).
- `BooksToScrape.GetCatPagesUrls`: the header-only CSV file created before
  the NameError is not part of the result.

## Findings

| source | as written | input that shows it | evidently intended | confidence | as-written member | corrected member |
|---|---|---|---|---|---|---|
| scraper_books.toscrape/getBookInfo.py:58 | `getProductInfo` runs inside the page loop over the whole accumulated `url_list`, so after each page every earlier book is exported again | a category with two listing pages whose first page lists a book: the first page's books are written twice | each book exported once, after its page's links are collected | not executed; high | `GetBookInfoScript.FirstPageWrittenTwice` | `GetBookInfoScript.Exporter.GetBookUrls` |
| scraper_books.toscrape/getBookInfo.py:111 | `.replace(u'U+005C', '_')` replaces the six-character text "U+005C", not a backslash | the title `a\b` keeps its backslash in the cover file name | the backslash replaced by "_" like the other unsafe characters (the commented list at line 108) | not executed; high | `GetBookInfoScript.BackslashSurvives` | `GetBookInfoScript.TitleStem` |
| Books_toScrape.py:90-103 | `page_total` is assigned only under `if response.ok`, but the page loop reads it unconditionally | a category URL whose listing request answers 404: a NameError after the CSV file is created | a failed listing skips the category, as category_info.py does by indenting the loop under the check | not executed; high | `BooksToScrape.GetCatPagesUrls` | `CategoryInfo.GetCatPagesUrls` |
