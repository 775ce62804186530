/** books_to_scrape/book_info.py: the row of one book in the packaged
    version, which keeps only the digits of the availability cell, applies
    the "n/a" rule to descriptions, and names the cover file after the UPC. */
module PackageBookInfo {
  import opened Common
  import opened Text
  import opened Web
  import Rating
  import Links
  import Fields
  import Schema
  import ExportData
  import BookInfo
  import Scraper

  const SiteRoot := "https://books.toscrape.com/"

  /** What `get_book_info` hands to `csv_file_append` and `download_images`. */
  datatype BookOutput = BookOutput(row: seq<string>, coverPath: string)

  /** `get_book_info`: the ten fields in header order and the cover path.
      Fewer than six table cells raise an IndexError before anything is
      written. */
  function GetBookInfo(url: string, catName: string, page: DetailPage): (r: Result<BookOutput>)
    ensures r.Err? <==> |page.cells| < 6
    ensures r.Err? ==> r.failure == IndexError
    ensures r.Ok? ==> |r.value.row| == |Schema.Header| && r.value.row[0] == url && r.value.row[7] == catName
    ensures r.Ok? ==> AllDigits(r.value.row[5]) && !IsSpace(r.value.row[6])
  {
    if |page.cells| < 6 then Err(IndexError)
    else
      var row := [url, page.cells[0], page.heading, page.cells[3], page.cells[2], KeepDigits(page.cells[5]),
                  Fields.CleanDescription(page.description), catName,
                  Rating.RatingText(Rating.ReviewRating(page.ratingClass)),
                  Links.NormaliseImageLink(page.imageSrc, SiteRoot)];
      Ok(BookOutput(row, ExportData.ImagePath(page.heading, page.cells[0], catName)))
  }

  /** The row differs from the one book_info.py writes only in the digits-only
      availability and the "n/a" rule for the description. */
  lemma AgreesWithTopLevel(url: string, catName: string, page: DetailPage)
    requires |page.cells| >= 6
    ensures GetBookInfo(url, catName, page).value.row
         == BookInfo.GetBookInfo(url, catName, page).value
              [5 := KeepDigits(page.cells[5])]
              [6 := Fields.CleanDescription(page.description)]
  {
  }

  /** A blank description is the one input on which the two versions'
      descriptions differ: "n/a" here, the blanks themselves there. */
  lemma BlankDescriptionBecomesNa(url: string, catName: string, page: DetailPage)
    requires |page.cells| >= 6 && IsSpace(page.description)
    ensures GetBookInfo(url, catName, page).value.row[6] == Fields.Sentinel
    ensures BookInfo.GetBookInfo(url, catName, page).value[6] == page.description
  {
    BookInfo.BlankDescriptionKept(url, catName, page);
  }

  /** For a fetched page the row is the one scraper.py builds, except that
      scraper.py roots the image link at its "http://" address. */
  lemma AgreesWithScraper(url: string, catName: string, page: DetailPage)
    requires page.status == 200 && |page.cells| >= 6
    ensures Scraper.Row(Scraper.ExtractRecord(catName, url, page).value)
         == GetBookInfo(url, catName, page).value.row[9 := Links.NormaliseImageLink(page.imageSrc, Scraper.RootUrl)]
  {
  }

  /** A well-formed detail page yields the stock count as availability, a
      rating text naming the number of stars and an absolute image link. */
  lemma RowOfDetailPage(url: string, catName: string, page: DetailPage,
                        before: string, n: nat, after: string, stars: nat, rest: string)
    requires |page.cells| >= 6
    requires page.cells[5] == before + NatToString(n) + after
    requires forall i :: 0 <= i < |before| ==> !IsDigit(before[i])
    requires forall i :: 0 <= i < |after| ==> !IsDigit(after[i])
    requires 1 <= stars <= 5 && page.ratingClass == Rating.Marks[stars - 1]
    requires page.imageSrc == Links.ImagePrefix + rest && !Occurs(rest, Links.ImagePrefix)
    ensures var row := GetBookInfo(url, catName, page).value.row;
      && row[5] == NatToString(n)
      && row[8] == NatToString(stars) + " star(s)"
      && row[9] == SiteRoot + rest
  {
    Fields.AvailabilityCount(before, n, after);
    Rating.ReviewRatingInOrder(stars);
    Links.RelativeImageLink(rest, SiteRoot);
  }

  /** The cover is written into the category's directory under the name
      built from the UPC and the title. */
  lemma CoverOfDetailPage(url: string, catName: string, page: DetailPage)
    requires |page.cells| >= 6
    requires page.cells[0] == [] || page.cells[0][0] != '/'
    ensures GetBookInfo(url, catName, page).value.coverPath
         == ExportData.CategoryImageDir(catName) + ExportData.ImageFilename(page.heading, page.cells[0])
  {
    ExportData.ImagePathInCategory(page.heading, page.cells[0], catName);
  }
}
