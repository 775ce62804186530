/** book_info.py: the row of one book in the version that strips the
    " ...more" marker from descriptions but keeps availability as the page
    writes it and has no "n/a" substitution. The CSV and image writers it
    calls live in a top-level export_data.py, which is not part of this
    model. */
module BookInfo {
  import opened Common
  import opened Text
  import opened Web
  import Rating
  import Links
  import Fields
  import Schema
  import BooksToScrape

  const SiteRoot := "https://books.toscrape.com/"

  /** `get_book_info`: the ten fields in header order. Fewer than six table
      cells raise an IndexError before anything is written. */
  function GetBookInfo(url: string, catName: string, page: DetailPage): (r: Result<seq<string>>)
    ensures r.Err? <==> |page.cells| < 6
    ensures r.Err? ==> r.failure == IndexError
    ensures r.Ok? ==> |r.value| == |Schema.Header| && r.value[0] == url && r.value[7] == catName
  {
    if |page.cells| < 6 then Err(IndexError)
    else Ok([url, page.cells[0], page.heading, page.cells[3], page.cells[2], page.cells[5],
             Fields.StripMore(page.description), catName,
             Rating.RatingText(Rating.ReviewRating(page.ratingClass)),
             Links.NormaliseImageLink(page.imageSrc, SiteRoot)])
  }

  /** The row differs from the one Books_toScrape.py writes only in its
      description, which has the " ...more" marker removed. */
  lemma AgreesWithFirstVersion(url: string, catName: string, page: DetailPage)
    requires |page.cells| >= 6
    ensures GetBookInfo(url, catName, page).value
         == BooksToScrape.BookRow(url, catName, page).value[6 := Fields.StripMore(page.description)]
  {
  }

  /** A well-formed detail page yields its code, title, prices and raw
      availability cell, a description cut at the marker, a rating text
      naming the number of stars, and an absolute image link. */
  lemma RowOfDetailPage(url: string, catName: string, page: DetailPage, text: string, stars: nat, rest: string)
    requires |page.cells| >= 6
    requires page.description == text + Fields.MoreMarker
    requires !Occurs(text, Fields.MoreMarker) && NoStraddle(text, Fields.MoreMarker)
    requires 1 <= stars <= 5 && page.ratingClass == Rating.Marks[stars - 1]
    requires page.imageSrc == Links.ImagePrefix + rest && !Occurs(rest, Links.ImagePrefix)
    ensures var r := GetBookInfo(url, catName, page).value;
      && r[1] == page.cells[0] && r[2] == page.heading
      && r[3] == page.cells[3] && r[4] == page.cells[2] && r[5] == page.cells[5]
      && r[6] == text
      && r[8] == NatToString(stars) + " star(s)"
      && r[9] == SiteRoot + rest
  {
    Fields.MarkerStripped(text);
    Rating.ReviewRatingInOrder(stars);
    Links.RelativeImageLink(rest, SiteRoot);
  }

  /** Without the "n/a" rule a description of blanks is written as it is,
      and a token that is not a rating is written as "None star(s)". */
  lemma BlankDescriptionKept(url: string, catName: string, page: DetailPage)
    requires |page.cells| >= 6
    requires IsSpace(page.description)
    ensures GetBookInfo(url, catName, page).value[6] == page.description
    ensures page.ratingClass !in Rating.Marks ==> GetBookInfo(url, catName, page).value[8] == "None star(s)"
  {
    Fields.BlankUnmarked(page.description);
    ReplaceUnchanged(page.description, Fields.MoreMarker, "");
  }
}
