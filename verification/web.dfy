/** The site as the scraper sees it after parsing. Fetching and HTML parsing
    are outside the model: a page is the status code of its response plus the
    texts and attributes the scraper's selectors pick out of it. */
module Web {

  /** A category listing page. `resultCount` is the text of "form > strong",
      `pageIndicator` the text of the "li.current" element, and `bookHrefs`
      the href of every "ol > li > article > h3 > a", in document order. */
  datatype ListingPage = ListingPage(
    status: int,
    resultCount: string,
    pageIndicator: string,
    bookHrefs: seq<string>)

  /** A book detail page. `cells` are the texts of all "td" elements in order,
      `heading` the "h1" text, `description` the "article > p" text,
      `ratingClass` the second class token of ".star-rating", and `imageSrc`
      the src of the image in "div.item.active". */
  datatype DetailPage = DetailPage(
    status: int,
    cells: seq<string>,
    heading: string,
    description: string,
    ratingClass: string,
    imageSrc: string)

  /** What a GET of each URL returns, once parsed. */
  datatype Site = Site(listing: string -> ListingPage, detail: string -> DetailPage)

  /** `requests.Response.ok`: false exactly for the 4xx and 5xx status codes. */
  predicate ResponseOk(status: int) {
    !(400 <= status < 600)
  }
}
