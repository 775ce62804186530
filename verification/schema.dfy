/** The column names every version writes as the first CSV row. */
module Schema {

  const Header: seq<string> := [
    "product_page_url",
    "universal_product_code",
    "title",
    "price_including_tax",
    "price_excluding_tax",
    "number_available",
    "product_description",
    "category",
    "review_rating",
    "image_url"
  ]
}
