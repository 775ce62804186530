/** The star-rating lookup. scraper.py, Books_toScrape.py, book_info.py and
    books_to_scrape/book_info.py each carry the same loop over the same list. */
module Rating {
  import opened Common
  import opened Text

  /** The rating class tokens, in the order of the number of stars. */
  const Marks: seq<string> := ["One", "Two", "Three", "Four", "Five"]

  /** The loop `for i, mark in enumerate(Marks): if rating == mark: return i + 1`,
      started at position `i`; falling off the end returns None. */
  function Lookup(token: string, i: nat): (r: Option<nat>)
    requires i <= |Marks|
    ensures r.Some? <==> token in Marks[i..]
    ensures r.Some? ==> i < r.value <= |Marks| && Marks[r.value - 1] == token
    decreases |Marks| - i
  {
    if i == |Marks| then None
    else if Marks[i] == token then Some(i + 1)
    else
      assert Marks[i..] == [Marks[i]] + Marks[i + 1..];
      Lookup(token, i + 1)
  }

  /** The number of stars a rating token stands for, or None for a token
      that is not one of the five. */
  function ReviewRating(token: string): (r: Option<nat>)
    ensures r.Some? <==> token in Marks
    ensures r.Some? ==> 1 <= r.value <= 5 && Marks[r.value - 1] == token
  {
    assert Marks[0..] == Marks;
    Lookup(token, 0)
  }

  /** One..Five map to 1..5 in list order. */
  lemma ReviewRatingInOrder(n: nat)
    requires 1 <= n <= 5
    ensures ReviewRating(Marks[n - 1]) == Some(n)
  {
    var r := ReviewRating(Marks[n - 1]);
    assert r.Some?;
    assert Marks[r.value - 1] == Marks[n - 1];
  }

  /** `str(rating) + " star(s)"`, where `str(None)` is "None". */
  function RatingText(r: Option<nat>): string {
    match r
    case Some(n) => NatToString(n) + " star(s)"
    case None => "None star(s)"
  }

  predicate IsRating(r: Option<nat>) {
    r.Some? ==> 1 <= r.value <= 5
  }

  /** Distinct ratings are written as distinct texts, so the text can be read back. */
  lemma RatingTextInjective(a: Option<nat>, b: Option<nat>)
    requires IsRating(a) && IsRating(b)
    requires RatingText(a) == RatingText(b)
    ensures a == b
  {
    if a.Some? && b.Some? {
      assert RatingText(a)[0] == DigitChar(a.value) && RatingText(b)[0] == DigitChar(b.value);
    }
  }
}
