/** Turning the relative links of the site's pages into absolute URLs. */
module Links {
  import opened Text
  import opened Web

  /** The relative prefix of book links on listing pages. */
  const BookPrefix := "../../../"

  /** The relative prefix of cover image links on detail pages. */
  const ImagePrefix := "../../"

  /** `href.replace("../../../", root + "catalogue/")`. */
  function NormaliseBookLink(href: string, root: string): string {
    ReplaceAll(href, BookPrefix, root + "catalogue/")
  }

  /** `src.replace("../../", root)`. */
  function NormaliseImageLink(src: string, root: string): string {
    ReplaceAll(src, ImagePrefix, root)
  }

  /** The normalised book links of one listing page, in anchor order. */
  function PageLinks(site: Site, page: string, root: string): seq<string> {
    var hrefs := site.listing(page).bookHrefs;
    seq(|hrefs|, k requires 0 <= k < |hrefs| => NormaliseBookLink(hrefs[k], root))
  }

  /** The normalised book links of several listing pages: page by page, and
      within a page in anchor order. */
  function LinksOfPages(site: Site, pages: seq<string>, root: string): seq<string>
    decreases |pages|
  {
    if pages == [] then []
    else LinksOfPages(site, pages[..|pages| - 1], root) + PageLinks(site, pages[|pages| - 1], root)
  }

  /** A relative book link becomes an absolute link under the catalogue. */
  lemma RelativeBookLink(rest: string, root: string)
    requires !Occurs(rest, BookPrefix)
    ensures NormaliseBookLink(BookPrefix + rest, root) == root + "catalogue/" + rest
  {
    ReplaceFront(BookPrefix, rest, root + "catalogue/");
    ReplaceUnchanged(rest, BookPrefix, root + "catalogue/");
  }

  /** A relative image link becomes an absolute link under the site root. */
  lemma RelativeImageLink(rest: string, root: string)
    requires !Occurs(rest, ImagePrefix)
    ensures NormaliseImageLink(ImagePrefix + rest, root) == root + rest
  {
    ReplaceFront(ImagePrefix, rest, root);
    ReplaceUnchanged(rest, ImagePrefix, root);
  }

  /** A link that is already absolute is left as it is. */
  lemma AbsoluteLinkUnchanged(url: string, root: string)
    requires !Occurs(url, BookPrefix)
    ensures NormaliseBookLink(url, root) == url
  {
    ReplaceUnchanged(url, BookPrefix, root + "catalogue/");
  }

  /** Collecting the links of several pages keeps every link and their order:
      the pages' own link lists, concatenated. */
  lemma {:induction false} LinksOfPagesConcat(site: Site, p: seq<string>, q: seq<string>, root: string)
    ensures LinksOfPages(site, p + q, root) == LinksOfPages(site, p, root) + LinksOfPages(site, q, root)
    decreases |q|
  {
    if q == [] {
      assert p + q == p;
    } else {
      var q' := q[..|q| - 1];
      assert (p + q)[..|p + q| - 1] == p + q';
      LinksOfPagesConcat(site, p, q', root);
    }
  }
}
