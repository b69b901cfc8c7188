/**
 * The "Load more" button of the post list. The page template sets three globals: the URL of the
 * next page, the number of the page to load next, and the number of pages there are. A click
 * builds the page's URL from the first two; when the page has arrived its posts are appended,
 * the page number goes up by one, and the button's section is hidden once it passes the last page.
 * The request itself and the appended posts are not modelled.
 */
module LoadMore {
  import opened Strings

  const PageMarker: string := "/page"

  /**
   * `url.split('/page')[0] + '/page/' + page + '/'`: the URL's text before its first "/page",
   * then "/page/", the page number and a final '/'. The first "/page" of the result is the one
   * appended here.
   */
  function NextPageUrl(url: string, page: nat): (r: string)
    ensures StartsWith(r, PrefixBefore(url, PageMarker) + "/page/")
    ensures IndexOf(r, PageMarker) == |PrefixBefore(url, PageMarker)|
    ensures r[|r| - 1] == '/'
  {
    var base := PrefixBefore(url, PageMarker);
    FirstMarkerAfterBase(base, "/" + NatToString(page) + "/");
    assert base + PageMarker + "/" + NatToString(page) + "/" == base + PageMarker + ("/" + NatToString(page) + "/");
    base + PageMarker + "/" + NatToString(page) + "/"
  }

  /**
   * In a built URL the first "/page" is the one the builder appended: a "/page" cannot start in
   * the base (the base contains none) and run into the appended text (which starts with '/', a
   * character "page" does not contain).
   */
  lemma {:induction false} FirstMarkerAfterBase(base: string, tail: string)
    requires !Contains(base, PageMarker)
    ensures IndexOf(base + PageMarker + tail, PageMarker) == |base|
  {
    var s := base + PageMarker + tail;
    assert OccursAt(s, PageMarker, |base|);
    forall j | 0 <= j < |base| ensures !OccursAt(s, PageMarker, j) {
      if j + |PageMarker| <= |base| {
        assert s[j..j + |PageMarker|] == base[j..j + |PageMarker|];
        assert !OccursAt(base, PageMarker, j);
      } else {
        var d := |base| - j;
        assert 1 <= d < |PageMarker|;
        assert s[|base|] == '/';
        assert PageMarker[d] != '/';
      }
    }
  }

  /**
   * Building a URL from a built URL keeps the same base, so the page number alone decides the
   * result: the handler gives the same URL whether or not `url` already names a page.
   */
  lemma BaseIsStable(url: string, n: nat, m: nat)
    ensures PrefixBefore(NextPageUrl(url, n), PageMarker) == PrefixBefore(url, PageMarker)
    ensures NextPageUrl(NextPageUrl(url, n), m) == NextPageUrl(url, m)
  {
    var base := PrefixBefore(url, PageMarker);
    var built := NextPageUrl(url, n);
    assert built[..|base|] == base;
    assert PrefixBefore(built, PageMarker) == built[..|base|];
  }

  /** The page number can be read back from the built URL, between "/page/" and the final '/'. */
  lemma PageReadBack(url: string, n: nat)
    ensures var base := PrefixBefore(url, PageMarker);
      var u := NextPageUrl(url, n);
      |u| == |base| + 7 + |NatToString(n)|
      && u[..|base| + 6] == base + "/page/"
      && u[|u| - 1] == '/'
      && var digits := u[|base| + 6..|u| - 1];
      (forall k :: 0 <= k < |digits| ==> IsDigit(digits[k])) && ParseNat(digits) == n
  {
    var base := PrefixBefore(url, PageMarker);
    var u := NextPageUrl(url, n);
    assert u == (base + "/page/") + NatToString(n) + "/";
    assert u[|base| + 6..|u| - 1] == NatToString(n);
    ParseNatToString(n);
  }

  /** Two page numbers give the same URL exactly when they are the same number. */
  lemma DistinctPagesDistinctUrls(url: string, n: nat, m: nat)
    ensures NextPageUrl(url, n) == NextPageUrl(url, m) <==> n == m
  {
    var base := PrefixBefore(url, PageMarker);
    var u := NextPageUrl(url, n);
    if u == NextPageUrl(url, m) {
      PageReadBack(url, n);
      PageReadBack(url, m);
      assert |NatToString(n)| == |NatToString(m)|;
      assert u == (base + "/page/") + NatToString(n) + "/";
      assert u == (base + "/page/") + NatToString(m) + "/";
      assert u[|base| + 6..|u| - 1] == NatToString(n);
      assert u[|base| + 6..|u| - 1] == NatToString(m);
      NatToStringInjective(n, m);
    }
  }

  /** The button's state: the template's globals and whether the section is hidden. */
  class Pager {
    const nextUrl: string
    const availablePages: int
    var nextPage: nat
    var hidden: bool

    /** Once hidden, the section stays hidden, and it is hidden only past the last page. */
    ghost predicate Valid()
      reads this
    {
      hidden ==> nextPage > availablePages
    }

    constructor (url: string, page: nat, available: int)
      ensures nextUrl == url && nextPage == page && availablePages == available
      ensures !hidden && Valid()
    {
      nextUrl := url;
      nextPage := page;
      availablePages := available;
      hidden := false;
    }

    /** A click: the URL requested for the next page. */
    method Click() returns (url: string)
      ensures url == NextPageUrl(nextUrl, nextPage)
      ensures StartsWith(url, PrefixBefore(nextUrl, PageMarker))
      ensures !Contains(PrefixBefore(nextUrl, PageMarker), PageMarker)
    {
      url := PrefixBefore(nextUrl, PageMarker) + PageMarker + "/" + NatToString(nextPage) + "/";
    }

    /** The page has arrived: count it, and hide the section once past the last page. */
    method Loaded()
      requires Valid()
      modifies this
      ensures Valid()
      ensures nextPage == old(nextPage) + 1
      ensures hidden <==> nextPage > availablePages
    {
      nextPage := nextPage + 1;
      if nextPage > availablePages {
        hidden := true;
      }
    }
  }
}
