/**
 * The search response of the catalog: the converted books, a copy of the
 * pagination figures, and the hypermedia links built from the base URI,
 * the search parameters and the page position.
 */
module SearchPagination {
  import opened Wrappers
  import opened JavaText

  datatype PaginationMetadata = PaginationMetadata(page: int32, size: int32, totalElements: int64, totalPages: int64)

  /** The response, generic in the representation of one book. */
  datatype SearchBookResponse<R> = SearchBookResponse(
    books: seq<R>,
    pagination: PaginationMetadata,
    links: map<string, string>)

  /** The search parameters as `buildLinks` appends them: "q=<query>&" for
      a non-blank query, then sort, direction and size in that order. */
  function Params(query: Option<string>, sort: string, direction: string, size: int32): (p: string)
    ensures (|p| >= 2 && p[..2] == "q=") <==> PresentNonBlank(query)
    ensures var tail := "sort=" + sort + "&direction=" + direction + "&size=" + IntToString(size as int);
      && |tail| <= |p|
      && p[|p| - |tail|..] == tail
      && (PresentNonBlank(query) ==> p[..|p| - |tail|] == "q=" + query.value + "&")
      && (!PresentNonBlank(query) ==> p == tail)
  {
    var tail := "sort=" + sort + "&direction=" + direction + "&size=" + IntToString(size as int);
    var p := if query.Some? && !IsBlank(query.value) then "q=" + query.value + "&" + tail else tail;
    assert tail[..2] == "so";
    p
  }

  /** The link to page `page` of the search at `baseUrl`. */
  function PageLink(baseUrl: string, params: string, page: int): string {
    baseUrl + "?" + params + "&page=" + IntToString(page)
  }

  /** The text after the last `c` in `s` (all of `s` when there is none). */
  function AfterLast(s: string, c: char): (r: string)
    ensures |r| <= |s| && r == s[|s| - |r|..]
    ensures c !in r
    decreases |s|
  {
    if s == [] then []
    else if s[|s| - 1] == c then []
    else AfterLast(s[..|s| - 1], c) + [s[|s| - 1]]
  }

  lemma {:induction false} AfterLastOfSuffix(prefix: string, suffix: string, c: char)
    requires prefix != [] && prefix[|prefix| - 1] == c
    requires c !in suffix
    ensures AfterLast(prefix + suffix, c) == suffix
    decreases |suffix|
  {
    if suffix != [] {
      var s := prefix + suffix;
      var init := suffix[..|suffix| - 1];
      assert s[..|s| - 1] == prefix + init;
      assert s[|s| - 1] == suffix[|suffix| - 1];
      AfterLastOfSuffix(prefix, init, c);
    } else {
      assert prefix + suffix == prefix;
    }
  }

  /** The page a link asks for: the number after its last '='. */
  function PageOf(link: string): Option<int> {
    ParseInt(AfterLast(link, '='))
  }

  /** Every page link asks for exactly its page, whatever the base URL and
      the parameters (a direction containing "&page=" included). */
  lemma PageLinkRoundTrip(baseUrl: string, params: string, page: int)
    ensures PageOf(PageLink(baseUrl, params, page)) == Some(page)
  {
    var prefix := baseUrl + "?" + params + "&page=";
    assert PageLink(baseUrl, params, page) == prefix + IntToString(page);
    AfterLastOfSuffix(prefix, IntToString(page), '=');
    ParseIntToString(page);
  }

  /** The page the "next" link carries: `page + 1` in Java `int` arithmetic. */
  function NextPage(page: int32): (r: int32)
    ensures page < INT32_MAX ==> r == page + 1
    ensures page == INT32_MAX ==> r == INT32_MIN
  {
    assert page == INT32_MAX ==> (page + 1 - INT32_MIN) % 0x1_0000_0000 == 0;
    WrapInt32(page + 1)
  }

  /** The URL every page link starts from. */
  function SearchUrl(baseUri: string): string {
    baseUri + "books/search"
  }

  /** The links map for the parameter string `params`: "self", "first",
      "last" and "books" always, "prev" exactly when there is a page before
      this one, "next" exactly when there is one after it; every page link
      is a link to the search with those parameters. */
  function LinksFor(baseUri: string, params: string, page: int32, totalPages: int64): (links: map<string, string>)
    ensures links.Keys == {"self", "first", "last", "books"}
      + (if page > 1 then {"prev"} else {})
      + (if page < totalPages then {"next"} else {})
    ensures links["self"] == PageLink(SearchUrl(baseUri), params, page as int)
    ensures links["first"] == PageLink(SearchUrl(baseUri), params, 1)
    ensures links["last"] == PageLink(SearchUrl(baseUri), params, totalPages as int)
    ensures page > 1 ==> links["prev"] == PageLink(SearchUrl(baseUri), params, page - 1)
    ensures page < totalPages ==> links["next"] == PageLink(SearchUrl(baseUri), params, NextPage(page) as int)
    ensures links["books"] == baseUri + "books"
  {
    var baseUrl := SearchUrl(baseUri);
    var withEnds := map[]["self" := PageLink(baseUrl, params, page as int)]
                         ["first" := PageLink(baseUrl, params, 1)]
                         ["last" := PageLink(baseUrl, params, totalPages as int)];
    var withPrev := if page > 1 then withEnds["prev" := PageLink(baseUrl, params, page - 1)] else withEnds;
    var withNext := if page < totalPages then withPrev["next" := PageLink(baseUrl, params, NextPage(page) as int)]
                    else withPrev;
    withNext["books" := baseUri + "books"]
  }

  /** `buildLinks` as a value: the links for the parameters of the search. */
  function Links(baseUri: string, query: Option<string>, sort: string, direction: string,
                 page: int32, size: int32, totalPages: int64): map<string, string> {
    LinksFor(baseUri, Params(query, sort, direction, size), page, totalPages)
  }

  /** Each page link asks for its page: "self" for `page`, "first" for 1,
      "last" for `totalPages`, "prev" for `page - 1` and "next" for
      `page + 1`, which wraps round to the least `int` when `page` is the
      greatest. */
  lemma LinksAskForTheirPages(baseUri: string, query: Option<string>, sort: string, direction: string,
                              page: int32, size: int32, totalPages: int64)
    ensures var links := Links(baseUri, query, sort, direction, page, size, totalPages);
      && PageOf(links["self"]) == Some(page as int)
      && PageOf(links["first"]) == Some(1)
      && PageOf(links["last"]) == Some(totalPages as int)
      && (page > 1 ==> PageOf(links["prev"]) == Some(page - 1))
      && (page < totalPages && page < INT32_MAX ==> PageOf(links["next"]) == Some(page + 1))
      && (page < totalPages && page == INT32_MAX ==> PageOf(links["next"]) == Some(INT32_MIN))
  {
    var links := Links(baseUri, query, sort, direction, page, size, totalPages);
    var baseUrl := SearchUrl(baseUri);
    var params := Params(query, sort, direction, size);
    PageLinkRoundTrip(baseUrl, params, page as int);
    assert PageOf(links["self"]) == Some(page as int);
    PageLinkRoundTrip(baseUrl, params, 1);
    assert PageOf(links["first"]) == Some(1);
    PageLinkRoundTrip(baseUrl, params, totalPages as int);
    assert PageOf(links["last"]) == Some(totalPages as int);
    if page > 1 {
      PageLinkRoundTrip(baseUrl, params, page - 1);
    }
    if page < totalPages {
      PageLinkRoundTrip(baseUrl, params, NextPage(page) as int);
    }
  }

  /** The literal "&page=1" is the link to page 1. */
  lemma FirstPageLink(baseUrl: string, params: string)
    ensures baseUrl + "?" + params + "&page=1" == PageLink(baseUrl, params, 1)
  {
    assert DigitChar(1) == '1';
    assert IntToString(1) == NatToString(1) == [DigitChar(1)];
    assert "&page=" + "1" == "&page=1";
  }

  /** `buildLinks`: the parameter string and the map built step by step. */
  method BuildLinks(baseUri: string, query: Option<string>, sort: string, direction: string,
                    page: int32, size: int32, totalPages: int64) returns (links: map<string, string>)
    ensures links == Links(baseUri, query, sort, direction, page, size, totalPages)
  {
    links := map[];
    var baseUrl := baseUri + "books/search";
    var params := "";
    if query.Some? && !IsBlank(query.value) {
      params := params + "q=" + query.value + "&";
    }
    ghost var prefix := params;
    params := params + ("sort=" + sort + "&direction=" + direction + "&size=" + IntToString(size as int));
    assert baseUrl == SearchUrl(baseUri) && params == Params(query, sort, direction, size) by {
      if query.Some? && !IsBlank(query.value) {
        assert prefix == "q=" + query.value + "&";
      } else {
        assert prefix == [];
      }
    }
    links := links["self" := baseUrl + "?" + params + "&page=" + IntToString(page as int)];
    links := links["first" := baseUrl + "?" + params + "&page=1"];
    FirstPageLink(baseUrl, params);
    links := links["last" := baseUrl + "?" + params + "&page=" + IntToString(totalPages as int)];
    ghost var withEnds := links;
    assert withEnds == map[]["self" := PageLink(baseUrl, params, page as int)]
                            ["first" := PageLink(baseUrl, params, 1)]
                            ["last" := PageLink(baseUrl, params, totalPages as int)];
    if page > 1 {
      links := links["prev" := baseUrl + "?" + params + "&page=" + IntToString(page - 1)];
    }
    ghost var withPrev := links;
    assert withPrev == if page > 1 then withEnds["prev" := PageLink(baseUrl, params, page - 1)] else withEnds;
    if page < totalPages {
      links := links["next" := baseUrl + "?" + params + "&page=" + IntToString(WrapInt32(page + 1) as int)];
    }
    assert links == if page < totalPages then withPrev["next" := PageLink(baseUrl, params, NextPage(page) as int)]
                    else withPrev;
    links := links["books" := baseUri + "books"];
  }

  /** `from`: every book converted by `represent`, in order; the pagination
      figures copied verbatim; the links of `Links`. */
  function From<B, R>(books: seq<B>, represent: B -> R, baseUri: string, query: Option<string>,
                      sort: string, direction: string, page: int32, size: int32,
                      totalElements: int64, totalPages: int64): (r: SearchBookResponse<R>)
    ensures |r.books| == |books|
    ensures forall i :: 0 <= i < |books| ==> r.books[i] == represent(books[i])
    ensures r.pagination.page == page && r.pagination.size == size
    ensures r.pagination.totalElements == totalElements && r.pagination.totalPages == totalPages
    ensures r.links == Links(baseUri, query, sort, direction, page, size, totalPages)
  {
    SearchBookResponse(
      seq(|books|, i requires 0 <= i < |books| => represent(books[i])),
      PaginationMetadata(page, size, totalElements, totalPages),
      Links(baseUri, query, sort, direction, page, size, totalPages))
  }
}
