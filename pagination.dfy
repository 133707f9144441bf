/**
 * `PaginationHandler` (modules/pagination_csv.py): a page cursor over a base
 * URL. `get_next_page_url` rewrites the `page` query parameter,
 * `detect_pagination` reads the page count off the last pagination link, and
 * `scrape_all_pages` fetches pages until the cursor passes the count.
 */
module Pagination {
  import opened Wrappers
  import opened Text
  import opened Html
  import opened Urls

  /** What `session.get(None)` raises when the cursor has no URL. */
  const NoUrl := "Invalid URL 'None': No scheme supplied. Perhaps you meant https://None?"
  /** What `urlunparse` raises on the bytes result `urlparse(None)` gives once a
      text query is put into it. */
  const MixedUrlParts := "TypeError: Cannot mix str and non-str arguments"
  const MissingHref := "KeyError: 'href'"
  const PageNotANumber := "ValueError: invalid literal for int()"

  /** `url` with its `page` parameter set to `n`. */
  function PageUrl(url: string, n: int): string
  {
    WithParam(url, "page", [IntToString(n)])
  }

  /** The `page` parameter and a rendered page number are safe query text. */
  lemma PageParamSafe(n: int)
    ensures SafeKey("page") && SafeValues([IntToString(n)])
  {
    var s := IntToString(n);
    assert forall k :: 0 <= k < |s| ==> s[k] != '&' && s[k] != '#';
  }

  /** The page URL keeps everything before the query and the fragment, and its
      query is the base URL's with `page` assigned `[str(n)]`. */
  lemma PageUrlKeepsParts(url: string, n: int)
    ensures var u := SplitUrl(url);
      var u' := SplitUrl(PageUrl(url, n));
      && u'.head == u.head && u'.fragment == u.fragment
      && ParseQs(u'.query) == SetParam(ParseQs(u.query), "page", [IntToString(n)])
  {
    PageParamSafe(n);
    WithParamParts(url, "page", [IntToString(n)]);
  }

  /** In the page URL's query, `page` is exactly `[str(n)]`, every other
      parameter is as in the base URL, and `page` is added last if it was absent. */
  lemma PageUrlParams(url: string, n: int, other: string)
    ensures var q := ParseQs(SplitUrl(url).query);
      var q' := ParseQs(SplitUrl(PageUrl(url, n)).query);
      && Lookup(q', "page") == Some([IntToString(n)])
      && (other != "page" ==> Lookup(q', other) == Lookup(q, other))
      && Keys(q') == (if Fresh(q, "page") then Keys(q) + ["page"] else Keys(q))
  {
    var u := SplitUrl(url);
    var q := ParseQs(u.query);
    PageUrlKeepsParts(url, n);
    SetParamLookup(q, "page", [IntToString(n)], other);
    SplitUrlWellFormed(url);
    ParseQsWellFormed(u.query);
    SetParamKeys(q, "page", [IntToString(n)]);
  }

  /** Re-paging a page URL is paging the original URL. */
  lemma PageUrlTwice(url: string, m: int, n: int)
    ensures PageUrl(PageUrl(url, m), n) == PageUrl(url, n)
  {
    PageParamSafe(m);
    PageParamSafe(n);
    WithParamTwice(url, "page", [IntToString(m)], [IntToString(n)]);
  }

  /** A page URL is never empty: its query holds at least the `page` field. */
  lemma PageUrlNonEmpty(url: string, n: int)
    ensures PageUrl(url, n) != ""
  {
    var u := SplitUrl(url);
    var q := SetParam(ParseQs(u.query), "page", [IntToString(n)]);
    PageParamSafe(n);
    SplitUrlWellFormed(url);
    ParseQsWellFormed(u.query);
    SetParamWellFormed(ParseQs(u.query), "page", [IntToString(n)]);
    SetParamLookup(ParseQs(u.query), "page", [IntToString(n)], "page");
    EncodeParseRoundTrip(q);
    ParseQsEmpty();
    assert ParseQs(Encode(q)) != ParseQs("");
  }

  /** `get_next_page_url` from a cursor with a URL. */
  function NextPage(url: string, currentPage: int, totalPages: int): Option<string>
  {
    if currentPage >= totalPages then None else Some(PageUrl(url, currentPage + 1))
  }

  /** There is a next page exactly while the cursor is before the last page. */
  lemma NextPageExists(url: string, currentPage: int, totalPages: int)
    ensures NextPage(url, currentPage, totalPages).None? <==> currentPage >= totalPages
    ensures NextPage(url, currentPage, totalPages).Some? ==>
      Lookup(ParseQs(SplitUrl(NextPage(url, currentPage, totalPages).value).query), "page") == Some([IntToString(currentPage + 1)])
  {
    if currentPage < totalPages {
      PageUrlParams(url, currentPage + 1, "page");
    }
  }

  /** The page count a pagination link announces: `int(query['page'][0])` when
      its query has a `page` parameter, nothing when it has none. */
  function TotalFromLink(href: string): Result<Option<int>>
  {
    var query := SplitUrl(href).query;
    SplitUrlWellFormed(href);
    ParseQsWellFormed(query);
    match Lookup(ParseQs(query), "page")
    case None => Ok(None)
    case Some(values) =>
      match ParseInt(values[0])
      case None => Err(PageNotANumber)
      case Some(n) => Ok(Some(n))
  }

  /** A link to page `n` built by `get_next_page_url` announces `n` pages. */
  lemma TotalFromPageUrl(url: string, n: int)
    ensures TotalFromLink(PageUrl(url, n)) == Ok(Some(n))
  {
    PageUrlParams(url, n, "page");
    ParseIntOfIntToString(n);
  }

  /** The page URL's `page` parameter is `[str(n)]`. */
  lemma PageUrlPage(url: string, n: int)
    ensures Lookup(ParseQs(SplitUrl(PageUrl(url, n)).query), "page") == Some([IntToString(n)])
  {
    PageUrlParams(url, n, "page");
  }

  /** The state `scrape_all_pages` ends in: its result, the URL field and the cursor. */
  datatype RunState = RunState(result: Result<seq<Element>>, baseUrl: Option<string>, currentPage: int)

  /**
   * `scrape_all_pages` from a state: fetch the URL while the cursor is at most
   * the page count, advance the cursor, move to the next page URL and stop when
   * there is none. A failed fetch ends the run with its error.
   */
  function Run(baseUrl: Option<string>, currentPage: int, totalPages: int,
               fetch: string -> Result<seq<Element>>): RunState
    decreases if currentPage <= totalPages then totalPages - currentPage + 1 else 0
  {
    if currentPage > totalPages then RunState(Ok([]), baseUrl, currentPage)
    else
      var page := if baseUrl.Some? then fetch(baseUrl.value) else Err(NoUrl);
      if page.Err? then RunState(Err(page.message), baseUrl, currentPage)
      else
        var next := NextPage(baseUrl.value, currentPage + 1, totalPages);
        if next.None? || next.value == "" then RunState(Ok(page.value), next, currentPage + 1)
        else
          var rest := Run(next, currentPage + 1, totalPages, fetch);
          rest.(result := if rest.result.Ok? then Ok(page.value + rest.result.value) else rest.result)
  }

  /** A run's result with `done` fetched before it. */
  function After(done: seq<Element>, s: RunState): RunState
  {
    s.(result := if s.result.Ok? then Ok(done + s.result.value) else s.result)
  }

  /** One successful fetch followed by a next page: the run goes on from there. */
  lemma RunStep(url: string, currentPage: int, totalPages: int, fetch: string -> Result<seq<Element>>)
    requires currentPage <= totalPages && fetch(url).Ok?
    requires var next := NextPage(url, currentPage + 1, totalPages); next.Some? && next.value != ""
    ensures Run(Some(url), currentPage, totalPages, fetch)
         == After(fetch(url).value, Run(NextPage(url, currentPage + 1, totalPages), currentPage + 1, totalPages, fetch))
  {
  }

  /** A fetch that fails, or a cursor with no URL, ends the run with that error. */
  lemma RunFails(baseUrl: Option<string>, currentPage: int, totalPages: int, fetch: string -> Result<seq<Element>>)
    requires currentPage <= totalPages && (baseUrl.None? || fetch(baseUrl.value).Err?)
    ensures Run(baseUrl, currentPage, totalPages, fetch)
         == RunState(Err(if baseUrl.Some? then fetch(baseUrl.value).message else NoUrl), baseUrl, currentPage)
  {
  }

  /** A successful fetch with no next page ends the run with that page. */
  lemma RunLast(url: string, currentPage: int, totalPages: int, fetch: string -> Result<seq<Element>>)
    requires currentPage <= totalPages && fetch(url).Ok?
    requires var next := NextPage(url, currentPage + 1, totalPages); next.None? || next.value == ""
    ensures Run(Some(url), currentPage, totalPages, fetch)
         == RunState(Ok(fetch(url).value), NextPage(url, currentPage + 1, totalPages), currentPage + 1)
  {
  }

  lemma AfterAfter(a: seq<Element>, b: seq<Element>, s: RunState)
    ensures After(a, After(b, s)) == After(a + b, s)
  {
    if s.result.Ok? {
      assert a + (b + s.result.value) == (a + b) + s.result.value;
    }
  }

  class PaginationHandler {
    var baseUrl: Option<string>
    var currentPage: int
    var totalPages: int

    constructor (url: string)
      ensures baseUrl == Some(url) && currentPage == 1 && totalPages == 1
    {
      baseUrl := Some(url);
      currentPage := 1;
      totalPages := 1;
    }

    /** `get_next_page_url` on the handler's fields; with no URL, rebuilding it raises. */
    function GetNextPageUrl(): (r: Result<Option<string>>)
      reads this
      ensures currentPage >= totalPages ==> r == Ok(None)
      ensures currentPage < totalPages && baseUrl.Some? ==> r == Ok(NextPage(baseUrl.value, currentPage, totalPages))
      ensures currentPage < totalPages && baseUrl.None? ==> r.Err?
    {
      if currentPage >= totalPages then Ok(None)
      else if baseUrl.None? then Err(MixedUrlParts)
      else Ok(Some(PageUrl(baseUrl.value, currentPage + 1)))
    }

    /** `detect_pagination`, given the links the pagination selector matched. */
    method DetectPagination(links: seq<Element>) returns (r: Result<bool>)
      modifies this
      ensures baseUrl == old(baseUrl) && currentPage == old(currentPage)
      ensures links == [] ==> r == Ok(false) && totalPages == old(totalPages)
      ensures links != [] && "href" !in links[|links| - 1].attrs ==>
        r == Err(MissingHref) && totalPages == old(totalPages)
      ensures links != [] && "href" in links[|links| - 1].attrs ==>
        var t := TotalFromLink(links[|links| - 1].attrs["href"]);
        && (t.Err? ==> r == Err(t.message) && totalPages == old(totalPages))
        && (t.Ok? ==> r == Ok(true) && totalPages == t.value.GetOr(old(totalPages)))
    {
      if links == [] {
        return Ok(false);
      }
      var last := links[|links| - 1];
      if "href" !in last.attrs {
        return Err(MissingHref);
      }
      r := ApplyTotal(TotalFromLink(last.attrs["href"]));
    }

    /** The end of `detect_pagination`, once the last link's page count is read. */
    method ApplyTotal(t: Result<Option<int>>) returns (r: Result<bool>)
      modifies this
      ensures baseUrl == old(baseUrl) && currentPage == old(currentPage)
      ensures t.Err? ==> r == Err(t.message) && totalPages == old(totalPages)
      ensures t.Ok? ==> r == Ok(true) && totalPages == t.value.GetOr(old(totalPages))
    {
      match t
      case Err(message) => r := Err(message);
      case Ok(total) =>
        if total.Some? {
          totalPages := total.value;
        }
        r := Ok(true);
    }

    /** One round of `scrape_all_pages`: fetch the current URL, advance the
        cursor and move to the next page URL. */
    method Step(fetch: string -> Result<seq<Element>>) returns (page: Result<seq<Element>>)
      requires currentPage <= totalPages
      modifies this
      ensures totalPages == old(totalPages)
      ensures page.Err? ==>
        && baseUrl == old(baseUrl) && currentPage == old(currentPage)
        && Run(old(baseUrl), old(currentPage), totalPages, fetch) == RunState(Err(page.message), baseUrl, currentPage)
      ensures page.Ok? ==> currentPage == old(currentPage) + 1
      ensures page.Ok? && (baseUrl.None? || baseUrl.value == "") ==>
        Run(old(baseUrl), old(currentPage), totalPages, fetch) == RunState(Ok(page.value), baseUrl, currentPage)
      ensures page.Ok? && baseUrl.Some? && baseUrl.value != "" ==>
        Run(old(baseUrl), old(currentPage), totalPages, fetch) == After(page.value, Run(baseUrl, currentPage, totalPages, fetch))
    {
      var url, cursor := baseUrl, currentPage;
      page := if url.Some? then fetch(url.value) else Err(NoUrl);
      if page.Err? {
        RunFails(url, cursor, totalPages, fetch);
        return;
      }
      var next := NextPage(url.value, cursor + 1, totalPages);
      if next.None? || next.value == "" {
        RunLast(url.value, cursor, totalPages, fetch);
      } else {
        RunStep(url.value, cursor, totalPages, fetch);
      }
      currentPage, baseUrl := cursor + 1, next;
    }

    /** `scrape_all_pages`, with `fetch` standing for `scrape_page`. */
    method ScrapeAllPages(fetch: string -> Result<seq<Element>>) returns (r: Result<seq<Element>>)
      modifies this
      ensures totalPages == old(totalPages)
      ensures RunState(r, baseUrl, currentPage) == Run(old(baseUrl), old(currentPage), old(totalPages), fetch)
    {
      var allData: seq<Element> := [];
      ghost var goal := Run(baseUrl, currentPage, totalPages, fetch);
      assert goal.result.Ok? ==> [] + goal.result.value == goal.result.value;
      while currentPage <= totalPages
        invariant totalPages == old(totalPages)
        invariant After(allData, Run(baseUrl, currentPage, totalPages, fetch)) == goal
        decreases totalPages - currentPage
      {
        ghost var before := allData;
        var page := Step(fetch);
        if page.Err? {
          return Err(page.message);
        }
        allData := allData + page.value;
        if baseUrl.None? || baseUrl.value == "" {
          return Ok(allData);
        }
        AfterAfter(before, page.value, Run(baseUrl, currentPage, totalPages, fetch));
      }
      assert allData + [] == allData;
      return Ok(allData);
    }
  }

  /** The URLs a run fetches when every fetch succeeds, `page(u, n)` being the
      URL `u` with its page set to `n`: the base URL, then the URLs for
      `c + 2`, `c + 3`, … `T`, each built from the one before. */
  function Pages(url: string, currentPage: int, totalPages: int, page: (string, int) -> string): seq<string>
    decreases if currentPage <= totalPages then totalPages - currentPage + 1 else 0
  {
    if currentPage > totalPages then []
    else if currentPage + 1 >= totalPages then [url]
    else [url] + Pages(page(url, currentPage + 2), currentPage + 1, totalPages, page)
  }

  /** The URLs `scrape_all_pages` fetches. */
  function Visited(url: string, currentPage: int, totalPages: int): seq<string>
  {
    Pages(url, currentPage, totalPages, PageUrl)
  }

  /** Everything the given URLs yield, in order, when every fetch succeeds. */
  function Collected(urls: seq<string>, fetch: string -> Result<seq<Element>>): seq<Element>
    requires forall i :: 0 <= i < |urls| ==> fetch(urls[i]).Ok?
  {
    if urls == [] then [] else fetch(urls[0]).value + Collected(urls[1..], fetch)
  }

  /**
   * When every fetch succeeds, a run from a cursor at most the page count
   * returns the concatenation of the pages of `Visited`, in fetch order, and
   * ends with no URL and the cursor at `max(current + 1, total)`.
   */
  lemma {:induction false} RunCollects(url: string, currentPage: int, totalPages: int,
                                       fetch: string -> Result<seq<Element>>)
    requires currentPage <= totalPages
    requires forall i :: 0 <= i < |Visited(url, currentPage, totalPages)| ==> fetch(Visited(url, currentPage, totalPages)[i]).Ok?
    ensures Run(Some(url), currentPage, totalPages, fetch)
         == RunState(Ok(Collected(Visited(url, currentPage, totalPages), fetch)), None,
                     if currentPage + 1 >= totalPages then currentPage + 1 else totalPages)
    decreases totalPages - currentPage
  {
    var v := Visited(url, currentPage, totalPages);
    if currentPage + 1 < totalPages {
      var next := PageUrl(url, currentPage + 2);
      PageUrlNonEmpty(url, currentPage + 2);
      var rest := Visited(next, currentPage + 1, totalPages);
      VisitedStep(url, currentPage, totalPages);
      assert v == [url] + rest;
      assert fetch(v[0]).Ok?;
      assert forall i :: 0 <= i < |rest| ==> rest[i] == v[i + 1];
      RunCollects(next, currentPage + 1, totalPages, fetch);
      RunStep(url, currentPage, totalPages, fetch);
      assert v[1..] == rest;
      assert Collected(v, fetch) == fetch(url).value + Collected(rest, fetch);
    } else {
      assert v == [url];
      assert fetch(v[0]).Ok?;
      RunLast(url, currentPage, totalPages, fetch);
      assert Collected(v, fetch) == fetch(url).value + Collected([], fetch);
      assert fetch(url).value + [] == fetch(url).value;
    }
  }

  /** A run from a cursor past the page count fetches nothing and changes nothing. */
  lemma RunPastEnd(baseUrl: Option<string>, currentPage: int, totalPages: int,
                   fetch: string -> Result<seq<Element>>)
    requires currentPage > totalPages
    ensures Run(baseUrl, currentPage, totalPages, fetch) == RunState(Ok([]), baseUrl, currentPage)
    ensures Visited("", currentPage, totalPages) == []
  {
  }


  /**
   * The pages visited from page `c` of `T`: the base URL, then the base URL
   * with `page` set to `c + 2`, …, `T`. From a fresh handler (`c = 1`) page 2
   * is skipped: for `T >= 2` the run fetches `T - 1` pages, for `T = 1` one.
   */
  lemma VisitedPages(url: string, currentPage: int, totalPages: int)
    requires currentPage <= totalPages
    ensures var v := Visited(url, currentPage, totalPages);
      && |v| == (if currentPage + 1 >= totalPages then 1 else totalPages - currentPage)
      && v[0] == url
      && forall i :: 1 <= i < |v| ==> v[i] == PageUrl(url, currentPage + 1 + i)
  {
    PagesLength(url, currentPage, totalPages, PageUrl);
    PagesHead(url, currentPage, totalPages, PageUrl);
    forall u, m, n ensures PageUrl(PageUrl(u, m), n) == PageUrl(u, n) {
      PageUrlTwice(u, m, n);
    }
    var v := Visited(url, currentPage, totalPages);
    forall i | 1 <= i < |v|
      ensures v[i] == PageUrl(url, currentPage + 1 + i)
    {
      PagesAt(url, currentPage, totalPages, PageUrl, i);
    }
  }

  /** One visited URL per page from `c + 1` to `T`, and at least the base URL. */
  lemma {:induction false} PagesLength(url: string, currentPage: int, totalPages: int, page: (string, int) -> string)
    requires currentPage <= totalPages
    ensures |Pages(url, currentPage, totalPages, page)| == (if currentPage + 1 >= totalPages then 1 else totalPages - currentPage)
    decreases totalPages - currentPage
  {
    if currentPage + 1 < totalPages {
      PagesLength(page(url, currentPage + 2), currentPage + 1, totalPages, page);
    }
  }

  /** The first visited URL is the base URL. */
  lemma PagesHead(url: string, currentPage: int, totalPages: int, page: (string, int) -> string)
    requires currentPage <= totalPages
    ensures Pages(url, currentPage, totalPages, page) != []
    ensures Pages(url, currentPage, totalPages, page)[0] == url
  {
  }

  /** Each later visited URL is the one before it paged to the next page number. */
  lemma {:induction false} PagesStep(url: string, currentPage: int, totalPages: int, page: (string, int) -> string, i: int)
    requires currentPage <= totalPages
    requires 1 <= i < |Pages(url, currentPage, totalPages, page)|
    ensures Pages(url, currentPage, totalPages, page)[i]
         == page(Pages(url, currentPage, totalPages, page)[i - 1], currentPage + 1 + i)
    decreases i
  {
    var next := page(url, currentPage + 2);
    var rest := Pages(next, currentPage + 1, totalPages, page);
    assert Pages(url, currentPage, totalPages, page) == [url] + rest;
    PagesHead(next, currentPage + 1, totalPages, page);
    if i > 1 {
      PagesStep(next, currentPage + 1, totalPages, page, i - 1);
    }
  }

  /** Where re-paging is paging, the `i`-th visited URL is the base URL paged to `c + 1 + i`. */
  lemma {:induction false} PagesAt(url: string, currentPage: int, totalPages: int, page: (string, int) -> string, i: int)
    requires currentPage <= totalPages
    requires 1 <= i < |Pages(url, currentPage, totalPages, page)|
    requires forall u, m, n :: page(page(u, m), n) == page(u, n)
    ensures Pages(url, currentPage, totalPages, page)[i] == page(url, currentPage + 1 + i)
    decreases i
  {
    PagesStep(url, currentPage, totalPages, page, i);
    if i == 1 {
      PagesHead(url, currentPage, totalPages, page);
    } else {
      PagesAt(url, currentPage, totalPages, page, i - 1);
    }
  }

  lemma VisitedStep(url: string, currentPage: int, totalPages: int)
    requires currentPage + 1 < totalPages
    ensures Visited(url, currentPage, totalPages)
         == [url] + Visited(PageUrl(url, currentPage + 2), currentPage + 1, totalPages)
  {
  }

  /** From a fresh handler the fetched pages are the base URL, then `page=3` … `page=T`. */
  lemma FreshHandlerSkipsPageTwo(url: string, totalPages: int)
    requires totalPages >= 1
    ensures var v := Visited(url, 1, totalPages);
      && |v| == (if totalPages == 1 then 1 else totalPages - 1)
      && v[0] == url
      && (forall i :: 1 <= i < |v| ==> v[i] == PageUrl(url, i + 2))
      && (forall i :: 1 <= i < |v| ==>
            Lookup(ParseQs(SplitUrl(v[i]).query), "page") == Some([IntToString(i + 2)]))
  {
    VisitedPages(url, 1, totalPages);
    var v := Visited(url, 1, totalPages);
    forall i | 1 <= i < |v|
      ensures Lookup(ParseQs(SplitUrl(v[i]).query), "page") == Some([IntToString(i + 2)])
    {
      assert v[i] == PageUrl(url, i + 2);
      PageUrlPage(url, i + 2);
    }
  }
}
