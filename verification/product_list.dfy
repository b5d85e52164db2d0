/** The product list: the infinite query that loads one page of the listing
    after another while the sentinel below the list is in view, and the
    request parameters each load sends.

    The server side of every load is the repository's `findAll` on a fixed
    collection: the reply's `data` and `hasMore` are the page's products and
    its `hasMore` flag, as the listing endpoint passes them through. */
module ProductList {
  import opened Wrappers
  import opened Records
  import opened QuerySchema
  import opened ProductsRepository

  // ---------------------------------------------------------------------
  // Request parameters

  /** A value of the request's parameter object: the page number the query
      adds, or a string or list of strings from the URL's search params. */
  datatype Param = PageNumber(n: nat) | Text(s: string) | List(items: seq<string>)

  /** `{ ...base, ...src }`: the keys of `src` assigned one after the other. */
  function Spread(base: Rec<Param>, src: Rec<Param>): Rec<Param>
    decreases |src|
  {
    if |src| == 0 then base
    else Set(Spread(base, src[..|src| - 1]), src[|src| - 1].0, src[|src| - 1].1)
  }

  /** After a spread a key reads as in `src` when `src` has it, and as in
      `base` otherwise. */
  lemma {:induction false} SpreadGet(base: Rec<Param>, src: Rec<Param>, k: string)
    ensures Get(Spread(base, src), k) == if k in Keys(src) then Get(src, k) else Get(base, k)
    decreases |src|
  {
    if |src| > 0 {
      var n := |src| - 1;
      SpreadGet(base, src[..n], k);
      KeysSnoc(src);
    }
  }

  /** The keys of `base` keep their places at the front of a spread. */
  lemma {:induction false} SpreadKeepsBase(base: Rec<Param>, src: Rec<Param>)
    ensures |Spread(base, src)| >= |base|
    ensures Keys(Spread(base, src))[..|base|] == Keys(base)
    decreases |src|
  {
    if |src| > 0 {
      var n := |src| - 1;
      SpreadKeepsBase(base, src[..n]);
      var before := Spread(base, src[..n]);
      var key := src[n].0;
      if key !in Keys(before) {
        assert (Keys(before) + [key])[..|base|] == Keys(before)[..|base|];
      }
    }
  }

  /** `{ page: pageParam, ...searchParams }`, the `params` of the request. */
  function RequestParams(pageParam: nat, search: Rec<Param>): Rec<Param> {
    Spread([("page", PageNumber(pageParam))], search)
  }

  /** The request carries `page` as its first key, with the page the query
      asks for unless the search params have a `page` of their own, which
      then wins; every other key is the search params' own. */
  lemma RequestParamsMeaning(pageParam: nat, search: Rec<Param>, k: string)
    ensures Keys(RequestParams(pageParam, search))[0] == "page"
    ensures Get(RequestParams(pageParam, search), "page") ==
      if "page" in Keys(search) then Get(search, "page") else Some(PageNumber(pageParam))
    ensures k != "page" ==> Get(RequestParams(pageParam, search), k) == Get(search, k)
  {
    SpreadGet([("page", PageNumber(pageParam))], search, k);
    SpreadGet([("page", PageNumber(pageParam))], search, "page");
    SpreadKeepsBase([("page", PageNumber(pageParam))], search);
    var r := RequestParams(pageParam, search);
    assert Keys([("page", PageNumber(pageParam))]) == ["page"];
    assert Keys(r)[..1] == ["page"];
    if k != "page" && k !in Keys(search) {
      assert Get([("page", PageNumber(pageParam))], k) == None;
    }
  }

  /** With a `page` in the URL every load asks for that same page, whatever
      page the infinite query is at. */
  lemma UrlPagePinsEveryLoad(p1: nat, p2: nat, search: Rec<Param>, k: string)
    requires "page" in Keys(search)
    ensures Get(RequestParams(p1, search), k) == Get(RequestParams(p2, search), k)
  {
    RequestParamsMeaning(p1, search, k);
    RequestParamsMeaning(p2, search, k);
  }

  // ---------------------------------------------------------------------
  // The infinite query

  const InitialPageParam: nat := 1

  /** The part of a listing reply the list reads. */
  datatype Response = Response(data: Store, hasMore: bool)

  /** `getNextPageParam(lastPage, allPages)`: one past the number of pages
      loaded when the last one says more exist, and `undefined` otherwise.
      It is only asked once a page is loaded. */
  function NextPageParam(pages: seq<Response>): (r: Option<nat>)
    requires |pages| > 0
  {
    if pages[|pages| - 1].hasMore then Some(|pages| + 1) else None
  }

  /** The guard of `fetchNextPage()`: the sentinel is in view, there is a next
      page, and none is being fetched. */
  function ShouldFetch(inView: bool, hasNextPage: bool, isFetchingNextPage: bool): bool {
    inView && hasNextPage && !isFetchingNextPage
  }

  /** A load requested while one is in flight, with the sentinel out of view,
      or after the last page, does nothing; otherwise the next page loads. */
  lemma ShouldFetchIff(inView: bool, pages: seq<Response>, isFetchingNextPage: bool)
    requires |pages| > 0
    ensures ShouldFetch(inView, NextPageParam(pages).Some?, isFetchingNextPage) <==>
      inView && !isFetchingNextPage && pages[|pages| - 1].hasMore
  {
  }

  /** The reply to the load of page `p`, under the query's filter. */
  function Fetch(store: Store, q: Query, text: TextMatch, p: nat): (r: Response)
    requires p > 0 && q.limit > 0
  {
    var page := FindAll(store, q.(page := p), text);
    Response(page.products, page.hasMore)
  }

  /** The matches of the query's filter, in store order. */
  function Matches(store: Store, q: Query, text: TextMatch): Store {
    Select(store, BuildFilterQuery(q.filter), text)
  }

  /** Pages 1 to `k`, in order. */
  function Pages(store: Store, q: Query, text: TextMatch, k: nat): (r: seq<Response>)
    requires q.limit > 0
    ensures |r| == k
    ensures forall i :: 0 <= i < k ==> r[i] == Fetch(store, q, text, i + 1)
  {
    if k == 0 then [] else Pages(store, q, text, k - 1) + [Fetch(store, q, text, k)]
  }

  /** The pages loaded after `steps` successful calls of `fetchNextPage`: the
      first page at `initialPageParam`, then each time the page
      `getNextPageParam` names, as long as it names one. */
  function Load(store: Store, q: Query, text: TextMatch, steps: nat): (r: seq<Response>)
    requires q.limit > 0
    ensures |r| > 0
  {
    if steps == 0 then [Fetch(store, q, text, InitialPageParam)]
    else
      var pages := Load(store, q, text, steps - 1);
      match NextPageParam(pages)
      case None => pages
      case Some(p) => pages + [Fetch(store, q, text, p)]
  }

  /** The products the list shows: the `data` of every page, in page order. */
  function Shown(pages: seq<Response>): Store
    decreases |pages|
  {
    if |pages| == 0 then [] else Shown(pages[..|pages| - 1]) + pages[|pages| - 1].data
  }

  /** One more load appends the page `getNextPageParam` names, if any. */
  lemma LoadStep(store: Store, q: Query, text: TextMatch, steps: nat)
    requires q.limit > 0 && steps > 0
    ensures var pages := Load(store, q, text, steps - 1);
      Load(store, q, text, steps) ==
        if pages[|pages| - 1].hasMore then pages + [Fetch(store, q, text, |pages| + 1)] else pages
  {
  }

  lemma PagesStep(store: Store, q: Query, text: TextMatch, k: nat)
    requires q.limit > 0
    ensures Pages(store, q, text, k + 1) == Pages(store, q, text, k) + [Fetch(store, q, text, k + 1)]
  {
  }

  /** The pages loaded are pages 1, 2, ... in order: the `n`-th page loaded is
      the one the server numbers `n`, and no page is loaded twice. While more
      pages are offered every load has added one. */
  lemma {:induction false} LoadIsPages(store: Store, q: Query, text: TextMatch, steps: nat)
    requires q.limit > 0
    ensures Load(store, q, text, steps) == Pages(store, q, text, |Load(store, q, text, steps)|)
    ensures |Load(store, q, text, steps)| <= steps + 1
    ensures NextPageParam(Load(store, q, text, steps)).Some? ==> |Load(store, q, text, steps)| == steps + 1
  {
    if steps == 0 {
      PagesStep(store, q, text, 0);
    } else {
      LoadIsPages(store, q, text, steps - 1);
      LoadStep(store, q, text, steps);
      PagesStep(store, q, text, |Load(store, q, text, steps - 1)|);
    }
  }

  /** Page `p` with `limit` matches per page starts where page `p - 1` ended. */
  lemma PageWindow(store: Store, q: Query, text: TextMatch, p: nat)
    requires p > 0 && q.limit > 0
    ensures var m := Matches(store, q, text);
      var from := (p - 1) * q.limit;
      Fetch(store, q, text, p).data == if from >= |m| then [] else m[from..Min(p * q.limit, |m|)]
  {
    FindAllWindow(store, q.(page := p), text);
    assert (p - 1) * q.limit + q.limit == p * q.limit;
  }

  lemma ShownStep(pages: seq<Response>, last: Response)
    ensures Shown(pages + [last]) == Shown(pages) + last.data
  {
    assert (pages + [last])[..|pages|] == pages;
  }

  /** A prefix of `m` followed by the window after it is the longer prefix. */
  lemma PrefixThenWindow(m: Store, from: nat, to: nat, window: Store)
    requires from <= to
    requires window == if from >= |m| then [] else m[from..Min(to, |m|)]
    ensures m[..Min(from, |m|)] + window == m[..Min(to, |m|)]
  {
    if from < |m| {
      assert m[..from] + m[from..Min(to, |m|)] == m[..Min(to, |m|)];
    }
  }

  /** Pages 1 to `k` together show the first `k * limit` matches, in store
      order, with none missing and none repeated. */
  lemma {:induction false} PagesShowPrefix(store: Store, q: Query, text: TextMatch, k: nat)
    requires q.limit > 0
    ensures Shown(Pages(store, q, text, k)) == Matches(store, q, text)[..Min(k * q.limit, |Matches(store, q, text)|)]
  {
    if k > 0 {
      PagesShowPrefix(store, q, text, k - 1);
      PagesStep(store, q, text, k - 1);
      ShownStep(Pages(store, q, text, k - 1), Fetch(store, q, text, k));
      PageWindow(store, q, text, k);
      MultiplyMonotone(k - 1, k, q.limit);
      PrefixThenWindow(Matches(store, q, text), (k - 1) * q.limit, k * q.limit, Fetch(store, q, text, k).data);
    }
  }

  /** More pages are offered exactly while the pages loaded hold fewer than
      all the matches. */
  lemma NextPageIffMore(store: Store, q: Query, text: TextMatch, steps: nat)
    requires q.limit > 0
    ensures var n := |Load(store, q, text, steps)|;
      NextPageParam(Load(store, q, text, steps)).Some? <==> n * q.limit < |Matches(store, q, text)|
  {
    LoadIsPages(store, q, text, steps);
  }

  /** A page offered as next is never empty, and the page after the last one
      offered would be. */
  lemma NextPageNonEmpty(store: Store, q: Query, text: TextMatch, k: nat)
    requires k > 0 && q.limit > 0
    ensures Fetch(store, q, text, k).hasMore ==> |Fetch(store, q, text, k + 1).data| > 0
    ensures !Fetch(store, q, text, k).hasMore ==> Fetch(store, q, text, k + 1).data == []
  {
    PageWindow(store, q, text, k + 1);
    var m := Matches(store, q, text);
    assert (k + 1 - 1) * q.limit == k * q.limit;
    if Fetch(store, q, text, k).hasMore {
      assert k * q.limit < |m|;
      assert k * q.limit < (k + 1) * q.limit;
    }
  }

  /** Scrolling to the end shows every match once, in store order: after as
      many loads as there are matches the list holds them all. */
  lemma LoadShowsAllMatches(store: Store, q: Query, text: TextMatch, steps: nat)
    requires q.limit > 0
    requires steps >= |Matches(store, q, text)|
    ensures Shown(Load(store, q, text, steps)) == Matches(store, q, text)
  {
    var pages := Load(store, q, text, steps);
    var n := |pages|;
    var m := Matches(store, q, text);
    LoadIsPages(store, q, text, steps);
    NextPageIffMore(store, q, text, steps);
    PagesShowPrefix(store, q, text, n);
    MultiplyMonotone(1, q.limit, n);
    assert n * q.limit >= |m|;
    assert Min(n * q.limit, |m|) == |m|;
  }
}
