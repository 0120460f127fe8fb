/** Reading a paginated GitHub collection to its end (Link headers, section 3 of RFC 8288). */
module Pagination {
  import opened Options

  datatype Result<+T> = Ok(value: T) | Err(error: Error)
  datatype Error =
    | LinkInvalid | NextAmbiguous | NextUntrusted | CycleOrLimit | Unavailable | CollectionInvalid
    | TotalChanged | PageTooLarge | CompletionAmbiguous | EmptyPage | Truncated

  datatype Url = Url(scheme: string, host: string, userinfo: bool, path: string, query: string, fragment: string)

  /** One element of a Link header: whether its target is in angle brackets, its relation types
      and its target reference. */
  datatype LinkEntry = LinkEntry(bracketed: bool, relations: set<string>, target: string)

  /** `base` has no trailing slash; `join` resolves a reference against the current URL. */
  datatype Api = Api(base: Url, join: (Url, string) -> Url)

  const NEXT := "next"
  const PAGE_SIZE := 100
  const MAX_PAGES := 100

  // ---------------------------------------------------------------- the next link

  predicate IsPrefix(prefix: string, s: string) {
    |prefix| <= |s| && s[..|prefix|] == prefix
  }

  /** The URL stays on the API origin and under its path. */
  predicate OnOrigin(api: Api, url: Url) {
    && url.scheme == api.base.scheme && url.host == api.base.host
    && !url.userinfo && url.fragment == ""
    && (api.base.path != "" ==> url.path == api.base.path || IsPrefix(api.base.path + "/", url.path))
  }

  function NextTargets(entries: seq<LinkEntry>): seq<string> {
    if entries == [] then []
    else NextTargets(entries[..|entries| - 1])
         + if NEXT in entries[|entries| - 1].relations then [entries[|entries| - 1].target] else []
  }

  function NextLink(api: Api, entries: seq<LinkEntry>, current: Url): (next: Result<Option<Url>>)
    ensures next.Ok? && next.value.Some? ==> OnOrigin(api, next.value.value)
  {
    if exists entry <- entries :: !entry.bracketed then Err(LinkInvalid)
    else
      var targets := NextTargets(entries);
      if |targets| > 1 then Err(NextAmbiguous)
      else if targets == [] then Ok(None)
      else
        var candidate := api.join(current, targets[0]);
        if OnOrigin(api, candidate) then Ok(Some(candidate)) else Err(NextUntrusted)
  }

  /** `parse_next_link`. */
  method ParseNextLink(api: Api, entries: seq<LinkEntry>, current: Url) returns (next: Result<Option<Url>>)
    ensures next == NextLink(api, entries, current)
  {
    var targets: seq<string> := [];
    for i := 0 to |entries|
      invariant forall j :: 0 <= j < i ==> entries[j].bracketed
      invariant targets == NextTargets(entries[..i])
    {
      assert entries[..i + 1][..i] == entries[..i];
      if !entries[i].bracketed { assert entries[i] in entries; return Err(LinkInvalid); }
      if NEXT in entries[i].relations { targets := targets + [entries[i].target]; }
    }
    assert entries[..|entries|] == entries;
    if |targets| > 1 { return Err(NextAmbiguous); }
    if targets == [] { return Ok(None); }
    var candidate := api.join(current, targets[0]);
    if !OnOrigin(api, candidate) { return Err(NextUntrusted); }
    next := Ok(Some(candidate));
  }

  // ---------------------------------------------------------------- pages

  /** A response body: a bare array, an object with a total and an array, or neither. A missing or
      ill-typed field is `None`. */
  datatype Payload<Item> = Listing(items: seq<Item>) | Container(total: Option<int>, entries: Option<seq<Item>>) | Other
  datatype Response<Item> = Failure | Reply(payload: Payload<Item>, link: seq<LinkEntry>)
  datatype Page<Item> = Page(items: seq<Item>, total: Option<nat>)

  function PageOf<Item>(keyed: bool, payload: Payload<Item>): Option<Page<Item>> {
    if !keyed then
      if payload.Listing? then Some(Page(payload.items, None)) else None
    else if payload.Container? && payload.total.Some? && payload.total.value >= 0 && payload.entries.Some?
    then Some(Page(payload.entries.value, Some(payload.total.value)))
    else None
  }

  function Concat<Item>(pages: seq<Page<Item>>): seq<Item> {
    if pages == [] then [] else Concat(pages[..|pages| - 1]) + pages[|pages| - 1].items
  }

  /** One collection: the API, whether pages declare a total, the first URL, and the server, whose
      answer to request number `n` is `server(n, url)`. */
  datatype Query<!Item> = Query(api: Api, keyed: bool, start: Url, server: (nat, Url) -> Response<Item>)

  /** Request `n` to `url` yields `page` and leads to `next`. */
  ghost predicate Reads<Item>(q: Query<Item>, n: nat, url: Url, page: Page<Item>, next: Option<Url>) {
    && q.server(n, url).Reply?
    && PageOf(q.keyed, q.server(n, url).payload) == Some(page)
    && |page.items| <= PAGE_SIZE
    && NextLink(q.api, q.server(n, url).link, url) == Ok(next)
    && (next.Some? ==> page.items != [])
    && (next.None? && !q.keyed ==> |page.items| != PAGE_SIZE)
  }

  function Following(urls: seq<Url>, i: nat, next: Option<Url>): Option<Url> {
    if i + 1 < |urls| then Some(urls[i + 1]) else next
  }

  /** `urls` are the requests of a walk from the first page towards `next`, `pages` the answers. */
  ghost predicate Walk<Item>(q: Query<Item>, urls: seq<Url>, pages: seq<Page<Item>>, next: Option<Url>) {
    && |urls| == |pages| <= MAX_PAGES
    && (if urls == [] then next == Some(q.start) else urls[0] == q.start)
    && (forall i, j :: 0 <= i < j < |urls| ==> urls[i] != urls[j])
    && (forall i :: 0 <= i < |urls| ==> Reads(q, i, urls[i], pages[i], Following(urls, i, next)))
    && (q.keyed ==> forall i, j :: 0 <= i < j < |pages| ==> pages[i].total == pages[j].total)
  }

  /** A walk to the last page whose declared total, if any, is the number of items read. */
  ghost predicate CompleteWalk<Item>(q: Query<Item>, urls: seq<Url>, pages: seq<Page<Item>>) {
    Walk(q, urls, pages, None) && (q.keyed ==> forall page <- pages :: page.total == Some(|Concat(pages)|))
  }

  ghost predicate NoWalk<Item(!new)>(q: Query<Item>) {
    forall urls, pages :: !CompleteWalk(q, urls, pages)
  }

  /** Every complete walk starts with `urls` and `pages` and goes on at `next`. */
  ghost predicate Leads<Item(!new)>(q: Query<Item>, urls: seq<Url>, pages: seq<Page<Item>>, next: Option<Url>) {
    forall us, ps :: CompleteWalk(q, us, ps) ==> Starts(urls, pages, next, us, ps)
  }

  lemma WalkOnOrigin<Item>(q: Query<Item>, urls: seq<Url>, pages: seq<Page<Item>>, next: Option<Url>)
    requires Walk(q, urls, pages, next)
    ensures forall i :: 0 < i < |urls| ==> OnOrigin(q.api, urls[i])
    ensures urls != [] && next.Some? ==> OnOrigin(q.api, next.value)
  {
    forall i | 0 < i < |urls| ensures OnOrigin(q.api, urls[i]) {
      assert Reads(q, i - 1, urls[i - 1], pages[i - 1], Following(urls, i - 1, next));
    }
    if urls != [] { assert Reads(q, |urls| - 1, urls[|urls| - 1], pages[|urls| - 1], Following(urls, |urls| - 1, next)); }
  }

  lemma WalkExtends<Item>(q: Query<Item>, urls: seq<Url>, pages: seq<Page<Item>>, url: Url, page: Page<Item>, next: Option<Url>)
    requires Walk(q, urls, pages, Some(url))
    requires url !in urls && |urls| < MAX_PAGES && Reads(q, |urls|, url, page, next)
    requires q.keyed && pages != [] ==> page.total == pages[0].total
    ensures Walk(q, urls + [url], pages + [page], next)
  {
    forall i | 0 <= i <= |urls| ensures Reads(q, i, (urls + [url])[i], (pages + [page])[i], Following(urls + [url], i, next)) {
      if i < |urls| { assert Reads(q, i, urls[i], pages[i], Following(urls, i, Some(url))); }
    }
  }

  /** What `Leads` says of one complete walk. */
  ghost predicate Starts<Item>(urls: seq<Url>, pages: seq<Page<Item>>, next: Option<Url>, us: seq<Url>, ps: seq<Page<Item>>) {
    && |us| >= |urls| && us[..|urls|] == urls && |ps| >= |urls| && ps[..|urls|] == pages
    && (if next.None? then |us| == |urls| else |us| > |urls| && us[|urls|] == next.value)
  }

  lemma StartsExtends<Item>(q: Query<Item>, urls: seq<Url>, pages: seq<Page<Item>>, url: Url, page: Page<Item>, next: Option<Url>,
                            us: seq<Url>, ps: seq<Page<Item>>)
    requires Starts(urls, pages, Some(url), us, ps) && |us| == |ps|
    requires Reads(q, |urls|, url, page, next) && Reads(q, |urls|, url, ps[|urls|], Following(us, |urls|, None))
    ensures Starts(urls + [url], pages + [page], next, us, ps)
  {
    var n := |urls|;
    assert us[..n + 1] == us[..n] + [us[n]] && ps[..n + 1] == ps[..n] + [ps[n]];
  }

  lemma WalkReads<Item>(q: Query<Item>, us: seq<Url>, ps: seq<Page<Item>>, n: nat)
    requires CompleteWalk(q, us, ps) && n < |us|
    ensures |us| == |ps| && Reads(q, n, us[n], ps[n], Following(us, n, None))
  {}

  lemma LeadsExtends<Item(!new)>(q: Query<Item>, urls: seq<Url>, pages: seq<Page<Item>>, url: Url, page: Page<Item>, next: Option<Url>)
    requires Leads(q, urls, pages, Some(url)) && Reads(q, |urls|, url, page, next)
    ensures Leads(q, urls + [url], pages + [page], next)
  {
    forall us: seq<Url>, ps: seq<Page<Item>> | CompleteWalk(q, us, ps) ensures Starts(urls + [url], pages + [page], next, us, ps) {
      WalkReads(q, us, ps, |urls|);
      StartsExtends(q, urls, pages, url, page, next, us, ps);
    }
  }

  /** No complete walk when the next request repeats a URL or exceeds the limit. */
  lemma Repeats<Item(!new)>(q: Query<Item>, urls: seq<Url>, pages: seq<Page<Item>>, url: Url)
    requires Leads(q, urls, pages, Some(url)) && (url in urls || |urls| >= MAX_PAGES)
    ensures NoWalk(q)
  {}

  /** No complete walk when the next request cannot be read. */
  lemma Stuck<Item(!new)>(q: Query<Item>, urls: seq<Url>, pages: seq<Page<Item>>, url: Url)
    requires Leads(q, urls, pages, Some(url))
    requires forall page, next :: !Reads(q, |urls|, url, page, next)
    ensures NoWalk(q)
  {}

  /** No complete walk when two pages declare different totals. */
  lemma Disagrees<Item(!new)>(q: Query<Item>, urls: seq<Url>, pages: seq<Page<Item>>, url: Url, page: Page<Item>)
    requires Walk(q, urls, pages, Some(url)) && Leads(q, urls, pages, Some(url))
    requires q.server(|urls|, url).Reply? && PageOf(q.keyed, q.server(|urls|, url).payload) == Some(page)
    requires q.keyed && urls != [] && page.total != pages[0].total
    ensures NoWalk(q)
  {}

  /** One iteration's request: the page and the next URL, or the first problem found. */
  method ReadPage<Item(!new)>(q: Query<Item>, n: nat, url: Url, total: Option<nat>) returns (result: Result<(Page<Item>, Option<Url>)>)
    ensures result.Ok? ==> Reads(q, n, url, result.value.0, result.value.1) && (q.keyed && total.Some? ==> result.value.0.total == total)
    ensures result == Err(TotalChanged) ==>
              && q.keyed && total.Some? && q.server(n, url).Reply?
              && var page := PageOf(q.keyed, q.server(n, url).payload);
              page.Some? && page.value.total != total
    ensures result.Err? && result.error != TotalChanged ==> forall page, next :: !Reads(q, n, url, page, next)
  {
    var response := q.server(n, url);
    if response.Failure? { return Err(Unavailable); }
    var page := PageOf(q.keyed, response.payload);
    if page.None? { return Err(CollectionInvalid); }
    if q.keyed && total.Some? && total != page.value.total { return Err(TotalChanged); }
    if |page.value.items| > PAGE_SIZE { return Err(PageTooLarge); }
    var next := ParseNextLink(q.api, response.link, url);
    if next.Err? { return Err(next.error); }
    if !q.keyed && next.value.None? && |page.value.items| == PAGE_SIZE { return Err(CompletionAmbiguous); }
    if next.value.Some? && page.value.items == [] { return Err(EmptyPage); }
    result := Ok((page.value, next.value));
  }

  /** One iteration: the walk is extended by a page, or there is no complete walk. */
  method Advance<Item(!new)>(q: Query<Item>, urls: seq<Url>, ghost pages: seq<Page<Item>>, url: Url, total: Option<nat>)
    returns (result: Result<(Page<Item>, Option<Url>)>)
    requires Walk(q, urls, pages, Some(url)) && Leads(q, urls, pages, Some(url)) && url !in urls && |urls| < MAX_PAGES
    requires if q.keyed && pages != [] then total == pages[0].total && total.Some? else total.None?
    ensures result.Ok? ==> Walk(q, urls + [url], pages + [result.value.0], result.value.1)
    ensures result.Ok? ==> Leads(q, urls + [url], pages + [result.value.0], result.value.1)
    ensures result.Ok? ==> if q.keyed then result.value.0.total == (pages + [result.value.0])[0].total && result.value.0.total.Some?
                           else result.value.0.total.None?
    ensures result.Err? ==> NoWalk(q)
  {
    result := ReadPage(q, |urls|, url, total);
    if result == Err(TotalChanged) {
      Disagrees(q, urls, pages, url, PageOf(q.keyed, q.server(|urls|, url).payload).value);
    } else if result.Err? {
      Stuck(q, urls, pages, url);
    } else {
      WalkExtends(q, urls, pages, url, result.value.0, result.value.1);
      LeadsExtends(q, urls, pages, url, result.value.0, result.value.1);
    }
  }

  /** `collection`: at most one hundred requests to distinct URLs, all but the first on the API
      origin. It succeeds exactly when the server offers a complete walk, and then returns that
      walk's items in order. */
  method Collection<Item(!new)>(q: Query<Item>)
    returns (result: Result<seq<Item>>, requests: seq<Url>, ghost pages: seq<Page<Item>>)
    ensures |requests| <= MAX_PAGES
    ensures forall i, j :: 0 <= i < j < |requests| ==> requests[i] != requests[j]
    ensures forall i :: 0 < i < |requests| ==> OnOrigin(q.api, requests[i])
    ensures result.Ok? ==> CompleteWalk(q, requests, pages) && result.value == Concat(pages)
    ensures result.Err? ==> NoWalk(q)
  {
    var next, items: seq<Item>, total: Option<nat> := Some(q.start), [], None;
    requests, pages := [], [];
    while next.Some?
      invariant Walk(q, requests, pages, next) && Leads(q, requests, pages, next)
      invariant items == Concat(pages)
      invariant if q.keyed && pages != [] then total == pages[0].total && total.Some? else total.None?
      decreases MAX_PAGES - |requests|, next.Some?
    {
      var url := next.value;
      WalkOnOrigin(q, requests, pages, next);
      if url in requests || |requests| >= MAX_PAGES {
        Repeats(q, requests, pages, url);
        return Err(CycleOrLimit), requests, pages;
      }
      var read := Advance(q, requests, pages, url, total);
      if read.Err? { return Err(read.error), requests + [url], pages; }
      var page := read.value.0;
      assert (pages + [page])[..|pages|] == pages;
      total, items := page.total, items + page.items;
      requests, pages, next := requests + [url], pages + [page], read.value.1;
    }
    WalkOnOrigin(q, requests, pages, next);
    if total.Some? && total.value != |items| {
      NotTruncated(q, requests, pages);
      return Err(Truncated), requests, pages;
    }
    result := Ok(items);
  }

  lemma WholeWalk<Item>(q: Query<Item>, urls: seq<Url>, pages: seq<Page<Item>>, us: seq<Url>, ps: seq<Page<Item>>)
    requires Walk(q, urls, pages, None) && CompleteWalk(q, us, ps) && Starts(urls, pages, None, us, ps)
    ensures ps == pages
  {
    assert ps == ps[..|urls|];
  }

  /** No complete walk when the declared total is not the number of items read. */
  lemma NotTruncated<Item(!new)>(q: Query<Item>, urls: seq<Url>, pages: seq<Page<Item>>)
    requires Walk(q, urls, pages, None) && Leads(q, urls, pages, None) && q.keyed
    requires pages[0].total != Some(|Concat(pages)|)
    ensures NoWalk(q)
  {
    forall us: seq<Url>, ps: seq<Page<Item>> ensures !CompleteWalk(q, us, ps) {
      if CompleteWalk(q, us, ps) { WholeWalk(q, urls, pages, us, ps); }
    }
  }
}
