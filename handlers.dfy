/** `web/server/handlers/handlers.go`: the aggregation store shared by the feed updater and
    the HTTP handlers, and the state each handler reads and writes. Rendering, JSON encoding,
    the mutex and server-sent events are not part of this model; each handler's response is
    the data it renders. */
module Handlers {
  import opened Wrappers
  import opened Text
  import opened Models
  import opened Utils
  import Fetcher

  /** The feeds `UpdateNews` polls, in order. */
  const FeedURLs: seq<string> := [
    "https://cointelegraph.com/rss",
    "https://bitcoinmagazine.com/feed",
    "https://feeds.bloomberg.com/markets/news.rss",
    "https://www.reddit.com/r/birding.rss",
    "https://habr.com/ru/rss/articles/top/daily/?fl=ru"]

  const DefaultSort: string := "desc"

  /** The hours assumed for a `timeFilter` header that is not a number. */
  const FallbackHours: int := 24

  /** `fmt.Sprintf("All news for the last %d hours", int(window.Hours()))`. */
  function DefaultTitle(window: int): string {
    "All news for the last " + IntToString(WholeHours(window)) + " hours"
  }

  /** The items on show: those of the window, in the requested direction. */
  function View(newsItems: seq<NewsItem>, now: int, window: int, sortFilter: string): seq<NewsItem> {
    ByDirection(WithinWindow(newsItems, now, window), sortFilter)
  }

  /** The window after a sort request with `timeFilter` header `header`: unchanged for an
      empty header, otherwise that many hours (24 when it is not a number), with `int64`
      wrap-around of the multiplication. */
  function WindowAfter(window: int, header: string): int {
    if header == "" then window
    else
      var hours := match Atoi(header) case Some(h) => h case None => FallbackHours;
      Wrap64(hours * Hour)
  }

  /** The direction after a sort request: only exactly "asc" or "desc" replaces it. */
  function SortAfter(sortFilter: string, header: string): string {
    if header == "asc" || header == "desc" then header else sortFilter
  }

  /** Why a request is refused with status 400. */
  datatype RequestError = DecodeFailed | QueryRequired | LinkRequired

  /** What `HandleSortNews` answers: the items it renders, their number, the window in whole
      hours, the direction and the per-channel summary. */
  datatype SortResponse = SortResponse(
    shown: seq<NewsItem>, totalCount: int, timeFilterValue: int, sortFilter: string, unique: UniqueItemsResult)

  /** What `HandleFilterNewsBySearch` answers. */
  datatype SearchResponse = SearchResponse(shown: seq<NewsItem>, totalCount: int, unique: UniqueItemsResult)

  /** What `HandleFilterNewsByLink` answers. */
  datatype LinkResponse = LinkResponse(
    shown: seq<NewsItem>, totalCount: int, unique: UniqueItemsResult, channelTitle: string)

  /** What `HandleLoadNews` answers. */
  datatype LoadResponse = LoadResponse(
    shown: seq<NewsItem>, loading: bool, totalCount: int, timeFilterValue: int, sortFilter: string,
    unique: UniqueItemsResult)

  // ---------------------------------------------------------------------------------------
  // The search filter

  /** The lowercased title or description contains the lowercased query. */
  predicate Matches(item: NewsItem, query: string) {
    Contains(ToLower(item.title), ToLower(query)) || Contains(ToLower(item.description), ToLower(query))
  }

  function MatchTest(query: string): NewsItem -> bool {
    (item: NewsItem) => Matches(item, query)
  }

  /** What the search loop builds: every matching item, appended twice in a row. */
  function Doubled(items: seq<NewsItem>, query: string): seq<NewsItem> {
    if items == [] then []
    else (if Matches(items[0], query) then [items[0], items[0]] else []) + Doubled(items[1..], query)
  }

  lemma DoubledStep(items: seq<NewsItem>, i: nat, query: string)
    requires i < |items|
    ensures Doubled(items[i..], query)
      == (if Matches(items[i], query) then [items[i], items[i]] else []) + Doubled(items[i + 1..], query)
  {
    assert items[i..][1..] == items[i + 1..];
  }

  /** The search result is the matches, each listed twice: item `2k` and item `2k + 1` are
      both the `k`-th match, so the reported total is twice the number of matches. */
  lemma {:induction false} DoubledIsEachMatchTwice(items: seq<NewsItem>, query: string)
    ensures |Doubled(items, query)| == 2 * |Filter(items, MatchTest(query))|
    ensures forall k :: 0 <= k < |Filter(items, MatchTest(query))| ==>
      Doubled(items, query)[2 * k] == Filter(items, MatchTest(query))[k]
      && Doubled(items, query)[2 * k + 1] == Filter(items, MatchTest(query))[k]
  {
    if items != [] {
      DoubledIsEachMatchTwice(items[1..], query);
      var d, f := Doubled(items[1..], query), Filter(items[1..], MatchTest(query));
      if Matches(items[0], query) {
        DoubledCons(items[0], d, f);
      }
    }
  }

  /** Putting a match in front of a doubled list keeps it doubled. */
  lemma DoubledCons(x: NewsItem, d: seq<NewsItem>, f: seq<NewsItem>)
    requires |d| == 2 * |f|
    requires forall k :: 0 <= k < |f| ==> d[2 * k] == f[k] && d[2 * k + 1] == f[k]
    ensures forall k :: 0 <= k < |f| + 1 ==> ([x, x] + d)[2 * k] == ([x] + f)[k] && ([x, x] + d)[2 * k + 1] == ([x] + f)[k]
  {
    forall k | 1 <= k < |f| + 1
      ensures ([x, x] + d)[2 * k] == ([x] + f)[k] && ([x, x] + d)[2 * k + 1] == ([x] + f)[k]
    {
      assert ([x, x] + d)[2 * k] == d[2 * (k - 1)];
      assert ([x, x] + d)[2 * k + 1] == d[2 * (k - 1) + 1];
    }
  }

  lemma TwiceAppended(acc: seq<NewsItem>, x: NewsItem, rest: seq<NewsItem>)
    ensures acc + [x] + [x] + rest == acc + ([x, x] + rest)
  {
  }

  /** The search loop of `HandleFilterNewsBySearch` over the items on show. */
  method SearchItems(items: seq<NewsItem>, query: string) returns (filteredItems: seq<NewsItem>)
    ensures filteredItems == Doubled(items, query)
  {
    filteredItems := [];
    for i := 0 to |items|
      invariant filteredItems + Doubled(items[i..], query) == Doubled(items, query)
    {
      DoubledStep(items, i, query);
      var item := items[i];
      if Matches(item, query) {
        TwiceAppended(filteredItems, item, Doubled(items[i + 1..], query));
        filteredItems := filteredItems + [item];
        filteredItems := filteredItems + [item];
      }
    }
    assert items[|items|..] == [];
  }

  // ---------------------------------------------------------------------------------------
  // One pass of the updater

  /** The items one pass has gathered from the outcomes of its first feeds: the concatenation
      of what each fetch returned, or the first fault. */
  function PassResult(outcomes: seq<Fetcher.FetchOutcome>, decoders: Fetcher.Decoders): Result<seq<NewsItem>, Fault> {
    if outcomes == [] then Ok([])
    else
      var before := PassResult(outcomes[..|outcomes| - 1], decoders);
      if before.Err? then before
      else
        match Fetcher.FetchResult(outcomes[|outcomes| - 1], "", decoders)
        case Err(e) => Err(e)
        case Ok(news) => Ok(before.value + news)
  }

  /** The records a pass adds to the fetcher's error log, for its first `n` feeds. */
  function PassLog(feeds: seq<string>, outcomes: seq<Fetcher.FetchOutcome>, nows: seq<int>, n: nat)
    : seq<Fetcher.ErrorURL>
    requires n <= |outcomes| && n <= |nows| && n <= |feeds|
  {
    if n == 0 then []
    else
      PassLog(feeds, outcomes, nows, n - 1)
        + (if Fetcher.IsErrorStatus(outcomes[n - 1])
           then [Fetcher.ErrorURL(feeds[n - 1], outcomes[n - 1].status, nows[n - 1])] else [])
  }

  /** One more feed that does not fault extends what the pass has gathered. */
  lemma PassStep(outcomes: seq<Fetcher.FetchOutcome>, decoders: Fetcher.Decoders, i: nat,
      items: seq<NewsItem>, news: seq<NewsItem>)
    requires i < |outcomes|
    requires PassResult(outcomes[..i], decoders) == Ok(items)
    requires Fetcher.FetchResult(outcomes[i], "", decoders) == Ok(news)
    ensures PassResult(outcomes[..i + 1], decoders) == Ok(items + news)
  {
    assert outcomes[..i + 1][..i] == outcomes[..i];
  }

  /** One more feed adds its record, if any, at the end of the log. */
  lemma LogStep(log: seq<Fetcher.ErrorURL>, feeds: seq<string>, outcomes: seq<Fetcher.FetchOutcome>,
      nows: seq<int>, i: nat)
    requires i < |outcomes| && i < |nows| && i < |feeds|
    ensures log + PassLog(feeds, outcomes, nows, i)
        + (if Fetcher.IsErrorStatus(outcomes[i]) then [Fetcher.ErrorURL(feeds[i], outcomes[i].status, nows[i])] else [])
      == log + PassLog(feeds, outcomes, nows, i + 1)
  {
  }

  /** A pass fails exactly when one of its fetches faults. */
  lemma {:induction false} PassFaults(outcomes: seq<Fetcher.FetchOutcome>, decoders: Fetcher.Decoders)
    ensures PassResult(outcomes, decoders).Err? <==>
      exists k :: 0 <= k < |outcomes| && Fetcher.FetchResult(outcomes[k], "", decoders).Err?
  {
    if outcomes != [] {
      var init := outcomes[..|outcomes| - 1];
      PassFaults(init, decoders);
      if exists k :: 0 <= k < |init| && Fetcher.FetchResult(init[k], "", decoders).Err? {
        var k :| 0 <= k < |init| && Fetcher.FetchResult(init[k], "", decoders).Err?;
        assert outcomes[k] == init[k];
      }
      if exists k :: 0 <= k < |outcomes| && Fetcher.FetchResult(outcomes[k], "", decoders).Err? {
        var k :| 0 <= k < |outcomes| && Fetcher.FetchResult(outcomes[k], "", decoders).Err?;
        if k < |init| {
          assert init[k] == outcomes[k];
        }
      }
    }
  }

  /** Without faults, the pass's items are those of its feeds, feed by feed: the first `n`
      feeds gather a prefix of what all of them gather. */
  lemma {:induction false} PassGrows(outcomes: seq<Fetcher.FetchOutcome>, decoders: Fetcher.Decoders, n: nat)
    requires n <= |outcomes|
    requires PassResult(outcomes, decoders).Ok?
    ensures PassResult(outcomes[..n], decoders).Ok?
    ensures PassResult(outcomes[..n], decoders).value <= PassResult(outcomes, decoders).value
  {
    if n < |outcomes| {
      var init := outcomes[..|outcomes| - 1];
      assert init[..n] == outcomes[..n];
      PassGrows(init, decoders, n);
    } else {
      assert outcomes[..n] == outcomes;
    }
  }

  /** A fetch that faults logs nothing: the fault comes from a rejected request or from the
      body of a 200 response. */
  lemma FaultIsNotLogged(outcome: Fetcher.FetchOutcome, decoders: Fetcher.Decoders)
    requires Fetcher.FetchResult(outcome, "", decoders).Err?
    ensures !Fetcher.IsErrorStatus(outcome)
  {
  }

  // ---------------------------------------------------------------------------------------
  // The store

  /** The package-level state of the handlers. */
  class Store {
    var newsItems: seq<NewsItem>
    var filterItems: seq<NewsItem>
    var timeFilter: int
    var sortFilter: string
    var channelTitle: string

    /** The zero values Go starts the package with. */
    constructor()
      ensures newsItems == [] && filterItems == [] && timeFilter == 0 && sortFilter == "" && channelTitle == ""
    {
      newsItems := [];
      filterItems := [];
      timeFilter := 0;
      sortFilter := "";
      channelTitle := "";
    }

    /** The defaults `UpdateNews` and `HandleLoadNews` both apply: a zero window becomes 24
        hours and an empty direction becomes descending. */
    method ApplyDefaults()
      modifies this
      ensures timeFilter == (if old(timeFilter) == 0 then DefaultWindow else old(timeFilter))
      ensures sortFilter == (if old(sortFilter) == "" then DefaultSort else old(sortFilter))
      ensures newsItems == old(newsItems) && filterItems == old(filterItems) && channelTitle == old(channelTitle)
    {
      if timeFilter == 0 {
        timeFilter := DefaultWindow;
      }
      if sortFilter == "" {
        sortFilter := DefaultSort;
      }
    }

    /** What `UpdateNews` does once before polling: the defaults, and a title naming the
        window when there is none. */
    method UpdateNewsDefaults()
      modifies this
      ensures timeFilter == (if old(timeFilter) == 0 then DefaultWindow else old(timeFilter))
      ensures sortFilter == (if old(sortFilter) == "" then DefaultSort else old(sortFilter))
      ensures channelTitle == (if old(channelTitle) == "" then DefaultTitle(timeFilter) else old(channelTitle))
      ensures newsItems == old(newsItems) && filterItems == old(filterItems)
    {
      ApplyDefaults();
      if channelTitle == "" {
        channelTitle := DefaultTitle(timeFilter);
      }
    }

    /** Recomputes the items on show from all items, at time `now`. */
    method Refresh(now: int)
      modifies this
      ensures filterItems == View(newsItems, now, timeFilter, sortFilter)
      ensures newsItems == old(newsItems) && timeFilter == old(timeFilter)
      ensures sortFilter == old(sortFilter) && channelTitle == old(channelTitle)
    {
      var filtered := FilterNewsByTime(newsItems, timeFilter, sortFilter, now);
      var a := new NewsItem[|filtered|](k requires 0 <= k < |filtered| => filtered[k]);
      assert a[..] == filtered;
      SortByDirection(a, timeFilter, sortFilter);
      filterItems := a[..];
    }

    /** The body of one pass of `UpdateNews`'s polling loop: each of `FeedURLs` is fetched
        in turn, with `outcomes[i]` and `nows[i]` standing for the exchange and the clock of
        the `i`-th feed; what the pass has gathered so far replaces all items, and the items
        on show are recomputed at that feed's `now`. A fault ends the pass (in Go, a panic) and leaves the
        state of the last completed feed. `fed` is the number of feeds merged. */
    method UpdatePass(fetcher: Fetcher.Fetcher, outcomes: seq<Fetcher.FetchOutcome>,
        decoders: Fetcher.Decoders, nows: seq<int>) returns (fault: Option<Fault>, fed: nat)
      requires |outcomes| == |FeedURLs| && |nows| == |FeedURLs|
      modifies this, fetcher
      ensures fed <= |FeedURLs| && (fault.None? <==> fed == |FeedURLs|)
      ensures PassResult(outcomes[..fed], decoders).Ok?
      ensures fault.Some? ==> Fetcher.FetchResult(outcomes[fed], "", decoders) == Err(fault.value)
      ensures fed == 0 ==> newsItems == old(newsItems) && filterItems == old(filterItems)
      ensures fed > 0 ==> newsItems == PassResult(outcomes[..fed], decoders).value
      ensures fed > 0 ==> filterItems == View(newsItems, nows[fed - 1], timeFilter, sortFilter)
      ensures timeFilter == old(timeFilter) && sortFilter == old(sortFilter) && channelTitle == old(channelTitle)
      ensures fetcher.errorURLs == old(fetcher.errorURLs) + PassLog(FeedURLs, outcomes, nows, fed)
    {
      var newItems: seq<NewsItem> := [];
      fed := 0;
      ghost var lastNow := 0;
      assert outcomes[..0] == [];
      while fed < |FeedURLs|
        invariant fed <= |FeedURLs|
        invariant PassResult(outcomes[..fed], decoders) == Ok(newItems)
        invariant fed == 0 ==> newsItems == old(newsItems) && filterItems == old(filterItems)
        invariant fed > 0 ==> newsItems == newItems
        invariant fed > 0 ==> lastNow == nows[fed - 1]
        invariant fed > 0 ==> filterItems == View(newsItems, lastNow, timeFilter, sortFilter)
        invariant timeFilter == old(timeFilter) && sortFilter == old(sortFilter) && channelTitle == old(channelTitle)
        invariant fetcher.errorURLs == old(fetcher.errorURLs) + PassLog(FeedURLs, outcomes, nows, fed)
      {
        var news := fetcher.FetchNews(FeedURLs[fed], "", outcomes[fed], decoders, nows[fed]);
        LogStep(old(fetcher.errorURLs), FeedURLs, outcomes, nows, fed);
        if news.Err? {
          FaultIsNotLogged(outcomes[fed], decoders);
          return Some(news.error), fed;
        }
        PassStep(outcomes, decoders, fed, newItems, news.value);
        newItems := newItems + news.value;
        newsItems := newItems;
        Refresh(nows[fed]);
        lastNow := nows[fed];
        fed := fed + 1;
        assert nows[fed - 1] == lastNow;
      }
      assert outcomes[..fed] == outcomes;
      fault := None;
    }

    /** `HandleSortNews`: a non-empty `timeFilter` header sets the window, a `sortFilter`
        header of exactly "asc" or "desc" sets the direction, and the items on show are
        recomputed at `now`. `faviconOf` stands for the favicon lookup. */
    method HandleSortNews(hoursHeader: string, sortHeader: string, now: int, faviconOf: string -> string)
      returns (resp: SortResponse)
      modifies this
      ensures timeFilter == WindowAfter(old(timeFilter), hoursHeader)
      ensures sortFilter == SortAfter(old(sortFilter), sortHeader)
      ensures filterItems == View(newsItems, now, timeFilter, sortFilter)
      ensures newsItems == old(newsItems) && channelTitle == old(channelTitle)
      ensures resp.shown == filterItems && resp.totalCount == |filterItems|
      ensures resp.timeFilterValue == WholeHours(timeFilter) && resp.sortFilter == sortFilter
      ensures IsUniqueView(resp.unique, filterItems, faviconOf)
    {
      if hoursHeader != "" {
        var hours := match Atoi(hoursHeader) case Some(h) => h case None => FallbackHours;
        timeFilter := Wrap64(hours * Hour);
      }
      if sortHeader == "asc" || sortHeader == "desc" {
        sortFilter := sortHeader;
      }
      Refresh(now);
      var unique := GetUniqueItems(filterItems, faviconOf);
      resp := SortResponse(filterItems, |filterItems|, WholeHours(timeFilter), sortFilter, unique);
    }

    /** `HandleFilterNewsBySearch`: `unescape` stands for `url.QueryUnescape` (`None` for its
        error). An undecodable or empty query is refused; otherwise every item on show whose
        lowercased title or description contains the lowercased query is listed twice. The
        store is only read. */
    method HandleFilterNewsBySearch(queryEncoded: string, unescape: string -> Option<string>,
        faviconOf: string -> string) returns (r: Result<SearchResponse, RequestError>)
      ensures unescape(queryEncoded).None? ==> r == Err(DecodeFailed)
      ensures unescape(queryEncoded) == Some("") ==> r == Err(QueryRequired)
      ensures unescape(queryEncoded).Some? && unescape(queryEncoded).value != "" ==>
        && r.Ok?
        && r.value.shown == Doubled(filterItems, unescape(queryEncoded).value)
        && r.value.totalCount == |r.value.shown|
        && IsUniqueView(r.value.unique, r.value.shown, faviconOf)
    {
      var decoded := unescape(queryEncoded);
      if decoded.None? {
        return Err(DecodeFailed);
      }
      var query := decoded.value;
      if query == "" {
        return Err(QueryRequired);
      }
      var filteredItems := SearchItems(filterItems, query);
      var unique := GetUniqueItems(filteredItems, faviconOf);
      r := Ok(SearchResponse(filteredItems, |filteredItems|, unique));
    }

    /** `HandleFilterNewsByLink`: an empty `Link` header is refused; otherwise the items on
        show of that channel are rendered and the title becomes the first one's channel title,
        when there is one. The total and the summary are those of all items on show. */
    method HandleFilterNewsByLink(link: string, faviconOf: string -> string)
      returns (r: Result<LinkResponse, RequestError>)
      modifies this
      ensures newsItems == old(newsItems) && filterItems == old(filterItems)
      ensures timeFilter == old(timeFilter) && sortFilter == old(sortFilter)
      ensures link == "" ==> r == Err(LinkRequired) && channelTitle == old(channelTitle)
      ensures link != "" ==>
        && r.Ok?
        && r.value.shown == ByLink(filterItems, link)
        && channelTitle == (if r.value.shown != [] then r.value.shown[0].channelTitle else old(channelTitle))
        && r.value.channelTitle == channelTitle
        && r.value.totalCount == |filterItems|
        && IsUniqueView(r.value.unique, filterItems, faviconOf)
    {
      if link == "" {
        return Err(LinkRequired);
      }
      var filteredByLink := FilterNewsByLink(filterItems, link);
      if |filteredByLink| > 0 {
        channelTitle := filteredByLink[0].channelTitle;
      }
      var unique := GetUniqueItems(filterItems, faviconOf);
      r := Ok(LinkResponse(filteredByLink, |filterItems|, unique, channelTitle));
    }

    /** `HandleLoadNews`: the same defaults as the updater, a title that always names the
        window, and a loading flag for an empty view. */
    method HandleLoadNews(faviconOf: string -> string) returns (resp: LoadResponse)
      modifies this
      ensures timeFilter == (if old(timeFilter) == 0 then DefaultWindow else old(timeFilter))
      ensures sortFilter == (if old(sortFilter) == "" then DefaultSort else old(sortFilter))
      ensures channelTitle == DefaultTitle(timeFilter)
      ensures newsItems == old(newsItems) && filterItems == old(filterItems)
      ensures resp.shown == filterItems && (resp.loading <==> |filterItems| == 0)
      ensures resp.totalCount == |filterItems| && resp.timeFilterValue == WholeHours(timeFilter)
      ensures resp.sortFilter == sortFilter
      ensures IsUniqueView(resp.unique, filterItems, faviconOf)
    {
      ApplyDefaults();
      channelTitle := DefaultTitle(timeFilter);
      var loading := |filterItems| == 0;
      var unique := GetUniqueItems(filterItems, faviconOf);
      resp := LoadResponse(filterItems, loading, |filterItems|, WholeHours(timeFilter), sortFilter, unique);
    }
  }

  // ---------------------------------------------------------------------------------------
  // Properties of the transitions

  /** The same sort request twice in a row, at the same `now`, leaves the same window, the
      same direction and the same items on show as once. */
  lemma SortRequestIdempotent(items: seq<NewsItem>, window: int, sortFilter: string,
      hoursHeader: string, sortHeader: string, now: int)
    ensures WindowAfter(WindowAfter(window, hoursHeader), hoursHeader) == WindowAfter(window, hoursHeader)
    ensures SortAfter(SortAfter(sortFilter, sortHeader), sortHeader) == SortAfter(sortFilter, sortHeader)
    ensures View(items, now, WindowAfter(WindowAfter(window, hoursHeader), hoursHeader),
                 SortAfter(SortAfter(sortFilter, sortHeader), sortHeader))
         == View(items, now, WindowAfter(window, hoursHeader), SortAfter(sortFilter, sortHeader))
  {
  }

  /** The `timeFilter` header: an empty one leaves the window as it is, one that is not a
      number gives the default 24 hours, and a number of hours whose duration fits in
      `int64` gives that duration, which the response echoes back as the same number. */
  lemma WindowHeader(window: int, header: string)
    ensures header == "" ==> WindowAfter(window, header) == window
    ensures header != "" && Atoi(header).None? ==> WindowAfter(window, header) == DefaultWindow
    ensures header != "" && Atoi(header).Some? && MinInt64 <= Atoi(header).value * Hour <= MaxInt64 ==>
      WindowAfter(window, header) == Atoi(header).value * Hour
      && WholeHours(WindowAfter(window, header)) == Atoi(header).value
  {
    if header != "" && Atoi(header).Some? {
      var h := Atoi(header).value;
      if MinInt64 <= h * Hour <= MaxInt64 {
        WholeHoursOf(h);
      }
    }
  }

  /** The hours a response reports, sent back as the `timeFilter` header, set the window
      they were reported for, whenever it is a whole number of hours. */
  lemma EchoedHoursRestoreWindow(window: int, h: int)
    requires MinInt64 <= h * Hour <= MaxInt64
    ensures WholeHours(h * Hour) == h
    ensures WindowAfter(window, IntToString(WholeHours(h * Hour))) == h * Hour
  {
    WholeHoursOf(h);
    AtoiRoundTrip(h);
    WindowHeader(window, IntToString(h));
  }

  /** `int((h * time.Hour).Hours())` is `h`. */
  lemma WholeHoursOf(h: int)
    ensures WholeHours(h * Hour) == h
  {
    if h < 0 {
      assert -(h * Hour) == (-h) * Hour;
    }
  }

  /** The link filter's title is that of the channel's first item on show, which is also the
      item that represents the channel in the summary; with no item of the channel the title
      stays. */
  lemma LinkTitleIsFirstOfChannel(items: seq<NewsItem>, link: string)
    requires link != ""
    ensures ByLink(items, link) != [] <==> link in Links(items)
    ensures ByLink(items, link) != [] ==> ByLink(items, link)[0] == items[FirstIndex(items, link)]
  {
    ByLinkKeepsChannel(items, link);
    if link in Links(items) {
      var k :| 0 <= k < |items| && items[k].channelLink == link;
      assert items[k] in ByLink(items, link);
      ByLinkFirst(items, link);
    }
    if ByLink(items, link) != [] {
      assert ByLink(items, link)[0] in ByLink(items, link);
    }
  }

  lemma {:induction false} ByLinkFirst(items: seq<NewsItem>, link: string)
    requires link != "" && link in Links(items)
    ensures ByLink(items, link) != [] && ByLink(items, link)[0] == items[FirstIndex(items, link)]
  {
    if items[0].channelLink == link {
      assert Filter(items, OnChannel(link)) == [items[0]] + Filter(items[1..], OnChannel(link));
    } else {
      var k :| 0 <= k < |items| && items[k].channelLink == link;
      assert items[1..][k - 1].channelLink == link;
      ByLinkFirst(items[1..], link);
      assert Filter(items, OnChannel(link)) == Filter(items[1..], OnChannel(link));
    }
  }

  /** The default title for the default window. */
  lemma DefaultTitleOfDefaultWindow()
    ensures DefaultTitle(DefaultWindow) == "All news for the last 24 hours"
  {
    WholeHoursOf(24);
    assert NatToString(2) == "2";
    assert NatToString(24) == NatToString(2) + "4";
  }
}
