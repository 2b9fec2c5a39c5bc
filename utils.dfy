/** The text and collection utilities of the aggregator: tag stripping, date normalisation,
    the recency window, the two sort directions, the channel filter, description truncation
    and the per-channel de-duplication. */
module Utils {
  import opened Wrappers
  import opened Text
  import opened Models
  import Sorting

  // ---------------------------------------------------------------------------------------
  // StripHTMLTags

  /** What the tag-stripping scan emits for `s` when it starts inside a tag or outside one:
      `<` enters a tag, `>` leaves one, and only characters outside tags are kept. */
  function StripFrom(s: string, inTag: bool): string {
    if s == [] then []
    else if s[0] == '<' then StripFrom(s[1..], true)
    else if s[0] == '>' then StripFrom(s[1..], false)
    else (if inTag then [] else [s[0]]) + StripFrom(s[1..], inTag)
  }

  /** Whether the scan is inside a tag after reading `s`. */
  function InTagAfter(s: string, inTag: bool): bool {
    if s == [] then inTag
    else InTagAfter(s[1..], if s[0] == '<' then true else if s[0] == '>' then false else inTag)
  }

  /** The text of `html` with every `<...>` span removed; the scan starts outside a tag. */
  function Stripped(html: string): string {
    StripFrom(html, false)
  }

  method StripHTMLTags(html: string) returns (r: string)
    ensures r == Stripped(html)
  {
    r := [];
    var inTag := false;
    for i := 0 to |html|
      invariant r + StripFrom(html[i..], inTag) == Stripped(html)
    {
      var c := html[i];
      assert html[i..] == [c] + html[i + 1..];
      if c == '<' {
        inTag := true;
      } else if c == '>' {
        inTag := false;
      } else if !inTag {
        r := r + [c];
      }
    }
  }

  predicate HasNoBrackets(s: string) {
    forall k :: 0 <= k < |s| ==> s[k] != '<' && s[k] != '>'
  }

  /** The output never contains `<` or `>`. */
  lemma {:induction false} StripRemovesBrackets(s: string, inTag: bool)
    ensures HasNoBrackets(StripFrom(s, inTag))
  {
    if s != [] {
      StripRemovesBrackets(s[1..], s[0] == '<' || (s[0] != '>' && inTag));
    }
  }

  /** The output is the input with some characters deleted. */
  lemma {:induction false} StripIsSubseq(s: string, inTag: bool)
    ensures IsSubseq(StripFrom(s, inTag), s)
  {
    if s != [] {
      var next := s[0] == '<' || (s[0] != '>' && inTag);
      StripIsSubseq(s[1..], next);
      var rest := StripFrom(s[1..], next);
      assert s == [s[0]] + s[1..];
      if s[0] != '<' && s[0] != '>' && !inTag {
        assert StripFrom(s, inTag) == [s[0]] + rest;
        assert StripFrom(s, inTag)[1..] == rest;
      } else {
        assert StripFrom(s, inTag) == rest;
        SubseqSkip(rest, s[1..], s[0]);
      }
    }
  }

  /** Text without angle brackets is returned unchanged. */
  lemma {:induction false} StripKeepsPlainText(s: string)
    requires HasNoBrackets(s)
    ensures Stripped(s) == s
  {
    if s != [] {
      StripKeepsPlainText(s[1..]);
      assert s == [s[0]] + s[1..];
    }
  }

  /** Stripping twice is stripping once. */
  lemma StripIdempotent(s: string)
    ensures Stripped(Stripped(s)) == Stripped(s)
  {
    StripRemovesBrackets(s, false);
    StripKeepsPlainText(Stripped(s));
  }

  /** The scan of a concatenation is the scan of the first part followed by the scan of the
      second part from the state the first part left. */
  lemma {:induction false} StripConcat(a: string, b: string, inTag: bool)
    ensures StripFrom(a + b, inTag) == StripFrom(a, inTag) + StripFrom(b, InTagAfter(a, inTag))
  {
    if a == [] {
      assert a + b == b;
    } else {
      var next := if a[0] == '<' then true else if a[0] == '>' then false else inTag;
      var emitted: string := if a[0] == '<' || a[0] == '>' || inTag then [] else [a[0]];
      StripConcat(a[1..], b, next);
      assert (a + b)[0] == a[0] && (a + b)[1..] == a[1..] + b;
      calc {
        StripFrom(a + b, inTag);
        emitted + StripFrom(a[1..] + b, next);
        emitted + (StripFrom(a[1..], next) + StripFrom(b, InTagAfter(a[1..], next)));
        (emitted + StripFrom(a[1..], next)) + StripFrom(b, InTagAfter(a[1..], next));
        StripFrom(a, inTag) + StripFrom(b, InTagAfter(a, inTag));
      }
    }
  }

  /** A `>` ends whatever tag is open and is never emitted: a stray `>` is simply dropped. */
  lemma StrayCloseDropped(a: string, b: string)
    ensures Stripped(a + ">" + b) == Stripped(a) + Stripped(b)
  {
    assert a + ">" + b == a + (">" + b);
    StripConcat(a, ">" + b, false);
    assert (">" + b)[1..] == b;
  }

  lemma {:induction false} InsideTagEmitsNothing(b: string)
    requires forall k :: 0 <= k < |b| ==> b[k] != '>'
    ensures StripFrom(b, true) == []
  {
    if b != [] {
      InsideTagEmitsNothing(b[1..]);
    }
  }

  /** A `<` that is never closed drops the rest of the input. */
  lemma UnclosedTagDropsRest(a: string, b: string)
    requires forall k :: 0 <= k < |b| ==> b[k] != '>'
    ensures Stripped(a + "<" + b) == Stripped(a)
  {
    assert a + "<" + b == a + ("<" + b);
    StripConcat(a, "<" + b, false);
    assert ("<" + b)[1..] == b;
    InsideTagEmitsNothing(b);
  }

  // ---------------------------------------------------------------------------------------
  // FormatDate

  /** `time.Parse(layout, value)`: the instant it yields, or `None` for a parse error. The
      layout semantics of Go's `time` package are not modelled; any function may stand here. */
  type LayoutParser = (string, string) -> Option<int>

  const RFC3339: string := "2006-01-02T15:04:05Z07:00"
  const RFC1123Z: string := "Mon, 02 Jan 2006 15:04:05 -0700"
  const RFC1123: string := "Mon, 02 Jan 2006 15:04:05 MST"
  const RFC822: string := "02 Jan 06 15:04 MST"
  const RFC822Z: string := "02 Jan 06 15:04 -0700"

  /** The layouts `FormatDate` tries, in order. The sixth is the same text as the second. */
  const DateLayouts: seq<string> := [
    RFC3339, RFC1123Z, RFC1123, RFC822, RFC822Z,
    "Mon, 02 Jan 2006 15:04:05 -0700",
    "Mon, 02 Jan 2006 15:04:05 +0000"]

  datatype DateError = EmptyDate | UnrecognizedDate(value: string)

  /** The result of the first layout that accepts `value`. */
  function FirstParse(layouts: seq<string>, value: string, parse: LayoutParser): Option<int> {
    if layouts == [] then None
    else if parse(layouts[0], value).Some? then parse(layouts[0], value)
    else FirstParse(layouts[1..], value, parse)
  }

  /** Layout `k` accepts `value` and no earlier layout does. */
  predicate DecidedBy(layouts: seq<string>, value: string, parse: LayoutParser, k: int) {
    && 0 <= k < |layouts|
    && parse(layouts[k], value).Some?
    && forall j :: 0 <= j < k ==> parse(layouts[j], value).None?
  }

  function FormatDate(dateStr: string, parse: LayoutParser): Result<int, DateError> {
    var s := TrimSpace(dateStr);
    if s == [] then Err(EmptyDate)
    else match FirstParse(DateLayouts, s, parse)
      case Some(t) => Ok(t)
      case None => Err(UnrecognizedDate(s))
  }

  lemma {:induction false} FirstParseDecided(layouts: seq<string>, value: string, parse: LayoutParser)
    ensures FirstParse(layouts, value, parse).Some? ==>
      exists k :: DecidedBy(layouts, value, parse, k) && parse(layouts[k], value) == FirstParse(layouts, value, parse)
    ensures FirstParse(layouts, value, parse).None? <==>
      forall k :: 0 <= k < |layouts| ==> parse(layouts[k], value).None?
  {
    if layouts != [] {
      FirstParseDecided(layouts[1..], value, parse);
      if parse(layouts[0], value).None? && FirstParse(layouts, value, parse).Some? {
        var k :| DecidedBy(layouts[1..], value, parse, k) && parse(layouts[1..][k], value) == FirstParse(layouts, value, parse);
        assert DecidedBy(layouts, value, parse, k + 1);
      }
      if parse(layouts[0], value).None? {
        assert forall k :: 1 <= k < |layouts| ==> layouts[k] == layouts[1..][k - 1];
      } else {
        assert DecidedBy(layouts, value, parse, 0);
      }
    }
  }

  /** An empty or all-blank date is an error; otherwise the trimmed text goes through the
      layouts in order and the first one that accepts it decides the instant, and the date is
      an error exactly when no layout accepts it. */
  lemma FormatDateFirstMatch(dateStr: string, parse: LayoutParser)
    ensures FormatDate(dateStr, parse) == Err(EmptyDate) <==> TrimSpace(dateStr) == []
    ensures FormatDate(dateStr, parse).Err? <==>
      TrimSpace(dateStr) == [] || forall k :: 0 <= k < |DateLayouts| ==> parse(DateLayouts[k], TrimSpace(dateStr)).None?
    ensures FormatDate(dateStr, parse).Ok? ==>
      exists k :: DecidedBy(DateLayouts, TrimSpace(dateStr), parse, k)
                  && parse(DateLayouts[k], TrimSpace(dateStr)) == Some(FormatDate(dateStr, parse).value)
  {
    FirstParseDecided(DateLayouts, TrimSpace(dateStr), parse);
  }

  /** The repeated sixth layout never decides a date: without it the result is the same. */
  lemma RepeatedLayoutIsRedundant(value: string, parse: LayoutParser)
    ensures FirstParse(DateLayouts, value, parse) == FirstParse(DateLayouts[..5] + DateLayouts[6..], value, parse)
  {
    var short := DateLayouts[..5] + DateLayouts[6..];
    assert DateLayouts[5] == DateLayouts[1];
    FirstParseDecided(DateLayouts, value, parse);
    FirstParseDecided(short, value, parse);
    assert forall k :: 0 <= k < 5 ==> short[k] == DateLayouts[k];
    assert short[5] == DateLayouts[6];
    if FirstParse(DateLayouts, value, parse).Some? {
      var k :| DecidedBy(DateLayouts, value, parse, k) && parse(DateLayouts[k], value) == FirstParse(DateLayouts, value, parse);
      var k' :| DecidedBy(short, value, parse, k') && parse(short[k'], value) == FirstParse(short, value, parse);
      var i' := if k' < 5 then k' else 6;
      assert short[k'] == DateLayouts[i'];
      assert k == i';
    }
  }

  // ---------------------------------------------------------------------------------------
  // FilterNewsByTime

  /** An item is recent when no more than `window` has elapsed since it was published. */
  predicate IsRecent(item: NewsItem, now: int, window: int) {
    Elapsed(now, item.pubDate) <= window
  }

  function RecentTest(now: int, window: int): NewsItem -> bool {
    (item: NewsItem) => IsRecent(item, now, window)
  }

  /** The items published within `window` of `now`, in their original order. */
  function WithinWindow(items: seq<NewsItem>, now: int, window: int): seq<NewsItem> {
    Filter(items, RecentTest(now, window))
  }

  /** `sortFilter` is accepted and ignored; `now` is `time.Now()` read once per call. */
  method FilterNewsByTime(newsItems: seq<NewsItem>, timeFilter: int, sortFilter: string, now: int)
    returns (filteredItems: seq<NewsItem>)
    ensures filteredItems == WithinWindow(newsItems, now, timeFilter)
  {
    filteredItems := [];
    for i := 0 to |newsItems|
      invariant filteredItems + WithinWindow(newsItems[i..], now, timeFilter) == WithinWindow(newsItems, now, timeFilter)
    {
      FilterStep(newsItems, i, RecentTest(now, timeFilter));
      if Elapsed(now, newsItems[i].pubDate) <= timeFilter {
        filteredItems := filteredItems + [newsItems[i]];
      }
    }
  }

  /** Exactly the recent items are kept, in their original order. */
  lemma WithinWindowKeepsRecent(items: seq<NewsItem>, now: int, window: int)
    ensures forall x :: x in WithinWindow(items, now, window) <==> x in items && IsRecent(x, now, window)
    ensures IsSubseq(WithinWindow(items, now, window), items)
  {
    forall x ensures x in WithinWindow(items, now, window) <==> x in items && IsRecent(x, now, window) {
      FilterMember(items, RecentTest(now, window), x);
    }
    FilterIsSubseq(items, RecentTest(now, window));
  }

  /** A wider window keeps a super-sequence of what a narrower one keeps. */
  lemma WindowMonotone(items: seq<NewsItem>, now: int, narrow: int, wide: int)
    requires narrow <= wide
    ensures IsSubseq(WithinWindow(items, now, narrow), WithinWindow(items, now, wide))
  {
    FilterMonotone(items, RecentTest(now, narrow), RecentTest(now, wide));
  }

  // ---------------------------------------------------------------------------------------
  // SortByDirection

  function PubDateOf(item: NewsItem): int {
    item.pubDate
  }

  /** The order `SortByDirection` leaves: ascending by publication for exactly "asc",
      descending for every other string. */
  function ByDirection(items: seq<NewsItem>, sortFilter: string): seq<NewsItem> {
    Sorting.SortedBy(items, PubDateOf, sortFilter == "asc")
  }

  /** Sorts the slice in place; `timeFilter` is accepted and ignored. */
  method SortByDirection(filteredItems: array<NewsItem>, timeFilter: int, sortFilter: string)
    modifies filteredItems
    ensures filteredItems[..] == ByDirection(old(filteredItems[..]), sortFilter)
  {
    Sorting.Sort(filteredItems, PubDateOf, sortFilter == "asc");
  }

  /** The result is a permutation of the input, non-decreasing in `pubDate` for "asc" and
      non-increasing for any other direction. */
  lemma ByDirectionSorted(items: seq<NewsItem>, sortFilter: string)
    ensures multiset(ByDirection(items, sortFilter)) == multiset(items)
    ensures sortFilter == "asc" ==> forall i, j :: 0 <= i < j < |items| ==>
      ByDirection(items, sortFilter)[i].pubDate <= ByDirection(items, sortFilter)[j].pubDate
    ensures sortFilter != "asc" ==> forall i, j :: 0 <= i < j < |items| ==>
      ByDirection(items, sortFilter)[i].pubDate >= ByDirection(items, sortFilter)[j].pubDate
  {
    Sorting.SortedByPermutes(items, PubDateOf, sortFilter == "asc");
    Sorting.SortedByIsSorted(items, PubDateOf, sortFilter == "asc");
  }

  // ---------------------------------------------------------------------------------------
  // FilterNewsByLink

  function OnChannel(link: string): NewsItem -> bool {
    (item: NewsItem) => item.channelLink == link
  }

  /** An empty link keeps everything; any other keeps the items of that channel. */
  function ByLink(items: seq<NewsItem>, link: string): seq<NewsItem> {
    if link == "" then items else Filter(items, OnChannel(link))
  }

  method FilterNewsByLink(filteredItems: seq<NewsItem>, link: string) returns (filtered: seq<NewsItem>)
    ensures filtered == ByLink(filteredItems, link)
  {
    if link == "" {
      return filteredItems;
    }
    filtered := [];
    for i := 0 to |filteredItems|
      invariant filtered + Filter(filteredItems[i..], OnChannel(link)) == Filter(filteredItems, OnChannel(link))
    {
      FilterStep(filteredItems, i, OnChannel(link));
      if filteredItems[i].channelLink == link {
        filtered := filtered + [filteredItems[i]];
      }
    }
  }

  /** With an empty link the input comes back unchanged; otherwise exactly the items whose
      channel link equals the link are kept, in their original order. */
  lemma ByLinkKeepsChannel(items: seq<NewsItem>, link: string)
    ensures link == "" ==> ByLink(items, link) == items
    ensures link != "" ==> forall x :: x in ByLink(items, link) <==> x in items && x.channelLink == link
    ensures IsSubseq(ByLink(items, link), items)
  {
    if link == "" {
      SubseqRefl(items);
    } else {
      forall x ensures x in ByLink(items, link) <==> x in items && x.channelLink == link {
        FilterMember(items, OnChannel(link), x);
      }
      FilterIsSubseq(items, OnChannel(link));
    }
  }

  // ---------------------------------------------------------------------------------------
  // TruncateDescription

  const Space: byte := 0x20

  /** " …": a space and U+2026 in UTF-8, four bytes. */
  const Ellipsis: seq<byte> := [0x20, 0xE2, 0x80, 0xA6]

  /** Truncation of a description to `maxLen` bytes: a short one is kept; a long one is cut
      to `maxLen` bytes, then back to its last space if that space is not the first byte,
      trimmed and followed by " …". */
  function TruncateDescription(description: seq<byte>, maxLen: nat): seq<byte> {
    if |description| <= maxLen then description
    else
      var truncated := description[..maxLen];
      var lastSpace := LastIndexOf(truncated, Space);
      var cut := if lastSpace > 0 then truncated[..lastSpace] else truncated;
      TrimSpaceBytes(cut) + Ellipsis
  }

  /** Where the cut falls: before the last space of the first `maxLen` bytes when that space
      is past the first byte, and at `maxLen` when there is none. */
  predicate IsCutPoint(d: seq<byte>, maxLen: nat, c: nat) {
    && c <= maxLen < |d|
    && (|| (0 < c < maxLen && d[c] == Space && forall j :: c < j < maxLen ==> d[j] != Space)
        || (c == maxLen && forall j :: 0 < j < maxLen ==> d[j] != Space))
  }

  /** A description within the limit is unchanged; a longer one becomes the trimmed prefix up
      to the cut point followed by " …", so the result is at most `maxLen + 4` bytes. */
  lemma TruncateShape(d: seq<byte>, maxLen: nat)
    ensures |d| <= maxLen ==> TruncateDescription(d, maxLen) == d
    ensures |d| > maxLen ==>
      exists c: nat :: IsCutPoint(d, maxLen, c) && TruncateDescription(d, maxLen) == TrimSpaceBytes(d[..c]) + Ellipsis
    ensures |TruncateDescription(d, maxLen)| <= maxLen + |Ellipsis|
  {
    if |d| > maxLen {
      var truncated := d[..maxLen];
      var lastSpace := LastIndexOf(truncated, Space);
      var c := if lastSpace > 0 then lastSpace else maxLen;
      assert truncated[..c] == d[..c];
      assert IsCutPoint(d, maxLen, c);
    }
  }

  // ---------------------------------------------------------------------------------------
  // GetUniqueItems

  datatype UniqueItemsResult = UniqueItemsResult(
    items: seq<NewsItem>,
    counts: map<string, int>,
    faviconURLs: map<string, string>)

  /** The channel links that occur in `items`. */
  function Links(items: seq<NewsItem>): set<string> {
    set k | 0 <= k < |items| :: items[k].channelLink
  }

  /** How many items belong to channel `link`. */
  function Count(items: seq<NewsItem>, link: string): nat {
    if items == [] then 0
    else Count(items[..|items| - 1], link) + (if items[|items| - 1].channelLink == link then 1 else 0)
  }

  /** The index of the first item of channel `link`, or `|items|` when there is none. */
  function FirstIndex(items: seq<NewsItem>, link: string): (r: nat)
    ensures r <= |items|
    ensures r < |items| ==> items[r].channelLink == link
    ensures link in Links(items) ==> r < |items|
  {
    if items == [] then 0
    else if items[0].channelLink == link then 0
    else
      var r := 1 + FirstIndex(items[1..], link);
      assert link in Links(items[1..]) ==> link in Links(items) by {
        if link in Links(items[1..]) {
          var k :| 0 <= k < |items[1..]| && items[1..][k].channelLink == link;
          assert items[k + 1].channelLink == link;
        }
      }
      r
  }

  /** The favicon recorded for a channel: the first item's own, else the looked-up one. */
  function FaviconFor(item: NewsItem, faviconOf: string -> string): string {
    if item.favicon != "" then item.favicon else faviconOf(item.channelLink)
  }

  /** A map lookup that yields Go's zero value for a missing key. */
  function CountOf(counts: map<string, int>, link: string): int {
    if link in counts then counts[link] else 0
  }

  function CountKey(counts: map<string, int>): NewsItem -> int {
    (item: NewsItem) => CountOf(counts, item.channelLink)
  }

  predicate DistinctChannels(items: seq<NewsItem>) {
    forall i, j :: 0 <= i < j < |items| ==> items[i].channelLink != items[j].channelLink
  }

  /** The sum of the counts recorded for the channels of `reps`. */
  function SumCounts(reps: seq<NewsItem>, counts: map<string, int>): int {
    if reps == [] then 0 else CountOf(counts, reps[0].channelLink) + SumCounts(reps[1..], counts)
  }

  /** What `GetUniqueItems` returns for `items`. */
  ghost predicate IsUniqueView(r: UniqueItemsResult, items: seq<NewsItem>, faviconOf: string -> string) {
    // one count per channel, equal to the number of its items
    && r.counts.Keys == Links(items)
    && (forall l :: l in r.counts ==> r.counts[l] == Count(items, l))
    // one favicon per channel, from the channel's first item
    && r.faviconURLs.Keys == Links(items)
    && (forall l :: l in r.faviconURLs ==> r.faviconURLs[l] == FaviconFor(items[FirstIndex(items, l)], faviconOf))
    // one representative per channel, the first item of that channel
    && Links(r.items) == Links(items)
    && DistinctChannels(r.items)
    && (forall i :: 0 <= i < |r.items| ==> r.items[i] == items[FirstIndex(items, r.items[i].channelLink)])
    // representatives by non-increasing count
    && (forall i, j :: 0 <= i < j < |r.items| ==>
          CountOf(r.counts, r.items[i].channelLink) >= CountOf(r.counts, r.items[j].channelLink))
  }

  /** After the first `n` items: every channel seen so far has its first item, its count so
      far and its favicon recorded. */
  ghost predicate TalliedUpTo(items: seq<NewsItem>, n: nat, faviconOf: string -> string,
      firsts: map<string, NewsItem>, counts: map<string, int>, favicons: map<string, string>)
    requires n <= |items|
  {
    && KeysTallied(items, n, firsts, counts, favicons)
    && FirstsTallied(items, n, faviconOf, firsts, favicons)
    && CountsTallied(items, n, counts)
  }

  ghost predicate KeysTallied(items: seq<NewsItem>, n: nat,
      firsts: map<string, NewsItem>, counts: map<string, int>, favicons: map<string, string>)
    requires n <= |items|
  {
    firsts.Keys == Links(items[..n]) && counts.Keys == Links(items[..n]) && favicons.Keys == Links(items[..n])
  }

  ghost predicate FirstsTallied(items: seq<NewsItem>, n: nat, faviconOf: string -> string,
      firsts: map<string, NewsItem>, favicons: map<string, string>)
    requires n <= |items|
  {
    && (forall l :: l in firsts ==> FirstIndex(items, l) < n && firsts[l] == items[FirstIndex(items, l)])
    && (forall l :: l in favicons ==> l in firsts && favicons[l] == FaviconFor(firsts[l], faviconOf))
  }

  ghost predicate CountsTallied(items: seq<NewsItem>, n: nat, counts: map<string, int>)
    requires n <= |items|
  {
    forall l :: l in counts ==> counts[l] == Count(items[..n], l)
  }

  /** One iteration of the first pass keeps `TalliedUpTo`. */
  lemma TallyStep(items: seq<NewsItem>, i: nat, faviconOf: string -> string,
      firsts: map<string, NewsItem>, counts: map<string, int>, favicons: map<string, string>,
      firsts': map<string, NewsItem>, counts': map<string, int>, favicons': map<string, string>)
    requires i < |items|
    requires TalliedUpTo(items, i, faviconOf, firsts, counts, favicons)
    requires firsts' == if items[i].channelLink in firsts then firsts else firsts[items[i].channelLink := items[i]]
    requires favicons' == if items[i].channelLink in firsts then favicons
                          else favicons[items[i].channelLink := FaviconFor(items[i], faviconOf)]
    requires counts' == counts[items[i].channelLink := CountOf(counts, items[i].channelLink) + 1]
    ensures TalliedUpTo(items, i + 1, faviconOf, firsts', counts', favicons')
  {
    KeysStep(items, i, faviconOf, firsts, counts, favicons, firsts', counts', favicons');
    CountsStep(items, i, counts, counts');
    FirstsStep(items, i, faviconOf, firsts, favicons, firsts', favicons');
  }

  lemma KeysStep(items: seq<NewsItem>, i: nat, faviconOf: string -> string,
      firsts: map<string, NewsItem>, counts: map<string, int>, favicons: map<string, string>,
      firsts': map<string, NewsItem>, counts': map<string, int>, favicons': map<string, string>)
    requires i < |items|
    requires KeysTallied(items, i, firsts, counts, favicons)
    requires firsts' == if items[i].channelLink in firsts then firsts else firsts[items[i].channelLink := items[i]]
    requires favicons' == if items[i].channelLink in firsts then favicons
                          else favicons[items[i].channelLink := FaviconFor(items[i], faviconOf)]
    requires counts' == counts[items[i].channelLink := CountOf(counts, items[i].channelLink) + 1]
    ensures KeysTallied(items, i + 1, firsts', counts', favicons')
  {
    LinksStepAt(items, i);
    var link := items[i].channelLink;
    assert firsts'.Keys == firsts.Keys + {link};
    assert counts'.Keys == counts.Keys + {link};
    assert favicons'.Keys == favicons.Keys + {link};
  }

  lemma FirstsStep(items: seq<NewsItem>, i: nat, faviconOf: string -> string,
      firsts: map<string, NewsItem>, favicons: map<string, string>,
      firsts': map<string, NewsItem>, favicons': map<string, string>)
    requires i < |items|
    requires firsts.Keys == Links(items[..i])
    requires FirstsTallied(items, i, faviconOf, firsts, favicons)
    requires firsts' == if items[i].channelLink in firsts then firsts else firsts[items[i].channelLink := items[i]]
    requires favicons' == if items[i].channelLink in firsts then favicons
                          else favicons[items[i].channelLink := FaviconFor(items[i], faviconOf)]
    ensures FirstsTallied(items, i + 1, faviconOf, firsts', favicons')
  {
    var link := items[i].channelLink;
    if link !in firsts {
      FirstIndexAt(items, i);
    }
    forall l | l in firsts'
      ensures FirstIndex(items, l) < i + 1 && firsts'[l] == items[FirstIndex(items, l)]
    {
      if l != link || link in firsts {
        assert l in firsts && firsts'[l] == firsts[l];
      }
    }
    forall l | l in favicons'
      ensures l in firsts' && favicons'[l] == FaviconFor(firsts'[l], faviconOf)
    {
      if l != link || link in firsts {
        assert l in favicons && l in firsts && firsts'[l] == firsts[l];
      }
    }
  }

  /** An item whose channel does not occur before it is its channel's first item. */
  lemma {:induction false} FirstIndexAt(items: seq<NewsItem>, i: nat)
    requires i < |items|
    requires items[i].channelLink !in Links(items[..i])
    ensures FirstIndex(items, items[i].channelLink) == i
  {
    if i > 0 {
      assert items[0] == items[..i][0];
      assert items[1..][i - 1] == items[i];
      var between := items[1..][..i - 1];
      assert items[i].channelLink !in Links(between) by {
        forall k | 0 <= k < i - 1 ensures between[k].channelLink != items[i].channelLink {
          assert between[k] == items[..i][k + 1];
        }
      }
      FirstIndexAt(items[1..], i - 1);
    }
  }

  lemma CountsStep(items: seq<NewsItem>, i: nat, counts: map<string, int>, counts': map<string, int>)
    requires i < |items|
    requires counts.Keys == Links(items[..i])
    requires CountsTallied(items, i, counts)
    requires counts' == counts[items[i].channelLink := CountOf(counts, items[i].channelLink) + 1]
    ensures CountsTallied(items, i + 1, counts')
  {
    var link := items[i].channelLink;
    if link !in counts {
      CountAbsent(items[..i], link);
    }
    forall l | l in counts'
      ensures counts'[l] == Count(items[..i + 1], l)
    {
      CountStepAt(items, i, l);
    }
  }

  lemma CountStepAt(items: seq<NewsItem>, i: nat, l: string)
    requires i < |items|
    ensures Count(items[..i + 1], l) == Count(items[..i], l) + (if items[i].channelLink == l then 1 else 0)
  {
    assert items[..i + 1][..i] == items[..i];
  }

  /** The first pass of `GetUniqueItems`: for every channel, its first item, its number of
      items and its favicon. */
  method TallyChannels(items: seq<NewsItem>, faviconOf: string -> string)
    returns (uniqueLinks: map<string, NewsItem>, uniqueCounts: map<string, int>, faviconURLs: map<string, string>)
    ensures uniqueLinks.Keys == Links(items) && uniqueCounts.Keys == Links(items) && faviconURLs.Keys == Links(items)
    ensures forall l :: l in uniqueLinks ==> uniqueLinks[l] == items[FirstIndex(items, l)]
    ensures forall l :: l in uniqueCounts ==> uniqueCounts[l] == Count(items, l)
    ensures forall l :: l in faviconURLs ==> faviconURLs[l] == FaviconFor(items[FirstIndex(items, l)], faviconOf)
  {
    uniqueLinks, uniqueCounts, faviconURLs := map[], map[], map[];
    for i := 0 to |items|
      invariant TalliedUpTo(items, i, faviconOf, uniqueLinks, uniqueCounts, faviconURLs)
    {
      var item := items[i];
      ghost var firsts, counts, favicons := uniqueLinks, uniqueCounts, faviconURLs;
      ghost var firsts', favicons' := uniqueLinks, faviconURLs;
      if item.channelLink !in uniqueLinks {
        uniqueLinks := uniqueLinks[item.channelLink := item];
        if item.favicon != "" {
          faviconURLs := faviconURLs[item.channelLink := item.favicon];
        } else {
          faviconURLs := faviconURLs[item.channelLink := faviconOf(item.channelLink)];
        }
        firsts', favicons' := firsts[item.channelLink := item], favicons[item.channelLink := FaviconFor(item, faviconOf)];
      }
      uniqueCounts := uniqueCounts[item.channelLink := CountOf(uniqueCounts, item.channelLink) + 1];
      TallyStep(items, i, faviconOf, firsts, counts, favicons, firsts', uniqueCounts, favicons');
    }
    TallyComplete(items, faviconOf, uniqueLinks, uniqueCounts, faviconURLs);
  }

  lemma TallyComplete(items: seq<NewsItem>, faviconOf: string -> string,
      firsts: map<string, NewsItem>, counts: map<string, int>, favicons: map<string, string>)
    requires TalliedUpTo(items, |items|, faviconOf, firsts, counts, favicons)
    ensures firsts.Keys == Links(items) && counts.Keys == Links(items) && favicons.Keys == Links(items)
    ensures forall l :: l in firsts ==> firsts[l] == items[FirstIndex(items, l)]
    ensures forall l :: l in counts ==> counts[l] == Count(items, l)
    ensures forall l :: l in favicons ==> favicons[l] == FaviconFor(items[FirstIndex(items, l)], faviconOf)
  {
    assert items[..|items|] == items;
  }

  /** The second pass of `GetUniqueItems`: the first items, one per channel, in the order the
      map hands out its keys (any order). */
  method Representatives(uniqueLinks: map<string, NewsItem>) returns (reps: seq<NewsItem>)
    requires forall l :: l in uniqueLinks ==> uniqueLinks[l].channelLink == l
    ensures Links(reps) == uniqueLinks.Keys
    ensures DistinctChannels(reps)
    ensures forall k :: 0 <= k < |reps| ==> reps[k].channelLink in uniqueLinks && reps[k] == uniqueLinks[reps[k].channelLink]
  {
    reps := [];
    var remaining := uniqueLinks.Keys;
    while remaining != {}
      invariant remaining <= uniqueLinks.Keys
      invariant Links(reps) + remaining == uniqueLinks.Keys
      invariant Links(reps) !! remaining
      invariant DistinctChannels(reps)
      invariant forall k :: 0 <= k < |reps| ==> reps[k].channelLink in uniqueLinks && reps[k] == uniqueLinks[reps[k].channelLink]
      decreases remaining
    {
      var link :| link in remaining;
      var rep := uniqueLinks[link];
      LinksSnoc(reps, rep);
      forall k | 0 <= k < |reps| ensures reps[k].channelLink != link {
        assert reps[k].channelLink in Links(reps);
      }
      reps := reps + [rep];
      remaining := remaining - {link};
    }
  }

  /** Per-channel de-duplication: one representative per channel with the channel's count and
      favicon, representatives ordered by non-increasing count. */
  method GetUniqueItems(items: seq<NewsItem>, faviconOf: string -> string) returns (r: UniqueItemsResult)
    ensures IsUniqueView(r, items, faviconOf)
    ensures SumCounts(r.items, r.counts) == |items|
  {
    var uniqueLinks, uniqueCounts, faviconURLs := TallyChannels(items, faviconOf);
    var reps := Representatives(uniqueLinks);
    var a := new NewsItem[|reps|](k requires 0 <= k < |reps| => reps[k]);
    assert a[..] == reps;
    Sorting.Sort(a, CountKey(uniqueCounts), false);
    r := UniqueItemsResult(a[..], uniqueCounts, faviconURLs);
    UniqueViewHolds(items, faviconOf, uniqueLinks, reps, r);
  }

  /** The two passes and the sort together produce the unique view. */
  lemma UniqueViewHolds(items: seq<NewsItem>, faviconOf: string -> string,
      firsts: map<string, NewsItem>, reps: seq<NewsItem>, r: UniqueItemsResult)
    requires firsts.Keys == Links(items) && r.counts.Keys == Links(items) && r.faviconURLs.Keys == Links(items)
    requires forall l :: l in firsts ==> firsts[l] == items[FirstIndex(items, l)]
    requires forall l :: l in r.counts ==> r.counts[l] == Count(items, l)
    requires forall l :: l in r.faviconURLs ==> r.faviconURLs[l] == FaviconFor(items[FirstIndex(items, l)], faviconOf)
    requires Links(reps) == firsts.Keys && DistinctChannels(reps)
    requires forall k :: 0 <= k < |reps| ==> reps[k].channelLink in firsts && reps[k] == firsts[reps[k].channelLink]
    requires r.items == Sorting.SortedBy(reps, CountKey(r.counts), false)
    ensures IsUniqueView(r, items, faviconOf)
    ensures SumCounts(r.items, r.counts) == |items|
  {
    ArrangedByCount(reps, r.items, items, r.counts);
  }

  /** The representatives sorted by count keep every property the unsorted ones had. */
  lemma ArrangedByCount(reps: seq<NewsItem>, sorted: seq<NewsItem>, items: seq<NewsItem>, counts: map<string, int>)
    requires sorted == Sorting.SortedBy(reps, CountKey(counts), false)
    requires Links(reps) == Links(items) && DistinctChannels(reps)
    requires forall k :: 0 <= k < |reps| ==> reps[k] == items[FirstIndex(items, reps[k].channelLink)]
    requires counts.Keys == Links(items)
    requires forall l :: l in counts ==> counts[l] == Count(items, l)
    ensures Links(sorted) == Links(items) && DistinctChannels(sorted)
    ensures forall i :: 0 <= i < |sorted| ==> sorted[i] == items[FirstIndex(items, sorted[i].channelLink)]
    ensures forall i, j :: 0 <= i < j < |sorted| ==>
      CountOf(counts, sorted[i].channelLink) >= CountOf(counts, sorted[j].channelLink)
    ensures SumCounts(sorted, counts) == |items|
  {
    Sorting.SortedByPermutes(reps, CountKey(counts), false);
    Sorting.SortedByIsSorted(reps, CountKey(counts), false);
    PermutationKeepsLinks(sorted, reps);
    PermutationKeepsDistinct(sorted, reps);
    forall i | 0 <= i < |sorted|
      ensures sorted[i] == items[FirstIndex(items, sorted[i].channelLink)]
    {
      assert sorted[i] in multiset(reps);
    }
    forall i, j | 0 <= i < j < |sorted|
      ensures CountOf(counts, sorted[i].channelLink) >= CountOf(counts, sorted[j].channelLink)
    {
      assert !Sorting.Precedes(CountKey(counts), false, sorted[j], sorted[i]);
    }
    CountsAddUp(sorted, items, counts);
  }

  lemma {:induction false} CountAbsent(s: seq<NewsItem>, link: string)
    requires link !in Links(s)
    ensures Count(s, link) == 0
  {
    if s != [] {
      var init := s[..|s| - 1];
      assert link !in Links(init) by {
        forall k | 0 <= k < |init| ensures init[k].channelLink != link {
          assert init[k] == s[k];
        }
      }
      CountAbsent(init, link);
    }
  }

  lemma LinksStepAt(items: seq<NewsItem>, i: nat)
    requires i < |items|
    ensures Links(items[..i + 1]) == Links(items[..i]) + {items[i].channelLink}
  {
    assert items[..i + 1] == items[..i] + [items[i]];
    LinksSnoc(items[..i], items[i]);
  }

  lemma LinksSnoc(s: seq<NewsItem>, x: NewsItem)
    ensures Links(s + [x]) == Links(s) + {x.channelLink}
  {
    forall l | l in Links(s)
      ensures l in Links(s + [x])
    {
      var k :| 0 <= k < |s| && s[k].channelLink == l;
      assert (s + [x])[k] == s[k];
    }
    assert (s + [x])[|s|] == x;
  }

  lemma PermutationKeepsLinks(a: seq<NewsItem>, b: seq<NewsItem>)
    requires multiset(a) == multiset(b)
    ensures Links(a) == Links(b)
  {
    forall l | l in Links(a)
      ensures l in Links(b)
    {
      var k :| 0 <= k < |a| && a[k].channelLink == l;
      assert a[k] in multiset(b);
      var k' :| 0 <= k' < |b| && b[k'] == a[k];
    }
    forall l | l in Links(b)
      ensures l in Links(a)
    {
      var k :| 0 <= k < |b| && b[k].channelLink == l;
      assert b[k] in multiset(a);
      var k' :| 0 <= k' < |a| && a[k'] == b[k];
    }
  }

  lemma {:induction false} DistinctOccursOnce(b: seq<NewsItem>, x: NewsItem)
    requires DistinctChannels(b)
    ensures multiset(b)[x] <= 1
  {
    if b != [] {
      DistinctOccursOnce(b[1..], x);
      assert b == [b[0]] + b[1..];
      if x == b[0] {
        assert x !in b[1..];
      }
    }
  }

  lemma RepeatedOccursTwice(a: seq<NewsItem>, i: int, j: int)
    requires 0 <= i < j < |a| && a[i] == a[j]
    ensures multiset(a)[a[i]] >= 2
  {
    assert a == a[..j] + a[j..];
    assert a[i] == a[..j][i];
    assert a[j] == a[j..][0];
  }

  lemma PermutationKeepsDistinct(a: seq<NewsItem>, b: seq<NewsItem>)
    requires multiset(a) == multiset(b)
    requires DistinctChannels(b)
    ensures DistinctChannels(a)
  {
    forall i, j | 0 <= i < j < |a|
      ensures a[i].channelLink != a[j].channelLink
    {
      assert a[i] in multiset(b) && a[j] in multiset(b);
      var i' :| 0 <= i' < |b| && b[i'] == a[i];
      var j' :| 0 <= j' < |b| && b[j'] == a[j];
      if a[i] == a[j] {
        RepeatedOccursTwice(a, i, j);
        DistinctOccursOnce(b, a[i]);
      } else {
        assert i' != j';
      }
    }
  }

  // The counts add up to the number of items.

  /** How many elements of `reps` belong to channel `link`. */
  function Occurrences(reps: seq<NewsItem>, link: string): nat {
    if reps == [] then 0 else (if reps[0].channelLink == link then 1 else 0) + Occurrences(reps[1..], link)
  }

  function CountSum(reps: seq<NewsItem>, items: seq<NewsItem>): nat {
    if reps == [] then 0 else Count(items, reps[0].channelLink) + CountSum(reps[1..], items)
  }

  lemma {:induction false} CountSumEmpty(reps: seq<NewsItem>)
    ensures CountSum(reps, []) == 0
  {
    if reps != [] {
      CountSumEmpty(reps[1..]);
    }
  }

  lemma {:induction false} CountSumSnoc(reps: seq<NewsItem>, items: seq<NewsItem>, x: NewsItem)
    ensures CountSum(reps, items + [x]) == CountSum(reps, items) + Occurrences(reps, x.channelLink)
  {
    assert (items + [x])[..|items|] == items;
    if reps != [] {
      CountSumSnoc(reps[1..], items, x);
    }
  }

  lemma {:induction false} OccurrencesOfDistinct(reps: seq<NewsItem>, link: string)
    requires DistinctChannels(reps)
    ensures Occurrences(reps, link) == if link in Links(reps) then 1 else 0
  {
    if reps != [] {
      OccurrencesOfDistinct(reps[1..], link);
      assert Links(reps) == {reps[0].channelLink} + Links(reps[1..]) by {
        assert reps == [reps[0]] + reps[1..];
        forall l | l in Links(reps) ensures l in {reps[0].channelLink} + Links(reps[1..]) {
          var k :| 0 <= k < |reps| && reps[k].channelLink == l;
          if k > 0 {
            assert reps[1..][k - 1] == reps[k];
          }
        }
        forall l | l in Links(reps[1..]) ensures l in Links(reps) {
          var k :| 0 <= k < |reps[1..]| && reps[1..][k].channelLink == l;
          assert reps[k + 1] == reps[1..][k];
        }
      }
      if reps[0].channelLink == link {
        forall k | 0 <= k < |reps[1..]|
          ensures reps[1..][k].channelLink != link
        {
          assert reps[1..][k] == reps[k + 1];
        }
      }
    }
  }

  lemma {:induction false} CountSumOfCover(reps: seq<NewsItem>, items: seq<NewsItem>)
    requires DistinctChannels(reps)
    requires Links(items) <= Links(reps)
    ensures CountSum(reps, items) == |items|
  {
    if items == [] {
      CountSumEmpty(reps);
    } else {
      var init, x := items[..|items| - 1], items[|items| - 1];
      assert items == init + [x];
      LinksSnoc(init, x);
      CountSumOfCover(reps, init);
      CountSumSnoc(reps, init, x);
      OccurrencesOfDistinct(reps, x.channelLink);
    }
  }

  lemma {:induction false} SumCountsMatches(reps: seq<NewsItem>, items: seq<NewsItem>, counts: map<string, int>)
    requires forall k :: 0 <= k < |reps| ==> reps[k].channelLink in counts && counts[reps[k].channelLink] == Count(items, reps[k].channelLink)
    ensures SumCounts(reps, counts) == CountSum(reps, items)
  {
    if reps != [] {
      SumCountsMatches(reps[1..], items, counts);
    }
  }

  /** One representative per channel accounts for every item: the counts sum to `|items|`. */
  lemma CountsAddUp(reps: seq<NewsItem>, items: seq<NewsItem>, counts: map<string, int>)
    requires DistinctChannels(reps)
    requires Links(reps) == Links(items)
    requires counts.Keys == Links(items)
    requires forall l :: l in counts ==> counts[l] == Count(items, l)
    ensures SumCounts(reps, counts) == |items|
  {
    forall k | 0 <= k < |reps|
      ensures reps[k].channelLink in counts
    {
      assert reps[k].channelLink in Links(reps);
    }
    SumCountsMatches(reps, items, counts);
    CountSumOfCover(reps, items);
  }
}
