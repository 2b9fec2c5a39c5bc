# news-aggregator, modelled in Dafny

This project models the core of the news aggregator: a Go server that polls RSS and Atom
feeds, normalises their entries into one `NewsItem` record, keeps them in a shared store,
and serves views of that store. The views are filtered by a recency window, sorted by
publication date, filtered by channel or by a search query, and summarised per channel. A
small browser script reconnects to the server's event stream and drives the sort toggle
and the search box.

The model has one Dafny module per source file, plus a few shared modules:

- `wrappers.dfy`: `Option`, `Result` and `Fault`. `Fault` is the nil-pointer dereference
  that the Go code can hit.
- `text.dfy`: the parts of Go's `strings` and `strconv` that the code uses, and
  JavaScript's `trim`.
- `models.dfy`: the `NewsItem` record, the `int64` time arithmetic of Go's `time` package,
  and an order-keeping `Filter` on sequences.
- `sorting.dfy`: `sort.Slice` with a one-key comparison, as an in-place insertion sort on an
  array. It is specified by a functional insertion sort.
- `utils.dfy` (`utils/utils.go`): tag stripping, the date normaliser, the window filter,
  the two sort directions, the channel filter, description truncation, and the per-channel
  summary `GetUniqueItems`.
- `feeds.dfy`: the item-mapping loop that the RSS and Atom parsers share.
- `rss.dfy` (`fetcher/rss.go`) and `atom.dfy` (`fetcher/atom.go`): mapping an
  already-decoded document to news items, and the token scan `ExtractLink`.
- `fetcher.dfy` (`fetcher/fetcher.go`): the outcome of one fetch, the `<rss`/`<feed`
  sniffing, and the append-only `ErrorURLs` log. The log is a class field.
- `config.dfy` (`config/config.go`): the line-by-line state machine of `LoadConfig`.
- `handlers.dfy` (`web/server/handlers/handlers.go`): the package-level store as a class
  `Store`, with one method per state-changing handler and one pass of the polling loop.
- `client.dfy` (`web/templates/static/main.js`): the reconnect counter, the sort button and
  the search box.

Things outside the program's own logic are parameters:

- the outcome of the HTTP exchange;
- the decoded XML document and its token stream (`None` when decoding fails);
- `time.Parse` for one layout;
- `url.QueryUnescape`;
- the favicon lookup;
- `time.Now()`;
- `Time.Format`.

A nil-pointer dereference that would panic in Go is an explicit `Err(NilDereference)`.
The Go code does not agree with itself on the shape of a news item, so the model picks
one consistent shape:

- `PubDate` is an instant in nanoseconds, not a string.
- `NewsItem` has the `Category` and `Favicon` fields that `fetcher/atom.go:117` and
  `utils/utils.go:132` use.
- `ParseRSS` takes no category, as in `fetcher/rss.go:120`.
- `UpdateNews` fetches with an empty category, as its one-argument call at
  `web/server/handlers/handlers.go:67` implies.

### Behaviour of the code worth noting

- Atom entries are dated from `updated` only (`fetcher/atom.go:98`); `published`
  (`fetcher/atom.go:38`) is never read.
- The Atom channel link is the first feed-level link whose `rel` is exactly `alternate`
  (`fetcher/atom.go:89-94`). Entry links are never read, and there is no raw-text fallback.
- An Atom item's own link is the channel link (`fetcher/atom.go:112`).
- Top-level RDF items are decoded (`fetcher/rss.go:36`) but the item loop reads only the
  channel's items (`fetcher/rss.go:138`).
- Only Atom items carry a category (`fetcher/atom.go:117`); the RSS item literal has none
  (`fetcher/rss.go:146-156`).
- Favicons are looked up while the per-channel summary is built
  (`utils/utils.go:131-136`), not by the parsers.
- Sorting uses `sort.Slice` (`utils/utils.go:81`, `utils/utils.go:146`), which is not
  stable: items with equal keys may come out in any order.

## Model

| member | source | states |
|---|---|---|
| Models.Saturate64 | utils/utils.go:69 | `now.Sub(t)` clamps to the `int64` range: in range it is exact, above it is the maximum, below it the minimum |
| Models.Wrap64 | web/server/handlers/handlers.go:221 | `time.Duration(hours) * time.Hour` wraps: the result is in the `int64` range and congruent to the exact product modulo 2^64 |
| Models.TruncDiv | web/server/handlers/handlers.go:268 | `int(d.Hours())` truncates toward zero: the remainder `a - q*b` has the sign of `a` (non-negative for `a >= 0`, non-positive for `a < 0`) and is smaller than `b` in magnitude |
| Text.TrimEmpty | config/config.go:31-32 | a trimmed line is empty exactly when every character of it is white space |
| Text.TrimSlice | config/config.go:31 | the trimmed line is a slice of the line with only white space before and after it |
| Text.TrimPrefix | config/config.go:47 | with the prefix present the line is the prefix followed by the result; without it the line is unchanged |
| Text.LastIndexOf | utils/utils.go:117 | the result is -1 or an index holding the byte, and no later index holds it |
| Text.ToLower | web/server/handlers/handlers.go:155-156 | the lowered string has the same length and lowers each character |
| Text.Atoi | web/server/handlers/handlers.go:217 | a number is accepted only from a sign or digit and only within the `int64` range |
| Text.AtoiRoundTrip | web/server/handlers/handlers.go:217 | `strconv.Atoi` reads back the decimal text of every `int64` value |
| Text.NatToStringDigits | web/server/handlers/handlers.go:53 | the decimal text `%d` prints has only digits, and they read back as the number |
| Sorting.Sort | utils/utils.go:81-86 | the in-place sort leaves the array holding `SortedBy` of its old contents |
| Sorting.SortedByPermutes | utils/utils.go:81-86 | the sort is a permutation of its input |
| Sorting.SortedByIsSorted | utils/utils.go:81-86 | no element is followed by one the comparison puts before it: keys are non-decreasing ascending, non-increasing descending |
| Sorting.InsertAt | utils/utils.go:81-86 | one insertion step puts `a[i]` into the sorted prefix and leaves the rest of the array alone |
| Utils.StripHTMLTags | utils/utils.go:22-36 | the loop with its `inTag` flag produces `Stripped(html)` |
| Utils.StripRemovesBrackets | utils/utils.go:22-36 | the output never contains `<` or `>` |
| Utils.StripIsSubseq | utils/utils.go:22-36 | the output is the input with some characters deleted, in order |
| Utils.StripIdempotent | utils/utils.go:22-36 | stripping twice is stripping once |
| Utils.StripKeepsPlainText | utils/utils.go:26-34 | text without angle brackets comes back unchanged |
| Utils.StripConcat | utils/utils.go:26-34 | the scan of a concatenation continues the second part from the state the first part left |
| Utils.StrayCloseDropped | utils/utils.go:29-30 | a stray `>` is dropped and splits nothing |
| Utils.UnclosedTagDropsRest | utils/utils.go:27-28 | a `<` that is never closed drops the rest of the input |
| Utils.FormatDateFirstMatch | utils/utils.go:38-62 | a blank date is the empty-date error; otherwise the first layout in list order that accepts the trimmed text decides the instant, and the date is an error exactly when no layout accepts it |
| Utils.FirstParseDecided | utils/utils.go:54-61 | the search returns the result of a layout that accepts the value with no earlier layout accepting it, and nothing exactly when no layout accepts it |
| Utils.RepeatedLayoutIsRedundant | utils/utils.go:44-52 | the sixth layout repeats the second, so removing it changes no result |
| Utils.FilterNewsByTime | utils/utils.go:64-78 | the loop yields `WithinWindow(newsItems, now, timeFilter)` whatever the sort filter |
| Utils.WithinWindowKeepsRecent | utils/utils.go:68-72 | exactly the items published no longer than the window ago are kept, in their original order |
| Utils.WindowMonotone | utils/utils.go:64-78 | a wider window keeps a super-sequence of what a narrower one keeps |
| Utils.SortByDirection | utils/utils.go:80-92 | the slice is sorted in place to `ByDirection` of its old contents |
| Utils.ByDirectionSorted | utils/utils.go:80-92 | the result is a permutation, ascending by `pubDate` for exactly "asc" and non-increasing for any other direction |
| Utils.FilterNewsByLink | utils/utils.go:94-107 | the loop yields `ByLink(filteredItems, link)` |
| Utils.ByLinkKeepsChannel | utils/utils.go:94-107 | an empty link returns the input; any other keeps exactly the items of that channel, in order |
| Utils.TruncateShape | utils/utils.go:109-122 | a description within the limit is unchanged; a longer one is the trimmed prefix up to the last space past the first byte (or up to the limit) plus " …", never longer than the limit plus 4 bytes |
| Utils.FirstIndex | utils/utils.go:130-131 | the first item of a channel belongs to it and exists whenever the channel occurs |
| Utils.TallyChannels | utils/utils.go:129-139 | after the first loop each channel has its first item, its number of items and its favicon (the first item's own, else the looked-up one) |
| Utils.Representatives | utils/utils.go:141-144 | the second loop lists each channel's first item exactly once |
| Utils.GetUniqueItems | utils/utils.go:124-155 | one representative per channel, the first item of that channel; per-channel counts and favicons; representatives by non-increasing count; counts summing to the number of items |
| Utils.ArrangedByCount | utils/utils.go:146-148 | sorting the representatives by count keeps one first item per channel and orders them by non-increasing count |
| Utils.CountsAddUp | utils/utils.go:138 | the counts of the representatives add up to the number of items |
| Feeds.Collect | fetcher/rss.go:137-159 | a successful mapping yields no more items than there are entries |
| Feeds.CollectFaults | fetcher/rss.go:138-157 | the mapping faults exactly when some dated entry faults while its item is built |
| Feeds.CollectItemsFromInput | fetcher/rss.go:138-157 | every item is built from a dated entry of the input |
| Feeds.CollectSkipsUndated | fetcher/rss.go:140-145 | entries whose date fails play no part |
| Feeds.CollectAllDated | fetcher/rss.go:146-156 | over dated entries a successful mapping yields one item per entry, in order |
| Feeds.CollectCongruent | fetcher/atom.go:97-119 | entries that agree on date and built item map alike |
| Rss.ExtractLink | fetcher/rss.go:161-182 | the token loop returns `FirstLink(tokens)` |
| Rss.FirstLinkWithoutStop | fetcher/rss.go:163-170 | with neither a decodable `link` nor a read error the scan returns "" |
| Rss.FirstLinkAtStop | fetcher/rss.go:171-178 | the first read error gives ""; the first decodable `link` gives its trimmed text, even when empty |
| Rss.ParseRSS | fetcher/rss.go:120-160 | the defaulting and the item loop compute `MapRss`: nothing when unmarshalling failed |
| Rss.RssItemsStamped | fetcher/rss.go:128-156 | every item carries the defaulted, never empty, channel title, the channel link with its `ExtractLink` fallback, an empty category, and the fields of an entry whose date parsed, its description stripped of tags |
| Rss.BuiltFromEntry | fetcher/rss.go:146-156 | an item built from an entry has the entry's title, link, author, comments and guid, its stripped description and its parsed date |
| Rss.RssGuidFault | fetcher/rss.go:153 | the parse faults exactly when an entry whose date parses has no `<guid>` |
| Rss.RssKeepsDatedInOrder | fetcher/rss.go:138-145 | a successful parse has one item per entry whose date parses, in document order |
| Rss.RdfItemsIgnored | fetcher/rss.go:36 | the top-level RDF items never change the result |
| Atom.ChannelLinkOf | fetcher/atom.go:88-94 | the loop with `break` returns `AlternateHref(links)` |
| Atom.NoAlternateLink | fetcher/atom.go:88-94 | with no link whose `rel` is exactly "alternate" the channel link is "" |
| Atom.FirstAlternateLink | fetcher/atom.go:89-92 | the first "alternate" link decides whatever follows |
| Atom.ParseAtom | fetcher/atom.go:82-122 | the channel-link loop and the entry loop compute `MapAtom`: nothing when unmarshalling failed |
| Atom.AtomItemsStamped | fetcher/atom.go:109-118 | every item's link and channel link are the "alternate" link, its channel title the feed title, its category the argument, and it comes from an entry whose `updated` parsed |
| Atom.BuiltFromEntry | fetcher/atom.go:105-118 | an item built from an entry has the entry's title, its stripped content as description, the raw content and the parsed date |
| Atom.AtomContentFault | fetcher/atom.go:114 | the parse faults exactly when an entry whose date parses has no `<content>` |
| Atom.AtomKeepsDatedInOrder | fetcher/atom.go:97-103 | a successful parse has one item per entry whose `updated` parses, in document order |
| Atom.EntryLinksAndPublishedIgnored | fetcher/atom.go:97-119 | entries that differ only in their own links and their `published` date give the same result |
| Fetcher.Report | fetcher/fetcher.go:63-72 | one fixed line for an empty log; otherwise a header and one line per record, oldest first |
| Fetcher.Fetcher.constructor | fetcher/fetcher.go:18 | the log starts empty |
| Fetcher.Fetcher.FetchNews | fetcher/fetcher.go:20-61 | the result is `FetchResult` of the outcome, and the log grows by exactly one record for a non-200 status and by nothing otherwise, even for an empty URL |
| Fetcher.Fetcher.CheckError | fetcher/fetcher.go:63-72 | the lines written are `Report(errorURLs)`, and the log is only read |
| Fetcher.DialectSniffing | fetcher/fetcher.go:51-60 | `<rss` goes to the RSS parser even when `<feed` also occurs; only `<feed` goes to the Atom parser; neither gives no items |
| Fetcher.FetchFaults | fetcher/fetcher.go:20-61 | a fetch faults exactly when the request could not be built, or a 200 body decodes with a dated entry lacking `<guid>` (RSS) or `<content>` (Atom) |
| Config.LoadConfig | config/config.go:18-60 | the scanner loop over the lines yields `ParseConfig(lines)` |
| Config.IgnorableLinesAreInert | config/config.go:31-34 | a blank or `//` line can be removed from anywhere without changing the configuration |
| Config.NothingBeforeFeed | config/config.go:27-45 | without an exact `feed:` line no feed is recorded, whatever `url:` lines there are |
| Config.NothingBeforeHeader | config/config.go:36-45 | until a header is seen every line leaves the scanner in its start state |
| Config.UrlLine | config/config.go:46-47 | a trimmed line starting with `url:` is a URL field whose value is the trimmed rest |
| Config.LaterUrlWins | config/config.go:44-51 | in feed mode the later of two `url:` lines wins |
| Config.HeaderEmitsOrCarries | config/config.go:37-42 | at `feed:` a pending record with a URL is emitted and reset; one without a URL is kept, so its category carries into the next block |
| Config.ConfigUrlsNonEmpty | config/config.go:38-41 | every emitted record has a non-empty URL |
| Config.ConfigPrefix | config/config.go:38-57 | records appear in file order: the lines of a prefix emit a prefix of the records |
| Config.RunOnlyAppends | config/config.go:39 | the scanner only appends to the records already emitted |
| Handlers.Store.constructor | web/server/handlers/handlers.go:20-28 | the store starts with Go's zero values |
| Handlers.Store.ApplyDefaults | web/server/handlers/handlers.go:46-51 | a zero window becomes 24 hours and an empty direction "desc"; nothing else changes |
| Handlers.Store.UpdateNewsDefaults | web/server/handlers/handlers.go:45-54 | the defaults, plus a title naming the window's hours if the title is empty |
| Handlers.Store.Refresh | web/server/handlers/handlers.go:70-72 | the items on show become the window's items in the chosen direction at `now` |
| Handlers.Store.UpdatePass | web/server/handlers/handlers.go:54-76 | the five fixed feeds are polled in order; after the k-th feed the store holds exactly feeds 1..k of this pass and shows their view; a fault stops the pass at the faulting feed; the fetcher log grows by this pass's records |
| Handlers.PassStep | web/server/handlers/handlers.go:66-68 | a feed that does not fault extends the gathered items by its own |
| Handlers.PassFaults | web/server/handlers/handlers.go:66-68 | a pass fails exactly when one of its fetches faults |
| Handlers.PassGrows | web/server/handlers/handlers.go:64-70 | without faults, what the first n feeds gathered is a prefix of what the whole pass gathers |
| Handlers.FaultIsNotLogged | web/server/handlers/handlers.go:67 | a fetch that faults adds no record to the log |
| Handlers.Store.HandleSortNews | web/server/handlers/handlers.go:211-277 | the headers set the window and direction; the items on show are recomputed; the response holds them, their number, the window's hours, the direction and their per-channel summary |
| Handlers.WindowHeader | web/server/handlers/handlers.go:215-222 | an empty header keeps the window, a non-number gives 24 hours, a number of hours that fits gives that duration, reported back as the same number |
| Handlers.EchoedHoursRestoreWindow | web/server/handlers/handlers.go:215-222 | the hours a response reports, sent back as the header, restore the same window |
| Handlers.WholeHoursOf | web/server/handlers/handlers.go:268 | the whole hours of `h` hours are `h` |
| Handlers.SortRequestIdempotent | web/server/handlers/handlers.go:211-233 | the same sort request twice at the same `now` leaves the same window, direction and items on show |
| Handlers.SearchItems | web/server/handlers/handlers.go:152-160 | the search loop yields `Doubled(items, query)` |
| Handlers.DoubledIsEachMatchTwice | web/server/handlers/handlers.go:154-159 | the result has twice as many items as there are matches, and items 2k and 2k+1 are both the k-th match |
| Handlers.Store.HandleFilterNewsBySearch | web/server/handlers/handlers.go:140-209 | an undecodable query and an empty query are refused; otherwise every match appears twice in a row and the count is the doubled list's length; the store is not changed |
| Handlers.Store.HandleFilterNewsByLink | web/server/handlers/handlers.go:441-497 | an empty link is refused; otherwise the channel's items are shown, the title becomes the first match's channel title or stays, and the count is that of all items on show |
| Handlers.LinkTitleIsFirstOfChannel | web/server/handlers/handlers.go:451-456 | there is a match exactly when the channel occurs, and the first match is the channel's first item, the same item that represents it in the summary |
| Handlers.Store.HandleLoadNews | web/server/handlers/handlers.go:379-440 | the defaults are applied, the title names the window's hours, and `loading` is true exactly when nothing is on show |
| Handlers.DefaultTitleOfDefaultWindow | web/server/handlers/handlers.go:53 | the default window gives the title "All news for the last 24 hours" |
| Client.Backoff | web/templates/static/main.js:90 | every delay lies between one and thirty seconds |
| Client.Reconnector.constructor | web/templates/static/main.js:60 | the counter starts at zero |
| Client.Reconnector.OnInit | web/templates/static/main.js:69-73 | an `init` event resets the counter to zero |
| Client.Reconnector.OnError | web/templates/static/main.js:84-97 | below five attempts an error schedules `min(1000 * 2^k, 30000)` ms and counts it; at five it schedules nothing; the counter never exceeds five |
| Client.CapNeverBinds | web/templates/static/main.js:60-63 | below the maximum number of attempts the 30-second cap never applies |
| Client.BackoffDoubles | web/templates/static/main.js:90 | each delay is twice the one before it |
| Client.DelaysAre | web/templates/static/main.js:89-96 | the i-th error of a run schedules the back-off of attempt i while attempts remain, and nothing afterwards |
| Client.FreshSchedule | web/templates/static/main.js:89-96 | from a fresh counter the delays are 1, 2, 4, 8 and 16 seconds, then none |
| Client.ReconnectsBounded | web/templates/static/main.js:89-96 | between two `init` events at most five reconnects are scheduled, one per remaining attempt |
| Client.NextSortToggles | web/templates/static/main.js:406-412 | the requested sort always differs from the shown one, is one the server accepts, and two clicks come back to "asc" or "desc" |
| Client.SortButton.Toggle | web/templates/static/main.js:405-433 | the request asks for the toggled sort; only a successful response updates the recorded sort and the arrow, which then agree |
| Client.SearchInputTrims | web/templates/static/main.js:316-324 | a box holding only white space reloads all news; otherwise the query is the trimmed value, non-empty and without surrounding white space |
| Client.SearchInputIdempotent | web/templates/static/main.js:318 | typing the trimmed value gives the same action |

## Left out

- HTTP: timeouts, headers and body reading. The outcome of each exchange is a parameter.
- XML decoding and tokenising. The decoded RSS and Atom documents and the token stream are datatypes, with a failed decode as `None`.
- `time.Parse` layout semantics and the `.Local()` conversion. Any per-layout parser may stand in.
- The favicon lookup `GetFaviconURL`: the network request, the regular-expression scan and the per-host cache. It is a function parameter.
- Concurrency: the mutex, the update goroutine, `broadcastUpdate` and the SSE handler. The store is modelled sequentially.
- Rendering: templates, JSON encoding, `HandleIndex`, the static view handlers, and the DOM and `fetch` calls of the browser script.
- `config/config.go` file handling: `os.Open` and scanner errors. The input is the sequence of lines.
- Logging and `main.go`/`server.go` wiring.
- Handlers.Store.UpdatePass: models one pass of the polling loop. The endless outer loop, the per-feed one-second sleep, the 30-minute sleep and the broadcast are left out. One `now` per feed stands for both the clock read inside `FilterNewsByTime` and the one that stamps the error log.
- Fetcher.Fetcher.FetchNews: does not model the `CheckError` call at line 48, because that call only writes to the log output.
- Text.ToLower: lowers ASCII letters only, not Unicode `strings.ToLower`.
- Handlers.Store.HandleFilterNewsBySearch: `url.QueryUnescape` is a parameter.
- Utils.TruncateDescription: `maxLen` is a natural number, because a negative one makes the Go slice expression panic. `strings.TrimSpace` on the truncated bytes removes ASCII white space only, and multi-byte characters cut in the middle are not decoded.
- Models.WholeHours: `int(d.Hours())` goes through a float. The model divides exactly by an hour and truncates toward zero, so rounding of very large durations is not modelled.
- Utils.SortByDirection: `sort.Slice` is not stable. The model sorts with one particular stable insertion sort, and only sortedness and permutation are claimed to hold of the source. The same holds for the order among channels with equal counts in `GetUniqueItems`.
- Rss.ParseRSS: the category argument of `fetcher/fetcher.go:53` does not exist at `fetcher/rss.go:120`. The model follows `rss.go`, so RSS items have an empty category.
- `models/models.go` is only the record shape. It becomes the `NewsItem` datatype with an integer `pubDate` and the `category` and `favicon` fields its users need.
