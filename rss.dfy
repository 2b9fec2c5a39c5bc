/** `fetcher/rss.go`: mapping an already-decoded RSS document to news items, and the
    fallback scan of the raw token stream for the first `<link>` element. */
module Rss {
  import opened Wrappers
  import opened Text
  import opened Models
  import opened Utils
  import opened Feeds

  /** One decoded `channel>item`; `guid` is `None` when the item has no `<guid>` element. */
  datatype RssItem = RssItem(
    title: string,
    link: string,
    description: string,
    author: string,
    comments: string,
    guid: Option<string>,
    pubDate: string)

  /** The decoded document: the channel's title and link, the `channel>item` entries and
      the top-level RDF `item` entries. */
  datatype RssDoc = RssDoc(title: string, link: string, items: seq<RssItem>, rdfItems: seq<RssItem>)

  /** What the XML tokenizer yields: a start element together with the outcome of decoding
      its text content (`None` when that decode fails), any other token, or a read error. */
  datatype Token = StartElement(local: string, text: Option<string>) | OtherToken | Broken

  /** The channel title stamped on every item. */
  const MissingTitle: string := "Title is missing"

  // ---------------------------------------------------------------------------------------
  // ExtractLink

  /** A token at which the scan stops: a read error, or a `link` element whose text decodes. */
  predicate StopsScan(t: Token) {
    t.Broken? || (t.StartElement? && t.local == "link" && t.text.Some?)
  }

  /** The trimmed text of the first decodable `link` element before any read error, else "". */
  function FirstLink(tokens: seq<Token>): string {
    if tokens == [] then ""
    else if tokens[0].Broken? then ""
    else if StopsScan(tokens[0]) then TrimSpace(tokens[0].text.value)
    else FirstLink(tokens[1..])
  }

  method ExtractLink(tokens: seq<Token>) returns (link: string)
    ensures link == FirstLink(tokens)
  {
    var i := 0;
    while i < |tokens|
      invariant i <= |tokens|
      invariant FirstLink(tokens[i..]) == FirstLink(tokens)
    {
      assert tokens[i..][1..] == tokens[i + 1..];
      var tok := tokens[i];
      if tok.Broken? {
        break;
      }
      if tok.StartElement? && tok.local == "link" {
        if tok.text.Some? {
          return TrimSpace(tok.text.value);
        }
      }
      i := i + 1;
    }
    link := "";
  }

  /** The scan returns "" when it meets neither a decodable `link` nor a read error. */
  lemma {:induction false} FirstLinkWithoutStop(tokens: seq<Token>)
    requires forall j :: 0 <= j < |tokens| ==> !StopsScan(tokens[j])
    ensures FirstLink(tokens) == ""
  {
    if tokens != [] {
      assert forall j :: 0 <= j < |tokens[1..]| ==> tokens[1..][j] == tokens[j + 1];
      FirstLinkWithoutStop(tokens[1..]);
    }
  }

  /** Otherwise the first token that stops the scan decides: "" for a read error, the trimmed
      text for a link, which may itself be empty. */
  lemma {:induction false} FirstLinkAtStop(tokens: seq<Token>, k: nat)
    requires k < |tokens| && StopsScan(tokens[k])
    requires forall j :: 0 <= j < k ==> !StopsScan(tokens[j])
    ensures FirstLink(tokens) == (if tokens[k].Broken? then "" else TrimSpace(tokens[k].text.value))
  {
    if k > 0 {
      assert forall j :: 0 <= j < k - 1 ==> tokens[1..][j] == tokens[j + 1];
      FirstLinkAtStop(tokens[1..], k - 1);
    }
  }

  // ---------------------------------------------------------------------------------------
  // ParseRSS

  /** The channel title after defaulting. */
  function ChannelTitleOf(doc: RssDoc): string {
    if doc.title == "" then MissingTitle else doc.title
  }

  /** The channel link after the fallback to the token scan. */
  function ChannelLinkOf(doc: RssDoc, tokens: seq<Token>): string {
    if doc.link == "" then FirstLink(tokens) else doc.link
  }

  /** The item's publication instant, when its `pubDate` parses. */
  function DateOf(item: RssItem, parse: LayoutParser): Option<int> {
    match FormatDate(item.pubDate, parse)
    case Ok(t) => Some(t)
    case Err(_) => None
  }

  function RssDated(parse: LayoutParser): RssItem -> Option<int> {
    (item: RssItem) => DateOf(item, parse)
  }

  /** The news item a dated entry becomes; reading the value of a missing `<guid>` faults. */
  function BuildItem(channelTitle: string, channelLink: string, item: RssItem, t: int): Result<NewsItem, Fault> {
    if item.guid.None? then Err(NilDereference)
    else Ok(NewsItem(
      item.title, Stripped(item.description), item.link, t, "", "", item.author, item.comments,
      item.guid.value, channelLink, channelTitle, "", ""))
  }

  function RssBuild(channelTitle: string, channelLink: string): (RssItem, int) -> Result<NewsItem, Fault> {
    (item: RssItem, t: int) => BuildItem(channelTitle, channelLink, item, t)
  }

  /** What `ParseRSS` returns: nothing when decoding failed, otherwise the items of the
      channel's dated entries. */
  function MapRss(decoded: Option<RssDoc>, tokens: seq<Token>, parse: LayoutParser): Result<seq<NewsItem>, Fault> {
    match decoded
    case None => Ok([])
    case Some(doc) => Collect(doc.items, RssDated(parse), RssBuild(ChannelTitleOf(doc), ChannelLinkOf(doc, tokens)))
  }

  /** `decoded` is the outcome of unmarshalling the body, `tokens` the body's token stream,
      `parse` the per-layout `time.Parse`. */
  method ParseRSS(decoded: Option<RssDoc>, tokens: seq<Token>, parse: LayoutParser)
    returns (r: Result<seq<NewsItem>, Fault>)
    ensures r == MapRss(decoded, tokens, parse)
  {
    if decoded.None? {
      return Ok([]);
    }
    var rss := decoded.value;
    var title, link := rss.title, rss.link;
    if title == "" {
      title := MissingTitle;
    }
    if link == "" {
      link := ExtractLink(tokens);
    }
    ghost var dated, build := RssDated(parse), RssBuild(title, link);
    assert Collect(rss.items, dated, build) == MapRss(decoded, tokens, parse);
    assert rss.items[0..] == rss.items;
    ResumeEmpty(Collect(rss.items, dated, build));
    var newsItems := [];
    for i := 0 to |rss.items|
      invariant Resume(newsItems, Collect(rss.items[i..], dated, build)) == MapRss(decoded, tokens, parse)
    {
      CollectStep(rss.items, i, dated, build);
      var item := rss.items[i];
      var cleanedDescription := StripHTMLTags(item.description);
      var pubTime := FormatDate(item.pubDate, parse);
      DatedByFormatDate(item, parse);
      if pubTime.Err? {
        continue;
      }
      if item.guid.None? {
        GuidFaults(title, link, item, pubTime.value);
        assert Faults(item, dated, build);
        return Err(NilDereference);
      }
      var newsItem := NewsItem(
        item.title, cleanedDescription, item.link, pubTime.value, "", "", item.author, item.comments,
        item.guid.value, link, title, "", "");
      BuildsItem(title, link, item, pubTime.value, cleanedDescription);
      newsItems := newsItems + [newsItem];
    }
    assert rss.items[|rss.items|..] == [] && newsItems + [] == newsItems;
    r := Ok(newsItems);
  }

  lemma DatedByFormatDate(item: RssItem, parse: LayoutParser)
    ensures RssDated(parse)(item) == (if FormatDate(item.pubDate, parse).Ok? then Some(FormatDate(item.pubDate, parse).value) else None)
  {
  }

  lemma FaultsWhen(title: string, link: string, item: RssItem, parse: LayoutParser)
    ensures Faults(item, RssDated(parse), RssBuild(title, link)) <==> FormatDate(item.pubDate, parse).Ok? && item.guid.None?
  {
    DatedByFormatDate(item, parse);
  }

  lemma GuidFaults(title: string, link: string, item: RssItem, t: int)
    requires item.guid.None?
    ensures RssBuild(title, link)(item, t) == Err(NilDereference)
  {
  }

  lemma BuildsItem(title: string, link: string, item: RssItem, t: int, cleaned: string)
    requires item.guid.Some? && cleaned == Stripped(item.description)
    ensures RssBuild(title, link)(item, t) == Ok(NewsItem(
      item.title, cleaned, item.link, t, "", "", item.author, item.comments, item.guid.value, link, title, "", ""))
  {
  }

  /** The fields an item takes from the channel entry it was built from. */
  predicate FromEntry(n: NewsItem, item: RssItem, parse: LayoutParser) {
    FormatDate(item.pubDate, parse) == Ok(n.pubDate) && item.guid == Some(n.guid) &&
    n.description == Stripped(item.description) && n.title == item.title && n.link == item.link &&
    n.creator == item.author && n.comments == item.comments
  }

  /** An item built from an entry carries that entry's fields and the channel's. */
  lemma BuiltFromEntry(title: string, link: string, item: RssItem, parse: LayoutParser, n: NewsItem)
    requires RssDated(parse)(item).Some? && RssBuild(title, link)(item, RssDated(parse)(item).value) == Ok(n)
    ensures FromEntry(n, item, parse) && n.channelTitle == title && n.channelLink == link && n.category == ""
  {
  }

  /** Every item carries the defaulted, never empty, channel title and the channel link, an
      empty category, and comes from a channel entry whose date parsed to its `pubDate`, with
      that entry's title, link, author, comments and guid and its description stripped of tags. */
  lemma RssItemsStamped(doc: RssDoc, tokens: seq<Token>, parse: LayoutParser)
    ensures MapRss(Some(doc), tokens, parse).Ok? ==> forall n :: n in MapRss(Some(doc), tokens, parse).value ==>
      n.channelTitle == ChannelTitleOf(doc) != "" && n.channelLink == ChannelLinkOf(doc, tokens) && n.category == "" &&
      exists k :: 0 <= k < |doc.items| && FromEntry(n, doc.items[k], parse)
  {
    var dated, build := RssDated(parse), RssBuild(ChannelTitleOf(doc), ChannelLinkOf(doc, tokens));
    CollectItemsFromInput(doc.items, dated, build);
    var r := MapRss(Some(doc), tokens, parse);
    if r.Ok? {
      forall n | n in r.value
        ensures n.channelTitle == ChannelTitleOf(doc) != "" && n.channelLink == ChannelLinkOf(doc, tokens) && n.category == ""
        ensures exists k :: 0 <= k < |doc.items| && FromEntry(n, doc.items[k], parse)
      {
        var j :| 0 <= j < |r.value| && r.value[j] == n;
        var k :| 0 <= k < |doc.items| && dated(doc.items[k]).Some? && build(doc.items[k], dated(doc.items[k]).value) == Ok(n);
        BuiltFromEntry(ChannelTitleOf(doc), ChannelLinkOf(doc, tokens), doc.items[k], parse, n);
      }
    }
  }

  /** The parse faults exactly when an entry whose date parses has no `<guid>`. */
  lemma RssGuidFault(doc: RssDoc, tokens: seq<Token>, parse: LayoutParser)
    ensures MapRss(Some(doc), tokens, parse).Err? <==>
      exists k :: 0 <= k < |doc.items| && FormatDate(doc.items[k].pubDate, parse).Ok? && doc.items[k].guid.None?
  {
    var dated, build := RssDated(parse), RssBuild(ChannelTitleOf(doc), ChannelLinkOf(doc, tokens));
    CollectFaults(doc.items, dated, build);
    if MapRss(Some(doc), tokens, parse).Err? {
      var k :| 0 <= k < |doc.items| && Faults(doc.items[k], dated, build);
      FaultsWhen(ChannelTitleOf(doc), ChannelLinkOf(doc, tokens), doc.items[k], parse);
    }
    if exists k :: 0 <= k < |doc.items| && FormatDate(doc.items[k].pubDate, parse).Ok? && doc.items[k].guid.None? {
      var k :| 0 <= k < |doc.items| && FormatDate(doc.items[k].pubDate, parse).Ok? && doc.items[k].guid.None?;
      FaultsWhen(ChannelTitleOf(doc), ChannelLinkOf(doc, tokens), doc.items[k], parse);
    }
  }

  /** A successful parse has one item per entry whose date parses, in document order: the
      entries whose date fails are exactly the ones skipped. */
  lemma RssKeepsDatedInOrder(doc: RssDoc, tokens: seq<Token>, parse: LayoutParser)
    ensures var kept := Filter(doc.items, DatedTest(RssDated(parse)));
      MapRss(Some(doc), tokens, parse).Ok? ==>
        |MapRss(Some(doc), tokens, parse).value| == |kept| &&
        forall k :: 0 <= k < |kept| ==> FromEntry(MapRss(Some(doc), tokens, parse).value[k], kept[k], parse)
  {
    var dated, build := RssDated(parse), RssBuild(ChannelTitleOf(doc), ChannelLinkOf(doc, tokens));
    var kept := Filter(doc.items, DatedTest(dated));
    CollectSkipsUndated(doc.items, dated, build);
    FilterAccepts(doc.items, DatedTest(dated));
    CollectAllDated(kept, dated, build);
    var r := MapRss(Some(doc), tokens, parse);
    if r.Ok? {
      forall k | 0 <= k < |kept|
        ensures FromEntry(r.value[k], kept[k], parse)
      {
        BuiltFromEntry(ChannelTitleOf(doc), ChannelLinkOf(doc, tokens), kept[k], parse, r.value[k]);
      }
    }
  }

  /** The top-level RDF items never contribute. */
  lemma RdfItemsIgnored(doc: RssDoc, rdfItems: seq<RssItem>, tokens: seq<Token>, parse: LayoutParser)
    ensures MapRss(Some(doc.(rdfItems := rdfItems)), tokens, parse) == MapRss(Some(doc), tokens, parse)
  {
  }
}
