/** `fetcher/atom.go`: mapping an already-decoded Atom feed to news items. */
module Atom {
  import opened Wrappers
  import opened Models
  import opened Utils
  import opened Feeds

  datatype AtomLink = AtomLink(href: string, rel: string)

  /** One decoded `entry`: `content` is `None` when the entry has no `<content>` element;
      `published` is decoded but never read. */
  datatype AtomEntry = AtomEntry(
    title: string,
    updated: string,
    content: Option<string>,
    links: seq<AtomLink>,
    published: Option<int>)

  datatype AtomFeed = AtomFeed(title: string, links: seq<AtomLink>, entries: seq<AtomEntry>)

  // ---------------------------------------------------------------------------------------
  // The channel link

  /** The `href` of the first feed-level link whose `rel` is exactly "alternate", else "". */
  function AlternateHref(links: seq<AtomLink>): string {
    if links == [] then ""
    else if links[0].rel == "alternate" then links[0].href
    else AlternateHref(links[1..])
  }

  method ChannelLinkOf(links: seq<AtomLink>) returns (channelLink: string)
    ensures channelLink == AlternateHref(links)
  {
    channelLink := "";
    for i := 0 to |links|
      invariant AlternateHref(links[i..]) == AlternateHref(links)
    {
      assert links[i..][1..] == links[i + 1..];
      if links[i].rel == "alternate" {
        channelLink := links[i].href;
        break;
      }
    }
  }

  /** No link is marked "alternate" (a link with no `rel` is not): the channel link is "". */
  lemma {:induction false} NoAlternateLink(links: seq<AtomLink>)
    requires forall j :: 0 <= j < |links| ==> links[j].rel != "alternate"
    ensures AlternateHref(links) == ""
  {
    if links != [] {
      assert forall j :: 0 <= j < |links[1..]| ==> links[1..][j] == links[j + 1];
      NoAlternateLink(links[1..]);
    }
  }

  /** The first "alternate" link decides, whatever follows it. */
  lemma {:induction false} FirstAlternateLink(links: seq<AtomLink>, k: nat)
    requires k < |links| && links[k].rel == "alternate"
    requires forall j :: 0 <= j < k ==> links[j].rel != "alternate"
    ensures AlternateHref(links) == links[k].href
  {
    if k > 0 {
      assert forall j :: 0 <= j < k - 1 ==> links[1..][j] == links[j + 1];
      FirstAlternateLink(links[1..], k - 1);
    }
  }

  // ---------------------------------------------------------------------------------------
  // ParseAtom

  /** The entry's publication instant, taken from `updated` only. */
  function DateOf(entry: AtomEntry, parse: LayoutParser): Option<int> {
    match FormatDate(entry.updated, parse)
    case Ok(t) => Some(t)
    case Err(_) => None
  }

  function AtomDated(parse: LayoutParser): AtomEntry -> Option<int> {
    (entry: AtomEntry) => DateOf(entry, parse)
  }

  /** The news item a dated entry becomes; reading the text of a missing `<content>` faults. */
  function BuildItem(channelLink: string, feedTitle: string, category: string, entry: AtomEntry, t: int)
    : Result<NewsItem, Fault>
  {
    match entry.content
    case None => Err(NilDereference)
    case Some(text) => Ok(NewsItem(
      entry.title, Stripped(text), channelLink, t, text, "", "", "", "",
      channelLink, feedTitle, category, ""))
  }

  function AtomBuild(channelLink: string, feedTitle: string, category: string): (AtomEntry, int) -> Result<NewsItem, Fault> {
    (entry: AtomEntry, t: int) => BuildItem(channelLink, feedTitle, category, entry, t)
  }

  /** What `ParseAtom` returns: nothing when decoding failed, otherwise the items of the
      feed's dated entries. */
  function MapAtom(decoded: Option<AtomFeed>, category: string, parse: LayoutParser): Result<seq<NewsItem>, Fault> {
    match decoded
    case None => Ok([])
    case Some(feed) => Collect(feed.entries, AtomDated(parse), AtomBuild(AlternateHref(feed.links), feed.title, category))
  }

  lemma DatedByFormatDate(entry: AtomEntry, parse: LayoutParser)
    ensures AtomDated(parse)(entry) ==
      (if FormatDate(entry.updated, parse).Ok? then Some(FormatDate(entry.updated, parse).value) else None)
  {
  }

  lemma ContentFaults(channelLink: string, feedTitle: string, category: string, entry: AtomEntry, t: int)
    requires entry.content.None?
    ensures AtomBuild(channelLink, feedTitle, category)(entry, t) == Err(NilDereference)
  {
  }

  lemma BuildsItem(channelLink: string, feedTitle: string, category: string, entry: AtomEntry, t: int, cleaned: string)
    requires entry.content.Some? && cleaned == Stripped(entry.content.value)
    ensures AtomBuild(channelLink, feedTitle, category)(entry, t) == Ok(NewsItem(
      entry.title, cleaned, channelLink, t, entry.content.value, "", "", "", "",
      channelLink, feedTitle, category, ""))
  {
  }

  /** `decoded` is the outcome of unmarshalling the body, `parse` the per-layout `time.Parse`. */
  method ParseAtom(decoded: Option<AtomFeed>, category: string, parse: LayoutParser)
    returns (r: Result<seq<NewsItem>, Fault>)
    ensures r == MapAtom(decoded, category, parse)
  {
    if decoded.None? {
      return Ok([]);
    }
    var atom := decoded.value;
    var channelLink := ChannelLinkOf(atom.links);
    ghost var dated, build := AtomDated(parse), AtomBuild(channelLink, atom.title, category);
    assert Collect(atom.entries, dated, build) == MapAtom(decoded, category, parse);
    assert atom.entries[0..] == atom.entries;
    ResumeEmpty(Collect(atom.entries, dated, build));
    var newsItems := [];
    for i := 0 to |atom.entries|
      invariant Resume(newsItems, Collect(atom.entries[i..], dated, build)) == MapAtom(decoded, category, parse)
    {
      CollectStep(atom.entries, i, dated, build);
      var entry := atom.entries[i];
      var pubTime := FormatDate(entry.updated, parse);
      DatedByFormatDate(entry, parse);
      if pubTime.Err? {
        continue;
      }
      var cleanedDescription := "";
      if entry.content.Some? {
        cleanedDescription := StripHTMLTags(entry.content.value);
      }
      if entry.content.None? {
        ContentFaults(channelLink, atom.title, category, entry, pubTime.value);
        assert Faults(entry, dated, build);
        return Err(NilDereference);
      }
      var newsItem := NewsItem(
        entry.title, cleanedDescription, channelLink, pubTime.value, entry.content.value, "", "", "", "",
        channelLink, atom.title, category, "");
      BuildsItem(channelLink, atom.title, category, entry, pubTime.value, cleanedDescription);
      newsItems := newsItems + [newsItem];
    }
    assert atom.entries[|atom.entries|..] == [] && newsItems + [] == newsItems;
    r := Ok(newsItems);
  }

  /** The fields an item takes from the entry it was built from. */
  predicate FromEntry(n: NewsItem, entry: AtomEntry, parse: LayoutParser) {
    FormatDate(entry.updated, parse) == Ok(n.pubDate) && entry.content == Some(n.content) &&
    n.description == Stripped(n.content) && n.title == entry.title
  }

  /** An item built from an entry carries that entry's fields and the feed's. */
  lemma BuiltFromEntry(channelLink: string, feedTitle: string, category: string, entry: AtomEntry,
                       parse: LayoutParser, n: NewsItem)
    requires AtomDated(parse)(entry).Some?
    requires AtomBuild(channelLink, feedTitle, category)(entry, AtomDated(parse)(entry).value) == Ok(n)
    ensures FromEntry(n, entry, parse)
    ensures n.link == n.channelLink == channelLink && n.channelTitle == feedTitle && n.category == category
  {
  }

  /** Every item's link and channel link are both the feed's "alternate" link, its channel
      title is the feed title and its category the argument; it comes from an entry whose
      `updated` parsed to its `pubDate`, whose content text it holds, stripped of tags as its
      description. */
  lemma AtomItemsStamped(feed: AtomFeed, category: string, parse: LayoutParser)
    ensures MapAtom(Some(feed), category, parse).Ok? ==> forall n :: n in MapAtom(Some(feed), category, parse).value ==>
      n.link == n.channelLink == AlternateHref(feed.links) && n.channelTitle == feed.title && n.category == category &&
      exists k :: 0 <= k < |feed.entries| && FromEntry(n, feed.entries[k], parse)
  {
    var dated, build := AtomDated(parse), AtomBuild(AlternateHref(feed.links), feed.title, category);
    CollectItemsFromInput(feed.entries, dated, build);
    var r := MapAtom(Some(feed), category, parse);
    if r.Ok? {
      forall n | n in r.value
        ensures n.link == n.channelLink == AlternateHref(feed.links) && n.channelTitle == feed.title && n.category == category
        ensures exists k :: 0 <= k < |feed.entries| && FromEntry(n, feed.entries[k], parse)
      {
        var j :| 0 <= j < |r.value| && r.value[j] == n;
        var k :| 0 <= k < |feed.entries| && dated(feed.entries[k]).Some? && build(feed.entries[k], dated(feed.entries[k]).value) == Ok(n);
        BuiltFromEntry(AlternateHref(feed.links), feed.title, category, feed.entries[k], parse, n);
      }
    }
  }

  lemma FaultsWhen(channelLink: string, feedTitle: string, category: string, entry: AtomEntry, parse: LayoutParser)
    ensures Faults(entry, AtomDated(parse), AtomBuild(channelLink, feedTitle, category)) <==>
      FormatDate(entry.updated, parse).Ok? && entry.content.None?
  {
    DatedByFormatDate(entry, parse);
  }

  /** The parse faults exactly when an entry whose date parses has no `<content>`. */
  lemma AtomContentFault(feed: AtomFeed, category: string, parse: LayoutParser)
    ensures MapAtom(Some(feed), category, parse).Err? <==>
      exists k :: 0 <= k < |feed.entries| && FormatDate(feed.entries[k].updated, parse).Ok? && feed.entries[k].content.None?
  {
    var channelLink := AlternateHref(feed.links);
    var dated, build := AtomDated(parse), AtomBuild(channelLink, feed.title, category);
    CollectFaults(feed.entries, dated, build);
    if MapAtom(Some(feed), category, parse).Err? {
      var k :| 0 <= k < |feed.entries| && Faults(feed.entries[k], dated, build);
      FaultsWhen(channelLink, feed.title, category, feed.entries[k], parse);
    }
    if exists k :: 0 <= k < |feed.entries| && FormatDate(feed.entries[k].updated, parse).Ok? && feed.entries[k].content.None? {
      var k :| 0 <= k < |feed.entries| && FormatDate(feed.entries[k].updated, parse).Ok? && feed.entries[k].content.None?;
      FaultsWhen(channelLink, feed.title, category, feed.entries[k], parse);
    }
  }

  /** A successful parse has one item per entry whose `updated` parses, in document order. */
  lemma AtomKeepsDatedInOrder(feed: AtomFeed, category: string, parse: LayoutParser)
    ensures var kept := Filter(feed.entries, DatedTest(AtomDated(parse)));
      MapAtom(Some(feed), category, parse).Ok? ==>
        |MapAtom(Some(feed), category, parse).value| == |kept| &&
        forall k :: 0 <= k < |kept| ==> FromEntry(MapAtom(Some(feed), category, parse).value[k], kept[k], parse)
  {
    var dated, build := AtomDated(parse), AtomBuild(AlternateHref(feed.links), feed.title, category);
    var kept := Filter(feed.entries, DatedTest(dated));
    CollectSkipsUndated(feed.entries, dated, build);
    FilterAccepts(feed.entries, DatedTest(dated));
    CollectAllDated(kept, dated, build);
    var r := MapAtom(Some(feed), category, parse);
    if r.Ok? {
      forall k | 0 <= k < |kept|
        ensures FromEntry(r.value[k], kept[k], parse)
      {
        BuiltFromEntry(AlternateHref(feed.links), feed.title, category, kept[k], parse, r.value[k]);
      }
    }
  }

  /** Entries that differ only in their own links and their `published` date parse alike:
      neither is ever read. */
  lemma EntryLinksAndPublishedIgnored(feed: AtomFeed, entries: seq<AtomEntry>, category: string, parse: LayoutParser)
    requires |entries| == |feed.entries|
    requires forall k :: 0 <= k < |entries| ==>
      entries[k].(links := [], published := None) == feed.entries[k].(links := [], published := None)
    ensures MapAtom(Some(feed.(entries := entries)), category, parse) == MapAtom(Some(feed), category, parse)
  {
    var dated, build := AtomDated(parse), AtomBuild(AlternateHref(feed.links), feed.title, category);
    forall k | 0 <= k < |entries|
      ensures dated(entries[k]) == dated(feed.entries[k])
      ensures dated(entries[k]).Some? ==> build(entries[k], dated(entries[k]).value) == build(feed.entries[k], dated(entries[k]).value)
    {
      assert entries[k].(links := [], published := None).updated == entries[k].updated;
      assert entries[k].(links := [], published := None).content == entries[k].content;
      assert entries[k].(links := [], published := None).title == entries[k].title;
    }
    CollectCongruent(entries, feed.entries, dated, build);
  }
}
