/** `config/config.go`: the line-by-line reading of the feeds file. */
module Config {
  import opened Text

  datatype FeedConfig = FeedConfig(url: string, category: string)

  datatype Config = Config(feeds: seq<FeedConfig>)

  /** The scanner loop's state: whether a `feed:` line has been seen (`mode == "feed"`), the
      pending record, and the records emitted so far. */
  datatype Scan = Scan(inFeed: bool, feed: FeedConfig, feeds: seq<FeedConfig>)

  const Start: Scan := Scan(false, FeedConfig("", ""), [])

  /** What a line is, once trimmed: blank or a `//` comment, the exact `feed:` header, a
      `url:` or `category:` field with its trimmed value, or anything else. */
  datatype LineKind = Blank | FeedHeader | UrlField(value: string) | CategoryField(value: string) | OtherLine

  function Classify(raw: string): LineKind {
    var line := TrimSpace(raw);
    if line == "" || HasPrefix(line, "//") then Blank
    else if line == "feed:" then FeedHeader
    else if HasPrefix(line, "url:") then UrlField(TrimSpace(TrimPrefix(line, "url:")))
    else if HasPrefix(line, "category:") then CategoryField(TrimSpace(TrimPrefix(line, "category:")))
    else OtherLine
  }

  /** The state after one line: a header emits the pending record if it has a URL (and only
      then resets it) and enters feed mode; fields are read only in feed mode. */
  function Step(st: Scan, kind: LineKind): Scan {
    match kind
    case Blank => st
    case FeedHeader =>
      if st.feed.url != "" then Scan(true, FeedConfig("", ""), st.feeds + [st.feed])
      else st.(inFeed := true)
    case UrlField(v) => if st.inFeed then st.(feed := st.feed.(url := v)) else st
    case CategoryField(v) => if st.inFeed then st.(feed := st.feed.(category := v)) else st
    case OtherLine => st
  }

  /** The state after the classified lines `kinds`, in order. */
  function Run(st: Scan, kinds: seq<LineKind>): Scan {
    if kinds == [] then st else Step(Run(st, kinds[..|kinds| - 1]), kinds[|kinds| - 1])
  }

  /** The kinds of `lines`, in order. */
  function Kinds(lines: seq<string>): (kinds: seq<LineKind>)
    ensures |kinds| == |lines|
  {
    if lines == [] then [] else Kinds(lines[..|lines| - 1]) + [Classify(lines[|lines| - 1])]
  }

  lemma {:induction false} KindsConcat(a: seq<string>, b: seq<string>)
    ensures Kinds(a + b) == Kinds(a) + Kinds(b)
  {
    if b == [] {
      assert a + b == a;
    } else {
      assert (a + b)[..|a + b| - 1] == a + b[..|b| - 1];
      KindsConcat(a, b[..|b| - 1]);
    }
  }

  /** Each line is classified on its own. */
  lemma {:induction false} KindsPointwise(lines: seq<string>)
    ensures forall k :: 0 <= k < |lines| ==> Kinds(lines)[k] == Classify(lines[k])
  {
    if lines != [] {
      KindsPointwise(lines[..|lines| - 1]);
    }
  }

  /** The records emitted at the end of input: the pending one joins if it has a URL. */
  function Finish(st: Scan): seq<FeedConfig> {
    if st.feed.url != "" then st.feeds + [st.feed] else st.feeds
  }

  function ParseConfig(lines: seq<string>): Config {
    Config(Finish(Run(Start, Kinds(lines))))
  }

  /** `lines` are the file's lines as the scanner splits them. */
  method LoadConfig(lines: seq<string>) returns (cfg: Config)
    ensures cfg == ParseConfig(lines)
  {
    var feeds: seq<FeedConfig> := [];
    var inFeed := false;
    var feed := FeedConfig("", "");
    for i := 0 to |lines|
      invariant Scan(inFeed, feed, feeds) == Run(Start, Kinds(lines[..i]))
    {
      assert lines[..i + 1][..i] == lines[..i];
      match Classify(lines[i])
      case Blank =>
      case FeedHeader =>
        if feed.url != "" {
          feeds := feeds + [feed];
          feed := FeedConfig("", "");
        }
        inFeed := true;
      case UrlField(value) =>
        if inFeed {
          feed := feed.(url := value);
        }
      case CategoryField(value) =>
        if inFeed {
          feed := feed.(category := value);
        }
      case OtherLine =>
    }
    assert lines[..|lines|] == lines;
    if feed.url != "" {
      feeds := feeds + [feed];
    }
    cfg := Config(feeds);
  }

  /** Running two stretches of lines one after the other is running their concatenation. */
  lemma {:induction false} RunConcat(st: Scan, a: seq<LineKind>, b: seq<LineKind>)
    ensures Run(st, a + b) == Run(Run(st, a), b)
  {
    if b == [] {
      assert a + b == a;
    } else {
      assert (a + b)[..|a + b| - 1] == a + b[..|b| - 1];
      RunConcat(st, a, b[..|b| - 1]);
    }
  }

  /** Blank lines and comment lines can be removed from anywhere without changing the result. */
  lemma IgnorableLinesAreInert(a: seq<string>, line: string, b: seq<string>)
    requires TrimSpace(line) == "" || HasPrefix(TrimSpace(line), "//")
    ensures ParseConfig(a + [line] + b) == ParseConfig(a + b)
  {
    var ka, kb := Kinds(a), Kinds(b);
    KindsConcat(a + [line], b);
    KindsConcat(a, [line]);
    assert [line][..0] == [];
    KindsConcat(a, b);
    RunConcat(Start, ka + [Blank], kb);
    RunConcat(Start, ka, kb);
    assert (ka + [Blank])[..|ka|] == ka;
  }

  /** Emitted records keep their order: a run only appends to what was emitted before it. */
  lemma {:induction false} RunOnlyAppends(st: Scan, kinds: seq<LineKind>)
    ensures |st.feeds| <= |Run(st, kinds).feeds| && Run(st, kinds).feeds[..|st.feeds|] == st.feeds
  {
    if kinds != [] {
      RunOnlyAppends(st, kinds[..|kinds| - 1]);
      var mid := Run(st, kinds[..|kinds| - 1]);
      assert (mid.feeds + [mid.feed])[..|mid.feeds|] == mid.feeds;
    }
  }

  /** Every emitted record has a non-empty URL. */
  lemma {:induction false} RunEmitsOnlyUrls(st: Scan, kinds: seq<LineKind>)
    requires forall k :: 0 <= k < |st.feeds| ==> st.feeds[k].url != ""
    ensures forall k :: 0 <= k < |Run(st, kinds).feeds| ==> Run(st, kinds).feeds[k].url != ""
  {
    if kinds != [] {
      RunEmitsOnlyUrls(st, kinds[..|kinds| - 1]);
    }
  }

  /** Every record of the configuration has a URL. */
  lemma ConfigUrlsNonEmpty(lines: seq<string>)
    ensures forall k :: 0 <= k < |ParseConfig(lines).feeds| ==> ParseConfig(lines).feeds[k].url != ""
  {
    RunEmitsOnlyUrls(Start, Kinds(lines));
  }

  /** The records emitted by the lines of a prefix of the file are a prefix of those emitted
      by the whole file. */
  lemma ConfigPrefix(lines: seq<string>, more: seq<string>)
    ensures Run(Start, Kinds(lines)).feeds <= Run(Start, Kinds(lines + more)).feeds
  {
    KindsConcat(lines, more);
    RunConcat(Start, Kinds(lines), Kinds(more));
    RunOnlyAppends(Run(Start, Kinds(lines)), Kinds(more));
  }

  /** Until a `feed:` line is seen nothing is recorded: `url:` and `category:` lines before it
      are ignored. */
  lemma {:induction false} NothingBeforeHeader(kinds: seq<LineKind>)
    requires forall k :: 0 <= k < |kinds| ==> kinds[k] != FeedHeader
    ensures Run(Start, kinds) == Start
  {
    if kinds != [] {
      NothingBeforeHeader(kinds[..|kinds| - 1]);
    }
  }

  lemma NothingBeforeFeed(lines: seq<string>)
    requires forall k :: 0 <= k < |lines| ==> TrimSpace(lines[k]) != "feed:"
    ensures ParseConfig(lines).feeds == []
  {
    KindsPointwise(lines);
    NothingBeforeHeader(Kinds(lines));
  }

  /** A `feed:` header whose pending record has no URL keeps the record, so a category read in
      a block without a URL carries into the next block; one whose record has a URL emits it
      and starts afresh. */
  lemma HeaderEmitsOrCarries(st: Scan, raw: string)
    requires TrimSpace(raw) == "feed:"
    ensures Classify(raw) == FeedHeader
    ensures st.feed.url == "" ==> Step(st, Classify(raw)) == st.(inFeed := true)
    ensures st.feed.url != "" ==> Step(st, Classify(raw)) == Scan(true, FeedConfig("", ""), st.feeds + [st.feed])
  {
    var line := "feed:";
    assert line[..2] != "//";
  }

  /** A line that starts with `url:` is neither blank, a comment nor the header. */
  lemma UrlPrefixIsField(line: string)
    requires |line| >= 4 && line[..4] == "url:"
    ensures line != "" && !HasPrefix(line, "//") && line != "feed:"
  {
    assert line[0] == line[..4][0] == 'u';
    assert line[..2][0] == line[0];
    assert "feed:"[0] == 'f';
  }

  /** A trimmed line that starts with `url:` is a URL field whose value is the rest, trimmed. */
  lemma UrlLine(line: string)
    requires TrimSpace(line) == line
    requires |line| >= 4 && line[..4] == "url:"
    ensures Classify(line) == UrlField(TrimSpace(line[4..]))
  {
    UrlPrefixIsField(line);
  }

  /** In feed mode, of two `url:` lines in a row the later one wins. */
  lemma LaterUrlWins(st: Scan, first: string, second: string)
    requires st.inFeed
    ensures Run(st, [UrlField(first), UrlField(second)]).feed == st.feed.(url := second)
  {
    var one := Run(st, [UrlField(first)]);
    assert [UrlField(first)][..0] == [];
    assert Run(st, []) == st;
    assert one == Step(st, UrlField(first));
    assert one == st.(feed := st.feed.(url := first));
    assert [UrlField(first), UrlField(second)][..1] == [UrlField(first)];
  }
}
