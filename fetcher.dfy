/** `fetcher/fetcher.go`: what one fetch of a feed URL yields, the dialect sniffing of the
    body, and the append-only log of URLs that answered with an error status. */
module Fetcher {
  import opened Wrappers
  import opened Text
  import opened Models
  import opened Utils
  import Rss
  import Atom

  /** One logged failure: the URL, the response's status line and the time it was seen. */
  datatype ErrorURL = ErrorURL(url: string, error: string, time: int)

  /** What the HTTP exchange gave. `RequestRejected`: building the request failed, and its
      ignored error leaves a nil request whose headers are then set. `TransportFailed`: the
      client returned an error. `Responded`: a status code, the status line, and the body
      (`None` when reading it failed). */
  datatype FetchOutcome =
    | RequestRejected
    | TransportFailed
    | Responded(statusCode: int, status: string, body: Option<string>)

  /** The decoding steps the fetch relies on: unmarshalling the body as RSS and as Atom, the
      body's XML token stream, and `time.Parse` for a layout. */
  datatype Decoders = Decoders(
    rss: string -> Option<Rss.RssDoc>,
    tokens: string -> seq<Rss.Token>,
    atom: string -> Option<Atom.AtomFeed>,
    parse: LayoutParser)

  const StatusOK: int := 200

  datatype Dialect = RssDialect | AtomDialect | UnknownDialect

  /** `<rss` is looked for first, so it wins over `<feed`. */
  function DialectOf(content: string): Dialect {
    if Contains(content, "<rss") then RssDialect
    else if Contains(content, "<feed") then AtomDialect
    else UnknownDialect
  }

  /** The items the body parses to, by its dialect; an unknown dialect yields none. The RSS
      parser takes no category. */
  function ParseBody(content: string, category: string, decoders: Decoders): Result<seq<NewsItem>, Fault> {
    match DialectOf(content)
    case RssDialect => Rss.MapRss(decoders.rss(content), decoders.tokens(content), decoders.parse)
    case AtomDialect => Atom.MapAtom(decoders.atom(content), category, decoders.parse)
    case UnknownDialect => Ok([])
  }

  /** The status is not 200, which is the one case that is logged. */
  predicate IsErrorStatus(outcome: FetchOutcome) {
    outcome.Responded? && outcome.statusCode != StatusOK
  }

  /** What `FetchNews` returns for an outcome: a fault for a rejected request, no items for a
      transport error, an error status or an unreadable body, otherwise the parsed body. */
  function FetchResult(outcome: FetchOutcome, category: string, decoders: Decoders): Result<seq<NewsItem>, Fault> {
    match outcome
    case RequestRejected => Err(NilDereference)
    case TransportFailed => Ok([])
    case Responded(code, _, body) =>
      if code != StatusOK || body.None? then Ok([]) else ParseBody(body.value, category, decoders)
  }

  /** A line of the error report `CheckError` logs; `format` is `Time.Format(time.RFC3339)`. */
  function ReportLine(e: ErrorURL, format: int -> string): string {
    "Time: " + format(e.time) + ", URL: " + e.url + ", Error: " + e.error
  }

  /** The whole report: a fixed line for an empty log, otherwise a header and one line per
      record, oldest first. */
  function Report(errors: seq<ErrorURL>, format: int -> string): (lines: seq<string>)
    ensures |lines| == |errors| + 1
    ensures errors == [] <==> lines == ["No errors in URLs"]
    ensures errors != [] ==> lines[0] == "Error URLs:"
    ensures errors != [] ==> forall k :: 0 <= k < |errors| ==> lines[k + 1] == ReportLine(errors[k], format)
  {
    if errors == [] then ["No errors in URLs"]
    else ["Error URLs:"] + seq(|errors|, k requires 0 <= k < |errors| => ReportLine(errors[k], format))
  }

  /** Holds the package-level `ErrorURLs` log. */
  class Fetcher {
    var errorURLs: seq<ErrorURL>

    constructor()
      ensures errorURLs == []
    {
      errorURLs := [];
    }

    /** Fetches `feedURL` given the `outcome` of the HTTP exchange; `now` is `time.Now()`.
        An empty URL is only logged and goes on to the request like any other. */
    method FetchNews(feedURL: string, category: string, outcome: FetchOutcome, decoders: Decoders, now: int)
      returns (news: Result<seq<NewsItem>, Fault>)
      modifies this
      ensures news == FetchResult(outcome, category, decoders)
      ensures errorURLs == old(errorURLs) + (if IsErrorStatus(outcome) then [ErrorURL(feedURL, outcome.status, now)] else [])
    {
      if outcome.RequestRejected? {
        return Err(NilDereference);
      }
      if outcome.TransportFailed? {
        return Ok([]);
      }
      if outcome.statusCode != StatusOK {
        errorURLs := errorURLs + [ErrorURL(feedURL, outcome.status, now)];
        return Ok([]);
      }
      if outcome.body.None? {
        return Ok([]);
      }
      var content := outcome.body.value;
      if Contains(content, "<rss") {
        news := Rss.ParseRSS(decoders.rss(content), decoders.tokens(content), decoders.parse);
      } else if Contains(content, "<feed") {
        news := Atom.ParseAtom(decoders.atom(content), category, decoders.parse);
      } else {
        news := Ok([]);
      }
    }

    /** The lines `CheckError` writes to the log; the log itself is only read. */
    method CheckError(format: int -> string) returns (lines: seq<string>)
      ensures lines == Report(errorURLs, format)
    {
      if |errorURLs| == 0 {
        return ["No errors in URLs"];
      }
      lines := ["Error URLs:"];
      for i := 0 to |errorURLs|
        invariant |lines| == i + 1 && lines[0] == "Error URLs:"
        invariant forall k :: 0 <= k < i ==> lines[k + 1] == ReportLine(errorURLs[k], format)
      {
        var errURL := errorURLs[i];
        lines := lines + ["Time: " + format(errURL.time) + ", URL: " + errURL.url + ", Error: " + errURL.error];
      }
    }
  }

  /** A body that mentions `<rss` is parsed as RSS even when it also mentions `<feed`; one
      that mentions only `<feed` is parsed as Atom; one with neither yields no items. */
  lemma DialectSniffing(content: string, category: string, decoders: Decoders)
    ensures Contains(content, "<rss") ==>
      ParseBody(content, category, decoders) == Rss.MapRss(decoders.rss(content), decoders.tokens(content), decoders.parse)
    ensures !Contains(content, "<rss") && Contains(content, "<feed") ==>
      ParseBody(content, category, decoders) == Atom.MapAtom(decoders.atom(content), category, decoders.parse)
    ensures !Contains(content, "<rss") && !Contains(content, "<feed") ==> ParseBody(content, category, decoders) == Ok([])
  {
  }

  /** A dated RSS entry has no `<guid>`. */
  predicate GuidMissing(doc: Rss.RssDoc, parse: LayoutParser) {
    exists k ::
      0 <= k < |doc.items| && FormatDate(doc.items[k].pubDate, parse).Ok? && doc.items[k].guid.None?
  }

  /** A dated Atom entry has no `<content>`. */
  predicate ContentMissing(feed: Atom.AtomFeed, parse: LayoutParser) {
    exists k ::
      0 <= k < |feed.entries| && FormatDate(feed.entries[k].updated, parse).Ok? && feed.entries[k].content.None?
  }

  /** The body decodes as a document of its dialect in which a dated entry lacks the element
      the mapper reads unconditionally. */
  predicate BodyFaults(content: string, decoders: Decoders) {
    match DialectOf(content)
    case RssDialect => decoders.rss(content).Some? && GuidMissing(decoders.rss(content).value, decoders.parse)
    case AtomDialect => decoders.atom(content).Some? && ContentMissing(decoders.atom(content).value, decoders.parse)
    case UnknownDialect => false
  }

  /** A fetch faults exactly when the request could not be built, or when a body of status
      200 decodes as a document in which a dated entry lacks the element the mapper reads
      unconditionally: `<guid>` for RSS, `<content>` for Atom. */
  lemma FetchFaults(outcome: FetchOutcome, category: string, decoders: Decoders)
    ensures FetchResult(outcome, category, decoders).Err? <==>
      || outcome.RequestRejected?
      || (outcome.Responded? && outcome.statusCode == StatusOK && outcome.body.Some? &&
          BodyFaults(outcome.body.value, decoders))
  {
    if outcome.Responded? && outcome.statusCode == StatusOK && outcome.body.Some? {
      var content := outcome.body.value;
      match DialectOf(content)
      case RssDialect =>
        if decoders.rss(content).Some? {
          Rss.RssGuidFault(decoders.rss(content).value, decoders.tokens(content), decoders.parse);
        }
      case AtomDialect =>
        if decoders.atom(content).Some? {
          Atom.AtomContentFault(decoders.atom(content).value, category, decoders.parse);
        }
      case UnknownDialect =>
    }
  }
}
