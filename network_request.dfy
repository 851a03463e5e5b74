/**
 * The first stage of the network pipeline: fetches the body at a URL and hands it to the next
 * stage. The HTTP connection is outside the model; what a URL yields is a parameter.
 */
module NetworkRequest {
  import opened Wrappers
  import opened JsonValues
  import opened NewsEntities
  import opened NewsDataBase
  import opened NetworkResponse

  // ---------------------------------------------------------------------------------------------
  // Reading a stream line by line (BufferedReader.readLine)

  predicate IsTerminator(c: char) {
    c == '\n' || c == '\r'
  }

  /**
   * The line at the front of a non-empty text, and the text after its terminator. A line ends at
   * "\n", "\r" or "\r\n"; at the end of the text without a terminator it ends there.
   */
  function SplitLine(text: string): (r: (string, string))
    requires text != []
    ensures |r.1| < |text|
    ensures forall k :: 0 <= k < |r.0| ==> !IsTerminator(r.0[k])
    decreases |text|
  {
    if text[0] == '\n' then ([], text[1..])
    else if text[0] == '\r' then ([], if |text| > 1 && text[1] == '\n' then text[2..] else text[1..])
    else if |text| == 1 then (text, [])
    else
      var (line, rest) := SplitLine(text[1..]);
      ([text[0]] + line, rest)
  }

  /** The successive results of readLine until it returns null. */
  function Lines(text: string): seq<string>
    decreases |text|
  {
    if text == [] then [] else var (line, rest) := SplitLine(text); [line] + Lines(rest)
  }

  function Concat(ls: seq<string>): string {
    if ls == [] then [] else ls[0] + Concat(ls[1..])
  }

  /** The text with every line terminator character removed. */
  function StripTerminators(text: string): (r: string)
    ensures forall k :: 0 <= k < |r| ==> !IsTerminator(r[k])
  {
    if text == [] then []
    else (if IsTerminator(text[0]) then [] else [text[0]]) + StripTerminators(text[1..])
  }

  lemma {:induction false} ConcatAppend(ls: seq<string>, l: string)
    ensures Concat(ls + [l]) == Concat(ls) + l
  {
    if ls != [] {
      assert (ls + [l])[1..] == ls[1..] + [l];
      ConcatAppend(ls[1..], l);
    } else {
      assert ls + [l] == [l];
    }
  }

  lemma {:induction false} ConcatSplit(ls: seq<string>, k: nat)
    requires k <= |ls|
    ensures Concat(ls) == Concat(ls[..k]) + Concat(ls[k..])
  {
    if k > 0 {
      assert ls[..k][1..] == ls[1..][..k - 1];
      assert ls[k..] == ls[1..][k - 1..];
      ConcatSplit(ls[1..], k - 1);
    } else {
      assert ls[..k] == [] && ls[k..] == ls;
    }
  }

  lemma {:induction false} SplitLineDropsTerminator(text: string)
    requires text != []
    ensures SplitLine(text).0 + StripTerminators(SplitLine(text).1) == StripTerminators(text)
    decreases |text|
  {
    if text[0] == '\n' {
    } else if text[0] == '\r' {
      if |text| > 1 && text[1] == '\n' {
        assert StripTerminators(text[1..]) == StripTerminators(text[2..]) by {
          assert text[1..][1..] == text[2..];
        }
      }
    } else if |text| == 1 {
      assert text[1..] == [];
    } else {
      SplitLineDropsTerminator(text[1..]);
    }
  }

  /** Reading every line and joining them gives the text without its line terminators. */
  lemma {:induction false} LinesJoinToStrippedText(text: string)
    ensures Concat(Lines(text)) == StripTerminators(text)
    decreases |text|
  {
    if text != [] {
      var (line, rest) := SplitLine(text);
      LinesJoinToStrippedText(rest);
      SplitLineDropsTerminator(text);
      assert Lines(text)[1..] == Lines(rest);
    }
  }

  /** The response stream: its text, and the readLine call (counted from 0) that throws, if any. */
  datatype InputStream = InputStream(text: string, failingCall: Option<nat>)

  /** The lines readStream gets before readLine returns null or throws. */
  function LinesRead(s: InputStream): (r: seq<string>)
    ensures r <= Lines(s.text)
  {
    var all := Lines(s.text);
    if s.failingCall.Some? && s.failingCall.value < |all| then all[..s.failingCall.value] else all
  }

  /** What readStream returns: the lines read, joined; it swallows the exception. */
  function StreamText(s: InputStream): (r: string)
    ensures s.failingCall.None? ==> r == StripTerminators(s.text)
    ensures r <= StripTerminators(s.text)
  {
    var read := LinesRead(s);
    LinesJoinToStrippedText(s.text);
    ConcatSplit(Lines(s.text), |read|);
    assert Lines(s.text)[..|read|] == read;
    Concat(read)
  }

  /**
   * readStream: appends each line to a buffer until readLine returns null; when readLine throws,
   * what was appended so far is returned.
   */
  method ReadStream(s: InputStream) returns (text: string)
    ensures text == StreamText(s)
  {
    text := "";
    var rest := s.text;
    var calls := 0;
    while true
      invariant calls <= |Lines(s.text)|
      invariant Lines(rest) == Lines(s.text)[calls..]
      invariant text == Concat(Lines(s.text)[..calls])
      invariant s.failingCall.Some? ==> calls <= s.failingCall.value
      decreases |rest|
    {
      if s.failingCall == Some(calls) {
        assert Lines(s.text)[..calls] == LinesRead(s);
        return;
      }
      if rest == [] {
        assert Lines(s.text)[..calls] == Lines(s.text) == LinesRead(s);
        return;
      }
      var (line, after) := SplitLine(rest);
      assert Lines(rest) == [line] + Lines(after);
      ConcatAppend(Lines(s.text)[..calls], line);
      assert Lines(s.text)[..calls + 1] == Lines(s.text)[..calls] + [line];
      text := text + line;
      rest := after;
      calls := calls + 1;
    }
  }

  // ---------------------------------------------------------------------------------------------
  // The connection and the request stage

  /**
   * What opening a URL yields: a malformed URL, an I/O failure (including an HTTP error status, on
   * which getInputStream throws), or a response stream.
   */
  datatype Connection = MalformedUrl | IoFailure | Connected(stream: InputStream)

  /** The network as the app sees it: what each URL yields, and the URLs requested so far. */
  class Network {
    const replies: string -> Connection
    var log: seq<string>

    constructor (replies: string -> Connection)
      ensures this.replies == replies && log == []
    {
      this.replies := replies;
      log := [];
    }
  }

  /** fetchFromURL as a function of what the URL yields: null on a malformed URL or an I/O error. */
  function FetchResult(c: Connection): (r: Option<string>)
    ensures r.None? <==> c.MalformedUrl? || c.IoFailure?
    ensures c.Connected? ==> r == Some(StreamText(c.stream))
  {
    match c
    case MalformedUrl => None
    case IoFailure => None
    case Connected(stream) => Some(StreamText(stream))
  }

  /** The whole pipeline for one URL: the news list execute returns. */
  function PipelineNews(replies: string -> Connection, codec: JsonCodec, url: string): (r: Option<seq<NewsEntity>>)
    ensures FetchResult(replies(url)).None? ==> r.None?
    ensures FetchResult(replies(url)).Some? ==> r == ResponseNews(codec, FetchResult(replies(url)).value)
  {
    match FetchResult(replies(url))
    case None => None
    case Some(body) => ResponseNews(codec, body)
  }

  /** The cache writes the pipeline for one URL posts. */
  function PipelineWrites(replies: string -> Connection, codec: JsonCodec, url: string): (r: seq<Request>)
    ensures FetchResult(replies(url)).None? ==> r == []
    ensures FetchResult(replies(url)).Some? ==> r == CacheWrites(codec, FetchResult(replies(url)).value)
  {
    match FetchResult(replies(url))
    case None => []
    case Some(body) => CacheWrites(codec, body)
  }

  /** The pipeline writes the cache exactly when it returns a list, and then writes it once. */
  lemma PipelineWritesOnlyOnSuccess(replies: string -> Connection, codec: JsonCodec, url: string)
    ensures |PipelineWrites(replies, codec, url)| <= 1
    ensures PipelineWrites(replies, codec, url) != [] <==> PipelineNews(replies, codec, url).Some?
  {
  }

  class NetworkRequestProcessor {
    /** The network the requests go out on. */
    const net: Network
    /** mNextNextworkProcessor */
    var next: NetworkResponseProcessor?

    /** The controller argument is not used by this stage. */
    constructor (db: NewsDataBaseController, net: Network)
      ensures this.net == net && next == null
    {
      this.net := net;
      next := null;
    }

    method SetNext(next: NetworkResponseProcessor?)
      modifies this`next
      ensures this.next == next
    {
      this.next := next;
    }

    /** fetchFromURL: requests the URL once and returns its body, or None; it never throws. */
    method FetchFromURL(url: string) returns (r: Option<string>)
      modifies net`log
      ensures net.log == old(net.log) + [url]
      ensures r == FetchResult(net.replies(url))
    {
      net.log := net.log + [url];
      match net.replies(url)
      case MalformedUrl =>
        r := None;
      case IoFailure =>
        r := None;
      case Connected(stream) =>
        var text := ReadStream(stream);
        r := Some(text);
    }

    /**
     * execute: fetches the body and, only when there is one, returns the next stage's result on it;
     * with no body the next stage is not called and nothing is written to the cache.
     */
    method Execute(url: string) returns (r: Option<seq<NewsEntity>>)
      requires next != null
      modifies net`log, next.db`queue
      ensures net.log == old(net.log) + [url]
      ensures r == PipelineNews(net.replies, next.codec, url)
      ensures next.db.queue == old(next.db.queue)
                               + if next.db.live then PipelineWrites(net.replies, next.codec, url) else []
      ensures old(next.db.Valid()) ==> next.db.Valid()
      ensures old(next.db.statics.Valid()) ==> next.db.statics.Valid()
    {
      var body := FetchFromURL(url);
      if body.None? {
        r := None;
      } else {
        r := next.Execute(body.value);
      }
    }
  }
}
