/**
 * The two data sources the view model fetches from, and the factory that makes them. Both
 * sources share the one cache controller.
 */
module DataSources {
  import opened Wrappers
  import opened JsonValues
  import opened NewsEntities
  import opened NewsDataBase
  import opened NetworkResponse
  import opened NetworkRequest

  /** DataSourceFactory.Sources */
  datatype Sources = SERVER | CACHE

  // ---------------------------------------------------------------------------------------------
  // The cache source

  /** What fetchNewsList of the cache source does, as written, when Gson rejects the stored array. */
  datatype CacheOutcome = Returned(news: Option<seq<NewsEntity>>) | GsonExceptionEscapes

  /**
   * The cache source's conversion as written: a missing read or text that is not a JSON array gives
   * null, but only JSONException is caught, so a conversion error of Gson escapes the method.
   */
  function CacheFetchAsWritten(codec: JsonCodec, stored: Option<string>): (r: CacheOutcome)
    ensures stored.None? ==> r == Returned(None)
  {
    match stored
    case None => Returned(None)
    case Some(text) =>
      match codec.parse(text)
      case Some(JArray(es)) =>
        (match NewsListFromJson(es)
         case Ok(news) => Returned(Some(news))
         case Failed => GsonExceptionEscapes)
      case _ => Returned(None)
  }

  /**
   * The cache source's conversion with every failure reported as null, as its documentation and
   * its callers expect: the stored array's elements converted in order, or None.
   */
  function CacheFetch(codec: JsonCodec, stored: Option<string>): (r: Option<seq<NewsEntity>>)
    ensures stored.None? ==> r.None?
    ensures stored.Some? && !(codec.parse(stored.value).Some? && codec.parse(stored.value).value.JArray?) ==> r.None?
    ensures r.Some? ==> NewsListFromJson(codec.parse(stored.value).value.elems) == Ok(r.value)
    ensures (stored.Some? && codec.parse(stored.value).Some? && codec.parse(stored.value).value.JArray?
             && NewsListFromJson(codec.parse(stored.value).value.elems).Ok?) ==> r.Some?
  {
    match stored
    case None => None
    case Some(text) =>
      match codec.parse(text)
      case Some(JArray(es)) =>
        (match NewsListFromJson(es)
         case Ok(news) => Some(news)
         case Failed => None)
      case _ => None
  }

  /** Stored text "[1]" parses as an array whose element is no news object: Gson throws, nothing catches it. */
  lemma GsonFailureEscapesAsWritten(codec: JsonCodec, text: string)
    requires codec.parse(text) == Some(JArray([JNumber(1)]))
    ensures CacheFetchAsWritten(codec, Some(text)) == GsonExceptionEscapes
    ensures CacheFetch(codec, Some(text)) == None
  {
    assert NewsFromJson(JArray([JNumber(1)]).elems[0]).Failed?;
  }

  /** Wherever no exception escapes, the corrected conversion returns what the code as written returns. */
  lemma CacheFetchAgreesWhenNothingEscapes(codec: JsonCodec, stored: Option<string>)
    requires !CacheFetchAsWritten(codec, stored).GsonExceptionEscapes?
    ensures CacheFetchAsWritten(codec, stored) == Returned(CacheFetch(codec, stored))
  {
  }

  /**
   * The cache is coherent with the server: what a successful server response leaves in the cache
   * reads back, through the cache source, as the same news list, given that the JSON library
   * re-reads what it wrote.
   */
  lemma ServerResultReadsBackFromCache(codec: JsonCodec, body: string)
    requires RoundTrips(codec)
    requires ProcessResponse(codec, body).Some?
    ensures CacheFetch(codec, Some(codec.serialize(JArray(ProcessResponse(codec, body).value.cached))))
         == ResponseNews(codec, body)
  {
    var resp := ProcessResponse(codec, body).value;
    assert codec.parse(codec.serialize(JArray(resp.cached))) == Some(JArray(resp.cached));
    var converted := NewsListFromJson(resp.cached);
    assert converted.Ok?;
    assert converted.value == resp.news by {
      forall i | 0 <= i < |resp.news| ensures converted.value[i] == resp.news[i] {
        assert NewsFromJson(resp.cached[i]) == Ok(converted.value[i]);
      }
    }
  }

  /**
   * End to end: a server fetch that succeeds while its write reaches the file makes the next cache
   * read, after any earlier queued writes, return the same list.
   */
  lemma ServerFetchThenCacheFetch(codec: JsonCodec, body: string, files: map<string, string>,
                                  failing: set<string>, path: string, q: seq<Request>)
    requires RoundTrips(codec)
    requires ProcessResponse(codec, body).Some? && path !in failing
    ensures CacheFetch(codec, Observed(files, failing, path, q + CacheWrites(codec, body)))
         == ResponseNews(codec, body)
  {
    var written := codec.serialize(JArray(ProcessResponse(codec, body).value.cached));
    assert CacheWrites(codec, body) == [WriteRequest(written)];
    WriteThenReadReturnsWritten(files, failing, path, q, written);
    ServerResultReadsBackFromCache(codec, body);
  }

  class CacheDataSource {
    const db: NewsDataBaseController
    const codec: JsonCodec

    constructor (db: NewsDataBaseController, codec: JsonCodec)
      ensures this.db == db && this.codec == codec
    {
      this.db := db;
      this.codec := codec;
    }

    /**
     * fetchNewsList: a blocking read of the cache, converted into news items. It posts no write:
     * the file changes only by the writes that were already queued ahead of the read.
     */
    method FetchNewsList() returns (r: Option<seq<NewsEntity>>)
      requires db.live && db.Valid()
      modifies db`queue, db.statics`data, db.statics`readComplete, db.statics.fs`files
      ensures r == CacheFetch(codec, Observed(old(db.statics.fs.files), db.statics.fs.failing, db.Path(), old(db.queue)))
      ensures db.statics.fs.files == FileAfterWrites(old(db.statics.fs.files), db.statics.fs.failing, db.Path(), old(db.queue))
      ensures db.queue == [] && db.Valid()
      ensures old(db.statics.Valid()) ==> db.statics.Valid()
    {
      var stored := db.ReadFromDB();
      if stored.None? {
        return None;
      }
      var parsed := codec.parse(stored.value);
      if !(parsed.Some? && parsed.value.JArray?) {
        return None;
      }
      var converted := NewsListFromJson(parsed.value.elems);
      if converted.Failed? {
        return None;
      }
      r := Some(converted.value);
    }

    /** close: shuts the shared controller down. */
    method Close()
      modifies db`live, db`queue, db.statics`instance, db.statics`data, db.statics`readComplete, db.statics.fs`files
      ensures !db.live && db.statics.instance == null && db.statics.Valid()
      ensures db.queue == if old(db.live) then [] else old(db.queue)
      ensures db.StoreOf() == if old(db.live) then RunAll(old(db.StoreOf()), db.statics.fs.failing, db.Path(), old(db.queue)) else old(db.StoreOf())
      ensures old(db.Valid()) ==> db.Valid()
    {
      db.CleanUp();
    }

    function GetType(): (t: Sources)
      ensures t == CACHE
    {
      CACHE
    }
  }

  // ---------------------------------------------------------------------------------------------
  // The server source

  const Url1 := "https://api.myjson.com/bins/nl6jh"
  /** The backup URL, tried when the first yields nothing. */
  const Url2 := "http://www.mocky.io/v2/573c89f31100004a1daa8adb"

  class ServerDataSource {
    const db: NewsDataBaseController
    /** The network the requests go out on. */
    const net: Network
    /** The JSON text library. */
    const codec: JsonCodec

    constructor (db: NewsDataBaseController, net: Network, codec: JsonCodec)
      ensures this.db == db && this.net == net && this.codec == codec
    {
      this.db := db;
      this.net := net;
      this.codec := codec;
    }

    /** fetchNewsListInternal: a fresh request stage chained to a fresh response stage, sharing the controller. */
    method FetchNewsListInternal(url: string) returns (r: Option<seq<NewsEntity>>)
      modifies net`log, db`queue
      ensures net.log == old(net.log) + [url]
      ensures r == PipelineNews(net.replies, codec, url)
      ensures db.queue == old(db.queue) + if db.live then PipelineWrites(net.replies, codec, url) else []
      ensures old(db.Valid()) ==> db.Valid()
      ensures old(db.statics.Valid()) ==> db.statics.Valid()
    {
      var request := new NetworkRequestProcessor(db, net);
      var response := new NetworkResponseProcessor(db, codec);
      request.SetNext(response);
      r := request.Execute(url);
    }

    /**
     * fetchNewsList: the first URL's list when it yields one, in which case the second URL is never
     * requested; otherwise whatever the second URL yields. The result is None exactly when both fail.
     */
    method FetchNewsList() returns (r: Option<seq<NewsEntity>>)
      modifies net`log, db`queue
      ensures var first := PipelineNews(net.replies, codec, Url1);
              r == if first.Some? then first else PipelineNews(net.replies, codec, Url2)
      ensures r.None? <==> PipelineNews(net.replies, codec, Url1).None? && PipelineNews(net.replies, codec, Url2).None?
      ensures net.log == old(net.log) + if PipelineNews(net.replies, codec, Url1).Some? then [Url1] else [Url1, Url2]
      ensures db.queue == old(db.queue) + if !db.live then []
                          else if PipelineNews(net.replies, codec, Url1).Some? then PipelineWrites(net.replies, codec, Url1)
                          else PipelineWrites(net.replies, codec, Url2)
      ensures old(db.Valid()) ==> db.Valid()
      ensures old(db.statics.Valid()) ==> db.statics.Valid()
    {
      ghost var live := db.live;
      r := FetchNewsListInternal(Url1);
      if r.None? {
        PipelineWritesOnlyOnSuccess(net.replies, codec, Url1);
        assert db.queue == old(db.queue);
        r := FetchNewsListInternal(Url2);
      }
      assert db.live == live;
    }

    /** close: shuts the shared controller down. */
    method Close()
      modifies db`live, db`queue, db.statics`instance, db.statics`data, db.statics`readComplete, db.statics.fs`files
      ensures !db.live && db.statics.instance == null && db.statics.Valid()
      ensures db.queue == if old(db.live) then [] else old(db.queue)
      ensures db.StoreOf() == if old(db.live) then RunAll(old(db.StoreOf()), db.statics.fs.failing, db.Path(), old(db.queue)) else old(db.StoreOf())
      ensures old(db.Valid()) ==> db.Valid()
    {
      db.CleanUp();
    }

    function GetType(): (t: Sources)
      ensures t == SERVER
    {
      SERVER
    }
  }

  // ---------------------------------------------------------------------------------------------
  // The DataSource interface and the factory

  /** A data source of either kind. */
  datatype DataSource = Server(server: ServerDataSource) | Cache(cache: CacheDataSource) {
    function GetType(): (t: Sources)
      ensures t == SERVER <==> Server?
    {
      match this
      case Server(s) => s.GetType()
      case Cache(c) => c.GetType()
    }

    /** The controller the source was made with. */
    function Db(): NewsDataBaseController {
      match this
      case Server(s) => s.db
      case Cache(c) => c.db
    }

    /** The network objects the source may use. */
    function Networks(): set<Network> {
      match this
      case Server(s) => {s.net}
      case Cache(_) => {}
    }

    /**
     * What fetchNewsList returns, in the current state: for the server, the first URL's list or else
     * the second's; for the cache, the stored list read after the writes already queued.
     */
    ghost function Expected(): Option<seq<NewsEntity>>
      reads Db(), Db().statics, Db().statics.fs
    {
      match this
      case Server(s) =>
        var first := PipelineNews(s.net.replies, s.codec, Url1);
        if first.Some? then first else PipelineNews(s.net.replies, s.codec, Url2)
      case Cache(c) =>
        CacheFetch(c.codec, Observed(c.db.statics.fs.files, c.db.statics.fs.failing, c.db.Path(), c.db.queue))
    }

    /** The cache writes a fetch posts: a server fetch posts those of the attempt that succeeded. */
    ghost function ExpectedWrites(): seq<Request>
      reads Db()
    {
      match this
      case Server(s) =>
        if !s.db.live then []
        else if PipelineNews(s.net.replies, s.codec, Url1).Some? then PipelineWrites(s.net.replies, s.codec, Url1)
        else PipelineWrites(s.net.replies, s.codec, Url2)
      case Cache(_) => []
    }

    /** The URLs a fetch requests: the backup only after the first fails, and none for the cache. */
    function ExpectedRequests(): seq<string> {
      match this
      case Server(s) => if PipelineNews(s.net.replies, s.codec, Url1).Some? then [Url1] else [Url1, Url2]
      case Cache(_) => []
    }

    /** What fetching needs: a cache read must find a live worker, or it would wait forever. */
    ghost predicate CanFetch()
      reads Db()
    {
      Cache? ==> Db().live && Db().Valid()
    }
  }

  /** DataSource.fetchNewsList, dispatched to the source's kind. */
  method FetchFrom(source: DataSource) returns (r: Option<seq<NewsEntity>>)
    requires source.CanFetch()
    modifies source.Networks()`log, source.Db()`queue, source.Db().statics`data, source.Db().statics`readComplete,
             source.Db().statics.fs`files
    ensures r == old(source.Expected())
    ensures source.Server? ==> source.server.net.log == old(source.server.net.log) + source.ExpectedRequests()
    ensures source.Server? ==> source.Db().queue == old(source.Db().queue) + old(source.ExpectedWrites())
                               && source.Db().StoreOf() == old(source.Db().StoreOf())
    ensures source.Cache? ==> source.Db().queue == [] && source.Db().statics.fs.files
                              == FileAfterWrites(old(source.Db().statics.fs.files), source.Db().statics.fs.failing,
                                                 source.Db().Path(), old(source.Db().queue))
    ensures old(source.Db().Valid()) ==> source.Db().Valid()
    ensures old(source.Db().statics.Valid()) ==> source.Db().statics.Valid()
  {
    match source
    case Server(s) =>
      r := s.FetchNewsList();
    case Cache(c) =>
      r := c.FetchNewsList();
  }

  /** DataSource.close, dispatched to the source's kind. */
  method CloseSource(source: DataSource)
    modifies source.Db()`live, source.Db()`queue, source.Db().statics`instance, source.Db().statics`data,
             source.Db().statics`readComplete, source.Db().statics.fs`files
    ensures !source.Db().live && source.Db().statics.instance == null && source.Db().statics.Valid()
    ensures source.Db().StoreOf() == if old(source.Db().live)
                                      then RunAll(old(source.Db().StoreOf()), source.Db().statics.fs.failing, source.Db().Path(), old(source.Db().queue))
                                      else old(source.Db().StoreOf())
    ensures old(source.Db().Valid()) ==> source.Db().Valid()
  {
    match source
    case Server(s) =>
      s.Close();
    case Cache(c) =>
      c.Close();
  }

  /**
   * getDataSource: obtains (or creates) the singleton controller first, on every call, then makes a
   * source of the requested kind around it.
   */
  method GetDataSource(sourceType: Sources, filesDirPath: string, statics: ControllerStatics,
                       net: Network, codec: JsonCodec) returns (s: DataSource)
    requires statics.Valid()
    modifies statics`instance, statics`filesDir
    ensures s.GetType() == sourceType
    ensures s.Db() == statics.instance && s.Db().statics == statics && statics.Valid()
    ensures s.Db().live && s.Db().Valid() && s.CanFetch()
    ensures old(statics.instance) != null ==> s.Db() == old(statics.instance) && statics.filesDir == old(statics.filesDir)
    ensures old(statics.instance) == null ==> fresh(s.Db()) && s.Db().queue == [] && statics.filesDir == filesDirPath
    ensures s.Server? ==> fresh(s.server) && s.server.net == net && s.server.codec == codec
    ensures s.Cache? ==> fresh(s.cache) && s.cache.codec == codec
  {
    var newsDB := statics.GetInstance(filesDirPath);
    match sourceType
    case SERVER =>
      var server := new ServerDataSource(newsDB, net, codec);
      s := Server(server);
    case CACHE =>
      var cache := new CacheDataSource(newsDB, codec);
      s := Cache(cache);
  }
}
