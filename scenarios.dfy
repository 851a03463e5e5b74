/**
 * Whole fetches, start to finish, on a freshly started process: the view model starts the fetch,
 * the task's background step runs, and its post-execute step reports back.
 */
module Scenarios {
  import opened Wrappers
  import opened JsonValues
  import opened NewsEntities
  import opened NewsDataBase
  import opened NetworkResponse
  import opened NetworkRequest
  import opened DataSources
  import opened ViewModel

  /**
   * A fresh process with the given cache files and network, whose view model has just been asked to
   * fetch: the fetch is active, with a new source around a new, idle controller.
   */
  method StartFetch(filesDir: string, codec: JsonCodec, files: map<string, string>, replies: string -> Connection,
                    isStartAfterDestroy: bool, connected: bool) returns (vm: NewsViewModel)
    ensures fresh(vm) && fresh(vm.statics) && fresh(vm.statics.fs) && fresh(vm.net)
    ensures vm.codec == codec && vm.net.replies == replies && vm.net.log == []
    ensures vm.statics.fs.files == files && vm.statics.fs.failing == {} && vm.statics.filesDir == filesDir
    ensures vm.isFetchActive && vm.ReadyForCallback() && fresh(vm.fetchTask) && vm.fetchTask.listener == vm
    ensures vm.fetchTask.source == vm.source.value && vm.UsesEnvironment(vm.source.value)
    ensures vm.source.value.GetType() == SelectSource(isStartAfterDestroy, connected)
    ensures vm.offline == if isStartAfterDestroy then None else Some(!connected)
    ensures var db := vm.source.value.Db();
            fresh(db) && db.statics == vm.statics && db.live && db.queue == [] && vm.source.value.CanFetch()
  {
    var fs := new FileSystem(files, {});
    var statics := new ControllerStatics(fs);
    var net := new Network(replies);
    vm := new NewsViewModel(statics, filesDir, net, codec);
    vm.FetchNewsList(isStartAfterDestroy, connected);
  }

  /** Offline, and nothing cached: the fetch fails with the cache's error message and an empty list. */
  method OfflineWithoutCacheFails(filesDir: string, codec: JsonCodec) returns (vm: NewsViewModel)
    ensures vm.newsItemList == Some([]) && vm.readErrorMessage == Some(ReadErrorCache)
    ensures vm.progressBarStatus == Some(false) && vm.offline == Some(true) && !vm.IsFetchInProgress()
  {
    vm := StartFetch(filesDir, codec, map[], url => IoFailure, false, false);
    var task := vm.fetchTask;
    assert task.source.Cache? && task.source.Expected() == None;
    var news := task.DoInBackground();
    task.OnPostExecute(news);
  }

  /**
   * After the activity is recreated the cache is read, whatever the connectivity: the stored list
   * is published as it is, and no URL is requested.
   */
  method RecreatedActivityReadsCache(filesDir: string, codec: JsonCodec, text: string, es: seq<Json>)
    returns (vm: NewsViewModel)
    requires codec.parse(text) == Some(JArray(es)) && NewsListFromJson(es).Ok?
    ensures vm.newsItemList == Some(NewsListFromJson(es).value) && !vm.IsFetchInProgress()
    ensures vm.net.log == []
  {
    vm := StartFetch(filesDir, codec, map[CacheFilePath(filesDir) := text], url => IoFailure, true, true);
    var task := vm.fetchTask;
    assert task.source.Db().Path() == CacheFilePath(filesDir);
    assert Observed(vm.statics.fs.files, {}, CacheFilePath(filesDir), []) == Some(text);
    assert task.source.Cache? && task.source.Expected() == Some(NewsListFromJson(es).value);
    var news := task.DoInBackground();
    task.OnPostExecute(news);
  }

  /**
   * Online, and the first URL answers: the background step returns the list of the body, with its
   * line breaks dropped by the line reader, without requesting the backup URL, and leaves the
   * repaired results in the worker's queue as the one cache write.
   */
  method OnlineFirstUrlFetched(filesDir: string, codec: JsonCodec, body: string)
    returns (vm: NewsViewModel, news: Option<seq<NewsEntity>>)
    requires ProcessResponse(codec, StripTerminators(body)).Some?
    ensures news == Some(ProcessResponse(codec, StripTerminators(body)).value.news) && vm.net.log == [Url1]
    ensures fresh(vm) && fresh(vm.statics) && fresh(vm.statics.fs) && vm.source.Some? && fresh(vm.source.value.Db())
    ensures vm.isFetchActive && vm.ReadyForCallback() && fresh(vm.fetchTask) && vm.fetchTask.listener == vm
    ensures vm.offline == Some(false) && vm.source.value.Server?
    ensures var db := vm.source.value.Db();
            db.statics == vm.statics && db.live && vm.statics.filesDir == filesDir
            && vm.statics.fs.files == map[] && vm.statics.fs.failing == {}
            && db.queue == [WriteRequest(codec.serialize(JArray(ProcessResponse(codec, StripTerminators(body)).value.cached)))]
  {
    var stream := InputStream(body, None);
    vm := StartFetch(filesDir, codec, map[], url => if url == Url1 then Connected(stream) else IoFailure, false, true);
    var task := vm.fetchTask;
    FirstUrlAnswers(vm.net.replies, codec, body);
    news := task.DoInBackground();
  }

  /** The post-execute step then publishes that list and ends the fetch. */
  method OnlineFirstUrlAnswers(filesDir: string, codec: JsonCodec, body: string) returns (vm: NewsViewModel)
    requires ProcessResponse(codec, StripTerminators(body)).Some?
    ensures vm.newsItemList == Some(ProcessResponse(codec, StripTerminators(body)).value.news)
    ensures !vm.IsFetchInProgress() && vm.offline == Some(false) && vm.net.log == [Url1]
    ensures fresh(vm) && fresh(vm.statics) && fresh(vm.statics.fs) && vm.source.Some? && fresh(vm.source.value.Db())
    ensures fresh(vm.fetchTask) && vm.fetchTask.listener == null
    ensures var db := vm.source.value.Db();
            db.statics == vm.statics && db.live && vm.statics.filesDir == filesDir
            && vm.statics.fs.files == map[] && vm.statics.fs.failing == {}
            && db.queue == [WriteRequest(codec.serialize(JArray(ProcessResponse(codec, StripTerminators(body)).value.cached)))]
  {
    var news;
    vm, news := OnlineFirstUrlFetched(filesDir, codec, body);
    vm.fetchTask.OnPostExecute(news);
  }

  /** The same fetch, after which the view model is cleaned up: the worker finishes and the file holds the results. */
  method OnlineFirstUrlSucceeds(filesDir: string, codec: JsonCodec, body: string) returns (vm: NewsViewModel)
    requires ProcessResponse(codec, StripTerminators(body)).Some?
    ensures vm.newsItemList == Some(ProcessResponse(codec, StripTerminators(body)).value.news)
    ensures vm.statics.fs.files
         == map[CacheFilePath(filesDir) := codec.serialize(JArray(ProcessResponse(codec, StripTerminators(body)).value.cached))]
  {
    vm := OnlineFirstUrlAnswers(filesDir, codec, body);
    var db := vm.source.value.Db();
    ghost var written := codec.serialize(JArray(ProcessResponse(codec, StripTerminators(body)).value.cached));
    SingleWriteReplacesFile(db.StoreOf(), CacheFilePath(filesDir), written);
    vm.CleanUpNewsDB();
  }

  lemma SingleWriteReplacesFile(s: Store, path: string, d: string)
    ensures RunAll(s, {}, path, [WriteRequest(d)]).files == s.files[path := d]
  {
    assert [WriteRequest(d)][1..] == [];
  }

  lemma FirstUrlAnswers(replies: string -> Connection, codec: JsonCodec, body: string)
    requires replies(Url1) == Connected(InputStream(body, None))
    requires ProcessResponse(codec, StripTerminators(body)).Some?
    ensures PipelineNews(replies, codec, Url1) == ResponseNews(codec, StripTerminators(body))
    ensures PipelineNews(replies, codec, Url1).Some?
    ensures PipelineWrites(replies, codec, Url1)
         == [WriteRequest(codec.serialize(JArray(ProcessResponse(codec, StripTerminators(body)).value.cached)))]
  {
    assert FetchResult(replies(Url1)) == Some(StripTerminators(body));
  }
}
