/**
 * The fetch orchestrator: the view model that starts fetches and publishes their outcome, and the
 * background task that runs one fetch and reports back to it. The task's threads are modelled as
 * steps: the task's execute runs its pre-execute step; the background step and the post-execute
 * step are taken later, in that order.
 */
module ViewModel {
  import opened Wrappers
  import opened JsonValues
  import opened NewsEntities
  import opened NewsDataBase
  import opened NetworkRequest
  import opened DataSources

  /** The two error texts shown after a failed fetch (R.string.read_error_server and read_error_cache). */
  datatype ErrorMessage = ReadErrorServer | ReadErrorCache

  /**
   * The source a fetch uses: the cache after the activity was recreated, otherwise the server when
   * the device is connected and the cache when it is not.
   */
  function SelectSource(isStartAfterDestroy: bool, connected: bool): (r: Sources)
    ensures isStartAfterDestroy ==> r == CACHE
    ensures !isStartAfterDestroy ==> (r == SERVER <==> connected)
  {
    if !isStartAfterDestroy && connected then SERVER else CACHE
  }

  /** The error message onError shows for a failed fetch from a source of this kind. */
  function ErrorFor(t: Sources): (m: ErrorMessage)
    ensures m == ReadErrorServer <==> t == SERVER
  {
    if t == SERVER then ReadErrorServer else ReadErrorCache
  }

  class FetchNewsTask {
    /** mSource */
    const source: DataSource
    /** mFetchListener */
    var listener: NewsViewModel?

    constructor (source: DataSource)
      ensures this.source == source && listener == null
    {
      this.source := source;
      listener := null;
    }

    /** The registered listener, as a set for frames. */
    ghost function Listeners(): set<NewsViewModel>
      reads this
    {
      if listener != null then {listener} else {}
    }

    /** registerFetchCompleteListener: replaces any listener registered before. */
    method RegisterFetchCompleteListener(l: NewsViewModel?)
      modifies this`listener
      ensures listener == l
    {
      listener := l;
    }

    method UnregisterFetchCompleteListener()
      modifies this`listener
      ensures listener == null
    {
      listener := null;
    }

    /** doInBackground: the source's fetch, unchanged. */
    method DoInBackground() returns (r: Option<seq<NewsEntity>>)
      requires source.CanFetch()
      modifies source.Networks()`log, source.Db()`queue, source.Db().statics`data, source.Db().statics`readComplete,
               source.Db().statics.fs`files
      ensures r == old(source.Expected())
      ensures source.Server? ==> source.server.net.log == old(source.server.net.log) + source.ExpectedRequests()
      ensures source.Server? ==> source.Db().queue == old(source.Db().queue) + old(source.ExpectedWrites())
                                 && source.Db().StoreOf() == old(source.Db().StoreOf())
      ensures source.Cache? ==> source.Db().queue == [] && source.Db().statics.fs.files
                                == FileAfterWrites(old(source.Db().statics.fs.files), source.Db().statics.fs.failing,
                                                   source.Db().Path(), old(source.Db().queue))
      ensures old(source.Db().Valid()) ==> source.Db().Valid()
      ensures old(source.Db().statics.Valid()) ==> source.Db().statics.Valid()
    {
      r := FetchFrom(source);
    }

    /** onPreExecute: shows progress, when someone listens. */
    method OnPreExecute()
      modifies Listeners()`progressBarStatus
      ensures listener != null ==> listener.progressBarStatus == Some(true)
    {
      if listener != null {
        listener.ShowProgress();
      }
    }

    /** execute: the pre-execute step runs at once; the background work is started for later. */
    method Execute()
      modifies Listeners()`progressBarStatus
      ensures listener != null ==> listener.progressBarStatus == Some(true)
    {
      OnPreExecute();
    }

    /**
     * onPostExecute: reports the background result to the listener, if there is one: null as one
     * onError, a list as one onFetchSuccess with that list. Either callback unregisters the view
     * model's current task. Without a listener nothing happens.
     */
    method OnPostExecute(news: Option<seq<NewsEntity>>)
      requires listener != null ==> listener.ReadyForCallback()
      modifies Listeners()`progressBarStatus, Listeners()`isFetchActive, Listeners()`newsItemList, Listeners()`readErrorMessage
      modifies if listener != null then {listener.fetchTask} else {}
      ensures old(listener) != null ==> old(listener).progressBarStatus == Some(false) && !old(listener).isFetchActive
      ensures old(listener) != null ==> old(listener.fetchTask).listener == null
      ensures old(listener) != null && news.None? ==>
                old(listener).newsItemList == Some([])
                && old(listener).readErrorMessage == Some(ErrorFor(old(listener.source).value.GetType()))
      ensures old(listener) != null && news.Some? ==>
                old(listener).newsItemList == news && old(listener).readErrorMessage == old(listener.readErrorMessage)
    {
      if listener != null {
        if news.None? {
          listener.OnError();
        } else {
          listener.OnFetchSuccess(news.value);
        }
      }
    }
  }

  class NewsViewModel {
    /** The process's controller singleton state. */
    const statics: ControllerStatics
    /** The application's files directory. */
    const filesDir: string
    /** The network the server source uses. */
    const net: Network
    /** The JSON text library. */
    const codec: JsonCodec

    /** The published values: newsItemList, mProgressBarStatus, mOffline (None before the first set). */
    var newsItemList: Option<seq<NewsEntity>>
    var progressBarStatus: Option<bool>
    var offline: Option<bool>
    /** mSource */
    var source: Option<DataSource>
    /** mReadErrorMessage */
    var readErrorMessage: Option<ErrorMessage>
    /** mIsFetchActive */
    var isFetchActive: bool
    /** mFetchTask */
    var fetchTask: FetchNewsTask?

    /** A task exists only together with the source it was made for. */
    ghost predicate Valid()
      reads this, fetchTask
    {
      fetchTask != null ==> source.Some? && fetchTask.source == source.value
    }

    /** What the callbacks dereference: the current task and source. */
    ghost predicate ReadyForCallback()
      reads this
    {
      fetchTask != null && source.Some?
    }

    /** A source made by this view model talks to its network and uses its JSON library. */
    ghost predicate UsesEnvironment(s: DataSource) {
      match s
      case Server(server) => server.net == net && server.codec == codec
      case Cache(cache) => cache.codec == codec
    }

    constructor (statics: ControllerStatics, filesDir: string, net: Network, codec: JsonCodec)
      ensures this.statics == statics && this.filesDir == filesDir && this.net == net && this.codec == codec
      ensures newsItemList == None && progressBarStatus == None && offline == None && source == None
      ensures readErrorMessage == None && !isFetchActive && fetchTask == null && Valid()
    {
      this.statics := statics;
      this.filesDir := filesDir;
      this.net := net;
      this.codec := codec;
      newsItemList := None;
      progressBarStatus := None;
      offline := None;
      source := None;
      readErrorMessage := None;
      isFetchActive := false;
      fetchTask := null;
    }

    /**
     * fetchNewsList: ignored while a fetch is active, whatever the argument. Otherwise it marks a
     * fetch active and starts one from the source SelectSource picks, with progress shown; the
     * connectivity is checked (and the offline flag published) only on a fresh start.
     */
    method FetchNewsList(isStartAfterDestroy: bool, connected: bool)
      requires statics.Valid()
      modifies this, statics`instance, statics`filesDir
      ensures old(isFetchActive) ==> unchanged(this) && unchanged(statics)
      ensures !old(isFetchActive) ==>
                isFetchActive && source.Some? && source.value.GetType() == SelectSource(isStartAfterDestroy, connected)
                && source.value.Db() == statics.instance && source.value.CanFetch() && UsesEnvironment(source.value)
                && fresh(fetchTask) && fetchTask.source == source.value && fetchTask.listener == this
                && progressBarStatus == Some(true)
                && offline == (if isStartAfterDestroy then old(offline) else Some(!connected))
                && newsItemList == old(newsItemList) && readErrorMessage == old(readErrorMessage)
      ensures !old(isFetchActive) && old(statics.instance) == null ==>
                fresh(source.value.Db()) && source.value.Db().queue == [] && statics.filesDir == filesDir
      ensures !old(isFetchActive) && old(statics.instance) != null ==>
                source.value.Db() == old(statics.instance) && statics.filesDir == old(statics.filesDir)
      ensures old(Valid()) ==> Valid()
      ensures statics.Valid()
    {
      if !isStartAfterDestroy {
        if !isFetchActive {
          isFetchActive := true;
          var up := IsInternetAccessAvailable(connected);
          if up {
            FetchNewsListInternal(SERVER);
          } else {
            FetchNewsListInternal(CACHE);
          }
        }
      } else {
        if !isFetchActive {
          isFetchActive := true;
          FetchNewsListInternal(CACHE);
        }
      }
    }

    /** isInternetAccessAvailable: publishes the offline flag and reports the connectivity. */
    method IsInternetAccessAvailable(connected: bool) returns (up: bool)
      modifies this`offline
      ensures up == connected && offline == Some(!connected)
    {
      offline := Some(!connected);
      up := connected;
    }

    /** fetchNewsListInternal: a new source and a new task listening to this view model, started. */
    method FetchNewsListInternal(sourceType: Sources)
      requires statics.Valid()
      modifies this`source, this`fetchTask, this`progressBarStatus, statics`instance, statics`filesDir
      ensures source.Some? && source.value.GetType() == sourceType
      ensures source.value.Db() == statics.instance && source.value.CanFetch() && statics.Valid()
      ensures UsesEnvironment(source.value)
      ensures fresh(fetchTask) && fetchTask.source == source.value && fetchTask.listener == this
      ensures progressBarStatus == Some(true) && Valid()
      ensures old(statics.instance) == null ==>
                fresh(source.value.Db()) && source.value.Db().queue == [] && statics.filesDir == filesDir
      ensures old(statics.instance) != null ==>
                source.value.Db() == old(statics.instance) && statics.filesDir == old(statics.filesDir)
    {
      var s := GetDataSource(sourceType, filesDir, statics, net, codec);
      source := Some(s);
      var task := new FetchNewsTask(s);
      fetchTask := task;
      task.RegisterFetchCompleteListener(this);
      task.Execute();
    }

    /** showProgress */
    method ShowProgress()
      modifies this`progressBarStatus
      ensures progressBarStatus == Some(true)
    {
      progressBarStatus := Some(true);
    }

    /** onFetchSuccess: hides progress, ends the fetch, publishes exactly the list (even an empty one). */
    method OnFetchSuccess(news: seq<NewsEntity>)
      requires fetchTask != null
      modifies this`progressBarStatus, this`isFetchActive, this`newsItemList, fetchTask`listener
      ensures progressBarStatus == Some(false) && !isFetchActive && newsItemList == Some(news)
      ensures fetchTask.listener == null
    {
      progressBarStatus := Some(false);
      isFetchActive := false;
      newsItemList := Some(news);
      fetchTask.UnregisterFetchCompleteListener();
    }

    /**
     * onError: hides progress, shows the error message for the kind of the current source, ends
     * the fetch and publishes an empty list.
     */
    method OnError()
      requires fetchTask != null && source.Some?
      modifies this`progressBarStatus, this`readErrorMessage, this`isFetchActive, this`newsItemList, fetchTask`listener
      ensures progressBarStatus == Some(false) && !isFetchActive && newsItemList == Some([])
      ensures readErrorMessage == Some(ErrorFor(source.value.GetType()))
      ensures fetchTask.listener == null
    {
      progressBarStatus := Some(false);
      if source.value.GetType() == SERVER {
        readErrorMessage := Some(ReadErrorServer);
      } else {
        readErrorMessage := Some(ReadErrorCache);
      }
      isFetchActive := false;
      newsItemList := Some([]);
      fetchTask.UnregisterFetchCompleteListener();
    }

    /** The current source's controller, its static state and its storage, and the current task, as sets for frames. */
    ghost function SourceDbs(): set<NewsDataBaseController>
      reads this
    {
      if source.Some? then {source.value.Db()} else {}
    }

    ghost function SourceStatics(): set<ControllerStatics>
      reads this
    {
      if source.Some? then {source.value.Db().statics} else {}
    }

    ghost function SourceFiles(): set<FileSystem>
      reads this
    {
      if source.Some? then {source.value.Db().statics.fs} else {}
    }

    ghost function Tasks(): set<FetchNewsTask>
      reads this
    {
      if fetchTask != null then {fetchTask} else {}
    }

    /**
     * cleanUpNewsDB: closes the current source, if any, which shuts the shared controller down, and
     * unregisters the current task, if any, so that its callbacks reach no one.
     */
    method CleanUpNewsDB()
      modifies SourceDbs()`live, SourceDbs()`queue, SourceStatics()`instance, SourceStatics()`data,
               SourceStatics()`readComplete, SourceFiles()`files, Tasks()`listener
      ensures source.Some? ==> !source.value.Db().live && source.value.Db().statics.instance == null
      ensures source.Some? ==> var db := source.value.Db();
                db.StoreOf() == if old(db.live) then RunAll(old(db.StoreOf()), db.statics.fs.failing, db.Path(), old(db.queue))
                                else old(db.StoreOf())
      ensures fetchTask != null ==> fetchTask.listener == null
    {
      if source.Some? {
        CloseSource(source.value);
      }
      if fetchTask != null {
        fetchTask.UnregisterFetchCompleteListener();
      }
    }

    function IsFetchInProgress(): (r: bool)
      reads this
      ensures r <==> isFetchActive
    {
      isFetchActive
    }
  }
}
