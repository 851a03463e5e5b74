/**
 * The cache controller. One file holds the cache; every read and write of it is posted to the
 * message queue of one worker thread and run there in arrival order. The controller is a singleton.
 *
 * Threads are modelled sequentially: the worker's queue is a sequence, running a request removes it
 * from the front, and a blocked reader is a loop that lets the worker run until the read completes.
 */
module NewsDataBase {
  import opened Wrappers

  const FileName := "news_dump.txt"

  /** The cache file inside the application's files directory. */
  function CacheFilePath(filesDir: string): string {
    filesDir + "/" + FileName
  }

  /**
   * The device's storage: the content of every existing file, and the paths that cannot be opened.
   * A path either always opens or never does, for reads and writes alike.
   */
  class FileSystem {
    var files: map<string, string>
    const failing: set<string>

    constructor (files: map<string, string>, failing: set<string>)
      ensures this.files == files && this.failing == failing
    {
      this.files := files;
      this.failing := failing;
    }
  }

  /** A request posted to the worker: write a whole blob, or read the file into the shared result slot. */
  datatype Request = WriteRequest(data: string) | ReadRequest

  /** What the worker's requests act on: the files, and the shared slot and flag a read reports through. */
  datatype Store = Store(files: map<string, string>, data: Option<string>, readComplete: bool)

  /**
   * One request run on the worker. A write replaces the file's content (the writer does not append);
   * when the file cannot be opened the exception comes before the writer truncates it, so the old
   * content stays. A read puts the content in the slot, or leaves the slot as it is when the file is
   * missing or cannot be opened, and then flags completion either way.
   */
  function Run(s: Store, failing: set<string>, path: string, r: Request): (t: Store)
    ensures t.files - {path} == s.files - {path}
    ensures r.WriteRequest? ==> t.data == s.data && t.readComplete == s.readComplete
    ensures r.WriteRequest? && path !in failing ==> path in t.files && t.files[path] == r.data
    ensures (r.WriteRequest? && path in failing) || r.ReadRequest? ==> t.files == s.files
    ensures r.ReadRequest? ==> t.readComplete
    ensures r.ReadRequest? ==> t.data == if path !in failing && path in s.files then Some(s.files[path]) else s.data
  {
    match r
    case WriteRequest(d) =>
      if path in failing then s else s.(files := s.files[path := d])
    case ReadRequest =>
      s.(data := if path in failing || path !in s.files then s.data else Some(s.files[path]),
         readComplete := true)
  }

  /** The queue run to the end, front first. */
  function RunAll(s: Store, failing: set<string>, path: string, q: seq<Request>): Store
    decreases |q|
  {
    if q == [] then s else RunAll(Run(s, failing, path, q[0]), failing, path, q[1..])
  }

  predicate OnlyWrites(q: seq<Request>) {
    forall i :: 0 <= i < |q| ==> q[i].WriteRequest?
  }

  /** The data of the last write in q (the reference definition of "last write wins"). */
  function LastWrite(q: seq<Request>): (r: Option<string>)
    ensures r.Some? ==> exists i :: 0 <= i < |q| && q[i] == WriteRequest(r.value)
  {
    if q == [] then None
    else
      var later := LastWrite(q[1..]);
      if later.Some? then
        assert q[1..][0] == q[1];
        later
      else if q[0].WriteRequest? then Some(q[0].data) else None
  }

  /** What a read posted after the writes q returns, starting from the cleared result slot. */
  function Observed(files: map<string, string>, failing: set<string>, path: string, q: seq<Request>): Option<string> {
    if path in failing then None
    else if LastWrite(q).Some? then LastWrite(q)
    else if path in files then Some(files[path])
    else None
  }

  /** The file after some writes: the last successful write's data, never a combination of writes. */
  function FileAfterWrites(files: map<string, string>, failing: set<string>, path: string, q: seq<Request>): map<string, string> {
    if path in failing || LastWrite(q).None? then files else files[path := LastWrite(q).value]
  }

  lemma {:induction false} RunAllAppend(s: Store, failing: set<string>, path: string, q1: seq<Request>, q2: seq<Request>)
    ensures RunAll(s, failing, path, q1 + q2) == RunAll(RunAll(s, failing, path, q1), failing, path, q2)
    decreases |q1|
  {
    if q1 != [] {
      assert (q1 + q2)[0] == q1[0];
      assert (q1 + q2)[1..] == q1[1..] + q2;
      RunAllAppend(Run(s, failing, path, q1[0]), failing, path, q1[1..], q2);
    } else {
      assert q1 + q2 == q2;
    }
  }

  /**
   * Writes run in order replace the whole file content each time: afterwards the file holds the last
   * write's data (or is untouched when the file cannot be opened), and the read slot is not disturbed.
   */
  lemma {:induction false} WritesReplaceContent(s: Store, failing: set<string>, path: string, q: seq<Request>)
    requires OnlyWrites(q)
    ensures RunAll(s, failing, path, q) == s.(files := FileAfterWrites(s.files, failing, path, q))
    decreases |q|
  {
    if q != [] {
      assert OnlyWrites(q[1..]) by {
        forall i | 0 <= i < |q[1..]| ensures q[1..][i].WriteRequest? { assert q[1..][i] == q[i + 1]; }
      }
      WritesReplaceContent(Run(s, failing, path, q[0]), failing, path, q[1..]);
    }
  }

  /**
   * FIFO order: a read posted after the writes q observes the last of them, or the file as it was when
   * none was posted, or null when the file cannot be read. It never returns a value left in the slot
   * by an earlier read, because the slot is cleared before the read is posted.
   */
  lemma ReadSeesLastWrite(files: map<string, string>, failing: set<string>, path: string, q: seq<Request>)
    requires OnlyWrites(q)
    ensures RunAll(Store(files, None, false), failing, path, q + [ReadRequest])
         == Store(FileAfterWrites(files, failing, path, q), Observed(files, failing, path, q), true)
  {
    var s := Store(files, None, false);
    RunAllAppend(s, failing, path, q, [ReadRequest]);
    WritesReplaceContent(s, failing, path, q);
  }

  lemma {:induction false} LastWriteOfAppendedWrite(q: seq<Request>, d: string)
    ensures LastWrite(q + [WriteRequest(d)]) == Some(d)
    decreases |q|
  {
    if q != [] {
      assert (q + [WriteRequest(d)])[1..] == q[1..] + [WriteRequest(d)];
      LastWriteOfAppendedWrite(q[1..], d);
    }
  }

  /** A write followed by a read returns exactly the written text, when the file can be written. */
  lemma WriteThenReadReturnsWritten(files: map<string, string>, failing: set<string>, path: string, q: seq<Request>, d: string)
    requires path !in failing
    ensures Observed(files, failing, path, q + [WriteRequest(d)]) == Some(d)
  {
    LastWriteOfAppendedWrite(q, d);
  }

  /** The process-wide static state of the controller class. */
  class ControllerStatics {
    /** sInstance */
    var instance: NewsDataBaseController?
    /** sFilesDir: set by the constructor of the latest instance */
    var filesDir: string
    /** mData: the slot a read's result is handed over in */
    var data: Option<string>
    /** mReadCompleteLock's flag */
    var readComplete: bool
    /** the storage the cache file lives on */
    const fs: FileSystem

    ghost predicate Valid()
      reads this, instance
    {
      instance != null ==> instance.statics == this && instance.live && instance.Valid()
    }

    constructor (fs: FileSystem)
      ensures Valid() && instance == null && data == None && readComplete && this.fs == fs
    {
      instance := null;
      filesDir := "";
      data := None;
      readComplete := true;
      this.fs := fs;
    }

    /**
     * getInstance: the existing instance if there is one (the path argument is then ignored),
     * otherwise a new controller for this path.
     */
    method GetInstance(filesDirPath: string) returns (c: NewsDataBaseController)
      requires Valid()
      modifies this`instance, this`filesDir
      ensures Valid() && instance == c && c.statics == this && c.live && c.Valid()
      ensures old(instance) != null ==> c == old(instance) && filesDir == old(filesDir)
      ensures old(instance) == null ==> fresh(c) && c.queue == [] && filesDir == filesDirPath
    {
      if instance == null {
        instance := new NewsDataBaseController(this, filesDirPath);
      }
      c := instance;
    }
  }

  class NewsDataBaseController {
    const statics: ControllerStatics
    /** mHandler != null: the worker thread has not been shut down */
    var live: bool
    /** the worker's message queue */
    var queue: seq<Request>

    /** Only writes wait in the queue (a reader waits for its own read), and a stopped worker has none. */
    ghost predicate Valid()
      reads this
    {
      OnlyWrites(queue) && (!live ==> queue == [])
    }

    ghost function Path(): string
      reads statics
    {
      CacheFilePath(statics.filesDir)
    }

    ghost function StoreOf(): Store
      reads statics, statics.fs
    {
      Store(statics.fs.files, statics.data, statics.readComplete)
    }

    /** The private constructor: records the files directory and starts the worker. */
    constructor (statics: ControllerStatics, filesDirPath: string)
      modifies statics`filesDir
      ensures this.statics == statics && live && queue == [] && Valid()
      ensures statics.filesDir == filesDirPath
    {
      this.statics := statics;
      live := true;
      queue := [];
      new;
      statics.filesDir := filesDirPath;
    }

    /** The worker runs the request at the front of its queue. */
    method RunNextRequest()
      requires queue != []
      modifies this`queue, statics`data, statics`readComplete, statics.fs`files
      ensures queue == old(queue[1..])
      ensures StoreOf() == Run(old(StoreOf()), statics.fs.failing, Path(), old(queue[0]))
    {
      var request := queue[0];
      queue := queue[1..];
      var path := CacheFilePath(statics.filesDir);
      match request
      case WriteRequest(d) =>
        if path !in statics.fs.failing {
          statics.fs.files := statics.fs.files[path := d];
        }
      case ReadRequest =>
        if path !in statics.fs.failing && path in statics.fs.files {
          statics.data := Some(statics.fs.files[path]);
        }
        statics.readComplete := true;
    }

    /**
     * cleanUp: a live worker finishes what is already queued and stops; the singleton is reset either
     * way, so the next getInstance creates a fresh controller. A second call changes nothing more.
     */
    method CleanUp()
      modifies this`live, this`queue, statics`instance, statics`data, statics`readComplete, statics.fs`files
      ensures !live && statics.instance == null
      ensures queue == if old(live) then [] else old(queue)
      ensures StoreOf() == if old(live) then RunAll(old(StoreOf()), statics.fs.failing, Path(), old(queue)) else old(StoreOf())
      ensures old(Valid()) ==> Valid()
    {
      if live {
        while queue != []
          invariant RunAll(StoreOf(), statics.fs.failing, Path(), queue)
                 == RunAll(old(StoreOf()), statics.fs.failing, Path(), old(queue))
          decreases |queue|
        {
          RunNextRequest();
        }
      }
      live := false;
      statics.instance := null;
    }

    /** writeToDB: posts a write and returns at once; on a stopped controller the write is dropped. */
    method WriteToDB(data: string)
      modifies this`queue
      ensures queue == if live then old(queue) + [WriteRequest(data)] else old(queue)
      ensures old(Valid()) ==> Valid()
      ensures old(statics.Valid()) ==> statics.Valid()
    {
      if live {
        queue := queue + [WriteRequest(data)];
      }
    }

    /**
     * readFromDB: clears the result slot and the completion flag, posts a read and blocks until the
     * worker has run it. It needs a live worker: with none, the read is never posted and the caller
     * waits forever.
     */
    method ReadFromDB() returns (r: Option<string>)
      requires live && Valid()
      modifies this`queue, statics`data, statics`readComplete, statics.fs`files
      ensures Valid() && queue == []
      ensures r == Observed(old(statics.fs.files), statics.fs.failing, Path(), old(queue))
      ensures statics.fs.files == FileAfterWrites(old(statics.fs.files), statics.fs.failing, Path(), old(queue))
      ensures statics.data == r && statics.readComplete
      ensures old(statics.Valid()) ==> statics.Valid()
    {
      statics.readComplete := false;
      statics.data := None;
      ghost var start := StoreOf();
      queue := queue + [ReadRequest];
      ghost var posted := queue;
      while !statics.readComplete
        invariant RunAll(StoreOf(), statics.fs.failing, Path(), queue)
               == RunAll(start, statics.fs.failing, Path(), posted)
        invariant statics.readComplete ==> queue == []
        invariant !statics.readComplete ==>
          queue != [] && queue[|queue| - 1] == ReadRequest && OnlyWrites(queue[..|queue| - 1])
        decreases |queue|
      {
        ghost var before := queue;
        RunNextRequest();
        assert before == [before[0]] + queue;
        if queue != [] {
          assert queue[..|queue| - 1] == before[1..|before| - 1];
        }
      }
      r := statics.data;
      ReadSeesLastWrite(start.files, statics.fs.failing, Path(), old(queue));
    }
  }
}
