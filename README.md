# News app data layer, modelled in Dafny

This project models how the Android news app gets its list of news items and caches it.

The app's view model starts a fetch on a background task. The task asks a data source for the list:
- The **server source** tries a first URL and then a backup URL. Each attempt runs a
  two-stage pipeline. The request stage reads the HTTP body line by line. The response stage checks
  the `status` member, repairs the `multimedia` members the server sends as strings, and converts
  the `results` array into news entities with Gson. On success it posts the repaired array to the
  cache controller as one write.
- The **cache source** asks the controller for the file's content and converts it the same way.

The **cache controller** (`NewsDataBaseController`) is a singleton. It runs every read and write of
the one cache file (`news_dump.txt` in the application's files directory) on one worker thread, in
arrival order. A read blocks until the worker has run it.

Modules, one per file:

| file | module | models |
|---|---|---|
| `wrappers.dfy` | `Wrappers` | Option (null) and Result (a conversion that throws) |
| `json.dfy` | `JsonValues` | JSON values; the JSON text library as a parse/serialize pair |
| `java_types.dfy` | `JavaTypes` | nullable Strings, `int`, `String.equals` and `&&` with NullPointerException |
| `gson.dfy` | `Gson` | Gson's mapping of members onto fields, both ways |
| `media_entity.dfy` | `MediaEntities` | `MediaEntity` |
| `news_entity.dfy` | `NewsEntities` | `NewsEntity`, including `equals` |
| `news_database.dfy` | `NewsDataBase` | `NewsDataBaseController`, its static state and the worker queue |
| `network_response.dfy` | `NetworkResponse` | `NetworkResponseProcessor` |
| `network_request.dfy` | `NetworkRequest` | `NetworkRequestProcessor` and the network |
| `data_sources.dfy` | `DataSources` | `CacheDataSource`, `ServerDataSource`, `DataSourceFactory` |
| `view_model.dfy` | `ViewModel` | `FetchNewsTask`, `NewsViewModel` |
| `scenarios.dfy` | `Scenarios` | whole fetches on a freshly started process |

How state is modelled:
- Classes whose fields the app updates are Dafny classes: the controller, the processors, the
  sources, the task and the view model.
- The controller's static fields (`sInstance`, `sFilesDir`, `mData`, `mReadCompleteLock`) are one
  `ControllerStatics` object, shared by every controller.
- The worker's message queue is a `seq<Request>` field. The blocking wait in `readFromDB` is a
  loop that runs the worker until the read has completed.
- Environment inputs are parameters: the device's files and the paths that cannot be opened; what each
  URL yields; whether the device is connected; the JSON text library.

## Model

| member | source | states |
|---|---|---|
| MediaEntities.SetUrl | android_challenge/app/src/main/java/news/agoda/com/sample/viewmodel/MediaEntity.java:30-32 | sets url and leaves the other seven fields as they are |
| MediaEntities.SetFormat | android_challenge/app/src/main/java/news/agoda/com/sample/viewmodel/MediaEntity.java:38-40 | sets format, nothing else changes |
| MediaEntities.SetHeight | android_challenge/app/src/main/java/news/agoda/com/sample/viewmodel/MediaEntity.java:46-48 | sets height, nothing else changes |
| MediaEntities.SetWidth | android_challenge/app/src/main/java/news/agoda/com/sample/viewmodel/MediaEntity.java:54-56 | sets width, nothing else changes |
| MediaEntities.SetType | android_challenge/app/src/main/java/news/agoda/com/sample/viewmodel/MediaEntity.java:62-64 | sets type, nothing else changes |
| MediaEntities.SetSubType | android_challenge/app/src/main/java/news/agoda/com/sample/viewmodel/MediaEntity.java:70-72 | sets subType, nothing else changes |
| MediaEntities.SetCaption | android_challenge/app/src/main/java/news/agoda/com/sample/viewmodel/MediaEntity.java:78-80 | sets caption, nothing else changes |
| MediaEntities.SetCopyright | android_challenge/app/src/main/java/news/agoda/com/sample/viewmodel/MediaEntity.java:86-88 | sets copyright, nothing else changes |
| MediaEntities.MediaFromJson | android_challenge/app/src/main/java/news/agoda/com/sample/viewmodel/MediaEntity.java:9-24 | a media element that is not a JSON object fails to convert |
| MediaEntities.MediaKeysDistinct | android_challenge/app/src/main/java/news/agoda/com/sample/viewmodel/MediaEntity.java:9-24 | the eight @SerializedName keys are pairwise distinct |
| MediaEntities.MediaMembersReadBack | android_challenge/app/src/main/java/news/agoda/com/sample/viewmodel/MediaEntity.java:9-24 | every member written for a media item reads back as the field it came from, the two ints included |
| MediaEntities.MediaMembersWritten | android_challenge/app/src/main/java/news/agoda/com/sample/viewmodel/MediaEntity.java:9-24 | what Gson's default writer would give: both int members always, each String member exactly when its field is not null, no member outside the eight keys |
| MediaEntities.MediaToJson | android_challenge/app/src/main/java/news/agoda/com/sample/viewmodel/MediaEntity.java:9-24 | a reference writer the app never calls (it caches the server's own array): an object with both int members, each String member iff its field is not null, and no other key |
| MediaEntities.MediaRoundTrip | android_challenge/app/src/main/java/news/agoda/com/sample/viewmodel/MediaEntity.java:9-24 | converting the object the reference writer gives for any media item back gives that item: the key table loses nothing |
| NewsEntities.SetSection | android_challenge/app/src/main/java/news/agoda/com/sample/viewmodel/NewsEntity.java:34-36 | sets section, nothing else changes |
| NewsEntities.SetSubsection | android_challenge/app/src/main/java/news/agoda/com/sample/viewmodel/NewsEntity.java:42-44 | sets subsection, nothing else changes |
| NewsEntities.SetTitle | android_challenge/app/src/main/java/news/agoda/com/sample/viewmodel/NewsEntity.java:50-52 | sets title, nothing else changes |
| NewsEntities.SetSummary | android_challenge/app/src/main/java/news/agoda/com/sample/viewmodel/NewsEntity.java:58-60 | sets summary, nothing else changes |
| NewsEntities.SetUrl | android_challenge/app/src/main/java/news/agoda/com/sample/viewmodel/NewsEntity.java:66-68 | sets url, nothing else changes |
| NewsEntities.SetByline | android_challenge/app/src/main/java/news/agoda/com/sample/viewmodel/NewsEntity.java:74-76 | sets byline, nothing else changes |
| NewsEntities.SetPublishedDate | android_challenge/app/src/main/java/news/agoda/com/sample/viewmodel/NewsEntity.java:82-84 | sets publishedDate, nothing else changes |
| NewsEntities.SetMediaEntityList | android_challenge/app/src/main/java/news/agoda/com/sample/viewmodel/NewsEntity.java:90-92 | sets the media list, nothing else changes |
| NewsEntities.MediaListMember | android_challenge/app/src/main/java/news/agoda/com/sample/viewmodel/NewsEntity.java:27-28 | an empty `multimedia` array gives an empty list; a string there makes the conversion fail |
| NewsEntities.NewsFromJson | android_challenge/app/src/main/java/news/agoda/com/sample/viewmodel/NewsEntity.java:12-28 | a non-object fails; a converted item's media list is what the `multimedia` member converts to |
| NewsEntities.NewsListFromJson | android_challenge/app/src/main/java/news/agoda/com/sample/model/NetworkResponseProcessor.java:57-59 | the array converts iff every element does, and then element i of the list is element i converted |
| NewsEntities.NewsKeysDistinct | android_challenge/app/src/main/java/news/agoda/com/sample/viewmodel/NewsEntity.java:12-28 | the seven String keys are pairwise distinct and differ from `multimedia` |
| NewsEntities.NewsMembers | android_challenge/app/src/main/java/news/agoda/com/sample/viewmodel/NewsEntity.java:27-28 | in the reference writer's members, `multimedia` is present iff the media list is not null |
| NewsEntities.NewsMembersWritten | android_challenge/app/src/main/java/news/agoda/com/sample/viewmodel/NewsEntity.java:12-28 | what Gson's default writer would give: each String member exactly when its field is not null, the media items in order when the list is not null, no member outside the eight keys |
| NewsEntities.NewsToJson | android_challenge/app/src/main/java/news/agoda/com/sample/viewmodel/NewsEntity.java:12-28 | a reference writer the app never calls: an object with each String member iff its field is not null, `multimedia` iff the list is not null holding the media items written in order, and no other key |
| NewsEntities.NewsMembersReadBackScalars | android_challenge/app/src/main/java/news/agoda/com/sample/viewmodel/NewsEntity.java:12-25 | each of the seven Strings written for an item reads back as its field, null included |
| NewsEntities.NewsMembersReadBackMedia | android_challenge/app/src/main/java/news/agoda/com/sample/viewmodel/NewsEntity.java:27-28 | the media list written for an item reads back as the same list, in order, or as null |
| NewsEntities.NewsRoundTrip | android_challenge/app/src/main/java/news/agoda/com/sample/viewmodel/NewsEntity.java:12-28 | converting the object the reference writer gives for any news item back gives that item, media list in order: the key table loses nothing |
| NewsEntities.AreMediaValuesEqual | android_challenge/app/src/main/java/news/agoda/com/sample/viewmodel/NewsEntity.java:144-153 | with no null String on the left it is structural equality; a null left copyright throws |
| NewsEntities.ScalarsEqual | android_challenge/app/src/main/java/news/agoda/com/sample/viewmodel/NewsEntity.java:109-115 | never throws when the receiver's seven Strings are not null |
| NewsEntities.Equals | android_challenge/app/src/main/java/news/agoda/com/sample/viewmodel/NewsEntity.java:102-136 | an argument that is not a NewsEntity gives false |
| NewsEntities.MediaListsEqualFrom | android_challenge/app/src/main/java/news/agoda/com/sample/viewmodel/NewsEntity.java:126-131 | the media loop from index i returns true iff every later pair compares true; false only when some pair compares false; it throws only when some pair throws |
| NewsEntities.MediaListsEqualFromIsSuffixEquality | android_challenge/app/src/main/java/news/agoda/com/sample/viewmodel/NewsEntity.java:126-131 | the media loop from index i never throws and is true iff the two suffixes are equal |
| NewsEntities.EqualsIsStructural | android_challenge/app/src/main/java/news/agoda/com/sample/viewmodel/NewsEntity.java:102-136 | with nothing null on the receiver and a media list on the argument, equals is structural equality |
| NewsEntities.EqualsIffFieldsAndMediaEqual | android_challenge/app/src/main/java/news/agoda/com/sample/viewmodel/NewsEntity.java:102-136 | equals is true iff the seven Strings are equal, the lists have one length and are pairwise equal |
| NewsEntities.ScalarDifferenceBreaksEquality | android_challenge/app/src/main/java/news/agoda/com/sample/viewmodel/NewsEntity.java:109-117 | a difference in any one String field makes equals false |
| NewsEntities.MediaCountDifferenceBreaksEquality | android_challenge/app/src/main/java/news/agoda/com/sample/viewmodel/NewsEntity.java:123-124 | media lists of different lengths make equals false |
| NewsEntities.ReorderedMediaBreaksEquality | android_challenge/app/src/main/java/news/agoda/com/sample/viewmodel/NewsEntity.java:126-131 | swapping two different media items makes equals false: order matters |
| NewsEntities.EqualsReflexive | android_challenge/app/src/main/java/news/agoda/com/sample/viewmodel/NewsEntity.java:102-136 | a complete item equals itself |
| NewsEntities.EqualsSymmetric | android_challenge/app/src/main/java/news/agoda/com/sample/viewmodel/NewsEntity.java:102-136 | on complete items equals is symmetric |
| NewsEntities.NullPublishedDateThrows | android_challenge/app/src/main/java/news/agoda/com/sample/viewmodel/NewsEntity.java:109 | a null publishedDate on the receiver throws, whatever the argument |
| Gson.PutString | android_challenge/app/src/main/java/news/agoda/com/sample/viewmodel/NewsEntity.java:12-25 | a null String is omitted; otherwise its key is added with the string; other members are kept |
| Gson.PutStringsKeepsOthers | android_challenge/app/src/main/java/news/agoda/com/sample/viewmodel/NewsEntity.java:12-25 | writing a table of Strings leaves every key the table does not name as it was |
| Gson.PutStringsReadBack | android_challenge/app/src/main/java/news/agoda/com/sample/viewmodel/NewsEntity.java:12-25 | with distinct new keys, every String is written exactly when it is not null and reads back as its value, null included |
| Gson.PutStringsKeysWithin | android_challenge/app/src/main/java/news/agoda/com/sample/viewmodel/NewsEntity.java:12-25 | writing a table of Strings adds no key outside the table |
| Gson.ListFromJson | android_challenge/app/src/main/java/news/agoda/com/sample/model/NetworkResponseProcessor.java:57-59 | a list converts iff every element converts, and then it is the elements converted in order |
| Gson.ListToJson | android_challenge/app/src/main/java/news/agoda/com/sample/viewmodel/NewsEntity.java:27-28 | a list is written as one element per item |
| Gson.ListRoundTrip | android_challenge/app/src/main/java/news/agoda/com/sample/viewmodel/NewsEntity.java:27-28 | writing a list and converting it back gives the list whenever that holds element-wise |
| NewsDataBase.LastWrite | android_challenge/app/src/main/java/news/agoda/com/sample/model/NewsDataBaseController.java:114-145 | the last write's data, when there is one, comes from a write in the queue |
| NewsDataBase.Run | android_challenge/app/src/main/java/news/agoda/com/sample/model/NewsDataBaseController.java:120-203 | one request on the worker touches only the cache file: a write leaves the read slot and flag alone and replaces the content unless the file cannot be opened; a read leaves the files alone, always sets the flag, and fills the slot with the content only when the file opens |
| NewsDataBase.RunAllAppend | android_challenge/app/src/main/java/news/agoda/com/sample/model/NewsDataBaseController.java:22-24 | running q1 then q2 is running q1 + q2: the worker takes requests in arrival order |
| NewsDataBase.WritesReplaceContent | android_challenge/app/src/main/java/news/agoda/com/sample/model/NewsDataBaseController.java:126-136 | a queue of writes changes only the files: the cache file ends with the last write, or keeps its content when it cannot be opened |
| NewsDataBase.ReadSeesLastWrite | android_challenge/app/src/main/java/news/agoda/com/sample/model/NewsDataBaseController.java:152-220 | a read posted after queued writes completes and returns the last write, else the file, else null |
| NewsDataBase.LastWriteOfAppendedWrite | android_challenge/app/src/main/java/news/agoda/com/sample/model/NewsDataBaseController.java:114-145 | the newest write is the last write |
| NewsDataBase.WriteThenReadReturnsWritten | android_challenge/app/src/main/java/news/agoda/com/sample/model/NewsDataBaseController.java:114-220 | when I/O succeeds, a read after a write returns exactly the data written |
| NewsDataBase.ControllerStatics.constructor | android_challenge/app/src/main/java/news/agoda/com/sample/model/NewsDataBaseController.java:40-68 | no instance, no data, and the read-complete flag initially true |
| NewsDataBase.ControllerStatics.GetInstance | android_challenge/app/src/main/java/news/agoda/com/sample/model/NewsDataBaseController.java:87-94 | returns the existing instance unchanged, or a fresh idle one that records the files directory |
| NewsDataBase.NewsDataBaseController.constructor | android_challenge/app/src/main/java/news/agoda/com/sample/model/NewsDataBaseController.java:74-80 | records the files directory and starts a live worker with an empty queue |
| NewsDataBase.NewsDataBaseController.RunNextRequest | android_challenge/app/src/main/java/news/agoda/com/sample/model/NewsDataBaseController.java:120-141 | the worker removes the front request and applies it to the files and the result slot |
| NewsDataBase.NewsDataBaseController.CleanUp | android_challenge/app/src/main/java/news/agoda/com/sample/model/NewsDataBaseController.java:99-108 | a live worker finishes its queue and stops; the singleton slot is cleared; a second call changes no files |
| NewsDataBase.NewsDataBaseController.WriteToDB | android_challenge/app/src/main/java/news/agoda/com/sample/model/NewsDataBaseController.java:114-145 | posts one write when the worker is live, nothing after cleanup; does not block |
| NewsDataBase.NewsDataBaseController.ReadFromDB | android_challenge/app/src/main/java/news/agoda/com/sample/model/NewsDataBaseController.java:152-220 | blocks until the queue, read included, has run; returns Observed of the queued writes and leaves the file as they wrote it |
| NetworkResponse.RepairItem | android_challenge/app/src/main/java/news/agoda/com/sample/model/NetworkResponseProcessor.java:79-82 | a string `multimedia` becomes an empty array, anything else is left alone; other members are kept |
| NetworkResponse.RepairAll | android_challenge/app/src/main/java/news/agoda/com/sample/model/NetworkResponseProcessor.java:77-84 | every element repaired, length and order kept |
| NetworkResponse.FixServerResponse | android_challenge/app/src/main/java/news/agoda/com/sample/model/NetworkResponseProcessor.java:77-84 | succeeds iff every element is an object with `multimedia`; then the array is repaired in place; on a throw the prefix is repaired and the rest untouched |
| NetworkResponse.OkResults | android_challenge/app/src/main/java/news/agoda/com/sample/model/NetworkResponseProcessor.java:47-55 | the results array exactly when the body parses as an object with status "OK" and a `results` array |
| NetworkResponse.ProcessResponse | android_challenge/app/src/main/java/news/agoda/com/sample/model/NetworkResponseProcessor.java:41-69 | succeeds iff the results exist, repair and convert; the cached array is the repaired one, and item i converts from its element i |
| NetworkResponse.ResponseNews | android_challenge/app/src/main/java/news/agoda/com/sample/model/NetworkResponseProcessor.java:41-69 | the list execute returns, null exactly when processing fails |
| NetworkResponse.CacheWrites | android_challenge/app/src/main/java/news/agoda/com/sample/model/NetworkResponseProcessor.java:61-62 | at most one write, present iff processing succeeds, holding the serialized repaired array |
| NetworkResponse.StatusNotOkYieldsNull | android_challenge/app/src/main/java/news/agoda/com/sample/model/NetworkResponseProcessor.java:51-54 | a status other than "OK", or none, gives null and no cache write |
| NetworkResponse.MalformedBodyYieldsNull | android_challenge/app/src/main/java/news/agoda/com/sample/model/NetworkResponseProcessor.java:46-67 | a body that is no JSON object, or has no `results` array, gives null and no cache write |
| NetworkResponse.MissingMultimediaFailsBatch | android_challenge/app/src/main/java/news/agoda/com/sample/model/NetworkResponseProcessor.java:79-80 | one element without `multimedia` loses the whole batch: null, no cache write |
| NetworkResponse.RepairedHasNoStringMultimedia | android_challenge/app/src/main/java/news/agoda/com/sample/model/NetworkResponseProcessor.java:71-84 | after the repair no cached element has a string `multimedia` |
| NetworkResponse.StringMultimediaGivesEmptyMediaList | android_challenge/app/src/main/java/news/agoda/com/sample/model/NetworkResponseProcessor.java:71-84 | an element whose `multimedia` was a string becomes an item with an empty media list |
| NetworkResponse.StringMultimediaDoesNotFailItem | android_challenge/app/src/main/java/news/agoda/com/sample/model/NetworkResponseProcessor.java:71-84 | an element with a string `multimedia` cannot convert unrepaired; repaired it converts iff the element without that member does, with an empty media list |
| NetworkResponse.RepairIdempotent | android_challenge/app/src/main/java/news/agoda/com/sample/model/NetworkResponseProcessor.java:77-84 | repairing twice is repairing once |
| NetworkResponse.NetworkResponseProcessor.constructor | android_challenge/app/src/main/java/news/agoda/com/sample/model/NetworkResponseProcessor.java:26-28 | keeps the controller |
| NetworkResponse.NetworkResponseProcessor.SetNext | android_challenge/app/src/main/java/news/agoda/com/sample/model/NetworkResponseProcessor.java:30-33 | changes nothing |
| NetworkResponse.NetworkResponseProcessor.RepairResults | android_challenge/app/src/main/java/news/agoda/com/sample/model/NetworkResponseProcessor.java:55-56 | the repair of the results array succeeds iff every element is repairable, and then gives RepairAll |
| NetworkResponse.NetworkResponseProcessor.Execute | android_challenge/app/src/main/java/news/agoda/com/sample/model/NetworkResponseProcessor.java:41-69 | returns ResponseNews; posts CacheWrites to a live controller and nothing to a stopped one |
| NetworkRequest.SplitLine | android_challenge/app/src/main/java/news/agoda/com/sample/model/NetworkRequestProcessor.java:78 | readLine consumes input and returns a line with no terminator in it |
| NetworkRequest.StripTerminators | android_challenge/app/src/main/java/news/agoda/com/sample/model/NetworkRequestProcessor.java:72-85 | the result holds no line terminator |
| NetworkRequest.ConcatAppend | android_challenge/app/src/main/java/news/agoda/com/sample/model/NetworkRequestProcessor.java:78-80 | appending one more line to the builder adds it at the end |
| NetworkRequest.ConcatSplit | android_challenge/app/src/main/java/news/agoda/com/sample/model/NetworkRequestProcessor.java:78-80 | joining lines distributes over splitting the list |
| NetworkRequest.SplitLineDropsTerminator | android_challenge/app/src/main/java/news/agoda/com/sample/model/NetworkRequestProcessor.java:78-79 | one line plus the stripped rest is the stripped text |
| NetworkRequest.LinesJoinToStrippedText | android_challenge/app/src/main/java/news/agoda/com/sample/model/NetworkRequestProcessor.java:72-85 | joining every line read gives the body with its line terminators removed |
| NetworkRequest.LinesRead | android_challenge/app/src/main/java/news/agoda/com/sample/model/NetworkRequestProcessor.java:77-83 | the lines read before a throw are a prefix of all the lines |
| NetworkRequest.StreamText | android_challenge/app/src/main/java/news/agoda/com/sample/model/NetworkRequestProcessor.java:72-85 | with no I/O error it is the stripped body; after an error it is a prefix of it |
| NetworkRequest.ReadStream | android_challenge/app/src/main/java/news/agoda/com/sample/model/NetworkRequestProcessor.java:72-85 | the read loop returns StreamText of the stream |
| NetworkRequest.FetchResult | android_challenge/app/src/main/java/news/agoda/com/sample/model/NetworkRequestProcessor.java:55-70 | null iff the URL is malformed or the connection fails; otherwise what readStream returns |
| NetworkRequest.PipelineNews | android_challenge/app/src/main/java/news/agoda/com/sample/model/NetworkRequestProcessor.java:48-53 | null when fetching fails; otherwise the response stage's result on the body |
| NetworkRequest.PipelineWrites | android_challenge/app/src/main/java/news/agoda/com/sample/model/NetworkRequestProcessor.java:48-53 | no writes when fetching fails; otherwise the response stage's writes |
| NetworkRequest.PipelineWritesOnlyOnSuccess | android_challenge/app/src/main/java/news/agoda/com/sample/model/NetworkRequestProcessor.java:48-53 | one URL's pipeline writes the cache at most once, and exactly when it returns a list |
| NetworkRequest.NetworkRequestProcessor.constructor | android_challenge/app/src/main/java/news/agoda/com/sample/model/NetworkRequestProcessor.java:31-33 | ignores the controller and has no next stage |
| NetworkRequest.NetworkRequestProcessor.SetNext | android_challenge/app/src/main/java/news/agoda/com/sample/model/NetworkRequestProcessor.java:35-38 | records the next stage |
| NetworkRequest.NetworkRequestProcessor.FetchFromURL | android_challenge/app/src/main/java/news/agoda/com/sample/model/NetworkRequestProcessor.java:55-70 | requests the URL once and returns FetchResult of what it yields |
| NetworkRequest.NetworkRequestProcessor.Execute | android_challenge/app/src/main/java/news/agoda/com/sample/model/NetworkRequestProcessor.java:46-53 | requests the URL once, returns PipelineNews and posts PipelineWrites to a live controller |
| DataSources.CacheFetchAsWritten | android_challenge/app/src/main/java/news/agoda/com/sample/model/CacheDataSource.java:49-66 | a failed read gives null (the rest is the Findings row) |
| DataSources.CacheFetch | android_challenge/app/src/main/java/news/agoda/com/sample/model/CacheDataSource.java:38-67 | null on a failed read or text that is no array; a list iff every element converts, and then those items |
| DataSources.GsonFailureEscapesAsWritten | android_challenge/app/src/main/java/news/agoda/com/sample/model/CacheDataSource.java:57-63 | stored text that parses as `[1]` makes Gson's exception escape the code as written |
| DataSources.CacheFetchAgreesWhenNothingEscapes | android_challenge/app/src/main/java/news/agoda/com/sample/model/CacheDataSource.java:49-66 | wherever nothing escapes, the corrected conversion returns what the code returns |
| DataSources.ServerResultReadsBackFromCache | android_challenge/app/src/main/java/news/agoda/com/sample/model/CacheDataSource.java:51-60 | what a successful server response caches reads back through the cache source as the same list |
| DataSources.ServerFetchThenCacheFetch | android_challenge/app/src/main/java/news/agoda/com/sample/model/ServerDataSource.java:57-69 | a successful server fetch makes the next cache read return the same list, after any earlier writes |
| DataSources.CacheDataSource.constructor | android_challenge/app/src/main/java/news/agoda/com/sample/model/CacheDataSource.java:34-36 | keeps the controller |
| DataSources.CacheDataSource.FetchNewsList | android_challenge/app/src/main/java/news/agoda/com/sample/model/CacheDataSource.java:38-67 | returns the corrected conversion CacheFetch (see Findings) of what the blocking read observes, leaving the queue run and the file written |
| DataSources.CacheDataSource.Close | android_challenge/app/src/main/java/news/agoda/com/sample/model/CacheDataSource.java:72-76 | shuts the shared controller down, its queue finished |
| DataSources.CacheDataSource.GetType | android_challenge/app/src/main/java/news/agoda/com/sample/model/CacheDataSource.java:82-85 | CACHE |
| DataSources.ServerDataSource.constructor | android_challenge/app/src/main/java/news/agoda/com/sample/model/ServerDataSource.java:28-30 | keeps the controller |
| DataSources.ServerDataSource.FetchNewsListInternal | android_challenge/app/src/main/java/news/agoda/com/sample/model/ServerDataSource.java:63-72 | one request of the URL through a fresh request/response chain: PipelineNews and PipelineWrites |
| DataSources.ServerDataSource.FetchNewsList | android_challenge/app/src/main/java/news/agoda/com/sample/model/ServerDataSource.java:32-49 | the first URL's list if it has one, and then the backup is never requested; null iff both fail |
| DataSources.ServerDataSource.Close | android_challenge/app/src/main/java/news/agoda/com/sample/model/ServerDataSource.java:77-80 | shuts the shared controller down, its queue finished |
| DataSources.ServerDataSource.GetType | android_challenge/app/src/main/java/news/agoda/com/sample/model/ServerDataSource.java:86-89 | SERVER |
| DataSources.DataSource.GetType | android_challenge/app/src/main/java/news/agoda/com/sample/model/DataSource.java:29 | SERVER exactly for a server source |
| DataSources.FetchFrom | android_challenge/app/src/main/java/news/agoda/com/sample/model/DataSource.java:18 | the fetch of whichever kind the source is, with that kind's requests, writes and reads |
| DataSources.CloseSource | android_challenge/app/src/main/java/news/agoda/com/sample/model/DataSource.java:23 | the close of either kind: the shared controller finishes its queue and stops |
| DataSources.GetDataSource | android_challenge/app/src/main/java/news/agoda/com/sample/model/DataSourceFactory.java:25-48 | a source of the requested type around the singleton controller, obtained first |
| ViewModel.SelectSource | android_challenge/app/src/main/java/news/agoda/com/sample/viewmodel/NewsViewModel.java:123-151 | the cache after a recreation; otherwise the server iff connected |
| ViewModel.ErrorFor | android_challenge/app/src/main/java/news/agoda/com/sample/viewmodel/NewsViewModel.java:217-223 | the server message exactly for a server source |
| ViewModel.FetchNewsTask.constructor | android_challenge/app/src/main/java/news/agoda/com/sample/viewmodel/FetchNewsTask.java:38-40 | keeps the source; no listener yet |
| ViewModel.FetchNewsTask.RegisterFetchCompleteListener | android_challenge/app/src/main/java/news/agoda/com/sample/viewmodel/FetchNewsTask.java:46-49 | the listener is the one given, replacing any earlier one |
| ViewModel.FetchNewsTask.UnregisterFetchCompleteListener | android_challenge/app/src/main/java/news/agoda/com/sample/viewmodel/FetchNewsTask.java:54-57 | no listener |
| ViewModel.FetchNewsTask.DoInBackground | android_challenge/app/src/main/java/news/agoda/com/sample/viewmodel/FetchNewsTask.java:59-64 | the source's fetch, with its effects on the network log, the queue and the files |
| ViewModel.FetchNewsTask.OnPreExecute | android_challenge/app/src/main/java/news/agoda/com/sample/viewmodel/FetchNewsTask.java:66-73 | a registered listener shows progress |
| ViewModel.FetchNewsTask.Execute | android_challenge/app/src/main/java/news/agoda/com/sample/viewmodel/NewsViewModel.java:180 | starting the task runs its pre-execute step at once |
| ViewModel.FetchNewsTask.OnPostExecute | android_challenge/app/src/main/java/news/agoda/com/sample/viewmodel/FetchNewsTask.java:75-89 | null reaches the listener as onError and a list as onFetchSuccess; without a listener nothing happens |
| ViewModel.NewsViewModel.constructor | android_challenge/app/src/main/java/news/agoda/com/sample/viewmodel/NewsViewModel.java:39-81 | nothing published, no source, no task, no fetch active |
| ViewModel.NewsViewModel.FetchNewsList | android_challenge/app/src/main/java/news/agoda/com/sample/viewmodel/NewsViewModel.java:123-151 | ignored while a fetch is active; otherwise starts one from SelectSource's source, checking connectivity only on a fresh start |
| ViewModel.NewsViewModel.IsInternetAccessAvailable | android_challenge/app/src/main/java/news/agoda/com/sample/viewmodel/NewsViewModel.java:157-161 | reports the connectivity and publishes its negation as the offline flag |
| ViewModel.NewsViewModel.FetchNewsListInternal | android_challenge/app/src/main/java/news/agoda/com/sample/viewmodel/NewsViewModel.java:167-181 | a source of the given type, and a fresh task on it listening to this view model, progress shown |
| ViewModel.NewsViewModel.ShowProgress | android_challenge/app/src/main/java/news/agoda/com/sample/viewmodel/NewsViewModel.java:186-189 | progress shown |
| ViewModel.NewsViewModel.OnFetchSuccess | android_challenge/app/src/main/java/news/agoda/com/sample/viewmodel/NewsViewModel.java:195-205 | progress hidden, fetch over, exactly the list published, task unregistered |
| ViewModel.NewsViewModel.OnError | android_challenge/app/src/main/java/news/agoda/com/sample/viewmodel/NewsViewModel.java:210-229 | progress hidden, the source kind's error message, fetch over, empty list, task unregistered |
| ViewModel.NewsViewModel.CleanUpNewsDB | android_challenge/app/src/main/java/news/agoda/com/sample/viewmodel/NewsViewModel.java:109-116 | the current source's controller finishes its queue and stops; the current task has no listener |
| ViewModel.NewsViewModel.IsFetchInProgress | android_challenge/app/src/main/java/news/agoda/com/sample/viewmodel/NewsViewModel.java:235-237 | true iff a fetch is active |
| Scenarios.StartFetch | android_challenge/app/src/main/java/news/agoda/com/sample/viewmodel/NewsViewModel.java:123-181 | a first fetch on a fresh process is active, with a fresh idle controller and a task listening |
| Scenarios.OfflineWithoutCacheFails | android_challenge/app/src/main/java/news/agoda/com/sample/viewmodel/NewsViewModel.java:210-229 | offline with nothing cached: the cache's error message, an empty list, progress hidden |
| Scenarios.RecreatedActivityReadsCache | android_challenge/app/src/main/java/news/agoda/com/sample/viewmodel/NewsViewModel.java:143-149 | after a recreation the cached list is published and no URL is requested |
| Scenarios.OnlineFirstUrlFetched | android_challenge/app/src/main/java/news/agoda/com/sample/model/ServerDataSource.java:32-49 | online with a valid first answer: its list is returned, the backup is not requested, one write waits |
| Scenarios.OnlineFirstUrlAnswers | android_challenge/app/src/main/java/news/agoda/com/sample/viewmodel/FetchNewsTask.java:75-89 | that list is published and the fetch ends |
| Scenarios.OnlineFirstUrlSucceeds | android_challenge/app/src/main/java/news/agoda/com/sample/viewmodel/NewsViewModel.java:109-116 | after cleanup the cache file holds exactly the serialized repaired results |
| Scenarios.SingleWriteReplacesFile | android_challenge/app/src/main/java/news/agoda/com/sample/model/NewsDataBaseController.java:126-136 | one write replaces the cache file's content |
| Scenarios.FirstUrlAnswers | android_challenge/app/src/main/java/news/agoda/com/sample/model/NetworkRequestProcessor.java:48-53 | a first URL answering with a valid body gives its list and one write of its repaired results |

## Left out

- Real HTTP, file I/O and threads. What a URL yields, the files on the device and the paths that
  cannot be opened are inputs. The worker thread runs when the caller lets it: a writer does not wait, a
  reader runs the worker until its read completes.
- Floating-point JSON numbers. Numbers are unbounded integers, so `RoundTrips` also asks the JSON
  text library to read back integers beyond 64 bits, which org.json reads as doubles. The lemmas that
  assume `RoundTrips` (ServerResultReadsBackFromCache, ServerFetchThenCacheFetch) therefore do not cover
  responses holding such numbers.
- NewsDataBase.Run: a write whose I/O fails after the file is opened is not modelled. `FileWriter`
  truncates the file on opening, so such a failure leaves an empty or partial file that a later read
  returns. The model has only failures at opening, which keep the old content.
- NewsDataBase.WritesReplaceContent: whether a path fails is fixed for the whole run and is the same
  for reads and writes. A path that fails for one request and works for the next is not modelled.
- Gson's lenient coercions, for example a number read into a String field. The model treats
  them as a failed conversion. A JSON null element in an array is also a failed conversion.
- Gson's re-parse of `results.toString()`: the model converts the JSON value directly.
- Logging (`Log.d`, `Log.e`) and the delivery of LiveData values to observers. A LiveData value is
  the last value set.
- `getListOfNews`, `getProgressBarStatus`, `getOfflineStatus` and the entity getters are field
  selections.
- The default branch of `DataSourceFactory.getDataSource`. It cannot be reached with the two-value enum.
- The `DataSource`, `NetworkProcessor` and `FetchListener` interfaces. `DataSource` is a datatype over
  the two sources, with dispatching methods. The request stage's next stage has type
  `NetworkResponseProcessor?`. The task's listener has type `NewsViewModel?`, the one implementer.
- The AsyncTask scheduling. The task's execute runs the pre-execute step only. The caller takes the
  background step and then the post-execute step.
- NewsViewModel.FetchNewsList: the connectivity check is the `connected` parameter. The platform
  query in Util.isInternetAccessAvailable is not part of this model.
- NewsDataBase.NewsDataBaseController.ReadFromDB: requires a live controller. On a stopped controller
  the source posts nothing and waits for ever.
- NetworkRequest.NetworkRequestProcessor.Execute: requires a next stage. Without one the source
  throws a NullPointerException when the fetch succeeds.
- NetworkRequest.LinesRead: an I/O error inside readLine loses that whole line. Bytes a real
  reader may already have buffered are not modelled.
- The read of the cache file by its length into a byte array. The model reads the whole content
  and does not model a short read.
- NewsDataBase.NewsDataBaseController.CleanUp: calling cleanUp on a stale controller also clears
  a newer singleton. The model does this too, but no property is stated about it.

## Findings

| source | as written | input that shows it | evidently intended | confidence | as-written member | corrected member |
|---|---|---|---|---|---|---|
| android_challenge/app/src/main/java/news/agoda/com/sample/model/CacheDataSource.java:58-64 | only `JSONException` is caught, so Gson's `JsonSyntaxException` on a stored array whose elements are no news objects escapes `fetchNewsList` and the background task | stored text `[1]` | every failure to read the cache is reported as null, as the method's documentation and its caller's onError path expect | not executed | DataSources.GsonFailureEscapesAsWritten | DataSources.CacheFetch |
