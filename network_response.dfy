/**
 * The second stage of the network pipeline: checks the server's status, repairs the buggy
 * `multimedia` members in place, converts the results into news items and posts the repaired
 * array to the cache.
 */
module NetworkResponse {
  import opened Wrappers
  import opened JsonValues
  import opened Gson
  import opened NewsEntities
  import opened NewsDataBase

  const StatusKey := "status"
  const StatusOk := "OK"
  const ResultsKey := "results"

  /** An element the repair can look at: an object (getJSONObject) with a multimedia member (get). */
  predicate Repairable(j: Json) {
    j.JObject? && MultimediaKey in j.members
  }

  predicate AllRepairable(es: seq<Json>) {
    forall i :: 0 <= i < |es| ==> Repairable(es[i])
  }

  /**
   * The repair of one element. The server sends an empty media list as an empty string; that string
   * becomes an empty array. Nothing else is touched.
   */
  function RepairItem(j: Json): (r: Json)
    requires Repairable(j)
    ensures Repairable(r) && r.members.Keys == j.members.Keys
    ensures !r.members[MultimediaKey].JString?
    ensures j.members[MultimediaKey].JString? ==> r.members[MultimediaKey] == JArray([])
    ensures !j.members[MultimediaKey].JString? ==> r == j
    ensures forall k :: k in j.members && k != MultimediaKey ==> r.members[k] == j.members[k]
  {
    if j.members[MultimediaKey].JString? then JObject(j.members[MultimediaKey := JArray([])]) else j
  }

  /** Every element repaired, in place and in order. */
  function RepairAll(es: seq<Json>): (r: seq<Json>)
    requires AllRepairable(es)
    ensures |r| == |es| && forall i :: 0 <= i < |es| ==> r[i] == RepairItem(es[i])
  {
    if es == [] then []
    else
      assert forall i :: 1 <= i < |es| ==> es[1..][i - 1] == es[i];
      [RepairItem(es[0])] + RepairAll(es[1..])
  }

  /**
   * fixServerResponse: the repair loop over the results array. It stops with a JSONException
   * (false here) at the first element that is not an object or has no multimedia member; the
   * elements before it are then already repaired and the rest are untouched.
   */
  method FixServerResponse(a: array<Json>) returns (ok: bool)
    modifies a
    ensures ok <==> AllRepairable(old(a[..]))
    ensures ok ==> a[..] == RepairAll(old(a[..]))
    ensures !ok ==> exists k :: 0 <= k < a.Length && !Repairable(old(a[k]))
                      && AllRepairable(old(a[..k])) && a[..k] == RepairAll(old(a[..k]))
                      && a[k..] == old(a[k..])
  {
    var i := 0;
    while i < a.Length
      invariant 0 <= i <= a.Length
      invariant AllRepairable(old(a[..i]))
      invariant a[..i] == RepairAll(old(a[..i]))
      invariant a[i..] == old(a[i..])
    {
      if !Repairable(a[i]) {
        assert a[i] == old(a[i..])[0] == old(a[i]);
        return false;
      }
      assert a[i] == old(a[i]);
      a[i] := RepairItem(a[i]);
      assert old(a[..i + 1]) == old(a[..i]) + [old(a[i])];
      i := i + 1;
    }
    assert a[..] == a[..i] && old(a[..]) == old(a[..i]);
    return true;
  }

  /**
   * The results array of a response that passes the first checks: the body parses as an object,
   * its status is "OK" and its results member is an array. getString coerces a non-string status
   * to its text, which is never "OK", so only the string "OK" passes.
   */
  function OkResults(codec: JsonCodec, body: string): (r: Option<seq<Json>>)
    ensures r.Some? <==> (codec.parse(body).Some? && codec.parse(body).value.JObject?
                          && var m := codec.parse(body).value.members;
                          StatusKey in m && m[StatusKey] == JString(StatusOk)
                          && ResultsKey in m && m[ResultsKey].JArray?)
    ensures r.Some? ==> JArray(r.value) == codec.parse(body).value.members[ResultsKey]
  {
    match codec.parse(body)
    case Some(JObject(m)) =>
      if StatusKey in m && m[StatusKey] == JString(StatusOk) && ResultsKey in m && m[ResultsKey].JArray?
      then Some(m[ResultsKey].elems) else None
    case _ => None
  }

  /** A successful response: the news items and the repaired array that is cached. */
  datatype Response = Response(news: seq<NewsEntity>, cached: seq<Json>)

  /** execute as a function of the body: None wherever the source returns null. */
  function ProcessResponse(codec: JsonCodec, body: string): (r: Option<Response>)
    ensures r.Some? <==> (OkResults(codec, body).Some? && AllRepairable(OkResults(codec, body).value)
                          && NewsListFromJson(RepairAll(OkResults(codec, body).value)).Ok?)
    ensures r.Some? ==> r.value.cached == RepairAll(OkResults(codec, body).value)
    ensures r.Some? ==> (|r.value.news| == |r.value.cached|
                         && forall i :: 0 <= i < |r.value.news| ==> NewsFromJson(r.value.cached[i]) == Ok(r.value.news[i]))
  {
    var results := OkResults(codec, body);
    if results.None? || !AllRepairable(results.value) then None
    else
      var repaired := RepairAll(results.value);
      match NewsListFromJson(repaired)
      case Ok(news) => Some(Response(news, repaired))
      case Failed => None
  }

  /** The news list execute returns. */
  function ResponseNews(codec: JsonCodec, body: string): (r: Option<seq<NewsEntity>>)
    ensures r.Some? <==> ProcessResponse(codec, body).Some?
    ensures r.Some? ==> r.value == ProcessResponse(codec, body).value.news
  {
    match ProcessResponse(codec, body)
    case Some(resp) => Some(resp.news)
    case None => None
  }

  /** The cache writes execute posts: one, holding the repaired array, and only on success. */
  function CacheWrites(codec: JsonCodec, body: string): (r: seq<Request>)
    ensures |r| <= 1 && (r != [] <==> ProcessResponse(codec, body).Some?)
    ensures r != [] ==> r[0] == WriteRequest(codec.serialize(JArray(ProcessResponse(codec, body).value.cached)))
  {
    match ProcessResponse(codec, body)
    case Some(resp) => [WriteRequest(codec.serialize(JArray(resp.cached)))]
    case None => []
  }

  /** A status other than "OK", or none at all, yields null and no cache write. */
  lemma StatusNotOkYieldsNull(codec: JsonCodec, body: string, m: map<string, Json>)
    requires codec.parse(body) == Some(JObject(m))
    requires StatusKey !in m || m[StatusKey] != JString(StatusOk)
    ensures ResponseNews(codec, body) == None && CacheWrites(codec, body) == []
  {
  }

  /** A body that does not parse as an object, or whose results member is not an array, yields null. */
  lemma MalformedBodyYieldsNull(codec: JsonCodec, body: string)
    requires codec.parse(body).None? || !codec.parse(body).value.JObject?
          || ResultsKey !in codec.parse(body).value.members
          || !codec.parse(body).value.members[ResultsKey].JArray?
    ensures ResponseNews(codec, body) == None && CacheWrites(codec, body) == []
  {
  }

  /** One element without a multimedia member makes the repair throw, so the whole batch is lost. */
  lemma MissingMultimediaFailsBatch(codec: JsonCodec, body: string, i: nat)
    requires OkResults(codec, body).Some? && i < |OkResults(codec, body).value|
    requires var e := OkResults(codec, body).value[i]; !e.JObject? || MultimediaKey !in e.members
    ensures ResponseNews(codec, body) == None && CacheWrites(codec, body) == []
  {
  }

  /** After the repair no element has a string multimedia member. */
  lemma RepairedHasNoStringMultimedia(codec: JsonCodec, body: string)
    requires ProcessResponse(codec, body).Some?
    ensures var cached := ProcessResponse(codec, body).value.cached;
            forall i :: 0 <= i < |cached| ==>
              cached[i].JObject? && MultimediaKey in cached[i].members && !cached[i].members[MultimediaKey].JString?
  {
    var cached := ProcessResponse(codec, body).value.cached;
    forall i | 0 <= i < |cached|
      ensures cached[i].JObject? && MultimediaKey in cached[i].members && !cached[i].members[MultimediaKey].JString?
    {
      assert cached[i] == RepairItem(OkResults(codec, body).value[i]);
    }
  }

  /** An element whose multimedia the server sent as a string becomes an item with an empty media list. */
  lemma StringMultimediaGivesEmptyMediaList(codec: JsonCodec, body: string, i: nat)
    requires ProcessResponse(codec, body).Some?
    requires i < |OkResults(codec, body).value|
    requires var e := OkResults(codec, body).value[i];
             e.JObject? && MultimediaKey in e.members && e.members[MultimediaKey].JString?
    ensures ProcessResponse(codec, body).value.news[i].mediaEntityList == Some([])
  {
    var resp := ProcessResponse(codec, body).value;
    var e := OkResults(codec, body).value[i];
    assert resp.cached[i] == RepairItem(e);
    assert resp.cached[i].members[MultimediaKey] == JArray([]);
    assert NewsFromJson(resp.cached[i]) == Ok(resp.news[i]);
  }

  /**
   * A string multimedia member does not fail its item: unrepaired the item cannot convert, repaired
   * it converts exactly when the item without that member would, and then its media list is empty.
   */
  lemma StringMultimediaDoesNotFailItem(e: Json)
    requires Repairable(e) && e.members[MultimediaKey].JString?
    ensures NewsFromJson(e).Failed?
    ensures NewsFromJson(RepairItem(e)) == NewsFromJson(JObject(e.members[MultimediaKey := JArray([])]))
    ensures NewsFromJson(RepairItem(e)).Ok? <==> NewsFromJson(JObject(e.members - {MultimediaKey})).Ok?
    ensures NewsFromJson(RepairItem(e)).Ok? ==> NewsFromJson(RepairItem(e)).value.mediaEntityList == Some([])
  {
    var m := e.members;
    var repaired := m[MultimediaKey := JArray([])];
    var dropped := m - {MultimediaKey};
    assert MediaListMember(repaired) == Ok(Some([]));
    assert MediaListMember(dropped) == Ok(None);
  }

  /** Repairing twice is repairing once. */
  lemma RepairIdempotent(es: seq<Json>)
    requires AllRepairable(es)
    ensures AllRepairable(RepairAll(es)) && RepairAll(RepairAll(es)) == RepairAll(es)
  {
  }

  /** The second pipeline stage. */
  class NetworkResponseProcessor {
    /** The cache controller the repaired results are written to. */
    const db: NewsDataBaseController
    /** The JSON text library. */
    const codec: JsonCodec

    constructor (db: NewsDataBaseController, codec: JsonCodec)
      ensures this.db == db && this.codec == codec
    {
      this.db := db;
      this.codec := codec;
    }

    /** setNext is a stub: this is the last stage. */
    method SetNext(next: object?)
      ensures unchanged(this)
    {
    }

    /** The results array copied into a Java array and repaired in place by fixServerResponse. */
    static method RepairResults(elems: seq<Json>) returns (ok: bool, repaired: seq<Json>)
      ensures ok <==> AllRepairable(elems)
      ensures ok ==> repaired == RepairAll(elems)
    {
      var results := new Json[|elems|](i requires 0 <= i < |elems| => elems[i]);
      assert results[..] == elems;
      ok := FixServerResponse(results);
      repaired := results[..];
    }

    /**
     * execute: the news items of the body, or None where the source returns null; exactly one cache
     * write holding the repaired results array is posted on success, none otherwise.
     */
    method Execute(body: string) returns (r: Option<seq<NewsEntity>>)
      modifies db`queue
      ensures r == ResponseNews(codec, body)
      ensures db.queue == old(db.queue) + if db.live then CacheWrites(codec, body) else []
      ensures old(db.Valid()) ==> db.Valid()
      ensures old(db.statics.Valid()) ==> db.statics.Valid()
    {
      var parsed := codec.parse(body);
      if !(parsed.Some? && parsed.value.JObject?) {
        return None;
      }
      var m := parsed.value.members;
      if !(StatusKey in m && m[StatusKey] == JString(StatusOk)) {
        return None;
      }
      if !(ResultsKey in m && m[ResultsKey].JArray?) {
        return None;
      }
      var elems := m[ResultsKey].elems;
      assert OkResults(codec, body) == Some(elems);
      var ok, repaired := RepairResults(elems);
      if !ok {
        return None;
      }
      var converted := NewsListFromJson(repaired);
      if converted.Failed? {
        return None;
      }
      assert ProcessResponse(codec, body) == Some(Response(converted.value, repaired));
      db.WriteToDB(codec.serialize(JArray(repaired)));
      r := Some(converted.value);
    }
  }
}
