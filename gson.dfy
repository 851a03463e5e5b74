/**
 * Gson's reflective mapping between JSON objects and entity fields, reduced to what the entities use:
 * a field is read from the member named by its @SerializedName key, an absent member or a JSON null
 * leaves the field at its default (null for a String, 0 for an int), a member of the wrong type makes
 * the conversion throw. Writing omits null fields, as Gson does by default.
 */
module Gson {
  import opened Wrappers
  import opened JavaTypes
  import opened JsonValues

  function StringMember(m: map<string, Json>, key: string): Result<JavaString> {
    if key !in m || m[key].JNull? then Ok(None)
    else if m[key].JString? then Ok(Some(m[key].s))
    else Failed
  }

  function IntMember(m: map<string, Json>, key: string): Result<Int32> {
    if key !in m || m[key].JNull? then Ok(0)
    else if m[key].JNumber? && IsInt32(m[key].n) then Ok(m[key].n)
    else Failed
  }

  function PutString(m: map<string, Json>, key: string, v: JavaString): (r: map<string, Json>)
    ensures r.Keys == if v.Some? then m.Keys + {key} else m.Keys
    ensures v.Some? ==> r[key] == JString(v.value)
    ensures forall k :: k in m && k != key ==> r[k] == m[k]
  {
    if v.Some? then m[key := JString(v.value)] else m
  }

  /** String members written in table order, each only when its value is not null. */
  function PutStrings(m: map<string, Json>, fields: seq<(string, JavaString)>): (r: map<string, Json>)
    decreases |fields|
  {
    if fields == [] then m else PutStrings(PutString(m, fields[0].0, fields[0].1), fields[1..])
  }

  /** What Gson's default writer leaves for a String field: the member exactly when the value is not null. */
  predicate StringWritten(m: map<string, Json>, key: string, v: JavaString) {
    && (key in m <==> v.Some?)
    && (v.Some? ==> m[key] == JString(v.value))
  }

  predicate DistinctKeys(fields: seq<(string, JavaString)>) {
    forall i, j :: 0 <= i < j < |fields| ==> fields[i].0 != fields[j].0
  }

  /** A key the table does not name keeps its member, or its absence. */
  lemma {:induction false} PutStringsKeepsOthers(m: map<string, Json>, fields: seq<(string, JavaString)>, k: string)
    requires forall i :: 0 <= i < |fields| ==> fields[i].0 != k
    ensures (k in PutStrings(m, fields)) == (k in m)
    ensures k in m ==> PutStrings(m, fields)[k] == m[k]
    decreases |fields|
  {
    if fields != [] {
      PutStringsKeepsOthers(PutString(m, fields[0].0, fields[0].1), fields[1..], k);
    }
  }

  /** Every String written from a table of distinct new keys reads back as the value written. */
  lemma {:induction false} PutStringsReadBack(m: map<string, Json>, fields: seq<(string, JavaString)>, i: nat)
    requires DistinctKeys(fields) && i < |fields|
    requires forall j :: 0 <= j < |fields| ==> fields[j].0 !in m
    ensures StringWritten(PutStrings(m, fields), fields[i].0, fields[i].1)
    ensures StringMember(PutStrings(m, fields), fields[i].0) == Ok(fields[i].1)
    decreases |fields|
  {
    var m' := PutString(m, fields[0].0, fields[0].1);
    var rest := fields[1..];
    if i == 0 {
      PutStringsKeepsOthers(m', rest, fields[0].0);
    } else {
      assert forall j :: 0 <= j < |rest| ==> rest[j] == fields[j + 1];
      PutStringsReadBack(m', rest, i - 1);
    }
  }

  /** Writing the table adds no key outside the table's keys. */
  lemma {:induction false} PutStringsKeysWithin(m: map<string, Json>, fields: seq<(string, JavaString)>, keys: set<string>)
    requires m.Keys <= keys
    requires forall i :: 0 <= i < |fields| ==> fields[i].0 in keys
    ensures PutStrings(m, fields).Keys <= keys
    decreases |fields|
  {
    if fields != [] {
      PutStringsKeysWithin(PutString(m, fields[0].0, fields[0].1), fields[1..], keys);
    }
  }

  /** A JSON array converted element by element; the first element that does not convert fails the whole list. */
  function ListFromJson<T>(es: seq<Json>, convert: Json -> Result<T>): (r: Result<seq<T>>)
    ensures r.Ok? <==> forall i :: 0 <= i < |es| ==> convert(es[i]).Ok?
    ensures r.Ok? ==> |r.value| == |es| && forall i :: 0 <= i < |es| ==> convert(es[i]) == Ok(r.value[i])
  {
    if es == [] then Ok([])
    else
      var head :- convert(es[0]);
      var tail :- ListFromJson(es[1..], convert);
      assert forall i :: 1 <= i < |es| ==> es[i] == es[1..][i - 1];
      Ok([head] + tail)
  }

  /** A list written element by element, in order. */
  function ListToJson<T>(xs: seq<T>, write: T -> Json): (es: seq<Json>)
    ensures |es| == |xs|
  {
    seq(|xs|, i requires 0 <= i < |xs| => write(xs[i]))
  }

  /** Writing a list and reading it back gives the list, whenever that holds of each element. */
  lemma ListRoundTrip<T>(xs: seq<T>, write: T -> Json, read: Json -> Result<T>)
    requires forall i :: 0 <= i < |xs| ==> read(write(xs[i])) == Ok(xs[i])
    ensures ListFromJson(ListToJson(xs, write), read) == Ok(xs)
  {
    var r := ListFromJson(ListToJson(xs, write), read);
    assert r.Ok?;
    assert r.value == xs;
  }
}
