/** Decoded JSON values as the client handles them: payloads it builds for
    the agent and responses it reads back. Python dictionaries become maps
    from string keys; key order is not modelled. */
module Json {
  import opened Wrappers

  datatype Json =
    | JNull
    | JBool(b: bool)
    | JInt(n: int)
    | JString(str: string)
    | JArray(items: seq<Json>)
    | JObject(fields: map<string, Json>)

  /** `value[key]` on a decoded value: a KeyError for a dictionary without
      the key, a TypeError for anything that is not a dictionary. */
  function Lookup(j: Json, key: string): (r: Result<Json, PyError>)
    ensures r.Success? <==> j.JObject? && key in j.fields
    ensures r.Success? ==> r.value == j.fields[key]
    ensures r.Failure? ==> (r.error == KeyError <==> j.JObject?)
    ensures r.Failure? ==> r.error in {KeyError, TypeError}
  {
    match j
    case JObject(fields) => if key in fields then Success(fields[key]) else Failure(KeyError)
    case _ => Failure(TypeError)
  }

  /** `value[i]` for a non-negative index: an IndexError past the end of a
      list or string, a TypeError on anything that cannot be indexed by an
      integer (a dictionary here has string keys only, so it raises a KeyError). */
  function Index(j: Json, i: nat): (r: Result<Json, PyError>)
    ensures j.JArray? ==> (r.Success? <==> i < |j.items|)
    ensures j.JArray? && r.Success? ==> r.value == j.items[i]
    ensures r.Success? ==> j.JArray? || j.JString?
    ensures r.Failure? ==> r.error == (if j.JArray? || j.JString? then IndexError else if j.JObject? then KeyError else TypeError)
  {
    match j
    case JArray(items) => if i < |items| then Success(items[i]) else Failure(IndexError)
    case JString(s) => if i < |s| then Success(JString([s[i]])) else Failure(IndexError)
    case JObject(_) => Failure(KeyError)
    case _ => Failure(TypeError)
  }

  /** The keys of a dictionary value, empty for anything else. */
  function Keys(j: Json): set<string>
  {
    if j.JObject? then j.fields.Keys else {}
  }
}
