/**
  A JSON value as `JSONSerialization` and the `JSONEncoder` containers see it:
  an encoder's keyed container is a `JsonObject`, a map from key to value.
  `JDate` stands for an encoded `Date` (whole seconds); the concrete encodings
  (ISO-8601 text, seconds since the reference date) are not modelled.
*/
module Json {
  import opened Wrappers

  datatype JsonValue =
    | JNull
    | JBool(b: bool)
    | JInt(i: int)
    | JString(s: string)
    | JDate(seconds: int)
    | JArray(items: seq<JsonValue>)
    | JObject(fields: map<string, JsonValue>)

  type JsonObject = map<string, JsonValue>

  /** `decode(Int.self, forKey:)`: present only for an integer under that key. */
  function GetInt(o: JsonObject, key: string): (r: Option<int>)
    ensures r.Some? <==> key in o && o[key].JInt?
  {
    if key in o && o[key].JInt? then Some(o[key].i) else None
  }

  function GetString(o: JsonObject, key: string): (r: Option<string>)
    ensures r.Some? <==> key in o && o[key].JString?
  {
    if key in o && o[key].JString? then Some(o[key].s) else None
  }

  function GetBool(o: JsonObject, key: string): (r: Option<bool>)
    ensures r.Some? <==> key in o && o[key].JBool?
  {
    if key in o && o[key].JBool? then Some(o[key].b) else None
  }

  function GetDate(o: JsonObject, key: string): (r: Option<int>)
    ensures r.Some? <==> key in o && o[key].JDate?
  {
    if key in o && o[key].JDate? then Some(o[key].seconds) else None
  }

  /** `encodeIfPresent`: the key is written only for a present value. */
  function PutIfPresent(o: JsonObject, key: string, v: Option<JsonValue>): (r: JsonObject)
    ensures v.None? ==> r == o
    ensures v.Some? ==> r == o[key := v.value]
  {
    match v
    case None => o
    case Some(x) => o[key := x]
  }
}
