/** The JSON values modules exchange, and the codec that turns them into the
    text stored in a table column. The codec is not part of this model: it is
    carried as a pair of functions, and the property the store relies on, that
    decoding what was encoded gives back the value, is stated as a predicate
    that callers may assume of it. */
module Json {
  import opened Wrappers

  /** A value `json.loads` can produce. A Python `bool` stays distinct from an
      `int` here, because `isinstance` is asked about it. */
  datatype Value =
    | JNull
    | JBool(b: bool)
    | JInt(i: int)
    | JFloat(f: real)
    | JString(s: string)
    | JArray(items: seq<Value>)
    | JObject(fields: map<string, Value>)

  /** `dumps` is `json.dumps`; `loads` is `json.loads`, with `None` for the text
      it rejects with an error. */
  datatype Codec = Codec(dumps: Value -> string, loads: string -> Option<Value>) {

    ghost predicate RoundTrips() {
      forall v :: loads(dumps(v)) == Some(v)
    }
  }

  /** Python's `d.get(key, default)` on a JSON object. */
  function Get(fields: map<string, Value>, key: string, default: Value): (r: Value)
    ensures key in fields ==> r == fields[key]
    ensures key !in fields ==> r == default
  {
    if key in fields then fields[key] else default
  }
}
