/**
 * The JSON values that fixtures, request snapshots and response bodies are made of.
 * Numbers are integers only; the textual encoding (`json.dumps` / `json.load`) is not modelled.
 */
module JsonValue {

  import opened Wrappers

  datatype Json =
    | JNull
    | JBool(b: bool)
    | JNum(n: int)
    | JStr(s: string)
    | JArr(items: seq<Json>)
    | JObj(fields: map<string, Json>)

  /** Python's `d.get(key)` on a dict: the value, or `None` when the key is absent. */
  function Field(fields: map<string, Json>, key: string): (v: Json)
    ensures key in fields ==> v == fields[key]
    ensures key !in fields ==> v == JNull
  {
    if key in fields then fields[key] else JNull
  }

  /** A dict of strings, as `dict(...)` of a header or query-argument multi-dict gives it. */
  function StringMap(m: map<string, string>): (r: map<string, Json>)
    ensures r.Keys == m.Keys
    ensures forall k :: k in m ==> r[k] == JStr(m[k])
  {
    map k | k in m :: JStr(m[k])
  }

  /** Reads back a dict whose values are all strings. */
  function AsStringMap(fields: map<string, Json>): (r: Option<map<string, string>>)
    ensures r.Some? <==> forall k :: k in fields ==> fields[k].JStr?
    ensures r.Some? ==> r.value.Keys == fields.Keys
    ensures r.Some? ==> forall k :: k in fields ==> fields[k] == JStr(r.value[k])
  {
    if forall k :: k in fields ==> fields[k].JStr? then
      Some(map k | k in fields :: fields[k].s)
    else
      None
  }

  /** Reading back a string dict returns exactly the dict that was written. */
  lemma StringMapRoundTrip(m: map<string, string>)
    ensures AsStringMap(StringMap(m)) == Some(m)
  {
    var r := AsStringMap(StringMap(m));
    assert r.Some?;
    assert r.value == m;
  }
}
