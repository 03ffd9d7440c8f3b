/**
 * The five HTTP methods a mock resource answers and the `MethodFile` table that names the
 * fixture file each one is read from (mock.py, class `MethodFile`).
 */
module Methods {

  import opened Wrappers

  datatype Method = GET | POST | PUT | DELETE | OPTIONS

  /** The member name of the `MethodFile` enum, which is also the request's method string. */
  function Name(m: Method): string
  {
    match m
    case GET => "GET"
    case POST => "POST"
    case PUT => "PUT"
    case DELETE => "DELETE"
    case OPTIONS => "OPTIONS"
  }

  /** The value of the `MethodFile` member: the fixture file name of the method. */
  function FileName(m: Method): (f: string)
    ensures f == ToLower(Name(m)) + ".json"
  {
    match m
    case GET => "get.json"
    case POST => "post.json"
    case PUT => "put.json"
    case DELETE => "delete.json"
    case OPTIONS => "options.json"
  }

  /** ASCII lower-casing, used only to state how the file names relate to the method names. */
  function ToLower(s: string): (r: string)
    ensures |r| == |s|
  {
    seq(|s|, i requires 0 <= i < |s| => if 'A' <= s[i] <= 'Z' then (s[i] as int + 32) as char else s[i])
  }

  /** `MethodFile[name]`: the enum lookup by member name, which raises `KeyError` (here `None`)
   *  for any name other than the five. */
  function Parse(name: string): (r: Option<Method>)
    ensures r.Some? ==> Name(r.value) == name
    ensures r.None? ==> forall m: Method :: Name(m) != name
  {
    if name == "GET" then Some(GET)
    else if name == "POST" then Some(POST)
    else if name == "PUT" then Some(PUT)
    else if name == "DELETE" then Some(DELETE)
    else if name == "OPTIONS" then Some(OPTIONS)
    else None
  }

  /** `MethodFile[name].value`, the fixture file name looked up by the request's method string. */
  function MethodFile(name: string): (r: Option<string>)
    ensures r.Some? <==> exists m: Method :: Name(m) == name
    ensures forall m: Method :: Name(m) == name ==> r == Some(FileName(m))
  {
    match Parse(name)
    case Some(m) => Some(FileName(m))
    case None => None
  }

  /** Parsing the name of a method gives that method back. */
  lemma ParseName(m: Method)
    ensures Parse(Name(m)) == Some(m)
  {
  }

  /** Each method has its own fixture file: the table is one-to-one. */
  lemma FileNameInjective(m1: Method, m2: Method)
    ensures FileName(m1) == FileName(m2) <==> m1 == m2
  {
  }

  /** The table of the source, entry by entry. */
  lemma FileNameTable()
    ensures FileName(GET) == "get.json" && FileName(POST) == "post.json"
    ensures FileName(PUT) == "put.json" && FileName(DELETE) == "delete.json"
    ensures FileName(OPTIONS) == "options.json"
  {
  }
}
