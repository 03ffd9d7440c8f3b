/**
 * Response resolution (`MockResource._get_response` and `_get_predefined_response`,
 * mock.py:169-190) and the two built-in default responses (mock.py:10-22).
 */
module Responses {

  import opened Wrappers
  import opened JsonValue
  import opened Methods
  import opened Storage

  /** `METHOD_NOT_ALLOWED_RESPONSE` */
  const NotAllowed: Json := JObj(map[
    "body" := JObj(map["message" := JStr("Method not implemented")]),
    "headers" := JObj(map["Content-Type" := JStr("application/json")]),
    "status_code" := JNum(405)
  ])

  /** The headers of `PREFLIGHT_RESPONSE`. */
  const PreflightHeaders: map<string, Json> := map[
    "Access-Control-Allow-Origin" := JStr("*"),
    "Access-Control-Allow-Methods" := JStr("POST, GET, PUT, DELETE, OPTIONS"),
    "Access-Control-Allow-Headers" := JStr("*"),
    "Access-Control-Max-Age" := JStr("86400")
  ]

  /** `PREFLIGHT_RESPONSE`: no body at all. */
  const Preflight: Json := JObj(map[
    "headers" := JObj(PreflightHeaders),
    "status_code" := JNum(200)
  ])

  /** What is handed to the framework's `Response(json.dumps(body), status_code, headers)`:
   *  `payload` is the value whose JSON text is the response body. */
  datatype Response = Response(payload: Json, status: Json, headers: Json)

  /** The exceptions that end a request instead of a response. */
  datatype Error =
    | UnknownMethod      // `MethodFile[request.method]` raised `KeyError`
    | SnapshotNotSaved   // writing the last-request slot raised
    | FixtureUnreadable  // the fixture read raised something other than `IOError`
    | FixtureNotAnObject // the fixture is not a dict, so `.get` raised

  /** `_get_predefined_response`: the preflight response when the method file is the OPTIONS
   *  one, the method-not-allowed response for every other method file. */
  function PredefinedResponse(methodFile: string): Json
  {
    if methodFile == FileName(OPTIONS) then Preflight else NotAllowed
  }

  /** The three fields of a fixture, each `None` when missing. */
  function Emit(fixture: map<string, Json>): Response
  {
    Response(Field(fixture, "body"), Field(fixture, "status_code"), Field(fixture, "headers"))
  }

  /** `_get_response` given what the fixture read did: an `IOError` counts as `None`, `None`
   *  falls back to the predefined response, and the result's body, status and headers are
   *  handed on. */
  function ResolveResponse(read: ReadResult, methodFile: string): Result<Response, Error>
  {
    if read == Raised(OtherFault) then Err(FixtureUnreadable)
    else
      var data := if read.Raised? then JNull else read.value;
      var data' := if data == JNull then PredefinedResponse(methodFile) else data;
      if data'.JObj? then Ok(Emit(data'.fields)) else Err(FixtureNotAnObject)
  }

  /** A read that found nothing usable: `None`, or an `IOError`. */
  predicate Miss(read: ReadResult)
  {
    read == Returned(JNull) || read == Raised(IOFault)
  }

  /** The preflight response is chosen exactly for OPTIONS. */
  lemma PredefinedByMethod(m: Method)
    ensures PredefinedResponse(FileName(m)) == Preflight <==> m == OPTIONS
    ensures PredefinedResponse(FileName(m)) == NotAllowed <==> m != OPTIONS
  {
    FileNameInjective(m, OPTIONS);
    assert Preflight != NotAllowed by {
      assert "body" in NotAllowed.fields && "body" !in Preflight.fields;
    }
  }

  /** On a miss an OPTIONS request gets status 200, the CORS headers (any origin, any header,
   *  the five methods, a one-day cache) and the JSON encoding of `None` as its body. */
  lemma MissOptionsIsPreflight(read: ReadResult)
    requires Miss(read)
    ensures ResolveResponse(read, FileName(OPTIONS))
         == Ok(Response(JNull, JNum(200), JObj(PreflightHeaders)))
    ensures PreflightHeaders["Access-Control-Allow-Origin"] == JStr("*")
    ensures PreflightHeaders["Access-Control-Allow-Methods"] == JStr("POST, GET, PUT, DELETE, OPTIONS")
    ensures PreflightHeaders["Access-Control-Max-Age"] == JStr("86400")
  {
  }

  /** On a miss every other method gets status 405, a JSON content type and the body
   *  `{"message": "Method not implemented"}`. */
  lemma MissOtherIsNotAllowed(read: ReadResult, m: Method)
    requires Miss(read) && m != OPTIONS
    ensures ResolveResponse(read, FileName(m)) == Ok(Response(
      JObj(map["message" := JStr("Method not implemented")]),
      JNum(405),
      JObj(map["Content-Type" := JStr("application/json")])))
  {
    PredefinedByMethod(m);
  }

  /** A fixture that is a dict is used verbatim: its body, status code and headers, each
   *  `None` when the fixture leaves it out. */
  lemma FixtureUsedVerbatim(fixture: map<string, Json>, methodFile: string)
    ensures ResolveResponse(Returned(JObj(fixture)), methodFile).Ok?
    ensures var r := ResolveResponse(Returned(JObj(fixture)), methodFile).value;
      && ("body" in fixture ==> r.payload == fixture["body"])
      && ("status_code" in fixture ==> r.status == fixture["status_code"])
      && ("headers" in fixture ==> r.headers == fixture["headers"])
      && ("body" !in fixture ==> r.payload == JNull)
  {
  }

  /** Resolution fails exactly when the read raised something other than an `IOError`, or
   *  returned a value that is neither `None` nor a dict; a miss never fails. */
  lemma ResolveFailsIff(read: ReadResult, m: Method)
    ensures ResolveResponse(read, FileName(m)).Err?
        <==> read == Raised(OtherFault)
             || (read.Returned? && read.value != JNull && !read.value.JObj?)
  {
    PredefinedByMethod(m);
  }
}
