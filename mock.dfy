/**
 * The mock resource (`MockResource`, mock.py:96-190): one per registered endpoint template,
 * sharing one store. A request is captured as a snapshot, its path parameters resolve the
 * template into a fixture key, the snapshot is saved into the last-request slot, and the fixture
 * (or a default) becomes the response. An object stands for the instance built for one request.
 */
module Mock {

  import opened Wrappers
  import opened JsonValue
  import opened Methods
  import opened Paths
  import opened Storage
  import opened Capture
  import opened Responses

  /** What one request does, start to finish, as a function of the store's contents before it:
   *  the response or the exception that ended it, and the store's contents after it. */
  function Serve(root: string, template: string, env: Environment, entries: map<string, Json>,
                 req: Request, params: seq<Param>): (Result<Response, Error>, map<string, Json>)
  {
    match MethodFile(req.httpMethod)
    case None => (Err(UnknownMethod), entries)
    case Some(file) =>
      var lastKey := LastRequestKey(root);
      if lastKey in env.writeFaults then (Err(SnapshotNotSaved), entries)
      else
        var entries' := entries[lastKey := Capture.ToJson(Extract(req, req.httpMethod))];
        var key := FixtureKey(root, ResolvePath(template, params), file);
        (ResolveResponse(Lookup(env, entries', key), file), entries')
  }

  class MockResource {
    const responsesPath: string
    const endpointPath: string
    const reader: Store

    // The per-request state the handler keeps in fields (empty until the first request).
    var httpMethod: string
    var methodFile: string
    var requestData: Json
    var responseFilePath: string
    var requestFilePath: string
    var response: Option<Response>

    constructor (responsesPath: string, endpointPath: string, reader: Store)
      ensures this.responsesPath == responsesPath && this.endpointPath == endpointPath
      ensures this.reader == reader && response == None
    {
      this.responsesPath := responsesPath;
      this.endpointPath := endpointPath;
      this.reader := reader;
      httpMethod, methodFile, requestData := "", "", JNull;
      responseFilePath, requestFilePath, response := "", "", None;
    }

    /** `get`, `post`, `put`, `delete` and `options` all run `_process` and hand back the
     *  response it stored; the outcome is the one `Serve` gives. */
    method Process(req: Request, params: seq<Param>) returns (r: Result<Response, Error>)
      modifies this, reader
      ensures (r, reader.entries)
           == Serve(responsesPath, endpointPath, reader.env, old(reader.entries), req, params)
      ensures response == if r.Ok? then Some(r.value) else old(response)
    {
      var err := ProcessRequest(req, params);
      if err.Some? {
        return Err(err.value);
      }
      r := GetResponse();
      if r.Ok? {
        response := Some(r.value);
      }
    }

    /** `_process_request`: records the method and its fixture file, captures the request,
     *  resolves both keys and saves the snapshot. `err` is the exception that stopped it. */
    method ProcessRequest(req: Request, params: seq<Param>) returns (err: Option<Error>)
      modifies this, reader
      ensures httpMethod == req.httpMethod && response == old(response)
      ensures err == None <==>
        MethodFile(req.httpMethod).Some? && LastRequestKey(responsesPath) !in reader.env.writeFaults
      ensures err == None ==>
        && methodFile == MethodFile(req.httpMethod).value
        && requestData == Capture.ToJson(Extract(req, req.httpMethod))
        && responseFilePath == FixtureKey(responsesPath, ResolvePath(endpointPath, params), methodFile)
        && requestFilePath == LastRequestKey(responsesPath)
      ensures (reader.entries, err)
           == if MethodFile(req.httpMethod).None? then (old(reader.entries), Some(UnknownMethod))
              else if LastRequestKey(responsesPath) in reader.env.writeFaults
              then (old(reader.entries), Some(SnapshotNotSaved))
              else (old(reader.entries)[LastRequestKey(responsesPath) := requestData], None)
    {
      ghost var before := reader.entries;
      httpMethod := req.httpMethod;
      var file := MethodFile(httpMethod);
      if file.None? {
        return Some(UnknownMethod);
      }
      methodFile := file.value;
      ExtractRequestData(req);
      UpdateFilePaths(params);
      assert reader.entries == before;
      var saved := SaveRequestData();
      err := if saved then None else Some(SnapshotNotSaved);
    }

    /** `_extract_request_data` */
    method ExtractRequestData(req: Request)
      modifies this`requestData
      ensures requestData == Capture.ToJson(Extract(req, httpMethod))
    {
      requestData := Capture.ToJson(Extract(req, httpMethod));
    }

    /** `_save_request_data`: overwrites the last-request slot with the snapshot; `ok` is false
     *  when the write raised. */
    method SaveRequestData() returns (ok: bool)
      modifies reader
      ensures ok == (requestFilePath !in reader.env.writeFaults)
      ensures reader.entries
           == if ok then old(reader.entries)[requestFilePath := requestData] else old(reader.entries)
    {
      ok := reader.Set(requestFilePath, requestData);
    }

    /** `_update_file_paths`: the fixture key for the resolved endpoint path and the method
     *  file, and the fixed last-request key. */
    method UpdateFilePaths(params: seq<Param>)
      modifies this`responseFilePath, this`requestFilePath
      ensures responseFilePath == FixtureKey(responsesPath, ResolvePath(endpointPath, params), methodFile)
      ensures requestFilePath == LastRequestKey(responsesPath)
    {
      var endpoint := ResolveEndpointPath(endpointPath, params);
      responseFilePath := PathJoin(PathJoin(responsesPath, endpoint), methodFile);
      requestFilePath := PathJoin(responsesPath, LastRequestFile);
    }

    /** `_get_response`: reads the fixture and resolves it against the method file. */
    method GetResponse() returns (r: Result<Response, Error>)
      ensures r == ResolveResponse(reader.Get(responseFilePath), methodFile)
    {
      var read := reader.Get(responseFilePath);
      var data: Json;
      if read == Raised(OtherFault) {
        return Err(FixtureUnreadable);
      } else if read.Raised? {
        data := JNull;
      } else {
        data := read.value;
      }
      if data == JNull {
        data := PredefinedResponse(methodFile);
      }
      if data.JObj? {
        r := Ok(Emit(data.fields));
      } else {
        r := Err(FixtureNotAnObject);
      }
    }
  }

  /** The fixture key a request to `template` with `params` and method `m` reads. */
  function KeyFor(root: string, template: string, params: seq<Param>, m: Method): string
  {
    FixtureKey(root, ResolvePath(template, params), FileName(m))
  }

  /** A request whose method is known and whose snapshot can be written replaces the
   *  last-request slot with its own snapshot and changes no other key; any other request
   *  leaves the store as it was. */
  lemma ServeWritesOnlyLastRequest(root: string, template: string, env: Environment,
                                   entries: map<string, Json>, req: Request, params: seq<Param>)
    ensures var after := Serve(root, template, env, entries, req, params).1;
      if MethodFile(req.httpMethod).Some? && LastRequestKey(root) !in env.writeFaults
      then after == entries[LastRequestKey(root) := Capture.ToJson(Extract(req, req.httpMethod))]
      else after == entries
  {
  }

  /** The snapshot is written before the fixture is read, yet never shadows it: the response is
   *  what the fixture key held before the request. */
  lemma ServeReadsStoredFixture(root: string, template: string, env: Environment,
                                entries: map<string, Json>, req: Request, params: seq<Param>, m: Method)
    requires Parse(req.httpMethod) == Some(m)
    ensures Serve(root, template, env, entries, req, params).0
         == if LastRequestKey(root) in env.writeFaults then Err(SnapshotNotSaved)
            else ResolveResponse(Lookup(env, entries, KeyFor(root, template, params, m)), FileName(m))
  {
    var key := KeyFor(root, template, params, m);
    FixtureKeyIsNotLastRequestKey(root, ResolvePath(template, params), m, root);
    WriteKeepsOtherKeys(env, entries, LastRequestKey(root),
                        Capture.ToJson(Extract(req, req.httpMethod)), key);
  }

  /** With no usable fixture (nothing stored, `None` stored, or an `IOError` on reading), an
   *  OPTIONS request gets the CORS preflight response and every other method the 405 one. */
  lemma ServeFallsBack(root: string, template: string, env: Environment,
                       entries: map<string, Json>, req: Request, params: seq<Param>, m: Method)
    requires Parse(req.httpMethod) == Some(m) && LastRequestKey(root) !in env.writeFaults
    requires Miss(Lookup(env, entries, KeyFor(root, template, params, m)))
    ensures m == OPTIONS ==>
      Serve(root, template, env, entries, req, params).0
      == Ok(Response(JNull, JNum(200), JObj(PreflightHeaders)))
    ensures m != OPTIONS ==>
      Serve(root, template, env, entries, req, params).0
      == Ok(Response(JObj(map["message" := JStr("Method not implemented")]), JNum(405),
                     JObj(map["Content-Type" := JStr("application/json")])))
  {
    ServeReadsStoredFixture(root, template, env, entries, req, params, m);
    var read := Lookup(env, entries, KeyFor(root, template, params, m));
    if m == OPTIONS {
      MissOptionsIsPreflight(read);
    } else {
      MissOtherIsNotAllowed(read, m);
    }
  }

  /** A request fails only for an unknown method, an unwritable last-request slot, a fixture
   *  read raising something other than `IOError`, or a stored fixture that is neither `None`
   *  nor a dict. */
  lemma ServeFailsIff(root: string, template: string, env: Environment,
                      entries: map<string, Json>, req: Request, params: seq<Param>)
    ensures Parse(req.httpMethod).None? ==>
      Serve(root, template, env, entries, req, params).0 == Err(UnknownMethod)
    ensures Parse(req.httpMethod).Some? ==>
      var read := Lookup(env, entries, KeyFor(root, template, params, Parse(req.httpMethod).value));
      Serve(root, template, env, entries, req, params).0.Err?
      <==> || LastRequestKey(root) in env.writeFaults
           || read == Raised(OtherFault)
           || (read.Returned? && read.value != JNull && !read.value.JObj?)
  {
    match Parse(req.httpMethod)
    case None =>
    case Some(m) =>
      ServeReadsStoredFixture(root, template, env, entries, req, params, m);
      ResolveFailsIff(Lookup(env, entries, KeyFor(root, template, params, m)), m);
  }

  /** One snapshot is kept, never a history: after two requests the store is what the second
   *  request alone would have made of the original store, whatever the first one was. */
  lemma LastRequestOverwritten(root: string, env: Environment, entries: map<string, Json>,
                               template1: string, req1: Request, params1: seq<Param>,
                               template2: string, req2: Request, params2: seq<Param>)
    requires MethodFile(req2.httpMethod).Some? && LastRequestKey(root) !in env.writeFaults
    ensures var between := Serve(root, template1, env, entries, req1, params1).1;
      Serve(root, template2, env, between, req2, params2).1
      == Serve(root, template2, env, entries, req2, params2).1
  {
    var key := LastRequestKey(root);
    var s1 := Capture.ToJson(Extract(req1, req1.httpMethod));
    var s2 := Capture.ToJson(Extract(req2, req2.httpMethod));
    assert entries[key := s1][key := s2] == entries[key := s2];
  }

  /** The fixture of the `/items/<id>` scenario: status 200, a body naming a widget, no headers. */
  const WidgetFixture: Json := JObj(map[
    "body" := JObj(map["name" := JStr("widget")]),
    "status_code" := JNum(200),
    "headers" := JObj(map[])
  ])

  /** The stored `/items/<id>` scenario: a GET to `/items/42` with a fixture at
   *  `<root>/items/42/get.json` answers with the fixture's status and body. */
  lemma ItemFixtureServed(root: string, template: string, params: seq<Param>, req: Request)
    requires root != [] && root[|root| - 1] != '/'
    requires template == EndpointPath("/items/<id>") && params == [("id", "42")]
    requires req.httpMethod == "GET"
    ensures Serve(root, template, Environment(FileStorage, map[], {}),
                  map[root + "/items/42/get.json" := WidgetFixture], req, params).0
         == Ok(Response(JObj(map["name" := JStr("widget")]), JNum(200), JObj(map[])))
  {
    var env := Environment(FileStorage, map[], {});
    var key := root + "/items/42/get.json";
    var entries := map[key := WidgetFixture];
    ItemKey(root, template, params);
    ServeReadsStoredFixture(root, template, env, entries, req, params, GET);
    FixtureUsedVerbatim(WidgetFixture.fields, FileName(GET));
  }

  /** The fixture key of that GET. */
  lemma ItemKey(root: string, template: string, params: seq<Param>)
    requires root != [] && root[|root| - 1] != '/'
    requires template == EndpointPath("/items/<id>") && params == [("id", "42")]
    ensures KeyFor(root, template, params, GET) == root + "/items/42/get.json"
  {
    ItemPathResolves(template, params);
    var path, file := ResolvePath(template, params), FileName(GET);
    FixtureKeySplit(root, path, file);
    ItemKeyText(root, path, file);
  }

  lemma ItemKeyText(root: string, path: string, file: string)
    requires root != [] && path == "items/42" && file == "get.json"
    ensures RootPrefix(root) + path + ("/" + file) == root + "/items/42/get.json"
  {
    assert RootPrefix(root) == root + "/";
    assert path + ("/" + file) == "items/42/get.json";
  }

  /** The same endpoint with nothing stored: a DELETE to `/items/42` answers 405. */
  lemma ItemDeleteNotAllowed(root: string, kind: Kind, req: Request)
    requires req.httpMethod == "DELETE"
    ensures var env := Environment(kind, map[], {});
      Serve(root, EndpointPath("/items/<id>"), env, map[], req, [("id", "42")]).0
      == Ok(Response(JObj(map["message" := JStr("Method not implemented")]), JNum(405),
                     JObj(map["Content-Type" := JStr("application/json")])))
  {
    var env := Environment(kind, map[], {});
    var template, params := EndpointPath("/items/<id>"), [("id", "42")];
    var key := KeyFor(root, template, params, DELETE);
    AbsentKey(env, map[], key);
    ServeFallsBack(root, template, env, map[], req, params, DELETE);
  }

  /** `items/<id>` with `id=42` resolves to `items/42`. */
  lemma ItemPathResolves(template: string, params: seq<Param>)
    requires template == EndpointPath("/items/<id>") && params == [("id", "42")]
    ensures template == "items/<id>"
    ensures ResolvePath(template, params) == "items/42"
  {
    assert template == JoinWith(["items/", ""], Placeholder("id"));
    NoAngleNoPlaceholder("items/", "id");
    NoAngleNoPlaceholder("", "id");
    ResolveOneParameter(["items/", ""], "id", "42");
    assert JoinWith(["items/", ""], "42") == "items/42";
  }
}
