/**
 * Request capture (`MockResource._extract_request_data`, mock.py:140-148): the snapshot of the
 * current request that is written to the last-request slot, and the JSON object it is stored as.
 */
module Capture {

  import opened Wrappers
  import opened JsonValue

  /** What the web framework hands the resource about the current request. */
  datatype Request = Request(
    httpMethod: string,              // `request.method`
    headers: map<string, string>,    // `dict(request.headers)`
    isJson: bool,                    // `request.is_json`
    json: Json,                      // `request.json`, the parsed body
    data: string,                    // `request.data.decode()`, the raw body
    args: map<string, string>,       // `dict(request.args)`
    endpoint: string                 // `request.endpoint`, the registered template
  )

  datatype Snapshot = Snapshot(
    headers: map<string, string>,
    body: Json,
    args: map<string, string>,
    endpoint: string,
    httpMethod: string
  )

  /** The body of the snapshot: the parsed JSON for a JSON request, otherwise the raw text, or
   *  `None` when that text is empty (`request.data.decode() or None`). */
  function Body(req: Request): (b: Json)
    ensures req.isJson ==> b == req.json
    ensures !req.isJson ==> (b == JNull <==> req.data == [])
    ensures !req.isJson && req.data != [] ==> b == JStr(req.data)
  {
    if req.isJson then req.json
    else if req.data == [] then JNull
    else JStr(req.data)
  }

  /** The snapshot built from the request and the method the resource recorded for it. */
  function Extract(req: Request, httpMethod: string): Snapshot
  {
    Snapshot(req.headers, Body(req), req.args, req.endpoint, httpMethod)
  }

  /** The dict the snapshot is stored as: keys `headers`, `body`, `args`, `endpoint`, `method`. */
  function ToJson(s: Snapshot): (j: Json)
    ensures j.JObj? && j.fields.Keys == {"headers", "body", "args", "endpoint", "method"}
    ensures j.fields["body"] == s.body
    ensures j.fields["endpoint"] == JStr(s.endpoint) && j.fields["method"] == JStr(s.httpMethod)
  {
    JObj(map[
      "headers" := JObj(StringMap(s.headers)),
      "body" := s.body,
      "args" := JObj(StringMap(s.args)),
      "endpoint" := JStr(s.endpoint),
      "method" := JStr(s.httpMethod)
    ])
  }

  /** Reads a stored snapshot back, as a client inspecting the last-request slot does. */
  function FromJson(j: Json): Option<Snapshot>
  {
    if !j.JObj? then None
    else
      var f := j.fields;
      if !("headers" in f && "body" in f && "args" in f && "endpoint" in f && "method" in f) then None
      else if !(f["headers"].JObj? && f["args"].JObj? && f["endpoint"].JStr? && f["method"].JStr?) then None
      else
        match (AsStringMap(f["headers"].fields), AsStringMap(f["args"].fields))
        case (Some(h), Some(a)) => Some(Snapshot(h, f["body"], a, f["endpoint"].s, f["method"].s))
        case _ => None
  }

  /** The stored snapshot holds everything that was captured: reading it back gives it again. */
  lemma SnapshotRoundTrip(s: Snapshot)
    ensures FromJson(ToJson(s)) == Some(s)
  {
    StringMapRoundTrip(s.headers);
    StringMapRoundTrip(s.args);
  }

  /** The stored snapshot records the request's method, endpoint and body. */
  lemma SnapshotReflectsRequest(req: Request)
    ensures FromJson(ToJson(Extract(req, req.httpMethod))).Some?
    ensures var s := FromJson(ToJson(Extract(req, req.httpMethod))).value;
      s.httpMethod == req.httpMethod && s.endpoint == req.endpoint && s.body == Body(req)
      && s.headers == req.headers && s.args == req.args
  {
    SnapshotRoundTrip(Extract(req, req.httpMethod));
  }
}
