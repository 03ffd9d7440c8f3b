# Mock response resolution engine of `mocky`, in Dafny

`mocky` is an HTTP mock server. Each endpoint template from its configuration list (such as
`/items/<id>`) is registered as a `MockResource`. A request to that resource goes through these steps:

1. The request is captured as a snapshot.
2. Its path parameters are substituted into the template, which gives the fixture key
   `<root>/<resolved path>/<method>.json`.
3. The snapshot is saved into the single last-request slot of a shared store (mock.py:135-138).
   Then the store is asked for the fixture at that key.
4. If no fixture is found, it falls back to a built-in response: the CORS preflight response for
   OPTIONS, and 405 "Method not implemented" for every other method.

The store is either one JSON file per key or a key-value server holding pickled values. With the
key-value server the root is empty, so keys read `items/42/get.json`.

The model is in eight modules:

- `Wrappers` (`wrappers.dfy`): `Option` and `Result`.
- `JsonValue` (`json.dfy`): JSON values, `dict.get`, and string dicts.
- `Methods` (`methods.dfy`): the `MethodFile` table and the lookup of a request's method name.
- `Paths` (`paths.dfy`):
  - Python's `str.replace`;
  - the substitution loop of `_update_file_paths`, as a method with its loop invariant;
  - `posixpath.join`;
  - the fixture key and the last-request key, with their layout, distinctness and injectivity.
- `Storage` (`storage.dfy`): both readers as one abstract map. A class `Store` holds the contents,
  which `Set` overwrites. An `Environment` fixes the kind of store, which keys fail to read, with
  an `IOError` or with another exception, and which keys fail to write.
- `Capture` (`capture.dfy`): the request snapshot, the dict it is stored as, and reading it back.
- `Responses` (`responses.dfy`): the two predefined responses, `_get_predefined_response`, and
  `_get_response` given the outcome of the fixture read.
- `Mock` (`mock.dfy`):
  - `Serve`, the whole request as a function of the store before it;
  - the class `MockResource`, whose fields and step methods follow the source, with `Process`
    proved equal to `Serve`. flask_restful builds a fresh resource object for every request, so a
    `MockResource` object stands for that one request's instance, and its `response` field never
    carries over from one request to the next;
  - the lemmas about a request, and the `/items/<id>` scenarios.

Behaviour modelled as the code has it:

- A method name outside the five raises `KeyError` at `MethodFile[...]` (mock.py:134). The
  request then ends with nothing written. `Serve` returns `Err(UnknownMethod)`.
- A failed write of the snapshot is not caught anywhere (mock.py:138, mock.py:150-151), so it
  ends the request before the fixture is read, although the snapshot is only debugging state.
- Only an `IOError` on the fixture read counts as a miss (mock.py:172). Any other exception
  propagates, for example a JSON decoding error or a lost key-value server connection.
- A fixture that is stored as JSON `null` also falls back to the default (mock.py:175).
- A fixture that is not a dict makes `.get` raise (mock.py:178).
- A placeholder that `str.replace` does not find stays in the path. One example is a converter
  written into the template, such as `<string:id>`, whose keyword argument is named `id`: the loop
  looks for `<id>`, so the key keeps `<string:id>` and the lookup simply misses.
- The parameters are substituted one after another into the partly resolved path (mock.py:159-164).
  So a captured value that spells a later parameter's placeholder is substituted too:
  `users/<a>/<b>` with `a` captured as `<b>` and `b` as `x` resolves to `users/x/x`.

## Model

| member | source | states |
|---|---|---|
| `Methods.FileName` | mock.py:36-41 | every fixture file name is the method's name in lower case followed by `.json` |
| `Methods.FileNameTable` | mock.py:36-41 | GET, POST, PUT, DELETE and OPTIONS map to `get.json`, `post.json`, `put.json`, `delete.json` and `options.json` |
| `Methods.FileNameInjective` | mock.py:36-41 | two methods share a fixture file name exactly when they are the same method |
| `Methods.MethodFile` | mock.py:134 | looking up the request's method string succeeds exactly for the five member names and then gives that member's file; any other name raises (`None`) |
| `Methods.ParseName` | mock.py:134 | looking up a method's own name gives that method back |
| `Paths.ReplaceAllNoOccurrence` | mock.py:162-164 | `replace` leaves a string that does not contain the placeholder unchanged |
| `Paths.ReplaceAllJoin` | mock.py:162-164 | `replace` turns every occurrence of a placeholder whose first character does not recur into the replacement and keeps all text between occurrences, i.e. it equals split-then-join |
| `Paths.ResolveEndpointPath` | mock.py:157-164 | the loop over the captured parameters yields the path obtained by substituting them one after another in order |
| `Paths.ResolveWithoutPlaceholders` | mock.py:159-164 | a template without `<` comes out unchanged whatever parameters were captured |
| `Paths.ReservedValueIgnored` | mock.py:161-162 | changing the captured value of a parameter whose name starts with `__` never changes the resolved path |
| `Paths.ResolveAllParameters` | mock.py:159-164 | for any number of captured parameters with distinct bracket-free names and `<`-free values, the resolved path is the template with each `<name>` replaced by its own replacement (the name when it starts with `__`, the value otherwise), uncaptured placeholders and all literal text kept |
| `Paths.NothingUnresolved` | mock.py:159-164 | when every placeholder of such a template is captured, the resolved path contains no `<` |
| `Paths.ValueInjected` | mock.py:159-164 | a captured value that spells a later placeholder is substituted as well: `users/<a>/<b>` with `a` = `<b>` and `b` = `x` resolves to `users/x/x` |
| `Paths.ResolveOneParameter` | mock.py:159-164 | every occurrence of `<name>` is replaced, by the name itself when it starts with `__` and by the captured value otherwise, and the rest of the template is kept |
| `Paths.PathJoinEndsWith` | mock.py:166-167 | `os.path.join` ends with its last component, and an absolute last component replaces everything before it |
| `Paths.FixtureKeyLayout` | mock.py:166 | the fixture key is `<root>/<path>/<method>.json`, and `<path>/<method>.json` under the empty root |
| `Paths.LastRequestKeyLayout` | mock.py:167 | the snapshot key is `<root>/last_request.json`, and `last_request.json` under the empty root |
| `Paths.FixtureKeyIsNotLastRequestKey` | mock.py:166-167 | no fixture key equals any last-request key, so saving a snapshot never overwrites a fixture |
| `Paths.FixtureKeyDeterminesMethod` | mock.py:166 | equal fixture keys were built for the same method |
| `Paths.FixtureKeyInjective` | mock.py:166 | under one root, two plain resolved paths and methods give the same key exactly when both agree |
| `Paths.EndpointPath` | mock.py:210 | the resource receives the registered template without its first character |
| `Storage.Store.Set` | mock.py:77-93 | a write overwrites only its own key and is then read back, or it raises and changes nothing |
| `Storage.ReadAfterWrite` | mock.py:72-93 | after `set(k, v)`, `get(k)` returns `v` on both stores unless reads of `k` are broken |
| `Storage.WriteKeepsOtherKeys` | mock.py:77-93 | writing one key changes what no other key reads |
| `Storage.AbsentKey` | mock.py:72-90 | a key with nothing stored reads as `None` on the key-value store and raises `IOError` on the file store |
| `Capture.SnapshotRoundTrip` | mock.py:141-148 | the stored snapshot dict reads back as exactly the captured snapshot |
| `Capture.SnapshotReflectsRequest` | mock.py:140-148 | the stored snapshot records the request's headers, its arguments, its endpoint, its method, and the body rule (the JSON body, else the raw text, else `None`) |
| `Capture.ToJson` | mock.py:141-147 | the snapshot is a dict with exactly the keys `headers`, `body`, `args`, `endpoint`, `method` |
| `Responses.PredefinedByMethod` | mock.py:185-190 | the preflight response is chosen exactly for OPTIONS and the 405 response exactly for the other four |
| `Responses.MissOptionsIsPreflight` | mock.py:16-22 | on a miss, OPTIONS answers status 200 with the body `null`, any origin, any header, the five methods and a 86400-second max age |
| `Responses.MissOtherIsNotAllowed` | mock.py:10-14 | on a miss, any other method answers 405 with a JSON content type and the body `{"message": "Method not implemented"}` |
| `Responses.FixtureUsedVerbatim` | mock.py:178-182 | a dict fixture's body, status code and headers are handed on unchanged, and a missing body is emitted as `null` |
| `Responses.ResolveFailsIff` | mock.py:169-183 | resolution fails exactly when the read raised something other than `IOError` or returned a value that is neither `None` nor a dict |
| `Mock.MockResource.constructor` | mock.py:103-106 | a resource holds its root, its endpoint path and the shared store |
| `Mock.MockResource.Process` | mock.py:108-130 | handling a request gives the outcome and the new store contents that `Serve` gives, and keeps the response in the resource only on success |
| `Mock.MockResource.ProcessRequest` | mock.py:132-138 | records the method and its file, captures the request, sets both keys, and saves the snapshot into the last-request slot alone; it stops at an unknown method or a failed write |
| `Mock.MockResource.ExtractRequestData` | mock.py:140-148 | the captured data is the snapshot dict of the request and the recorded method |
| `Mock.MockResource.SaveRequestData` | mock.py:150-151 | the snapshot replaces whatever the last-request slot held and nothing else changes; on a failed write nothing changes |
| `Mock.MockResource.UpdateFilePaths` | mock.py:156-167 | the fixture key is built from the resolved path and the method file, and the snapshot key is the fixed one |
| `Mock.MockResource.GetResponse` | mock.py:169-183 | the response is the resolution of what the store reads at the fixture key |
| `Mock.ServeWritesOnlyLastRequest` | mock.py:132-138 | a request with a known method and a writable slot changes the store only at the last-request key; every other request leaves the store alone |
| `Mock.ServeReadsStoredFixture` | mock.py:128-130 | although the snapshot is written first, the response is what the fixture key held before the request |
| `Mock.ServeFallsBack` | mock.py:169-190 | with nothing usable at the fixture key, whether absent, `None` or an `IOError`, OPTIONS gets the preflight response and any other method the 405 response |
| `Mock.ServeFailsIff` | mock.py:128-183 | a request fails exactly for an unknown method, an unwritable slot, a fixture read raising something other than `IOError`, or a stored fixture that is neither `None` nor a dict (a stored `None` falls back to the default) |
| `Mock.LastRequestOverwritten` | mock.py:150-151 | after two requests the store is what the second alone makes of the original, so one snapshot is kept and there is no history |
| `Mock.ItemKey` | mock.py:156-167 | `/items/<id>` with `id=42` and GET reads the key `<root>/items/42/get.json` |
| `Mock.ItemFixtureServed` | mock.py:169-182 | that GET, with a widget fixture stored there, answers status 200 with the widget body |
| `Mock.ItemDeleteNotAllowed` | mock.py:169-190 | a DELETE to the same endpoint with nothing stored answers 405 `Method not implemented`, on either store |

## Left out

- The web framework is not modelled. That covers Flask / flask_restful routing and dispatch, the
  parsing behind `request.json`, `request.is_json` and `dict(request.headers)`, and the
  construction of `Response`. The request arrives as a `Capture.Request` value of given fields,
  and the response leaves as the `(payload, status, headers)` triple.
- `json.dumps`, `json.load` and `pickle` are not modelled as text or bytes. A `Response` carries
  the JSON value whose encoding is the body, and the store holds JSON values.
- The integer model of JSON omits floating-point numbers.
- Real file system and key-value server I/O are not modelled. What each key does on read or write
  is fixed by an `Environment` given up front. A successful write does not repair a key whose reads
  fail.
- `Config`, `load_json` of the endpoint list, `app.run` and the `__main__` bootstrap are startup
  glue. The root is a parameter, and the empty root of the key-value store is covered by the
  key-layout lemmas.
- `_log_request_data` and the two `app.logger.info` calls are side effects only.
- Concurrent requests and the last-writer-wins race on the shared last-request slot belong to the
  hosting server. The model serves one request at a time.
- The five handlers `get` … `options` are identical calls of `_process`. One `Process` models them
  all, and the method comes from the request as in the source.
- Typed path converters such as `<int:id>`, whose captured value is not a string, are not
  modelled: captured values are strings. In the source, `str.replace` raises `TypeError` at
  mock.py:164, before the snapshot is saved, so nothing is written. Decoding errors of the raw request
  body are not modelled either.
- `Mock.MockResource.constructor`: the per-request fields start as empty strings and JSON `null`
  instead of the class attributes' `None`.
