# flowerpot content store, modelled in Dafny

flowerpot is a small HTTP content store. A request to `/{path}` reads,
writes or deletes the record kept under `path` in an embedded Badger
key-value engine. A record (`DataValue`) holds text `Content`, a
`ContentType` and an optional binary `Data` payload.

- GET answers with the stored payload under the stored content type.
- POST stores a record decoded from a JSON body.
- PUT stores the raw body as binary data.
- DELETE removes a record after checking that it exists.

This project models that core in Dafny:

- `values.dfy`, module `Values`: the byte type, `DataValue`, the two error
  kinds the handlers tell apart (`KeyNotFound` and every other engine
  error), and the store as a `map<string, DataValue>`. `Lookup` specifies
  what a read transaction yields.
- `utf8.dfy`, module `Utf8`: Go's `[]byte(s)` conversion of a string, i.e.
  its UTF-8 encoding, with a decoder and the round trip
  `Decode(Encode(s)) == Some(s)`.
- `protocol.dfy`, module `Protocol`: each handler as a pure function from
  (store, request, engine failures) to (response, new store). Each
  function's contract states the handler's guarantees: status codes,
  what is stored, and what is left unchanged.
- `server.dfy`, module `Server`: the `Server` class. Its field `db` is
  the engine's contents. `StoreValue`, `DeleteValue` and `GetValue`
  update or read that field, and the handler methods are written as the
  source's early-return sequences. Each handler method is proved to
  produce exactly the outcome its `Protocol` function specifies.
  `InitializeSampleData` is the seeding loop.
- `traces.dfy`, module `Traces`: properties of requests served one after
  another. These are read-your-writes, delete visibility, keys that no
  request writes keeping their records, and the store staying
  well-formed.

Engine failures cannot be predicted from the code. They are inputs: a
`Faults` value says whether the request's read transaction and its write
transaction fail. A failed transaction writes nothing. A failing read
reports a non-`KeyNotFound` error even for an absent key, so every "404"
property is stated for a read that does not fail.

## Model

| member | source | states |
|---|---|---|
| `Values.Lookup` | main.go:235-254 | a read yields the record exactly when the key is present and the transaction does not fail; `KeyNotFound` exactly when the key is absent and the transaction does not fail; otherwise an engine error |
| `Utf8.DecodeEncode` | main.go:126 | the bytes `[]byte(Content)` that GET writes for text decode back to exactly `Content` |
| `Utf8.EncodeAscii` | main.go:126 | an ASCII string's bytes are its characters' codes, one byte each |
| `Protocol.Route` | main.go:91-102 | GET, POST, PUT and DELETE (case-sensitive) select their handler; every other method selects none |
| `Protocol.RawContentType` | main.go:166-170 | PUT's stored content type is never empty: the header when non-empty, `application/octet-stream` otherwise |
| `Protocol.ResponsePayload` | main.go:119-126 | GET's body is `Data` when non-empty, otherwise bytes that decode to `Content`; it is empty exactly when both are empty |
| `Protocol.ServeGet` | main.go:105-127 | GET never changes the store; 404 exactly when the key is absent and the read does not fail; 500 when the read fails; 200 exactly when it is present and the read does not fail, with the stored content type verbatim and the stored payload |
| `Protocol.ServePost` | main.go:129-156 | invalid JSON and an empty `content_type` give 400 with no write; a failed store gives 500; 200 exactly when the JSON is valid, has a content type, and the write does not fail, and then the decoded record replaces the path's record wholesale; any other outcome leaves the store unchanged |
| `Protocol.ServePut` | main.go:158-191 | an unreadable body gives 400 and a failed store 500; 200 exactly when the body was read and the write does not fail; then the stored record is `{Content: "", ContentType: header or default, Data: body}` and the reported size is the body's length; otherwise the store is unchanged |
| `Protocol.ServeDelete` | main.go:193-217 | 404 exactly when the key is absent and the read does not fail, with no delete; a failed read or, for a present key, a failed delete gives 500; 200 exactly when the key is present and neither transaction fails, and then the key is absent afterwards and every other key is unchanged |
| `Protocol.Serve` | main.go:82-103 | an empty path gives 400 and an unknown method gives 405, both without touching the store; GET, POST, PUT and DELETE of a non-empty path answer exactly as their handler; every request changes at most its own path's record; a non-200 response leaves the store unchanged; GET changes nothing; a well-formed store stays well-formed |
| `Server.Samples` | main.go:59-72 | the three sample records all have non-empty keys and content types |
| `Server.Server.constructor` | main.go:35 | the server starts over whatever the engine already holds |
| `Server.Server.StoreValue` | main.go:219-227 | on success the key maps to the new record, replacing any old one, and every other key is unchanged; on failure the store is unchanged and the error is returned |
| `Server.Server.DeleteValue` | main.go:229-233 | on success the key is absent and every other key is unchanged; on failure the store is unchanged |
| `Server.Server.GetValue` | main.go:235-254 | returns what `Lookup` specifies for the current store and changes nothing |
| `Server.Server.HandleGet` | main.go:105-127 | answers exactly as `ServeGet` specifies, without changing the store |
| `Server.Server.HandlePost` | main.go:129-156 | response and new store are exactly those of `ServePost` |
| `Server.Server.HandlePut` | main.go:158-191 | response and new store are exactly those of `ServePut` |
| `Server.Server.HandleDelete` | main.go:193-217 | response and new store are exactly those of `ServeDelete` |
| `Server.Server.HandlePath` | main.go:82-103 | response and new store are exactly those of `Serve`: only the request's path can change, only on 200, and well-formedness is kept |
| `Server.Server.InitializeSampleData` | main.go:57-80 | in any iteration order, every sample whose write succeeds is stored; keys whose write fails and all other keys keep their records; a well-formed store stays well-formed |
| `Traces.WriteStores` | main.go:145-148 | a successful POST or PUT stores exactly the record built from the request at its path, which is non-empty |
| `Traces.RunKeepsWellFormed` | main.go:82-217 | after any sequence of requests, no key is empty and no stored content type is empty |
| `Traces.RunKeeps` | main.go:82-217 | a key that no POST, PUT or DELETE of the sequence targets keeps its record or stays absent; GETs never change the store |
| `Traces.ReadYourWrites` | main.go:219-254 | after a successful POST or PUT, and requests that do not write the path, a GET with no read failure answers 200 with the written content type and payload; a later write to the same path wins |
| `Traces.DeleteIsFinal` | main.go:193-233 | after a successful DELETE, and requests that do not write the path, a GET or a second DELETE with no read failure answers 404 and changes nothing |
| `Traces.TextRoundTrip` | main.go:129-156 | POST `{"content": "# hi", "content_type": "text/markdown"}` then GET gives 200, `text/markdown` and the bytes 23 20 68 69 |
| `Traces.BinaryRoundTrip` | main.go:158-191 | PUT of the bytes 89 50 4E 47 as `image/png` reports 4 bytes; a GET then returns the same bytes and type |

## Left out

- Process bootstrap (main.go:24-55): opening and closing the engine, the router, the listener and console output. These are I/O.
- Badger internals: transactions, isolation, durability, on-disk layout. The engine is a map, and a transaction's failure is an input (`Faults`). Badger also refuses an empty key on write; no caller passes one, so `StoreValue` does not model that refusal.
- Byte strings that are not valid UTF-8. Paths, headers, `Content` and `ContentType` are Unicode strings here. A Go string, such as a Content-Type header value, may hold bytes that are not valid UTF-8. `json.Marshal` in storeValue (main.go:221) replaces such bytes with U+FFFD, so the record read back would differ from the one written. This model cannot express such input, and it does not model that replacement. `Traces.ReadYourWrites` therefore covers only values that are valid UTF-8.
- Concurrency between requests. Requests are served one at a time.
- JSON encoding and decoding. POST's decoded body is an input: `Request.json` is the body's first JSON value decoded as a `DataValue`, or `None` when Go's JSON decoder rejects the body (malformed, truncated or empty input, a field of the wrong type, `data` that is not base64). Bytes after the first JSON value are ignored, so such a body can still be stored with 200. The stored record is kept as a value, not as its JSON bytes. Go's nil and empty `Data` are both the empty sequence, matching the `omitempty` tag, which does not distinguish them either. No byte-level codec round trip is claimed.
- Response formatting. http.Error's trailing newline and its `X-Content-Type-Options` header are not modelled. The JSON acknowledgements are the `Ack` value, not their exact bytes, and PUT's size is a number, not the string `"<n> bytes"`.
- Logging (`log.Printf` when a sample write fails).
- Router behaviour beyond extracting `path`: path cleaning and redirects by gorilla/mux.
- The order in which Go iterates the sample map is an arbitrary choice in `InitializeSampleData`.
- A failing `io.ReadAll` in PUT is modelled as `Request.body == None`. POST reads its body through the JSON decoder, so there a read failure counts as invalid JSON.
