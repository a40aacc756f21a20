/**
  The request handlers of main.go:82-217 as pure functions: given the store
  before a request, the request and the engine's failures during it, what
  response is sent and what the store holds afterwards. The methods of
  `Server.Server` are proved to compute exactly these outcomes.
 */
module Protocol {
  import opened Values
  import Utf8

  // Status codes of net/http used by the handlers.
  const StatusOK: nat := 200
  const StatusBadRequest: nat := 400
  const StatusNotFound: nat := 404
  const StatusMethodNotAllowed: nat := 405
  const StatusInternalServerError: nat := 500

  /** The Content-Type that http.Error gives every error response. */
  const PlainText := "text/plain; charset=utf-8"
  /** The Content-Type of the JSON acknowledgements of POST, PUT and DELETE. */
  const JsonType := "application/json"
  /** The content type PUT stores when the request has no Content-Type header. */
  const DefaultRawType := "application/octet-stream"

  /**
    One incoming request, after routing and body reading. `verb` is the
    HTTP method; `path` is the router's "path" variable (the URL path
    without its leading slash);
    `body` is the raw body, or None when reading it fails; `json` is the
    first JSON value of the body decoded as a DataValue, or None when Go's
    JSON decoder rejects the body (malformed, truncated or empty input, a
    field of the wrong type, `data` that is not base64); bytes after the
    first JSON value are ignored;
    `contentType` is the Content-Type header, "" when absent.
   */
  datatype Request = Request(
    verb: string,
    path: string,
    body: Option<seq<byte>>,
    json: Option<DataValue>,
    contentType: string)

  /**
    Which engine transactions fail while the request is served: the read
    transaction of getValue and the write transaction of storeValue or
    deleteValue. The engine decides this; the model takes it as input.
   */
  datatype Faults = Faults(readFails: bool, writeFails: bool)

  /**
    A response body: the raw bytes a GET writes, the text of an http.Error
    (which appends a newline), or a JSON acknowledgement
    {"status": "success", "message": message} that PUT extends with
    "size": "<size> bytes".
   */
  datatype Body =
    | Payload(bytes: seq<byte>)
    | ErrorText(text: string)
    | Ack(message: string, size: Option<nat>)

  datatype Response = Response(status: nat, contentType: string, body: Body)

  /** The response to a request and the store after it. */
  datatype Outcome = Outcome(response: Response, store: Store)

  /** The handler a method string selects (main.go:91-102). */
  datatype Handler = GetHandler | PostHandler | PutHandler | DeleteHandler | NoHandler

  /** The method name each handler answers to. */
  function MethodName(h: Handler): string
    requires h != NoHandler
  {
    match h
    case GetHandler => "GET"
    case PostHandler => "POST"
    case PutHandler => "PUT"
    case DeleteHandler => "DELETE"
  }

  /**
    Method dispatch: a method string selects the handler whose name it is,
    compared case-sensitively; any other string selects none.
   */
  function Route(verb: string): (h: Handler)
    ensures h != NoHandler ==> MethodName(h) == verb
    ensures h == NoHandler <==> verb !in {"GET", "POST", "PUT", "DELETE"}
  {
    if verb == "GET" then GetHandler
    else if verb == "POST" then PostHandler
    else if verb == "PUT" then PutHandler
    else if verb == "DELETE" then DeleteHandler
    else NoHandler
  }

  /** The content type PUT stores: the header if non-empty, else the default. */
  function RawContentType(header: string): (ct: string)
    ensures ct != ""
    ensures header != "" ==> ct == header
    ensures header == "" ==> ct == DefaultRawType
  {
    if header == "" then DefaultRawType else header
  }

  /**
    The body a GET sends for a record: the binary payload when it is
    non-empty, otherwise the bytes of the text, which decode back to the
    text exactly.
   */
  function ResponsePayload(v: DataValue): (r: seq<byte>)
    ensures |v.Data| > 0 ==> r == v.Data
    ensures |v.Data| == 0 ==> Utf8.Decode(r) == Some(v.Content)
    ensures r == [] <==> v.Data == [] && v.Content == ""
  {
    if |v.Data| > 0 then v.Data
    else
      Utf8.DecodeEncode(v.Content);
      Utf8.Encode(v.Content)
  }

  /** An http.Error response: plain text, the given status and message. */
  function Error(status: nat, message: string): Response
  {
    Response(status, PlainText, ErrorText(message))
  }

  function NotFoundMessage(path: string): string
  {
    "Path '" + path + "' not found"
  }

  /** handleGet (main.go:105-127): read the record and send its payload. */
  function ServeGet(db: Store, path: string, faults: Faults): (out: Outcome)
    ensures out.store == db
    ensures out.response.status == StatusNotFound <==> !faults.readFails && path !in db
    ensures out.response.status == StatusOK <==> !faults.readFails && path in db
    ensures faults.readFails ==> out.response.status == StatusInternalServerError
    ensures out.response.status == StatusOK ==>
              out.response.contentType == db[path].ContentType
              && out.response.body == Payload(ResponsePayload(db[path]))
  {
    match Lookup(db, path, faults.readFails)
    case Failure(KeyNotFound) => Outcome(Error(StatusNotFound, NotFoundMessage(path)), db)
    case Failure(_) => Outcome(Error(StatusInternalServerError, "Database error"), db)
    case Success(v) => Outcome(Response(StatusOK, v.ContentType, Payload(ResponsePayload(v))), db)
  }

  /**
    handlePost (main.go:129-156): store the decoded JSON record as it is,
    after rejecting malformed JSON and an empty content type.
   */
  function ServePost(db: Store, path: string, json: Option<DataValue>, faults: Faults): (out: Outcome)
    ensures json.None? ==> out.response.status == StatusBadRequest && out.store == db
    ensures json.Some? && json.value.ContentType == "" ==>
              out.response.status == StatusBadRequest && out.store == db
    ensures out.response.status == StatusOK <==>
              json.Some? && json.value.ContentType != "" && !faults.writeFails
    ensures out.response.status == StatusOK ==> out.store == db[path := json.value]
    ensures json.Some? && json.value.ContentType != "" && faults.writeFails ==>
              out.response.status == StatusInternalServerError
    ensures out.response.status != StatusOK ==> out.store == db
  {
    if json.None? then
      Outcome(Error(StatusBadRequest, "Invalid JSON"), db)
    else if json.value.ContentType == "" then
      Outcome(Error(StatusBadRequest, "content_type is required"), db)
    else if faults.writeFails then
      Outcome(Error(StatusInternalServerError, "Failed to store data"), db)
    else
      Outcome(Response(StatusOK, JsonType, Ack("Data stored at path: " + path, None)),
              db[path := json.value])
  }

  /**
    handlePut (main.go:158-191): store the raw body as binary data under the
    header's content type (or the default) and report its size.
   */
  function ServePut(db: Store, path: string, body: Option<seq<byte>>, header: string, faults: Faults): (out: Outcome)
    ensures out.response.status == StatusOK <==> body.Some? && !faults.writeFails
    ensures body.None? ==> out.response.status == StatusBadRequest
    ensures body.Some? && faults.writeFails ==> out.response.status == StatusInternalServerError
    ensures out.response.status == StatusOK ==>
              out.store == db[path := DataValue("", RawContentType(header), body.value)]
              && out.response.body.Ack? && out.response.body.size == Some(|body.value|)
    ensures out.response.status != StatusOK ==> out.store == db
  {
    if body.None? then
      Outcome(Error(StatusBadRequest, "Failed to read body"), db)
    else
      var value := DataValue("", RawContentType(header), body.value);
      if faults.writeFails then
        Outcome(Error(StatusInternalServerError, "Failed to store data"), db)
      else
        Outcome(Response(StatusOK, JsonType, Ack("Data stored at path: " + path, Some(|body.value|))),
                db[path := value])
  }

  /**
    handleDelete (main.go:193-217): check that the key exists, then remove
    it; an absent key is reported as not found without any write.
   */
  function ServeDelete(db: Store, path: string, faults: Faults): (out: Outcome)
    ensures out.response.status == StatusNotFound <==> !faults.readFails && path !in db
    ensures out.response.status == StatusOK <==> !faults.readFails && !faults.writeFails && path in db
    ensures faults.readFails ==> out.response.status == StatusInternalServerError
    ensures !faults.readFails && path in db && faults.writeFails ==>
              out.response.status == StatusInternalServerError
    ensures out.response.status == StatusOK ==> out.store == db - {path} && path !in out.store
    ensures out.response.status != StatusOK ==> out.store == db
  {
    match Lookup(db, path, faults.readFails)
    case Failure(KeyNotFound) => Outcome(Error(StatusNotFound, NotFoundMessage(path)), db)
    case Failure(_) => Outcome(Error(StatusInternalServerError, "Database error"), db)
    case Success(_) =>
      if faults.writeFails then
        Outcome(Error(StatusInternalServerError, "Failed to delete data"), db)
      else
        Outcome(Response(StatusOK, JsonType, Ack("Data deleted at path: " + path, None)), db - {path})
  }

  /**
    handlePath (main.go:82-103): reject an empty path, then dispatch on the
    method. Whatever happens, at most the record at the request's path
    changes, a failed request changes nothing, and a well-formed store stays
    well-formed.
   */
  function Serve(db: Store, req: Request, faults: Faults): (out: Outcome)
    ensures req.path == "" ==> out == Outcome(Error(StatusBadRequest, "Path is required"), db)
    ensures req.path != "" && Route(req.verb) == NoHandler ==>
              out == Outcome(Error(StatusMethodNotAllowed, "Method not allowed"), db)
    ensures req.path != "" && Route(req.verb) == GetHandler ==> out == ServeGet(db, req.path, faults)
    ensures req.path != "" && Route(req.verb) == PostHandler ==> out == ServePost(db, req.path, req.json, faults)
    ensures req.path != "" && Route(req.verb) == PutHandler ==>
              out == ServePut(db, req.path, req.body, req.contentType, faults)
    ensures req.path != "" && Route(req.verb) == DeleteHandler ==> out == ServeDelete(db, req.path, faults)
    ensures out.store - {req.path} == db - {req.path}
    ensures out.response.status != StatusOK ==> out.store == db
    ensures req.verb == "GET" ==> out.store == db
    ensures WellFormed(db) ==> WellFormed(out.store)
  {
    if req.path == "" then
      Outcome(Error(StatusBadRequest, "Path is required"), db)
    else
      match Route(req.verb)
      case GetHandler => ServeGet(db, req.path, faults)
      case PostHandler => ServePost(db, req.path, req.json, faults)
      case PutHandler => ServePut(db, req.path, req.body, req.contentType, faults)
      case DeleteHandler => ServeDelete(db, req.path, faults)
      case NoHandler => Outcome(Error(StatusMethodNotAllowed, "Method not allowed"), db)
  }
}
