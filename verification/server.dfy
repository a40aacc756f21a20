/**
  The `Server` of main.go:14-16 with its state made explicit: the contents
  of the key-value engine as a map field, updated in place by the store
  operations (main.go:219-254) and, through them, by the request handlers
  (main.go:82-217), each proved to do what `Protocol` says.
 */
module Server {
  import opened Values
  import opened Protocol
  import Utf8

  /** The records that initializeSampleData writes (main.go:59-72). */
  function Samples(): (m: Store)
    ensures WellFormed(m)
  {
    map[
      "alphabet/soup" := DataValue("Delicious alphabet soup recipe", "text/plain", []),
      "config/settings.json" := DataValue("{\"theme\": \"dark\", \"language\": \"en\"}", "application/json", []),
      "docs/readme" := DataValue("# Welcome to the API\n\nThis is a sample readme file.", "text/markdown", [])
    ]
  }

  /** `db` overwritten by every record of `records` whose key is not in `failing`. */
  function Overlay(db: Store, records: Store, failing: set<string>): (r: Store)
    ensures forall k :: k in records && k !in failing ==> k in r && r[k] == records[k]
    ensures r.Keys == db.Keys + (records.Keys - failing)
    ensures forall k :: k in db && (k !in records || k in failing) ==> r[k] == db[k]
  {
    db + (map k | k in records && k !in failing :: records[k])
  }

  /** Writing one more pending record, unless its write fails, extends the overlay by that record. */
  lemma OverlayStep(base: Store, records: Store, failing: set<string>, pending: set<string>, key: string)
    requires key in pending && key in records
    ensures var before := Overlay(base, records, failing + pending);
            var after := Overlay(base, records, failing + (pending - {key}));
            after == (if key in failing then before else before[key := records[key]])
  {
  }

  /** Overlaying records that all fail changes nothing. */
  lemma OverlayNothing(base: Store, records: Store, failing: set<string>)
    requires records.Keys <= failing
    ensures Overlay(base, records, failing) == base
  {
    var r := Overlay(base, records, failing);
    assert r.Keys == base.Keys;
  }

  /** Overlaying well-formed records on a well-formed store keeps it well-formed. */
  lemma OverlayWellFormed(db: Store, records: Store, failing: set<string>)
    requires WellFormed(db) && WellFormed(records)
    ensures WellFormed(Overlay(db, records, failing))
  {
  }

  class Server {
    /** The engine's contents: every key with the record stored under it. */
    var db: Store

    /** A server over an engine that already holds `persisted` (the data directory survives restarts). */
    constructor (persisted: Store)
      ensures db == persisted
    {
      db := persisted;
    }

    /**
      storeValue (main.go:219-227): one write transaction that sets `key` to
      `value`, replacing any previous record wholesale. When the transaction
      fails nothing is written and the error is returned.
     */
    method StoreValue(key: string, value: DataValue, writeFails: bool) returns (err: Option<StoreError>)
      modifies this
      ensures err == (if writeFails then Some(EngineError) else None)
      ensures db == (if writeFails then old(db) else old(db)[key := value])
    {
      if writeFails {
        return Some(EngineError);
      }
      db := db[key := value];
      return None;
    }

    /**
      deleteValue (main.go:229-233): one write transaction that removes
      `key`; removing an absent key is not an error.
     */
    method DeleteValue(key: string, writeFails: bool) returns (err: Option<StoreError>)
      modifies this
      ensures err == (if writeFails then Some(EngineError) else None)
      ensures db == (if writeFails then old(db) else old(db) - {key})
    {
      if writeFails {
        return Some(EngineError);
      }
      db := db - {key};
      return None;
    }

    /**
      getValue (main.go:235-254): one read transaction that returns the
      record at `key`, KeyNotFound when there is none, or EngineError when
      the transaction fails. It changes nothing.
     */
    method GetValue(key: string, readFails: bool) returns (r: Result<DataValue, StoreError>)
      ensures r == Lookup(db, key, readFails)
    {
      if readFails {
        return Failure(EngineError);
      }
      if key !in db {
        return Failure(KeyNotFound);
      }
      return Success(db[key]);
    }

    /** handleGet (main.go:105-127). */
    method HandleGet(path: string, faults: Faults) returns (resp: Response)
      ensures resp == ServeGet(db, path, faults).response
    {
      var value := GetValue(path, faults.readFails);
      if value.Failure? {
        if value.error == KeyNotFound {
          return Error(StatusNotFound, NotFoundMessage(path));
        }
        return Error(StatusInternalServerError, "Database error");
      }
      var v := value.value;
      if |v.Data| > 0 {
        return Response(StatusOK, v.ContentType, Payload(v.Data));
      }
      return Response(StatusOK, v.ContentType, Payload(Utf8.Encode(v.Content)));
    }

    /** handlePost (main.go:129-156). */
    method HandlePost(path: string, json: Option<DataValue>, faults: Faults) returns (resp: Response)
      modifies this
      ensures Outcome(resp, db) == ServePost(old(db), path, json, faults)
    {
      if json.None? {
        return Error(StatusBadRequest, "Invalid JSON");
      }
      var value := json.value;
      if value.ContentType == "" {
        return Error(StatusBadRequest, "content_type is required");
      }
      var err := StoreValue(path, value, faults.writeFails);
      if err.Some? {
        return Error(StatusInternalServerError, "Failed to store data");
      }
      return Response(StatusOK, JsonType, Ack("Data stored at path: " + path, None));
    }

    /** handlePut (main.go:158-191). */
    method HandlePut(path: string, body: Option<seq<byte>>, header: string, faults: Faults) returns (resp: Response)
      modifies this
      ensures Outcome(resp, db) == ServePut(old(db), path, body, header, faults)
    {
      if body.None? {
        return Error(StatusBadRequest, "Failed to read body");
      }
      var contentType := header;
      if contentType == "" {
        contentType := DefaultRawType;
      }
      var value := DataValue("", contentType, body.value);
      var err := StoreValue(path, value, faults.writeFails);
      if err.Some? {
        return Error(StatusInternalServerError, "Failed to store data");
      }
      return Response(StatusOK, JsonType, Ack("Data stored at path: " + path, Some(|body.value|)));
    }

    /** handleDelete (main.go:193-217). */
    method HandleDelete(path: string, faults: Faults) returns (resp: Response)
      modifies this
      ensures Outcome(resp, db) == ServeDelete(old(db), path, faults)
    {
      var existing := GetValue(path, faults.readFails);
      if existing.Failure? {
        if existing.error == KeyNotFound {
          return Error(StatusNotFound, NotFoundMessage(path));
        }
        return Error(StatusInternalServerError, "Database error");
      }
      var err := DeleteValue(path, faults.writeFails);
      if err.Some? {
        return Error(StatusInternalServerError, "Failed to delete data");
      }
      return Response(StatusOK, JsonType, Ack("Data deleted at path: " + path, None));
    }

    /**
      handlePath (main.go:82-103): one request. At most the record at the
      request's path changes, and only when the response is 200.
     */
    method HandlePath(req: Request, faults: Faults) returns (resp: Response)
      modifies this
      ensures Outcome(resp, db) == Serve(old(db), req, faults)
      ensures db - {req.path} == old(db) - {req.path}
      ensures resp.status != StatusOK ==> db == old(db)
      ensures WellFormed(old(db)) ==> WellFormed(db)
    {
      if req.path == "" {
        return Error(StatusBadRequest, "Path is required");
      }
      match req.verb {
        case "GET" =>
          resp := HandleGet(req.path, faults);
        case "POST" =>
          resp := HandlePost(req.path, req.json, faults);
        case "PUT" =>
          resp := HandlePut(req.path, req.body, req.contentType, faults);
        case "DELETE" =>
          resp := HandleDelete(req.path, faults);
        case _ =>
          resp := Error(StatusMethodNotAllowed, "Method not allowed");
      }
    }

    /**
      initializeSampleData (main.go:57-80): store each sample record, in
      whatever order the map yields them; a failed write is only logged, so
      the samples whose write fails (`failing`) leave their keys as they were.
     */
    method InitializeSampleData(failing: set<string>)
      modifies this
      ensures db == Overlay(old(db), Samples(), failing)
      ensures WellFormed(old(db)) ==> WellFormed(db)
    {
      var samples := Samples();
      var pending := samples.Keys;
      OverlayNothing(db, samples, failing + pending);
      while pending != {}
        invariant pending <= samples.Keys
        invariant db == Overlay(old(db), samples, failing + pending)
        decreases pending
      {
        var key :| key in pending;
        OverlayStep(old(db), samples, failing, pending, key);
        var err := StoreValue(key, samples[key], key in failing);
        pending := pending - {key};
      }
      assert failing + pending == failing;
      if WellFormed(old(db)) {
        OverlayWellFormed(old(db), samples, failing);
      }
    }
  }
}
