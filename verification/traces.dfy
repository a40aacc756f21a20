/**
  Properties of sequences of requests served one after another: the store
  stays well-formed, a key no request writes keeps its record, a successful
  write is what later reads observe, and a successful delete leaves the key
  absent for later reads and deletes.
 */
module Traces {
  import opened Values
  import opened Protocol
  import Utf8

  /** One request together with the engine failures that occur while serving it. */
  datatype Exchange = Exchange(request: Request, faults: Faults)

  /** The store after serving `trace` in order, starting from `db`. */
  function Run(db: Store, trace: seq<Exchange>): Store
    decreases |trace|
  {
    if trace == [] then db
    else Run(Serve(db, trace[0].request, trace[0].faults).store, trace[1..])
  }

  /** Can `req` change the record at `key`? Only a POST, PUT or DELETE of that path can. */
  predicate Writes(req: Request, key: string)
  {
    req.path == key && Route(req.verb) in {PostHandler, PutHandler, DeleteHandler}
  }

  /** No request of `trace` writes `key`. */
  predicate Avoids(trace: seq<Exchange>, key: string)
  {
    forall i :: 0 <= i < |trace| ==> !Writes(trace[i].request, key)
  }

  /** A GET of `path`; its body, JSON and header play no part. */
  function GetRequest(path: string): Request
  {
    Request("GET", path, None, None, "")
  }

  /** A DELETE of `path`. */
  function DeleteRequest(path: string): Request
  {
    Request("DELETE", path, None, None, "")
  }

  /** The record a POST or PUT stores when it succeeds. */
  function Written(req: Request): DataValue
    requires req.verb in {"POST", "PUT"}
    requires req.verb == "POST" ==> req.json.Some?
    requires req.verb == "PUT" ==> req.body.Some?
  {
    if req.verb == "POST" then req.json.value
    else DataValue("", RawContentType(req.contentType), req.body.value)
  }

  /** A successful POST or PUT stores exactly `Written(req)` at its path and changes no other key. */
  lemma WriteStores(db: Store, req: Request, faults: Faults)
    requires req.verb in {"POST", "PUT"}
    requires Serve(db, req, faults).response.status == StatusOK
    ensures req.path != ""
    ensures req.verb == "POST" ==> req.json.Some?
    ensures req.verb == "PUT" ==> req.body.Some?
    ensures Serve(db, req, faults).store == db[req.path := Written(req)]
  {
  }

  /** A request that does not write `key` leaves its record (or its absence) as it was. */
  lemma ServeKeeps(db: Store, req: Request, faults: Faults, key: string)
    requires !Writes(req, key)
    ensures Lookup(Serve(db, req, faults).store, key, false) == Lookup(db, key, false)
  {
  }

  /** Serving any trace keeps the store well-formed. */
  lemma {:induction false} RunKeepsWellFormed(db: Store, trace: seq<Exchange>)
    requires WellFormed(db)
    ensures WellFormed(Run(db, trace))
    decreases |trace|
  {
    if trace != [] {
      RunKeepsWellFormed(Serve(db, trace[0].request, trace[0].faults).store, trace[1..]);
    }
  }

  /**
    A key that no request of the trace writes keeps its record, or stays
    absent; in particular GET requests never change the store.
   */
  lemma {:induction false} RunKeeps(db: Store, trace: seq<Exchange>, key: string)
    requires Avoids(trace, key)
    ensures Lookup(Run(db, trace), key, false) == Lookup(db, key, false)
    decreases |trace|
  {
    if trace != [] {
      var next := Serve(db, trace[0].request, trace[0].faults).store;
      ServeKeeps(db, trace[0].request, trace[0].faults, key);
      assert Avoids(trace[1..], key) by {
        forall i | 0 <= i < |trace[1..]|
          ensures !Writes(trace[1..][i].request, key)
        {
          assert trace[1..][i] == trace[i + 1];
        }
      }
      RunKeeps(next, trace[1..], key);
    }
  }

  /**
    Read-your-writes: after a successful POST or PUT of a path, and any
    requests that do not write that path, a GET of the path that meets no
    engine failure answers 200 with the written record's content type and
    payload.
   */
  lemma ReadYourWrites(db: Store, write: Request, wf: Faults, trace: seq<Exchange>, gf: Faults)
    requires write.verb in {"POST", "PUT"}
    requires Serve(db, write, wf).response.status == StatusOK
    requires Avoids(trace, write.path)
    requires !gf.readFails
    ensures write.verb == "POST" ==> write.json.Some?
    ensures write.verb == "PUT" ==> write.body.Some?
    ensures var got := Serve(Run(Serve(db, write, wf).store, trace), GetRequest(write.path), gf).response;
            && got.status == StatusOK
            && got.contentType == Written(write).ContentType
            && got.body == Payload(ResponsePayload(Written(write)))
  {
    WriteStores(db, write, wf);
    var after := Serve(db, write, wf).store;
    RunKeeps(after, trace, write.path);
  }

  /**
    Delete visibility: after a successful DELETE of a path, and any requests
    that do not write that path, a GET or a second DELETE of the path that
    meets no engine failure answers 404 and changes nothing.
   */
  lemma DeleteIsFinal(db: Store, path: string, df: Faults, trace: seq<Exchange>, later: Request, lf: Faults)
    requires Serve(db, DeleteRequest(path), df).response.status == StatusOK
    requires Avoids(trace, path)
    requires later == GetRequest(path) || later == DeleteRequest(path)
    requires !lf.readFails
    ensures path in db
    ensures var before := Run(Serve(db, DeleteRequest(path), df).store, trace);
            && Serve(before, later, lf).response.status == StatusNotFound
            && Serve(before, later, lf).store == before
  {
    var after := Serve(db, DeleteRequest(path), df).store;
    assert path !in after;
    RunKeeps(after, trace, path);
  }

  /**
    Scenario: a POST of text "# hi" as text/markdown to "docs/readme" is
    read back by a GET as the four bytes of that text, with that type.
   */
  lemma TextRoundTrip(db: Store)
    ensures var post := Request("POST", "docs/readme", None,
                                Some(DataValue("# hi", "text/markdown", [])), "");
            var ok := Faults(false, false);
            var got := Serve(Serve(db, post, ok).store, GetRequest("docs/readme"), ok).response;
            got == Response(StatusOK, "text/markdown", Payload([0x23, 0x20, 0x68, 0x69]))
  {
    var text := "# hi";
    Utf8.EncodeAscii(text);
    ReadYourWrites(db, Request("POST", "docs/readme", None, Some(DataValue(text, "text/markdown", [])), ""),
                   Faults(false, false), [], Faults(false, false));
  }

  /**
    Scenario: a PUT of the four bytes of a PNG signature as image/png to
    "images/logo" is read back by a GET as the same bytes and type; the
    acknowledgement reports four bytes.
   */
  lemma BinaryRoundTrip(db: Store)
    ensures var bytes: seq<byte> := [0x89, 0x50, 0x4E, 0x47];
            var put := Request("PUT", "images/logo", Some(bytes), None, "image/png");
            var ok := Faults(false, false);
            var first := Serve(db, put, ok);
            && first.response.body == Ack("Data stored at path: images/logo", Some(4))
            && Serve(first.store, GetRequest("images/logo"), ok).response
               == Response(StatusOK, "image/png", Payload(bytes))
  {
  }
}
