/**
  The values the content store keeps: a byte type, the Option and Result
  wrappers, the stored record `DataValue` (main.go:18-22), the error kinds a
  store operation can report, and the store itself as a map from path keys
  to records.
 */
module Values {

  /** An unsigned 8-bit value, the element type of Go's []byte. */
  newtype byte = b: int | 0 <= b < 256

  datatype Option<+T> = None | Some(value: T)

  datatype Result<+T, +E> = Success(value: T) | Failure(error: E)

  /**
    One stored record. `Data` holds a binary payload (written by PUT, or by a
    POST whose JSON carries a "data" field); `Content` holds text. Go's nil
    slice and empty slice are both the empty sequence here.
   */
  datatype DataValue = DataValue(Content: string, ContentType: string, Data: seq<byte>)

  /**
    The errors a store operation can report. `KeyNotFound` is Badger's
    ErrKeyNotFound, which the handlers compare against; every other engine or
    codec failure is `EngineError`.
   */
  datatype StoreError = KeyNotFound | EngineError

  /** The contents of the key-value engine, one record per path key. */
  type Store = map<string, DataValue>

  /**
    A store reachable through the HTTP handlers: no key is empty (the
    handlers reject an empty path) and no record has an empty content type
    (POST rejects it and PUT substitutes a default).
   */
  ghost predicate WellFormed(db: Store)
  {
    forall k :: k in db ==> k != "" && db[k].ContentType != ""
  }

  /**
    What a read transaction for `key` yields: the record, or KeyNotFound
    when no record exists, or EngineError when the transaction itself fails
    (`readFails`, decided by the engine outside this model).
   */
  function Lookup(db: Store, key: string, readFails: bool): (r: Result<DataValue, StoreError>)
    ensures r.Success? <==> !readFails && key in db
    ensures r.Success? ==> r.value == db[key]
    ensures r == Failure(KeyNotFound) <==> !readFails && key !in db
  {
    if readFails then Failure(EngineError)
    else if key in db then Success(db[key])
    else Failure(KeyNotFound)
  }
}
