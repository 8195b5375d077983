/**
  End-to-end uses of the event store, each on an engine of its own: what a
  ReadWriter reads back after its own writes, before and after a flush; that
  a write not yet flushed is lost when its ReadWriter is closed, as the next
  ReadWriter shows; and what a full quota does to a flush.
 */
module EventStorageScenarios {
  import opened ByteKeys
  import opened Outcomes
  import opened Engine
  import opened EventStorage

  /** The least TTL the configuration accepts (one second, in nanoseconds).
      Written entries never expire in this model, so the read-backs below
      assume a TTL the configuration allows and reads made before it elapses. */
  const MinTTL := 1_000_000_000

  /** A decision written through a ReadWriter is read back by the same
      ReadWriter at once, and again after a flush unless the commit failed
      (a flush refused by the quota keeps the transaction and so the decision). */
  method DecisionReadBack<Event>(codec: Codec<Event>, initial: Store, lsm: int, vlog: int, limit: int, ttl: int,
                                 traceID: Key, sampled: bool)
    returns (writeErr: Option<Error>, before: bool, beforeErr: Option<Error>,
             flushErr: Option<Error>, after: bool, afterErr: Option<Error>)
    requires ttl >= MinTTL
    ensures writeErr == None ==> beforeErr == None && before == sampled
    ensures writeErr == None && flushErr != Some(ErrCommit) ==> afterErr == None && after == sampled
  {
    var db := new DB.Open(initial, lsm, vlog);
    var s := new Storage.New(db, codec, ttl, limit);
    var rw := s.NewReadWriter();
    var key, e := DecisionKey(traceID), DecisionEntry(sampled, ttl);
    writeErr := rw.WriteTraceSampled(traceID, sampled);
    before, beforeErr := rw.IsTraceSampled(traceID);
    ghost var merged := rw.Merged();
    assert writeErr == None ==> key in merged && merged[key] == e;
    flushErr := rw.Flush();
    assert writeErr == None && flushErr != Some(ErrCommit) ==> key in rw.txn.View() && rw.txn.View()[key] == e;
    after, afterErr := rw.IsTraceSampled(traceID);
  }

  /** On an empty engine, an event written through a ReadWriter whose codec
      round-trips it is the one event the scan of its trace appends. */
  method EventReadBack<Event>(codec: Codec<Event>, lsm: int, vlog: int, limit: int, ttl: int,
                              traceID: Key, id: Key, event: Event, out: seq<Event>)
    returns (writeErr: Option<Error>, batch: seq<Event>, readErr: Option<Error>)
    requires ttl >= MinTTL
    requires RoundTrips(codec, event)
    ensures writeErr == None ==> readErr == None && batch == out + [event]
  {
    var db := new DB.Open(map[], lsm, vlog);
    var s := new Storage.New(db, codec, ttl, limit);
    var rw := s.NewReadWriter();
    var key := EventKey(traceID, id);
    MergeEmpty(map[]);
    writeErr := rw.WriteTraceEvent(traceID, id, event);
    if writeErr == None {
      rw.CurrentViewIsMerged();
      OnlyEventScanned(rw.txn.View(), traceID, key);
    }
    batch, readErr := rw.ReadTraceEvents(traceID, out);
  }

  /** On an empty engine, an event written and then deleted in the same
      transaction is not read back. */
  method DeletedEventNotRead<Event>(codec: Codec<Event>, lsm: int, vlog: int, limit: int, ttl: int,
                                    traceID: Key, id: Key, event: Event, out: seq<Event>)
    returns (writeErr: Option<Error>, deleteErr: Option<Error>, batch: seq<Event>, readErr: Option<Error>)
    ensures writeErr == None && deleteErr == None ==> readErr == None && batch == out
  {
    var db := new DB.Open(map[], lsm, vlog);
    var s := new Storage.New(db, codec, ttl, limit);
    var rw := s.NewReadWriter();
    var key := EventKey(traceID, id);
    MergeEmpty(map[]);
    writeErr := rw.WriteTraceEvent(traceID, id, event);
    rw.CurrentViewIsMerged();
    ghost var snapshot, pending := rw.txn.snapshot, rw.txn.pending;
    deleteErr := rw.DeleteTraceEvent(traceID, id);
    MergeUpdate(snapshot, pending, key, Tombstone);
    if writeErr == None && deleteErr == None {
      NothingScanned(rw.txn.View(), traceID, key);
    }
    batch, readErr := rw.ReadTraceEvents(traceID, out);
  }

  /** With the reported usage at or above the enforced quota, a flush keeps
      every write uncommitted: the engine still holds what it held. */
  method FullQuotaKeepsEngine<Event>(codec: Codec<Event>, initial: Store, lsm: int, vlog: int, limit: int, ttl: int,
                                     traceID: Key, sampled: bool)
    returns (flushErr: Option<Error>, committed: Store)
    requires LimitExceeded(EffectiveLimit(limit), lsm, vlog)
    ensures flushErr == Some(ErrLimitReached) && committed == initial
  {
    var db := new DB.Open(initial, lsm, vlog);
    var s := new Storage.New(db, codec, ttl, limit);
    var rw := s.NewReadWriter();
    var writeErr := rw.WriteTraceSampled(traceID, sampled);
    flushErr := rw.Flush();
    committed := db.committed;
  }

  /** The first write on a new ReadWriter is never committed by the write
      itself (the automatic flush waits for 200 writes, and a retry leaves
      the entry pending), so once that ReadWriter is closed, the next one sees
      exactly what the engine held before, whatever the write returned. */
  method UnflushedWriteLostAtClose<Event>(codec: Codec<Event>, initial: Store, lsm: int, vlog: int, limit: int, ttl: int,
                                       traceID: Key, sampled: bool)
    returns (writeErr: Option<Error>, view: Store)
    ensures view == initial
  {
    var db := new DB.Open(initial, lsm, vlog);
    var s := new Storage.New(db, codec, ttl, limit);
    var rw := s.NewReadWriter();
    MergeEmpty(initial);
    writeErr := rw.WriteTraceSampled(traceID, sampled);
    rw.Close();
    var next := s.NewReadWriter();
    MergeEmpty(db.committed);
    view := next.txn.View();
  }

  /** A view holding only a tombstone scans to nothing. */
  lemma NothingScanned(v: Store, traceID: Key, key: Key)
    requires v.Keys == {key} && v[key] == Tombstone
    ensures TraceEventKeys(v, traceID) == []
  {
  }

  /** A view holding one live event scans to exactly that event key. */
  lemma OnlyEventScanned(v: Store, traceID: Key, key: Key)
    requires v.Keys == {key} && HasPrefix(key, ScanPrefix(traceID)) && IsLiveEvent(v[key])
    ensures TraceEventKeys(v, traceID) == [key]
  {
    var live := set k | k in v.Keys && HasPrefix(k, ScanPrefix(traceID)) && IsLiveEvent(v[k]);
    assert live == {key};
    SortedSingleton(key);
  }
}
