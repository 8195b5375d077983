/**
  The tail-sampling event store: sampling decisions and trace events kept in
  one keyspace of the engine, written through one open transaction per
  ReadWriter with batched flushing, a storage quota checked on every flush, and
  read back by point lookup and by prefix scan.
 */
module EventStorage {
  import opened ByteKeys
  import opened Outcomes
  import opened Engine

  // ---------------------------------------------------------------------------
  // Entry meta bytes and key encoding. These must never change meaning, since
  // stored data depends on them.

  const MetaTraceSampled: byte := 0x73    // 's'
  const MetaTraceUnsampled: byte := 0x75  // 'u'
  const MetaTraceEvent: byte := 0x65      // 'e'

  /** The byte between a trace ID and an event ID in an event key. */
  const Separator: byte := 0x3A           // ':'

  /** The flush threshold on uncommitted writes. */
  const MaxPendingWrites := 200

  /** A decision is stored under the trace ID itself. */
  function DecisionKey(traceID: Key): (k: Key)
    ensures |k| == |traceID| && !HasPrefix(k, ScanPrefix(traceID))
  {
    traceID
  }

  /** An event is stored under the trace ID, the separator and the event ID. */
  function EventKey(traceID: Key, id: Key): (k: Key)
    ensures HasPrefix(k, ScanPrefix(traceID))
    ensures |k| == |traceID| + 1 + |id| && k[|traceID| + 1..] == id
  {
    traceID + [Separator] + id
  }

  /** The prefix a scan for one trace's events iterates over. */
  function ScanPrefix(traceID: Key): (p: Key)
    ensures |p| == |traceID| + 1 && HasPrefix(p, traceID) && p[|traceID|] == Separator
  {
    traceID + [Separator]
  }

  function DecisionMeta(sampled: bool): (m: byte)
    ensures (m == MetaTraceSampled) == sampled
    ensures m == MetaTraceSampled || m == MetaTraceUnsampled
  {
    if sampled then MetaTraceSampled else MetaTraceUnsampled
  }

  /** The entry a decision writes: no value, the decision's meta, the TTL. */
  function DecisionEntry(sampled: bool, ttl: int): (e: Entry)
    ensures e.value == [] && e.ttl == ttl && !e.IsDeletedOrExpired()
    ensures (e.meta == MetaTraceSampled) == sampled
    ensures !IsLiveEvent(e)
  {
    Entry([], DecisionMeta(sampled), ttl, false, false)
  }

  /** The entry an event writes: its encoding, the event meta, the TTL. */
  function EventEntry(data: seq<byte>, ttl: int): (e: Entry)
    ensures e.value == data && e.ttl == ttl && IsLiveEvent(e)
  {
    Entry(data, MetaTraceEvent, ttl, false, false)
  }

  /** A trace's decision key never equals one of its own event keys. */
  lemma DecisionKeyIsNotEventKey(traceID: Key, id: Key)
    ensures DecisionKey(traceID) != EventKey(traceID, id)
  {
  }

  /** When trace IDs contain no separator, no decision key is an event key. */
  lemma DecisionKeysAvoidEventKeys(traceID: Key, other: Key, id: Key)
    requires Separator !in other
    ensures DecisionKey(other) != EventKey(traceID, id)
  {
  }

  /** When trace IDs contain no separator, an event key determines its trace ID
      and event ID. */
  lemma EventKeyInjective(t1: Key, id1: Key, t2: Key, id2: Key)
    requires Separator !in t1 && Separator !in t2
    requires EventKey(t1, id1) == EventKey(t2, id2)
    ensures t1 == t2 && id1 == id2
  {
    var k := EventKey(t1, id1);
    assert k == t2 + [Separator] + id2;
    assert k[|t1|] == Separator && k[|t2|] == Separator;
    assert forall i :: 0 <= i < |t1| ==> k[i] == t1[i] != Separator;
    assert forall i :: 0 <= i < |t2| ==> k[i] == t2[i] != Separator;
    assert t1 == k[..|t1|] && t2 == k[..|t2|];
  }

  /** Trace isolation: when trace IDs contain no separator, the scan for `t2`
      covers an event key of `t1` exactly when the two traces are the same,
      also when one trace ID is a prefix of the other. */
  lemma ScanIsolation(t1: Key, id: Key, t2: Key)
    requires Separator !in t1 && Separator !in t2
    ensures HasPrefix(EventKey(t1, id), ScanPrefix(t2)) <==> t1 == t2
  {
    var k := EventKey(t1, id);
    var p := ScanPrefix(t2);
    if HasPrefix(k, p) {
      assert k[..|p|] == p;
      assert k[|t1|] == Separator && k[|t2|] == p[|t2|] == Separator;
      assert forall i :: 0 <= i < |t1| ==> k[i] == t1[i] != Separator;
      assert forall i :: 0 <= i < |t2| ==> k[i] == p[i] == t2[i] != Separator;
      assert t1 == k[..|t1|] && t2 == k[..|t2|];
    }
  }

  /** A decision key lies in a trace's event scan only if its trace ID holds
      the separator. */
  lemma DecisionInScanHasSeparator(traceID: Key, other: Key)
    ensures HasPrefix(DecisionKey(other), ScanPrefix(traceID)) ==> Separator in other
  {
    if HasPrefix(DecisionKey(other), ScanPrefix(traceID)) {
      assert other[|traceID|] == ScanPrefix(traceID)[|traceID|] == Separator;
    }
  }

  /** Trace IDs are not checked for the separator: with one inside, a decision
      key can equal an event key, and a scan can reach another trace's event. */
  lemma SeparatorInTraceIDCollides()
    ensures DecisionKey([0x61, Separator, 0x62]) == EventKey([0x61], [0x62])
    ensures HasPrefix(EventKey([0x61], [0x62, Separator, 0x63]), ScanPrefix([0x61, Separator, 0x62]))
  {
  }

  // ---------------------------------------------------------------------------
  // Codec and storage quota.

  /** The pluggable event codec, as a pair of functions. */
  datatype Codec<!Event> = Codec(encode: Event -> Result<seq<byte>>, decode: seq<byte> -> Result<Event>)

  /** The codec's promise for one event: its encoding decodes back to it. */
  ghost predicate RoundTrips<Event>(codec: Codec<Event>, event: Event) {
    codec.encode(event).Ok? && codec.decode(codec.encode(event).value) == Ok(event)
  }

  /** The quota actually enforced for a configured `limit`: 90% of it, rounded
      down, when above 1; 0 (no quota) and 1 pass through. */
  function EffectiveLimit(limit: int): (r: int)
    ensures limit <= 1 ==> r == limit
    ensures limit > 1 ==> 10 * r <= 9 * limit < 10 * r + 10
    ensures limit > 1 ==> 0 < r < limit
  {
    if limit > 1 then limit * 9 / 10 else limit
  }

  /** The quota test of `limitReached`, on the sizes the engine reports. */
  predicate LimitExceeded(limit: int, lsm: int, vlog: int) {
    limit != 0 && lsm + vlog >= limit
  }

  /** With a configured quota above 1 byte, flushing stops once the reported
      usage reaches 90% of it (and so before it reaches the quota itself), and
      not while the usage is more than one byte below that. */
  lemma QuotaTripsAtNinetyPercent(configured: int, lsm: int, vlog: int)
    requires configured > 1
    ensures 10 * (lsm + vlog) >= 9 * configured ==> LimitExceeded(EffectiveLimit(configured), lsm, vlog)
    ensures lsm + vlog >= configured ==> LimitExceeded(EffectiveLimit(configured), lsm, vlog)
    ensures LimitExceeded(EffectiveLimit(configured), lsm, vlog) ==> 10 * (lsm + vlog) > 9 * configured - 10
  {
  }

  // ---------------------------------------------------------------------------
  // What a scan for one trace's events returns.

  /** Entries the scan decodes: live, and tagged as events. Decisions and
      entries with unknown meta are skipped. */
  predicate IsLiveEvent(e: Entry) {
    !e.IsDeletedOrExpired() && e.meta == MetaTraceEvent
  }

  /** The keys of `ks`, in order, whose entries in `v` the scan decodes. */
  function LiveEventsIn(v: Store, ks: seq<Key>): seq<Key>
    decreases |ks|
  {
    if ks == [] then []
    else
      var rest := LiveEventsIn(v, ks[..|ks| - 1]);
      var last := ks[|ks| - 1];
      if last in v && IsLiveEvent(v[last]) then rest + [last] else rest
  }

  /** The filter keeps exactly the live events of `ks`, and keeps an ascending
      sequence ascending. */
  lemma {:induction false} LiveEventsInFilters(v: Store, ks: seq<Key>)
    ensures forall k :: k in LiveEventsIn(v, ks) <==> k in ks && k in v && IsLiveEvent(v[k])
    ensures Ascending(ks) ==> Ascending(LiveEventsIn(v, ks))
    decreases |ks|
  {
    if ks != [] {
      var init := ks[..|ks| - 1];
      var last := ks[|ks| - 1];
      LiveEventsInFilters(v, init);
      var rest := LiveEventsIn(v, init);
      assert ks == init + [last];
      if Ascending(ks) {
        forall j | 0 <= j < |rest|
          ensures LexLess(rest[j], last)
        {
          assert rest[j] in init;
        }
      }
    }
  }

  /** Filtering a prefix of the keys gives a prefix of the filtered keys. */
  lemma {:induction false} LiveEventsOfPrefix(v: Store, ks: seq<Key>, j: nat)
    requires j <= |ks|
    ensures |LiveEventsIn(v, ks[..j])| <= |LiveEventsIn(v, ks)|
    ensures LiveEventsIn(v, ks[..j]) == LiveEventsIn(v, ks)[..|LiveEventsIn(v, ks[..j])|]
    decreases |ks| - j
  {
    if j == |ks| {
      assert ks[..j] == ks;
    } else {
      var init := ks[..|ks| - 1];
      assert init[..j] == ks[..j];
      LiveEventsOfPrefix(v, init, j);
    }
  }

  /** The live event keys of one trace, in ascending key order. */
  ghost function TraceEventKeys(v: Store, traceID: Key): seq<Key> {
    SortedKeys(set k | k in v.Keys && HasPrefix(k, ScanPrefix(traceID)) && IsLiveEvent(v[k]))
  }

  /** Filtering an ascending enumeration of a trace's prefix keys gives the
      trace's live event keys. */
  lemma LiveEventsOfScan(v: Store, traceID: Key, keys: seq<Key>)
    requires Ascending(keys)
    requires forall k :: k in keys <==> k in v && HasPrefix(k, ScanPrefix(traceID))
    ensures LiveEventsIn(v, keys) == TraceEventKeys(v, traceID)
  {
    LiveEventsInFilters(v, keys);
    AscendingUnique(LiveEventsIn(v, keys), TraceEventKeys(v, traceID));
  }

  /** Every key of `ks` has an entry in `v` whose value the codec decodes. */
  predicate AllDecode<Event>(decode: seq<byte> -> Result<Event>, v: Store, ks: seq<Key>) {
    forall i :: 0 <= i < |ks| ==> ks[i] in v && decode(v[ks[i]].value).Ok?
  }

  /** The decoded values of the entries under `ks`, in the order of `ks`. */
  function DecodedEvents<Event>(decode: seq<byte> -> Result<Event>, v: Store, ks: seq<Key>): (r: seq<Event>)
    requires AllDecode(decode, v, ks)
    ensures |r| == |ks|
    ensures forall i :: 0 <= i < |ks| ==> r[i] == decode(v[ks[i]].value).value
    decreases |ks|
  {
    if ks == [] then []
    else
      assert AllDecode(decode, v, ks[..|ks| - 1]);
      DecodedEvents(decode, v, ks[..|ks| - 1]) + [decode(v[ks[|ks| - 1]].value).value]
  }

  /** A deleted event key disappears from its trace's events; every other event
      key of the trace stays, in the same order. */
  lemma DeleteHidesOnlyThatEvent(v: Store, traceID: Key, id: Key)
    ensures TraceEventKeys(v[EventKey(traceID, id) := Tombstone], traceID)
         == Without(TraceEventKeys(v, traceID), EventKey(traceID, id))
  {
    var k := EventKey(traceID, id);
    var v' := v[k := Tombstone];
    var s := set j | j in v.Keys && HasPrefix(j, ScanPrefix(traceID)) && IsLiveEvent(v[j]);
    var s' := set j | j in v'.Keys && HasPrefix(j, ScanPrefix(traceID)) && IsLiveEvent(v'[j]);
    assert s' == s - {k};
    SortedKeysRemove(s, k);
  }

  /** Writing an event of another trace (both IDs without separator) leaves a
      trace's events as they were. */
  lemma OtherTraceWriteInvisible(v: Store, t1: Key, id: Key, e: Entry, t2: Key)
    requires Separator !in t1 && Separator !in t2 && t1 != t2
    ensures TraceEventKeys(v[EventKey(t1, id) := e], t2) == TraceEventKeys(v, t2)
  {
    var k := EventKey(t1, id);
    var v' := v[k := e];
    ScanIsolation(t1, id, t2);
    var s := set j | j in v.Keys && HasPrefix(j, ScanPrefix(t2)) && IsLiveEvent(v[j]);
    var s' := set j | j in v'.Keys && HasPrefix(j, ScanPrefix(t2)) && IsLiveEvent(v'[j]);
    assert s' == s;
  }

  /** A scan that decoded every key of `ks` and appended the events, in the
      order of `ks`, to `out`. */
  ghost predicate ScanCompleted<Event>(decode: seq<byte> -> Result<Event>, v: Store, ks: seq<Key>, out: seq<Event>, batch: seq<Event>) {
    AllDecode(decode, v, ks) && batch == out + DecodedEvents(decode, v, ks)
  }

  /** A scan that decoded the keys of `ks` before `ks[n]`, appended those
      events to `out`, and stopped at `ks[n]`, which failed to decode with `e`. */
  ghost predicate ScanStopped<Event>(decode: seq<byte> -> Result<Event>, v: Store, ks: seq<Key>, out: seq<Event>, batch: seq<Event>, n: nat, e: Error) {
    && n < |ks| && ks[n] in v && AllDecode(decode, v, ks[..n])
    && decode(v[ks[n]].value) == Err(e)
    && batch == out + DecodedEvents(decode, v, ks[..n])
  }

  /** The whole outcome of a scan of `ks`: an error exactly when some key
      does not decode; without one, every event appended; with one, the scan
      stopped at the first key that does not decode. */
  ghost predicate ScanOutcome<Event>(decode: seq<byte> -> Result<Event>, v: Store, ks: seq<Key>, out: seq<Event>, batch: seq<Event>, err: Option<Error>) {
    && (err == None <==> AllDecode(decode, v, ks))
    && (err == None ==> ScanCompleted(decode, v, ks, out, batch))
    && (err != None ==> exists n :: ScanStopped(decode, v, ks, out, batch, n, err.value))
  }

  /** One more key of the scan adds it to the decoded keys when it is a live event. */
  lemma LiveEventsStep(v: Store, keys: seq<Key>, i: nat)
    requires i < |keys|
    ensures LiveEventsIn(v, keys[..i + 1])
         == LiveEventsIn(v, keys[..i]) + (if keys[i] in v && IsLiveEvent(v[keys[i]]) then [keys[i]] else [])
  {
    assert keys[..i + 1][..i] == keys[..i];
  }

  lemma DecodedEventsAppend<Event>(decode: seq<byte> -> Result<Event>, v: Store, ks: seq<Key>, k: Key)
    requires AllDecode(decode, v, ks) && k in v && decode(v[k].value).Ok?
    ensures AllDecode(decode, v, ks + [k])
    ensures DecodedEvents(decode, v, ks + [k]) == DecodedEvents(decode, v, ks) + [decode(v[k].value).value]
  {
  }

  /** Where the filter reaches the live event `keys[i]`, the keys kept so far
      are the first ones it keeps overall, and `keys[i]` is the next. */
  lemma FilterStopsAt(v: Store, keys: seq<Key>, i: nat)
    requires i < |keys| && keys[i] in v && IsLiveEvent(v[keys[i]])
    ensures var done, all := LiveEventsIn(v, keys[..i]), LiveEventsIn(v, keys);
      |done| < |all| && all[..|done|] == done && all[|done|] == keys[i]
  {
    LiveEventsStep(v, keys, i);
    LiveEventsOfPrefix(v, keys, i + 1);
    var done := LiveEventsIn(v, keys[..i]);
    var all := LiveEventsIn(v, keys);
    assert all[..|done| + 1] == done + [keys[i]];
    assert all[..|done|] == (done + [keys[i]])[..|done|];
  }

  /** A key the scan skips leaves the decoded keys as they were. */
  lemma SkipStep(v: Store, keys: seq<Key>, i: nat)
    requires i < |keys| && keys[i] in v && !IsLiveEvent(v[keys[i]])
    ensures LiveEventsIn(v, keys[..i + 1]) == LiveEventsIn(v, keys[..i])
  {
    LiveEventsStep(v, keys, i);
  }

  /** A live event that decodes extends the decoded prefix by its event. */
  lemma DecodeStep<Event>(decode: seq<byte> -> Result<Event>, v: Store, keys: seq<Key>, i: nat, out: seq<Event>, batch: seq<Event>)
    requires i < |keys| && keys[i] in v && IsLiveEvent(v[keys[i]]) && decode(v[keys[i]].value).Ok?
    requires AllDecode(decode, v, LiveEventsIn(v, keys[..i]))
    requires batch == out + DecodedEvents(decode, v, LiveEventsIn(v, keys[..i]))
    ensures AllDecode(decode, v, LiveEventsIn(v, keys[..i + 1]))
    ensures batch + [decode(v[keys[i]].value).value] == out + DecodedEvents(decode, v, LiveEventsIn(v, keys[..i + 1]))
  {
    LiveEventsStep(v, keys, i);
    DecodedEventsAppend(decode, v, LiveEventsIn(v, keys[..i]), keys[i]);
  }

  /** A live event that does not decode is where the scan stops. */
  lemma StopStep<Event>(decode: seq<byte> -> Result<Event>, v: Store, keys: seq<Key>, i: nat, out: seq<Event>, batch: seq<Event>)
    requires i < |keys| && keys[i] in v && IsLiveEvent(v[keys[i]]) && decode(v[keys[i]].value).Err?
    requires AllDecode(decode, v, LiveEventsIn(v, keys[..i]))
    requires batch == out + DecodedEvents(decode, v, LiveEventsIn(v, keys[..i]))
    ensures ScanOutcome(decode, v, LiveEventsIn(v, keys), out, batch, Some(decode(v[keys[i]].value).error))
  {
    FilterStopsAt(v, keys, i);
    assert ScanStopped(decode, v, LiveEventsIn(v, keys), out, batch, |LiveEventsIn(v, keys[..i])|, decode(v[keys[i]].value).error);
  }

  /** The decoding loop over the keys a prefix iterator yields: skips deleted,
      expired and non-event entries, decodes the others in order and appends
      them to `out`, and stops with the codec's error at the first one that
      does not decode. */
  method DecodeLiveEvents<Event>(decode: seq<byte> -> Result<Event>, v: Store, keys: seq<Key>, out: seq<Event>)
    returns (batch: seq<Event>, err: Option<Error>)
    requires forall k :: k in keys ==> k in v
    ensures ScanOutcome(decode, v, LiveEventsIn(v, keys), out, batch, err)
  {
    batch := out;
    var i := 0;
    assert keys[..0] == [];
    while i < |keys|
      invariant 0 <= i <= |keys|
      invariant AllDecode(decode, v, LiveEventsIn(v, keys[..i]))
      invariant batch == out + DecodedEvents(decode, v, LiveEventsIn(v, keys[..i]))
    {
      var k := keys[i];
      assert k in keys;
      var item := v[k];
      if item.IsDeletedOrExpired() || item.meta != MetaTraceEvent {
        SkipStep(v, keys, i);
        i := i + 1;
        continue;
      }
      var data := decode(item.value);
      if data.Err? {
        StopStep(decode, v, keys, i, out, batch);
        return batch, Some(data.error);
      }
      DecodeStep(decode, v, keys, i, out, batch);
      batch := batch + [data.value];
      i := i + 1;
    }
    assert keys[..i] == keys;
    err := None;
  }

  // ---------------------------------------------------------------------------
  // Storage and ReadWriter.

  /** The factory for ReadWriters, bound to an engine, a codec, a TTL and a quota. */
  class Storage<Event> {
    const db: DB
    const codec: Codec<Event>
    const ttl: int
    const limit: int

    /** `New`: a configured limit above 1 is enforced at 90%. */
    constructor New(db: DB, codec: Codec<Event>, ttl: int, limit: int)
      ensures this.db == db && this.codec == codec && this.ttl == ttl
      ensures this.limit == EffectiveLimit(limit)
    {
      this.db := db;
      this.codec := codec;
      this.ttl := ttl;
      this.limit := EffectiveLimit(limit);
    }

    /** Opens a ReadWriter on a fresh transaction. */
    method NewReadWriter() returns (rw: ReadWriter<Event>)
      ensures fresh(rw) && fresh(rw.txn) && rw.storage == this && rw.Valid()
      ensures rw.txn.pending == map[] && rw.txn.snapshot == db.committed && rw.pendingWrites == 0
    {
      rw := new ReadWriter(this);
    }

    /** `limitReached`: a quota of 0 is never reached; otherwise the quota is
        reached once the reported LSM and value-log sizes add up to it. */
    method LimitReached() returns (reached: bool)
      ensures reached == LimitExceeded(limit, db.lsmSize, db.vlogSize)
    {
      if limit == 0 {
        return false;
      }
      var lsm, vlog := db.Size();
      var current := lsm + vlog;
      reached := current >= limit;
    }
  }

  /** One open transaction with batched writes. Not safe for concurrent use:
      every operation on one trace ID goes through the same ReadWriter. */
  class ReadWriter<Event> {
    const storage: Storage<Event>
    var txn: Txn
    var pendingWrites: int

    /** The ReadWriter is open: its transaction belongs to its engine and has
        not been discarded. */
    ghost predicate Valid()
      reads this, txn
    {
      txn.db == storage.db && !txn.discarded && pendingWrites >= 0
    }

    /** What the engine would hold after a successful flush. */
    ghost function Merged(): Store
      reads this, txn, storage.db
    {
      storage.db.committed + txn.pending
    }

    /** No commit has happened since the transaction began, so its reads see
        exactly what a flush would leave in the engine. Every operation keeps
        this: a single ReadWriter is the only writer of its engine. */
    ghost predicate Current()
      reads this, txn, storage.db
    {
      txn.snapshot == storage.db.committed
    }

    lemma CurrentViewIsMerged()
      requires Current()
      ensures txn.View() == Merged()
    {
    }

    constructor (s: Storage<Event>)
      ensures storage == s && fresh(txn) && Valid()
      ensures txn.pending == map[] && txn.snapshot == s.db.committed && pendingWrites == 0
    {
      storage := s;
      txn := new Txn.Begin(s.db);
      pendingWrites := 0;
    }

    /** Discards the transaction; writes not flushed are lost. */
    method Close()
      modifies txn`discarded
      ensures txn.discarded && !Valid()
    {
      txn.Discard();
    }

    /** When the quota is reached, fails with ErrLimitReached and changes
        nothing. Otherwise commits the pending writes, and whether or not the
        commit succeeds, opens a fresh transaction and resets the counter. */
    method Flush() returns (err: Option<Error>)
      requires Valid()
      modifies this, txn, storage.db`committed
      ensures Valid()
      ensures LimitExceeded(storage.limit, storage.db.lsmSize, storage.db.vlogSize) ==>
        && err == Some(ErrLimitReached)
        && txn == old(txn) && txn.pending == old(txn.pending) && pendingWrites == old(pendingWrites)
        && storage.db.committed == old(storage.db.committed)
      ensures !LimitExceeded(storage.limit, storage.db.lsmSize, storage.db.vlogSize) ==>
        && fresh(txn) && txn.pending == map[] && txn.snapshot == storage.db.committed
        && pendingWrites == 0 && old(txn).discarded
        && (err == None || err == Some(ErrCommit))
        && (old(txn.pending) == map[] ==> err == None)
        && (err == None ==> storage.db.committed == old(Merged()))
        && (err != None ==> storage.db.committed == old(storage.db.committed))
    {
      var reached := storage.LimitReached();
      if reached {
        return Some(ErrLimitReached);
      }
      var commitErr := txn.Commit();
      txn := new Txn.Begin(storage.db);
      pendingWrites := 0;
      if commitErr != None {
        return commitErr;
      }
      return None;
    }

    /** The outcome of one `writeEntry` of `e` under `key`. On success the entry
        is visible, nothing written before is lost, and fewer than 200 writes
        are uncounted-for; ErrLimitReached leaves the old transaction in place;
        ErrCommit loses the uncommitted writes; ErrTxnTooBig comes only from
        the single retry on a fresh transaction after a successful flush; and
        with the quota reached nothing is committed. */
    twostate predicate WroteEntry(key: Key, e: Entry, new err: Option<Error>)
      reads this, txn, storage.db
    {
      && (err == None || err == Some(ErrLimitReached) || err == Some(ErrCommit) || err == Some(ErrTxnTooBig))
      && (err == None ==>
            && key in txn.View() && txn.View()[key] == e
            && Merged() == old(Merged())[key := e]
            && pendingWrites < MaxPendingWrites
            && (txn == old(txn) ==>
                  pendingWrites == old(pendingWrites) + 1
                  && txn.pending == old(txn.pending)[key := e]
                  && storage.db.committed == old(storage.db.committed))
            && (txn != old(txn) ==>
                  fresh(txn) && pendingWrites == 0 && txn.snapshot == storage.db.committed
                  && (txn.pending == map[] || txn.pending == map[key := e])
                  && (txn.pending == map[] ==>
                        storage.db.committed == old(Merged())[key := e] && old(pendingWrites) + 1 >= MaxPendingWrites)
                  && (txn.pending == map[key := e] ==> storage.db.committed == old(Merged()))))
      && (err == Some(ErrLimitReached) ==>
            && txn == old(txn) && pendingWrites == old(pendingWrites) + 1
            && storage.db.committed == old(storage.db.committed)
            && (txn.pending == old(txn.pending) || txn.pending == old(txn.pending)[key := e]))
      && (err == Some(ErrCommit) ==>
            fresh(txn) && txn.pending == map[] && pendingWrites == 0
            && storage.db.committed == old(storage.db.committed))
      && (err == Some(ErrTxnTooBig) ==>
            fresh(txn) && txn.pending == map[] && pendingWrites == 0
            && storage.db.committed == old(Merged()))
      && (LimitExceeded(storage.limit, storage.db.lsmSize, storage.db.vlogSize) ==>
            txn == old(txn) && storage.db.committed == old(storage.db.committed))
      && (old(Current()) ==> Current())
    }

    /** `writeEntry`: counts the write, flushes at 200 uncommitted writes, and
        when the transaction is too big flushes once and retries once. */
    method WriteEntry(key: Key, e: Entry) returns (err: Option<Error>)
      requires Valid()
      modifies this, txn, storage.db`committed
      ensures Valid()
      ensures WroteEntry(key, e, err)
    {
      ghost var merged0 := Merged();
      ghost var pending0 := txn.pending;
      pendingWrites := pendingWrites + 1;
      var setErr := txn.SetEntry(key, e);
      MergeUpdate(storage.db.committed, pending0, key, e);
      if pendingWrites >= MaxPendingWrites {
        ghost var merged1 := Merged();
        var flushErr := Flush();
        if flushErr != None {
          return flushErr;
        }
        MergeEmpty(storage.db.committed);
        assert Merged() == merged1;
      }
      if setErr != Some(ErrTxnTooBig) {
        return setErr;
      }
      var flushErr := Flush();
      if flushErr != None {
        return flushErr;
      }
      MergeEmpty(storage.db.committed);
      MergeUpdate(storage.db.committed, map[], key, e);
      err := txn.SetEntry(key, e);
    }

    /** Records the sampling decision for `traceID` under its decision key. */
    method WriteTraceSampled(traceID: Key, sampled: bool) returns (err: Option<Error>)
      requires Valid()
      modifies this, txn, storage.db`committed
      ensures Valid()
      ensures WroteEntry(DecisionKey(traceID), DecisionEntry(sampled, storage.ttl), err)
    {
      err := WriteEntry(DecisionKey(traceID), DecisionEntry(sampled, storage.ttl));
    }

    /** Reports the recorded decision for `traceID`, reading the transaction's
        own writes: ErrNotFound exactly when no live entry is under the key. */
    method IsTraceSampled(traceID: Key) returns (sampled: bool, err: Option<Error>)
      requires Valid()
      ensures err == None || err == Some(ErrNotFound)
      ensures err == Some(ErrNotFound) <==>
        DecisionKey(traceID) !in txn.View() || txn.View()[DecisionKey(traceID)].IsDeletedOrExpired()
      ensures err == None ==> sampled == (txn.View()[DecisionKey(traceID)].meta == MetaTraceSampled)
      ensures err != None ==> !sampled
    {
      var item := txn.Get(DecisionKey(traceID));
      if item == None {
        return false, Some(ErrNotFound);
      }
      return item.value.meta == MetaTraceSampled, None;
    }

    /** Encodes `event` and writes it under its event key; an encoding error is
        returned unchanged and nothing is written. */
    method WriteTraceEvent(traceID: Key, id: Key, event: Event) returns (err: Option<Error>)
      requires Valid()
      modifies this, txn, storage.db`committed
      ensures Valid()
      ensures storage.codec.encode(event).Err? ==>
        err == Some(storage.codec.encode(event).error)
        && txn == old(txn) && txn.pending == old(txn.pending) && pendingWrites == old(pendingWrites)
        && storage.db.committed == old(storage.db.committed)
      ensures storage.codec.encode(event).Ok? ==>
        WroteEntry(EventKey(traceID, id), EventEntry(storage.codec.encode(event).value, storage.ttl), err)
    {
      var key := EventKey(traceID, id);
      var data := storage.codec.encode(event);
      if data.Err? {
        return Some(data.error);
      }
      err := WriteEntry(key, EventEntry(data.value, storage.ttl));
    }

    /** Marks the event deleted in the open transaction; no retry and no count. */
    method DeleteTraceEvent(traceID: Key, id: Key) returns (err: Option<Error>)
      requires Valid()
      modifies txn`pending
      ensures Valid()
      ensures err == None || err == Some(ErrTxnTooBig)
      ensures err == None ==> txn.pending == old(txn.pending)[EventKey(traceID, id) := Tombstone]
      ensures err == None ==> txn.View() == old(txn.View())[EventKey(traceID, id) := Tombstone]
      ensures err != None ==> txn.pending == old(txn.pending)
    {
      var key := EventKey(traceID, id);
      MergeUpdate(txn.snapshot, txn.pending, key, Tombstone);
      err := txn.Delete(key);
    }

    /** Appends to `out` the decoded events of `traceID`, in ascending key
        order, as the transaction sees them. Fails with the codec's error at the
        first event that does not decode, keeping the events appended before it. */
    method ReadTraceEvents(traceID: Key, out: seq<Event>) returns (batch: seq<Event>, err: Option<Error>)
      requires Valid()
      ensures ScanOutcome(storage.codec.decode, txn.View(), TraceEventKeys(txn.View(), traceID), out, batch, err)
    {
      var v := txn.View();
      var keys := txn.Iterate(ScanPrefix(traceID));
      batch, err := DecodeLiveEvents(storage.codec.decode, v, keys, out);
      LiveEventsOfScan(v, traceID, keys);
    }
  }
}
