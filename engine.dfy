/**
  An abstract ordered key-value engine with transactions, standing for the
  badger database the event store is built on. Only what the store observes is
  modelled: the committed entries, the approximate on-disk sizes the engine
  reports, transactions that read a snapshot plus their own pending writes, and
  the two ways the engine may refuse work (a transaction that is too big, a
  commit that fails), which are left as non-deterministic choices.
 */
module Engine {
  import opened ByteKeys
  import opened Outcomes

  /** An entry: its value, the user meta byte, its TTL in nanoseconds, and
      whether it is a deletion marker or has expired. */
  datatype Entry = Entry(value: seq<byte>, meta: byte, ttl: int, deleted: bool, expired: bool)
  {
    predicate IsDeletedOrExpired() {
      deleted || expired
    }
  }

  /** What a delete writes: a marker that hides the key. */
  const Tombstone := Entry([], 0, 0, true, false)

  type Store = map<Key, Entry>

  /** Writing over a merge writes over the result. */
  lemma MergeUpdate(base: Store, writes: Store, k: Key, e: Entry)
    ensures base + writes[k := e] == (base + writes)[k := e]
  {
  }

  lemma MergeEmpty(base: Store)
    ensures base + map[] == base
  {
  }

  class DB {
    /** Entries committed so far; entries may carry the expired flag, but no
        operation here sets it. */
    var committed: Store
    /** The sizes of the LSM tree and of the value log, as last reconciled by the
        engine; they lag the real usage and are set from outside. */
    var lsmSize: int
    var vlogSize: int

    constructor Open(initial: Store, lsm: int, vlog: int)
      ensures committed == initial && lsmSize == lsm && vlogSize == vlog
    {
      committed, lsmSize, vlogSize := initial, lsm, vlog;
    }

    method Size() returns (lsm: int, vlog: int)
      ensures lsm == lsmSize && vlog == vlogSize
    {
      lsm, vlog := lsmSize, vlogSize;
    }
  }

  /** A read-write transaction (`db.NewTransaction(true)`). */
  class Txn {
    const db: DB
    /** The committed entries as they were when the transaction began. */
    const snapshot: Store
    /** Writes not yet committed; deletions are tombstones. */
    var pending: Store
    var discarded: bool

    constructor Begin(db: DB)
      ensures this.db == db && snapshot == db.committed
      ensures pending == map[] && !discarded
    {
      this.db := db;
      snapshot := db.committed;
      pending := map[];
      discarded := false;
    }

    /** What reads in this transaction see: its own writes over the snapshot. */
    function View(): Store
      reads this
    {
      snapshot + pending
    }

    /** Point lookup; a missing, deleted or expired key is not found. */
    method Get(key: Key) returns (item: Option<Entry>)
      requires !discarded
      ensures item.Some? <==> key in View() && !View()[key].IsDeletedOrExpired()
      ensures item.Some? ==> item.value == View()[key]
    {
      var v := View();
      if key in v && !v[key].IsDeletedOrExpired() {
        item := Some(v[key]);
      } else {
        item := None;
      }
    }

    /** Upserts `e` under `key`, unless the engine finds the transaction too big. */
    method SetEntry(key: Key, e: Entry) returns (err: Option<Error>)
      requires !discarded
      modifies this`pending
      ensures err == None || err == Some(ErrTxnTooBig)
      ensures err == None ==> pending == old(pending)[key := e]
      ensures err != None ==> pending == old(pending)
    {
      var tooBig: bool :| true;
      if tooBig {
        err := Some(ErrTxnTooBig);
      } else {
        pending := pending[key := e];
        err := None;
      }
    }

    /** Marks `key` deleted, unless the engine finds the transaction too big. */
    method Delete(key: Key) returns (err: Option<Error>)
      requires !discarded
      modifies this`pending
      ensures err == None || err == Some(ErrTxnTooBig)
      ensures err == None ==> pending == old(pending)[key := Tombstone]
      ensures err != None ==> pending == old(pending)
    {
      err := SetEntry(key, Tombstone);
    }

    /** Commits the pending writes all at once and ends the transaction; a
        transaction without writes always commits. */
    method Commit() returns (err: Option<Error>)
      requires !discarded
      modifies this`discarded, db`committed
      ensures discarded
      ensures err == None || err == Some(ErrCommit)
      ensures pending == map[] ==> err == None
      ensures err == None ==> db.committed == old(db.committed) + pending
      ensures err != None ==> db.committed == old(db.committed)
    {
      err := None;
      if pending != map[] {
        var fails: bool :| true;
        if fails {
          err := Some(ErrCommit);
        } else {
          db.committed := db.committed + pending;
        }
      }
      discarded := true;
    }

    /** Drops the transaction and its pending writes. */
    method Discard()
      modifies this`discarded
      ensures discarded
    {
      discarded := true;
    }

    /** The keys a prefix iterator visits: every key of the view that starts
        with `prefix`, deleted and expired ones included, in ascending order. */
    method Iterate(prefix: Key) returns (keys: seq<Key>)
      requires !discarded
      ensures Ascending(keys)
      ensures forall k :: k in keys <==> k in View() && HasPrefix(k, prefix)
    {
      var v := View();
      var rest := set k | k in v.Keys && HasPrefix(k, prefix);
      ghost var all := rest;
      keys := [];
      while rest != {}
        invariant rest <= all
        invariant Ascending(keys)
        invariant forall k :: k in all <==> k in keys || k in rest
        invariant forall k :: k in keys ==> k !in rest
        invariant forall i, r :: 0 <= i < |keys| && r in rest ==> LexLess(keys[i], r)
        decreases rest
      {
        LeastExists(rest);
        var m :| m in rest && forall k :: k in rest && k != m ==> LexLess(m, k);
        keys := keys + [m];
        rest := rest - {m};
      }
    }
  }
}
