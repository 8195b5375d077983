# Tail-sampling event storage and its configuration

This project models two parts of the APM Server tail-based sampler.

**The event store.** `Storage` and `ReadWriter` hold two kinds of record in one keyspace of an ordered key-value engine (badger):

- **Sampling decisions.** The key is the trace ID itself. The value is empty. The meta byte is `'s'` (sampled) or `'u'` (unsampled).
- **Trace events.** The key is the trace ID, a `':'` and the event ID. The value is the encoded event. The meta byte is `'e'`.

A `ReadWriter` has these parts:

- **One open transaction.** Its reads see the transaction's own writes.
- **A pending-write counter.** At 200 uncommitted writes it flushes.
- **A storage quota.** `Flush` checks it before committing. The quota is 90% of the configured limit.
- **One flush-and-retry.** It runs when the engine reports the transaction is too big.

Events are read back by a prefix scan over `traceID + ':'`. The scan skips these entries:

- deleted or expired entries;
- entries whose meta is not `'e'`.

It fails at the first event that does not decode. The events decoded before that point stay appended.

**The tail-sampling configuration.** This part covers the policy record, the defaults, and `Validate`. An enabled configuration must have at least one policy. At least one of its policies must have all four match criteria empty.

## Layout

| file | module | contents |
|---|---|---|
| `bytekeys.dfy` | `ByteKeys` | bytes, keys, the `bytes.Compare` order, the sorted enumeration of a key set |
| `outcomes.dfy` | `Outcomes` | `Option`, `Result`, the store's `Error` datatype |
| `engine.dfy` | `Engine` | the engine: a `DB` class (committed entries and reported sizes) and a `Txn` class (snapshot plus pending writes) |
| `eventstorage.dfy` | `EventStorage` | meta constants, key encoding, the codec, the quota, the specification of the scan, and the `Storage` and `ReadWriter` classes |
| `scenarios.dfy` | `EventStorageScenarios` | end-to-end uses of the `ReadWriter`, each on an engine of its own: read-backs, the write lost at `Close`, a full quota |
| `samplingconfig.dfy` | `SamplingConfig` | policies, `Validate`, `defaultTailSamplingConfig` |

## Engine and environment

The engine is modelled by what the store can observe:

- **Committed store.** A map from key to entry. An entry has a value, a meta byte, a TTL, and a deleted flag and an expired flag.
- **Transaction.** A transaction reads the committed map as it was when the transaction began. Its pending upserts and tombstones are layered on top.
- **Transaction too big.** Whether `SetEntry` or `Delete` reports the transaction too big is a non-deterministic choice.
- **Commit failure.** Whether a commit with writes fails is a non-deterministic choice. A commit with no writes succeeds.
- **Sizes.** The LSM and value-log sizes are fields set by the environment before an operation. They do not change during one call, even between the two flushes of one write.
- **Codec.** The codec is a pair of functions. `RoundTrips` states the codec's promise for one event. It is assumed only where a statement needs it.

Deliberate modelling choices:

- **Use after `Close`.** Every operation requires `Valid()`, meaning the transaction has not been discarded. Using a `ReadWriter` after `Close` is therefore a caller error.
- **Single writer.** The source requires one `ReadWriter` per trace ID. `ReadWriter.Current()` states that the transaction has seen every commit. `WroteEntry` keeps that predicate true.

## Model

| member | source | states |
|---|---|---|
| `Engine.Txn.Get` | x-pack/apm-server/sampling/eventstorage/storage.go:166-172 | a lookup finds an entry exactly when the key is in the transaction's view and neither deleted nor expired, and returns that entry |
| `Engine.Txn.SetEntry` | x-pack/apm-server/sampling/eventstorage/storage.go:194 | either the entry is added to the pending writes, or the result is ErrTxnTooBig and the pending writes are unchanged |
| `Engine.Txn.Delete` | x-pack/apm-server/sampling/eventstorage/storage.go:221 | either a tombstone is added to the pending writes, or the result is ErrTxnTooBig and the pending writes are unchanged |
| `Engine.Txn.Commit` | x-pack/apm-server/sampling/eventstorage/storage.go:141 | the pending writes are applied all at once or not at all; a transaction with no writes always commits; the transaction is ended either way |
| `Engine.Txn.Iterate` | x-pack/apm-server/sampling/eventstorage/storage.go:226-232 | the iterator yields every key of the view that has the prefix (deleted and expired keys included), in strictly ascending byte order |
| `ByteKeys.SortedKeys` | x-pack/apm-server/sampling/eventstorage/storage.go:230-232 | the visiting order of a set of keys is ascending and holds exactly the keys of the set |
| `ByteKeys.AscendingUnique` | x-pack/apm-server/sampling/eventstorage/storage.go:230-232 | two ascending sequences with the same elements are equal, so the scan order is fully determined |
| `ByteKeys.Without` | x-pack/apm-server/sampling/eventstorage/storage.go:219-222 | dropping one key from an enumeration keeps it ascending and keeps exactly the other keys |
| `ByteKeys.SortedKeysRemove` | x-pack/apm-server/sampling/eventstorage/storage.go:219-222 | enumerating a set with one key removed gives the enumeration of the set without that key |
| `EventStorage.DecisionKey` | x-pack/apm-server/sampling/eventstorage/storage.go:152 | a decision is stored under the trace ID itself, which never lies inside that trace's own event scan |
| `EventStorage.ScanPrefix` | x-pack/apm-server/sampling/eventstorage/storage.go:227 | the scanned prefix is the trace ID followed by one `':'` |
| `EventStorage.DecisionEntry` | x-pack/apm-server/sampling/eventstorage/storage.go:153-158 | a decision entry has no value, the storage TTL, is live, has meta `'s'` exactly when sampled, and is never taken for an event by the scan |
| `EventStorage.EventEntry` | x-pack/apm-server/sampling/eventstorage/storage.go:186-188 | an event entry holds the encoded event and the storage TTL, and is a live event for the scan |
| `EventStorage.IsLiveEvent` | x-pack/apm-server/sampling/eventstorage/storage.go:234-238 | the entries the scan decodes: neither deleted nor expired, with meta `'e'`; its use is stated by `LiveEventsInFilters` |
| `EventStorage.LiveEventsIn` | x-pack/apm-server/sampling/eventstorage/storage.go:232-249 | the iterated keys the scan decodes, in iteration order; what it keeps is stated by `LiveEventsInFilters` and `LiveEventsOfScan` |
| `Engine.DB.Size` | x-pack/apm-server/sampling/eventstorage/storage.go:97 | returns the LSM and value-log sizes the engine last reported |
| `Engine.Txn.Begin` | x-pack/apm-server/sampling/eventstorage/storage.go:85 | a new read-write transaction reads the engine's committed entries as they are now, has no writes, and is open |
| `Engine.Txn.Discard` | x-pack/apm-server/sampling/eventstorage/storage.go:125 | the transaction is ended |
| `SamplingConfig.IsDefaultPolicy` | beater/config/sampling.go:103 | the comparison with the zero policy carrying the same sample rate; its meaning is stated by `DefaultPolicyCriteria` and `SampleRateIrrelevant` |
| `SamplingConfig.HasDefaultPolicy` | beater/config/sampling.go:101-108 | some policy of the list is default; `Validate` is proved to succeed on an enabled, non-empty list exactly when it holds |
| `EventStorage.EventKey` | x-pack/apm-server/sampling/eventstorage/storage.go:181 | an event key starts with the trace's scan prefix (`traceID + ':'`) and ends with the event ID |
| `EventStorage.DecisionMeta` | x-pack/apm-server/sampling/eventstorage/storage.go:18-24 | the meta byte of a decision is `'s'` exactly when the trace is sampled, and `'u'` otherwise |
| `EventStorage.DecisionKeyIsNotEventKey` | x-pack/apm-server/sampling/eventstorage/storage.go:152 | a trace's decision key never equals one of that trace's event keys |
| `EventStorage.DecisionKeysAvoidEventKeys` | x-pack/apm-server/sampling/eventstorage/storage.go:181 | a decision key whose trace ID has no `':'` is never an event key of any trace |
| `EventStorage.EventKeyInjective` | x-pack/apm-server/sampling/eventstorage/storage.go:220 | for trace IDs without `':'`, the event key determines both the trace ID and the event ID |
| `EventStorage.ScanIsolation` | x-pack/apm-server/sampling/eventstorage/storage.go:227 | for trace IDs without `':'`, the scan for one trace reaches an event key exactly when that key belongs to the same trace, even when one trace ID is a prefix of the other |
| `EventStorage.DecisionInScanHasSeparator` | x-pack/apm-server/sampling/eventstorage/storage.go:152 | a decision key falls inside a trace's scan prefix only if that decision's trace ID contains `':'` |
| `EventStorage.SeparatorInTraceIDCollides` | x-pack/apm-server/sampling/eventstorage/storage.go:181 | counterexamples because trace IDs are not checked: `"a:b"` as a decision key equals the event key of trace `"a"` and event `"b"`; the scan for `"a:b"` reaches an event of trace `"a"` |
| `EventStorage.EffectiveLimit` | x-pack/apm-server/sampling/eventstorage/storage.go:62-67 | a limit of 0 or 1 is kept as it is; a larger limit becomes 90% of itself rounded down, is still positive, and is strictly below the configured limit |
| `EventStorage.QuotaTripsAtNinetyPercent` | x-pack/apm-server/sampling/eventstorage/storage.go:26-28 | with a configured limit above 1, the quota is reached once usage is at 90% of the limit (and so certainly at the limit itself), and not while usage is more than a byte below 90% |
| `EventStorage.LiveEventsInFilters` | x-pack/apm-server/sampling/eventstorage/storage.go:232-249 | the scan's filter keeps exactly the keys whose entries are live and carry meta `'e'`, and an ascending input gives an ascending result |
| `EventStorage.LiveEventsOfPrefix` | x-pack/apm-server/sampling/eventstorage/storage.go:232 | filtering a prefix of the iterated keys gives a prefix of the filtered keys |
| `EventStorage.LiveEventsOfScan` | x-pack/apm-server/sampling/eventstorage/storage.go:226-236 | filtering what the prefix iterator yields gives the trace's live event keys in ascending order |
| `EventStorage.DecodedEvents` | x-pack/apm-server/sampling/eventstorage/storage.go:239-245 | the decoded events have one element per key, each the decoding of that key's value, in key order |
| `EventStorage.DeleteHidesOnlyThatEvent` | x-pack/apm-server/sampling/eventstorage/storage.go:219-222 | after a tombstone is written under an event key, the trace's live events are the old ones without that key, with the others kept in the same order |
| `EventStorage.OtherTraceWriteInvisible` | x-pack/apm-server/sampling/eventstorage/storage.go:180-190 | writing an event of another trace (neither trace ID containing `':'`) leaves the events of this trace unchanged |
| `EventStorage.FilterStopsAt` | x-pack/apm-server/sampling/eventstorage/storage.go:240-244 | when the scan reaches a live event, the events decoded so far are exactly the first ones of the trace, and this event comes next |
| `EventStorage.DecodeLiveEvents` | x-pack/apm-server/sampling/eventstorage/storage.go:232-251 | with value reads that never fail (engine read errors are not modelled), the loop over the iterated keys fails exactly when some live event does not decode; on success it appends every live event, decoded, in order; on failure it returns the first decode error and keeps the events decoded before it |
| `EventStorage.Storage.New` | x-pack/apm-server/sampling/eventstorage/storage.go:62-67 | the storage keeps its engine, codec and TTL, and enforces the effective limit (90% of a configured limit above 1) |
| `EventStorage.Storage.NewReadWriter` | x-pack/apm-server/sampling/eventstorage/storage.go:82-87 | a new ReadWriter is open, has a fresh transaction with no writes reading the current engine, and its counter is 0 |
| `EventStorage.Storage.LimitReached` | x-pack/apm-server/sampling/eventstorage/storage.go:89-100 | a limit of 0 is never reached; otherwise the limit is reached exactly when the reported LSM size plus value-log size is at least the limit |
| `EventStorage.ReadWriter.Close` | x-pack/apm-server/sampling/eventstorage/storage.go:124-126 | the transaction is discarded, so the ReadWriter is no longer open |
| `EventStorage.ReadWriter.Flush` | x-pack/apm-server/sampling/eventstorage/storage.go:137-148 | if the quota is reached: ErrLimitReached, with the same transaction, the same pending writes, the same counter, and nothing committed. Otherwise the pending writes are committed (a commit error leaves the engine as it was), and whether or not the commit succeeds, a fresh empty transaction is open on the engine and the counter is 0 |
| `EventStorage.ReadWriter.WriteEntry` | x-pack/apm-server/sampling/eventstorage/storage.go:192-216 | every write is counted, triggers a flush at 200 uncommitted writes, and on ErrTxnTooBig flushes once and retries the same entry once; the outcomes are those of `WroteEntry`, listed below the table |
| `EventStorage.ReadWriter.WriteTraceSampled` | x-pack/apm-server/sampling/eventstorage/storage.go:150-159 | writes the entry (empty value, meta `'s'` or `'u'`, the storage TTL) under the trace ID, with the outcomes of WroteEntry |
| `EventStorage.ReadWriter.IsTraceSampled` | x-pack/apm-server/sampling/eventstorage/storage.go:164-174 | ErrNotFound exactly when the view has no live entry under the trace ID, and then the answer is false; otherwise no error, and the answer is whether the entry's meta is `'s'` |
| `EventStorage.ReadWriter.WriteTraceEvent` | x-pack/apm-server/sampling/eventstorage/storage.go:180-190 | an encoding error is returned as it is and nothing changes; otherwise the encoded event is written under its event key with meta `'e'` and the storage TTL, with the outcomes of WroteEntry |
| `EventStorage.ReadWriter.DeleteTraceEvent` | x-pack/apm-server/sampling/eventstorage/storage.go:218-222 | a tombstone is written under the event key of the open transaction, which its view then shows, or the result is ErrTxnTooBig and nothing changes; nothing is counted and nothing is retried |
| `EventStorage.ReadWriter.ReadTraceEvents` | x-pack/apm-server/sampling/eventstorage/storage.go:224-252 | `out` is kept; with value reads that never fail, an error is returned exactly when some live event of the trace in the view does not decode; without one, every such event is appended, decoded, in ascending key order; with one, the first failing event's error is returned and the events before it stay appended |
| `EventStorageScenarios.DecisionReadBack` | x-pack/apm-server/sampling/eventstorage/storage.go:151-174 | a decision written successfully is read back as written by the same ReadWriter at once, and again after a flush unless the commit failed |
| `EventStorageScenarios.EventReadBack` | x-pack/apm-server/sampling/eventstorage/storage.go:180-252 | on an empty engine with a codec that round-trips the event, an event written successfully is exactly what the scan of its trace appends |
| `EventStorageScenarios.DeletedEventNotRead` | x-pack/apm-server/sampling/eventstorage/storage.go:219-252 | an event written and then deleted in the same transaction is not read back, and the scan succeeds |
| `EventStorageScenarios.UnflushedWriteLostAtClose` | x-pack/apm-server/sampling/eventstorage/storage.go:120-126 | the first write on a new ReadWriter, whatever it returns, is not committed by the write itself, so after `Close` the next ReadWriter sees exactly the engine's earlier contents |
| `EventStorageScenarios.FullQuotaKeepsEngine` | x-pack/apm-server/sampling/eventstorage/storage.go:137-140 | with the reported usage at the effective quota, a decision write followed by a flush fails with ErrLimitReached, and the engine keeps its initial store |
| `SamplingConfig.DefaultPolicyCriteria` | beater/config/sampling.go:103 | a policy is default exactly when its service name, service environment, trace name and trace outcome are all empty |
| `SamplingConfig.SampleRateIrrelevant` | beater/config/sampling.go:103 | changing the sample rate never changes whether a policy is default |
| `SamplingConfig.PolicyOrderIrrelevant` | beater/config/sampling.go:102-108 | two policy lists with the same members have a default policy alike, whatever their order or repetitions |
| `SamplingConfig.PolicyPermutationIrrelevant` | beater/config/sampling.go:102-108 | a permutation of the policies has a default policy exactly when the original list has one |
| `SamplingConfig.Validate` | beater/config/sampling.go:94-113 | a disabled configuration is valid whatever its policies; an enabled configuration with no policies fails with NoPoliciesSpecified; an enabled one with policies is valid exactly when some policy is default, and otherwise fails with NoDefaultPolicySpecified |
| `SamplingConfig.DefaultTailSamplingConfig` | beater/config/sampling.go:135-151 | the default is disabled and has no policies, an interval of 1 min, a decay factor of 0.25, a GC interval of 5 min, a TTL of 30 min, and a limit of "3GB", which parses to 3,000,000,000 bytes |
| `SamplingConfig.ValidateDefaultConfig` | beater/config/sampling.go:94-97 | the default configuration passes validation |
| `SamplingConfig.ValidateEnabledDefaultConfig` | beater/config/sampling.go:98-100 | the default configuration, once enabled with no policies added, fails with NoPoliciesSpecified |

`EventStorage.ReadWriter.WroteEntry` is the two-state predicate that `WriteEntry`, `WriteTraceSampled` and `WriteTraceEvent` ensure. It states that every write ends in exactly one of four outcomes:

- **Success.**
  - The entry is visible in the transaction's view.
  - The engine plus the pending writes equal what they were before, with the entry added.
  - The counter is below 200.
  - If the transaction is the same one, the counter went up by 1 and nothing was committed.
  - If the transaction is a fresh one, the counter is 0, and either the automatic flush at 200 writes committed the entry and the new transaction is empty, or the ErrTxnTooBig retry committed the earlier writes and the entry is pending in the new transaction.
- **ErrLimitReached.** The transaction is the same one, the counter went up by 1, and nothing was committed. This relies on the reported sizes staying fixed during one write (see "## Left out").
- **ErrCommit.** The uncommitted writes are lost. A fresh empty transaction is open and the counter is 0.
- **ErrTxnTooBig.** This comes only from the single retry, after the earlier writes were committed.

Two further facts hold for every outcome:

- With the quota reached (the sizes being fixed during the write), nothing is ever committed.
- The transaction keeps seeing every commit.

## Left out

- `ShardedReadWriter` and the trace-ID hashing behind it: their source is not part of this model.
- `TailSamplingConfig.Unpack` and `setup`: they unpack a configuration library object, call `humanize.ParseBytes`, log, and fall back to the Elasticsearch output configuration; all of these are foreign calls.
- `defaultSamplingConfig` and `SamplingConfig`: a one-field wrapper around the tail-sampling defaults.
- The Elasticsearch connection settings (`ESConfig`, `esConfigured`): they are opaque to the validation.
- The range checks `min=1s` and `min=0, max=1` written as struct tags: the configuration library enforces them while unpacking, not `Validate`.
- `SamplingConfig.DefaultTailSamplingConfig`: the parsed limit is the known value of `humanize.ParseBytes("3GB")` (decimal units); the parser itself is not modelled.
- `SamplingConfig.IsDefaultPolicy`: sample rates are reals, so the NaN case of Go's `float64` comparison is not modelled; a policy whose sample rate is NaN never compares equal in Go.
- `EventStorage.Storage.New`: `int64(float64(limit) * 0.90)` is modelled as `limit * 9 / 10` (floor). The two agree for every limit below 2^50 bytes; above that, double rounding can give one byte more than the floor.
- `EventStorage.ReadWriter.IsTraceSampled`: engine failures of `Get` other than key-not-found (storage.go:171), such as a closed database or an unreadable table, are not modelled; the model's lookup never fails that way.
- Engine key validation (`ErrEmptyKey`, invalid or too-long keys) and value-size limits: the abstract engine accepts every key.
- Entry TTLs are stored but never aged: no engine operation sets the `expired` flag, so an entry written through a `ReadWriter` never expires, whatever its TTL. The read-back scenarios `EventStorageScenarios.DecisionReadBack` and `EventStorageScenarios.EventReadBack` therefore require a TTL of at least one second (the configuration's own minimum) and stand for reads made before that TTL elapses. Entries in the initial engine may carry the flag.
- The badger LSM, value log, iterator options, conflict detection between transactions, and the asynchronous size reporting: sizes are inputs, and a single `ReadWriter` is the only writer.
- `EventStorage.ReadWriter.WriteEntry`: the reported sizes stay fixed for the whole of one call, so both flushes inside it (storage.go:202 and :212) read the same sizes. In the program the size ticker (storage.go:93-96) can push the usage over the quota between them. The outcome where the second flush returns ErrLimitReached after the first one committed is then not modelled: a fresh empty transaction, the counter at 0, and the entry not written. `WroteEntry` instead has every ErrLimitReached keep the transaction and commit nothing.
- `WriteTraceSampled` (`EventStorage.ReadWriter.WriteTraceSampled`): it has the outcomes of `WroteEntry`, so with sizes fixed during the call it does not model an ErrLimitReached from the second flush after the first one committed.
- `WriteTraceEvent` (`EventStorage.ReadWriter.WriteTraceEvent`): on a successful encoding it has the outcomes of `WroteEntry`, so with sizes fixed during the call it does not model an ErrLimitReached from the second flush after the first one committed.
- Error messages and wrapping (`flush pending writes: %w`, `syscall.ENOSPC`): errors are the `Error` datatype.
- `readKeyBuf`: a reusable read buffer with no observable effect.
- `EventStorage.ReadWriter.ReadTraceEvents`: engine failures of `item.Value` (storage.go:240-244), such as an unreadable value log, are not modelled; in the model a value read never fails, so every scan error is a codec error. The same holds for `EventStorage.DecodeLiveEvents`. The decoding loop is a separate method, `DecodeLiveEvents`, over the sequence of keys the iterator yields; `ReadTraceEvents` opens the iterator, runs the loop and connects its result to the trace's events. The events are returned as a new sequence `batch`, which begins with `out`, instead of being appended in place to `*out`.
- Concurrency: the source forbids concurrent use of one `ReadWriter`, and nothing here models it.

## Notes on the source

- Trace IDs are not checked for `':'`. With one inside, a decision key can equal another trace's event key, and a scan can reach another trace's event (`SeparatorInTraceIDCollides`). The isolation lemmas therefore assume trace IDs without `':'`, as hexadecimal trace IDs are.
- After an ErrTxnTooBig retry succeeds, the counter is 0 even though the new transaction holds the entry. This follows from `Flush` resetting the counter, and `WroteEntry` states it.
- When the flush at 200 writes fails with ErrLimitReached, the entry was usually already set in the transaction. The error is returned, but the entry stays pending and the counter stays at 200 or above. The next write tries to flush again.
- `Close` discards whatever has not been flushed. After 250 writes on one ReadWriter, the automatic flush at the 200th write has committed the first 200 (storage.go:201-205), and `Close` drops the other 50 (storage.go:124-126). A ReadWriter opened afterwards therefore sees 200 of the 250 writes, not all of them. `UnflushedWriteLostAtClose` shows the same loss for the first write on a new ReadWriter, and it follows in general from `Close` changing only the transaction's `discarded` flag and `NewReadWriter` starting from the committed store.
