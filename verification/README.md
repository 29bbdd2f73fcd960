# A verified model of cachekit's cache-aside engine

cachekit is a Go toolkit for caching in front of a slow source of truth. `GetOrSet` reads a key from a cache
and, on a miss, loads it through a single-flight group and stores the result. It serves stale entries while a
background refresh replaces them, caches absence, refreshes hot entries early, and heals entries that do not
decode. `GetOrSetMany` does the same for a list of keys. This project models that engine in Dafny and proves what
it promises, over every run, every backend failure, every clock and every random draw.

The parts:

| files | what they model |
|---|---|
| `Codecs`, `Envelope`, `Config`, `Stored`, `EarlyRefresh`, `FlightKeys` | codecs, the byte format, options and jitter, what is written and how it is read back, the early-refresh decision, the single-flight key |
| `Protocol` | callers, flights, result channels, background refreshes and batch loads as a step relation over one timed store; a step's label carries every choice of that step |
| `SingleFlight`, `Provenance` | the invariants of every reachable state: who is registered and who waits on what; where every stored or answered value came from |
| `Looks`, `Waiting`, `LoadCost` | what single steps of the protocol mean, in terms of bytes, arithmetic and time |
| `Results`, `Refresh`, `SelfHeal`, `RecheckRace`, `FreshOrder`, `Erasure`, `Staleness`, `StalenessBound` | the theorems over all runs; `Runs` builds particular runs |
| `TimedMap`, `Memory` | the in-memory backend as a class, against a map of live entries |
| `Batches`, `BatchLaws`, `ReadWrite`, `BatchDeadlines`, `BatchRun` | `GetOrSetMany` as a method over that class, what it promises, what it reads and writes byte for byte, the deadlines of what it stores, and its place in the protocol |
| `CacheAside`, `LoneRun` | `GetOrSet` as a method over that class, and its place in the protocol |

How the pieces are tied together:

- The methods (`GetOrSet`, `LoadAndStore`, `GetOrSetMany`, `MemoryCache`'s operations, `WrapEnvelope`,
  `BuildOptions`) follow the statements of the Go code and are proved against specification functions.
- `GetOrSet` is specified by the very functions that the step relation uses. `SequentialIsARun` shows that from any
  state of the protocol in which its key has no flight, some run ends with the answer and the store of the method.
- `CallIsARun` shows the same of `GetOrSetMany`: from any state, one lane per requested key, all of one call and on the
  call's own schedule, can run to the answers and the store of the method. `CallIsTransparent` is an example of a
  theorem about lanes carried over to calls.

Two conventions. Every store entry, result and answer carries the instant at which the source held what it says;
this history is never read by a step. A step never happens by itself: a run is any sequence of labels whose steps
are enabled, so a theorem about every run covers every interleaving, delay and failure.

Places where the code does less than its comments or a first reading suggest:

- The relation "freshUntil + staleTTL == backend expiry" (comment at `cache.go:269-271`) is not always an equality.
  `EnvelopedDeadline` gives the two-sided bound and the exact condition (nothing passes between packing and Set, and the
  freshness ends on a whole millisecond); `DeadlineMissesByRounding` is an input for which it fails.
- With flights of length at most D, an answer is not always younger than D + F(1 + j) + S, for a fresh TTL F, jitter j
  and stale window S: a flight may take an entry from the store in its last fresh instant and deliver it D later.
  `StalenessBoundExactly` proves that the bound holds in all runs exactly when D is at most S, to the nanosecond;
  `BatchBoundExactly` proves that for batch calls, which return a stale entry only after their loader, it holds
  only for D of a nanosecond or two. `GetOrSetStaleness` and `GetOrSetManyStaleness` prove what always holds.
- In a batch every value is stored under the total TTL of the key packed last (`batch.go:135-147`), so that the relation
  above can fail for the others. `WindowIsKeptExactly` proves that it is kept by all calls exactly when all
  draws give the same TTL, `ValueLostWhileFresh` is a call that loses a value while it is still fresh,
  `OnePackedKeyKeepsWindow` and `DeadlinesAreClose` prove what always holds.
- The self-healing Delete of a refresh can remove an entry that decodes, and the refresh can then fail
  (`BatchRaceLosesAnEntry`). `HealLosesExactly` proves when: exactly if a batch call stored under the same key after
  the re-check and nothing cleared that entry before the Delete. In runs without such a store no failing refresh or
  load removes a decodable entry (`FailedFlightsSpareEntries`).

## Model

| member | source | states |
|---|---|---|
| Results.LoaderExclusion | group.go:29-61 | In every reachable state at most one flight per cache and key is between its re-check and its Set, and it is the one registered under that key's name, even while older flights for it still deliver |
| Results.WaitersGetTheirFlight | group.go:29-39 | A caller's channel belongs to a flight for its own cache and key, no other caller has it, and the answer is what the caller makes of that flight's one outcome |
| Results.EachChannelGetsOneResult | group.go:48-61 | Each joined channel has its own slot, is filled exactly when delivery reached that slot, with the flight's outcome, and is never overwritten in any continuation of the run |
| Results.EveryWaiterCanBeAnswered | group.go:48-61 | No wedging: from every reachable state, after errors and panics alike, a waiting caller can be answered without the help of another caller, and then its flight is registered nowhere |
| FlightKeys.FlightKeyInjective | cache.go:293-297 | Two (cache, key) pairs share a flight name only if they are equal, also for keys that contain NUL |
| Provenance.AnswersComeFromTheSource | cache.go:74-136 | In every run each answer that is not an error was true of the source at a recorded instant no later than the answer; a decode error never reaches a caller; errors are the loader's, a panic's or the encoder's |
| Provenance.GetOrSetIsTransparent | cache.go:74-136 | With a constant source every GetOrSet that does not fail answers as the loader would: that value, or NotFound exactly if there is none, in all interleavings with expiry, failures, negative entries and refreshes |
| Provenance.GetOrSetManyIsTransparent | batch.go:75-157 | The same for each key of a batch call: present with the source's value exactly if there is one, omitted exactly if there is none |
| Erasure.CancellationErasure | group.go:24-39 | Deleting all cancellations from a run leaves a run with the same flights, stores, loader calls, channels and batch results, in which every other caller gets the same answer and the canceled one is still waiting, having started or joined its flight |
| Waiting.CanceledWaiterMayLeave | group.go:29-35 | In any state and whatever the phase of its flight, a caller can be canceled, and a canceled waiter has a step that takes it out of its wait and changes nothing else |
| Waiting.OnlyCanceledLeave | group.go:29-39 | A caller that leaves its wait had been canceled, and its leaving changed nothing else |
| Waiting.LeftWereCanceled | group.go:29-39 | In every reachable state all callers that left are canceled |
| Waiting.JoinIsImmediate | group.go:48-61 | In every reachable state a caller that misses, canceled or not, can at once enter its wait: on the one flight of its key that is under way, or on a new flight with its own TTL if there is none; nothing else changes |
| Waiting.WaiterMayReceive | cache.go:117-135 | A waiter whose result has come can take it and is answered what the bytes say: the marker as NotFound, a payload that decodes as its value, one that does not as a decode error, and failures as they are |
| Looks.FirstReadMeans | cache.go:82-111 | The first read, in bytes and arithmetic: a failed, empty or expired one goes on to load, the marker is NotFound, an undecodable entry is healed, any other is served, with a refresh for its deadline if and only if it has one and either it has passed or beta > 0 and now plus cost times beta times the draw passes it |
| Looks.RecheckMeans | cache.go:186-203 | The re-check, in bytes and arithmetic: which entries end the flight, which are deleted, and which are loaded over |
| Looks.LaneReadMeans | batch.go:75-98 | The read of a batch key, in bytes: stale entries are served like fresh ones |
| Looks.SaveMeans | cache.go:212-228 | The Set is best effort: if it succeeds exactly the flight's key changes, to the packed bytes or the marker for their TTL; and the flight ends with those bytes in any case |
| LoadCost.FlightStoresItsLoadTime | cache.go:204-228 | In any run the entry that a flight stores decodes to what its loader returned and carries the time from the start of that loader to its return, cut to whole milliseconds |
| LoadCost.LaneStoresItsLoadTime | batch.go:101-156 | The same for each key that a batch call stores |
| RecheckRace.LoadsOnlySpentKeys | cache.go:182-202 | However many callers missed or triggered a refresh earlier, a loader call of any flight after a store for its key happens only once the latest stored entry has expired or gone stale or, for a refresh, is no fresher than its trigger, and never past a live cached absence |
| RecheckRace.LoadsOnlyStaleKeys | cache.go:86-103 | Without early refresh, and where every TTL expires, a loader call of any flight, refreshes included, happens only once the latest stored entry has expired or gone stale |
| Refresh.RefreshSoundness | cache.go:186-218 | A flight that does not load was satisfied by an absence or by a non-stale value, for a refresh a strictly fresher one than its trigger; a failed flight wrote nothing, counted OnLoad once unless it panicked, and reported OpRefresh exactly once if and only if it was a refresh; no flight stores twice |
| SelfHeal.HealLosesExactly | cache.go:186-202 | In every run, a flight that turned to delete at its re-check removes a decodable entry by its Delete if and only if in between a batch call stored for the same key and no later step cleared it |
| SelfHeal.FailedFlightsSpareEntries | cache.go:186-218 | In every run in which no batch call stores under the key of a flight between its re-check and its Delete, no step of a flight removes a decodable entry, it can only store its own result over one; and a flight that later ends in an error or a panic left every decodable entry exactly as it was in each of its steps |
| SelfHeal.BatchRaceLosesAnEntry | cache.go:198-202 | A run in which a batch call stores a decodable entry after a refresh met undecodable bytes, the refresh's Delete removes it, and the refresh then fails |
| Refresh.TriggerNeverWaits | cache.go:86-103 | In every reachable state a caller that triggers a refresh can start or join it at once, is answered by that step with the value it had read, reads no channel, and the refresh it starts is for a set deadline, the one it read |
| FreshOrder.FreshnessNeverGoesBackward | cache.go:224-228 | With one TTL per key, no jitter and GetOrSet as the only writer, of two successful stores of a key the later never carries an earlier freshness deadline, in any run |
| Staleness.GetOrSetStaleness | cache.go:82-135 | With flights and batch calls of length at most D, a value from the store held at the source at most D + F(1 + j) + S before it was served, a value through a flight at most 2D + F(1 + j) before, and a NotFound likewise by the negative TTL, over stale hits, refreshes, joins, batch writes, failures and dropped Sets |
| Staleness.FlightStaleness | cache.go:186-229 | The shared result of a flight, when it was obtained, held at the source at most D + F(1 + j) earlier, or D plus the jittered negative TTL for an absence |
| Staleness.GetOrSetManyStaleness | batch.go:75-157 | Each key of a batch answer held at the source less than D + F(1 + j) + S before it was read (the negative counterpart for an omitted key), and at most D more before the call returns |
| StalenessBound.StalenessBoundExactly | cache.go:186-203 | For every configuration with a bounded TTL, every value of GetOrSet in every run keeps the bound D + F(1 + j) + S if and only if D is at most S, or one nanosecond where S is zero, plus one nanosecond where there is jitter and F(1 + j) is whole, which is then never drawn |
| StalenessBound.LateRun | cache.go:186-203 | For every such configuration a run whose answer is 2D plus the largest drawn fresh window old: stored late, taken from the store by a re-check in the last fresh instant, delivered late |
| StalenessBound.BatchBoundExactly | batch.go:75-107 | Every value of GetOrSetMany in every run keeps that bound when the call returns if and only if D is at most one nanosecond, or two where there is jitter and F(1 + j) is whole |
| StalenessBound.LateBatch | batch.go:89-101 | For every such configuration a call for two keys that reads one in the last instant of its stale window and returns it D later, when the loader has answered for the other |
| Stored.StorageIsUnambiguous | negative.go:17-23 | Marker, plain value and envelope never share bytes for any payload and metadata, and the check-marker-then-parse order recovers what was written; with the feature off all bytes are payload, also those that start with the magic |
| Stored.EnvelopesAreInjective | envelope.go:32-42 | Two envelopes are equal exactly when payload, stored freshness and truncated cost are |
| Stored.EnvelopedDeadline | cache.go:264-291 | Under every draw, freshUntil + S + (set - pack) <= backend deadline < freshUntil + S + 1 ms + (set - pack) when the total fits a positive Duration, with deadline == freshUntil + S if and only if set == pack and the drawn freshness ends on a whole millisecond; otherwise the backend's default TTL applies |
| Stored.DeadlineMissesByRounding | envelope.go:36-38 | Packed and set at one instant, a nanosecond past a millisecond, an entry's deadline exceeds freshUntil + S by that nanosecond |
| Stored.NeverExpiresStays | memory.go:110-125 | A TTL that resolves to nothing positive means "never expires" through the second default fallback, in both stored forms and under any jitter |
| Stored.PackedReadsBack | cache.go:275-291 | Packed bytes read back as the same value, with the freshness deadline floored to a millisecond, or none when the feature is off or the window is not positive |
| Stored.PackedCarriesLoadCost | cache.go:275-291 | With either feature on, packed bytes read back with the load duration cut toward zero to whole milliseconds, with and without a freshness deadline; with both off they are the bare encoding |
| Stored.ItemExpires | memory.go:110-125 | An entry never expires if neither its TTL nor the default is positive; enveloped it expires after exactly the asked TTL; otherwise after that TTL within the jitter fraction |
| Stored.BytesMean | hooks.go:90-101 | What stored bytes say: the marker, or what the codec makes of the payload behind the metadata, where metadata is in use and present |
| Stored.LifetimeBound | memory.go:110-125 | Any value expires within its jittered TTL plus the stale window of its Set, under its own packed TTL or that of another key of the same call |
| Stored.AbsenceBound | cache.go:212-215 | A cached absence expires within the jittered negative TTL of its Set, and not before it |
| Config.BuildOptions | options.go:96-114 | Options apply in order; the codec defaults when none is set; clamping yields the nearest admissible fractions; nothing else changes |
| Config.OptionsBuild | options.go:96-114 | Without options every feature is off; two options apply in order; negative fractions become 0 and too large jitter 0.9 |
| Config.JitterBounds | options.go:116-124 | A jittered TTL lies within the configured fraction of the TTL, less the truncated nanosecond, under every draw, and strictly below F(1 + j) when there is jitter |
| Config.BuiltJitterIsBounded | options.go:104-124 | Whatever the options, the built jitter fraction keeps every draw within its range, and positive for TTLs from 10 ns on |
| Config.ExtremesAreDrawn | options.go:118-124 | The smallest and the largest TTL in that range are both drawn, the largest being the greatest integer below F(1 + j) |
| Config.JitterKeepsTtl | options.go:118-124 | A TTL stays positive under every draw if and only if its smallest stretch is a whole nanosecond, and always from 10 ns on |
| Envelope.WrapEnvelope | envelope.go:32-42 | Filling the buffer in place produces magic, big-endian freshness, big-endian cost and payload |
| Envelope.PutUint64 | envelope.go:39-40 | Eight big-endian bytes at an offset of the buffer, and no other byte changed |
| Envelope.Int64RoundTrip | envelope.go:60-63 | Writing an int64 in two's complement big-endian form and reading it returns it |
| Envelope.Int64FieldRoundTrip | envelope.go:60-63 | Reading any eight bytes as an int64 and writing it returns the bytes |
| Envelope.WrapThenParse | envelope.go:32-65 | Parsing wrapped bytes returns the payload and the truncated cost; the freshness deadline comes back floored if and only if its milliseconds fit an int64 and are not the 0 sentinel; it counts as a deadline unless it meets one of the two sentinels |
| Envelope.ParseThenWrap | envelope.go:32-65 | Re-wrapping parsed bytes reproduces them if and only if the deadline is not the zero instant and the cost does not overflow |
| Envelope.GoldenEnvelope | envelope.go:15-42 | One envelope byte by byte |
| Envelope.MarkerSpells | negative.go:21 | The marker and the magic spell their texts |
| EarlyRefresh.ParsedDecisionsPersist | envelope.go:55-92 | For a fixed draw, over any two stored envelopes with one deadline whose costs do not overflow, a decision to refresh persists as time, beta and the stored cost grow, and so does the staleness of an entry when the feature is on |
| EarlyRefresh.CostOrderExactly | envelope.go:84-91 | For arbitrary costs it is monotone in the cost if and only if it is not an unknown cost against a sub-millisecond one |
| Memory.MemoryCache.constructor | memory.go:46-71 | An empty cache with prefix and codec of the built options, and with each setting of its configuration that of the option of the same name |
| Memory.MemoryCache.Get | memory.go:76-98 | Returns the entry exactly if it is there and its deadline, if any, is in the future; removes it exactly if the deadline has come; fires one hit or one miss |
| Memory.MemoryCache.Set | memory.go:102-125 | Exactly the named key changes, to the item with resolved, jittered deadline |
| Memory.MemoryCache.Delete | memory.go:170-175 | Exactly the named key is gone |
| Memory.MemoryCache.GetMany | memory.go:129-156 | Result, remaining contents, hit log and miss log of reading the keys one after the other |
| Memory.MemoryCache.SetMany | memory.go:160-167 | All items stored, whatever the iteration order of the map |
| Memory.MemoryCache.Len | memory.go:182-186 | The number of stored entries, at least the number of live ones at any instant |
| TimedMap.LazyReapingIsInvisible | memory.go:76-175 | For every sequence of operations under a clock that never runs backward, lazily reaped contents give the same replies as a map of live entries only; each method of MemoryCache is one step of such a sequence |
| TimedMap.HitsAndMisses | memory.go:131-154 | The hits and misses of a batch read are together the requested keys, with multiplicity |
| TimedMap.HitsAreTheResult | memory.go:144-145 | A key was hit exactly if the result has it |
| Batches.Dedupe | batch.go:49-57 | The request without repetitions |
| Batches.GetOrSetMany | batch.go:43-158 | Reply, loader argument, final store and hook events of the call, on both backend paths, under failing reads, writes and deletes and a failing or panicking loader |
| Batches.WritePhase | batch.go:145-156 | The values that the backend accepts are stored, in batch or in any order key by key |
| BatchLaws.UniqueKeepsOrder | batch.go:49-57 | The deduplicated keys are the requested ones, each once, in the order of first occurrence |
| BatchLaws.LoaderGetsTheMissing | batch.go:75-101 | The loader is called if and only if some requested key was unread or undecodable, once, with exactly those keys in first-occurrence order |
| BatchLaws.ResultIsCachedPlusLoaded | batch.go:80-141 | A call fails only with the loader's failure, and then all that is left in the store was there before; otherwise the result's keys are exactly the cached ones and the missing ones that the loader returned, each with its value, never a known-absent, omitted or unrequested key |
| BatchLaws.OtherKeysAreUntouched | batch.go:80-98 | A call changes nothing under a key that it did not ask the loader for |
| BatchLaws.OmittedKeysAreCachedAbsent | batch.go:113-125 | An omitted key is cached as absent when negative caching is on and its write succeeds; when it is off, nothing is left under the key if its read and, where needed, its delete succeed |
| BatchLaws.PathsAgree | batch.go:59-73 | The batched and the per-key path agree on result, loader argument and final store when the same reads fail |
| ReadWrite.VerdictMeans | batch.go:75-98 | What a call makes of a key, in bytes: unread if the read failed, found nothing or found it expired; absent for the marker; else what the codec makes of the payload, which for a cache without a configuration is all the bytes |
| ReadWrite.PlainCall | hooks.go:110-117 | Without metadata, and so for every cache without a configuration: stored bytes are decoded whole, a value is written as its bare encoding for the requested TTL, an absence only where there is a configuration with a negative TTL and then for that TTL, and nothing else is written |
| ReadWrite.NoMarkersWithoutConfiguration | batch.go:117-122 | A cache without a configuration gets no negative marker that was not there before |
| ReadWrite.DegradedBatch | batch.go:59-73 | With a cache that is down the loader is asked for every key, the call answers what it says, and the cache stays as it is |
| BatchLaws.HooksTellTheCall | batch.go:92-134 | OnLoad fires once per missing key, in order and with the outcome, unless the loader panicked; OpDecode for exactly the undecodable keys; OpEncode for exactly the loaded keys that do not encode |
| BatchDeadlines.DeadlinesAreClose | batch.go:113-148 | Every written value reads back, and its deadline is above freshUntil + S - 2jF - 1 ns, and at least freshUntil + S without jitter, though all share the last packed total |
| BatchDeadlines.WindowIsKeptExactly | batch.go:135-147 | All calls under a configuration and TTL give every written value a deadline of at least freshUntil + S if and only if the smallest and the largest jittered TTL coincide |
| BatchDeadlines.OnePackedKeyKeepsWindow | batch.go:135-147 | A call in which at most one key packs a value keeps that value's window under any jitter and draws |
| BatchDeadlines.ValueLostWhileFresh | batch.go:135-147 | A call for two keys, with half the TTL as jitter, after which the first value's deadline lies even before its freshUntil |
| BatchRun.EachKeyIsALane | batch.go:43-158 | For every key, the call's answer and what it leaves in the store are those of that key's lane, read at the key's instant and loaded, packed and stored on the call's clock; the lanes of a failed call's missing keys have failed |
| BatchRun.CallIsARun | batch.go:43-158 | From any state of the concurrent protocol, one lane per requested key of one call reaches, on the call's schedule and sharing the TTL of the lane that packed last, a state in which the lanes tell the call's answers and the store is the one that the call leaves, all else unchanged |
| BatchRun.CallIsTransparent | batch.go:75-157 | In any reachable state, with a constant source, a call that does not fail returns a key's value exactly if the source has it, and omits it exactly if it has none |
| CacheAside.LoadAndStore | cache.go:166-230 | Result, contents and loader call of one flight are those of the protocol's flight steps taken in order |
| CacheAside.GetOrSet | cache.go:74-136 | Reply, contents, loader call and triggered refresh of one call are those of the protocol's caller and flight steps taken in order |
| CacheAside.CallTellsEntry | cache.go:82-104 | A live entry settles the call on its bytes alone: NotFound for the marker, else its value, with a refresh for its deadline exactly when one is due by the written-out arithmetic, the loader unasked and the contents unchanged |
| CacheAside.DegradedCall | cache.go:49-51 | With a cache that is down the call asks the loader, answers what it says, with encode failures, loader errors and panics told apart, and leaves the cache as it is |
| CacheAside.AbsenceLasts | cache.go:211-215 | On a cache built with a negative TTL, a cached absence is the marker with a deadline that TTL after its Set, within the jitter fraction |
| CacheAside.ValueLasts | cache.go:224-228 | On a cache built without jitter, a loaded value expires after the asked TTL, or else the default TTL, plus the stale window; and never if neither is positive |
| CacheAside.OneKeyBatchAgrees | batch.go:43-158 | A one-key batch agrees with GetOrSet on loader calls, final contents and, with omission for NotFound, the answer, when no backend operation or encoding fails and no loader panics |
| LoneRun.SequentialIsARun | cache.go:74-136 | From any state, a caller whose key has no flight can go through the concurrent protocol alone, and then its answer, the store and the loader calls are those of GetOrSet; a refresh it triggers is registered for the deadline it read; other callers, earlier flights and channels, lanes, and every other key's entry and registration are untouched |

## Left out

- redis.go and valkey.go: backends over network clients. A backend is the timed map, whose Get may fail and whose Set and Delete may be dropped.
- singleflight, contexts, channels and timers as implementations: the model assumes only that DoChan joins or registers atomically, that each joined channel gets one result, and that end-of-call clean-up removes its own registration only.
- The group and its flights as a class: concurrency is a step relation on values; update in place is modelled for the cache, the batch helper and the sequential GetOrSet.
- codec.go and JSON: a codec is a pair of functions for which decoding undoes encoding and encoded values do not start with NUL, which for JSON texts follows from sections 2 and 7 of RFC 8259.
- Config.ApplyJitter: a TTL that overflows a Duration under jitter is given the value of an amd64 conversion, which no result relies on.
- Floating point: jitter and early refresh use reals and an arbitrary draw; probabilities, rounding of float64 and an early-refresh spread that does not fit a Duration are not modelled.
- Hook callbacks as user code: kept are the number of OnLoad and OpRefresh events of a flight, the hit and miss logs of the in-memory cache, and the batch helper's own events; durations and error values passed to hooks are not.
- Aliasing of byte slices: stored values are immutable sequences, so the copies that MemoryCache makes are not visible.
- The mutex: each MemoryCache method is one atomic operation.
- Deadlines and timeouts of contexts, including the timeout of refreshAsync: they reach a loader or a backend only as a loader error or a failed operation.
- Flights shared between different types or codecs, configuration changes between runs, and cache values whose pointers are not unique.
- Config.BuildOptions: connection settings, hooks and timeouts are not among the modelled options.
- RecheckRace.LoadsOnlySpentKeys: re-checks that fail, evictions, foreign bytes and batch writers are excluded, since each of them makes the entry unavailable to the re-check.
- FreshOrder.FreshnessNeverGoesBackward: batch writers are excluded, because their pack and Set are not serialised by flights.
- Batches.GetOrSetMany: a key's clock and draws are functions of the key.
- BatchRun.CallIsARun: the cache is one with a cachekit configuration; for a third-party cache the protocol's single configuration does not tell helper and backend apart.
- The instant between a Get and the reading of the clock for freshness (`cache.go:82-90`, `cache.go:186-192`): a first read and a re-check look at the store and at the clock in one step.
- CacheAside.GetOrSet: a triggered refresh is reported, not run; running it is LoadAndStore with its deadline.
- CacheAside.LoadAndStore: the wrapper of refreshAsync that reports OpRefresh is modelled in the protocol only.
- Provenance.GetOrSetManyIsTransparent: speaks of one lane; BatchRun.CallIsTransparent carries it over to calls.
- SelfHeal.HealLosesExactly: speaks of the Delete of a flight; the Delete by a caller of GetOrSet before its flight, which races in the same way (comment at `cache.go:104-108`), is not covered.
- Staleness.GetOrSetStaleness: a hit is aged when it is read; the time that the caller then takes to return it, also past the start of a refresh that it triggers, is not bounded.
- BatchDeadlines.WindowIsKeptExactly: TTLs that jitter can truncate to nothing are excluded, as by Config.JitterKeepsTtl.
- Option constructors, Ping, Close, OpTimeout, client-side caching and everything under deploy/: plumbing.
