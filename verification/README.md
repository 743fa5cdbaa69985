# SODL in Dafny

A model of the stateful core of SODL, a content-addressed store for origins, weights and training state, with proofs about whole runs of it. Each file models one component:

- `CacheKeys`, `OptimizerState`, `OptimizerRuns`, `OptimizerTorn`, `OptimizerLru`, `OptimizerBackend`: the write-back cache of optimizer-state blocks. A state and a relation per locked body; the run theorems (refinement of a plain map, crashes and torn files included, and who is evicted); the class whose methods satisfy the relations.
- `BlockLayout`, `SodlAdamW`: the block layout and the optimizer on top of that cache, with a background flush that may run between any two store calls, and its save and restart.
- `GearHash`, `FastCdc`, `ChunkPipeline`: the 64-bit gear hash, content-defined chunking, both chunkers, manifests, validation and reassembly.
- `RefGc`: reference counters, the handlers and service calls that move them, the garbage collector.
- `Replication`: health records, audit, durability gate, repair executor.
- `Vectors`, `TokenLayout`, `TokenRebalance`, `TokenExport`, `TokenIndex`: cluster layout, adaptive rebalancing, incremental export and its receiver, the index object.
- `Cosine`, `VectorIndex`: inner products and normalised rows, sharded top-k search and its metadata filter.
- `Quantizer`, `Q8Codec`, `SampleFormats`: the eight-bit cluster codec, and formats that meet what it assumes.
- `LineageProof`: the byte string of a lineage digest.
- `PinRegistry`, `WeightService`, `CompactPipeline`: the hot cluster cache, the service around it, and the service over the compact codec.
- `Checkpoints`: checkpoint registries, retention, blob collection, lineage.
- `Common` (modules `Wrappers`, `Numbers`, `Stores`) and `Ranking` hold shared definitions.

State that the source updates in place is a class whose methods are proved against functions or relations on plain values; the properties over runs are lemmas about those. `dafny verify dfyconfig.toml` checks everything.

## Assumptions

- Digests are functions that are injective on the bytes stored; zstd, torch serialisation, JSON and encryption are functions with an inverse. They are parameters with a `Lawful` predicate.
- Each lock-held body is one atomic step with one clock reading; an atomic collection is plan plus execution.
- Vectors are exact reals. In the codec, float32 and float16 storage is a rounding function assumed idempotent up to the format's largest value, and for float32 also monotone and within a thousandth from the scale floor on; IEEE 754 formats meet this but for the sign of zero, and `SampleFormats.LawsCanBeMet` gives an instance.
- Tensor elements are 32-bit words, so that serialisation can have an inverse; the tensor update is any function of them.
- A cipher is one function of origin and plaintext, as `NullCrypto` and `XorCrypto` are.
- The k-means fit and the two-way split are parameters; the split declines or uses both labels. The square root is a parameter, known by its law where a lemma needs it.
- New ids (uuid) of checkpoints are assumed fresh where a lemma says so.

## Where the code differs from what one might expect

- The comment on the FastCDC mask promises ceil(log2(avg_size)) - 1 low bits; the code keeps floor(log2(avg_size)), which is the same exactly when avg_size is not a power of two; the default 65536 is one (`FastCdc.MaskPromiseIff`, `FastCdc.DefaultMask`).
- Origin ids must not contain `::` or end in `:` for cache keys to be split correctly, and origins whose safe file names coincide share manifests and registries (`CacheKeys.SplitRecoversBlock`, `OptimizerRuns.SharedManifestFile`, `Checkpoints.SavesApartIff`, `Checkpoints.DeletesApartIff`).
- A torn blob file is never rewritten by a later flush (`OptimizerRuns.RecoveryNeedsIntactBlob`); it does no harm until its payload is flushed again (`OptimizerTorn.TornRunRefinesMap`).
- The metadata filter of a vector query runs after each shard's cut, so a match may be missed unless no shard is larger than top_k (`VectorIndex.Query`, `VectorIndex.FiltersExactIff`).
- Two parameters of one block with one name cannot both keep their moments (`SodlAdamW.NamesMustDiffer`).
- `create_origin` leaks counts when a later representation is incomplete, uploads count chunks that deleting the origin does not release, and a blob stored again may be collected before it is referenced (`RefGc.CreateLeaksIff`, `RefGc.UploadResidue`, `RefGc.ChunksOutliveTheirOrigin`, `RefGc.StoredSurvivesIff`).
- Repair converges exactly when enough nodes are not recorded Healthy, since the repairer ignores staleness and the auditor does not (`Replication.RepairConverges`); at a later clock old copies may have gone stale (`Replication.ReauditIff`).
- Export tolerance accumulates, and an unmarked export can leave the receiver stale (`TokenExport.DriftIsNeverExported`, `TokenExport.UnmarkedExactIff`).
- A share has the kind string of some other share exactly when one of its fields contains a colon (`LineageProof.KindIsAmbiguousIff`).
- The cluster cache ignores the origin (`WeightService.CacheIgnoresOrigin`, `WeightService.LoadAgreesIff`, `SampleFormats.SecondOriginOccurs`).
- The chunk count is truncated to u32 by both the builder and the validator, so the round trip needs no bound on the number of chunks.

## Model

| member | source | states |
|---|---|---|
| `CacheKeys.SplitRecoversBlock` | python/sodl_weights/optimizer_state.py:351-358 | splitting a cache key at its first `::` gives the block id back exactly when the origin id contains no `::` and does not end in `:` |
| `CacheKeys.KeyIdentifiesBlock` | python/sodl_weights/optimizer_state.py:139-140 | on such origin ids the key is injective in origin and block, and the prefix test of `origin::` picks out exactly that origin's keys |
| `OptimizerState.EnforcedKeeps` | python/sodl_weights/optimizer_state.py:171-184 | an eviction pass loses no payload: what a reader gets and what disk holds stay, no dirty entry leaves, and evictable entries end within the capacity |
| `OptimizerBackend.OptimizerStateBackend.EnforceCapacity` | python/sodl_weights/optimizer_state.py:171-184 | the loop removes exactly min(excess, evictable) clean unpinned entries, none more recently touched than an evictable survivor |
| `OptimizerLru.LoadedOutlives` | python/sodl_weights/optimizer_state.py:171-184 | over every run with a clock that does not go back: when a block that was loaded and stayed since leaves to make room, every clean unpinned entry left was used by some operation no earlier than that load |
| `OptimizerLru.LoadStays` | python/sodl_weights/optimizer_state.py:271-300 | a load that finds its block leaves it cached and touched now, or leaves no clean unpinned entry touched before now |
| `OptimizerLru.PinnedStays` | python/sodl_weights/optimizer_state.py:171-184 | a pinned cached entry stays until it is unpinned or the process dies, whatever is stored, loaded, flushed, evicted or resized |
| `OptimizerLru.RoomIsMade` | python/sodl_weights/optimizer_state.py:171-184 | between operations the clean unpinned entries number at most the capacity |
| `OptimizerState.FlushKeeps` | python/sodl_weights/optimizer_state.py:360-389 | a flush keeps the live view of every origin, makes the flushed blocks durable with their live payloads, cleans exactly those entries, and leaves other origins' disk view alone |
| `OptimizerState.FlushOriginMakesDurable` | python/sodl_weights/optimizer_state.py:351-358 | after flushing an origin none of its entries is dirty and its durable view equals its live view |
| `OptimizerBackend.OptimizerStateBackend.FlushBlocks` | python/sodl_weights/optimizer_state.py:360-389 | the loop puts missing blobs, cleans entries, replaces the manifest and enforces capacity as the flush relation says; afterwards disk answers for the listed blocks as memory does, and the invariants hold between and inside operations |
| `OptimizerState.FlushRecords` | python/sodl_weights/optimizer_state.py:360-389 | after a flush the manifest record of each flushed block gives the entry's step and metadata, both sizes and the time, and names the stored compressed payload |
| `OptimizerBackend.OptimizerStateBackend.FlushOrigin` | python/sodl_weights/optimizer_state.py:351-358 | flushes exactly the cached blocks of the origin; afterwards nothing is dirty and disk answers like memory |
| `OptimizerState.StoreKeeps` | python/sodl_weights/optimizer_state.py:232-271 | a batch changes the live view to the last payload named per block and nothing else, keeps all bounds, and once the threshold is reached leaves the origin clean and durable |
| `OptimizerBackend.OptimizerStateBackend.StoreBlocks` | python/sodl_weights/optimizer_state.py:232-271 | stages every write dirty and flushes when the origin's dirty count reaches the threshold; each result gives raw size, dirty count and flushed flag, and after a flush the id and size of the blob on disk that holds the last payload of its block, else no blob and size zero |
| `OptimizerBackend.OptimizerStateBackend.StoreBlock` | python/sodl_weights/optimizer_state.py:186-230 | is the batch of one: only this block's live payload changes, and the result has the same fields, for this payload |
| `OptimizerState.LoadKeeps` | python/sodl_weights/optimizer_state.py:273-299 | a load, hit or fetch with eviction, changes neither live nor durable view and keeps the bounds |
| `OptimizerBackend.OptimizerStateBackend.LoadBlock` | python/sodl_weights/optimizer_state.py:273-299 | returns exactly the live payload, or nothing when neither cache nor disk has the block |
| `OptimizerBackend.OptimizerStateBackend.LoadBlocks` | python/sodl_weights/optimizer_state.py:301-308 | returns the live payloads of exactly the listed blocks that have one |
| `OptimizerBackend.OptimizerStateBackend.PrefetchBlocks` | python/sodl_weights/optimizer_state.py:310-318 | counts the listed blocks that have a payload and changes no answer |
| `OptimizerBackend.OptimizerStateBackend.PinBlocks` | python/sodl_weights/optimizer_state.py:320-326 | adds exactly the blocks' keys to the pinned set, with the entry flags agreeing, and changes no answer |
| `OptimizerBackend.OptimizerStateBackend.UnpinBlocks` | python/sodl_weights/optimizer_state.py:328-335 | removes exactly the blocks' keys from the pinned set, then enforces capacity; bounds and answers stay |
| `OptimizerBackend.OptimizerStateBackend.EvictBlocks` | python/sodl_weights/optimizer_state.py:337-349 | drops exactly the listed entries that are clean and unpinned, counts them, and changes no answer |
| `OptimizerBackend.OptimizerStateBackend.SetCacheCapacity` | python/sodl_weights/optimizer_state.py:415-418 | clamps the capacity to at least one and evicts down to it without changing an answer |
| `OptimizerRuns.StepRefines` | python/sodl_weights/optimizer_state.py:186-389 | every operation, a crash and restart included, is a step of a plain map from block to payload |
| `OptimizerRuns.RunRefinesMap` | python/sodl_weights/optimizer_state.py:117-418 | every run is a run of the plain map, and every state on the way satisfies all invariants: keys, flags, content addressing, clean entries equal to disk, capacity and threshold bounds |
| `OptimizerRuns.LoadReturnsLastStored` | python/sodl_weights/optimizer_state.py:273-299 | over any crash-free run a load answers with the last payload stored for that block, under any capacity, threshold, pinning and flush schedule |
| `OptimizerRuns.BatchRunsAgree` | python/sodl_weights/optimizer_state.py:232-271 | two crash-free runs, under any limits, clocks and flushes, that differ in `store_blocks` against the same `store_block` calls in order end with every load answering alike |
| `OptimizerRuns.CrashLosesFew` | python/sodl_weights/optimizer_state.py:351-389 | a crash loses the newest payload of fewer than the write-back threshold of blocks per origin |
| `OptimizerRuns.MidFlushCrash` | python/sodl_weights/optimizer_state.py:360-389 | a crash between any two puts of a flush, or between the last one and the replacement of its manifest, is one of the crashes the run theorem covers |
| `OptimizerTorn.CrashInsidePut` | python/sodl_weights/store.py:158-162 | a crash inside a put, which leaves any bytes under the blob's name, changes no durable answer, and no manifest names the torn file |
| `OptimizerTorn.StepWithout` | python/sodl_weights/optimizer_state.py:186-418 | as long as no flush writes a torn payload again, each operation acts as if the torn files were not there |
| `OptimizerTorn.TornRunRefinesMap` | python/sodl_weights/optimizer_state.py:117-418 | torn files included, any run that does not flush a torn payload again is a run of the plain map, with every load answering as the map does |
| `OptimizerRuns.RecoveryNeedsIntactBlob` | python/sodl_weights/optimizer_state.py:368-387 | since an existing blob file is not rewritten, a flushed block reads back exactly when a file already there was intact |
| `OptimizerRuns.SharedManifestFile` | python/sodl_weights/optimizer_state.py:142-144 | two origins read the same manifest on every disk exactly when their safe names coincide, as for `a:b` and `a/b` |
| `BlockLayout.BlockIdInjective` | python/sodl_weights/offload_optimizer.py:120-152 | block ids differ for different groups or block numbers |
| `BlockLayout.LayoutPartitions` | python/sodl_weights/offload_optimizer.py:120-152 | every parameter lies in exactly one block, no block is empty, and no two blocks share an id |
| `BlockLayout.BuildLayout` | python/sodl_weights/offload_optimizer.py:120-152 | the nested loops over groups and ranges produce that layout |
| `SodlAdamW.NamesMustDiffer` | python/sodl_weights/offload_optimizer.py:284-309 | a block's name-keyed state can carry every assignment of moments exactly when its parameter names differ |
| `SodlAdamW.Optimizer.UpdateBlock` | python/sodl_weights/offload_optimizer.py:277-309 | the inner loop updates exactly the parameters of the block that have a gradient and leaves the block state the plain optimizer would have |
| `SodlAdamW.Optimizer.StepPerBlock` | python/sodl_weights/offload_optimizer.py:262-332 | with the background flush fired before any load and any store, loading and storing block by block yields the plain optimizer's parameters and stored moments |
| `SodlAdamW.Optimizer.StepBatched` | python/sodl_weights/offload_optimizer.py:253-334 | the same for one batch of loads, with the flush fired before any of them, and one batched store |
| `SodlAdamW.Optimizer.Step` | python/sodl_weights/offload_optimizer.py:246-352 | a step in either mode, under any cache, flush and pinning schedule, equals one step of AdamW keeping its moments in a plain map and keeps the pinned set equal to the window; when some block has a gradient and the step index is a multiple of flush_every, a synchronous step returns with all those blocks saved on disk and an asynchronous one with each saved or submitted; blocks without a gradient stay saved |
| `SodlAdamW.Optimizer.FinishStep` | python/sodl_weights/offload_optimizer.py:336-350 | when a flush is due, all touched blocks are on disk or, if asynchronous, submitted; when none is due and none is pending nothing is written; window update and unpinning of stale blocks change no stored moment, lose nothing on disk, and keep the store's pins equal to the window |
| `SodlAdamW.Optimizer.UpdatePinWindow` | python/sodl_weights/offload_optimizer.py:235-243 | the origin's pinned keys become exactly the first max(1, lookahead) touched blocks, with the flush fired before the unpin and before the pin |
| `SodlAdamW.Optimizer.ScheduleFlush` | python/sodl_weights/offload_optimizer.py:222-233 | nothing without blocks; otherwise waits until the previous flush is on disk, then leaves these blocks on disk or, in asynchronous mode, submitted; no payload changes |
| `SodlAdamW.Optimizer.LoadBlockStates` | python/sodl_weights/optimizer_state.py:301-308 | the single loads of a batch, which holds no lock between them: each id has a payload exactly if the store had one at the start, and it is that one |
| `SodlAdamW.Optimizer.Train` | python/sodl_weights/offload_optimizer.py:246-352 | any sequence of gradients under any firing of the flusher produces exactly the parameters and moments of the plain optimizer; with a synchronous flush at every step the disk alone holds all moments at the end |
| `SodlAdamW.Optimizer.Flush` | python/sodl_weights/offload_optimizer.py:362-370 | waits for the submitted flush and leaves no dirty block; disk then holds every block's moments |
| `SodlAdamW.Optimizer.LoadStateDict` | python/sodl_weights/offload_optimizer.py:395-415 | sets the step and empties the pinned window, and changes no parameter and no moment |
| `SodlAdamW.Restart` | python/sodl_weights/offload_optimizer.py:372-415 | saving, losing the process and loading into a new optimizer over the same disk and parameters continues at the same parameters, moments and step |
| `SodlAdamW.PlainRunSplits` | python/sodl_weights/offload_optimizer.py:246-352 | the plain run over two stretches of gradients is the second one from the end of the first, so a restart between them changes nothing |
| `SodlAdamW.ParametersRunAlone` | python/sodl_weights/offload_optimizer.py:246-352 | the plain run treats every parameter by itself: each of its gradients, at the number of its step, updates it and its moments, other steps leave both, and every call counts one step |
| `GearHash.LowBitsAreWindow` | crates/sodl-chunk/src/fastcdc.rs:101-106 | despite 64-bit wrap-around the low k bits of the hash equal the gear sum of the last k bytes |
| `GearHash.GearBits` | crates/sodl-chunk/src/fastcdc.rs:26-42 | the table bit by bit: the first entry is one xorshift round (13, 7, 17, on 64 bits) from 42, every other one round from the entry before |
| `GearHash.AndMaskIsMod` | crates/sodl-chunk/src/fastcdc.rs:86-89 | `&` with the mask of k ones is the remainder modulo 2^k |
| `FastCdc.MaskBitsAreLog` | crates/sodl-chunk/src/fastcdc.rs:80-89 | the mask keeps floor(log2(avg_size)) bits |
| `FastCdc.MaskPromiseIff` | crates/sodl-chunk/src/fastcdc.rs:80-89 | the mask keeps the promised ceil(log2(avg_size)) - 1 bits exactly when avg_size is not a power of two |
| `FastCdc.DefaultMask` | crates/sodl-chunk/src/fastcdc.rs:53-60 | for the default average of 65536 it keeps 16 bits, not the promised 15 |
| `FastCdc.HitIsWindowTest` | crates/sodl-chunk/src/fastcdc.rs:101-108 | once k bytes past the minimum are hashed the cut test is a test of the last k bytes alone |
| `FastCdc.EqualWindowsHitAlike` | crates/sodl-chunk/src/fastcdc.rs:101-108 | equal windows are tested alike wherever their chunks began |
| `FastCdc.FindCut` | crates/sodl-chunk/src/fastcdc.rs:95-113 | returns the first hit after the minimum or the forced cut at the maximum |
| `FastCdc.CutIsUnique` | crates/sodl-chunk/src/fastcdc.rs:95-113 | a position is that first hit or forced cut exactly when it is the cut point |
| `FastCdc.SplitCovers` | crates/sodl-chunk/src/fastcdc.rs:117-141 | the chunks concatenate to the payload, every chunk is non-empty and at most max_size, and every non-final one exceeds min_size |
| `FastCdc.PrefixChunksStay` | crates/sodl-chunk/src/fastcdc.rs:117-141 | chunks ending inside a common prefix, before the end of the payload, are chunks of the other payload too |
| `FastCdc.ChunksFromBoundary` | crates/sodl-chunk/src/fastcdc.rs:117-141 | from a boundary on the chunks are those of the remaining bytes alone |
| `FastCdc.EditLocality` | crates/sodl-chunk/src/fastcdc.rs:117-141 | an edit changes only the chunks between the last kept boundary before it and the first shared boundary after it |
| `FastCdc.CutResyncs` | crates/sodl-chunk/src/fastcdc.rs:101-113 | a cut found by the hash in one payload is a cut of another where the same window ends, unless that one is cut before it |
| `FastCdc.Resynchronises` | crates/sodl-chunk/src/fastcdc.rs:117-141 | after an edit, once an old hash cut has its window behind the edit and the new chunk there began early enough and reaches it, the chunkings meet there and all later chunks are the old ones |
| `ChunkPipeline.ChunkCdc` | crates/sodl-chunk/src/fastcdc.rs:117-141 | the loop yields exactly those chunks with their offsets and lengths |
| `ChunkPipeline.ChunkFixed` | crates/sodl-chunk/src/lib.rs:97-112 | the loop yields consecutive pieces of the fixed size, the last one shorter |
| `ChunkPipeline.PiecesCover` | crates/sodl-chunk/src/lib.rs:63-73 | both chunkers cover the payload exactly with u32 lengths and give no empty chunk of a non-empty payload |
| `ChunkPipeline.ChunkAndStore` | crates/sodl-chunk/src/lib.rs:216-281 | stores inline at or below the threshold, else every chunk and a manifest; the payload can be read back through the root blob; the bytes stored under the returned chunk ids, and under the ids `compute_chunk_blob_ids` gives, joined in order are the payload, and the manifest lists those chunk ids in that order with the hash algorithm and the size |
| `ChunkPipeline.PutAllVerifies` | crates/sodl-chunk/src/lib.rs:216-281 | after storing a list of pieces every id in the list is present and its bytes verify against it |
| `ChunkPipeline.Validate` | crates/sodl-chunk/src/manifest.rs:47-78 | accepts exactly the manifests with version 1, the u32 count, the u64 total and contiguous u64 offsets, and says which check failed first |
| `ChunkPipeline.WellFormedIffTiles` | crates/sodl-chunk/src/manifest.rs:47-78 | the validator accepts exactly the version 1 manifests that count their chunks and whose chunks tile the payload: the first starts at zero, each starts where the one before ends, and the last ends at the total, in u64 |
| `ChunkPipeline.Reassemble` | crates/sodl-chunk/src/lib.rs:308-327 | returns the concatenation of verified chunks of the recorded lengths, or reports the missing or corrupt one |
| `ChunkPipeline.ReassembledIff` | crates/sodl-chunk/src/lib.rs:308-327 | a payload is the answer exactly when every listed chunk is stored, verifies and has its recorded length, and their bytes in order are that payload, of the recorded size |
| `ChunkPipeline.ManifestWellFormed` | crates/sodl-chunk/src/manifest.rs:47-78 | for either chunker the manifest built for a payload passes the validator |
| `ChunkPipeline.RoundTrip` | crates/sodl-chunk/src/lib.rs:308-327 | for either chunker and every payload, the stored manifest decodes, is well-formed and reassembles to the payload |
| `ChunkPipeline.ManifestFixesBytes` | crates/sodl-chunk/src/lib.rs:308-327 | two stores from which one manifest reassembles give the same bytes |
| `RefGc.IncAllCounts` | crates/sodl-index/src/lib.rs:139-146 | counting a list of references raises each count by its multiplicity |
| `RefGc.DecAllCounts` | crates/sodl-index/src/lib.rs:147-158 | releasing references that are held lowers each count by its multiplicity; the clamp at zero never fires |
| `RefGc.Server.CreateBlob` | crates/sodl-api/src/handlers.rs:589-633 | bad request on a digest mismatch, else stores the body under its digest if it was absent, and reports whether it was there |
| `RefGc.Server.DeleteBlob` | crates/sodl-api/src/handlers.rs:657-679 | not found, conflict while counted, and otherwise exactly this blob is gone |
| `RefGc.Server.CreateOrigin` | crates/sodl-api/src/handlers.rs:203-296 | counts the leading complete representations with their edges, and registers the origin only if all are complete and its id is free; then each blob's counter rose by how often the representations name it, and each root got one edge per representation |
| `RefGc.Server.Upload` | crates/sodl-service/src/lib.rs:104-212 | stores chunks and root, registers one representation with the root, and counts the root once and each chunk as often as it occurs |
| `RefGc.Server.TombstoneOrigin` | crates/sodl-service/src/lib.rs:485-513 | clears the registered representations; each counter that held as much falls by how often they name its blob |
| `RefGc.Server.Plan` | crates/sodl-gc/src/lib.rs:104-139 | plans each tracked, unreferenced, unpinned, expired origin and each tracked zero-count blob once; a failing policy lookup aborts |
| `RefGc.Server.Execute` | crates/sodl-gc/src/lib.rs:149-174 | appends one tombstone per planned item, in order, and deletes the planned blobs |
| `RefGc.Server.GcRound` | crates/sodl-gc/src/lib.rs:104-174 | plan and execute as one step, or nothing when planning fails |
| `RefGc.StepKeeps` | crates/sodl-api/src/handlers.rs:203-296 | every operation keeps: count = registered references + leaked references, counted blobs stored, stored blobs under their digest |
| `RefGc.LiveBlobsStay` | crates/sodl-gc/src/lib.rs:104-174 | over every run each count equals registered plus leaked references, and every blob a registered representation names is stored under its digest |
| `RefGc.PlanNeverFails` | crates/sodl-gc/src/lib.rs:107-129 | in every reachable state the planner's policy and registry lookups succeed |
| `RefGc.GcDeletesExactly` | crates/sodl-gc/src/lib.rs:131-173 | a collection removes exactly the tracked blobs that no representation references and no leak holds |
| `RefGc.CreateLeaksIff` | crates/sodl-api/src/handlers.rs:233-287 | a `create_origin` widens the gap between a blob's count and its registered references exactly when the id is taken or a representation is incomplete, and a complete one before the first incomplete one has that root |
| `RefGc.LeakedForever` | crates/sodl-api/src/handlers.rs:657-679 | a leaked blob outlives every later run of releases, deletes and collections |
| `RefGc.UploadResidue` | crates/sodl-service/src/lib.rs:485-513 | uploading an origin and deleting it returns every blob's registered references to what they were and leaves its count higher by the number of times it occurs among the chunks: the root is given back, the chunks are not |
| `RefGc.ChunksOutliveTheirOrigin` | crates/sodl-service/src/lib.rs:485-513 | so every chunk of a deleted upload stays stored through every later run |
| `RefGc.StoredSurvivesIff` | crates/sodl-gc/src/lib.rs:131-135 | a blob stored afresh is collected in the next round exactly when its counter is already tracked at zero |
| `RefGc.TombstoneIsIdempotent` | crates/sodl-service/src/lib.rs:485-513 | releasing an origin twice releases it once |
| `Replication.HealthyCountWithStale` | crates/sodl-replica/src/lib.rs:93-111 | counts the nodes recorded Healthy and seen within the whole-second staleness bound |
| `Replication.AuditOrigin` | crates/sodl-gc/src/lib.rs:192-221 | empty without an active pin, not found without policy or record, else one repair item per deficient root blob in order |
| `Replication.CanDeleteOriginBytes` | crates/sodl-gc/src/lib.rs:239-262 | true without an active pin, else whether every root blob has the required fresh healthy copies |
| `Replication.GateOpensIff` | crates/sodl-gc/src/lib.rs:239-262 | the gate is open exactly without an active pin, or for a known origin each of whose root blobs has a node with a Healthy record at most stale whole seconds old if the policy gives no minimum, and at least n such nodes if it gives n; it errs exactly on a pinned unknown origin |
| `Replication.AuditAsks` | crates/sodl-gc/src/lib.rs:192-221 | for a pinned known origin the audit succeeds, asks for exactly the root blobs that lack their copies, and each item gives how many fresh healthy copies there are, how many the policy wants (one by default) and the difference |
| `Replication.DeficitsExact` | crates/sodl-gc/src/lib.rs:203-221 | the items name exactly the deficient root blobs with their true deficits |
| `Replication.AuditEmptyIffDeletable` | crates/sodl-gc/src/lib.rs:192-262 | on every state, errors included, the audit is empty exactly when the gate says true |
| `Replication.ReplicaExecutor.FindSource` | crates/sodl-replica/src/lib.rs:171-181 | finds a mesh node holding the blob whenever there is one |
| `Replication.ReplicaExecutor.Replicate` | crates/sodl-replica/src/lib.rs:183-206 | copies to min(missing, free) nodes not recorded Healthy, records each, and touches nothing else |
| `Replication.ReplicaExecutor.RepairBlob` | crates/sodl-replica/src/lib.rs:160-209 | does nothing for no deficit, reports not found and changes nothing when no node holds the blob, else replicates |
| `Replication.ReplicaExecutor.Execute` | crates/sodl-replica/src/lib.rs:153-158 | repairs the items in order and succeeds exactly when every deficient blob is held somewhere; on an error it stops at the first item that is not, with exactly the items before it done |
| `Replication.ExecutionCounts` | crates/sodl-replica/src/lib.rs:153-209 | an execution makes as many fresh copies of each blob as the plan asks for, or as there are free nodes, and uses up as many free nodes |
| `Replication.ReauditIff` | crates/sodl-replica/src/lib.rs:153-209 | at any clock at which the new records are fresh, the re-audit is empty exactly when every root's old copies still fresh then and the copies made, as many as planned or as nodes were free, suffice |
| `Replication.RepairConverges` | crates/sodl-replica/src/lib.rs:153-209 | executing an audit's plan makes an audit at any later clock, at which the new records and the old copies are still fresh, empty exactly when every deficient root had as many free nodes as were missing |
| `Replication.RecordsAreTrue` | crates/sodl-replica/src/lib.rs:153-209 | every health record written belongs to a node that holds a copy of the bytes, and no stored blob changes |
| `TokenLayout.RenumberLaws` | python/sodl_weights/token_hash.py:899-909 | renumbering makes the labels exactly 0..k-1, keeps which tokens share a cluster and the label order, and carries each centroid along |
| `TokenLayout.MemberTableInverts` | python/sodl_weights/token_hash.py:302-307 | the member table has exactly the k clusters, none empty, and lists each token once, ascending, under its own label |
| `TokenLayout.MeanBalances` | python/sodl_weights/token_hash.py:912-916 | the offsets of a cluster's rows from the recomputed centroid add up to zero in every column |
| `Vectors.DistanceZeroIff` | python/sodl_weights/token_hash.py:968-968 | the distance by which clusters are compared is never negative, and zero exactly between equal rows |
| `Vectors.DistanceByCoordinate` | python/sodl_weights/token_hash.py:968-968 | changing one coordinate changes the distance by the difference of the two squares, so each column counts once and alike |
| `TokenRebalance.AssignHalves` | python/sodl_weights/token_hash.py:953-955 | sends each member of the split cluster to the half its local label names and leaves every other label |
| `TokenRebalance.SplitIsOnto` | python/sodl_weights/token_hash.py:945-957 | a split leaves no empty cluster, so its renumbering is the identity |
| `TokenRebalance.NextKeeps` | python/sodl_weights/token_hash.py:936-974 | a step keeps labels and clusters matched and either adds one cluster inside an old one or, from more than two, merges two into one |
| `TokenRebalance.NextIsDirected` | python/sodl_weights/token_hash.py:936-974 | in members counts: a step splits the first largest cluster exactly when some cluster has more than max_ratio times the members of another; otherwise it merges the first smallest into its first nearest, every cluster then having fewer than uniform_ratio times the members of any, with more than two clusters; no other cluster is touched |
| `TokenRebalance.RatioLaws` | python/sodl_weights/token_hash.py:942-943 | for gap-free labels the ratio is at most m exactly when no cluster has more than m times the members of another, and below m likewise |
| `TokenRebalance.Pass` | python/sodl_weights/token_hash.py:936-974 | one pass of the loop body makes that step, or breaks |
| `TokenRebalance.LoopLaws` | python/sodl_weights/token_hash.py:935-974 | the loop ends within the step bound, moves the cluster count by at most the steps taken, and never drops below two clusters from two or more |
| `TokenRebalance.RebalanceLaws` | python/sodl_weights/token_hash.py:919-978 | the result has labels exactly 0..k-1 with no empty cluster, the offsets of each cluster's rows from its centroid add up to zero, within the step bound; stopped early, either some cluster exceeds max_ratio times another and the first largest cannot be split, or not all clusters are under uniform_ratio times each other, or at most two are left |
| `TokenRebalance.Rebalance` | python/sodl_weights/token_hash.py:919-978 | the whole routine computes that layout and step count, renumbers only when not adaptive, and raises on an empty vocabulary |
| `TokenExport.ChangedClustersLaws` | python/sodl_weights/token_hash.py:588-591 | a cluster is exported exactly when one of its tokens moved beyond tolerance, all of them on the first export |
| `TokenExport.OverlayLaws` | python/sodl_weights/token_hash.py:506-541 | overlaying exported clusters rewrites exactly their members' rows with the exported values |
| `TokenExport.RoundEffect` | python/sodl_weights/token_hash.py:573-629 | after an export a written token is exact at the receiver; an unwritten one keeps its row and is close to the previous snapshot |
| `TokenExport.ReceiverWithinSlack` | python/sodl_weights/token_hash.py:573-629 | after any exports the receiver is within the sum of tolerances granted since each token was written |
| `TokenExport.ErrorPerExport` | python/sodl_weights/token_hash.py:573-629 | with rtol = 0 the error is at most m * atol, m the exports since the token was written |
| `TokenExport.ZeroToleranceIsExact` | python/sodl_weights/token_hash.py:573-629 | with zero tolerances the receiver holds the current embeddings, whatever layouts were used on the way |
| `TokenExport.DriftIsNeverExported` | python/sodl_weights/token_hash.py:573-629 | the bound is reached: a drift of atol per export is never exported, so the error is n * atol after n exports |
| `TokenExport.UnmarkedExportGoesStale` | python/sodl_weights/token_hash.py:617-618 | with `mark_snapshot=False` a value that went and came back is not re-exported and the receiver stays wrong |
| `TokenExport.UnmarkedExactIff` | python/sodl_weights/token_hash.py:617-618 | after an unmarked export the next one is exact for a token exactly when its cluster moved since the snapshot or the unmarked export left the token as it was |
| `TokenIndex.ResidualsRebuild` | python/sodl_weights/token_hash.py:296-297 | centroid plus offset gives every embedding row back |
| `TokenIndex.DeltaReplays` | python/sodl_weights/token_hash.py:597-615 | previous row, centroid delta and offset delta add up to the new row, and the centroid delta is the difference of the points about which the new and the previous rows of the cluster balance |
| `TokenIndex.TokenHashIndex.constructor` | python/sodl_weights/token_hash.py:282-315 | the tail of the build stores the rebalanced layout, offsets that rebuild the data, and the inverse member table |
| `TokenIndex.TokenHashIndex.Adapt` | python/sodl_weights/token_hash.py:728-783 | reassigns rows to their closest centroid and rebalances; a shape mismatch changes nothing; the export snapshot is kept |
| `TokenIndex.TokenHashIndex.ExportWeightClusters` | python/sodl_weights/token_hash.py:506-541 | exports the named non-empty clusters ascending and as often as named, or all of them, from the given embeddings or from what the stored offsets rebuild |
| `TokenExport.ExportOneLaws` | python/sodl_weights/token_hash.py:506-541 | an exported cluster has its id and centroid, lists exactly the tokens with its label in order, and gives each one's offset from the centroid |
| `TokenIndex.SortedIdsLaws` | python/sodl_weights/token_hash.py:521-526 | the ids exported are in ascending order, each existing cluster as often as it was requested and no other |
| `TokenIndex.TokenHashIndex.ChangedTokenIds` | python/sodl_weights/token_hash.py:551-571 | exactly the tokens with a coordinate not close to the last snapshot, or all without one, in ascending order |
| `TokenExport.MovedIff` | python/sodl_weights/token_hash.py:551-571 | a token moved exactly when there was no export or some column is further from its exported value than atol plus rtol times the size of that value |
| `TokenIndex.TokenHashIndex.ExportIncrementalClusters` | python/sodl_weights/token_hash.py:573-629 | changed tokens, changed clusters, all other clusters, the changed clusters' export and deltas, and the snapshot moved only if asked |
| `TokenIndex.TokenHashIndex.MarkExportSnapshot` | python/sodl_weights/token_hash.py:543-549 | stores the snapshot or refuses a wrong shape |
| `VectorIndex.Build` | python/sodl_weights/vector_index.py:106-183 | id, metadata and metric errors in the source's order, and zero shard size; a positive shard size cuts the prepared vectors and their records into full shards and a shorter last one; a negative one gives no shards |
| `VectorIndex.ArgSortDescending` | python/sodl_weights/vector_index.py:213-214 | a best-first permutation of the shard, ties in any order |
| `VectorIndex.Pigeonhole` | python/sodl_weights/vector_index.py:209-231 | the counting step: a best-first list with a place for each of i+1 good entries has place i as good |
| `VectorIndex.CandidatesStep` | python/sodl_weights/vector_index.py:210-229 | an item cut in a shard is beaten by top_k kept items of that shard |
| `VectorIndex.MergeIsTopK` | python/sodl_weights/vector_index.py:230-231 | sorting the kept items and cutting the list gives the top_k of all items |
| `VectorIndex.FiltersExactIff` | python/sodl_weights/vector_index.py:209-231 | since the filter runs after the shards' cuts: over records that some metadata key tells apart, every filter gets the exact top_k of its matches exactly when no position was cut |
| `VectorIndex.CutKeepsAllIff` | python/sodl_weights/vector_index.py:213-215 | a shard keeps all its items exactly when it has at most top_k |
| `VectorIndex.FilteredIsMatchTopK` | python/sodl_weights/vector_index.py:209-231 | where no candidate was cut, the filtered result is the top_k of the matching items |
| `VectorIndex.TopKIsGlobalPrefix` | python/sodl_weights/vector_index.py:230-231 | the score sequence is the first top_k of the globally sorted scores, for every way of breaking ties |
| `VectorIndex.SortHits` | python/sodl_weights/vector_index.py:230-230 | returns a rearrangement of the hits in descending score, every hit still at its item |
| `VectorIndex.Query` | python/sodl_weights/vector_index.py:188-231 | for top_k >= 0 and any sharding: no item twice, the hits are the records and scores of matching items that survived their shard's cut, best first; nothing is cut exactly when no shard is larger than top_k; without a filter the hits are the exact top_k of all items, and with one the exact top_k of the matching items if nothing is cut |
| `VectorIndex.CosineIgnoresLength` | python/sodl_weights/vector_index.py:101-104 | with cosine, stretching rows and query by any positive factors changes neither the indexed rows nor the probe, hence no answer; with dot both are taken as they are |
| `VectorIndex.CosineScores` | python/sodl_weights/vector_index.py:206-213 | cosine scores of rows that are not zero lie in -1 to 1, and are 1 exactly for positive multiples of the query |
| `VectorIndex.FilterLaws` | python/sodl_weights/vector_index.py:218-221 | the empty filter matches everything, and one key more narrows a filter by that key alone; null also asks for a missing key |
| `Cosine.DotLaws` | python/sodl_weights/vector_index.py:213-213 | a score is symmetric and linear, and picks a column out with a unit row, which fixes it |
| `Cosine.NormalizedLength` | python/sodl_weights/vector_index.py:101-104 | normalizing brings every row that is not zero to length one and leaves a zero row alone |
| `Quantizer.ClipNeverFires` | python/sodl_weights/store.py:318-322 | for a scale near max/127 the clip changes nothing and the error is at most half the scale |
| `Quantizer.RowIsStable` | python/sodl_weights/store.py:318-322 | row mode, for a scale that does not overflow: no clip, half-scale error, and quantising the decoded row gives the same scale and bytes |
| `Quantizer.ClusterIsStable` | python/sodl_weights/store.py:325-329 | one-scale mode, for a scale that does not overflow: no clip, half-scale error for the unrounded scale, and the same bytes again |
| `Quantizer.ClusterError` | python/sodl_weights/store.py:325-329 | what rounding the one scale to float32 adds to the error |
| `Q8Codec.WireRoundTrip` | python/sodl_weights/store.py:361-376 | reading the written fields gives them back, scales and centroid rounded, with the cursor at the end of the buffer |
| `Q8Codec.RoundTrip` | python/sodl_weights/store.py:388-437 | decoding the encoding of a cluster within the formats' range gives the same dim and ids, the half-precision centroid, every offset within its bound, and the cursor at the buffer's end |
| `Q8Codec.ReencodingIsIdentical` | python/sodl_weights/store.py:332-376 | encoding a decoded cluster gives identical bytes |
| `Q8Codec.DecodedIsFixed` | python/sodl_weights/store.py:332-437 | a decoded cluster is again within the formats' range and decodes to itself |
| `SampleFormats.LawsCanBeMet` | python/sodl_weights/store.py:361-376 | the laws assumed of float32, float16 and JSON hold of a concrete fixed-point instance |
| `Q8Codec.Decode` | python/sodl_weights/store.py:388-437 | the cursor-driven decoder returns what the field description says, and fails on short buffers and bad headers |
| `LineageProof.SortIsOrdered` | crates/sodl-proof/src/lib.rs:94-94 | sorting orders the edges by id |
| `LineageProof.PermutationInvariant` | crates/sodl-proof/src/lib.rs:89-127 | edges with distinct ids hash to the same byte string in any order |
| `LineageProof.CanonicalIsInjective` | crates/sodl-proof/src/lib.rs:98-120 | with newline-free fields two byte strings are equal exactly when origin and hashed fields are, edge by edge |
| `LineageProof.KindStringInjective` | crates/sodl-proof/src/lib.rs:130-139 | kind strings are distinct for distinct kinds when share id and sender contain no colon |
| `LineageProof.KindsCollideIff` | crates/sodl-proof/src/lib.rs:130-139 | two given kinds collide exactly when both are shares whose three fields read the same joined by colons |
| `LineageProof.KindIsAmbiguousIff` | crates/sodl-proof/src/lib.rs:130-139 | some other kind has the kind string of a given one exactly when that one is a share with a colon in its id, sender or receiver |
| `LineageProof.ColonsConfuseShares` | crates/sodl-proof/src/lib.rs:130-139 | an example of two such shares |
| `LineageProof.ProjectInjective` | crates/sodl-proof/src/lib.rs:103-120 | for such kinds and no blob named `-`, equal hashed fields mean equal edges up to the time stamp |
| `LineageProof.GenerateProofUnsigned` | crates/sodl-proof/src/lib.rs:89-127 | sorting in place and feeding piece by piece hashes exactly the canonical string |
| `LineageProof.CanonicalExample` | crates/sodl-proof/src/lib.rs:89-127 | the hashed bytes of one proof with one pin edge, written out |
| `PinRegistry.WeightPinRegistry.ShedExcept` | python/sodl_weights/pin_registry.py:125-149 | removes the least used unprotected, unnamed entries, as many as it takes or all there are |
| `PinRegistry.WeightPinRegistry.Pin` | python/sodl_weights/pin_registry.py:50-62 | sheds to max(max_entries - 1, 0), then inserts the entry with count one |
| `PinRegistry.PinBoundsUnprotected` | python/sodl_weights/pin_registry.py:50-62 | after any pin the unprotected entries number at most max(1, max_entries) |
| `PinRegistry.PinEvicts` | python/sodl_weights/pin_registry.py:50-62 | a pin below the limit evicts nothing; a new one at the limit evicts exactly as many unprotected entries as it must, or has |
| `PinRegistry.UsedMoreOutlives` | python/sodl_weights/pin_registry.py:125-149 | a pin never evicts an entry and keeps an unprotected one that was used less |
| `PinRegistry.ReadMoreOutlives` | python/sodl_weights/pin_registry.py:64-71 | of two entries used alike before, the one read more often since outlives the other at the next pin |
| `PinRegistry.ShedKeepsProtected` | python/sodl_weights/pin_registry.py:125-149 | shedding keeps every identity or logic pin and every named entry unchanged |
| `PinRegistry.WeightPinRegistry.Get` | python/sodl_weights/pin_registry.py:64-71 | returns the cluster and raises its access count by one |
| `PinRegistry.WeightPinRegistry.Hydrate` | python/sodl_weights/pin_registry.py:82-89 | replaces the cluster and keeps reason and count, or reports absence |
| `PinRegistry.WeightPinRegistry.Unpin` | python/sodl_weights/pin_registry.py:91-100 | absent, refused for protected pins, or removed |
| `PinRegistry.WeightPinRegistry.ShedNonActive` | python/sodl_weights/pin_registry.py:111-123 | what remains is exactly the protected and the active entries, unchanged; returns how many are gone |
| `PinRegistry.WeightPinRegistry.Save` | python/sodl_weights/pin_registry.py:155-179 | the snapshot has the limit and every pin's reason and access count, and no cluster |
| `PinRegistry.WeightPinRegistry.Load` | python/sodl_weights/pin_registry.py:182-210 | restores every pin with a placeholder; a missing or zero bound means the stored one |
| `PinRegistry.SaveLoadRoundTrip` | python/sodl_weights/pin_registry.py:155-210 | loading a saved registry gives back every pin with a placeholder, saving that gives the same snapshot, and the restored registry sheds exactly the sets the saved one would |
| `WeightService.LoadIsTransparent` | python/sodl_weights/service.py:256-264 | over any run without deletion, one origin per blob, restarts included, a load returns what the blob store returns now and returned at the start if it had the blob |
| `WeightService.LoadCaches` | python/sodl_weights/service.py:256-284 | a load that succeeds leaves its cluster cached: a new entry used once for the load's reason, or the old entry used once more |
| `WeightService.RestartLoadsSaved` | python/sodl_weights/pin_registry.py:182-210 | a restart keeps the blobs and leaves the registry that loading the saved snapshot gives, with the given bound unless it is missing or zero |
| `WeightService.LoadReturnsStored` | python/sodl_weights/service.py:217-264 | however long after a cluster was stored, and whatever ran before and after, a load of its id for its origin returns its stored form |
| `WeightService.PinnedStaysResident` | python/sodl_weights/service.py:266-276 | once identity- or logic-pinned a blob stays resident and protected through every run |
| `WeightService.LoadAgreesIff` | python/sodl_weights/service.py:256-264 | for any origin a load agrees with the store exactly when the blob is not hot or both origins read it alike |
| `WeightService.CacheIgnoresOrigin` | python/sodl_weights/service.py:256-264 | a second origin that could not open the blob is served the first origin's cached cluster |
| `SampleFormats.SecondOriginOccurs` | python/sodl_weights/service.py:256-264 | a lawful pipeline and a state in which that happens: only the owner can open the blob, and the owner loads it |
| `WeightService.StoredReadsBack` | python/sodl_weights/service.py:217-221 | a stored cluster reads back in its stored form, storing that form again changes nothing, and blobs stay content-addressed |
| `CompactPipeline.CompactIsLawful` | python/sodl_weights/store.py:445-492 | the compact codec under zstd and a deterministic cipher satisfies the laws the service is proved from, with the decoded cluster as the stored form |
| `SampleFormats.PipelineLawsCanBeMet` | python/sodl_weights/store.py:445-492 | the laws assumed of the service's pipeline hold of a concrete instance |
| `WeightService.WeightStoreService.LoadFor` | python/sodl_weights/service.py:256-284 | hot entries are returned, placeholders hydrated, absent clusters fetched and pinned; a failed fetch changes only the access count |
| `WeightService.WeightStoreService.PinIdentityCluster` | python/sodl_weights/service.py:266-270 | pins as identity what the cache or the store has; on success the blob is resident |
| `WeightService.WeightStoreService.PinLogicCluster` | python/sodl_weights/service.py:272-276 | the same for logic pins |
| `WeightService.WeightStoreService.PrefetchClusters` | python/sodl_weights/service.py:286-296 | performs the prefetches in order up to the first blob that cannot be read, and returns exactly how many ids were not hot when their turn came |
| `WeightService.WeightStoreService.EvictCluster` | python/sodl_weights/service.py:298-299 | fails exactly for resident protected blobs, else removes the entry if present |
| `WeightService.WeightStoreService.StoreCluster` | python/sodl_weights/service.py:217-221 | stores the sealed cluster under its digest unless present, and fails without a change if it cannot be encoded |
| `Checkpoints.RunKeeps` | python/sodl_weights/checkpoint.py:281-320 | over every run with fresh ids stored blobs are exactly the referenced ones, registries are ordered and records name what was saved |
| `Checkpoints.RecordsLoad` | python/sodl_weights/checkpoint.py:322-368 | over every such run, with retention, deletes, shared blobs and shared files, each record loads exactly what was saved under its id |
| `Checkpoints.StoredIffReferenced` | python/sodl_weights/checkpoint.py:140-160 | a blob is stored exactly while some registry names it |
| `Checkpoints.SavesApartIff` | python/sodl_weights/checkpoint.py:281-320 | a save for one origin leaves another's registry alone in every state exactly when their safe file names differ |
| `Checkpoints.DeletesApartIff` | python/sodl_weights/checkpoint.py:427-438 | and so does a delete |
| `Checkpoints.SharedFileEvicts` | python/sodl_weights/checkpoint.py:121-123 | two such origins: with one retention for both, saving for the second evicts the first's checkpoint |
| `Checkpoints.LineageUnique` | python/sodl_weights/checkpoint.py:391-397 | an ordered registry has at most one lineage per target |
| `Checkpoints.Climb` | python/sodl_weights/checkpoint.py:391-397 | on an ordered registry the loop terminates with the repeat-free parent chain from a root to the target |
| `Checkpoints.RootlessHasNoLineage` | python/sodl_weights/checkpoint.py:391-397 | nor has any record of a set of records whose parents all lie in the set, so the loop cannot end with one |
| `Checkpoints.CycleHasNoLineage` | python/sodl_weights/checkpoint.py:391-397 | in a registry with unique ids no record on a cycle of parents, of any length, has a lineage |
| `Checkpoints.CheckpointManager.CollectBlobs` | python/sodl_weights/checkpoint.py:150-160 | deletes exactly the removed records' blobs that no registry references |
| `Checkpoints.CheckpointManager.SaveCheckpoint` | python/sodl_weights/checkpoint.py:281-320 | stores the blob and appends the record with this id, step, parent and origin; the registry is then the newest of those records, all without a limit, else min(max_checkpoints, their number); the evicted records' blobs are collected |
| `Checkpoints.RegistryIsNewest` | python/sodl_weights/checkpoint.py:281-320 | over any run without deletions from its file, a registry is the newest of all records ever saved to that file, as many as the limit allows |
| `Checkpoints.CheckpointManager.DeleteCheckpoint` | python/sodl_weights/checkpoint.py:427-438 | removes the record and its unreferenced blob, and says whether it was there |
| `Checkpoints.CheckpointManager.LoadCheckpoint` | python/sodl_weights/checkpoint.py:348-368 | the bytes of the named record or of the latest, or not found |
| `Checkpoints.CheckpointManager.GetLineage` | python/sodl_weights/checkpoint.py:380-397 | empty for an empty registry, not found for an unknown id, else the lineage of the named or latest record |

## Left out

- OptimizerBackend.OptimizerStateBackend.FlushOrigin: lists the keys and flushes them in one step, where the source takes its lock twice when called directly; manifest time stamps are one clock reading.
- OptimizerBackend.OptimizerStateBackend.StoreBlock: does not model an I/O error between clearing the dirty flag and saving the manifest; a crash at that point is `OptimizerRuns.MidFlushCrash` or `OptimizerTorn.CrashInsidePut`.
- SodlAdamW.Optimizer.Step: takes the AdamW tensor update as a function of hyper-parameters, step, parameter, moments and gradient; closures, sparse gradients and the layout metadata of a block are not modelled.
- SodlAdamW.Optimizer.LoadStateDict: models a matching origin and layout fingerprint, whose errors change nothing, and keeps the lookahead and the batch mode the optimizer has.
- ChunkPipeline.ChunkAndStore: takes a payload shorter than 2^64 bytes, as lengths are u64.
- RefGc.Server.Upload: starts from the already encrypted and chunked pieces; fingerprints for provenance are not modelled.
- RefGc.Server.CreateOrigin: media kinds, sizes and owners of the record are not modelled; share, derivation and pin references to origins are not counted, so origin counts are those of representations.
- Replication.ReplicaExecutor.Execute: mesh nodes do not fail between lookup and copy.
- TokenIndex.TokenHashIndex.constructor: one build per object; the k-means fit itself is a parameter.
- VectorIndex.Query: says nothing for a negative top_k, whose slices drop items from the end.
- Q8Codec.RoundTrip: excludes offsets too large for float32 and centroids too large for float16, which become infinities; a negative zero counts as zero.
- Q8Codec.Decode: models the compact format only; products with the scale are exact, and header fields below 2^64 are assumed to survive JSON.
- CompactPipeline.CompactIsLawful: refuses a cluster outside the formats' range where the source would store infinities, and models no cipher with random nonces.
- WeightService.LoadIsTransparent: excludes blob deletion, after which the cache still answers.
- Checkpoints.CheckpointManager.SaveCheckpoint: starts from the serialised bytes; metrics, notes and the other record fields that nothing reads back are dropped, and blobs other clients put in the same store are not modelled.
- The native optimizer, checkpoint and manifest backends: only their Python counterparts are modelled.
- SQLite persistence: its scan lists only positive counts, so the planner would never see a zero; the in-memory index is modelled.
- HTTP routing, clients, federation, metrics, tagging, semantic colour, polar quantisation, softmax and silhouette scores: plumbing or floating-point numerics without an exact statement.
- Signing of lineage digests: only the digest input is modelled.
