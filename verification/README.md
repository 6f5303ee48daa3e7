# A model of rhypedb's vectorize queue, clients and export verifier

rhypedb stores typed objects in a key/value store and embeds text fields into vectors in the
background. This project models the parts of it where correctness rests on an argument across
several operations, and proves that argument for all inputs, all runs or all reachable states.

* **The vectorize queue and its crash recovery** (`Store`, `Reconcile`, `ClaimWalk`, `Processing`,
  `VectorQueue`, `QueueSafety`, `CrashRecovery`, `Drain`, `VectorizerClass`, `Sequential`,
  `Recovery`). The queue is modelled twice. `VectorQueue` is a step relation: enqueuers, the claim
  holder and workers interleave freely over one durable state, each transaction is one step, and
  the process may die between any two of them. `VectorizerClass.Vectorizer` is the object with its
  real loops: the reconcile scan, the windowed claim walk, the grouping of a batch, the pairing of
  jobs with texts and of vectors with jobs. `Sequential` couples the two: opening, an enqueue, a
  claim and the processing of a batch by the object are sequences of steps after which object and
  protocol state agree again. `Recovery` opens the object over the durable state of any point of any
  run and drives it to its fixpoint, which continues that run.
* **Index rebuild** (`IndexRebuild`, `IndexFiles`): snapshot files, the delta over stored vectors,
  and the loop over all indexes.
* **Search results** (`Rescore`, `SearchMerge`) and **model loading** (`Backoff`).
* **The wire format** (`Bytes`, `JobCodec`, `Wire`, `Cursor`, `ValueCodec`, `ObjectCodec`,
  `ObjectPayload`, `PayloadLoops`): frames, the queue entry's bytes, tagged values, objects and
  ranked rows. Decoders are described as functions of a buffer and a position, each layer over the
  one below, and the reader and writer loops are proved to compute them.
* **The client protocol machines** (`Stream`, `Subscription`, `Pipeline`, `AsyncConnection`).
* **The export verifier** (`ExportVerifier`).

`dafny verify dfyconfig.toml` checks everything.

## How the model reads the source

* The key/value store is a `Db` value of four maps (queue, vector states, vectors, objects); a
  snapshot is such a value and a committed transaction one atomic update of it. The one write
  conflict that matters, at the claim's commit, is a step of its own and is proved impossible.
* An object's text does not change once an enqueue names it. Reading a claimed job's text and
  clearing the state of a textless one are separate steps, with anything in between.
* Ids and counters are unbounded where the source has u64; u16 and u32 fields, wrap-around of
  request ids, two's complement and truncating casts are written out.
* Names resolve to stable ids through a `Catalog`; `Type.field` keys are pairs except where the
  snapshot path depends on their spelling.
* f32 and f64 values are bit patterns; distances are ordered by the total order on those patterns.
  The HNSW index is the map from object id to vector that it holds.
* Embedders, rerankers, the distance function, UTF-8 conversion, the JSON parser and the event
  decoder are parameters, constrained only where a statement says so.
* A JavaScript string has at most 2^29 - 24 code units, the limit of V8, so its UTF-8 fits a frame.
* Promises are the outcomes recorded for them; a dropped future is a call that stops where it is.

## Where the code differs from its documentation or from what it is for

* `process_pending` is documented to return 0 only for an empty queue. It also returns 0 for a batch
  of jobs without text, and for one whose embed calls fail or answer with the wrong length
  (`Processing.QuietIff` is the exact condition, for every embedder). A loop "until 0" stops there:
  `Drain.DrainsIff` says exactly when it empties the queue, `Recovery.StopsEarly` shows it stopping
  early over a reachable store, and `Recovery.RecoverFromRun` uses the condition for every embedder
  whose models load.
* The snapshot path replaces dots by underscores, which identifies some index keys. Fields that
  share a path can be served each other's vectors (`IndexFiles.CollidingOpen`);
  `IndexFiles.OpensAsRebuildIff` says exactly when they are, for any keys and any files, and
  `IndexFiles.SecondOpensIff` for two keys and none.
* The delta rebuild keeps a snapshot's vector for an id that was stored anew or deleted since
  (`IndexRebuild.OpenIsRebuildIff`, `IndexRebuild.StaleSnapshotWins`).
* `put_string` keeps a u16 length (`JobCodec.JobRoundTrip`).
* The TypeScript decoder assigns fields as properties, so one named `__proto__` is lost
  (`ObjectCodec.FieldsSurviveIff`).
* `unsubscribe` is documented to resolve on the acknowledgement or to reject when the connection
  fails first. A second call on a live stream takes the first one's place, and the first promise is
  never settled: `Stream.AsksSettledIff` is the exact condition, `Stream.OverlappingAsks` the input.
* The first retry wait is `initial` even when that exceeds `max` (`Backoff.WaitWithinMax`).

## Model

| member | source | states |
|---|---|---|
| `QueueSafety.StepKeepsQueue` | crates/rhypedb-engine/src/vectorizer.rs:1323-1402 | Every step of every interleaving of enqueues, claims, workers, crashes and reopens keeps the queue invariant: in-flight ranges disjoint and past the cursor, the holder's snapshot agreeing with the queue below its bound, nothing lost below the cursor, claims ascending |
| `QueueSafety.NoLostJob` | crates/rhypedb-engine/src/vectorizer.rs:1020-1032 | In every state of every run: cursor <= claim bound <= next id; each committed unclaimed entry is at or past the cursor or in the batch being committed; the ids of all claims of the session, in claim order, ascend strictly (so none is returned twice, also when enqueues commit out of id order) and are off the queue |
| `QueueSafety.SessionMonotone` | crates/rhypedb-engine/src/vectorizer.rs:1323-1402 | Within a session, over any stretch of any run, neither the cursor nor the claim bound moves back |
| `QueueSafety.ClaimNeverConflicts` | crates/rhypedb-engine/src/vectorizer.rs:1389-1402 | In a state satisfying the invariant the claim's commit cannot meet a write conflict, so the cursor stored before the commit is never stored for a claim that fails |
| `QueueSafety.SnapshotFirstLosesAJob` | crates/rhypedb-engine/src/vectorizer.rs:1345-1360 | A complete run in which the snapshot is taken before the bound: it ends idle with a committed entry below the cursor and in no batch, so the order of the two reads is necessary |
| `CrashRecovery.StepKeeps` | crates/rhypedb-engine/src/vectorizer.rs:1345-1552 | Every step keeps the durable and session invariants: queued jobs come from committed enqueues, an `Indexed` row stores the embedding of its own text, a `Pending` row is queued, in hand, or was given up on in this session, and the index holds every stored vector and nothing but the embedding of the own text of its row |
| `CrashRecovery.RunKeeps` | crates/rhypedb-engine/src/vectorizer.rs:625-764 | The durable and session invariants hold at every point of every run, with any number of crashes between commits |
| `CrashRecovery.DrainedRunConverged` | crates/rhypedb-engine/src/vectorizer_crash_fuzz.rs:257-287 | In any run, whenever a session has nothing queued, nothing in hand and nothing given up, every row whose enqueue ever committed has converged: when its object holds a string in the template's source field the row is `Indexed` with the embedding of that very string under the template's model (or `Failed` where an embed call failed), and otherwise it has no state |
| `CrashRecovery.StoredIsIndexed` | crates/rhypedb-engine/src/vectorizer.rs:1975-2024 | In every state of every run, under any interleaving of workers, every stored vector is in the in-memory index with the stored value: a vector enters the index before its transaction commits |
| `CrashRecovery.StoredIsOwn` | crates/rhypedb-engine/src/vectorizer.rs:1438-1552 | In every state of every run a stored or indexed vector is the embedding, under the template's model, of the string the row's own object holds in the template's source field, and an `Indexed` row has one |
| `CrashRecovery.EnqueueWrites` | crates/rhypedb-engine/src/vectorizer.rs:1037-1060 | An enqueue's commit, read off the store: one live entry per job at its id, the row each job names `Pending` whatever its state was, every other entry, state, vector and object as before |
| `CrashRecovery.CommitWrites` | crates/rhypedb-engine/src/vectorizer.rs:1389-1415 | A claim's commit deletes its entries only; a store writes the vector and `Indexed` state of the row its job names, a failure its `Failed` state, a clear deletes its state, and each leaves everything else, a failed row's old vector included |
| `ClaimWalk.ScanWindow` | crates/rhypedb-engine/src/vectorizer.rs:1356-1387 | One 256-id window: what it adds is exactly the live ids from the cursor up to where it stopped, at most a batch |
| `ClaimWalk.WalkWindows` | crates/rhypedb-engine/src/vectorizer.rs:1353-1389 | For every tombstone pattern, cursor, bound, batch size and window alignment the walk terminates with exactly the lowest `batchSize` decodable live ids in range, the same prefix a full sorted listing gives, and a cursor with nothing live skipped below it |
| `Store.LiveIdsExact` | crates/rhypedb-engine/src/vectorizer.rs:499-503 | The reference listing: exactly the live ids of a range, in strictly ascending order |
| `Reconcile.FindOrphans` | crates/rhypedb-engine/src/vectorizer.rs:664-739 | The scan splits the `Pending` rows of `@vectorize` fields that no readable entry names into those whose object holds a string in the template's source field, each listed once, and the stale ones |
| `Reconcile.RecoverNextJobId` | crates/rhypedb-engine/src/vectorizer.rs:555-567 | The next id after open is 1 + the greatest queued id, 1 for an empty queue |
| `Reconcile.ReconcileExact` | crates/rhypedb-engine/src/vectorizer.rs:664-763 | From any durable state reconcile lists exactly the unqueued `Pending` rows whose object holds its source text, adds for each one entry spelled out from its template (type, object, source field, vector field, model) under fresh ids, deletes exactly the states of the other unqueued rows, leaves old entries, other states, vectors and objects alone, and leaves no `Pending` row of a `@vectorize` field without an entry |
| `Reconcile.ReconcileIdempotent` | crates/rhypedb-engine/src/vectorizer.rs:664-763 | A second reconcile changes nothing |
| `Processing.GroupConserves` | crates/rhypedb-engine/src/vectorizer.rs:1438-1551 | The transactions of a model group mention each job of the group exactly once, whatever is unreadable and whatever the embedder answers |
| `Processing.GroupJustified` | crates/rhypedb-engine/src/vectorizer.rs:1438-1551 | Each transaction of a group is the right one: a stored vector is the embedding at the job's own place of a right-length answer to the readable texts, a re-enqueue means the model did not load, a failure mark means the call failed or the answer had the wrong length, a cleared state means no readable text |
| `Processing.TextsHeld` | crates/rhypedb-engine/src/vectorizer.rs:1446-1460 | The texts of a group are the strings the jobs' own objects hold, job by job, and an unreadable job's object holds none |
| `Sequential.StoresOwnText` | crates/rhypedb-engine/src/vectorizer.rs:1480-1545 | With an embedder whose right-length answers are embeddings, a stored vector is the embedding of the string the job's own object holds |
| `Processing.QuietIff` | crates/rhypedb-engine/src/vectorizer.rs:1252-1273 | For every embedder: a batch stores nothing and re-enqueues nothing, so that `process_pending` returns 0, if and only if each of its jobs has no readable text or belongs to a group whose model loaded and whose embed call failed or answered with the wrong length |
| `VectorizerClass.Vectorizer.constructor` | crates/rhypedb-engine/src/vectorizer.rs:525-764 | Open: next id recovered from the queue, cursor at 0, index holding every stored vector, and the store repaired by one reconcile under fresh ids |
| `VectorizerClass.Vectorizer.ReconcilePendingJobs` | crates/rhypedb-engine/src/vectorizer.rs:625-764 | The object's reconcile is the reference reconcile on its store, under fresh ids |
| `VectorizerClass.Vectorizer.EnqueueMany` | crates/rhypedb-engine/src/vectorizer.rs:1013-1065 | One transaction, read off the store: live entries at a fresh contiguous id range, `Pending` for the row of every job even when it was `Indexed` or `Failed`, nothing else changed; an empty list is a no-op; the range is unregistered at the end |
| `VectorizerClass.Vectorizer.ClaimBound` | crates/rhypedb-engine/src/vectorizer.rs:1323-1327 | The least of the in-flight range starts and the next id |
| `VectorizerClass.Vectorizer.ClaimBatch` | crates/rhypedb-engine/src/vectorizer.rs:1345-1415 | Starting from the cursor it hands out the jobs of the lowest `batchSize` live entries of the whole queue, deletes exactly those entries, and leaves nothing live below the new cursor |
| `VectorizerClass.Vectorizer.PairWithText` | crates/rhypedb-engine/src/vectorizer.rs:1446-1475 | The loop splits a group, in claim order, into jobs beside the string their own object holds in their source field, and jobs whose object holds none |
| `VectorizerClass.Vectorizer.GroupByModel` | crates/rhypedb-engine/src/vectorizer.rs:1421-1433 | The groups are, for every model of the batch, its jobs in claim order |
| `VectorizerClass.Vectorizer.StoreEach` | crates/rhypedb-engine/src/vectorizer.rs:1536-1544 | Each named row ends `Indexed` with the vector beside the last job that names it, in the store and in the index; rows no job names, entries and objects are as before |
| `VectorizerClass.Vectorizer.MarkBatchFailed` | crates/rhypedb-engine/src/vectorizer.rs:2206-2229 | Every named row ends `Failed`; vectors, index, entries, objects and other states are as before |
| `VectorizerClass.Vectorizer.EmbedGroup` | crates/rhypedb-engine/src/vectorizer.rs:1480-1545 | One embed call: a model that does not load puts all jobs back under fresh ids, a failed call or an answer of the wrong length marks all failed, a right answer stores each vector under its own job |
| `VectorizerClass.Vectorizer.ClearOrphanedStates` | crates/rhypedb-engine/src/vectorizer.rs:1286-1320 | Exactly the states of rows a textless job names are deleted; nothing else changes |
| `VectorizerClass.Vectorizer.ProcessGroup` | crates/rhypedb-engine/src/vectorizer.rs:1438-1545 | The group's transactions are the reference ones, on the store and on the index |
| `VectorizerClass.Vectorizer.ProcessBatch` | crates/rhypedb-engine/src/vectorizer.rs:1421-1551 | For any order of the model groups: the store and index are those of a log that accounts for every claimed job exactly once, whose every transaction is justified and whose re-enqueues take fresh ids; no stored vector is another job's; a job whose type does not resolve is textless |
| `VectorizerClass.Vectorizer.ProcessPending` | crates/rhypedb-engine/src/vectorizer.rs:1252-1273 | One claim and one batch: the claimed ids are the lowest of the queue, the result counts the stored vectors, the model-unavailable error is returned exactly when nothing was stored and some group could not load its model, and 0 is returned exactly when every claimed job is quiet (no text, or its group's call failed) |
| `CrashRecovery.NeverFailed` | crates/rhypedb-engine/src/vectorizer.rs:2206-2229 | A row is marked failed only by a failed embed call: a run without one has no failed rows |
| `Sequential.PathKeeps` | crates/rhypedb-engine/src/vectorizer.rs:1345-1552 | Any sequence of steps from a state satisfying the invariant ends in one |
| `Sequential.PathExtends` | crates/rhypedb-engine/src/vectorizer.rs:1345-1552 | A sequence of steps from a state of a run continues the run |
| `Sequential.Open` | crates/rhypedb-engine/src/vectorizer.rs:525-764 | Opening the object over any durable state is `OpenClean` then `OpenEnqueue`; object and protocol state agree at the end on store, index, next id and cursor |
| `Sequential.Enqueues` | crates/rhypedb-engine/src/vectorizer.rs:1013-1065 | `EnqueueMany` by the object is allocate, commit, unregister (nothing for an empty list), and object and protocol state agree again |
| `Sequential.Claims` | crates/rhypedb-engine/src/vectorizer.rs:1345-1415 | `ClaimBatch` by the object, the empty claim included, is bound, snapshot, walk and commit; they agree again and exactly the claimed jobs are in hand, unread |
| `Sequential.Processes` | crates/rhypedb-engine/src/vectorizer.rs:1421-1551 | `ProcessBatch` by the object is, for every embedder whose right-length answers are embeddings, a sequence of text reads, index inserts, store, fail and clear commits and re-enqueues; they agree again and nothing is left in hand |
| `Sequential.Passes` | crates/rhypedb-engine/src/vectorizer.rs:1252-1273 | The same for `ProcessPending`, whether the models load or not, with the batch, the log and the exact conditions for the error and for 0 |
| `Drain.DrainsIff` | crates/rhypedb-engine/src/vectorizer.rs:1252-1273 | Looping until `process_pending` returns 0 takes everything off the queue if and only if every batch before the last stores something (with batch size 0: if and only if the queue was empty) |
| `Drain.FailureIsQuiet` | crates/rhypedb-engine/src/vectorizer.rs:1514-1532 | A batch whose embed calls all fail stores nothing, whether its jobs have text or not, and so stops the loop |
| `Recovery.Pass` | crates/rhypedb-engine/src/vectorizer.rs:1261-1273 | One `process_pending` with models that load takes exactly the next batch off the queue, never reports an unavailable model, returns 0 exactly when no job of the batch is stored, and continues the run |
| `Recovery.DriveToFixpoint` | crates/rhypedb-engine/src/vectorizer_crash_fuzz.rs:241-255 | The loop continues the run, consumes exactly the entries the reference says, in order, and terminates |
| `Recovery.RecoverFromRun` | crates/rhypedb-engine/src/vectorizer_crash_fuzz.rs:294-346 | From any point of any run, for every embedder whose models load: crash, reopen, reconcile and process until 0 continue the run to a state the object agrees with. Every stored vector is in the index; the queue ends empty if and only if every batch before the last stores something, and then every committed row has converged; and with a healthy embedder, text for every committed row, a positive batch size and no failed call in the run, every one of them ends `Indexed` with the embedding of its own text, durably and in the index, and the queue is empty |
| `Recovery.StopsEarly` | crates/rhypedb-engine/src/vectorizer.rs:1252-1273 | The counterexample at a reachable store: reopened over a queue of a job without text followed by one with text, with a batch size of 1 and any embedder whose models load, the loop ends with the queue not empty |
| `JobCodec.StringReadsBack` | crates/rhypedb-engine/src/vectorizer.rs:138-155 | A length-prefixed string reads back at its place exactly when it is shorter than 65536 bytes |
| `JobCodec.JobRoundTrip` | crates/rhypedb-engine/src/vectorizer.rs:108-136 | A serialized job, with any bytes after it, deserializes to the same job if and only if all four strings are shorter than 65536 bytes |
| `JobCodec.DeserializesIff` | crates/rhypedb-engine/src/vectorizer.rs:108-155 | The reader accepts exactly the data that starts with the bytes of a job with UTF-8 strings shorter than 65536 bytes, and returns that job |
| `JobCodec.JobLayout` | crates/rhypedb-engine/src/vectorizer.rs:108-141 | The bytes at each offset: type name, object id, source field, vector field and model, lengths and id most significant byte first |
| `IndexRebuild.VectorRoundTrip` | crates/rhypedb-engine/src/vectorizer.rs:2275-2292 | A stored vector parses back to the same components |
| `IndexRebuild.ParsesExactly` | crates/rhypedb-engine/src/vectorizer.rs:2283-2292 | Data parses exactly when its length is a multiple of 4, and then it is the bytes of the vector it parses to |
| `IndexRebuild.VectorLayout` | crates/rhypedb-engine/src/vectorizer.rs:2275-2281 | Component i lies at byte 4i, most significant byte first |
| `IndexRebuild.ScanVectorsForField` | crates/rhypedb-engine/src/vectorizer.rs:906-940 | The scan of a type's rows returns exactly the vectors of the field that parse, each once |
| `IndexRebuild.Mismatch` | crates/rhypedb-engine/src/vectorizer.rs:447-470 | A mismatch is reported if and only if some of the four parameters differ, and it is the first of them that does |
| `IndexRebuild.ReopenIndex` | crates/rhypedb-engine/src/vectorizer.rs:784-895 | With a usable snapshot each entry is the snapshot's where it has one and the stored vector elsewhere; with none, or a corrupt, unopenable or mismatched one, exactly the stored vectors |
| `IndexRebuild.OpenCovers` | crates/rhypedb-engine/src/vectorizer.rs:851-940 | Whatever the snapshot, after open the index holds every id with a stored vector that parses |
| `IndexRebuild.OpenIsRebuildIff` | crates/rhypedb-engine/src/vectorizer.rs:866-874 | Opening gives exactly what a full rebuild gives if and only if no snapshot is used or none of its entries was deleted or stored anew |
| `IndexRebuild.UnchangedStaysUpToDate` | crates/rhypedb-engine/src/vectorizer.rs:851-874 | A snapshot of a full index stays usable as such as long as no row in it changes, whatever other rows are stored after the save |
| `IndexRebuild.StaleSnapshotWins` | crates/rhypedb-engine/src/vectorizer.rs:866-874 | A vector stored anew after the save is hidden: the open returns the snapshot's |
| `IndexFiles.RebuildIndexes` | crates/rhypedb-engine/src/vectorizer.rs:775-849 | Index by index: each opens from the file its path holds at that moment, and a rebuilt, non-empty one writes it; with distinct paths every index is the reopening of its own file |
| `IndexFiles.OwnFileOpens` | crates/rhypedb-engine/src/vectorizer.rs:775-849 | With distinct snapshot paths every index opens from its own file, in whatever order the keys come |
| `IndexFiles.RebuiltReopens` | crates/rhypedb-engine/src/vectorizer.rs:800-849 | A rebuilt index is found again by the next open, which returns the same index and writes nothing more |
| `IndexFiles.SharedPathIff` | crates/rhypedb-engine/src/vectorizer.rs:766-769 | Two index keys share a snapshot path exactly when they are equal up to dots and underscores |
| `IndexFiles.OpensAsRebuildIff` | crates/rhypedb-engine/src/vectorizer.rs:766-874 | For any number of keys in any order over any files: an index opens as a full rebuild gives it if and only if the file it finds does not fit its config or holds only its own vectors, where the file is the starting one or was written by the last earlier key on the path that did not fit what it found and had vectors |
| `IndexFiles.SecondOpensIff` | crates/rhypedb-engine/src/vectorizer.rs:766-874 | Two keys over no files: the second is right if and only if the paths differ, the configs differ, or every vector of the first is also the second's |
| `IndexFiles.SharedPathOpen` | crates/rhypedb-engine/src/vectorizer.rs:766-849 | For any two keys on one path a complete open that gives the second a vector for an object it has none for |
| `IndexFiles.PathsCollide` | crates/rhypedb-engine/src/vectorizer.rs:766-769 | Such keys exist: type `A` with field `b_c` and type `A_b` with field `c`, both at `hnsw_A_b_c.bin` |
| `IndexFiles.CollidingOpen` | crates/rhypedb-engine/src/vectorizer.rs:766-849 | The complete open for those two keys |
| `Rescore.SortHits` | crates/rhypedb-engine/src/vectorizer.rs:1895-1898 | A permutation of the input in the total order of floats (negatives before positives, by magnitude), equal distances by ascending id |
| `Rescore.SortedUnique` | crates/rhypedb-engine/src/vectorizer.rs:1895-1898 | There is only one sorted arrangement of a multiset of hits |
| `Rescore.ExactRescore` | crates/rhypedb-engine/src/vectorizer.rs:1866-1902 | The scored ids, each with its exact distance or infinity, sorted |
| `Rescore.RescoreKeepsIds` | crates/rhypedb-engine/src/vectorizer.rs:1866-1902 | No id is dropped or added, and each has the distance of its stored vector, infinity where there is none of the query's dimension |
| `Rescore.RescoreDeterministic` | crates/rhypedb-engine/src/vectorizer.rs:1866-1902 | The same list for any enumeration order of the ids |
| `Rescore.NearestFirst` | crates/rhypedb-engine/src/vectorizer.rs:1904-1928 | The list is in distance order, so its first k are the nearest k, and an id without a comparable vector never precedes one at a finite distance |
| `SearchMerge.RetrievalK` | crates/rhypedb-engine/src/vectorizer.rs:1626-1638 | k without the cross-encoder; else the configured number, else the environment's, else min(3k, 48), raised to k |
| `SearchMerge.UnchosenCount` | crates/rhypedb-engine/src/vectorizer.rs:1741-1754 | Choosing distinct candidates leaves exactly the others |
| `SearchMerge.FetchTexts` | crates/rhypedb-engine/src/vectorizer.rs:1685-1701 | The documents are the texts of exactly the candidates that have one, in candidate order, each beside its candidate's id |
| `SearchMerge.MergeReranked` | crates/rhypedb-engine/src/vectorizer.rs:1711-1756 | Exactly min(k, candidates) distinct candidates with their candidate distances: hit i is the candidate of the i-th ranked document with its score, then unscored ones in candidate order |
| `SearchMerge.TakeNearest` | crates/rhypedb-engine/src/vectorizer.rs:1766-1771 | Without a ranking: the first min(k, candidates) candidates in order, unscored |
| `SearchMerge.FinishSearch` | crates/rhypedb-engine/src/vectorizer.rs:1676-1771 | When the reranker answers the texts of the candidates that have one, given in candidate order, the hits follow its ranking by document position with its scores and are filled up in candidate order; on every other path (off, not loading, no text, failing) they are the nearest candidates without scores |
| `SearchMerge.SearchRestricted` | crates/rhypedb-engine/src/vectorizer.rs:1640-1771 | A search inside a small filter returns min(k, set size) distinct members with exact distances on every path, assembled as above from the nearest of the set; infinite distances when the store cannot be read; nothing when the index name does not resolve |
| `Backoff.StepKeeps` | crates/rhypedb-engine/src/vectorizer.rs:1135-1205 | Every attempt keeps: delay and retry time are determined by the consecutive failures; the loader runs only when the wait after the last failure is over; a cached or refused attempt changes nothing and the reported wait is what is left; success resets |
| `Backoff.RunKeeps` | crates/rhypedb-engine/src/vectorizer.rs:1135-1205 | Over every run with a nondecreasing clock the wait after the n-th consecutive failure is `initial` for n = 1 and min(initial * 2^(n-1), max) for later ones, and failures are at least that far apart |
| `Backoff.WaitWithinMax` | crates/rhypedb-engine/src/vectorizer.rs:1146-1151 | The first wait obeys the cap too if and only if `initial <= max` |
| `Backoff.ElapsedBound` | crates/rhypedb-engine/src/vectorizer.rs:1146-1205 | Any two failed loader calls of a row of failures are at least the sum of the waits between them apart |
| `Backoff.RunKeepsLoads` | crates/rhypedb-engine/src/vectorizer.rs:1135-1205 | Over every run: each loader call keeps the wait of the call before it, and each model is loaded at most once |
| `Backoff.CallsBound` | crates/rhypedb-engine/src/vectorizer.rs:1146-1205 | Between any two loader calls of any run lies at least the sum of the doubled and capped waits of the failures between them; with `initial <= max` their number is at most the time elapsed over `initial` plus the number of models loaded |
| `Backoff.ModelLoader.GetOrLoadEmbedder` | crates/rhypedb-engine/src/vectorizer.rs:1173-1205 | The object's step is the reference step; a returned embedder is cached |
| `Wire.FrameRoundTrip` | clients/typescript/src/wire.ts:149-157 | An encoded frame, whatever follows it, parses back to itself exactly when its payload is within 16 MiB, and is refused as too large otherwise |
| `Wire.FrameLayout` | clients/typescript/src/wire.ts:149-157 | The bytes at each offset: length, request id, kind, payload |
| `Wire.ParseIs` | clients/typescript/src/wire.ts:173-185 | The outcome for every buffer from the length at its front: more bytes needed, a length refused by its value, or the parts at their places and the bytes left |
| `Wire.StreamRoundTrip` | clients/typescript/src/wire.ts:149-186 | Any concatenation of frames within the cap parses to exactly those frames with no bytes left |
| `Wire.DrainIsExact` | clients/typescript/src/wire.ts:173-185 | What is parsed, encoded again, is what was received; what is left starts no complete frame, or the reported framing error |
| `Wire.DrainSplits` | clients/typescript/src/wire.ts:158-186 | Draining early and draining what is left with the next bytes is draining once |
| `Wire.PartialFrameWaits` | clients/typescript/src/wire.ts:173-185 | A frame is delivered by its last byte, not before |
| `Wire.FrameParser.Push` | clients/typescript/src/wire.ts:168-170 | The chunk is appended |
| `Wire.FrameParser.Next` | clients/typescript/src/wire.ts:173-185 | The next parse outcome; only a complete frame moves the buffer |
| `Wire.FrameParser.DrainReady` | clients/typescript/src/wire.ts:158-186 | All complete frames, the framing error if one is met, and the bytes left, as the reference drain |
| `Wire.ReceiveChunks` | clients/typescript/src/wire.ts:158-186 | For every split of a byte stream into chunks: the same frames and the same first framing error as one push of the whole |
| `Cursor.PrefixedCut` | clients/typescript/src/wire.ts:191-257 | A length-prefixed read on a shortened buffer is unchanged or truncated, never different |
| `Cursor.ManyCut` | clients/typescript/src/wire.ts:298-324 | The same for any counted repetition of a strict decoder |
| `Cursor.ManyReads` | clients/typescript/src/wire.ts:298-324 | A counted repetition reads back the concatenation of its parts |
| `ValueCodec.ValueReads` | clients/typescript/src/wire.ts:524-603 | Every tagged value within its range reads back as itself, consuming exactly its bytes |
| `ValueCodec.ValueStrict` | clients/typescript/src/wire.ts:264-296 | The value decoder sees exactly the bytes it consumes |
| `ValueCodec.ValueLayout` | clients/typescript/src/wire.ts:524-603 | Each kind of value has its tag number and the stated bytes after it, numbers most significant byte first, signed ones in two's complement |
| `ValueCodec.DecodeOutcomes` | clients/typescript/src/wire.ts:264-296 | Any byte but 0 is true, a text that is no JSON is refused, and a tag above 11 is refused by its number |
| `ValueCodec.NaNIs` | clients/typescript/src/wire.ts:355-366 | A missing rerank score is told by the NaN patterns exactly: all exponent bits set and the mantissa not zero |
| `ObjectCodec.WireObjectReads` | clients/typescript/src/wire.ts:298-314 | Every object within the limits reads back as its type, id and assigned fields |
| `ObjectCodec.FieldsSurviveIff` | clients/typescript/src/wire.ts:298-306 | Decoded fields are exactly the encoded ones if and only if names are distinct and none is `__proto__` |
| `ObjectCodec.LastAssigned` | clients/typescript/src/wire.ts:298-306 | Of several fields of one name the last one's value is kept |
| `ObjectPayload.PayloadRoundTrip` | clients/typescript/src/wire.ts:636-669 | An objects, scored or reranked payload decodes to its rendered rows in order, consuming exactly its bytes, whatever follows; a missing rerank score comes back as missing |
| `ObjectPayload.PayloadCut` | clients/typescript/src/wire.ts:317-370 | Any accepted payload cut short of the bytes it consumed is truncated, and cut beyond them is unchanged |
| `ObjectPayload.PrefixTruncated` | clients/typescript/src/wire.ts:636-669 | Every proper prefix of an encoded payload is rejected as truncated |
| `ObjectPayload.RowsSurviveIff` | clients/typescript/src/wire.ts:298-370 | A payload loses no field of any row if and only if in every object names are distinct and none is `__proto__` |
| `PayloadLoops.Reader.ReadFields` | clients/typescript/src/wire.ts:298-306 | The field loop computes the reference decoding and advances the cursor past it |
| `PayloadLoops.Reader.ReadObject` | clients/typescript/src/wire.ts:309-314 | The object read computes the reference decoding |
| `PayloadLoops.Reader.ReadRow` | clients/typescript/src/wire.ts:317-370 | One row: its scores and its object, read by the object read |
| `PayloadLoops.ReadPayload` | clients/typescript/src/wire.ts:317-370 | The row loop, its object reads and their field loops compute the reference decoding of the payload |
| `PayloadLoops.WriteFields` | clients/typescript/src/wire.ts:606-619 | Appending part by part gives the reference encoding |
| `PayloadLoops.WritePayload` | clients/typescript/src/wire.ts:636-669 | Appending part by part gives the reference encoding |
| `Stream.RunContinues` | clients/typescript/src/subscription.ts:306-411 | Over every sequence of events no delivered item is taken back, and an end or an acknowledgement outcome is final |
| `Stream.OutcomesFinal` | clients/typescript/src/subscription.ts:226-243 | A settled call keeps its outcome for ever, and after the end no call waits |
| `Stream.RunExplained` | clients/typescript/src/subscription.ts:293-411 | For every sequence of events from the open: what is delivered comes from the frames between SUBSCRIBED and the first terminal frame of the bytes received before the first failure or close; the stream ends by that frame, else by a framing error, else by that failure or close; and the open settles by the first frame or by the end |
| `Stream.RunNotifies` | clients/typescript/src/subscription.ts:306-354 | Over every run the delivered items are an in-order selection of the frames between the acknowledgement and the first frame that is neither event nor lag: every lag, every event that does not decode as an error, every decoded change unless an origin is excluded and is its own; a frame left out is a change of the excluded origin |
| `Stream.AsksSettledIff` | clients/typescript/src/subscription.ts:250-289 | Once a stream has ended, every promise of `unsubscribe` is settled if and only if at most one call was made while it was live, and that one not ahead of a refused subscribe |
| `Stream.OverlappingAsks` | clients/typescript/src/subscription.ts:256-267 | The counterexample: subscribed, two calls of `unsubscribe`, acknowledged; the stream ends cleanly, the second promise resolves and the first never settles |
| `Stream.PromisesFinal` | clients/typescript/src/subscription.ts:256-289 | A settled promise of `unsubscribe` keeps its outcome over every continuation |
| `Stream.RunAsks` | clients/typescript/src/subscription.ts:256-267 | Over every run the calls that count are those made while the frames and events so far had not ended the stream |
| `Stream.DataSplits` | clients/typescript/src/subscription.ts:293-304 | Two chunks have the effect of their concatenation, framing errors included |
| `Stream.ChunkingNeverShows` | clients/typescript/src/subscription.ts:293-304 | However the socket splits its bytes the stream ends in the same state |
| `Subscription.EveryCallAnswered` | clients/typescript/src/subscription.ts:226-243 | Between events the k-th `next` call is settled exactly when the stream has an answer for it (item k, else the terminal error once, else done), with that answer; after the end none waits |
| `Subscription.Drive` | clients/typescript/src/subscription.ts:192-411 | The object over every sequence of socket events, unsubscribes, closes and `next` calls: call k is settled exactly when the run has an answer for it, with item k of the in-order selection of lags, undecodable events and changes of origins not excluded, else the terminal error once, else done; and each promise of `unsubscribe` resolves on the acknowledgement or after the end, fails with the error or the close that ended the stream, or is never settled, exactly as the run says |
| `Subscription.AsyncSubscription.constructor` | clients/typescript/src/subscription.ts:192-207 | Awaiting the acknowledgement, nothing queued |
| `Subscription.AsyncSubscription.Next` | clients/typescript/src/subscription.ts:226-243 | Keeps the stream and the accounting of calls; the new call takes its turn behind the others |
| `Subscription.AsyncSubscription.Pump` | clients/typescript/src/subscription.ts:358-378 | Waiting calls are settled in call order, each once, until nothing deliverable is left |
| `Subscription.AsyncSubscription.Terminate` | clients/typescript/src/subscription.ts:381-399 | The failure of the reference stream: once, after the queued items; nothing after an end |
| `Subscription.AsyncSubscription.CloseNow` | clients/typescript/src/subscription.ts:270-289 | The close of the reference stream: queued items drain, then done; nothing after an end |
| `Subscription.AsyncSubscription.EndClean` | clients/typescript/src/subscription.ts:402-411 | A clean end of a live stream |
| `Subscription.AsyncSubscription.Unsubscribe` | clients/typescript/src/subscription.ts:256-267 | The promise resolves at once after the end; on a live stream it is held, in place of one already held, until the end settles it |
| `Subscription.AsyncSubscription.Classify` | clients/typescript/src/subscription.ts:306-355 | One frame has the effect of the reference stream's step |
| `Subscription.AsyncSubscription.OnChunk` | clients/typescript/src/subscription.ts:293-304 | A chunk has the effect of the reference stream's step, with every deliverable call settled |
| `Pipeline.RequestKeepsIff` | clients/typescript/src/client.ts:305-319 | The precondition of a request: it keeps the order of replies if and only if the connection is dead or its frame fits a u32 length |
| `Pipeline.RunKeeps` | clients/typescript/src/client.ts:277-319 | Over every run of requests that fit: the k-th frame received has settled the k-th request, later requests wait in order while the connection lives and are rejected once it is dead, and the k-th frame sent carries the kind and payload of the k-th request under id k+1 in 32 bits |
| `Pipeline.FailureRejects` | clients/typescript/src/client.ts:296-303 | A socket failure and a close reject everything that waits, each with its own error, and change nothing settled |
| `Pipeline.PublicRunKeeps` | clients/typescript/src/client.ts:152-272 | The same over every run of the public methods: pings, statement ids, texts that are JavaScript strings and batches within the frame cap always fit |
| `Pipeline.RunContinues` | clients/typescript/src/client.ts:277-319 | Over every run each request settles at most once; once dead nothing waits, nothing is sent, and every later request is rejected |
| `Pipeline.Conserved` | clients/typescript/src/client.ts:277-319 | Issued = resolved + rejected + pending, and resolved is the number of frames handled |
| `Pipeline.AsyncClient.OnData` | clients/typescript/src/client.ts:277-294 | Handles frames in order, as the reference step; an unsolicited frame or a framing error fails the connection |
| `Pipeline.AsyncClient.FailWith` | clients/typescript/src/client.ts:296-303 | Latches dead and rejects everything waiting, once |
| `Pipeline.AsyncClient.RoundTrip` | clients/typescript/src/client.ts:305-319 | Issues a request as the reference step |
| `AsyncConnection.AlwaysSettled` | crates/rhypedb-client/src/async_client.rs:102-123 | At every point of every run a live connection has read every reply it was sent |
| `AsyncConnection.RepliesCorrelate` | crates/rhypedb-client/src/async_client.rs:102-148 | Over every run of calls that complete, fail, time out or are dropped at either await, a returned reply is the reply to the call that returned it |
| `AsyncConnection.DeadIff` | crates/rhypedb-client/src/async_client.rs:113-122 | The connection is dead exactly when some call so far did not return its reply |
| `AsyncConnection.DeadForGood` | crates/rhypedb-client/src/async_client.rs:109-111 | Once dead every later call fails at once and touches nothing |
| `AsyncConnection.OptimisticMisCorrelates` | crates/rhypedb-client/src/async_client.rs:85-101 | A latch set only on errors returns the first call's reply to the second when the first is dropped unread |
| `AsyncConnection.OptimisticWithoutDrops` | crates/rhypedb-client/src/async_client.rs:85-101 | A latch set only on errors behaves the same as long as no call is dropped |
| `AsyncConnection.Connection.RoundTrip` | crates/rhypedb-client/src/async_client.rs:102-148 | The method, stopped wherever the call is dropped, leaves the fields of the reference step |
| `ExportVerifier.VerifyExport` | crates/rhypedb-cli/src/main.rs:938-1036 | Accepts exactly the well-formed files; the reported totals are the numbers of object, edge and vector lines and the reported types those of the trailer; each rejection names something that is wrong with the lines |
| `ExportVerifier.ReadLine` | crates/rhypedb-cli/src/main.rs:962-988 | One line after the header keeps the tally, or is rejected with its reason |
| `ExportVerifier.CheckCounts` | crates/rhypedb-cli/src/main.rs:999-1029 | Accepts exactly when claims and tally agree type by type, with the claims' sums as totals |
| `ExportVerifier.ClaimsAreTotals` | crates/rhypedb-cli/src/main.rs:999-1036 | Matching per-type claims add up to the numbers of lines in the file |
| `ExportVerifier.TruncationRejected` | crates/rhypedb-cli/src/main.rs:989-993 | Every prefix of an accepted file that ends before its trailer is rejected |
| `ExportVerifier.DropRejected` | crates/rhypedb-cli/src/main.rs:999-1029 | An accepted file, blank lines and all, with any one data line dropped is rejected |
| `ExportVerifier.DuplicateRejected` | crates/rhypedb-cli/src/main.rs:999-1029 | An accepted file, blank lines and all, with any one data line duplicated is rejected |

## Left out

- The LSM tree, WAL and MVCC internals: storage is the map described above.
- I/O failures of storage inside the vectorizer, except that a worker may give a job up (`DropJob`): after such a failure the row waits for the next open.
- Write-conflict retries of `enqueue_many` and `clear_orphaned_states`: a conflicting transaction has no effect and is not a step.
- VectorizerClass.Vectorizer.EnqueueMany: requires job names to resolve, because the source panics otherwise.
- VectorizerClass.Vectorizer.ProcessBatch: requires that a job whose type resolves has a field that does; with one that does not, the source returns an error out of the middle of the batch. `ProcessPending` requires the same of the queue.
- VectorizerClass.Vectorizer.constructor: opens without snapshot files; `IndexRebuild` and `IndexFiles` treat them on their own.
- Recovery.RecoverFromRun: is about embedders whose models load; with one that does not, jobs go back to the queue and `process_pending` reports it (`Sequential.Passes`), so the loop ends by that error or may not end.
- Objects committed without any enqueue: no `Pending` row exists for them, so recovery says nothing of them.
- Snapshot files written concurrently with stores, and failures while writing them: `IndexFiles` writes a file in one step.
- The HNSW graph, quantization and floating-point distance.
- SearchMerge.FinishSearch: begins after retrieval; the ANN search itself is left to its candidates being distinct.
- The reranker loader (`get_or_load_reranker`), which has no backoff.
- The filter encoding and the JSON of change events: the decoder is a parameter and a change is its origin and content.
- Date and base64 rendering of decoded values, and NaN payload bits: a decoded value is the value, not its text.
- The Rust subscription stream (`next_event`, `classify`, `poll_next`), which repeats the classification of the TypeScript one over a pull interface.
- The synchronous Rust client, dialing, timers, code generation, HTTP commands, backup and restore.
- JSON parsing of export lines: a line is the members the verifier looks at, its `kind` already compared with the known names.
