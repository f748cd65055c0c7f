# Verified model of the 0G storage gateway

The gateway is a single process in front of the 0G storage network. It accepts S3 requests, keeps
object bytes in a cache directory and metadata in a small transactional store, uploads the objects
in batches to a chain, and evicts cached bytes once the chain has finalized them. This project
models its core and proves what the system promises. `dafny verify dfyconfig.toml` checks everything.

There are two views of the same code, and proofs that connect them.

* **The protocol** (`Protocol.dfy`) is a transition system. A step is one store transaction, one
  file operation or one chain call, of any Put, read, copy, bucket or key request, eviction sweep or
  of the upload worker; a crash or a failed store transaction may fall anywhere. The theorems in
  `Durability.dfy`, `Lifecycle.dfy`, `Duplicates.dfy`, `Epochs.dfy` and `S3Runs.dfy` hold for every
  sequence of steps. The chain is a set of counters and a free choice of answers; where a theorem
  needs the nodes to be truthful, or a re-arm to stay out of a window, that is a hypothesis of the
  theorem. `Witnesses.dfy` gives runs from the empty gateway that show which of these hypotheses
  cannot be dropped and what they do not exclude.
* **The classes** (`Store`, `Worker`, `Service`, `Backend`) run the code's own loops and updates, one
  call after another. Each method of the store is proved to compute the transaction function the
  protocol uses. Each method of the worker takes a protocol action alongside every call it makes:
  the contracts of `Flush` and `PollFinality` say that they extend the protocol run the worker is on
  by worker actions only, so that what the protocol theorems say of a run can be said of the class
  (`UploadWorker.Worker.LandsOnce`). The service's Put is the protocol's Put run undisturbed.
  The S3 backend is proved against a plain map bucket -> key -> bytes.

Two stand-alone cores complete it: the copy-source header normaliser and the image resizer.

Hashes are ideal: a root or a SHA-256 digest is a constructor over the content, so equal digests
mean equal contents and a proof-verified download can only return the addressed bytes. Clock
readings, download success and the replies of nodes and SDK are parameters or free choices.
Timestamps are nanoseconds. float64 is read as the reals.

## What the code does not promise after all

* `docs/architecture.md` says the worker never blindly re-submits. Re-arming sets an object back to
  pending with no retries, and a pending object with no retries is uploaded without asking. As long
  as the nodes answer truthfully, a root gets a second live entry exactly when such an unasked
  member, not SkipTx and with an entry on chain, is handed to an upload that lands it
  (`Duplicates.SecondEntryIff`, `Duplicates.NoDuplicateIff`). That happens across epochs without
  any race: a failed object whose last upload had landed is put again
  (`Witnesses.SecondEntryAcrossEpochs`). It happens within one epoch only through a re-arm between
  the write-ahead mark and the upload of the same object (`Epochs.NeverBlindlyResubmitted`,
  `Witnesses.WindowMatters`).
* A finalized object can fall back to pending: exactly when a Put that read an earlier status
  re-arms it (`Lifecycle.FinalizedLostIff`, `Witnesses.FinalizedCanBeLost`). Its bytes stay
  recoverable all the same (`Durability.EveryObjectRecoverable`).
* The comment on the copy-source handler calls the rewriting idempotent. It is exactly when the
  source cannot be normalised, or the result of the first pass is refused by the second, or the
  bucket is non-empty and free of "%" and "?" and the key holds no space
  (`CopySource.RewritingIdempotentIff`); a space is turned into "+", which a second pass takes
  literally (`CopySource.SpaceRenamed`).

## Model

| member | source | states |
|---|---|---|
| KeyOrder.CompositeInjective | internal/store/store.go:287-293 | "bucket/key" determines bucket and key when buckets hold no slash |
| KeyOrder.CompositeCollision | internal/store/store.go:287-293 | without that rule two bucket names collide exactly when one plus a slash begins the other |
| KeyOrder.PrefixDetermines | internal/store/store.go:287-293 | a composite key carries no other slash-free bucket's prefix than its own |
| KeyOrder.PrefixContiguous | internal/store/store.go:360-364 | keys with one prefix are contiguous in byte order |
| KeyOrder.LessIff | internal/store/store.go:360-364 | the order of keys: after every proper prefix, and otherwise by the first byte that differs |
| KeyOrder.Seek | internal/store/store.go:334-338 | the cursor's Seek finds the least key at or after its argument |
| KeyOrder.Next | internal/store/store.go:360-364 | the cursor's Next finds the least key strictly after the current one |
| KeyOrder.ScanStart | internal/store/store.go:410-411 | where Seek lands, a prefix scan has missed no key |
| KeyOrder.ScanAdvance | internal/store/store.go:410-411 | one Next visits one more key of the prefix, skips none, and leaving the range means all are visited |
| MetaStore.SyncedStep | internal/store/store.go:128-145 | every object transaction keeps queue membership a function of status and records under their own root |
| MetaStore.QueuesFollowStatus | internal/store/store.go:128-264 | after any sequence of transactions q_upload is exactly pending or submitted, q_finalize exactly onchain, and they are disjoint |
| MetaStore.HomedStep | internal/store/store.go:340-401 | no transaction leaves a key under a missing bucket or mapped to an unrecorded root |
| MetaStore.RunKeepsSound | internal/store/store.go:147-401 | queues, sha index and key index stay consistent over every run, bucket deletions interleaved anywhere |
| MetaStore.ShaIndexExact | internal/store/store.go:147-190 | a content is found by hash exactly when its root is recorded, and under that root |
| MetaStore.TxHashNeverErased | internal/store/store.go:215-228 | no run drops a record or erases a transaction hash once set |
| MetaStore.Store.Requeue | internal/store/store.go:128-145 | clears both queues and enters the one that matches the status |
| MetaStore.Store.CreateObject | internal/store/store.go:147-164 | inserts the record stamped with the access time, indexes and enqueues it, or refuses an existing root and changes nothing |
| MetaStore.Store.Get | internal/store/store.go:166-175 | the record of a root, if there is one |
| MetaStore.Store.BySHA256 | internal/store/store.go:177-190 | the record a digest is indexed to, if there is one |
| MetaStore.Store.Mutate | internal/store/store.go:192-213 | applies an update to an existing record and requeues it; an unknown root is an error without effect |
| MetaStore.Store.SetStatus | internal/store/store.go:215-228 | the status is written, hash and reason only when given, and no other field or record changes |
| MetaStore.Store.Reenqueue | internal/store/store.go:230-238 | pending, no retries, no reason; SkipTx, transaction hash, size and access time are kept, and every other record |
| MetaStore.Store.IncRetries | internal/store/store.go:240-244 | counts one retry, changes nothing else, and returns the new count |
| MetaStore.Store.SetSkipTx | internal/store/store.go:246-248 | records the SkipTx verdict and changes nothing else |
| MetaStore.Store.Touch | internal/store/store.go:251-264 | records an access time, touches no queue, ignores a missing object |
| MetaStore.Store.FinalizedCacheEntries | internal/store/store.go:266-285 | lists each finalized object once with its recorded size and access time, and no other |
| MetaStore.Store.ListQueue | internal/store/store.go:426-445 | lists the first records of the queue in ascending key order, exactly the limit of them or all, none repeated |
| MetaStore.Store.UploadQueue | internal/store/store.go:447-451 | the upload queue's first records in key order, each once |
| MetaStore.Store.FinalizeQueue | internal/store/store.go:453-456 | the finality queue's first records in key order, each once |
| MetaStore.Store.S3CreateBucket | internal/store/store.go:295-308 | registers a new bucket or reports an existing one |
| MetaStore.Store.HasKeys | internal/store/store.go:334-338 | one Seek decides exactly whether a bucket has keys |
| MetaStore.Store.S3DeleteBucket | internal/store/store.go:340-352 | deletes an existing bucket exactly when no key carries its prefix |
| MetaStore.Store.S3ForceDeleteBucket | internal/store/store.go:354-371 | the deleting scan removes the bucket and all keys with its prefix, and no other key |
| MetaStore.Store.S3PutObjectKey | internal/store/store.go:373-385 | maps the key in the transaction that checks the bucket |
| MetaStore.Store.S3GetObjectKey | internal/store/store.go:387-395 | the root mapped under bucket/key, if any |
| MetaStore.Store.S3DeleteObjectKey | internal/store/store.go:397-401 | unmaps one key |
| MetaStore.Store.S3ListObjects | internal/store/store.go:403-424 | the listing scan yields exactly the bucket's resolvable keys in byte order with their records |
| ChainBackend.FileStatusOf | internal/chain/backend.go:166-203 | finalized exactly when some node says so and not pruned; else uploading exactly when some node has it with neither flag; else pruned exactly when some node says so; an error exactly when no node is reachable |
| ChainBackend.OrderIndependent | internal/chain/backend.go:166-203 | the aggregate depends on which replies came, not on node order or repetition |
| ChainBackend.MoreNodesNeverLower | internal/chain/backend.go:166-203 | hearing one more reachable node never lowers the answer in the order unknown, pruned, uploading, finalized |
| ChainBackend.BatchUpload | internal/chain/backend.go:115-164 | succeeds exactly when every member had a file and came back under its own root; then the stored bytes are the addressed ones, and the hash is empty exactly when no transaction was sent |
| ProtocolSafety.WorkTxnLocal | internal/uploader/worker.go:83-184 | every worker transaction goes to the recorded object it is visiting |
| ProtocolSafety.WorkKeepsWorker | internal/uploader/worker.go:65-184 | the worker never holds a root twice, its batches stay within BatchMax, and what it still has to upload is pending or submitted although only the snapshot was checked |
| Durability.FinalizedWasReported | internal/uploader/worker.go:112-117 | finalized is written only for a root that the chain has reported finalized |
| Durability.AnswerIsHeard | internal/uploader/worker.go:101-117 | the worker holds a finalized answer only for the root it has just asked about |
| Durability.StepKeepsInv | internal/object/service.go:230-347 | every step of a Put, read, sweep, worker, prune or crash keeps store, worker, cache and dedup invariants |
| Durability.EveryObjectRecoverable | internal/object/service.go:171-209 | in every reachable state a recorded object's exact bytes are cached or the chain has reported it finalized; finalized and evictable objects always have been reported |
| Durability.DedupExact | internal/object/service.go:269-347 | over any interleaving equal contents answer the same root and at most one Put of a content is answered as new |
| Lifecycle.StatusChangesAreEdges | internal/store/store.go:16-24 | every status change is a worker move, a re-arm to pending that keeps SkipTx and hash, or a new pending object without hash, reason or retries |
| Lifecycle.WorkerWrites | internal/uploader/worker.go:83-215 | a worker action changes at most the record in focus, and of it exactly the fields its step writes |
| Lifecycle.OnchainLeavesIff | internal/uploader/worker.go:186-215 | in every reachable state an onchain object fails exactly when the poll stores "pruned" about it, is finalized exactly when it stores "finalized", and goes back to pending exactly by a re-arm |
| Lifecycle.SkipTxWritten | internal/uploader/worker.go:112-127 | the worker writes SkipTx in two places only: from the answer while collecting, and true on "uploading" after a failed batch |
| Lifecycle.FailsIff | internal/uploader/worker.go:173-213 | the worker fails an object exactly past the retry cap or on "pruned", and with that reason |
| Lifecycle.AskTakesAnswer | internal/uploader/worker.go:100-127 | the collecting loop and the poll act on the answer just given about the object in focus, and pass it over when there is none |
| Lifecycle.ReconTakesAnswer | internal/uploader/worker.go:163-172 | after a failed batch "finalized" closes, "uploading" notes SkipTx, anything else counts a retry |
| Lifecycle.EnteredByAnswer | internal/uploader/worker.go:83-215 | and those steps are reached in no other way |
| Lifecycle.FinalizedLostIff | internal/object/service.go:269-301 | finalized is lost exactly when a Put that had read another status re-arms the object |
| Lifecycle.FinalizedIsAbsorbing | internal/object/service.go:269-301 | with Put's read and re-arm atomic, finalized stays finalized |
| Lifecycle.FinalizedForGood | internal/uploader/worker.go:186-215 | over every such whole run, what was ever finalized ends finalized and chain-reported |
| Witnesses.FinalizedCanBeLost | internal/object/service.go:285-297 | a run from the empty gateway, with truthful answers, that finalizes an object and then loses the status |
| Witnesses.WindowMatters | internal/uploader/worker.go:100-142 | a run with truthful answers in which a re-arm between mark and upload lands two entries in one epoch |
| Witnesses.SecondEntryAcrossEpochs | internal/object/service.go:269-301 | a run with truthful answers and no re-arm in the window in which a failed object with a landed upload is put again and gets a second live entry |
| Duplicates.UnaskedIff | internal/uploader/worker.go:92-101 | a member is collected without asking exactly when its re-read record is pending with no retries |
| Duplicates.SecondEntryIff | internal/uploader/worker.go:83-142 | with truthful answers, re-arms anywhere: an action adds an entry to a root that has one exactly when it lands a member collected unasked, not SkipTx, whose entry is live |
| Duplicates.NoDuplicateIff | internal/uploader/worker.go:83-184 | over every run with truthful answers a root never has two live entries exactly when no such member is ever uploaded |
| Epochs.StepKeepsEpoch | internal/uploader/worker.go:83-184 | pending with no retries means no upload was attempted this epoch; members asked about carry the answer; kept by every step under the hypotheses |
| Epochs.NeverBlindlyResubmitted | internal/uploader/worker.go:83-158 | with truthful answers and no re-arm in the window, at most one entry lands per root, epoch and prune; a member attempted before was reconciled in the same batch, SkipTx exactly on "uploading" |
| Epochs.RetriesBounded | internal/uploader/worker.go:163-184 | retries never exceed MaxRetries + 1 plus the crashes and store failures between count and status write |
| UploadWorker.Worker.constructor | internal/uploader/worker.go:55-63 | non-positive settings become 10 and 5; the worker may start on the store any earlier run left |
| UploadWorker.Worker.AskAbout | internal/uploader/worker.go:101-127 | one question, and item and record follow its answer: finalized is closed, uploading joins with SkipTx true, unknown or pruned with SkipTx false, no answer leaves the record alone |
| UploadWorker.Worker.VisitMember | internal/uploader/worker.go:88-128 | one collecting step: exactly the submitted and the retried are asked about; fresh objects join unasked with their record's SkipTx, the others by the answer |
| UploadWorker.Worker.CollectBatch | internal/uploader/worker.go:83-131 | the collecting loop partitions the batch into items, finalized and deferred members |
| UploadWorker.Worker.MarkBatch | internal/uploader/worker.go:133-137 | every member is submitted in the store before the chain sees the batch |
| UploadWorker.Worker.RecordBatch | internal/uploader/worker.go:143-156 | every member becomes onchain; SkipTx members and empty hashes keep the recorded transaction |
| UploadWorker.Worker.CountRetry | internal/uploader/worker.go:173-182 | one retry more, then pending, or past the cap failed with that reason; nothing else changes |
| UploadWorker.Worker.ReconcileMember | internal/uploader/worker.go:163-183 | one question about the member; finalized closes it, otherwise one retry is counted; SkipTx becomes true on "uploading" and is otherwise unchanged |
| UploadWorker.Worker.ReconcileFailedBatch | internal/uploader/worker.go:160-184 | the same for every member, in order, each by its own logged answer |
| UploadWorker.Worker.SubmitBatch | internal/uploader/worker.go:133-158 | exactly one upload call, and all members settled by its outcome |
| UploadWorker.Worker.ProcessBatch | internal/uploader/worker.go:83-158 | members are settled together or set aside, nothing else changes, and the error names what happened |
| UploadWorker.Worker.Flush | internal/uploader/worker.go:65-81 | extends the protocol run by worker actions; each snapshot root goes to at most one upload of at most BatchMax items and is settled or set aside, in no more calls than full batches take; without an error the queue is empty |
| UploadWorker.Worker.Observe | internal/uploader/worker.go:89-91 | Puts, reads, sweeps, prunes and crashes between the worker's runs keep it on a protocol run |
| UploadWorker.FlushEmpties | internal/uploader/worker.go:65-81 | all calls successful and none deferred leave nothing awaiting upload |
| UploadWorker.FlushAttempts | internal/uploader/worker.go:83-184 | a flush attempts every snapshot root it does not defer |
| UploadWorker.RetriesRunOut | internal/uploader/worker.go:173-182 | each attempt that leaves an object queued costs one of at most MaxRetries retries, so it leaves the queue |
| UploadWorker.Worker.Run | internal/uploader/worker.go:217-248 | after any number of ticks, whatever still awaits upload did so from the start and has spent one retry on every flush that did not defer it |
| UploadWorker.AttemptsForceOut | internal/uploader/worker.go:173-182 | so more such flushes than the cap has retries left put an object out of the queue |
| UploadWorker.Worker.LandsOnce | internal/uploader/worker.go:65-158 | what the class has done lands at most one entry per root and epoch, under the protocol theorem's hypotheses on its trace |
| UploadWorker.Worker.PollFinality | internal/uploader/worker.go:186-215 | asks exactly once about each onchain object; it is finalized exactly on "finalized", failed as pruned exactly on "pruned", and otherwise its record is unchanged; an error exactly when some status could not be learned; the protocol run is extended by worker actions |
| S3View.KeyTxnRefines | internal/store/store.go:295-401 | each key transaction is the plain map's operation |
| S3View.ObjTxnInvisible | internal/store/store.go:147-264 | uploads, retries and reads are invisible to S3 clients |
| S3View.NoOrphans | internal/store/store.go:373-385 | a bucket that does not exist holds no keys |
| S3View.RunRefinesPlainMap | internal/s3gw/backend.go:93-304 | every interleaved run looks like its S3 operations in commit order on a plain map bucket to key to bytes |
| S3Runs.TxnWellFormed | internal/s3gw/backend.go:93-268 | whatever requests interleave, a key is only ever mapped to a recorded root, and buckets named by the S3 rule |
| S3Runs.ProtocolRefinesPlainMap | internal/s3gw/backend.go:56-304 | in every reachable state of all interleavings clients see the plain map that the committed S3 operations give, in commit order |
| S3Runs.EveryKeyReadable | internal/s3gw/backend.go:154-190 | in every reachable state the bytes under every key are cached exactly or reported finalized |
| S3View.LastPutIsRead | internal/s3gw/backend.go:238-268 | what was last put or copied to a key stays readable, through deletion of a copy's source, until that key is overwritten, deleted or force-dropped |
| S3View.ListingExact | internal/store/store.go:403-424 | a listing names exactly the plain map's keys with their sizes |
| CacheDir.DirSizeWith | internal/object/service.go:111-127 | a file put in place adds its size and takes away that of the file it replaces |
| CacheDir.SweepEnds | internal/object/service.go:187-208 | the sweep removes only finalized objects' files, oldest first, no more than needed, and ends at the mark or with none left |
| ObjectService.LowMark | internal/object/service.go:187 | the low-water mark is nine tenths of the limit, rounded up |
| ObjectService.EvictionIsNearlyLru | internal/object/service.go:129-154 | an evicted object was really last opened before any kept one's last open plus one minute of nanoseconds |
| ObjectService.Service.constructor | internal/object/service.go:65-86 | startup counts the directory exactly and, over a lowered limit, sweeps it down to the low mark or until no finalized file is left |
| ObjectService.Service.ScanDir | internal/object/service.go:111-127 | the scan computes the directory size |
| ObjectService.Service.EvictIfNeeded | internal/object/service.go:171-209 | a full sweep when the counter is over the limit and none is running, otherwise nothing; no file of an object that is not finalized goes |
| ObjectService.SortByAccess | internal/object/service.go:193 | candidates in ascending access time, none lost or repeated |
| ObjectService.Service.NoteAdded | internal/object/service.go:133-142 | counts the new bytes, then sweeps if over the limit; a no-op on an unbounded cache |
| ObjectService.Service.Touch | internal/object/service.go:144-154 | one write per interval at most, none on an unbounded cache |
| ObjectService.Service.ShouldRejectWrite | internal/object/service.go:156-169 | rejects only when no finalized object has a file left and the counted bytes exceed the limit; otherwise the directory is within it |
| ObjectService.Service.Put | internal/object/service.go:230-347 | stores or deduplicates: exact error cases; the new record field by field; a re-arm exactly of failed or file-less content, keeping SkipTx and hash; a non-finalized object's file in place, only finalized files gone, accounting kept |
| ObjectService.Service.Open | internal/object/service.go:349-399 | returns exactly the addressed bytes when cached or restorable, reports which error otherwise; stamps the access time exactly on a cold read or a minute after the last stamp, on a bounded cache; keeps accounting and recency; a restored file goes only when no older one is left |
| PutRuns.PutIsProtocolRun | internal/object/service.go:230-347 | the sequential Put is the protocol's Put run undisturbed, with the same answer, the same store and the same file put in place |
| S3Backend.LookupExact | internal/s3gw/backend.go:320-334 | the flat index finds a key exactly when the plain map holds it |
| S3Backend.Backend.CreateBucket | internal/s3gw/backend.go:56-64 | adds an empty bucket or reports an existing one |
| S3Backend.Backend.DeleteBucket | internal/s3gw/backend.go:70-79 | removes an empty bucket, with the right error otherwise |
| S3Backend.Backend.ForceDeleteBucket | internal/s3gw/backend.go:81-89 | removes a bucket with its keys |
| S3Backend.Backend.PutObject | internal/s3gw/backend.go:93-132 | sets the key to the body, or fails for bucket or size and changes no key |
| S3Backend.Backend.Resolve | internal/s3gw/backend.go:320-334 | the key's root, or which of key and bucket is missing |
| S3Backend.Backend.GetObject | internal/s3gw/backend.go:154-190 | returns the plain map's bytes; only a failing restore can prevent it |
| S3Backend.Backend.HeadObject | internal/s3gw/backend.go:192-212 | the size of the plain map's bytes without restoring them |
| S3Backend.Backend.DeleteObject | internal/s3gw/backend.go:214-221 | removes the key; absence is no error |
| S3Backend.Backend.DeleteMulti | internal/s3gw/backend.go:223-236 | removes exactly the named keys and reports each |
| S3Backend.Backend.CopyObject | internal/s3gw/backend.go:238-268 | sets the destination to the source's bytes; source errors come before the destination's |
| S3Backend.Backend.ListBucket | internal/s3gw/backend.go:270-304 | lists exactly the bucket's keys, ascending, with sizes |
| CopySource.LibraryReadsWhatWasNamed | internal/s3gw/copysource.go:41-67 | the library, which cuts the key at a literal "?", reads back from the normalised header exactly the bucket and decoded key, for every decodable source |
| CopySource.CutFirstReadsIff | internal/s3gw/copysource.go:48-54 | were it to cut the whole header first, it would do so exactly when the bucket holds no "?" |
| CopySource.UnescapeIff | internal/s3gw/copysource.go:55 | decoding gives t exactly for the texts that spell t byte by byte, hexadecimal digits in either case, and fails on all others |
| CopySource.SplitIff | internal/s3gw/imageprocess.go:108-117 | splitting succeeds exactly on "bucket/key" and "/bucket/key" with a key |
| CopySource.NamesIff | internal/s3gw/copysource.go:47-67 | a copy source is accepted exactly when its text before a literal "?" spells such a path, and names that bucket and key |
| CopySource.FullyEncodedAccepted | internal/s3gw/copysource.go:22-27 | a source in any encoding, separators included and either case of digit, names what it spells, and so reads the library |
| CopySource.QueryRoundTrip | internal/s3gw/copysource.go:66 | form-encoding is undone by form-decoding; path-decoding leaves "+" for a space |
| CopySource.SecondPass | internal/s3gw/copysource.go:47-67 | a normalised header is refused by a second pass, or given back unchanged, each exactly for the sources described |
| CopySource.RewritingIdempotentIff | internal/s3gw/copysource.go:26-39 | the handler's rewriting done twice equals once exactly when the source or the first result is refused, or the bucket is non-empty without "%" and "?" and the key has no space |
| CopySource.SpaceRenamed | internal/s3gw/copysource.go:41-67 | a key with a space that a second pass renames |
| CopySource.SplitSource | internal/s3gw/imageprocess.go:108-117 | splitting "bucket/key" gives back bucket and key |
| ImageProc.FitStaysInside | internal/imageproc/imageproc.go:115-121 | a fitted size is inside the box with one side tight and its aspect off by at most half a pixel of the rounded side |
| ImageProc.FitOneSide | internal/imageproc/imageproc.go:122-128 | with one side given the other follows within half a pixel; with none the size is unchanged |
| ImageProc.FillCovers | internal/imageproc/imageproc.go:98-104 | a filling size covers the box with one side tight |
| ImageProc.CoordInRange | internal/imageproc/imageproc.go:142-149 | pixel centres correspond, and source coordinates lie within half a pixel of the source |
| ImageProc.LerpBetween | internal/imageproc/imageproc.go:181-192 | a blended and rounded channel lies between its four samples, so clamping never bites |
| ImageProc.LerpWeighs | internal/imageproc/imageproc.go:181-192 | a channel is the nearest integer to its four neighbours weighted by opposite areas |
| ImageProc.LerpCorners | internal/imageproc/imageproc.go:181-192 | on a neighbour it is that neighbour |
| ImageProc.ResampledWeighs | internal/imageproc/imageproc.go:142-163 | a rendered pixel is the weighted mean of the four source pixels around the point where its centre falls, edges repeated |
| ImageProc.AlikeStaysAlike | internal/imageproc/imageproc.go:131-163 | a source with alike rows renders alike rows, and so for columns |
| ImageProc.ResampledWithin | internal/imageproc/imageproc.go:131-192 | a rendering stays within the source's channel ranges |
| ImageProc.ResampledIdentity | internal/imageproc/imageproc.go:131-163 | resizing to the source's own dimensions is the identity |
| ImageProc.Bilinear | internal/imageproc/imageproc.go:131-163 | the pixel loops fill every pixel of an at least 1 x 1 image with its resampled value |
| ImageProc.CropCenter | internal/imageproc/imageproc.go:194-200 | the crop is in bounds, exactly w x h, and centred |
| ImageProc.Transform | internal/imageproc/imageproc.go:91-113 | fill gives the centred box, fixed the exact size, everything else the fitted size |

## Left out

- Key order of roots: by a fixed injective spelling of the ideal root, not by real Merkle hashes; FinalizedCacheEntries is unordered, as the sweep sorts it.
- Store errors inside the sequential classes: they are steps of the protocol instead.
- bbolt itself: a transaction is one atomic map update; deleting under a live cursor is taken to behave as a scan.
- createdAt, updatedAt, filename, content type, MD5 and ETag, and the text of failure reasons.
- Roots compared without regard to case, and cache paths as strings.
- A transaction that lands only after BatchUpload has returned an error, or after a crash during it: a batch lands at the call or not at all.
- File-operation errors (fsync, rename, remove, and opening a file after its rename) in the sequential service; accounting is stated for runs without them.
- A cache file changed in place without changing its size: reads check the size only, by design.
- Files in the cache directory removed by anyone but the evictor, and finalized data lost by the chain.
- Conditional PUT, ranges, prefixes, delimiters and pagination of listings: library code around the modelled calls. The S3 library's own header parsing is not part of this model beyond its description in the handler's comments; whether it cuts at "?" before or after splitting they do not say, and both are treated.
- Epochs.NeverBlindlyResubmitted: says when no duplicate lands, not exactly when one does; that is Duplicates.SecondEntryIff.
- Duplicates.SecondEntryIff: assumes that "unknown" and "pruned" answers are true; nothing is said of a lying node.
- UploadWorker.Worker.constructor: a restart keeps the settings; changing BatchMax or MaxRetries between runs is not modelled.
- UploadWorker.Worker.Run: counts ticks with nothing else at the store; with other requests in between, the retry bound is Epochs.RetriesBounded.
- KeyOrder.Seek: finds the key by search over an unordered set, because the tree behind the cursor is not part of this model.
- Rounding in float64 arithmetic; image decoding, encoding and colour models; parsing of the resize specification.
- SDK, RPC and signer setup, the worker's ticker, configuration, HTTP plumbing and logging.
