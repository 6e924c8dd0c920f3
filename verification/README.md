# Courier: a verified model

Courier moves data sets from a workstation to a Registry and back. It uploads objects in
resumable multipart sessions, packs small files into a container, registers a manifest, lets
workers verify what arrived, and restores verified data sets. This project models that pipeline in
Dafny and proves what it is relied on for. `dafny verify dfyconfig.toml` checks all of it.

## The model

*Uploading one object* (`Planner`, `Replan`, `UploadProtocol`, `PageGrowth`, `StalePart`, `Executor`). The
stored part rows and the remote multipart session drift apart through crashes, lost replies,
retries and plans that are re-cut half way. `UploadProtocol` is a transition system over rows,
sessions and the finished object in which every call may take effect and still report failure.
`Executor` has the loops of the code as methods over the stored rows and the store, and each of them is proved to be
a run of the protocol. They keep a log of what their calls met, and their results are those that the
log calls for. The store may list only the lowest-numbered parts, as many as it likes, as long as it
never lists more than before. `PageGrowth` says exactly which plans are safe without that assumption,
and `StalePart` is a run of one that is not.

*The pack container* (`Files`, `PackPlan`, `PackFormat`, `PackCodec`, `PackReader`,
`PackReaderLaws`, `PackLaws`, `ZstdGuard`, `ZstdFrame`, `ZstdLaws`). `PackFormat` defines the stream and its batch decoder; `PackCodec`
proves the Rust loops and the Python streaming reader against it. The browser's incremental parser
and its Zstandard guard are classes that take chunks; a byte-at-a-time walk specifies both and
is shown to accept exactly what the batch decoder accepts, or what a printer of frames writes.

*Plan, manifest, verification, restore* (`TransportPlan`, `StagingBudget`, `Names`,
`Manifest`, `ManifestLaws`, `ObjectContents`, `Restore`, `EndToEnd`, `Pipeline`). Each stage is a method proved against
the condition under which it succeeds, in both directions. `EndToEnd.Journey` calls them one after
the other, and its contract is the identity on the data set. `Pipeline.Transfer` puts the resumable
upload and download in between, where everything may fail.

*Workers* (`Verification`, `VerificationRuns`, `VerificationLease`, `VerificationArrival`,
`VerificationUndone`). The Registry's operations on
the rows of one transfer, as a class that opens, decodes and measures the stored objects, and all
interleavings of any number of workers, each reading, verifying and committing in separate steps.
`EndToEnd.CompleteIsRestorable` carries a complete transfer of any run on to the restore.

*Small stateful algorithms* (`Outbox`, `OutboxRuns`, `OutboxClient`, `SyncRotation`, `RateLimiter`, `Download`).

## What is assumed

One client uploads an object at a time, and the source does not change while its size and time
check out. A call to the store takes effect before it returns or not at all. An ETag is never
issued for two different contents; the type `ETag` carries the bytes it was issued for. Completing
an upload consumes its id. Zstandard is lossless, so packs are modelled as their decompressed
streams, and encoding a pack twice gives the same bytes. A digest is an arbitrary function of
algorithm and content. A header is printed by any printer with a parser that inverts it.

## Where the code does not meet its intention

- The large-file loop subtracts the size of a deleted pack that it never added, so the staged
  packs can exceed the budget. `StagingBudget.BalancedExactly` says exactly when the account is
  right, `StagingBudget.BudgetOverrun` overruns it, and the loop without the subtraction is proved.
- A resumed download that is answered with a success other than 200 or 206 starts the file over
  but keeps counting from the old offset, and a body cut short can then pass the size check:
  `Download.SuccessHasExpectedSize` and `Download.OddReplyDeliversShortFile`.
- A completed transfer can go back to finalizing: `VerificationRuns.CompletionFinalExactly` says
  exactly when it cannot. It can while a finalize request is half-done, even with a single worker
  (`VerificationUndone.OneWorkerUndoesCompletion`), and while a worker whose lease ran out can still
  commit a failure (`VerificationUndone.TwoWorkersUndoCompletion`).
- A listing that grows between two reconciliations can confirm a stale part and publish the wrong
  object: `StalePart.GrownPagePublishesWrongBytes`. `PageGrowth.SafeExactly` says exactly for which
  plans it cannot, and `PageGrowth.DefaultPlanUnsafe` that default plans of huge files can be hit.
- A download in the browser that is refused because it exceeds the decoding bound may have handed on
  more or less, as the chunks fall: `PackReaderLaws.ChunksAgreeExactly` and
  `PackReaderLaws.ChunksMatterOverBound`.
- The limiter forgets a key once enough other keys are called, and then admits more of it than its
  maximum: `RateLimiter.RememberedExactly`, `RateLimiter.WindowExceededExactly` and
  `RateLimiter.WindowExceeded`.
- A delete removes the stored objects before it commits, so one that fails in between leaves a
  complete transfer that cannot be restored: `VerificationUndone.DeleteLosesObject` and
  `EndToEnd.CompleteIsRestorable`.
- A pack of more than 2^32 members is numbered modulo 2^32, and the Registry refuses its manifest:
  `ManifestLaws.AcceptedExactly`, and `ManifestLaws.TooManyEmptyFiles` for a data set that is packed so.

## Model

| member | source | states |
|---|---|---|
| `Planner.PlanPartsSucceeds` | crates/courier-transfer/src/planner.rs:37-95 | A plan that is returned covers [0, file size) with consecutive, disjoint, one-based ranges within the count and size limits; all parts but the last have one size; nothing is marked attempted; no cast loses bits. |
| `Planner.PlanPartsFails` | crates/courier-transfer/src/planner.rs:42-56 | `InvalidLimits` is returned exactly for unusable limits, and `FileTooLarge` exactly when the file exceeds the true capacity product, although the code multiplies with saturation. |
| `Planner.PartSizeSuffices` | crates/courier-transfer/src/planner.rs:57-66 | At the chosen part size, which lies between minimum and maximum, the file needs no more parts than allowed. |
| `Planner.PartsAsAsked` | crates/courier-transfer/src/planner.rs:57-95 | Every part but the last is at least the target size, raised to the minimum and cut to the maximum; a part larger than that is of the smallest size with which the allowed number of parts suffices. |
| `Planner.CapacityProduct` | crates/courier-transfer/src/planner.rs:49-56 | The saturating product never hides a file over the true product. |
| `Replan.ReplanLargeUnconfirmedParts` | crates/courier-transfer/src/executor.rs:304-356 | The loop re-cuts exactly when nothing after the confirmed prefix is confirmed and a later part is over target; it reports exactly the plans that are not contiguous; otherwise its result is the confirmed prefix followed by a cut of the rest. |
| `Replan.ReplanSucceeds` | crates/courier-transfer/src/executor.rs:304-356 | From a usable plan the re-cut never fails. |
| `Replan.ReplanCloses` | crates/courier-transfer/src/executor.rs:304-356 | The re-cut plan keeps the confirmed records unchanged, covers the file again within the same limits, and has a fresh tail of one size. |
| `Replan.ReplanNeverCoarsens` | crates/courier-transfer/src/executor.rs:304-356 | Any bound on the old tail's part sizes bounds the new tail's. |
| `Replan.TailAsAsked` | crates/courier-transfer/src/executor.rs:310-356 | While nothing behind the confirmed prefix is confirmed, the rule leaves no part there over 16 MiB unless no smaller size would do with the part numbers left, and a re-cut makes none but the last smaller. |
| `Replan.ReplanIdempotent` | crates/courier-transfer/src/executor.rs:304-356 | With nothing newly confirmed, a second re-cut changes nothing. |
| `UploadProtocol.StepKeeps` | crates/courier-transfer/src/executor.rs:146-492 | Every step (begin, bind, put with or without its reply, confirm, fail, reconcile, re-cut, complete, crash, a shorter listing) keeps the invariant. |
| `UploadProtocol.UploadSafe` | crates/courier-transfer/src/executor.rs:415-492 | In every run in which a later listing never shows more parts than an earlier one, at every moment, an object that exists under the key is byte for byte the source. |
| `UploadProtocol.ReconcileKeeps` | crates/courier-core/src/db.rs:856-881 | After reconciliation the rows say complete exactly for the listed parts, and the invariant holds, even when the listing is only the first page of parts. |
| `UploadProtocol.ReplanKeeps` | crates/courier-transfer/src/executor.rs:304-356 | A re-cut moves only ranges whose parts are not listed, so every listed part still holds the bytes of its range. |
| `UploadProtocol.CompleteKeeps` | crates/courier-transfer/src/executor.rs:457-484 | A completion that the store accepts publishes exactly the source, even if its reply is lost. |
| `UploadProtocol.ListingNeverRejected` | crates/courier-transfer/src/reconcile.rs:48-69 | In Courier's own runs the listing contains no unplanned part and no part of a wrong size. |
| `UploadProtocol.FullListingMatches` | crates/courier-transfer/src/reconcile.rs:48-75 | When a page holds all part numbers, every accepted remote part holds the bytes of its range in the current plan. |
| `PageGrowth.SafeExactly` | crates/courier-transfer/src/executor.rs:304-356 | However much of its parts each listing shows, and whether or not it gives their sizes: every run from a fresh plan (whose last part, as in the planner's, is not empty) publishes the source or nothing exactly when, for every number of leading parts after which a re-cut would be asked for, that re-cut leaves every range as it is. |
| `PageGrowth.SmallPlansKeep` | crates/courier-transfer/src/executor.rs:304-330 | Plans with no part over the target size meet that condition. |
| `PageGrowth.FullPlansKeep` | crates/courier-transfer/src/executor.rs:304-356 | So do plans of 10,000 parts of one size, however large. |
| `PageGrowth.DefaultPlanUnsafe` | crates/courier-transfer/src/planner.rs:57-66 | The default plan of a file one byte over 10,000 parts of the target size does not, and some run of it publishes the wrong object. |
| `PageGrowth.DefaultPlanSmall` | crates/courier-transfer/src/planner.rs:57-66 | Every file of at most 10,000 parts of the target size is planned without a part over it. |
| `StalePart.GrownPagePublishesWrongBytes` | apps/data-registry/data_registry/storage.py:37-39 | Counterexample: a run from a fresh plan over the target size, whose first listing shows one part and whose second shows six, publishes an object that is not the source, although both listings give every size and pass the check. |
| `Executor.TransferStore.ReconcileRemoteParts` | crates/courier-core/src/db.rs:856-881 | The two-stage update leaves exactly the listed rows complete, with the listed ETags, and keeps the other rows' failures. |
| `Executor.TransferStore.ConfirmPart` | crates/courier-core/src/db.rs:822-837 | Exactly the named row becomes complete, with the ETag and one more attempt. |
| `Executor.TransferStore.RecordPartFailure` | crates/courier-core/src/db.rs:839-846 | Exactly the named row becomes failed, with one more attempt. |
| `Executor.ReconcileFile` | crates/courier-transfer/src/reconcile.rs:24-76 | Begins or resumes one session and makes the rows agree with the listing; it fails only with the store's own error; its effect is a run of the protocol. |
| `Executor.OpenSession` | crates/courier-transfer/src/reconcile.rs:29-47 | The session already recorded is used, and otherwise one is begun and recorded; only then does the executor ask the store, and an error is the one it answered with. |
| `Executor.ReconcileWithRetry` | crates/courier-transfer/src/executor.rs:358-390 | Reconciliation is repeated after retryable errors only; it ends with success, with an error that is not retryable after fewer errors than attempts allowed, or with the last of exactly that many retryable errors. |
| `Executor.CheckListing` | crates/courier-transfer/src/reconcile.rs:48-69 | Passes exactly the listings whose parts are all planned, with the planned size where a size is given; otherwise names the first unplanned part, or, when all are planned, the first of a wrong size with both sizes. |
| `Executor.AttemptPart` | crates/courier-transfer/src/executor.rs:234-279 | One attempt ends either with the row confirmed under an ETag of exactly the bytes sent, or failed with one more attempt, whether or not the store kept the bytes; it is a run of the protocol. |
| `Executor.UploadPartWithRetry` | crates/courier-transfer/src/executor.rs:201-288 | What the calls met decides the result: it asks once whether the source changed and before each attempt whether to pause, tries again exactly after transient and authorization errors, returns any other store error at once, and gives up with the last error after the full number of attempts. The row counts every attempt and ends confirmed with the bytes and the length sent, failed, or, with no attempt made, untouched; no other row changes. |
| `Executor.UploadRows` | crates/courier-transfer/src/executor.rs:195-288 | Success means every row is confirmed and that exactly the rows that were not were sent; confirmed rows are never touched, even on failure, and the last thing met accounts for the error. |
| `Executor.ReplanIfNeeded` | crates/courier-transfer/src/executor.rs:170-181 | The stored plan is replaced exactly when the rule asks for it, by the re-cut plan, and never fails. |
| `Executor.UploadMissingParts` | crates/courier-transfer/src/executor.rs:146-302 | Success means that the object is already the source, which only a probe of a known key can tell, or that every row is confirmed; the reported bytes are the whole source and the reported parts are the answered sends and the parts listed. It asks about a pause first; the last thing met accounts for every error, so the two listing errors and planning errors never occur. |
| `Executor.CollectParts` | crates/courier-transfer/src/executor.rs:434-455 | Returns the parts in order, with their ETags and the size sent where it is known and the planned size where not, exactly when all rows are complete with ETags; otherwise counts the incomplete rows or names the first one without an ETag. |
| `Executor.RetryCompletion` | crates/courier-transfer/src/executor.rs:457-492 | After a refused completion the store is asked for the object; another attempt follows exactly when it is not there, the error is transient or of the authorization, and attempts are left. |
| `Executor.CompleteUploadedFile` | crates/courier-transfer/src/executor.rs:415-492 | `Completed` and `AlreadyComplete` both mean that the finished object is the source, whether or not any reply was heard; incomplete parts, a refused completion and exhausted retries mean that there is no object. The store's answers decide the outcome; a missing ETag never occurs. |
| `Executor.UploadObject` | crates/courier-transfer/src/executor.rs:82-492 | Planning, sending and completing compose: planning fails exactly when the source exceeds what the limits can hold, and success means the object is the source. |
| `PackPlan.PlanPacks` | crates/courier-pack/src/lib.rs:61-99 | Fails exactly for zero options; otherwise standalone files are those over the member limit, and the packs are the greedy packing of the others in path order. |
| `PackPlan.PlanPartitions` | crates/courier-pack/src/lib.rs:61-99 | Packs and standalone files are the input, each file once, divided by the member limit. |
| `PackPlan.GreedyOptimal` | crates/courier-pack/src/lib.rs:81-97 | No partition of the path-ordered candidates into groups within target uses fewer packs. |
| `PackPlan.GreedyUnique` | crates/courier-pack/src/lib.rs:81-97 | The greedy packing is the only one that is within target and full. |
| `PackPlan.PlanIgnoresOrder` | crates/courier-pack/src/lib.rs:68-80 | With distinct paths the plan is the same for every order of the input. |
| `Files.SortedUnique` | crates/courier-pack/src/lib.rs:78-80 | Files with distinct paths have only one path order. |
| `PackFormat.RoundTrip` | crates/courier-pack/src/lib.rs:101-190 | Decoding an encoding delivers exactly the headers and contents that went in, in order, for any header printer with an inverse parser. |
| `PackFormat.EncodingExact` | crates/courier-pack/src/lib.rs:142-190 | Every strict prefix and every proper extension of an encoding is refused. |
| `PackFormat.PrefixFree` | crates/courier-pack/src/lib.rs:142-190 | No accepted stream is a strict prefix of another accepted stream. |
| `PackFormat.LimitsOnlyRefuse` | apps/data-registry/data_registry/pack.py:55-66 | A decoder with limits takes exactly the streams that the unlimited decoder takes and whose headers and sizes are within the limits. |
| `PackFormat.LengthBound` | apps/data-registry/data_registry/admin/file-download.js:6-11 | An accepted stream is no longer than its members, their headers' limit and twelve bytes each account for. |
| `PackCodec.EncodePack` | crates/courier-pack/src/lib.rs:101-140 | Succeeds exactly when every member is unmodified, safely named, printable and fully readable, and then writes the members' encoding and counts its length; otherwise the first member that is not decides the error. |
| `PackCodec.DecodePack` | crates/courier-pack/src/lib.rs:142-190 | The Rust loop delivers exactly what the batch definition decodes. |
| `PackCodec.DecodedStream.ReadExact` | apps/data-registry/data_registry/pack.py:81-88 | However short the reads, the next bytes come back whole or the stream ends early. |
| `PackCodec.DecodedStream.IterPackMembers` | apps/data-registry/data_registry/pack.py:44-78 | The Python streaming loop yields exactly what the batch definition decodes within the 1 MiB header limit, over any sequence of short reads. |
| `PackCodec.DecodersAgree` | apps/data-registry/data_registry/pack.py:44-78 | The Rust and Python decoders agree on every encoder output whose headers are at most 1 MiB. |
| `PackLaws.PackBytes` | crates/courier-pack/src/lib.rs:102-140 | The bytes of a pack, written out: the magic, and for each member the header's length in four bytes and the content's in eight, the lowest first, around header and content; four zero bytes end it. |
| `PackLaws.PackComesBack` | crates/courier-pack/src/lib.rs:102-190 | Decoding the pack of source files that are ready gives each header and the file's own bytes, in order. |
| `PackLaws.DecodesExactly` | apps/data-registry/data_registry/pack.py:44-78 | A decoder with limits delivers a written pack whole exactly when the header and the size of each member are within them, and otherwise nothing. |
| `PackLaws.DownloadMember` | apps/data-registry/data_registry/admin/file-download.js:2-61 | A written pack, cut into any chunks, gives the browser the content of the member it asked for exactly when the manifest names the right number of members, their bytes in total and that member's own header, no header is over 1 MiB and no size over the largest safe integer. |
| `PackLaws.BoundIsTight` | apps/data-registry/data_registry/admin/file-download.js:6-11 | A downloadable pack whose headers all have the maximum length is exactly as long as the decoding bound. |
| `PackReader.CourierPackReader.Push` | apps/data-registry/data_registry/admin/file-download.js:9-57 | A chunk that passes moves the reader on as its bytes would one at a time; a chunk over the decoding bound consumes nothing; any other chunk that does not pass holds a byte at which that walk fails, and consumes what the walk does. |
| `PackReader.CourierPackReader.Finish` | apps/data-registry/data_registry/admin/file-download.js:58-60 | Accepts exactly the finished state with all members, all bytes and the selected member seen. |
| `PackReader.FeedAppend` | apps/data-registry/data_registry/admin/file-download.js:9-57 | Feeding two pieces is feeding their concatenation: chunk boundaries do not matter. |
| `PackReaderLaws.FeedAccepts` | apps/data-registry/data_registry/admin/file-download.js:2-61 | The byte walk accepts exactly when the batch decoder accepts within the browser's limits and the plan's totals and selected member match, and it has then consumed exactly that member. |
| `PackReaderLaws.BoundIsSlack` | apps/data-registry/data_registry/admin/file-download.js:6-11 | The decoding bound refuses no stream that the other checks accept. |
| `PackReaderLaws.Download` | apps/data-registry/data_registry/admin/file-download.js:2-61 | For any cut into chunks the download is accepted exactly when the whole stream is downloadable, and delivers the selected member; accepted or refused, it has handed on what the byte walk hands on over the chunks within the decoding bound. |
| `PackReaderLaws.ChunksAgreeExactly` | apps/data-registry/data_registry/admin/file-download.js:2-61 | Every cut of a stream into chunks hands on the same bytes exactly when the stream is within the decoding bound or hands on nothing before it; within the bound they are those of the byte walk, accepted or refused. |
| `PackReaderLaws.ChunksMatterOverBound` | apps/data-registry/data_registry/admin/file-download.js:10-11 | Counterexample over the bound: one chunk hands on nothing, the same stream in two chunks hands on the member. |
| `ZstdGuard.CourierZstdGuard.Push` | apps/data-registry/data_registry/admin/file-download.js:66-98 | A chunk passes exactly when no byte of it fails, and moves the guard on as its bytes would one at a time. |
| `ZstdLaws.GrammarIsFrames` | apps/data-registry/data_registry/admin/file-download.js:64-100 | The fields that the guard reads out of the bytes are those from which the frame is printed. |
| `ZstdLaws.FeedAccepts` | apps/data-registry/data_registry/admin/file-download.js:64-100 | The guard ends satisfied exactly on one whole frame of section 3.1.1 of RFC 8878, as `ZstdFrame` prints it from its fields: without dictionary and with the unused and the reserved descriptor bits clear, with a window of at most 32 MiB, a declared size within bound and blocks of at most 128 KiB each, even where the window is smaller. |
| `ZstdLaws.Guard` | apps/data-registry/data_registry/admin/file-download.js:64-100 | The same for any cut into chunks. |
| `TransportPlan.CappedWriter.Write` | apps/courier-desktop/src-tauri/src/lib.rs:1816-1839 | A write that would pass the limit is refused whole; otherwise the file grows by it, so the file never exceeds the limit. |
| `TransportPlan.PackCache.StageOrMeasure` | apps/courier-desktop/src-tauri/src/lib.rs:1894-1947 | The pack is staged exactly when the limit is positive and the pack fits it; otherwise it is measured only; the reported size is the same either way, and the peak of staged and temporary bytes is that of the writes up to the first refused one. |
| `TransportPlan.PrepareTransportPlan` | apps/courier-desktop/src-tauri/src/lib.rs:1995-2167 | Succeeds exactly when every member can be read; objects, members and upload sources are those of the plan's parcels in order, and the cache account and the peak of bytes on disk are those the staging rule gives. |
| `TransportPlan.LargeFileTravels` | apps/courier-desktop/src-tauri/src/lib.rs:2080-2161 | A standalone file travels as it is exactly when its pack is not smaller or is over the budget, and otherwise as its pack; it never takes more bytes than it has. |
| `StagingBudget.PackLoopBalanced` | apps/courier-desktop/src-tauri/src/lib.rs:2013-2038 | Throughout the pack loop the staged packs total the account, which is within budget. |
| `StagingBudget.PackLoopStages` | apps/courier-desktop/src-tauri/src/lib.rs:2013-2038 | A pack is staged exactly when the budget is not used up and the pack fits beside those staged already. |
| `StagingBudget.FileLoopAccounts` | apps/courier-desktop/src-tauri/src/lib.rs:2080-2161 | In the large-file loop the cache holds the account plus everything the account has lost by subtracting packs that were never added; the account stays within budget. |
| `StagingBudget.BalancedExactly` | apps/courier-desktop/src-tauri/src/lib.rs:2139-2143 | The final account is right and within budget exactly when no large file was staged, found not smaller and subtracted from a positive account. |
| `StagingBudget.CorrectedLoopBalanced` | apps/courier-desktop/src-tauri/src/lib.rs:2080-2161 | Without that subtraction the loop keeps the balance. |
| `StagingBudget.FollowsCorrected` | apps/courier-desktop/src-tauri/src/lib.rs:2080-2161 | The source's loop follows the corrected one as long as that case does not occur. |
| `StagingBudget.PackLoopPeak` | apps/courier-desktop/src-tauri/src/lib.rs:2013-2038 | At every write of the pack loop the staged packs and the open temporary together are within the budget. |
| `StagingBudget.FileLoopPeak` | apps/courier-desktop/src-tauri/src/lib.rs:2080-2161 | At every write of the large-file loop they exceed the budget by at most what the account has lost. |
| `StagingBudget.BudgetOverrun` | apps/courier-desktop/src-tauri/src/lib.rs:2139-2143 | Counterexample: a plan of five files, made with a member limit of 30 and a target of 64, leaves 140 bytes staged under a budget of 100. |
| `Manifest.BuildManifestSnapshot` | crates/courier-registry/src/lib.rs:629-700 | Succeeds exactly when every file is placed in the plan and has a relative path; each entry then names the file's own object and index. |
| `Manifest.ValidateManifest` | apps/data-registry/data_registry/schemas.py:305-390 | The loops accept exactly the manifests that satisfy the declared conditions on fields, totals, uniqueness, references, contiguous indexes, object sums and kinds. |
| `Manifest.CheckObject` | apps/data-registry/data_registry/schemas.py:370-389 | An object is accepted exactly when it has files, their indexes sort to zero, one, two and so on, their sizes add up and its kind fits. |
| `ManifestLaws.ParcelsShip` | apps/courier-desktop/src-tauri/src/lib.rs:2013-2161 | The parcels of a plan carry each file exactly once, under distinct object ids. |
| `ManifestLaws.PlacedByParcel` | apps/courier-desktop/src-tauri/src/lib.rs:2052-2060 | The file-to-member table places every file in its own parcel at its own position. |
| `ManifestLaws.EntriesOfParcel` | crates/courier-registry/src/lib.rs:636-668 | The manifest entries of an object are as many as its parcel's files and add up to the same bytes, and their indexes are contiguous exactly when they fit in 32 bits. |
| `PackPlan.EmptyFilesShareAPack` | crates/courier-pack/src/lib.rs:81-97 | Empty files fill no pack: any number of them is planned as a single pack. |
| `ManifestLaws.AcceptedExactly` | apps/data-registry/data_registry/schemas.py:353-390 | The Registry accepts the manifest of a prepared plan exactly when names are portable, digests are written in hexadecimal with the algorithm's number of bytes, paths are distinct, the bytes fit in 64 bits and each pack's members in 32. |
| `ManifestLaws.DigestsExactly` | apps/data-registry/data_registry/schemas.py:327-336 | A digest is taken exactly when it is the lower-case hexadecimal form of 16 bytes for XXH3, or of 32 for SHA-256 and BLAKE3. |
| `ManifestLaws.NamesExactly` | apps/data-registry/data_registry/schemas.py:305-324 | A name is taken exactly when it is portable: at most 4096 characters, no backslash, no zero, no drive prefix, and every component goes one folder down. |
| `ManifestLaws.AcceptedKinds` | apps/data-registry/data_registry/schemas.py:353-390 | An accepted object that is a file is one uncompressed file; a pack is compressed and not empty. |
| `ManifestLaws.AcceptedBytes` | apps/data-registry/data_registry/schemas.py:353-390 | The objects of an accepted manifest hold the original bytes in total. |
| `ManifestLaws.TooManyEmptyFiles` | apps/data-registry/data_registry/schemas.py:353-390 | The manifest of more than 2^32 empty files, which the client plans as one pack, is refused. |
| `ManifestLaws.SplitJoin` | apps/courier-cli/src/retrieve.rs:42-59 | Splitting a joined path gives its components back. |
| `ManifestLaws.JoinInjective` | crates/courier-registry/src/lib.rs:982-995 | Different relative paths have different names. |
| `ObjectContents.VerifyTransportObject` | apps/data-registry/data_registry/verification.py:193-234 | For the files of an accepted manifest, verification succeeds exactly when the object decodes to one piece per file and each piece has its file's metadata, size and digest; it returns the length and digest measured on each file's piece. |
| `ObjectContents.VerifiedFitsClient` | apps/data-registry/data_registry/verification.py:193-234 | What the Registry verifies, the client decodes to the same pieces. |
| `Restore.RestoreObject` | apps/courier-cli/src/retrieve.rs:83-150 | One object is restored exactly when it fits its files, their paths are safe and clash with nothing; exactly those files are then written with their own contents. |
| `Restore.RestoreDataset` | apps/courier-cli/src/retrieve.rs:152-214 | The restore succeeds exactly when count, paths, objects and downloads are right, and the folder then holds exactly the manifest's files with the contents their objects hold for them. |
| `Restore.SafePathDescends` | apps/courier-cli/src/retrieve.rs:43-60 | The client writes exactly to names without backslash and zero that go one folder down with every component, so never outside the folder. |
| `EndToEnd.VerifiedIsRestorable` | apps/courier-cli/src/retrieve.rs:152-214 | An accepted and verified transfer is restorable, whoever uploaded it, when its paths differ by more than case and no file is below another. |
| `EndToEnd.ParcelFits` | apps/data-registry/data_registry/verification.py:193-234 | The Registry verifies every object that the client prepared and stored. |
| `EndToEnd.FileComesBack` | apps/courier-cli/src/retrieve.rs:83-214 | Each file of the data set comes back under its own name with its own bytes. |
| `EndToEnd.RestoredIsDataset` | apps/courier-cli/src/retrieve.rs:152-214 | The restored folder is the data set: nothing missing, nothing more. |
| `EndToEnd.Journey` | apps/courier-desktop/src-tauri/src/lib.rs:1995-2167 | Planning, preparing, building and validating the manifest, encoding, verifying and restoring a good data set all succeed, and the restored folder is exactly the original path-to-bytes map. |
| `Pipeline.SendObject` | crates/courier-transfer/src/executor.rs:82-492 | An object that an upload over an unreliable store reports as sent is the bytes that were sent. |
| `Pipeline.FetchObject` | crates/courier-registry/src/lib.rs:365-494 | A download that is repeated over its partial file until it succeeds yields the object, unless the successful call met an odd reply. |
| `Pipeline.Transfer` | apps/courier-cli/src/retrieve.rs:180-210 | Uploads, registration, verification, downloads and restore compose: when all objects arrive and no odd reply was met, the restore succeeds and the folder is exactly the data set. |
| `Verification.RegistryTables.ClaimTransfer` | apps/data-registry/data_registry/verification.py:30-69 | A transfer is claimed exactly when it is finalizing or its lease ran out, and attempts are left; the claim adds one numbered attempt. |
| `Verification.RegistryTables.VerifyClaim` | apps/data-registry/data_registry/verification.py:72-136 | The objects are opened and verified in turn; the files of those before the first failure get the sizes and digests measured on them; the transfer is complete when all fit, failed when bytes do not fit or the attempt read was the last, and else finalizing; only columns the session changed are written. |
| `Verification.RegistryTables.CompleteMultipart` | apps/data-registry/data_registry/api.py:1246-1295 | An uploaded object and one without an upload are answered without a change, and so is a refusal of the store; otherwise the object and exactly its files become uploaded. |
| `Verification.RegistryTables.FinalizeTransfer` | apps/data-registry/data_registry/api.py:1299-1324 | Only a ready transfer whose objects are all uploaded is finalized; later states are answered without a change. |
| `Verification.RegistryTables.RetryFailedTransfer` | apps/data-registry/data_registry/api.py:583-613 | Exactly a failed transfer with all files arrived goes back to finalizing; attempts are kept. |
| `VerificationArrival.FilesFollowObjects` | apps/data-registry/data_registry/api.py:1246-1295 | At every moment of every run a file is pending exactly until its object has arrived. |
| `VerificationArrival.FinalizeInRun` | apps/data-registry/data_registry/api.py:1299-1324 | In a run, a transfer that waits for its files can be finalized exactly when none of them is pending. |
| `VerificationArrival.RetryInRun` | apps/data-registry/data_registry/api.py:583-613 | In a run, every failed transfer that has files can be retried, and no other; the retry keeps everything but the status and the start. |
| `VerificationRuns.StepKeeps` | apps/data-registry/data_registry/verification.py:30-136 | With any number of workers, lease expiries and interleaved commits, every step keeps the invariant and no verified file is touched. |
| `VerificationRuns.RunSafe` | apps/data-registry/data_registry/verification.py:30-136 | At every moment of every run the attempt count is the number of attempt rows and within the maximum; in a complete transfer the sizes and digests measured are the manifest's, and the bytes stored for every object, whether or not a delete has removed them since, are what the manifest says of its files. |
| `VerificationRuns.VerifiedForever` | apps/data-registry/data_registry/verification.py:92-102 | A verified file never changes again in any run. |
| `VerificationRuns.ClaimsBounded` | apps/data-registry/data_registry/verification.py:30-69 | No run makes more claims than the maximum number of attempts. |
| `VerificationLease.LeaseRespected` | apps/data-registry/data_registry/verification.py:30-69 | While a transfer stays under verification it is handed out again only after the lease of the last hand-out is over. |
| `VerificationLease.LeaseExactly` | apps/data-registry/data_registry/verification.py:30-69 | With attempts left and a worker idle, it can be handed out again exactly when that lease is over. |
| `VerificationLease.StatesHandedOut` | apps/data-registry/data_registry/verification.py:30-69 | In any other state it can be handed out exactly when it is finalizing and attempts are left. |
| `VerificationLease.ClaimAgain` | apps/data-registry/data_registry/verification.py:30-69 | At any moment of a run a claim on such a transfer is answered exactly when the lease is over; it counts the attempt and starts the lease anew. |
| `VerificationLease.AttemptEnds` | apps/data-registry/data_registry/verification.py:72-136 | What a worker measured up to the first object that does not fit decides the verdict on transfer and attempt. |
| `VerificationLease.FittingFilesKept` | apps/data-registry/data_registry/verification.py:92-102 | The files of the objects before the first one that does not fit are recorded as verified with their sizes and digests, whatever the verdict. |
| `VerificationRuns.CompletionFinalExactly` | apps/data-registry/data_registry/verification.py:72-136 | A complete transfer stays complete in every continuation exactly when no finalize request is half-done and, unless there are no objects, every worker is idle or read the very status that its failure would set. |
| `VerificationRuns.OneWorkerFinalExactly` | apps/data-registry/data_registry/api.py:1299-1324 | In every run with one worker, completion is final exactly when no finalize request is half-done. |
| `VerificationUndone.OneWorkerUndoesCompletion` | apps/data-registry/data_registry/api.py:1299-1324 | Counterexample: a run of one worker from the accepted manifest in which the second of two overlapping finalize requests takes a complete transfer back to finalizing. |
| `VerificationUndone.TwoWorkersUndoCompletion` | apps/data-registry/data_registry/verification.py:119-123 | Counterexample: a run of two workers from the accepted manifest in which one whose lease ran out takes a complete transfer back to finalizing. |
| `VerificationUndone.DeleteLosesObject` | apps/data-registry/data_registry/api.py:616-651 | Counterexample: a delete that fails after it removed an object leaves a complete transfer without it. |
| `EndToEnd.CompleteIsRestorable` | apps/data-registry/data_registry/verification.py:72-136 | In every run of clients, workers and administrators, a complete transfer whose names differ by more than case and do not nest can be restored exactly when no delete has removed an object of it. |
| `Outbox.EventTables.IngestEvents` | apps/data-registry/data_registry/client_events.py:103-153 | Either every event of the batch is now recorded, new ones in order, and all are acknowledged, or the tables are unchanged. |
| `Outbox.OutboxStore.PendingTransferEvents` | crates/courier-core/src/db.rs:116-139 | Returns the first unsynced events in sequence order, at most one hundred. |
| `Outbox.OutboxStore.AcknowledgeTransferEvents` | crates/courier-core/src/db.rs:142-156 | Marks exactly the named events of this transfer. |
| `Outbox.OutboxStore.SyncTransferEvents` | crates/courier-registry/src/lib.rs:731-767 | Without a matching reply nothing is marked locally, whatever the Registry recorded; with one, exactly the batch sent is marked and recorded. |
| `OutboxClient.Record` | crates/courier-core/src/db.rs:103-115 | Recording an event with a new id is a step of the protocol. |
| `OutboxClient.Sync` | crates/courier-registry/src/lib.rs:731-767 | A sync call is a run of the protocol, whatever is lost on the way, and touches no other transfer's outbox. |
| `OutboxRuns.StepKeeps` | crates/courier-registry/src/lib.rs:731-767 | Every step of recording, sending, delivering again, losing and acknowledging keeps the invariant. |
| `OutboxRuns.ExactlyOnceInOrder` | crates/courier-registry/src/lib.rs:731-767 | In every run, for each transfer, the acknowledged events are a prefix of the recorded ones, which are a prefix without duplicates of the local sequence. |
| `OutboxRuns.NeverRefused` | apps/data-registry/data_registry/client_events.py:119-124 | No batch of Courier's own runs conflicts with what is recorded. |
| `SyncRotation.TransfersWithPendingEvents` | crates/courier-core/src/db.rs:158-170 | Returns the at most twenty lowest pending transfers behind the cursor. |
| `SyncRotation.SyncPendingTransferEvents` | apps/courier-desktop/src-tauri/src/lib.rs:3510-3527 | One round visits the batch behind the cursor, or the first batch when nothing is left behind a set cursor, and moves the cursor to the last one visited. |
| `SyncRotation.RotationIsFair` | apps/courier-desktop/src-tauri/src/lib.rs:3510-3562 | From any cursor, each of n pending transfers is visited within ceil(n / 20) + 1 rounds. |
| `SyncRotation.NoTransferStarves` | apps/courier-desktop/src-tauri/src/lib.rs:3510-3562 | However the other transfers come and go, one of n transfers that stays pending is visited within n rounds. |
| `RateLimiter.RateLimiter.Limited` | apps/data-registry/data_registry/middleware.py:30-46 | The method does to the ordered table and the histories what the specification of one call says, and refuses exactly when it says so. |
| `RateLimiter.RateLimiter.Create` | apps/data-registry/data_registry/middleware.py:24-28 | A bound below one is refused; otherwise the limiter starts empty. |
| `RateLimiter.TableBounded` | apps/data-registry/data_registry/middleware.py:30-40 | The tracked keys are distinct and never exceed the bound. |
| `RateLimiter.RememberedExactly` | apps/data-registry/data_registry/middleware.py:33-40 | A key is remembered exactly while fewer than the bound of distinct other keys were called since its last call. |
| `RateLimiter.RefusedSinceTracked` | apps/data-registry/data_registry/middleware.py:41-46 | In every life: a request of a tracked key is refused exactly when its admitted requests of the last sixty seconds, since it last entered the table, have reached the maximum. |
| `RateLimiter.RefusedExactly` | apps/data-registry/data_registry/middleware.py:41-46 | A request is refused exactly when its key's admitted requests of the last sixty seconds have reached the maximum, if no call of the key in those sixty seconds was forgotten. |
| `RateLimiter.AdmittedExactly` | apps/data-registry/data_registry/middleware.py:30-46 | A request is admitted exactly when its key is not tracked and its maximum is positive, or fewer than the maximum of the key were admitted in the last sixty seconds since it entered the table. |
| `RateLimiter.WindowExceededExactly` | apps/data-registry/data_registry/middleware.py:30-46 | Some sixty-second window of a key holds more than its maximum exactly when some request of it finds the maximum already admitted in the last sixty seconds while the table has lost the key, or has seen less than the maximum of it since it last entered. |
| `RateLimiter.CrowdedOutIsForgotten` | apps/data-registry/data_registry/middleware.py:34-38 | A key crowded out by others is admitted whatever its window holds, unless its maximum is zero. |
| `RateLimiter.WindowExceeded` | apps/data-registry/data_registry/middleware.py:34-46 | Counterexample: with one tracked client and one request a minute, a client is admitted twice within two seconds. |
| `Download.DownloadObjectResumable` | crates/courier-registry/src/lib.rs:365-494 | Every outcome, with a crash or pause at any point, is one of the listed attempts: already there, stopped early, promoted, interrupted while receiving, or complete. |
| `Download.AlwaysPrefixes` | crates/courier-registry/src/lib.rs:365-494 | Over any sequence of calls, servers and interruptions, the partial file and the destination are prefixes of the object. |
| `Download.SuccessHasExpectedSize` | crates/courier-registry/src/lib.rs:422-451 | A successful call with a known size delivers a file of that size when the reply to a resumed request was not a success other than 200 or 206, and otherwise a shorter file, unless its body alone has 2^64-1 bytes, where the saturating count hides the loss. |
| `Download.OddReplyDeliversShortFile` | crates/courier-registry/src/lib.rs:449-487 | Counterexample: such a reply, cut short, passes the size check and delivers the wrong file. |
| `Download.DeliveredStays` | crates/courier-registry/src/lib.rs:376-383 | Once delivered, the object stays at the destination through later calls. |
| `Download.NothingFetchedTwice` | crates/courier-registry/src/lib.rs:385-494 | When the server honours ranges, the bytes written by all calls together are the bytes stored, and the object's own when one has succeeded. |

## Left out

- HTTP, SQL, S3, the operating system, JSON, Zstandard and the hash functions: they are abstract state, lossless or arbitrary functions, and nondeterministic outcomes.
- Which call a store error came from: the source has one error for it; the model names a refused completion apart, as `CompletionRefused`.
- Part checksums, error texts, timestamps, progress events and attempt times: no other property depends on them.
- A part too large for the platform's address space, which the executor reports before reading it.
- Uploads that reach the store after later operations, and several uploaders of one object.
- Overlapping requests to initiate one object's upload: `VerificationRuns.InitiateKeeps` opens one at a time.
- Liveness: that an upload, a verification or a sync eventually succeeds. Retry does not reset the attempt count, so a transfer at its maximum is never claimed again.
- Parser differences between the languages, such as duplicate keys, a byte order mark or numbers that are not integers: all decoders share one abstract header parser.
- JavaScript arithmetic beyond 2^53 in the decoding bound: the plan's totals are taken as exact integers.
- A member that cannot be read while a pack is staged: how much of the temporary was written by then is left out.
- A delete that commits: it removes the transfer's rows, and the modelled run ends there.
- Reads of the Registry that see the rows at different moments: a worker reads a transfer's rows at once.
- A stored object that cannot be read to its end, for whatever reason, is an error of the store, even where the bytes before the break already do not match; its length alone, which the worker also asks for, is left out.
- Failures of the local disk while packs are staged: a full disk is not told apart from a full budget, and deleting a staged pack is taken to succeed.
- File times in the manifest and their restoration.
- Files written into the partial folder before a restore fails: the folder is deleted then.
- The Python restore in `retrieve.py`, which repeats the checks of `Restore.RestoreObject`.
- File names that are not valid Unicode, which both path printers replace lossily.
- Letters outside ASCII in the Registry's test for a drive letter: `Manifest.IsLetter` knows the ASCII ones.
- Failures to inspect or delete a file while a download starts, and a partial file that a power loss leaves with bytes that were never written.
- The local status table and its reconciliation with the Registry's status: single guarded assignments.
- Parts of a manifest that the validator only copies: project, platform, names and versions.
- Sessions, tokens, invitations, diagnostics, the admin console and its read models.
