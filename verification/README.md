# Kama: a verified model of the store, the protocols and the decision procedures

Kama is a Kubernetes operator that imports GGUF models into a content-addressed
cache, serves them with llama-server, and takes them away again without pulling
storage from under anybody. This project models the parts of it that are hard
to get right, in Dafny 4.11, and proves what they are for.

`dafny verify dfyconfig.toml` checks everything.

| module | what it models |
|---|---|
| `Publication`, `CacheStore` | `Publish`, `RecoverPublished` and `finalizePublication`: one atomic file-system action per step, any number of importers, a crash between any two steps. `CacheStore` is the same as a class that writes the files |
| `HubDownload` | resumable downloads: checkpoints, 200 restarts, 206 resumes, `Content-Range` |
| `RevisionPin` | the pin that holds a moving branch or tag still over the retries of one operation, and the order of its cleanup |
| `CopyPlan` | resumable PVC copies, and the free-space charge of a whole import |
| `TransientNames` | the names of transient operation files, their decoder, and cleanup by prefix |
| `GgufValue`, `GgufLayout`, `GgufFile`, `GgufPlacement` | the GGUF v3 parser: bounded values, tensor sizes and layout, the whole file, and what an accepted file looks like |
| `Paths`, `Shards` | relative paths, shard names, selections, manifests, sets of shards |
| `ClaimGuard`, `ClaimTrace` | deletion of a managed cache claim against storage resolution, and what a committed location, a deleted claim and a finished cache rest on |
| `ServingGate`, `ServingTrace` | the Pod scheduling gate against the artifact finalizer |
| `Lease` | the import lease |
| `Affinity`, `AffinityNormal` | node-affinity compatibility and its normal form |
| `Supervisor`, `SupervisorTrace`, `Drain` | the phases of the llama-server supervisor, what readiness and the inventory rest on, and how long a drain can take |
| `Ordering`, `Numerals`, `Basics` | sorting, compaction and the byte order of strings; `strconv` integers; shared types and constants |

## How the source appears here

Code that changes things step by step is a class or a method with its loops,
proved equal to a function of the old state; what the source promises is then
proved of that function, for every input. Protocols between processes are step
functions over the whole shared state; what is proved is an inductive invariant
and, from it, statements about every reachable state and every later run. Laws
about whole runs say what had been read, and when, before something was written;
laws about undisturbed operations say exactly when they do what they are for.

- The environment is a parameter: reads and writes that fall short, answers of
  servers, the moment of a crash, the moves of users are events. Where a list of
  events runs out inside an operation, the process has died there.
- The Hub is honest: a full response carries the file, a partial one the range
  its header names, whichever range that is, and an ETag names one content. A
  response whose ETag differs from the one asked for may carry anything.
- SHA-256 and canonical JSON are functions about which only injectivity is
  assumed (for JSON: that decoding inverts encoding).
- `sha256`, `ETag`, identities and times are compared, never looked into.
- Files are their contents, a tree is a map from paths to contents, a name with
  paths below it is a directory, and a write or rename is atomic, as
  `writeAtomic` and `RenameNoFollow` make it. A crash inside `writeAtomic` may
  leave its temporary file behind.
- A Kubernetes object carries an identity and a resource version drawn from one
  clock. A live read, a list, and a versioned write are one step each;
  controllers otherwise work on copies of any age.
- Methods that would make the solver open too many definitions at once take
  ghost function parameters (`Grammar`, `Turn`, `Rules`, `step`) that stand for a
  named function; the requirement that they are that function is part of the
  contract.

## What came out differently than promised

- **Two importers of the same artifact.** `Publish` and `RecoverPublished` look at
  the blob twice: is its content valid, and if not, does the directory exist. A
  rival's rename between the two makes them report a publication conflict
  although the blob is exactly what they were about to publish
  (`RivalMakesItFail`). After one restart that never happens to the operation
  again (`FailsOnce`).
- **Files below reserved names.** `READY` and `manifest.json` are reserved, but
  `READY/model.gguf` and `manifest.json/model.gguf` pass every check
  (`ReservedNameAccepted`), and so does `a.gguf.resume.json/b.gguf` beside `a.gguf`.
  Such an artifact gets an intent and then fails, on every retry, where a file is
  to be written or unlinked and a directory stands (`BlockedNeverPublished`,
  `BlockedNeverDone`). The same happens when the checkpoint name of a listed file
  is longer than the file system allows. Publication and recovery succeed
  otherwise: `CompletesAlone` and `RecoveryReturnsIntent` say exactly when.
- **Large manifests.** Manifests and intents over 256 KiB are written but refused
  when read back. Such an artifact is published once and can not be recovered
  (`LargeNotRecovered`). `Fails` lists these and all other reasons for a
  step to fail, and there are no more (`StepKeeps`).
- **Empty remote files.** A Hub file of size zero that is not staged yet downloads
  successfully and is not created (`EmptyFileMissing`); success leaves the remote
  file staged exactly when it is not empty or was staged before (`DownloadKeeps`).
- **128 shards.** A shard set of the largest size a manifest may list is never
  expanded from a PVC, because the limit is applied before duplicates are dropped
  (`LargestSetNotExpanded`); from an entrypoint alone it works up to 127
  (`WholeSetExpanded`).
- **Node affinity.** The compatibility check is wrong on one key in three
  situations and in no others (`KeyExact`): the key must be absent and `NotIn` is
  also there; two bounds leave one integer and `NotIn` excludes its canonical
  numeral but not, say, a zero-padded one; a lone bound lies at the end of the
  64-bit range. `TermsExact` and `CompatibleExact` carry this to terms and whole
  affinities, again exactly.
- **A drain before the child.** A drain requested before the child is started is
  overwritten by `startChild`, and the supervisor can become ready
  (`EarlyDrainLost`); this is the only way a terminal phase is left
  (`TerminalStep`). If the child is launched only after the probes of the drain
  are over, the drain has returned, no other will start, and nothing signals the
  child (`LateChildRuns`); the bound on drains holds for every other child and
  for no such child that stays (`DrainBound`).
- **An interrupted cleanup.** Cleanup removes staging before the intent. Stopped
  in between, it leaves an intent without files, and imports of the operation end
  in a publication conflict until a cleanup gets through or another operation
  publishes the artifact (`CleanupStrands`).
  Nothing but a cleanup does this (`NeverStranded`).
- **A guard to clear.** `clearRetainedManagedClaimDeletionGuard` removes the guard
  of a retained cache from its claim. A guard is only ever put there for a cache
  that terminates under the Delete policy, and admission keeps the policy of a
  terminating cache as it is, so there is never one to remove (`NothingToClear`).

## Model

| member | source | states |
|---|---|---|
| `Publication.StepKeeps` | internal/artifact/storage_linux.go:684-956 | a step of an importer keeps the files of its operation and every blob in order, changes nothing in a blob, never rewrites an intent or a marker, and fails exactly when a document is too large to read, a directory or an overlong name is in the way, an intent has neither its blob nor its files, or the blob is there although it was not found valid |
| `Publication.InterruptedOk` | internal/artifact/storage_linux.go:1038-1074 | a temporary file left behind by a crash inside an atomic write touches no listed file, manifest or READY |
| `Publication.NextKeeps` | internal/artifact/storage_linux.go:783-956 | a step of one importer keeps the invariant of all of them |
| `Publication.RunKeeps` | internal/artifact/storage_linux.go:783-956 | over every interleaving, every crash and every cleanup, stopped anywhere: the invariant holds, blobs only grow, and intents and markers stay as they were written until their operation is cleaned up |
| `Publication.ReadyMeansValid` | internal/artifact/storage_linux.go:759-779 | in every reachable state, cleanups included, READY under a digest means that the manifest there is canonical and has that digest and every listed file has its size and hash, and that stays so whatever anybody does later; `ValidatePublished` accepts it exactly when the manifest is not too large to read |
| `Publication.NoCheckpointInBlob` | internal/artifact/storage_linux.go:814-821 | in every reachable state no blob holds the `.resume.json` checkpoint of a file its manifest lists |
| `Publication.MarkerMeansReady` | internal/artifact/storage_linux.go:935-956 | in every reachable state a marker implies a valid blob with READY |
| `Publication.BlobManifest` | internal/artifact/manifest.go:175-182 | the manifest in a blob is determined by the blob's name |
| `Publication.RecoverOk` | internal/artifact/storage_linux.go:684-740 | the reads of a recovery fail exactly on a document too large to read, find nothing exactly without intent and marker, and otherwise go on from the marker, the blob or staging |
| `Publication.NothingToRecover` | internal/artifact/storage_linux.go:707-711 | recovery reports not found exactly when there is neither intent nor marker |
| `Publication.ReportsAgree` | internal/artifact/storage_linux.go:684-755 | every report of an operation, at any later time and after any crashes, is the manifest, digests and revision of its intent, until the operation is cleaned up |
| `Publication.CompletesAlone` | internal/artifact/storage_linux.go:783-884 | left alone, a publication or recovery ends after a bounded number of steps: with the report of its job exactly when no listed file is in the way of what is still to be written or unlinked and what is still to be read can be read, otherwise with a failure |
| `Publication.EndsExactly` | internal/artifact/storage_linux.go:684-956 | where a publication or recovery with nothing in its way ends, from every point on the way, as one expression over what is on disk: the intent and the marker of the job, the report, and one blob more or READY in the one that was there |
| `Publication.PublishesExactly` | internal/artifact/storage_linux.go:783-884 | in every reachable state, of a publication left alone: the staged files become the blob, without their checkpoints and with the manifest and READY; nothing else in the cache changes |
| `Publication.RecoveryDecides` | internal/artifact/storage_linux.go:684-755 | in every reachable state, after any cleanups, recovery returns exactly what the intent says or fails, and which of the two is decided by the manifest and what is on disk |
| `Publication.RecoveryReturnsIntent` | internal/artifact/storage_linux.go:684-755 | after a crash anywhere behind the intent, without a cleanup of the operation, recovery returns exactly what the intent says if and only if no listed file is in the way and the documents can be read back |
| `Publication.FailsOnce` | internal/artifact/storage_linux.go:836-847 | an operation that failed although its blob is there, and that nothing else is in the way of, never fails again after a restart, in any interleaving, until it is cleaned up |
| `Publication.RivalMakesItFail` | internal/artifact/storage_linux.go:836-847 | a reachable state in which an operation has failed although the blob is its own |
| `Publication.ReservedNameAccepted` | internal/artifact/manifest.go:143-145 | a file below READY or below manifest.json passes manifest validation and the extension check |
| `Publication.BlockedNeverPublished` | internal/artifact/storage_linux.go:814-826 | publishing an artifact that one of its own files is in the way of always fails |
| `Publication.BlockedNeverDone` | internal/artifact/storage_linux.go:935-956 | in no reachable state has an operation on such an artifact a marker or a report |
| `Publication.LargeNotRecovered` | internal/artifact/manifest.go:272-284 | a manifest too large to read back is published once, and recovery of its operation then fails |
| `Publication.LeavesNoStaging` | internal/artifact/storage_linux.go:783-884 | from any disk, a publication that ends leaves no staging directory |
| `Publication.TrustsNothing` | internal/artifact/storage_linux.go:684-865 | from any disk, however damaged: a recovery reports only a complete blob with the digests of its manifest and a revision in form, resumes only an intent that agrees with itself and staged content that matches it, a manifest is written only beside all its files, and READY goes only into a blob just renamed or with the job's content and manifest |
| `Publication.ArtifactDigestExact` | internal/artifact/manifest.go:184-195 | an artifact digest identifies the content of a single file, and otherwise the manifest |
| `CacheStore.CacheRoot.ValidateManifestContent` | internal/artifact/storage_linux.go:910-933 | the loop over the files accepts exactly valid content |
| `CacheStore.CacheRoot.ValidatePublishedContent` | internal/artifact/storage_linux.go:887-908 | accepts exactly the blob of the digest, and returns its manifest |
| `CacheStore.CacheRoot.ValidateReady` | internal/artifact/storage_linux.go:759-779 | accepts exactly a blob with the READY text of its digest |
| `CacheStore.CacheRoot.Commit` | internal/artifact/storage_linux.go:801-829 | intent, checkpoints and manifest: dying after any number of actions leaves the cache where so many steps lead, and other operations alone; completed, the staged files have their manifest and no checkpoint |
| `CacheStore.CacheRoot.DropResumes` | internal/artifact/storage_linux.go:814-821 | the loop over the files: after k turns the checkpoints of the first k are gone |
| `CacheStore.CacheRoot.Place` | internal/artifact/storage_linux.go:830-874 | finding or making the blob, likewise |
| `CacheStore.CacheRoot.Finalize` | internal/artifact/storage_linux.go:935-956 | READY, marker and, after a hit, the removal of staging, likewise |
| `CacheStore.CacheRoot.Publish` | internal/artifact/storage_linux.go:783-884 | the whole call, dying after any number of actions, is so many steps of the protocol |
| `CacheStore.CacheRoot.RecoverPublished` | internal/artifact/storage_linux.go:684-755 | the whole recovery, likewise |
| `HubDownload.ContentRangeExact` | internal/artifact/hub.go:797-826 | a header is accepted with an end exactly when it names a range from the offset to that end, of the true or an open size |
| `HubDownload.ContentRangeReads` | internal/artifact/hub.go:797-826 | a `Content-Range` written as section 14.4 of RFC 9110 says, starting at the offset, with the true or an open size, is accepted with its end |
| `HubDownload.ResumeIsPrefix` | internal/artifact/hub.go:645-694 | an accepted checkpoint covers a true prefix of the remote file and the staged file is cut back to exactly it |
| `HubDownload.CheckpointResumes` | internal/artifact/hub.go:607-694 | the checkpoint a transfer has just written is resumed from, at exactly its length, and the file is left alone |
| `HubDownload.StoreAtExact` | internal/artifact/hub.go:473-505 | a response is stored exactly when it admits to no other version and is a 200 of the right or an open length, then from the start, or a 206 whose header names a range from the offset, then from there |
| `HubDownload.LoopKeeps` | internal/artifact/hub.go:522-604 | over every course of the transfer loop the staged file and the hasher hold a prefix of the remote file, checkpoints are true, and success means the whole file |
| `HubDownload.DownloadKeeps` | internal/artifact/hub.go:425-605 | one attempt, however it ends: true checkpoints, a staged prefix, and on success the remote file exactly if it is not empty or was staged before |
| `HubDownload.DownloadsKeep` | internal/artifact/hub.go:425-605 | over any sequence of interrupted attempts against changing versions, from any staged bytes: the next accepted checkpoint covers a true prefix and the next success leaves the remote file |
| `HubDownload.DownloadLosesLittle` | internal/artifact/hub.go:425-694 | one attempt on a file with an ETag, whatever the server sends, however it ends and whichever writes fail: of what is staged the next attempt fetches again less than one checkpoint interval and one buffer; less than an interval after a crash; nothing after an error if the checkpoints could be written, and nothing after a success |
| `HubDownload.DoneStaysDone` | internal/artifact/hub.go:441-453 | after a success the next attempt on the same version asks nobody and leaves the file alone |
| `HubDownload.DownloadSucceeds` | internal/artifact/hub.go:425-605 | a server that has the file gets it across: all of it with a 200 from any state of the disk, or the rest with a 206 |
| `HubDownload.RefusedLeaves` | internal/artifact/hub.go:441-496 | an attempt without an acceptable response cuts the file back to its checkpoint, records a start from nothing, and changes nothing else |
| `HubDownload.SuccessExactSize` | internal/artifact/hub.go:527-604 | a transfer succeeds only with a body of exactly the announced size |
| `HubDownload.OverlongRefused` | internal/artifact/hub.go:527-538 | a body that goes on behind the announced size is refused as soon as that is seen |
| `HubDownload.EmptyFileMissing` | internal/artifact/hub.go:441-454 | an empty remote file that is not staged succeeds and is not created |
| `HubDownload.DownloadCompletes` | internal/artifact/hub.go:425-605 | an accepted response with the rest of the file, stored without a fault, makes the download succeed |
| `HubDownload.StagedFile.ValidateResumeCheckpoint` | internal/artifact/hub.go:645-694 | the accepted length and the cut file; a checkpoint that covers the whole staged file is accepted and the file left alone |
| `HubDownload.StagedFile.Receive` | internal/artifact/hub.go:551-590 | one turn of the loop with bytes missing: what is stored, hashed and checkpointed, and how the turn ends |
| `HubDownload.StagedFile.Store` | internal/artifact/hub.go:497-604 | the transfer loop and the final size check |
| `HubDownload.StagedFile.Fetch` | internal/artifact/hub.go:425-605 | the whole call, for every response and every schedule |
| `RevisionPin.StepKeeps` | internal/artifact/importer.go:181-284 | every event keeps: bytes, intent and marker exist only with a pin and are of its commit; only the last step of a cleanup drops a pin |
| `RevisionPin.NeverStranded` | internal/artifact/storage_linux.go:725-749 | as long as no cleanup begins, over all retries, crashes and rivals, a committed intent has its blob or all of its staged files |
| `RevisionPin.IntentRecovered` | internal/artifact/storage_linux.go:725-755 | so without a cleanup, without a rival in between and with nothing in the way, an import on an intent reports its commit |
| `RevisionPin.ImportReports` | internal/artifact/importer.go:181-284 | and without an intent, a Hub that answers with a commit the source stands for, the pinned one if there is a pin, gets it imported |
| `RevisionPin.IntentWasValidated` | internal/artifact/importer.go:256-284 | in every run an intent, and what is published on it, names files one download from its commit had staged completely and that were found a valid artifact of its digest |
| `RevisionPin.CleanupStrands` | internal/artifact/storage_linux.go:745-749 | a reachable state in which a cleanup stopped between staging and intents, and an import on it ends in a conflict |
| `RevisionPin.StagedFromPin` | internal/artifact/importer.go:199-262 | after every run staged bytes exist only with a pin and come from its commit, and what is reported is that commit |
| `RevisionPin.FullCommitPinned` | internal/artifact/hub.go:298-303 | after every run an import of a commit named in full is pinned to that commit, whatever the Hub answers |
| `RevisionPin.ReportsAgree` | internal/artifact/importer.go:181-284 | until a cleanup ends, all reports of an operation name one commit, however the tag moves |
| `RevisionPin.PinnedRetry` | internal/artifact/hub.go:298-303 | a pinned retry fetches from nothing but the pinned commit |
| `RevisionPin.ImportKeeps` | internal/artifact/importer.go:181-284 | an import, wherever it stops, keeps provenance and an existing pin, and reports the pinned commit |
| `RevisionPin.PinFirstWouldMix` | internal/artifact/storage_linux.go:138-144 | staged bytes that outlived their pin would be continued from another commit: why the pin is removed last |
| `RevisionPin.HubOperation.Execute` | internal/artifact/importer.go:181-284 | one import, dying after any number of writes, leaves what a run of the machine leaves; if it lives, its outcome is exactly what the marker, the intent, the blob of that content, the staged files, the pin, the answer of the Hub, rival publications and what is in the way decide; provenance and pin are kept |
| `RevisionPin.HubOperation.Cleanup` | internal/artifact/storage_linux.go:138-181 | what is left after any number of removals, exactly: staging first, then intent, then marker, the pin last; provenance is kept throughout |
| `CopyPlan.PrefixesEqual` | internal/artifact/storage_linux.go:313-338 | the chunked comparison says exactly whether the prefixes are equal |
| `CopyPlan.PrepareKeeps` | internal/artifact/storage_linux.go:226-311 | the credit is the whole staged prefix or nothing |
| `CopyPlan.LoopKeeps` | internal/artifact/storage_linux.go:386-437 | unless the source was rewritten, the staged bytes stay a prefix of it; the loop ends by itself only when all are there |
| `CopyPlan.CopiedKeeps` | internal/artifact/storage_linux.go:350-453 | success means an unchanged source, staged completely, with exactly the uncredited bytes written; a rewritten source never succeeds |
| `CopyPlan.ChangedDiscarded` | internal/artifact/storage_linux.go:441-451 | a complete copy of a source that was rewritten since the plan is thrown away |
| `CopyPlan.CancelledStops` | internal/artifact/storage_linux.go:391-398 | nothing happens behind a cancellation |
| `CopyPlan.RetriesKeep` | internal/artifact/storage_linux.go:226-453 | over any number of retries on an unchanged source, from any staged bytes, a prefix that never gets shorter |
| `CopyPlan.CopyCompletes` | internal/artifact/storage_linux.go:226-453 | a copy that nothing disturbs succeeds, from whatever was staged |
| `CopyPlan.RegularCopyPlan.constructor` | internal/artifact/storage_linux.go:226-311 | the plan and the reset of staging that is no prefix |
| `CopyPlan.RegularCopyPlan.ValidateForTransfer` | internal/artifact/storage_linux.go:350-377 | accepts exactly an unchanged source and an unchanged staged prefix |
| `CopyPlan.RegularCopyPlan.TakeTurn` | internal/artifact/storage_linux.go:391-437 | one turn of the copy loop, for every event |
| `CopyPlan.RegularCopyPlan.CopyAll` | internal/artifact/storage_linux.go:379-453 | the whole transfer, including the reset after a rewritten source |
| `CopyPlan.PrepareAll` | internal/artifact/importer.go:305-333 | plans for all files and the exact sum they charge, or a refusal exactly when it exceeds 64 bits |
| `CopyPlan.ExecuteCopy` | internal/artifact/importer.go:305-346 | succeeds exactly when there is space, every copy succeeds and the sum fits; then every file is complete and the bytes written are the bytes charged |
| `TransientNames.DecodeFinal` | internal/artifact/storage_linux.go:184-187 | a final name is decoded to its operation |
| `TransientNames.DecodeTemporary` | internal/artifact/storage_linux.go:188-206 | a temporary name is decoded to its operation |
| `TransientNames.DecodeExact` | internal/artifact/storage_linux.go:184-206 | the decoder recognises exactly the final and temporary names of valid operations |
| `TransientNames.OneOperation` | internal/artifact/storage_linux.go:184-206 | no name belongs to two operations |
| `TransientNames.OwnedExact` | internal/artifact/storage_linux.go:155-170 | what cleanup removes, said without the decoder |
| `TransientNames.PrefixesApart` | internal/artifact/storage_linux.go:117-123 | prefixes of one length own disjoint state |
| `TransientNames.CacheDirectory.RemoveArea` | internal/artifact/storage_linux.go:145-180 | within one area only owned entries go: all of them exactly when the removals that succeed are enough, otherwise exactly so many |
| `TransientNames.CacheDirectory.RemoveOperationState` | internal/artifact/storage_linux.go:128-182 | rejected exactly for an invalid prefix, complete exactly when the removals that succeed cover all entries of the prefix, otherwise exactly so many are gone, area after area in order; nothing else and no blob is touched |
| `GgufValue.LittleEndianReads` | internal/artifact/gguf.go:515-577 | little-endian integers are read back |
| `GgufValue.ValueRoundTrip` | internal/artifact/gguf.go:502-599 | reading the encoding of a value within the limits gives the value and leaves exactly the suffix |
| `GgufValue.ValueExact` | internal/artifact/gguf.go:502-599 | the reader accepts nothing but encodings of values within the limits |
| `GgufValue.CallsBounded` | internal/artifact/gguf.go:502-599 | a successful read makes at most one call per byte it consumes, a failing one at most one more than there are bytes |
| `GgufValue.EntryRoundTrip` | internal/artifact/gguf.go:287-300 | key, type and value of a metadata entry are read back |
| `GgufValue.EntryExact` | internal/artifact/gguf.go:287-300 | a metadata entry that is read was written so |
| `GgufLayout.TensorSize` | internal/artifact/gguf.go:410-441 | the exact byte size over the integers; overflow exactly when it exceeds 64 bits |
| `GgufLayout.AddUint64` | internal/artifact/gguf.go:479-484 | the sum, or overflow exactly when it does not fit |
| `GgufLayout.AlignUint64` | internal/artifact/gguf.go:471-477 | the aligned value, or overflow exactly when it does not fit |
| `GgufLayout.AlignedUpLeast` | internal/artifact/gguf.go:471-477 | it is the least multiple that covers the value |
| `GgufLayout.CheckLayout` | internal/artifact/gguf.go:373-406 | the sort and sweep accepts exactly pairwise disjoint ranges that end within the file behind the aligned header |
| `GgufFile.Reader.ReadString` | internal/artifact/gguf.go:486-500 | what is read and what is left |
| `GgufFile.Reader.ReadValue` | internal/artifact/gguf.go:502-599 | the recursive reader, on the mutable reader state |
| `GgufFile.RecordedFields` | internal/artifact/gguf.go:301-322 | of a repeated key the last usable entry counts, an unusable one changes nothing |
| `GgufFile.HeaderRoundTrip` | internal/artifact/gguf.go:255-372 | a header within the limits is read back and exactly the data is left |
| `GgufFile.HeaderExact` | internal/artifact/gguf.go:255-372 | a header that is read was written so: the format has one encoding |
| `GgufFile.ReadMetadata` | internal/artifact/gguf.go:287-322 | the metadata loop, for any switch over the keys |
| `GgufFile.TensorsAccept` | internal/artifact/gguf.go:326-372 | the tensor loop accepts exactly descriptions that are acceptable and have distinct names |
| `GgufFile.ReadTensor` | internal/artifact/gguf.go:328-371 | one turn of the tensor loop, each field checked before the next is read |
| `GgufFile.ParseGguf` | internal/artifact/gguf.go:255-408 | for every byte string: success exactly when it starts with the header of a well-formed file, and then what that header records |
| `GgufPlacement.AcceptedPlaces` | internal/artifact/gguf.go:323-406 | of an accepted file: data begins at the first multiple of the alignment behind the header, every tensor is well described, aligned, behind the header and inside the file, as large as its elements demand; names differ and no byte belongs to two tensors |
| `GgufPlacement.SizeExact` | internal/artifact/gguf.go:410-441 | the size of a tensor is the bytes of one block for every block of its elements |
| `GgufPlacement.LastNumberExact` | internal/artifact/gguf.go:301-322 | the number of a key is the last 32-bit number an entry gives it, signed or not; other entries are passed over |
| `Paths.ShardRoundTrip` | internal/artifact/gguf.go:44 | a shard name is read back as the shard it was written for |
| `Paths.ShardExact` | internal/artifact/gguf.go:44 | what is read as a shard name was written for that shard |
| `Paths.ShardPathsSorted` | internal/artifact/gguf.go:184-195 | the names of a set sort in index order and are distinct |
| `Paths.ShardPathValid` | internal/artifact/path_linux.go:33-55 | every member of a set is a valid path if one of them is |
| `Paths.ValidExact` | internal/artifact/path_linux.go:33-55 | a path is accepted exactly when it has no NUL and no backslash and a walk along it from any root stays inside and goes down with every component; two accepted paths never lead to one place |
| `Shards.SortedMembers` | internal/artifact/manifest.go:154-162 | whatever the map order: strictly sorted, with exactly the members |
| `Shards.NormalizeSelectedFiles` | internal/artifact/manifest.go:128-163 | when a selection is accepted, exactly, and that the result is strictly sorted with exactly its names |
| `Shards.ListShards` | internal/artifact/gguf.go:662-687 | the names of the whole set, in order |
| `Shards.ExpandStandardShards` | internal/artifact/gguf.go:222-252 | when an expansion succeeds, exactly; the result is strictly sorted and has the selection and the whole set |
| `Shards.LargestSetNotExpanded` | internal/artifact/manifest.go:135-137 | a set of 128 shards is never expanded |
| `Shards.WholeSetExpanded` | internal/artifact/gguf.go:232-251 | from an entrypoint alone a set is expanded exactly up to 127 shards |
| `Shards.ValidateManifest` | internal/artifact/manifest.go:198-233 | comparing neighbours accepts exactly strictly sorted manifests of the one schema and format with valid paths, sizes, hashes and entrypoint |
| `Shards.TakeExpected` | internal/artifact/gguf.go:199-214 | the loop gets through exactly when the k-th file is the k-th shard by name and metadata, and then nothing is left over |
| `Shards.SortedInside` | internal/artifact/gguf.go:196-214 | a strictly sorted list inside another of the same length is that list |
| `Shards.CheckShards` | internal/artifact/gguf.go:170-217 | the shard part accepts exactly complete sets in order, or a single unsharded file |
| `Shards.MergeMetadata` | internal/artifact/gguf.go:145-168 | one architecture, one file type and the exact tensor total; the overflow guard never fires |
| `Shards.ValidateGgufSet` | internal/artifact/gguf.go:110-218 | the whole validation: when a set is accepted, exactly, and the metadata reported |
| `ClaimGuard.ChangeClaimKeeps` | internal/controller/modelcache_controller.go:1051-1080 | whatever others do to claims keeps what the deletions in progress have made sure of |
| `ClaimGuard.ChangeCacheKeeps` | internal/controller/modelcache_controller.go:1150-1173 | so do changes to caches, whose storage never changes |
| `ClaimGuard.ChangeArtifactKeeps` | internal/controller/modelcache_controller.go:1174-1190 | so do changes to artifacts, whatever they are |
| `ClaimGuard.StepArtifactKeeps` | internal/controller/modelartifact_controller.go:596-710 | so does every step of storage resolution and the commit of a location |
| `ClaimGuard.GuardedNotUsable` | internal/controller/modelartifact_controller.go:634-636 | a guarded claim is not usable, so no new commit can come to threaten it |
| `ClaimGuard.ScanCachesExcludes` | internal/controller/modelcache_controller.go:1150-1168 | after the scan of caches every pending commit on the claim is visible to the scan of artifacts |
| `ClaimGuard.ScanArtifactsExcludes` | internal/controller/modelcache_controller.go:1169-1190 | after the scan of artifacts there is no committed and no pending location on the claim |
| `ClaimGuard.StepCacheKeeps` | internal/controller/modelcache_controller.go:956-1023 | every step of a deletion keeps the invariant, the preconditioned delete included |
| `ClaimGuard.ClearGuardKeeps` | internal/controller/modelcache_controller.go:1119-1148 | clearing the guard of a retained claim keeps it too |
| `ClaimGuard.DeletedClaimUnused` | internal/controller/modelcache_controller.go:956-1023 | in every interleaving a claim whose guarded delete went through is in no artifact's location, no reconcile in progress can put it there, and both stay so |
| `ClaimGuard.GuardsWhatItRead` | internal/controller/modelcache_controller.go:1051-1084 | in every interleaving the guard goes only on the claim that was read, not terminating and not guarded |
| `ClaimGuard.DeletesWhatItConfirmed` | internal/controller/modelcache_controller.go:1003-1015 | in every interleaving the delete hits only the claim that was confirmed, guarded for this cache and not terminating |
| `ClaimGuard.LocationWrittenOnce` | internal/controller/modelartifact_controller.go:137-148 | in every interleaving the claim of a committed location, by name and identity, is never replaced |
| `ClaimGuard.DeletionHappens` | internal/controller/modelcache_controller.go:956-1023 | a run in which the delete goes through |
| `ClaimTrace.LocationWasResolved` | internal/controller/modelartifact_controller.go:596-710 | in every run the location of an artifact was committed by one reconcile, into the artifact it had read: for a Direct import it is the source claim, open when it was read; for every other import the claim of the cache, which was ready when read, open when read after that, with an open source or validated before |
| `ClaimTrace.CommitsExactly` | internal/controller/modelartifact_controller.go:596-710 | undisturbed, on a current copy, a location that is there stays, and where there is none the one storage resolves to is committed, exactly when there is one |
| `ClaimTrace.CommitHappens` | internal/controller/modelartifact_controller.go:656-703 | for either policy a run that commits: a Copy import in the cache, a Direct import at its source |
| `ClaimTrace.DeletesExactly` | internal/controller/modelcache_controller.go:956-1023 | undisturbed, two reconciles delete the claim exactly when the cache was deleted under the Delete policy, the claim is not terminating and guarded for nobody else, no other cache adopts it and no artifact names the cache or the claim; and they delete no other claim |
| `ClaimTrace.EndsExactly` | internal/controller/modelcache_controller.go:956-1046 | undisturbed, the cache itself goes exactly when it is terminating, no artifact names it and, under the Delete policy, its claim is gone |
| `ClaimTrace.EndedCacheWasFree` | internal/controller/modelcache_controller.go:956-1046 | in every run a cache that loses its finalizer was at one moment named by no artifact and after that, under the Delete policy, at one moment without its claim |
| `ClaimTrace.NothingToClear` | internal/controller/modelcache_controller.go:1119-1148 | in every run a guard belongs to a cache deleted under the Delete policy, so the cleanup of a guard of a retained cache never finds one |
| `ServingGate.AllowedIsSafe` | internal/controller/modeldeployment_controller.go:608-660 | a live artifact that allows scheduling is neither finalized nor past the scan for Pods |
| `ServingGate.RemoveGateKeeps` | internal/controller/modeldeployment_controller.go:363-377 | the versioned removal of a gate keeps the invariant |
| `ServingGate.ScanPodsExcludes` | internal/controller/modelartifact_controller.go:1374-1393 | after the scan for Pods no Pod of the artifact is ungated and none has a pending gate removal |
| `ServingGate.RemoveFinalizerKeeps` | internal/controller/modelartifact_controller.go:1849-1858 | the versioned removal of the finalizer keeps the invariant |
| `ServingGate.FinalizedNotServed` | internal/controller/modelartifact_controller.go:1286-1393 | in every interleaving, once the finalizer is gone no ungated Pod of the artifact mounts its location, and none ever will |
| `ServingTrace.UngatedWasLetGo` | internal/controller/modeldeployment_controller.go:326-378 | in every run a Pod without a gate was let go by one reconcile, which found its deployment live, of the identity and generation expected, after that its artifact ready, not terminating and where the Pod wants it, and after that removed this gate |
| `ServingTrace.FinalizedWasReleased` | internal/controller/modelartifact_controller.go:1286-1393 | in every run an artifact without a finalizer was, once its deletion had begun, at one moment named by no deployment, terminating or not, and after that at one moment mounted by no Pod, gated or not |
| `ServingTrace.FinalizesExactly` | internal/controller/modelartifact_controller.go:1286-1393 | undisturbed, on a current copy, the finalizer goes exactly when the artifact is terminating, no deployment names it and no Pod mounts it, whatever else there is |
| `ServingTrace.UngatesExactly` | internal/controller/modeldeployment_controller.go:326-378 | undisturbed, on a current copy of a Pod, a gate goes exactly when the deployment is the one expected, not terminating and as the Pod wants it, and the artifact ready, not terminating and where the Pod wants it |
| `ServingGate.GateOpens` | internal/controller/modeldeployment_controller.go:326-378 | a run in which a Pod loses its gate |
| `ServingGate.FinalizerGoes` | internal/controller/modelartifact_controller.go:1286-1347 | a run in which an artifact is finalized |
| `Lease.NextKeeps` | internal/controller/modelartifact_controller.go:1160-1239 | every step of every artifact, and the passing of time, keeps the invariant |
| `Lease.DisplacedOnlyByRelease` | internal/controller/modelartifact_controller.go:1191-1239 | an unexpired holder loses the lease only by its own release |
| `Lease.DeletesOnlyItsOwn` | internal/controller/modelartifact_controller.go:1223-1277 | nobody deletes a lease another artifact holds |
| `Lease.OneHolder` | internal/controller/modelartifact_controller.go:1160-1221 | no two artifacts have an acquisition that has not run out, and the one that has it is the holder |
| `Lease.AttemptDecides` | internal/controller/modelartifact_controller.go:1160-1221 | an undisturbed attempt creates the lease if there is none, takes or renews it exactly when it is nobody's, its own or run out, and otherwise leaves it alone; what is written, exactly |
| `Lease.ReleaseDecides` | internal/controller/modelartifact_controller.go:1223-1277 | an undisturbed release removes the lease exactly when the artifact holds it |
| `Lease.AcquiredKept` | internal/controller/modelartifact_controller.go:1199-1202 | a lease that has not expired keeps the time it was acquired |
| `Affinity.SummaryUnique` | internal/controller/common.go:439-499 | the constraint of a key is determined by the set of its requirements, so their order and repetition do not matter |
| `Affinity.SelectorConstraint.Apply` | internal/controller/common.go:439-499 | folding one requirement into a constraint succeeds exactly when the requirements stay consistent, and then summarises them |
| `Affinity.KeyExact` | internal/controller/common.go:501-537 | for the requirements on one key the answer is the existence of a value if and only if they are not one of three traps |
| `Affinity.TermsCompatible` | internal/controller/common.go:395-437 | the loop over the requirements answers exactly whether every key is feasible |
| `Affinity.VolumeNodeAffinitiesCompatible` | internal/controller/common.go:341-374 | the loops over the terms answer exactly whether some pair is |
| `Affinity.CompatibleSymmetric` | internal/controller/common.go:341-374 | the answer is symmetric, for all operators |
| `Affinity.TermsOrder` | internal/controller/common.go:395-437 | the answer depends on the set of requirements only |
| `Affinity.TrapDirection` | internal/controller/common.go:469-536 | two of the traps make the check refuse a key that has a value, the third makes it accept one that has none |
| `Affinity.TermsExact` | internal/controller/common.go:395-437 | for two terms the answer is wrong exactly when an accepted pair has a key at the end of the range, or a refused pair fails for refusing traps alone |
| `Affinity.CompatibleExact` | internal/controller/common.go:341-437 | for all operators and bounds the answer equals the existence of a node that satisfies a non-empty term of each constrained side, exactly when no compared pair is misjudged, or one is accepted rightly, or pairs are misjudged in both directions |
| `Affinity.TrapFreeExact` | internal/controller/common.go:341-437 | when no key of any compared pair is a trap, whatever the operators, the answer is true exactly when such a node exists |
| `Affinity.PlainCompatibleExact` | internal/controller/common.go:341-437 | in particular without `NotIn` and without bounds at the ends of the range |
| `Affinity.EmptyTermIgnored` | internal/controller/common.go:341-374 | a term without requirements admits no node and changes no answer; an affinity without other terms is compatible with nothing |
| `Affinity.CheckMisled` | internal/controller/common.go:469-475 | two affinities one node satisfies, and the answer is no |
| `Affinity.AbsentTrapOccurs` | internal/controller/common.go:469-475 | a node without the key would do, the answer is no |
| `Affinity.ExtremeTrapOccurs` | internal/controller/common.go:527-536 | no value exists, the answer is yes |
| `Affinity.WindowTrapOccurs` | internal/controller/common.go:527-536 | a zero-padded label would do, the answer is no |
| `AffinityNormal.NormalizeRequirements` | internal/controller/common.go:307-335 | the in-place sort and compaction, against the normal form |
| `AffinityNormal.NormalizeVolumeNodeAffinity` | internal/controller/common.go:274-305 | the whole normalisation, against the normal form |
| `AffinityNormal.NormalizeCanonical` | internal/controller/common.go:274-335 | two affinities have one form exactly when they differ by order and repetition only |
| `AffinityNormal.NormalizeIdempotent` | internal/controller/common.go:274-335 | normalising again changes nothing |
| `AffinityNormal.NormalizePreservesNodes` | internal/controller/common.go:274-335 | the form admits exactly the nodes of the affinity |
| `Ordering.CompactInPlace` | internal/controller/common.go:316-333 | the compaction inside the backing array keeps one element of every run |
| `Ordering.CanonicalUnique` | internal/controller/common.go:307-335 | sorted and compacted slices are equal exactly when they have the same elements |
| `Supervisor.StepKeeps` | internal/runtime/supervisor.go:353-514 | what every locked section keeps; the inventory only grows |
| `Supervisor.PhasesHonest` | internal/runtime/supervisor.go:385-514 | in every interleaving Ready holds exactly in phase Ready, Exited means once ready, LoadFailed never ready; a child that is gone is not ready and, without a drain, reported as Exited or LoadFailed by whether it was ever ready; and the count covers the devices seen |
| `Supervisor.BecameReadyMeans` | internal/runtime/supervisor.go:502-511 | the flag says exactly whether a probe ever committed |
| `Supervisor.TerminalStep` | internal/runtime/supervisor.go:353-354 | a terminal phase is left exactly by a starter that had not yet set Loading |
| `Supervisor.TerminalStays` | internal/runtime/supervisor.go:442-514 | after that Draining, LoadFailed and Exited never return to Loading or Ready |
| `Supervisor.DrainingStep` | internal/runtime/supervisor.go:396-412 | Draining is left exactly by a starter that sets Loading or fails, not by the exit of the child |
| `Supervisor.DrainHolds` | internal/runtime/supervisor.go:718-720 | the first drain of a launched child ends readiness for good |
| `Supervisor.EarlyDrainLost` | internal/runtime/supervisor.go:353-354 | a run in which a supervisor drained twice becomes ready |
| `Supervisor.NotedOk` | internal/runtime/supervisor.go:916-981 | one line of the log never lowers the count, forgets no device, and reports a device name only if it is the only one |
| `Supervisor.TooManyNeverReady` | internal/runtime/supervisor.go:484-500 | once more than one accelerator was seen, every probe begun later refuses |
| `SupervisorTrace.ReadyWasProbed` | internal/runtime/supervisor.go:442-514 | in every run a ready supervisor was made so by one probe, begun on the launched child, answered as required by all endpoints and, in accelerator mode, answered when the log had confirmed one visible device and the offload of all layers, then committed; it has been ready since |
| `SupervisorTrace.ProbeDecides` | internal/runtime/supervisor.go:442-514 | undisturbed, a probe of a launched child makes it ready exactly when the endpoints answer as required and the log has confirmed what it must, and otherwise makes it load again |
| `SupervisorTrace.InventoryExact` | internal/runtime/supervisor.go:916-981 | in every run in accelerator mode the inventory is what the log told: every device under its first name, the largest count told or the number of devices, the last numbers of layers that make sense, a detection exactly when a device is visible or layers were offloaded, the device by name when it is the only one |
| `Supervisor.SupervisorState.StartLoading` | internal/runtime/supervisor.go:353-354 | the unconditional section at the head of `startChild` |
| `Supervisor.SupervisorState.Fail` | internal/runtime/supervisor.go:772-774 | the failure section, before the child and at its launch |
| `Supervisor.SupervisorState.BeginDrain` | internal/runtime/supervisor.go:718-720 | the section that opens a drain |
| `Supervisor.SupervisorState.WaitForChild` | internal/runtime/supervisor.go:396-412 | the locked section after the exit of the child |
| `Supervisor.SupervisorState.SetLoading` | internal/runtime/supervisor.go:786-797 | the guarded return to Loading |
| `Supervisor.SupervisorState.CommitReady` | internal/runtime/supervisor.go:502-513 | the guarded commit of Ready |
| `Supervisor.SupervisorState.Approves` | internal/runtime/supervisor.go:451-500 | approves exactly when the endpoints answered as required and, in accelerator mode, one device is visible and all layers are offloaded |
| `Supervisor.SupervisorState.UpdateVisible` | internal/runtime/supervisor.go:962-981 | the count of visible accelerators, in place |
| `Supervisor.SupervisorState.ObserveStartupLog` | internal/runtime/supervisor.go:916-947 | one line of the log, in place |
| `Drain.LoopBound` | internal/runtime/supervisor.go:725-744 | for every course of the probes the loop ends less than 4.5 s after its deadline |
| `Drain.LoopWaits` | internal/runtime/supervisor.go:725-744 | the loop ends before its deadline only with a launched child or when there will be none |
| `Drain.ProbesEnd` | internal/runtime/supervisor.go:725-744 | when the probes are over, by the clock alone: with the first round that begins too late or with a child that is gone, or else with the answer of the first that finds a launched child without an active request |
| `Drain.KilledExactly` | internal/runtime/supervisor.go:746-766 | SIGKILL is sent exactly when the child neither obeys SIGTERM nor exits by itself within the shutdown timeout, and when that is over; otherwise the drain ends with the exit |
| `Drain.DrainBound` | internal/runtime/supervisor.go:718-766 | for every timeout and every course of the probes: the child has exited or been sent SIGKILL before the timeout plus 19.5 s, inside the grace period, exactly when it is never launched, launched before the probes are over, or exits by itself in that time |
| `Drain.EarlyChildSettled` | internal/runtime/supervisor.go:718-766 | a child launched before the timeout runs out has always exited or been sent SIGKILL before the timeout plus 19.5 s |
| `Drain.LateChildRuns` | internal/runtime/supervisor.go:746-751 | a child launched the timeout plus 9.5 s into the drain or later is never signalled, whatever the probes |
| `Drain.DrainBoundTight` | internal/runtime/supervisor.go:718-766 | the bound cannot be improved |
| `Drain.DrainChild` | internal/runtime/supervisor.go:718-766 | the drain with its loop returns when and how the model says, without a child, after an exit or after SIGKILL, and always before the timeout plus 19.5 s |

## Left out

- HTTP transport, redirects, tokens, URL building and redaction: plumbing over libraries.
- Descriptor-level path walking, flock, symbolic links and the filesystem probe: kernel semantics.
- Power loss: a crash loses the process, not what it wrote; where the source syncs is not modelled.
- Reads of several files of one directory (hashing a blob, validating staging) are one step: staging belongs to one operation and blobs do not change.
- Removal of a staging tree after a cache hit is one step; by then the marker is written and nothing reads it.
- Cleanup of an operation's state while its own importer runs; `RevisionPin` and `TransientNames` take cleanup and import of one operation one after the other.
- Error reasons and messages: an operation that fails, fails; which `Reason` it reports is not modelled.
- `executeDirect`, `VerifyExpectations` and the metadata of a recovered result: field-by-field checks that would only add easy members.
- The size limits of checkpoints and of the importer's result, and documents that do not decode.
- What is in the way of a publication is an input of `RevisionPin`; `Publication` says when something is.
- Bound volume and access-mode checks in storage resolution and the claim check before a gate is removed: they only make the protocols refuse more.
- Time in the claim guard: the quiescence period and the guard's timestamp; the proof needs only the order of reads and writes.
- Leases of several names: one lease is modelled, they do not interact.
- Cluster objects of the serving workload beyond what the gate depends on; conditions, events, metrics; admission webhooks (what they forbid is built into the moves of users).
- Quantization names, runtime argument construction, sanitising of log lines and the regular expressions that pick numbers out of them.
- DrainBound: supposes ideal timers and no scheduling delay between two statements, and does not model the end of the supervisor process itself, which takes its children along where it is the first process of a container.
