# Verification model of the recovery, publication and supervision code

This project models, in Dafny, the parts of the repository that must stay right across crashes, lost replies, damaged
copies and hostile interleavings, and proves what they promise. `dafny verify dfyconfig.toml` checks all of it.

- **Write-ahead replay (E-RECOVERY-1).** `Replay`, `ReplayTheorems`, `ReplayLanguage`, `BigEndian`, `Journal`,
  `JournalTheorems` and `CrashRecovery` model the replay state machine, the language of journals it accepts, its
  256-byte hash-chained `MCLOG002` frames and an executor that flips files between journal writes and may crash
  anywhere. The tests bound the file count by 4; here it is any.
- **Recovery cohorts.** `Paths`, `RecoveryIo`, `Manifest`, `Cohort`, `ReplicaIndependence`, `Authentic`, `Evidence`,
  `Reconstruct`, `PathLimit`, `Inventory`, `Inspect` and `Export` model export into a content-addressed store,
  acceptance of an anchor, reconstruction from partly damaged replicas into a candidate directory with its evidence,
  and exact inspection.
- **Anchored checkpoints.** `Atomic`, `Hooks`, `Checkpoint`, `CheckpointChain` and `CheckpointStore` model stage,
  pending, external compare-and-swap, current, with the hooks asked on the way and a crash after any durable step. A
  compare-and-swap may be lost, answered wrongly, or reach the anchor long after its caller gave up; an unlocked reader
  interleaves with all of it.
- **Control latch.** `Control`, `ControlHistory` and `ControlStore` model the two-party decision and the
  archive-then-publish submission with exact retries.
- **Processes.** `Command` models one approved command from fork to classified result; `ProcessTree` models stopping a
  whole forest of forking, exiting and reparented processes from a subreaper.
- **Decision registry.** `AdrRegistry` models the supersession check with its depth-first search.

Conventions. SHA-256, Ed25519 and JSON are parameters; no hash is assumed to be injective, and where a property needs
two strings not to collide the hypothesis names exactly those strings. What the outside world decides (a short write, a
crash, a refusing hook, the kernel's answer, another process) is a nondeterministic choice inside a method; returning
early from a method is a crash there, so each contract speaks about every point of return. A parameter `calm`, or a
`sound` directory, switches those choices off, which is how progress and exact answers are stated. Updated state is a
class; its methods are proved against functions on values, and the theorems are about those functions or about what
every method keeps. A check that the source makes step by step is a method with those steps, proved to decide a
predicate; a rule that is one expression in the source has a second description in other terms and a lemma that the two
agree.

Three findings. (1) The path check of the manifest passes up to 32 components and 1024 characters, but reconstruction
puts the same check to `payload/<path>`, which passes only up to 31 components and 1016 characters: it refuses to create
the payload of any longer path. `Paths.PayloadPathValid` is the exact condition for one path and `PathLimit.PathsFitIff`
for an accepted manifest, `PathLimit.AcceptedWithoutPayload` gives an accepted manifest that fails it, and
`Reconstruct.Reconstruct` can finish in a candidate only when it holds.
(2) The manifest's separate check for a file used as an ancestor can never fire (`Manifest.FileAncestorImpossible`),
nor can the inventory's depth check (`Inventory.Walker.Walk`). (3) A checkpoint candidate the anchor has not accepted
blocks every further publication, as `docs/checkpoints.ja.md` says (`CheckpointStore.UnacceptedCandidateBlocks`), while
one it has accepted can always be finished (`CheckpointStore.StrandedIsReconcilable`).

## Model

| member | source | states |
|---|---|---|
| `Replay.Fold` | tests/engineering/test_replay_model.py:80-83 | the loop accepts a list of events exactly when replaying them one by one does, with the same final image |
| `ReplayTheorems.ReachableIffLegal` | tests/engineering/test_replay_model.py:34-65 | exact description of the images that some accepted run produces, for any file count |
| `ReplayTheorems.DecisionShowsInStage` | tests/engineering/test_replay_model.py:47-58 | the stage tells whether the run holds a commit intent or a restore intent, and conversely |
| `ReplayTheorems.ExclusiveDecision` | tests/engineering/test_replay_model.py:47-64 | no accepted run holds both a commit and a restore intent |
| `ReplayTheorems.ReceiptNeverChanges` | tests/engineering/test_replay_model.py:47-64 | a bound receipt is carried by every later image |
| `ReplayTheorems.OutcomesLeftOpen` | tests/engineering/test_replay_model.py:34-65 | from every reachable image, restored is reachable exactly before a commit intent and committed exactly before a restore intent; one of them always is |
| `ReplayTheorems.MeasureFalls` | tests/engineering/test_replay_model.py:34-65 | an accepted event either changes nothing or lowers a nonnegative measure |
| `ReplayTheorems.BoundedChanges` | tests/engineering/test_replay_model.py:34-65 | at most 4n+3 events of an accepted run over n files change the state |
| `ReplayTheorems.BoundIsAttained` | tests/engineering/test_replay_model.py:34-65 | for every n in 1..1024 some accepted run has exactly 4n+3 state changes |
| `ReplayTheorems.UnchangedIsRetryOrAudit` | tests/engineering/test_replay_model.py:40-57 | an accepted event without effect is an audit record or repeats an earlier event of the run exactly |
| `ReplayLanguage.AcceptedIffScripted` | tests/engineering/test_replay_model.py:34-83 | replay accepts an event list exactly when, without audit records and repetitions, it begins one of two scripts: forward, applied, committed, or forward up to any point and then restored file by file; audit records stand only in between; the image shows the place in the script |
| `ReplayLanguage.RetryIsAccepted` | tests/engineering/test_replay_model.py:43-57 | an intent of a change, commit or restoration that was just accepted is accepted again and changes nothing |
| `ReplayLanguage.AuditIsAccepted` | tests/engineering/test_replay_model.py:38-40 | an audit record with index 0 and a nonzero 32-byte object is accepted exactly after the first event and before the end, and changes nothing |
| `ReplayLanguage.ReceiptIsCarried` | tests/engineering/test_replay_model.py:47-64 | once a receipt is bound, every further accepted event but audit records carries it |
| `Journal.Frame` | tests/engineering/test_replay_model.py:85-91 | filling the buffer in place gives the concatenation of the fields and their digest, for an object and previous digest of any length (a slice of another length moves what follows), or fails exactly when a number does not fit its field |
| `Journal.FrameOfIsFrame` | tests/engineering/test_replay_model.py:85-91 | every field of a frame stands at the offset of the wire layout |
| `Journal.FrameIsOurs` | tests/engineering/test_replay_model.py:85-91 | every frame of a journal opens with the magic of the format and names the same root, operation, epoch, token and generation |
| `Journal.DecodeFrame` | tests/engineering/test_replay_model.py:93-100 | any frame decodes to what was put in, exactly when its sequence is positive and all its numbers are below 2^63 |
| `BigEndian.FirstCountsMost` | tests/engineering/test_replay_model.py:85-91 | in the numbers of a frame the first byte counts most |
| `Journal.AcceptIffFrame` | tests/engineering/test_replay_model.py:93-106 | a frame is accepted at a place of the chain as an event exactly when it is, byte for byte, that event's frame there |
| `Journal.ReadJournal` | tests/engineering/test_replay_model.py:101-108 | the reading loop equals the frame-by-frame specification, with the leftover bytes |
| `Journal.EncodeJournal` | tests/engineering/test_replay_model.py:110-114 | the writing loop equals the specification that chains frame digests, or fails exactly when a number of some event does not fit its field |
| `JournalTheorems.RoundTrip` | tests/engineering/test_replay_model.py:80-114 | every accepted run of fewer than 2^63 events can be encoded, and reading its bytes gives its replay, with any torn tail returned untouched |
| `JournalTheorems.CutAnywhere` | tests/engineering/test_replay_model.py:101-114 | cutting the bytes anywhere gives the replay of the whole frames before the cut and exactly the bytes after them |
| `JournalTheorems.AcceptedIffEncoding` | tests/engineering/test_replay_model.py:93-114 | the accepted byte strings are exactly the encodings of accepted runs of fewer than 2^63 events plus less than a frame |
| `JournalTheorems.EncodingIsInjective` | tests/engineering/test_replay_model.py:110-114 | different event lists have different bytes, whatever the hash |
| `JournalTheorems.HeadBindsEvents` | tests/engineering/test_replay_model.py:85-114 | two event lists whose last frames have the same digest are the same list, unless two of their frames collide or one hashes to zero |
| `JournalTheorems.HeadBindsJournal` | tests/engineering/test_replay_model.py:93-108 | two accepted journals, for any plans, that end in the same digest have the same frames, under the same condition on their bytes |
| `CrashRecovery.AppendedFrameIsRead` | tests/engineering/test_replay_model.py:101-108 | appending the next frame to a readable journal advances the replay by that event |
| `CrashRecovery.TornFrameIsTail` | tests/engineering/test_replay_model.py:101-108 | a partly written frame changes nothing but the tail |
| `CrashRecovery.CrashSafety` | tests/engineering/test_replay_model.py:34-75 | for any file count and any sequence of appends, flips, torn frames and recoveries the journal is readable, every file's content is one the image allows, and all files are changed when committed, unchanged when restored |
| `CrashRecovery.AllowedContentsAttained` | tests/engineering/test_replay_model.py:67-75 | each content the image of a reachable state allows for a file is found there after some run |
| `CrashRecovery.CanFinish` | tests/engineering/test_replay_model.py:34-75 | wherever a crash left journal and files, further actions end in restored, or in committed, with all files accordingly, exactly when the image leaves that outcome open and the frame counter has room for the shortest way there |
| `CrashRecovery.AlwaysFinishable` | tests/engineering/test_replay_model.py:34-75 | one of the two ends can always be reached while 2n+4 frames still fit the counter |
| `Paths.PayloadPathValid` | tools/recovery_io.py:38-42 | an accepted path stays accepted below payload/ exactly when it has at most 31 components and 1016 characters |
| `PathLimit.PathsFitIff` | tools/nia_recovery.py:97-130 | all payloads of an accepted manifest can be created exactly when every object path has at most 31 components and 1016 characters |
| `PathLimit.AcceptedWithoutPayload` | tools/nia_recovery.py:97-130 | an accepted manifest exists whose journal lies 31 directories deep and has no place below payload/ |
| `RecoveryIo.Directory.Parent` | tools/recovery_io.py:76-87 | opens or makes the directories of a path one by one; each error names what stands in the way |
| `RecoveryIo.Directory.Create` | tools/recovery_io.py:110-113 | creates an empty file only where nothing was |
| `RecoveryIo.Directory.WriteAll` | tools/recovery_io.py:52-57 | short writes append the whole of the bytes, or a prefix of them when interrupted |
| `RecoveryIo.Directory.WriteNew` | tools/recovery_io.py:114-117 | a new file holds exactly the bytes, or a prefix of them when interrupted; nothing else changes |
| `RecoveryIo.Directory.Read` | tools/recovery_io.py:99-109 | returns a file's exact bytes within the limit |
| `Manifest.ListDirectories` | tools/nia_recovery.py:107-110 | accepts exactly valid, strictly sorted directories |
| `Manifest.TableObjects` | tools/nia_recovery.py:111-120 | accepts exactly valid objects with distinct paths within the totals, and builds their table and size |
| `Manifest.ValidateManifest` | tools/nia_recovery.py:97-130 | accepts exactly the well-formed manifests and returns the total payload size |
| `Paths.CheckRelative` | tools/recovery_io.py:38-42 | the check of a path, component by component and character by character, decides path validity |
| `Manifest.CheckXattrs` | tools/nia_recovery.py:23-33 | the loop over extended attributes decides the bounds on count, names, bytes and order |
| `Manifest.CheckEntry` | tools/nia_recovery.py:112-118 | the checks of one object decide its validity |
| `Manifest.CheckHeader` | tools/nia_recovery.py:97-106 | the checks before the directories and objects decide the header |
| `Paths.LessIff` | tools/nia_recovery.py:33 | the order of names is that of the first differing character, or of the lengths |
| `Manifest.FileAncestorImpossible` | tools/nia_recovery.py:122-126 | disjointness and declared ancestors make the file-ancestor check redundant |
| `Manifest.ManifestDescribesTree` | tools/nia_recovery.py:97-130 | in an accepted manifest no object lies below another, no two share a place and none is a directory |
| `Cohort.ExpectedSizes` | tools/nia_recovery.py:251 | expected chunk sizes of an accepted object are each in 1..65536 and add up to its size |
| `Cohort.ReadIff` | tools/nia_recovery.py:253 | a chunk file is read exactly when it is there, readable and at most 64 KiB long |
| `Cohort.IntactIff` | tools/nia_recovery.py:246-272 | an object is still whole after k chunks exactly when some replica supplies each of them |
| `Cohort.WrongReadsAre` | tools/nia_recovery.py:252-269 | what counts as wrongly read is exactly what replicas hold, in 64 KiB at most, that has not the expected size and digest |
| `Cohort.SelectedSize` | tools/nia_recovery.py:252-270 | a selected chunk has the expected size, of 64 KiB at most, and digest, and is what some replica holds under that digest |
| `Cohort.SomeIntactIffSelected` | tools/nia_recovery.py:252-270 | a chunk is selected exactly when some replica holds it with the expected size, of 64 KiB at most, and digest |
| `Cohort.ObjectRoundTrip` | tools/nia_recovery.py:246-277 | if some replica holds each chunk of a content, and none holds other bytes of its digest, the object is verified and its bytes are the content |
| `ReplicaIndependence.ReplicaOrderIrrelevant` | tools/nia_recovery.py:242-277 | reordering the replicas leaves the bad-replica count and, without digest collisions among them, all verdicts unchanged |
| `ReplicaIndependence.CountIsBadPairs` | tools/nia_recovery.py:250-269 | for one object, the bad reads number its bad (chunk, replica) pairs up to its first unrecoverable chunk |
| `ReplicaIndependence.ReportCountsBadTriples` | tools/nia_recovery.py:242-269 | the report's count is the number of bad (object, chunk, replica) triples of the whole manifest, each object up to its first unrecoverable chunk |
| `ReplicaIndependence.MoreReplicasNeverHurt` | tools/nia_recovery.py:246-277 | replicas added anywhere never turn a verified object unverified, without digest collisions |
| `ReplicaIndependence.AppendedReplicasNeverHurt` | tools/nia_recovery.py:246-277 | replicas added at the end never do, collisions or not |
| `Authentic.ValidateTrust` | tools/nia_recovery.py:132-143 | accepts exactly policies in range with distinct key ids and distinct public keys |
| `Authentic.CheckSignatures` | tools/nia_recovery.py:159-169 | accepts exactly when enough signatures verify under pairwise distinct, unrevoked keys of distinct domains with both roles |
| `Authentic.SignaturesIff` | tools/nia_recovery.py:159-169 | accepted exactly when 2 to 32 signatures, at least the threshold, were each made by its own provisioned, unrevoked key, no two of one domain, both roles among them |
| `Authentic.Authenticate` | tools/nia_recovery.py:145-170 | accepts exactly the pairs of manifest and anchor that are well formed, canonical, pinned, fresh, bound to each other and signed |
| `Authentic.SoundKeySigned` | tools/nia_recovery.py:159-169 | with fewer faulty domains than the threshold, a provisioned unrevoked key of a sound domain signed the anchor |
| `Authentic.PinAdmitsOneManifest` | tools/nia_recovery.py:154-158 | one pinned digest admits one anchor, one manifest byte string and one pending set, unless two of the four strings hashed collide |
| `Authentic.FindManifest` | tools/nia_recovery.py:219-229 | the explicit copy if its digest is anchored, else the first replica's whose is, else none has it; refused exactly for an envelope that does not decode |
| `Evidence.KeptIffFits` | tools/nia_recovery.py:258-265 | charging the wrong reads one by one keeps each different one once exactly when no two of them collide and each, also a repeated one, fits beside those seen before it; otherwise it stops |
| `Evidence.SpilledMeans` | tools/nia_recovery.py:258-265 | a collision is reported only for two different reads under one digest, full evidence only when some read does not fit beside those seen before it |
| `Evidence.FewEnoughFit` | tools/nia_recovery.py:258-265 | reads without collisions whose lengths sum to at most the bound can all be kept |
| `Reconstruct.Quarantine` | tools/nia_recovery.py:259-265 | a wrong chunk is kept once under its digest, exactly as the evidence account says; refused as full or colliding only when the account is, and cut short only by an interruption |
| `Reconstruct.GatherChunk` | tools/nia_recovery.py:252-269 | over all replicas: the chosen chunk, the tally of bad reads, and every wrong chunk preserved and charged in reading order, as specified; it fails only by an interruption or for the wrong reads of this chunk that cannot be kept |
| `Reconstruct.RecoverNext` | tools/nia_recovery.py:250-272 | one more chunk recovered and appended to the payload, or the first that no replica has; fails only as gathering does |
| `Reconstruct.RecoverObject` | tools/nia_recovery.py:246-277 | one object's verdict, tally, payload bytes and evidence; fails for its path exactly when the path has no place below payload/, for its evidence only when its wrong reads in order cannot be kept |
| `Reconstruct.NextPayloadIsFree` | tools/nia_recovery.py:248 | in manifest order, no object's payload place is taken nor lies below a file |
| `Reconstruct.Open` | tools/nia_recovery.py:240-241 | intent, then the two inputs, in an empty candidate |
| `Reconstruct.Close` | tools/nia_recovery.py:278-282 | the report and, only when it is complete, the marker that carries its digest; wherever it stops, a marker stands for the inputs of this run |
| `Reconstruct.RecoverAll` | tools/nia_recovery.py:246-277 | verdicts, completeness and tally over all objects, with all payload and evidence in place; it fails only for an interruption, a path without a payload place, or wrong reads that cannot all be kept |
| `Reconstruct.Reconstruct` | tools/nia_recovery.py:231-283 | wherever it stops, a ready marker stands only on the whole, verified reconstruction from this run's own inputs with every wrong read kept; a nonempty candidate is left untouched; a finished run wrote the specified report, payload and marker; every error has its cause; in a sound empty candidate with room and 1 to 16 replicas it succeeds exactly when all payload paths are valid and all wrong reads can be kept; refused for capacity exactly when less than the total and 32 MiB is free, and then untouched |
| `Reconstruct.RecoverableWhenFew` | tools/nia_recovery.py:258-265 | wrong reads that do not collide and together stay within the bound never stop a reconstruction: then the paths alone decide |
| `Reconstruct.RecoverableWhenNoneWrong` | tools/nia_recovery.py:258-265 | the same when no replica returns a wrong chunk |
| `Reconstruct.Attempts` | tools/nia_recovery.py:231-283 | after any number of attempts on arbitrary inputs, each cut off anywhere, a marker stands for the whole reconstruction from the inputs of one of them |
| `Reconstruct.ReadyMeans` | tools/nia_recovery.py:240-282 | beside a marker stand the inputs and the report, every object under payload/ with the manifest's size and digest, and every wrong read under evidence/ in a file whose name spells its digest; some replica supplied every chunk |
| `Reconstruct.HexSpells` | tools/recovery_io.py:11 | a digest is named by 64 lower-case hexadecimal digits, the high one of each byte first |
| `Inventory.Walker.Walk` | tools/nia_recovery.py:50-69 | the recursive walk lists exactly the tree's files and directories, or fails exactly for a bad path or too many entries |
| `Inventory.ClosedInventory` | tools/nia_recovery.py:45-70 | the sorted listings of the whole tree |
| `Inventory.ListedIffFound` | tools/nia_recovery.py:45-70 | a path is listed exactly when the tree has an entry there |
| `Inventory.FilesDistinct` | tools/nia_recovery.py:45-70 | no path is listed twice |
| `Inventory.InventoryIsExact` | tools/nia_recovery.py:313 | two sorted lists of valid paths are the inventory exactly when they are what the tree holds |
| `Inspect.InspectObject` | tools/nia_recovery.py:292-307 | matched exactly when the tree has that file with this content digest, size, mode, owner and xattrs; unsafe exactly when it cannot be read as it should be |
| `Inspect.InspectOriginal` | tools/nia_recovery.py:285-315 | a result exactly for an accepted manifest and anchor; complete exactly when a quiescent tree is what that manifest describes, entry by entry and attribute by attribute, and each object's finding is exact |
| `Export.ReadChunkAt` | tools/nia_recovery.py:199-204 | short reads assemble exactly the next chunk |
| `Export.StoreChunk` | tools/nia_recovery.py:205-207 | the chunk stands under objects/ in a file whose name spells its digest, and nothing there changed |
| `Export.ExportContent` | tools/nia_recovery.py:197-210 | chunk digests, whole digest and stored chunks of a content; on a sound store of non-colliding chunks it always succeeds |
| `Export.ExportFolders` | tools/nia_recovery.py:191 | every directory with its attributes, in order; refused exactly for attributes out of bounds |
| `Export.SurveySource` | tools/nia_recovery.py:178-191 | the wanted paths are exactly the source's files, and the directories are read; passes for every source that has an exportable manifest |
| `Export.ExportObject` | tools/nia_recovery.py:193-211 | the entry is the wanted one, describes the source file, and its chunks are stored |
| `Export.ExportObjects` | tools/nia_recovery.py:192-211 | all wanted objects in path order; heading for an exportable manifest it yields exactly that manifest's objects |
| `Export.Finish` | tools/nia_recovery.py:212-217 | writes the manifest exactly if it is well formed, within the size limit, and still what the source holds |
| `Export.ExportSource` | tools/nia_recovery.py:172-217 | success yields the manifest asked for, well formed and exact for the source, every chunk of it in the store under objects/ and the name its digest spells; into a sound empty directory the export succeeds if and only if such a manifest exists |
| `Export.ExportReconstructRoundTrip` | tools/nia_recovery.py:193-282 | export, loss of all but one copy of each chunk, reconstruction: complete, ready, and every payload file has the source's bytes |
| `Export.RecoverExport` | tools/nia_recovery.py:172-283 | whenever every chunk of an exported source survives in some replica, the candidate is prepared, the paths are valid and the wrong reads can be kept, reconstruction succeeds, is ready and holds the source's bytes |
| `Export.UnchangedExportIsComplete` | tools/nia_recovery.py:285-315 | an inspection of a source that is as it was exported is complete, with every object matched |
| `Atomic.Volume.Write` | runtime/mc_atomic.adb:6-29 | the path shows its old content or all of the new; a definite result leaves no staging file; only OK or indeterminate may have published |
| `Atomic.Volume.Read` | runtime/mc_atomic.adb:30-47 | OK returns exactly the published content |
| `Atomic.Volume.Keep` | runtime/mc_checkpoint_store.adb:28-36 | OK means the file has exactly this content; a file that was there is never changed |
| `CheckpointChain.BackAlongChain` | src/mc_checkpoint.adb:15-28 | the archived chain leads back through every earlier generation to the first, and no high-water mark rises on the way back |
| `CheckpointChain.KeepStep` | runtime/mc_checkpoint_store.adb:81-84 | archiving keeps the invariant |
| `CheckpointChain.PendingStep` | runtime/mc_checkpoint_store.adb:74-86 | recording a filed successor as pending keeps the invariant while no request under way can move the anchor |
| `CheckpointChain.DeliverStep` | runtime/mc_checkpoint_store.adb:88 | the anchor may act on any request under way at any time, also after its caller is gone |
| `CheckpointChain.CurrentStep` | runtime/mc_checkpoint_store.adb:90-91 | publishing the accepted candidate keeps the invariant |
| `CheckpointChain.NoRollback` | runtime/mc_checkpoint_store.adb:51-119 | over any run, what was current is for ever on the archived chain of what is current, as many generations back as were published since, and no mark has fallen |
| `CheckpointChain.AnchorIsArchived` | runtime/mc_checkpoint_store.adb:81-88 | a nonempty anchor always names a checkpoint that is archived with its snapshot and all predecessors |
| `Checkpoint.FollowsIff` | src/mc_checkpoint.adb:15-29 | one descriptor follows another exactly when both are well made, it is the next generation, names the other by digest and lowers no mark; marks may stay |
| `Checkpoint.ValidIff` | src/mc_checkpoint.adb:6-14 | what a descriptor must say of itself: nothing blank, a size in 1..2^20, and no predecessor exactly for the first |
| `CheckpointStore.PublishableIff` | runtime/mc_checkpoint_store.adb:58-78 | what may be published, in the caller's terms |
| `CheckpointStore.Settled` | runtime/mc_checkpoint_store.adb:74-78 | the check of the pending descriptor alone shows where the anchor stands and that no late request can move it |
| `CheckpointStore.StrandedIsReconcilable` | runtime/mc_checkpoint_store.adb:94-119 | whenever the anchor has moved past current, the pending checkpoint is complete and is what the anchor accepted |
| `CheckpointStore.UnacceptedCandidateBlocks` | docs/checkpoints.ja.md:29 | an unaccepted candidate is never adopted and stops every further publication |
| `CheckpointStore.AnswerIsOK` | runtime/mc_checkpoint_store.adb:58-86 | the answers of a calm publication name OK exactly for the publishable checkpoints |
| `CheckpointStore.Store.Admit` | runtime/mc_checkpoint_store.adb:65-78 | passes exactly candidates that come next over a settled store |
| `CheckpointStore.Store.Stage` | runtime/mc_checkpoint_store.adb:79-86 | archives snapshot and descriptor, then records pending |
| `CheckpointStore.Store.AdvanceAnchor` | runtime/mc_checkpoint_store.ads:21-22 | the request may be lost, late or answered wrongly; the invariant holds throughout |
| `CheckpointStore.Store.Anchor` | runtime/mc_checkpoint_store.adb:87-91 | current changes only on OK or indeterminate |
| `CheckpointStore.Store.Publish` | runtime/mc_checkpoint_store.adb:51-93 | calm, OK exactly when the caller presents a complete descriptor of its payload that names the current digest, is the next generation and lowers no mark (the first generation on an empty store), with nothing else pending and no digest claimed; OK leaves it current, pending and anchored; every other candidate gets its own answer; every intermediate world keeps the invariant; OK only after opening, anchor check, validation, both approvals, swap and anchor check were granted in this order, and after a swap only OK or indeterminate |
| `CheckpointStore.Store.ReadDescriptor` | runtime/mc_checkpoint_store.adb:6-15 | returns the stored descriptor of this contract |
| `CheckpointStore.Store.ReadPayload` | runtime/mc_checkpoint_store.adb:16-27 | OK means the payload has the descriptor's size and digest and fits the buffer; a filed one is readable whenever it fits |
| `CheckpointStore.Store.ReadAccepted` | runtime/mc_checkpoint_store.adb:103-107 | the caller's pending checkpoint, accepted by the anchor, payload complete |
| `CheckpointStore.Store.Reconcile` | runtime/mc_checkpoint_store.adb:94-119 | OK leaves current at the anchor; calm, OK exactly when the caller's pending checkpoint is the accepted one; OK only after opening, anchor check, validation and approval were granted in this order |
| `CheckpointStore.Store.Load` | runtime/mc_checkpoint_store.adb:37-50 | unlocked and interleaved with others: what it returns was current when read, accepted at the check, and complete; with consenting hooks its answer is decided by identity, buffer size and whether the anchor moved on; OK only after its own opening, anchor check and validation |
| `Control.CountSignatures` | src/mc_control.adb:75-90 | the counting loop decides the quorum condition |
| `Control.Decide` | src/mc_control.adb:37-97 | OK exactly when addressed, expected and signed by a quorum; then mode, incident, request, reason, marks and links are those the proposal asked for and the state is valid, else nothing changes |
| `Control.SuccessorIsValid` | src/mc_control.adb:24-31 | an allowed successor satisfies the state's own validity condition |
| `Control.CheckAuthority` | src/mc_control.adb:3-23 | the loops over keys and pairs decide whether an authority is valid |
| `Control.ValidStateIff` | src/mc_control.adb:24-31 | a state is valid exactly when nothing in it is blank but the incident while running and the predecessor of the first revision |
| `Control.AllowedObeys` | src/mc_control.adb:91-96 | of all states exactly the successor has what an allowed proposal asked for |
| `Control.RelaxationIsIndependent` | src/mc_control.ads:62-63 | a relaxation has an operations and a security signer of different principals, keys and domains, and a rising trust epoch |
| `Control.PairCanRelease` | src/mc_control.adb:48-97 | from any valid quarantined state an operations and a security key of two domains can allow a release |
| `ControlHistory.ArchiveExtends` | runtime/mc_control_io.adb:99-106 | an archived step extends the complete archive |
| `ControlHistory.Linked` | runtime/mc_control_io.adb:97-106 | successive states are linked by digest under one authority; each has the mode, incident, reason, epoch, scope and contract of its archived request; the first is quarantined, epochs never fall |
| `ControlHistory.OncePerRequest` | runtime/mc_control_io.adb:88-106 | no request takes effect twice |
| `ControlHistory.SpentRequest` | runtime/mc_control_io.adb:88-98 | the archived proposal of an old request is never allowed again, by any authority at any time |
| `ControlHistory.RelaxationsAreSigned` | docs/control-protocol.ja.md:9 | wherever the archive shows a relaxation it holds both independent signatures on the very proposal that asked for it |
| `ControlStore.AllowedFromStart` | src/mc_control.adb:52-57 | a proposal allowed at some moment is allowed at its own first moment |
| `ControlStore.SpentIsUnacceptable` | runtime/mc_control_io.adb:88-106 | a request identity that took effect is never acceptable again with any proposal or signatures |
| `ControlStore.AnswerIsOK` | runtime/mc_control_io.adb:72-116 | the answers of a calm submission name OK exactly for acceptable requests and exact retries |
| `ControlStore.Store.CheckBundle` | runtime/mc_control_io.adb:73-81 | OK only when every signed slot belongs to a key and verifies; calm, exactly then |
| `ControlStore.Store.ReadState` | runtime/mc_control_io.adb:29-39 | the current state, only under the authority it was accepted by |
| `ControlStore.Store.Preserve` | runtime/mc_control_io.adb:47-56 | archives a file or finds it unchanged; never alters one |
| `ControlStore.Store.ArchiveStep` | runtime/mc_control_io.adb:99-106 | old state, request and new state are archived before anything else changes |
| `ControlStore.Store.Advance` | runtime/mc_control_io.adb:110-117 | current moves to an archived successor; a definite failure leaves it |
| `ControlStore.Store.Retry` | runtime/mc_control_io.adb:88-94 | acknowledged exactly when the archived request has this proposal and bundle, else a conflict |
| `ControlStore.Store.Apply` | runtime/mc_control_io.adb:95-117 | a new request takes effect only when acceptable, and then as the one successor |
| `ControlStore.Store.Submit` | runtime/mc_control_io.adb:57-119 | from any crash on, the archive is complete from the first state to the current; OK means this request is current and archived; a request that took effect changes nothing again; the first state binds the authority, any file may stand before it and another one changes nothing after it; calm, the answer is determined; OK only after every signature was checked and, for a new request, the clock was read twice |
| `Command.TerminateChild` | runtime/mc_command.adb:63-95 | child, then group killed, then at most one reap; complete only with all three |
| `Command.Drain` | runtime/mc_command.adb:177-188 | the buffer is the concatenation of all reads within the limit; it stops only when nothing is left to read, and each other way of stopping has its cause |
| `Command.Feed` | runtime/mc_command.adb:190-198 | all that remains of the input is offered once and what the pipe took is a prefix of it; closed exactly when all is taken or the pipe broke |
| `Command.Pump` | runtime/mc_command.adb:170-204 | an unforced end means the child has ended, its output was read to the end and the rest of the input was offered at every round; a forced one has exactly its cause; it waits no longer once both ends were seen |
| `Command.Run` | runtime/mc_command.adb:159-218 | no signal follows the reap; OK exactly when the child exited 0 by itself with all input taken, all output read and cleanup complete; exited or signalled exactly when nothing went wrong outside the child; timed out and output limit have exactly their causes; indeterminate exactly with external effects or without a watch |
| `ProcessTree.OnlyZombie` | ci/proof-guard.py:94-96 | if the supervisor's only child is a zombie, nothing else of the tree exists |
| `ProcessTree.NoDescendants` | ci/proof-guard.py:163-164 | without direct children there are no descendants |
| `ProcessTree.Sweep` | ci/proof-guard.py:84-93 | every child there was is signalled, and each is still the supervisor's unreaped child when it is signalled and reaped; once the leader has ended, less is left to stop or only the leader is |
| `ProcessTree.StopChildren` | ci/proof-guard.py:70-98 | the leader's group is killed; only own unreaped children are signalled one by one; a result means no process of the tree is left alive or unreaped; none only after the whole cleanup time, with the leader still owned, and then only if the group's kill left the leader alive or 10 ms for each other process there was, each fork and each late kill, with the time of the calls themselves, add up to the cleanup time; no round begins five seconds or more after the kill |
| `ProcessTree.Watch` | ci/proof-guard.py:173-192 | the leader is never reaped while watched; it waits on only within the time, after looking in vain for the leader's end and every reason to stop; each way of stopping has its cause |
| `ProcessTree.Supervise` | ci/proof-guard.py:133-218 | whatever other processes do, no stray signal; pass exactly for a clean run with code 0, every other reason has its cause, and a return code only with the whole tree gone; with every kill effective at once, the cleanup fails only if too many processes were started for its time; clean only if the tool ended before its group was killed |
| `AdrRegistry.BuildTable` | ci/engineering.py:154-164 | accepts exactly sound rows with unique ids |
| `AdrRegistry.CheckReferences` | ci/engineering.py:165-168 | accepts exactly when every replaced id exists and is another |
| `AdrRegistry.Incoming` | ci/engineering.py:169-171 | the inverse of the replacement relation |
| `AdrRegistry.Expand` | ci/engineering.py:179-182 | one step of the search keeps its invariant or has found a cycle |
| `AdrRegistry.FindCycle` | ci/engineering.py:177-182 | the search terminates and finds a cycle through the id exactly when there is one |
| `AdrRegistry.Validate` | ci/engineering.py:154-182 | accepts exactly when rows are sound, ids unique, references exist, superseded holds exactly for replaced decisions and the relation is acyclic |
| `AdrRegistry.ReplacedByLive` | ci/engineering.py:172-182 | in an accepted registry every superseded decision is reached by a chain of replacements from one still in force |

## Left out

- JSON text, schema typing, SHA-256, Ed25519 and the Ada record codecs (`MC_Checkpoint.Encode`, `MC_Control_Codec`): parameters, or records stored as they are; a canonical form is an injective printer only where a hypothesis says so.
- File descriptors, link counts, owners and modes of private files, mount ids, fsync reordering, flock contention and resource limits: a tree or map of durable contents stands for them.
- The source changing while it is exported or inspected: trees are quiescent, so the re-checks that compare two snapshots never fire.
- The tests for overlapping candidate, source and replica directories: the directories of the model are separate objects.
- Command-line front ends, property files, printing, CI generators, registries, locks and the lineage and capability audits: easy or data only.
- CrashRecovery.CrashSafety: dropping the torn tail before the next append is an assumed action of recovery, also in CrashRecovery.CanFinish; the reference model has no writer.
- ReplicaIndependence.ReplicaOrderIrrelevant: the verdicts are equal only if replicas that return different bytes under one digest are excluded, because a whole-object digest can tell such bytes apart.
- ReplicaIndependence.MoreReplicasNeverHurt: excludes digest collisions for the same reason; for replicas added at the end nothing is excluded.
- Export.ExportReconstructRoundTrip: excludes other bytes under a chunk's digest, and starts from a finished run; that the run finishes is Export.RecoverExport.
- Reconstruct.Reconstruct: replicas answer the same throughout one run, and the error class of an unreadable chunk is a plain string.
- CheckpointStore.Store.Publish: the anchor changes only through requests sent by this protocol; whoever else may write it is not modelled.
- CheckpointStore.Store.AdvanceAnchor: requests still under way are a set, so two identical ones count once.
- ControlStore.Store.Submit: once a state exists, another authority file under the digest of the first one is excluded.
- Command.Run: covers the parent from the fork on; the checks of the executable before it, the child's own system calls and Ada exceptions are not part of it. Interruptions and an early clock do not go on for ever.
- ProcessTree.StopChildren: the list of children is one atomic snapshot, group membership is arbitrary, and nobody but the supervisor reaps its children.
- ProcessTree.Supervise: memory readings, signals and file errors are arbitrary stops; the lock and the signal handlers are left out.
- AdrRegistry.Validate: a row's schema, id pattern, status text and document are one arbitrary predicate.
