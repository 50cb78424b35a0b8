# Verification of the archiver's core

A Dafny model of what the archiver does between listing its sources and deleting them:
copying groups of objects into tar archives, refreshing an archive when late objects
arrive, verifying, writing the list of deletable objects, and cleaning up under a lock
shared by several hosts. Everything here is proved for all inputs and all runs.

Run `dafny verify dfyconfig.toml` with Dafny 4.11.

How the modules fit together:

- **Archiving.** `Manifest`, `Stores` and `CopyTask` define entries, the object stores and
  one copy as a series of atomic store operations. `Membership` is the streaming merge that
  authorises a refresh. `CopyGroup` is the copy of one group as a method; its outcome
  equals that of the atomic steps. `Interleaving` lets one worker per route run at once.
  `ArchiveRun` sequences the phases and decides which entries may be deleted. `Transfer`
  shows that uploads replace an object as a whole, which the other modules take for granted
  of a put.
- **Whole runs.** `NoLoss` runs copies and deletes, request by request, together with
  source changes, crashes, verification, exports and retirement in any order: under a
  discipline of two parts nothing deleted is ever lost. `Losses` shows that both parts are
  needed, `LockedRuns` derives them from the lock, the destination checks and the conduct of
  the runs, `CopyEvents` and `WholeRuns` show that archive runs and cleanup runs are such
  series of events.
- **The manifest.** `ManifestTables` gives the tables and queries their meaning, `Chunking`
  the greedy split, `GroupOrder` the order of groups, `ChunkTable` the pass that computes the
  chunks, `ManifestStore` the store with its drop of oversized chunks, `ManifestFacts` and
  `SizePolicy` what all this keeps.
  `Naming` deals with the text of keys, `RoutePartition` with nested routes, `Listing` with
  the page loops.
- **Cleanup.** `CleanupManifest` is the file format, `Deletion` one checked delete with
  other writers between its requests, `Cleanup` the batched engine, `CleanupFacts` its
  refinement of a one-record loop, `CleanupRuns` what every run accounts for,
  `CleanupRetirement` when a file is retired, and retries.
- **The lock.** `RunLock`, over traces of processes on several hosts.

Code that changes state step by step is a method over a class or a loop, proved equal to a
function of the inputs or of the old state; the lemmas are about that function.

## What the proofs found

- *A drop does not always leave archives within the size limit.*
  `docs/readme-detailed.md` says groups estimated above the limit are skipped. The rebuild after a
  drop packs the remaining objects anew and can merge two neighbours of the dropped chunk
  into an archive above the limit. It cannot exactly when chunks hold one object each, or the
  limit has no room for any object, or it has room for the fullest chunk the other two
  settings permit: `SizePolicy.MergesFit`, by `SizePolicy.DroppingSufficesExactly`. The
  default settings fail it: `SizePolicy.DefaultsCanLeaveOversized`.
- *Batch deletes are taken at their word.* `docs/readme-detailed.md` says every deletion is
  re-checked. The batch path passes on what the response does not list as failed, without
  a second look. What is passed on is gone, on every run, exactly when the service misreports
  no version: it neither accepts a delete without effect nor lists a refusal in an entry
  without a usable key (`CleanupRuns.PassedOnIsGoneExactly`; one object and one record are
  enough, `CleanupRuns.MisreportedIsPassedOn`). Otherwise a manifest can be retired while its
  object is still there: `CleanupRetirement.RetiredMeansGoneExactly`.
- *The check before deleting an unversioned object is safe from concurrent writers exactly
  when* an ETag was recorded and the service honours If-Match (section 13.1.1 of RFC 9110):
  `Deletion.SafeFromPutsExactly`. The fallback for services without it looks once
  more and then deletes unconditionally, and a version written in between is lost:
  `Losses.FallbackLoses`.
- *No deleted version is lost exactly when* no two copies are under way at one address and
  If-Match is honoured: `Losses.NothingLostExactly`. Without the first, a second writer
  replaces a verified archive whose members were deleted already.
- *The lock alone does not give the first.* After a timeout worker threads stay
  behind until the process ends (`_archive_parallel.py:20-34`), while the command line frees
  the lock (`packages/s3_archiver_cli/src/s3_archiver_cli/main.py:256-257`); the next run,
  perhaps on another host, then works at the same addresses. `LockedRuns.NothingLostExactly`:
  traces of runs under the lock lose nothing exactly when runs join their workers before they
  free it, nobody is displaced while at work, and If-Match is honoured;
  `LockedRuns.StragglerLoses` is a trace that loses a version.
- *A cleanup manifest that is valid but not in the writer's own form is never retired*, even
  when everything in it was deleted: `CleanupRetirement.RetiredWhenAllCleaned`.
- *A truncated empty page makes the versioned listing ask for the same page again*, where
  the unversioned one raises. The listing ends exactly when the pages ever have room for all
  versions: `Listing.ListingEndsExactly`.
- *A copy by ranges without version and ETag can mix two contents of its source*; with either
  it cannot: `Transfer.CopiesAreExactExactly`.

## What is assumed

- Canonical JSON rows, SHA-256 and tar bytes are injective; a digest is represented by what
  was digested, and text that is no such digest by itself. The size of a tar or of a
  sidecar is an input.
- A put is atomic and stores what was sent; heads and reads see it. Version ids are never
  reused and an ETag never comes back with another payload. A service refuses a range
  outside an object, and a part whose version or ETag is not the one it names.
- Sidecar keys are apart from archive and direct keys; `Naming.SidecarIsNoArchive` shows it
  for archives. Objects copied directly carry a fingerprint and none of the archive
  metadata. `Address.bucket` stands for the destination identity and bucket together.
- The markers of a truncated page of versions point behind its last item, and after an empty
  one are those that were sent. The versions do not change during the listing.
- All hosts read one clock; a process that dies takes its workers with it.
- The limits for chunks are positive, as the settings reader ensures.
- Which item fails, how far a worker got, when the clock passes the deadline, and which
  requests a service refuses are inputs, universally quantified.

## Model

| member | source | states |
|---|---|---|
| `Membership.ContainsPreviousMembership` | packages/s3_archiver_core/src/s3_archiver_core/archive_membership.py:43-86 | the merge loop with its candidate, running digest and count returns the verdict of the recursive merge, for any lines, including undecodable ones |
| `Membership.PositiveVerdictIsAuthenticated` | packages/s3_archiver_core/src/s3_archiver_core/archive_membership.py:51-86 | a positive verdict gives the rows the recorded digest stands for, in the recorded number, as a strictly ascending subsequence of the new rows |
| `Membership.VerdictIsExact` | packages/s3_archiver_core/src/s3_archiver_core/archive_membership.py:51-86 | for strictly ascending old and new rows with matching digest and count the verdict is positive exactly when every old row is a new row |
| `CopyTask.StepStaysAtAddress` | packages/s3_archiver_core/src/s3_archiver_core/_archive_copy_group.py:45-109 | a step of any copy touches only its own archive or object and that archive's sidecars |
| `CopyTask.StepSeesOwnAddress` | packages/s3_archiver_core/src/s3_archiver_core/_archive_copy_group.py:45-109 | what a step does depends on nothing but the objects at its own address |
| `CopyGroup.WriteTar` | packages/s3_archiver_core/src/s3_archiver_core/archive_tar.py:34-87 | staging reads each listed version under its ETag and size and stops at the first source that changed |
| `CopyGroup.UploadMembership` | packages/s3_archiver_core/src/s3_archiver_core/archive_membership.py:25-40 | the sidecar stored under its digest-addressed key holds exactly the rows of the group |
| `CopyGroup.CopyGroup` | packages/s3_archiver_core/src/s3_archiver_core/_archive_copy_group.py:45-109 | reuse, refuse or refresh: the method ends with the destination and phase of the closed form, with nothing else written |
| `CopyGroup.StagingCompletes` | packages/s3_archiver_core/src/s3_archiver_core/_archive_copy_group.py:68-109 | from any point of staging on, a copy either fails and writes nothing or stores the sidecar and then the archive with all members |
| `CopyGroup.StepsGiveOutcome` | packages/s3_archiver_core/src/s3_archiver_core/_archive_copy_group.py:45-109 | the atomic steps, undisturbed, add up to what the method does, so the crash and interleaving models speak of the same operation |
| `CopyGroup.CopiedGroupsVerify` | packages/s3_archiver_core/src/s3_archiver_core/_archive_copy.py:177-190 | a group that ended well passes the verify phase whatever other groups are copied after it |
| `CopyGroup.RerunWritesNothing` | packages/s3_archiver_core/src/s3_archiver_core/_archive_copy_group.py:53-61 | running the same manifest again after every group was copied writes nothing and ends every group well, even from a changed source |
| `NoLoss.ApplyKeeps` | packages/s3_archiver_core/src/s3_archiver_core/_archive_copy_group.py:45-109 | with one writer at an address, every event (source put, copy step, crash, verify, export, delete request, retire) keeps the invariant, every stored archive row and the remembered versions |
| `NoLoss.RunKeeps` | packages/s3_archiver_core/src/s3_archiver_core/_archive_copy_group.py:45-109 | the same over whole runs |
| `NoLoss.RefreshIsSuperset` | packages/s3_archiver_core/src/s3_archiver_core/archive_group_metadata.py:47-64 | when a refresh is allowed, every row of the archive about to be replaced is a row of the new group |
| `NoLoss.NothingDeletedIsLost` | packages/s3_archiver_core/src/s3_archiver_core/cleanup.py:172-191 | after any run from the empty world in which no address has two copies under way and the deletes are honoured as conditional, with writers between any two requests, every version cleanup deleted is a member of a stored archive with the payload the source held |
| `NoLoss.ArchivesOnlyGrow` | packages/s3_archiver_core/src/s3_archiver_core/_archive_copy_group.py:45-109 | from any point of any run with one writer at an address, no row of a stored archive ever disappears |
| `Losses.TwoWritersLose` | packages/s3_archiver_core/src/s3_archiver_core/_archive_copy_group.py:45-109 | a run from the empty world in which a second copy at one address replaces a verified archive after its member was deleted from the source: the deleted version is in no archive |
| `Losses.FallbackLoses` | packages/s3_archiver_core/src/s3_archiver_core/archive_s3_deletes.py:36-46 | a run with one writer in which a put falls between the second head and the unconditional delete: the new version is deleted and in no archive |
| `Losses.NothingLostExactly` | packages/s3_archiver_core/src/s3_archiver_core/_archive_copy_group.py:45-109 | no run loses a deleted version if and only if both parts of the discipline are kept: one copy at a time at an address, and If-Match honoured |
| `LockedRuns.StartIsAlone` | packages/s3_archiver_core/src/s3_archiver_core/archive.py:38-60 | under the lock and with checked manifests, no other copy is under way at an address where one is started |
| `LockedRuns.LegalKeepsDiscipline` | packages/s3_archiver_core/src/s3_archiver_core/archive_lock.py:32-59 | every trace of several processes that join their workers, are not displaced while at work and delete with If-Match keeps the discipline, as a run of the same store events |
| `LockedRuns.StragglerLoses` | packages/s3_archiver_core/src/s3_archiver_core/_archive_parallel.py:20-34 | workers left behind by a run that freed its lock, or by one that was displaced, can lose a deleted version: a concrete trace with two checked manifests |
| `LockedRuns.NothingLostExactly` | packages/s3_archiver_core/src/s3_archiver_core/_archive_parallel.py:20-34 | of the three parts of the conduct of runs (joining workers before the release, not being displaced at work, If-Match) all are needed and together they suffice for no loss on every trace |
| `CopyEvents.CopyAsEvents` | packages/s3_archiver_core/src/s3_archiver_core/_archive_copy_group.py:45-109 | a copy that runs to its end is a series of events of the whole-run model with the same outcome |
| `WholeRuns.ArchiveRunAsEvents` | packages/s3_archiver_core/src/s3_archiver_core/archive.py:110-138 | an archive run is a series of events that keeps the discipline, and every entry it hands to cleanup is pending at its end |
| `WholeRuns.CleanupAsEvents` | packages/s3_archiver_core/src/s3_archiver_core/cleanup.py:116-152 | what a cleanup run does to the source is a series of checked deletes of pending records |
| `WholeRuns.ArchiveThenCleanup` | packages/s3_archiver_cli/src/s3_archiver_cli/cleanup_commands.py:37-83 | an archive run and the cleanup of what it exported are one such series: no premise is left open between the two |
| `Interleaving.ChecksMeanDistinct` | packages/s3_archiver_core/src/s3_archiver_core/_archive_manifest_destination_checks.py:9-70 | the three collision queries all come back empty exactly when no two pieces of the manifest share a destination address |
| `Interleaving.SchedulesStaySeparate` | packages/s3_archiver_core/src/s3_archiver_core/_archive_copy.py:64-94 | after any schedule of store operations each worker and its share of the destination are as if it had run alone, and the rest is unchanged |
| `Interleaving.CompleteSchedulesAgree` | packages/s3_archiver_core/src/s3_archiver_core/_archive_parallel.py:8-34 | any two schedules that let every worker finish end in the same destination and the same task results |
| `Interleaving.RoutesInTurnComplete` | packages/s3_archiver_core/src/s3_archiver_core/_archive_copy.py:64-94 | running the routes one after the other is such a schedule |
| `Interleaving.InterleavingIsSequential` | packages/s3_archiver_core/src/s3_archiver_core/_archive_copy.py:64-94 | when the checks pass, every complete interleaving ends in the destination and the failures of the sequential run |
| `Naming.ChunkKeysDiffer` | packages/s3_archiver_core/src/s3_archiver_core/_archive_manifest_groups.py:59-65 | two chunks of one archive never get the same key |
| `Naming.ChunkKeysStayArchives` | packages/s3_archiver_core/src/s3_archiver_core/_archive_manifest_groups.py:59-65 | the key of every chunk of a .tar.gz archive ends in .tar.gz |
| `Naming.SidecarIsNoArchive` | packages/s3_archiver_core/src/s3_archiver_core/archive_membership.py:20-22 | the key of a sidecar with a digest of hexadecimal length never is the key of an archive |
| `Naming.SidecarNamesItsArchive` | packages/s3_archiver_core/src/s3_archiver_core/archive_membership.py:20-22 | a sidecar key determines its archive key and digest |
| `Chunking.ArchiveChunkSizer.Add` | packages/s3_archiver_core/src/s3_archiver_core/_archive_manifest_groups.py:50-52 | a sizer that tracks a list of objects tracks the list with one more afterwards, so its overflow test stays the test for that list |
| `Chunking.ArchiveChunkSizer.Reset` | packages/s3_archiver_core/src/s3_archiver_core/_archive_manifest_groups.py:54-56 | whatever it tracked, it tracks the empty list after a chunk was emitted |
| `Chunking.GreedyIsValid` | packages/s3_archiver_core/src/s3_archiver_core/_archive_manifest_group_queries.py:180-209 | the greedy chunks are non-empty, add up to the group and each fit both limits or hold a single object |
| `Chunking.GreedyIsShortest` | packages/s3_archiver_core/src/s3_archiver_core/_archive_manifest_group_queries.py:180-209 | no other contiguous split that meets the limits uses fewer chunks |
| `ChunkTable.ChunkInProgress.Take` | packages/s3_archiver_core/src/s3_archiver_core/_archive_manifest_group_queries.py:204-206 | one more entry in the totals and the running digest of the chunk being filled |
| `ChunkTable.GroupChunks` | packages/s3_archiver_core/src/s3_archiver_core/_archive_manifest_group_queries.py:180-209 | the single pass that fills, emits on overflow and emits the last chunk yields exactly the greedy chunks with their offsets, lengths, keys and digests |
| `ChunkTable.CurrentIsWellPlaced` | packages/s3_archiver_core/src/s3_archiver_core/_archive_manifest_group_queries.py:67-98 | every row of the rebuilt chunk table reads a non-empty slice of its group, and the slices of a group come in order without overlap |
| `ManifestTables.OrderedIsQuery` | packages/s3_archiver_core/src/s3_archiver_core/_archive_manifest_group_queries.py:220-232 | the group query returns exactly the rows of the group, ascending by key and row id |
| `ManifestTables.AscendingUnique` | packages/s3_archiver_core/src/s3_archiver_core/_archive_manifest_group_queries.py:220-232 | that order determines the result: two ascending lists of the same rows are equal |
| `ManifestTables.QueryAfterDelete` | packages/s3_archiver_core/src/s3_archiver_core/_archive_manifest_drop.py:65-89 | deleting rows and then querying is querying and then deleting |
| `ManifestTables.SliceStays` | packages/s3_archiver_core/src/s3_archiver_core/_archive_manifest_drop.py:65-89 | a deletion above a slice leaves the slice as it was |
| `ManifestTables.DeleteConserves` | packages/s3_archiver_core/src/s3_archiver_core/_archive_manifest_drop.py:65-89 | a table is, row by row, what a deletion leaves plus what it takes |
| `ManifestStore.EstimatedArchiveSize` | packages/s3_archiver_core/src/s3_archiver_core/_archive_size_limits.py:50-57 | the estimate computed in a loop is the padded sum of the sizes |
| `GroupOrder.GroupKeysAscend` | packages/s3_archiver_core/src/s3_archiver_core/_archive_manifest_group_queries.py:40-64 | the group query yields exactly the groups that occur, each once, in the order of its columns |
| `ManifestStore.Store.Commit` | packages/s3_archiver_core/src/s3_archiver_core/_archive_manifest_group_queries.py:67-98 | the chunk table is refilled with the greedy chunks of every group, groups in the order of their columns |
| `ManifestStore.Store.DropChunkIfOversized` | packages/s3_archiver_core/src/s3_archiver_core/_archive_manifest_drop.py:65-89 | one chunk moves to the skipped table, or nothing changes, as its current view is oversized or not |
| `ManifestStore.Store.VisitChunks` | packages/s3_archiver_core/src/s3_archiver_core/_archive_manifest_drop.py:31-41 | the chunks are visited from the last to the first over the changing tables |
| `ManifestStore.Store.DropOversizedChunks` | packages/s3_archiver_core/src/s3_archiver_core/_archive_manifest_drop.py:31-45 | the tables end as the closed form of dropping the chunks that were oversized beforehand, and the chunk table is current again |
| `ManifestStore.LowerSliceUnmoved` | packages/s3_archiver_core/src/s3_archiver_core/_archive_manifest_drop.py:31-45 | what is dropped behind a chunk does not move the chunk's own slice |
| `ManifestStore.WalkDropsAsListed` | packages/s3_archiver_core/src/s3_archiver_core/_archive_manifest_drop.py:31-45 | the walk over changing tables drops exactly the chunks that were oversized before it began |
| `ManifestFacts.ViewsAreSlices` | packages/s3_archiver_core/src/s3_archiver_core/_archive_manifest_group_queries.py:240-289 | a lazy chunk view, by iteration and by index from either end, is the slice of the ordered group with rewritten keys, out of range it has nothing, and its digest is the one stored at chunk time |
| `ManifestFacts.ChunkGroupsAreOk` | packages/s3_archiver_core/src/s3_archiver_core/_archive_manifest_group_queries.py:114-136 | the group built from a chunk row records its own digest and count at its own address, as the whole-run model demands |
| `ManifestFacts.ChunksPartitionRows` | packages/s3_archiver_core/src/s3_archiver_core/_archive_manifest_group_queries.py:67-98 | every grouped row is read by exactly one chunk exactly once, and no other row by any |
| `ManifestFacts.DropConserves` | packages/s3_archiver_core/src/s3_archiver_core/_archive_manifest_drop.py:31-89 | the rows before a drop are the rows after it plus those of the oversized chunks, each once, and exactly the latter are added to skipped |
| `ManifestFacts.DroppedWithItsChunk` | packages/s3_archiver_core/src/s3_archiver_core/_archive_manifest_drop.py:31-45 | a row is dropped exactly when its chunk was oversized beforehand |
| `ManifestFacts.GroupKeepsSurvivors` | packages/s3_archiver_core/src/s3_archiver_core/_archive_manifest_drop.py:42-44 | what a group keeps are, in order, the rows of its chunks that were not oversized |
| `ManifestFacts.DropLeavesNoneOversized` | packages/s3_archiver_core/src/s3_archiver_core/_archive_manifest_drop.py:42-44 | under settings that leave room for the fullest chunk, no rebuilt chunk is oversized after a drop |
| `SizePolicy.MergesFitExactly` | packages/s3_archiver_core/src/s3_archiver_core/_archive_size_limits.py:20-57 | two pieces within the limit never merge to one above it if and only if an inequality between the three settings holds |
| `SizePolicy.DroppingSufficesExactly` | packages/s3_archiver_core/src/s3_archiver_core/_archive_manifest_drop.py:31-45 | a drop and rebuild leaves every chunk within the limit, for all groups, if and only if that inequality holds |
| `SizePolicy.DefaultsCanLeaveOversized` | packages/s3_archiver_core/src/s3_archiver_core/_archive_size_limits.py:20-57 | with the default limits a drop can leave an oversized archive: a concrete group of three source objects that are each within the limit |
| `CleanupManifest.WriteCleanupManifest` | packages/s3_archiver_core/src/s3_archiver_core/cleanup_manifest.py:63-92 | one line per record and a footer with count and digest |
| `CleanupManifest.ValidateCleanupManifest` | packages/s3_archiver_core/src/s3_archiver_core/cleanup_manifest.py:95-111 | the loop accepts exactly the well-formed files and returns their summary; every other file raises |
| `CleanupManifest.IterCleanupRecords` | packages/s3_archiver_core/src/s3_archiver_core/cleanup_manifest.py:114-125 | iterating a valid file yields its records in order |
| `CleanupManifest.WrittenReadsBack` | packages/s3_archiver_core/src/s3_archiver_core/cleanup_manifest.py:63-125 | writing any records, then validating and iterating, gives back the summary and the records |
| `CleanupManifest.PrefixesAreRejected` | packages/s3_archiver_core/src/s3_archiver_core/cleanup_manifest.py:182-197 | every proper line prefix of a written manifest is rejected, but for the one without lines, which reads as empty |
| `CleanupManifest.ExtensionsAreRejected` | packages/s3_archiver_core/src/s3_archiver_core/cleanup_manifest.py:182-197 | every written manifest with further lines behind it is rejected |
| `CleanupManifest.SummaryFixesRecords` | packages/s3_archiver_core/src/s3_archiver_core/cleanup_manifest.py:182-197 | two valid files with equal digests hold the same records |
| `Cleanup.RemoteSource.DeleteOne` | packages/s3_archiver_core/src/s3_archiver_core/cleanup.py:172-191 | check, delete and head again, with the store and the failure each branch leaves |
| `Cleanup.RemoteSource.DeleteSerially` | packages/s3_archiver_core/src/s3_archiver_core/cleanup.py:230-241 | the serial fallback, record by record, with failures by key and version |
| `Cleanup.RemoteSource.SendDeletes` | packages/s3_archiver_core/src/s3_archiver_core/archive_s3_deletes.py:49-73 | the batch request: what the service lists in its answer, and what is gone afterwards |
| `Cleanup.ResponseFailures` | packages/s3_archiver_core/src/s3_archiver_core/archive_s3_deletes.py:112-131 | reading the answer: entries without a key are passed over, the others fail their key and version |
| `Cleanup.RemoteSource.DeleteBatch` | packages/s3_archiver_core/src/s3_archiver_core/cleanup.py:211-227 | the batch call answers and its answer is read, or it is not implemented, or it breaks half way |
| `Cleanup.Generator.FlushBatch` | packages/s3_archiver_core/src/s3_archiver_core/cleanup.py:198-208 | a flush passes on or fails every pending record in order and empties the batch |
| `Cleanup.Generator.TakeRecord` | packages/s3_archiver_core/src/s3_archiver_core/cleanup.py:129-149 | routing failure, route switch, full batch and single delete for one record |
| `Cleanup.Generator.VerifiedDeletions` | packages/s3_archiver_core/src/s3_archiver_core/cleanup.py:116-152 | the generator over a whole manifest, with a timeout before any record, ends as the fold over its records |
| `CleanupFacts.SerialOutcome` | packages/s3_archiver_core/src/s3_archiver_core/cleanup.py:230-241 | what the serial fallback leaves and reports is, for each record, what its own delete would |
| `CleanupFacts.FlushIsOneByOne` | packages/s3_archiver_core/src/s3_archiver_core/cleanup.py:198-227 | flushing a batch of one route equals deleting its records one by one when the batch API reports as single deletes do |
| `CleanupFacts.BatchedRefinesOneByOne` | packages/s3_archiver_core/src/s3_archiver_core/cleanup.py:116-152 | without a timeout the batched generator equals the one-record loop; with one it equals it up to some record, and the rest is a batch neither deleted nor passed on nor reported |
| `CleanupRuns.GenerateAccountsForAll` | packages/s3_archiver_core/src/s3_archiver_core/cleanup.py:116-191 | whatever the service does: what is passed on is a subsequence of the manifest, passed plus failed is the total without a timeout, what was passed on is gone but for what the batch API misreported, and only objects named and matched by routed records disappear |
| `CleanupRuns.PassedOnIsGoneExactly` | packages/s3_archiver_core/src/s3_archiver_core/cleanup.py:198-227 | for a given service, every run leaves gone what it passed on if and only if the batch API misreports no version |
| `CleanupRetirement.CleanManifest` | packages/s3_archiver_core/src/s3_archiver_core/cleanup.py:88-113 | one manifest: its deletions, the second manifest and the comparison that retires it |
| `CleanupRetirement.RunCleanup` | packages/s3_archiver_core/src/s3_archiver_core/cleanup.py:58-85 | all manifests are validated before the first delete; then they are cleaned in order, empty ones skipped |
| `CleanupRetirement.RetiredWhenAllCleaned` | packages/s3_archiver_core/src/s3_archiver_core/cleanup.py:88-113 | a manifest is retired exactly when every record was passed on and its lines have the canonical form |
| `CleanupRetirement.WrittenIsCanonical` | packages/s3_archiver_core/src/s3_archiver_core/cleanup_manifest.py:223-261 | every written manifest has that form |
| `CleanupRetirement.RetiredMeansGoneExactly` | packages/s3_archiver_core/src/s3_archiver_core/cleanup.py:88-113 | a retired manifest means that all its objects are gone, on every run, under exactly the same condition on the service |
| `CleanupRetirement.RetryRetires` | packages/s3_archiver_core/src/s3_archiver_core/cleanup.py:172-191 | from any source in which each record finds its object or finds it gone, whatever happened before, a run whose deletes all succeed passes on every record and retires the file |
| `CleanupRetirement.PartialRunsStayCleanable` | packages/s3_archiver_core/src/s3_archiver_core/cleanup.py:116-191 | an earlier run of any outcome, timeouts and refusals included, leaves such a source |
| `Deletion.UndisturbedIsDeleteAndVerify` | packages/s3_archiver_core/src/s3_archiver_core/archive_s3_deletes.py:21-46 | the requests of a checked delete, undisturbed, add up to the delete of the cleanup engine |
| `Deletion.SafeFromPutsExactly` | packages/s3_archiver_core/src/s3_archiver_core/archive_s3_deletes.py:21-46 | with puts between its requests, a check and delete of an unversioned object never removes a changed one if and only if an ETag was recorded and If-Match is honoured |
| `ArchiveRun.Work` | packages/s3_archiver_core/src/s3_archiver_core/_archive_copy.py:174-206 | a worker's items split into those that passed and one failure for each of the others |
| `ArchiveRun.RunPhase` | packages/s3_archiver_core/src/s3_archiver_core/_archive_parallel.py:8-34 | one worker per route; failures in order of arrival, a timeout entry when a worker is missing, nothing at all run after the deadline |
| `ArchiveRun.TakeCopied` | packages/s3_archiver_core/src/s3_archiver_core/_archive_copy.py:64-94 | what workers that finished or were still under way marked as copied, route by route |
| `ArchiveRun.TakeRecorded` | packages/s3_archiver_core/src/s3_archiver_core/_archive_copy.py:174-206 | what they recorded for cleanup, a group that was under way at the deadline up to any of its entries |
| `ArchiveRun.RunArchive` | packages/s3_archiver_core/src/s3_archiver_core/archive.py:38-141 | which runs have cleanup entries and which; a run that is fine has every entry of the manifest in it, as often as in the manifest; what is exported never is the fallback |
| `ArchiveRun.CleanupOnlyOfVerified` | packages/s3_archiver_core/src/s3_archiver_core/archive.py:110-138 | also in a failed run an entry reaches cleanup only with an item that passed both copy and verify |
| `ArchiveRun.FineRunsCleanEverything` | packages/s3_archiver_core/src/s3_archiver_core/archive.py:110-138 | phases without failures verify every entry exactly once |
| `ArchiveRun.FinePhasePassesAll` | packages/s3_archiver_core/src/s3_archiver_core/_archive_parallel.py:20-34 | a phase without failures finished and passed every queue in full |
| `ArchiveRun.WriteResultManifest` | packages/s3_archiver_cli/src/s3_archiver_cli/cleanup_commands.py:65-83 | a file is written exactly when there are entries to clean, and validates |
| `RunLock.FileArchiveRunLock.Acquire` | packages/s3_archiver_core/src/s3_archiver_core/archive_lock.py:32-50 | install, or take over a stale lock and install; the second attempt succeeds whenever the takeover did |
| `RunLock.FileArchiveRunLock.TakeOver` | packages/s3_archiver_core/src/s3_archiver_core/archive_lock.py:61-69 | a stale lock that can be renamed is gone afterwards, any other stays |
| `RunLock.FileArchiveRunLock.Release` | packages/s3_archiver_core/src/s3_archiver_core/archive_lock.py:52-59 | removes the lock only of the run that asks; a file that cannot be renamed stays |
| `RunLock.LiveLockIsStaleWhenExposed` | packages/s3_archiver_core/src/s3_archiver_core/archive_lock.py:88-101 | the lock of a live process is stale to an acquirer exactly when it is past the timeout or recovered from another host |
| `RunLock.SafeHoldersHaveTheLock` | packages/s3_archiver_core/src/s3_archiver_core/archive_lock.py:32-59 | after any trace of several hosts and processes, from any file at the start, a live holder nobody found stale still has its lock, and there is at most one |
| `RunLock.DisplacedExactly` | packages/s3_archiver_core/src/s3_archiver_core/archive_lock.py:61-101 | an acquire displaces a live owner if and only if the lock is past its timeout or recovered from another host, and the file can be moved |
| `RunLock.ReleaseRemovesOwnLockOnly` | packages/s3_archiver_core/src/s3_archiver_core/archive_lock.py:52-59 | a release, however late, never removes a successor's lock |
| `RunLock.QuietTracesDisplaceNobody` | packages/s3_archiver_core/src/s3_archiver_core/archive_lock.py:88-101 | before the timeout and with unknown-host recovery off every live holder has its lock |
| `RoutePartition.PrefixesAreNormal` | packages/s3_archiver_core/src/s3_archiver_core/_archive_manifest_paths.py:6-57 | both ways of forming a prefix agree, repeat without effect, and end in a slash |
| `RoutePartition.ValidateRouteStorage` | packages/s3_archiver_core/src/s3_archiver_core/_route_validation.py:27-64 | rejects exactly the configurations with equal storages or equal paths, and reports the first in reading order |
| `RoutePartition.RouteExclusionPrefixes` | packages/s3_archiver_core/src/s3_archiver_core/_archive_route_manifest.py:191-210 | each route gets the prefixes of exactly the routes nested in it on its storage, in order |
| `RoutePartition.ListRoute` | packages/s3_archiver_core/src/s3_archiver_core/_archive_manifest_builder.py:73-79 | the two filters of the listing loop |
| `RoutePartition.Streamer.StreamRoutes` | packages/s3_archiver_core/src/s3_archiver_core/_archive_route_manifest.py:132-178 | batched inserts store every selected or skipped object once and in order |
| `RoutePartition.PassesExactlyClosest` | packages/s3_archiver_core/src/s3_archiver_core/_archive_manifest_builder.py:73-79 | a key passes the filters of exactly the routes that cover it with the longest prefix on the storage |
| `RoutePartition.OneRoutePerKeyExactly` | packages/s3_archiver_core/src/s3_archiver_core/_route_validation.py:44-54 | no key passes on two routes of a storage if and only if their paths are distinct |
| `RoutePartition.ValidRoutesShareNothing` | packages/s3_archiver_core/src/s3_archiver_core/_route_validation.py:44-64 | configurations that pass validation meet that condition |
| `RoutePartition.NestedRoutesPartition` | packages/s3_archiver_core/src/s3_archiver_core/_archive_route_manifest.py:104-178 | each stored key that some route covers is selected exactly once, on the closest route, and no other key is; the duplicate-source check cannot fire |
| `Transfer.MultipartChunkSize` | packages/s3_archiver_core/src/s3_archiver_core/s3_transfer.py:270-271 | the chunk is at least 8 MiB and 10,000 of them hold the object |
| `Transfer.MultipartTiles` | packages/s3_archiver_core/src/s3_archiver_core/s3_transfer.py:136-153 | for every size above zero the ranges tile the object in order in at most 10,000 parts, and no smaller permitted chunk size would |
| `Transfer.RangesAreConsecutivePieces` | packages/s3_archiver_core/src/s3_archiver_core/s3_transfer.py:138-153 | the ranges cut an object into the same pieces as reading it chunk by chunk |
| `Transfer.UploadFileParts` | packages/s3_archiver_core/src/s3_archiver_core/s3_multipart_parts.py:18-48 | the window: at most four parts pending, the list numbered in order, a failing part stops reading at most three parts later |
| `Transfer.UploadFile` | packages/s3_archiver_core/src/s3_archiver_core/s3_transfer.py:94-121 | an upload replaces the object by the whole file or leaves it as it was, also when the answer to its last request is lost, and a failed one leaves no parts when it can be aborted |
| `Transfer.CopyParts` | packages/s3_archiver_core/src/s3_archiver_core/s3_multipart_parts.py:51-59 | batches of four, the list numbered in order, a batch sent in full before its first failure is raised |
| `Transfer.MultipartCopy` | packages/s3_archiver_core/src/s3_archiver_core/s3_transfer.py:124-157 | a copy by ranges stores what its parts read, whole, or leaves the destination as it was; tags that fail afterwards do not undo it |
| `Transfer.CopiesAreExactExactly` | packages/s3_archiver_core/src/s3_archiver_core/s3_transfer.py:138-151 | whatever happens to the source meanwhile, a copy of all parts is the content it began with if and only if the parts name a version or are conditional on an ETag |
| `Listing.ListUnversioned` | packages/s3_archiver_core/src/s3_archiver_core/archive_s3.py:218-235 | terminates for any page sizes and a bucket changing between pages; keys come once and in order; every key there all along is listed, or a truncated empty page raised |
| `Listing.SteadyListingIsExact` | packages/s3_archiver_core/src/s3_archiver_core/archive_s3.py:218-235 | of a bucket that does not change the listing is exactly the keys under the prefix |
| `Listing.ListVersioned` | packages/s3_archiver_core/src/s3_archiver_core/archive_s3.py:237-255 | whenever the pages have room for all versions at some point, empty ones included, the listing is the latest versions, in order, after the first request by which they do |
| `Listing.LatestAreUnique` | packages/s3_archiver_core/src/s3_archiver_core/archive_s3.py:237-255 | each key whose latest version is not a delete marker comes once, in ascending order |
| `Listing.ListingEndsExactly` | packages/s3_archiver_core/src/s3_archiver_core/archive_s3.py:237-255 | the versioned listing is over by a request if and only if the pages up to it have room for all versions, so it ends if and only if they ever do |

## Left out

- NoLoss.NothingDeletedIsLost: speaks of tar-mode routes; direct copies replace an older copy of the same key on purpose (`_archive_copy.py:223-230`), so their deletes appear as ordinary source removals.
- Interleaving.InterleavingIsSequential: is about runs without timeouts; what workers do that are left behind by one is in `NoLoss` and `LockedRuns`.
- ArchiveRun.RunArchive: cleanup entries come route by route here and in order of recording in the code (`archive.py:110-138`); its claims are about which entries there are.
- ArchiveRun.RunPhase: what copying or checking one item comes to is an input here; `CopyGroup` and `CopyTask` have it.
- Cleanup.RemoteSource.DeleteBatch: a request of at most 1,000 records is one call (`archive_s3_deletes.py:49-73`); a service refuses the same objects one by one and in a batch.
- SizePolicy.DroppingSufficesExactly: ranges over groups with objects of every size; a lower cap on source objects can only rule some of them out.
- Listing.ListVersioned: an identifier of "null", which the code maps to no version (`_archive_s3_helpers.py:173-177`), is not told apart from others.
- RoutePartition.Streamer.StreamRoutes: the routes' listings are at hand before the first insert, where the code draws from generators; parsing is an arbitrary predicate.
- Transfer.UploadFileParts: a part in flight takes effect when it is sent; parts still under way after a failure differ only in what an abort then discards.
- CopyTask.StepStaysAtAddress: for direct copies the comparison of headers, tags and checksums and the probe for temporary space are not modelled, only the fingerprint and the size.
- Deletion.SafeFromPutsExactly: a head whose answer is lost counts as a head that fails.
- Streaming uploads of unknown read lengths (`s3_transfer.py:160-196`): one sequential loop, part of no other claim.
- Recovery of already archived entries outside a run, the archive tools of the command line, and extraction.
- Parsers, calendar ranges and the daily schedule: the parser is any function, and dates are opaque text.
- SQLite, files, threads and sockets themselves: tables are sequences, a query is its meaning, a thread is a series of store operations.
- Settings, logging, progress, health checks and the bucket whitelist: single-branch plumbing.
