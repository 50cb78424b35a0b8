/**
 The copy of one archive group or of one direct object, cut into the atomic store
 operations it performs. A task in flight is a value; `TaskStep` performs its next
 operation. Runs, crashes and interleavings are all built from this one step.
 */
module CopyTask {
  import opened Wrappers
  import opened Manifest
  import opened Membership
  import opened Stores

  const SCHEMA_VERSION := "2"

  /** One archive to be: the entries of a chunk and what the manifest store recorded of it. */
  datatype Group = Group(
    address: Address,
    targetDay: string,
    entries: seq<Entry>,
    recordedSha: Option<Digest>,
    recordedCount: Option<nat>)

  /** Where the copy of a group stands; `size` is the byte count of the staged tar file. */
  datatype Phase =
    | Starting
    | Comparing(existing: Metadata)
    | Staging(members: seq<Member>)
    | PublishingSidecar(members: seq<Member>)
    | CheckingSidecar(members: seq<Member>)
    | ReplacingArchive(members: seq<Member>)
    | ConfirmingArchive(members: seq<Member>)
    | Hydrated
    | PuttingObject
    | ConfirmingObject
    | Done
    | Failed(reason: string)

  /** `tarSize` and `sidecarSize` are the byte counts compression happens to give. */
  datatype Work =
    | Archive(group: Group, tarSize: nat, sidecarSize: nat)
    | DirectCopy(entry: Entry)

  datatype Task = Task(work: Work, phase: Phase)

  function AddressOf(work: Work): Address {
    match work
    case Archive(group, _, _) => group.address
    case DirectCopy(entry) => Address(entry.destinationBucket, entry.destinationKey)
  }

  // ----- Metadata of an archive -----

  function ManifestSha(group: Group): Digest {
    if group.recordedSha.Some? && group.recordedSha.value != Text("")
    then group.recordedSha.value
    else OfRows(RowsOf(group.entries))
  }

  function SourceCount(group: Group): nat {
    if group.recordedCount.Some? && group.recordedCount.value != 0
    then group.recordedCount.value
    else |group.entries|
  }

  function GroupMetadata(group: Group): Metadata {
    NO_METADATA.(manifestSha := Some(ManifestSha(group)),
                 targetDay := Some(group.targetDay),
                 sourceCount := Some(SourceCount(group)),
                 schemaVersion := Some(SCHEMA_VERSION))
  }

  function SidecarKey(group: Group): DestKey {
    MembersOf(group.address, ManifestSha(group))
  }

  function UploadMetadata(group: Group, members: seq<Member>, tarSize: nat): Metadata {
    GroupMetadata(group).(archiveSha := Some(members),
                          archiveSize := Some(tarSize),
                          membershipKey := Some(SidecarKey(group)))
  }

  predicate FieldMatches<T(==)>(existing: Option<T>, expected: Option<T>) {
    expected.None? || existing == expected
  }

  /** Every entry of the expected metadata is present with the same value. */
  predicate MetadataMatches(existing: Metadata, expected: Metadata) {
    && FieldMatches(existing.manifestSha, expected.manifestSha)
    && FieldMatches(existing.targetDay, expected.targetDay)
    && FieldMatches(existing.sourceCount, expected.sourceCount)
    && FieldMatches(existing.schemaVersion, expected.schemaVersion)
    && FieldMatches(existing.archiveSha, expected.archiveSha)
    && FieldMatches(existing.archiveSize, expected.archiveSize)
    && FieldMatches(existing.membershipKey, expected.membershipKey)
    && FieldMatches(existing.fingerprint, expected.fingerprint)
  }

  predicate SizeMatches(found: DestObject) {
    found.metadata.archiveSize.None? || found.metadata.archiveSize == Some(found.size)
  }

  predicate Reusable(found: DestObject, group: Group) {
    && SizeMatches(found)
    && MetadataMatches(found.metadata, GroupMetadata(group))
    && found.metadata.archiveSha.Some?
  }

  function RecordedSha(existing: Metadata): Digest {
    if existing.manifestSha.Some? then existing.manifestSha.value else Text("")
  }

  /** May the archive described by `existing` be replaced by `group`? */
  function Refreshable(dest: DestStore, existing: Metadata, group: Group): Result<bool, string> {
    var sidecar := MembersOf(group.address, RecordedSha(existing));
    if existing.schemaVersion != Some(SCHEMA_VERSION) || existing.archiveSha.None?
       || existing.targetDay != Some(group.targetDay)
    then Ok(false)
    else if existing.membershipKey != Some(sidecar) then Ok(false)
    else if sidecar !in dest || !dest[sidecar].body.Sidecar? then Err("unreadable membership sidecar")
    else Contains(dest[sidecar].body.lines, RowsOf(group.entries), RecordedSha(existing), existing.sourceCount)
  }

  // ----- Staging -----

  /** The next member: a conditional read that has to deliver exactly the listed size. */
  function StageEntry(source: SourceStore, e: Entry): Result<Member, string> {
    if (e.versionId.None? || e.versionId == Some("null")) && (e.etag.None? || e.etag == Some(""))
    then Err("unversioned source has no ETag")
    else
      var payload := Read(source, SlotOf(e), e.etag);
      if payload.None? then Err("source unreadable")
      else if |payload.value| != e.size then Err("source size differs from listing")
      else Ok(Member(RowOf(e), payload.value))
  }

  // ----- Direct copies -----

  function FingerprintOf(e: Entry): Fingerprint {
    Fingerprint(e.sourceBucket, e.sourceIdentity, e.key, e.size, e.versionId, e.etag)
  }

  predicate DirectVerified(e: Entry, found: DestObject) {
    found.metadata.fingerprint == Some(FingerprintOf(e)) && found.size == e.size
  }

  predicate DirectRefreshable(e: Entry, found: DestObject) {
    && found.metadata.fingerprint.Some?
    && var f := found.metadata.fingerprint.value;
       f.bucket == e.sourceBucket && f.identity == e.sourceIdentity && f.key == e.key
  }

  // ----- One operation -----

  function ArchiveStep(source: SourceStore, dest: DestStore, group: Group, tarSize: nat, sidecarSize: nat, phase: Phase)
    : (DestStore, Phase)
  {
    var key := At(group.address);
    match phase
    case Starting =>
      if key !in dest then (dest, Staging([]))
      else if Reusable(dest[key], group) then (dest, Done)
      else (dest, Comparing(dest[key].metadata))
    case Comparing(existing) =>
      (match Refreshable(dest, existing, group)
       case Err(reason) => (dest, Failed(reason))
       case Ok(allowed) => (dest, if allowed then Staging([]) else Failed("archive verification failed")))
    case Staging(members) =>
      if |members| >= |group.entries| then (dest, PublishingSidecar(members))
      else
        (match StageEntry(source, group.entries[|members|])
         case Err(reason) => (dest, Failed(reason))
         case Ok(member) => (dest, Staging(members + [member])))
    case PublishingSidecar(members) =>
      (dest[SidecarKey(group) := DestObject(NO_METADATA, Sidecar(LinesOf(RowsOf(group.entries))), sidecarSize)],
       CheckingSidecar(members))
    case CheckingSidecar(members) =>
      if SidecarKey(group) !in dest || dest[SidecarKey(group)].size != sidecarSize
      then (dest, Failed("membership upload size mismatch"))
      else (dest, ReplacingArchive(members))
    case ReplacingArchive(members) =>
      (dest[key := DestObject(UploadMetadata(group, members, tarSize), Tar(members), tarSize)],
       ConfirmingArchive(members))
    case ConfirmingArchive(members) =>
      if key !in dest then (dest, Failed("destination missing"))
      else if dest[key].size != tarSize then (dest, Failed("archive size mismatch"))
      else if MetadataMatches(dest[key].metadata, UploadMetadata(group, members, tarSize)) then (dest, Done)
      else (dest, Failed("archive verification failed"))
    case _ => (dest, phase)
  }

  function DirectStep(source: SourceStore, dest: DestStore, e: Entry, phase: Phase): (DestStore, Phase) {
    var key := At(Address(e.destinationBucket, e.destinationKey));
    match phase
    case Starting =>
      if SlotOf(e) !in source then (dest, Failed("listed source object disappeared before copy"))
      else (dest, Hydrated)
    case Hydrated =>
      if key !in dest then (dest, PuttingObject)
      else if DirectVerified(e, dest[key]) then (dest, Done)
      else if DirectRefreshable(e, dest[key]) then (dest, PuttingObject)
      else (dest, Failed("remove conflicting destination"))
    case PuttingObject =>
      (match Read(source, SlotOf(e), None)
       case None => (dest, Failed("source unreadable"))
       case Some(payload) =>
         (dest[key := DestObject(NO_METADATA.(fingerprint := Some(FingerprintOf(e))), Plain(payload), |payload|)],
          ConfirmingObject))
    case ConfirmingObject =>
      if key !in dest then (dest, Failed("destination missing"))
      else if DirectVerified(e, dest[key]) then (dest, Done)
      else (dest, Failed("destination does not match source"))
    case _ => (dest, phase)
  }

  function TaskStep(source: SourceStore, dest: DestStore, task: Task): (DestStore, Task) {
    match task.work
    case Archive(group, tarSize, sidecarSize) =>
      var (dest', phase') := ArchiveStep(source, dest, group, tarSize, sidecarSize, task.phase);
      (dest', task.(phase := phase'))
    case DirectCopy(e) =>
      var (dest', phase') := DirectStep(source, dest, e, task.phase);
      (dest', task.(phase := phase'))
  }

  // ----- What a step can touch and what it can see -----

  ghost predicate SameElsewhere(before: DestStore, after: DestStore, address: Address) {
    forall key: DestKey :: key.address != address ==> SameKey(before, after, key)
  }

  lemma ArchiveStepStays(source: SourceStore, dest: DestStore, g: Group, tarSize: nat, sidecarSize: nat, phase: Phase)
    ensures SameElsewhere(dest, ArchiveStep(source, dest, g, tarSize, sidecarSize, phase).0, g.address)
  {
    assert SidecarKey(g).address == At(g.address).address == g.address;
  }

  lemma DirectStepStays(source: SourceStore, dest: DestStore, e: Entry, phase: Phase)
    ensures SameElsewhere(dest, DirectStep(source, dest, e, phase).0, Address(e.destinationBucket, e.destinationKey))
  {
  }

  /** A task writes only keys of its own address. */
  lemma StepStaysAtAddress(source: SourceStore, dest: DestStore, task: Task)
    ensures SameElsewhere(dest, TaskStep(source, dest, task).0, AddressOf(task.work))
    ensures TaskStep(source, dest, task).1.work == task.work
  {
    match task.work
    case Archive(g, tarSize, sidecarSize) => ArchiveStepStays(source, dest, g, tarSize, sidecarSize, task.phase);
    case DirectCopy(e) => DirectStepStays(source, dest, e, task.phase);
  }

  /** Two stores hold the same objects at the keys of an address. */
  ghost predicate SameAt(left: DestStore, right: DestStore, address: Address) {
    forall key: DestKey :: key.address == address ==> SameKey(left, right, key)
  }

  predicate SameKey(left: DestStore, right: DestStore, key: DestKey) {
    (key in left <==> key in right) && (key in left ==> left[key] == right[key])
  }

  lemma RefreshableSeesOwnAddress(left: DestStore, right: DestStore, existing: Metadata, g: Group)
    requires SameAt(left, right, g.address)
    ensures Refreshable(left, existing, g) == Refreshable(right, existing, g)
  {
    assert SameKey(left, right, MembersOf(g.address, RecordedSha(existing)));
  }

  lemma ArchiveStepSees(source: SourceStore, left: DestStore, right: DestStore, g: Group, tarSize: nat,
                        sidecarSize: nat, phase: Phase)
    requires SameAt(left, right, g.address)
    ensures ArchiveStep(source, left, g, tarSize, sidecarSize, phase).1
         == ArchiveStep(source, right, g, tarSize, sidecarSize, phase).1
    ensures SameAt(ArchiveStep(source, left, g, tarSize, sidecarSize, phase).0,
                   ArchiveStep(source, right, g, tarSize, sidecarSize, phase).0, g.address)
  {
    assert SameKey(left, right, At(g.address)) && SameKey(left, right, SidecarKey(g));
    if phase.Comparing? {
      RefreshableSeesOwnAddress(left, right, phase.existing, g);
    }
  }

  lemma DirectStepSees(source: SourceStore, left: DestStore, right: DestStore, e: Entry, phase: Phase)
    requires SameAt(left, right, Address(e.destinationBucket, e.destinationKey))
    ensures DirectStep(source, left, e, phase).1 == DirectStep(source, right, e, phase).1
    ensures SameAt(DirectStep(source, left, e, phase).0, DirectStep(source, right, e, phase).0,
                   Address(e.destinationBucket, e.destinationKey))
  {
    assert SameKey(left, right, At(Address(e.destinationBucket, e.destinationKey)));
  }

  /** What a task does depends only on the keys of its own address. */
  lemma StepSeesOwnAddress(source: SourceStore, left: DestStore, right: DestStore, task: Task)
    requires SameAt(left, right, AddressOf(task.work))
    ensures TaskStep(source, left, task).1 == TaskStep(source, right, task).1
    ensures SameAt(TaskStep(source, left, task).0, TaskStep(source, right, task).0, AddressOf(task.work))
  {
    match task.work
    case Archive(g, tarSize, sidecarSize) => ArchiveStepSees(source, left, right, g, tarSize, sidecarSize, task.phase);
    case DirectCopy(e) => DirectStepSees(source, left, right, e, task.phase);
  }

  // ----- Running a task to its end -----

  /** An upper bound on the steps a task still has to take; 0 when it takes no more. */
  function Rank(task: Task): nat {
    match task.work
    case Archive(group, _, _) =>
      (match task.phase
       case Starting => 7 + |group.entries|
       case Comparing(_) => 6 + |group.entries|
       case Staging(members) => 5 + if |members| <= |group.entries| then |group.entries| - |members| else 0
       case PublishingSidecar(_) => 4
       case CheckingSidecar(_) => 3
       case ReplacingArchive(_) => 2
       case ConfirmingArchive(_) => 1
       case _ => 0)
    case DirectCopy(_) =>
      (match task.phase
       case Starting => 4
       case Hydrated => 3
       case PuttingObject => 2
       case ConfirmingObject => 1
       case _ => 0)
  }

  lemma ArchiveStepDescends(source: SourceStore, dest: DestStore, work: Work, phase: Phase)
    requires work.Archive? && Rank(Task(work, phase)) > 0
    ensures var next := ArchiveStep(source, dest, work.group, work.tarSize, work.sidecarSize, phase).1;
            Rank(Task(work, next)) < Rank(Task(work, phase))
  {
  }

  lemma StepDescends(source: SourceStore, dest: DestStore, task: Task)
    requires Rank(task) > 0
    ensures Rank(TaskStep(source, dest, task).1) < Rank(task)
  {
    if task.work.Archive? {
      ArchiveStepDescends(source, dest, task.work, task.phase);
    }
  }

  function Complete(source: SourceStore, dest: DestStore, task: Task): (DestStore, Task)
    decreases Rank(task)
  {
    if Rank(task) == 0 then (dest, task)
    else
      StepDescends(source, dest, task);
      var (dest', task') := TaskStep(source, dest, task);
      Complete(source, dest', task')
  }
}
