/**
 Whole runs: sources changing at any time, archive runs that may crash between any two
 store operations, cleanup runs. Nothing cleanup deletes from a tar-mode route is lost.
 */
module NoLoss {
  import opened Wrappers
  import opened Manifest
  import opened Membership
  import opened Stores
  import opened CopyTask
  import opened Deletion
  import Cleanup
  import CopyGroup

  /** An exact source version: its slot and the ETag it carried there. */
  datatype Version = Version(slot: Slot, etag: Option<string>)

  /** Who performs a copy: a run, and the piece of its manifest. */
  datatype Ticket = Ticket(run: string, piece: nat)

  datatype World = World(
    source: SourceStore,
    dest: DestStore,
    tasks: map<Ticket, Task>,        // copies in flight, of any runs
    verified: set<Group>,            // groups that passed copy and verify, not yet exported
    pending: set<CleanupRecord>,     // records of the cleanup manifests on disk
    attempts: map<nat, Attempt>,     // deletes in flight
    history: map<Version, Payload>,  // every identified version a source ever held
    deleted: set<Version>)           // the versions cleanup removed

  const EMPTY_WORLD := World(map[], map[], map[], {}, {}, map[], map[], {})

  datatype Event =
    | SourcePut(slot: Slot, content: SourceObject)
    | SourceRemove(slot: Slot)
    | Start(ticket: Ticket, work: Work)
    | Step(ticket: Ticket)
    | Crash(ticket: Ticket)
    | Verify(ticket: Ticket)
    | Export(group: Group)
    | Forget(group: Group)
    | StartDelete(id: nat, record: CleanupRecord)
    | DeleteStep(id: nat, service: Cleanup.Service)
    | StopDelete(id: nat)
    | Retire(records: set<CleanupRecord>)

  // ----- Guards -----

  predicate Identified(slot: Slot, etag: Option<string>) {
    slot.version.Some? || etag.Some?
  }

  /** A version id is never reused, and an ETag never comes back with another payload. */
  ghost predicate Admissible(history: map<Version, Payload>, slot: Slot, content: SourceObject) {
    var v := Version(slot, content.etag);
    && (v in history ==> history[v] == content.payload)
    && (slot.version.Some? ==> forall u :: u in history && u.slot == slot ==> u == v)
  }

  /** The digest recorded at chunk time is the digest of the entries, rewritten to this address. */
  predicate GroupOk(g: Group) {
    && ManifestSha(g) == OfRows(RowsOf(g.entries))
    && forall e :: e in g.entries ==>
         e.destinationArchiveKey == g.address.name && e.destinationBucket == g.address.bucket
  }

  predicate WorkOk(work: Work) {
    work.Archive? ==> GroupOk(work.group)
  }

  function RecordsOf(g: Group): set<CleanupRecord> {
    set e | e in g.entries :: RecordOf(e)
  }

  // ----- Events -----

  function VersionAt(source: SourceStore, slot: Slot): Version
    requires slot in source
  {
    Version(slot, source[slot].etag)
  }

  ghost function Apply(w: World, event: Event): World {
    match event
    case SourcePut(slot, content) =>
      if !Admissible(w.history, slot, content) then w
      else
        w.(source := w.source[slot := content],
           history := if Identified(slot, content.etag)
                      then w.history[Version(slot, content.etag) := content.payload]
                      else w.history)
    case SourceRemove(slot) =>
      w.(source := w.source - {slot})
    case Start(ticket, work) =>
      if ticket in w.tasks || !WorkOk(work) then w
      else w.(tasks := w.tasks[ticket := Task(work, Starting)])
    case Step(ticket) =>
      if ticket !in w.tasks then w
      else
        var (dest, task) := TaskStep(w.source, w.dest, w.tasks[ticket]);
        w.(dest := dest, tasks := w.tasks[ticket := task])
    case Crash(ticket) =>
      w.(tasks := w.tasks - {ticket})
    case Verify(ticket) =>
      if ticket !in w.tasks || !w.tasks[ticket].phase.Done? || !w.tasks[ticket].work.Archive? then w
      else
        var group := w.tasks[ticket].work.group;
        w.(tasks := w.tasks - {ticket},
           verified := w.verified + if CopyGroup.Verifies(w.dest, group) then {group} else {})
    case Export(group) =>
      if group !in w.verified then w
      else w.(pending := w.pending + RecordsOf(group))
    case Forget(group) =>
      w.(verified := w.verified - {group})
    case StartDelete(id, record) =>
      if id in w.attempts || record !in w.pending then w
      else w.(attempts := w.attempts[id := Begin(record)])
    case DeleteStep(id, service) =>
      if id !in w.attempts then w
      else
        var slot := RecordSlot(w.attempts[id].record);
        var (source, attempt) := AttemptStep(service, w.source, w.attempts[id]);
        w.(source := source, attempts := w.attempts[id := attempt],
           deleted := w.deleted + if slot in w.source && slot !in source then {VersionAt(w.source, slot)} else {})
    case StopDelete(id) =>
      w.(attempts := w.attempts - {id})
    case Retire(records) =>
      w.(pending := w.pending - records)
  }

  ghost function Run(w: World, events: seq<Event>): World
    decreases |events|
  {
    if events == [] then w else Run(Apply(w, events[0]), events[1..])
  }

  // ----- The discipline of runs -----

  /**
   What the callers see to: that a copy is only started at an address where no other is
   under way, and that the sources implement If-Match on deletes.
   */
  datatype Discipline = Discipline(oneWriter: bool, honoursIfMatch: bool)

  const STRICT := Discipline(true, true)

  predicate Active(task: Task) {
    CopyTask.Rank(task) > 0
  }

  /** Another copy is under way at the address. */
  ghost predicate Busy(tasks: map<Ticket, Task>, ticket: Ticket, address: Address) {
    exists other :: other in tasks && other != ticket && Active(tasks[other]) && AddressOf(tasks[other].work) == address
  }

  ghost predicate Permitted(d: Discipline, w: World, event: Event) {
    && (d.oneWriter && event.Start? ==> !Busy(w.tasks, event.ticket, AddressOf(event.work)))
    && (d.honoursIfMatch && event.DeleteStep? ==> event.service.honoursIfMatch)
  }

  ghost predicate Keeps(d: Discipline, w: World, events: seq<Event>)
    decreases |events|
  {
    events == [] || (Permitted(d, w, events[0]) && Keeps(d, Apply(w, events[0]), events[1..]))
  }

  /** No two copies are under way at one address. */
  ghost predicate Single(tasks: map<Ticket, Task>) {
    forall t, u :: t in tasks && u in tasks && t != u && Active(tasks[t]) && Active(tasks[u]) ==>
      AddressOf(tasks[t].work) != AddressOf(tasks[u].work)
  }

  // ----- What every reachable world satisfies -----

  /** The row was read from exactly this version. */
  predicate Names(row: MemberRow, v: Version) {
    && v.slot == RowSlot(row)
    && Identified(v.slot, row.etag)
    && (row.etag.None? || row.etag == v.etag)
  }

  predicate Describes(row: MemberRow, r: CleanupRecord) {
    RowSlot(row) == RecordSlot(r) && row.etag == r.etag
  }

  ghost predicate HistoryOk(source: SourceStore, history: map<Version, Payload>) {
    && (forall slot :: slot in source && Identified(slot, source[slot].etag) ==>
          && Version(slot, source[slot].etag) in history
          && history[Version(slot, source[slot].etag)] == source[slot].payload)
    && (forall v :: v in history ==> Identified(v.slot, v.etag))
    && (forall u, v :: u in history && v in history && u.slot == v.slot && u.slot.version.Some? ==> u == v)
  }

  ghost predicate Faithful(history: map<Version, Payload>, m: Member) {
    exists v :: v in history && Names(m.row, v) && history[v] == m.payload
  }

  ghost predicate AllFaithful(history: map<Version, Payload>, members: seq<Member>) {
    forall m :: m in members ==> Faithful(history, m)
  }

  predicate IsArchive(dest: DestStore, address: Address) {
    At(address) in dest && dest[At(address)].body.Tar?
  }

  /** The rows of the archive stored at an address; none when there is no archive. */
  function StoredRows(dest: DestStore, address: Address): seq<MemberRow> {
    if IsArchive(dest, address) then MemberRows(dest[At(address)].body.members) else []
  }

  /** An archive records the digest of its own rows and no fingerprint; nothing else records a digest. */
  ghost predicate DestOk(dest: DestStore, history: map<Version, Payload>) {
    && (forall a :: IsArchive(dest, a) ==>
          && dest[At(a)].metadata.manifestSha == Some(OfRows(StoredRows(dest, a)))
          && dest[At(a)].metadata.fingerprint.None?
          && AllFaithful(history, dest[At(a)].body.members))
    && (forall key :: key in dest && dest[key].metadata.manifestSha.Some? ==> key.At? && dest[key].body.Tar?)
  }

  ghost predicate AllIn(rows: seq<MemberRow>, other: seq<MemberRow>) {
    forall row :: row in rows ==> row in other
  }

  ghost predicate Holds(dest: DestStore, g: Group) {
    AllIn(RowsOf(g.entries), StoredRows(dest, g.address))
  }

  ghost predicate Replaceable(dest: DestStore, g: Group) {
    AllIn(StoredRows(dest, g.address), RowsOf(g.entries))
  }

  ghost predicate StagedOk(history: map<Version, Payload>, g: Group, members: seq<Member>) {
    && |members| <= |g.entries|
    && MemberRows(members) == RowsOf(g.entries[..|members|])
    && AllFaithful(history, members)
  }

  ghost predicate PhaseOk(dest: DestStore, history: map<Version, Payload>, g: Group, phase: Phase) {
    match phase
    case Comparing(existing) => At(g.address) in dest && dest[At(g.address)].metadata == existing
    case Staging(ms) => StagedOk(history, g, ms) && Replaceable(dest, g)
    case PublishingSidecar(ms) => StagedOk(history, g, ms) && |ms| == |g.entries| && Replaceable(dest, g)
    case CheckingSidecar(ms) => StagedOk(history, g, ms) && |ms| == |g.entries| && Replaceable(dest, g)
    case ReplacingArchive(ms) => StagedOk(history, g, ms) && |ms| == |g.entries| && Replaceable(dest, g)
    case Done => Holds(dest, g)
    case _ => true
  }

  ghost predicate TaskOk(dest: DestStore, history: map<Version, Payload>, task: Task) {
    match task.work
    case Archive(g, _, _) => GroupOk(g) && PhaseOk(dest, history, g, task.phase)
    case DirectCopy(_) => task.phase.PuttingObject? ==> !IsArchive(dest, AddressOf(task.work))
  }

  ghost predicate Covered(dest: DestStore, r: CleanupRecord) {
    exists row :: row in StoredRows(dest, Address(r.destinationBucket, r.destinationArchiveKey)) && Describes(row, r)
  }

  ghost predicate Kept(dest: DestStore, v: Version) {
    exists a, row :: row in StoredRows(dest, a) && Names(row, v)
  }

  /** Tasks in flight are sound; what was verified, exported or is being deleted is in an archive. */
  ghost predicate Archived(w: World) {
    && HistoryOk(w.source, w.history)
    && DestOk(w.dest, w.history)
    && (forall t :: t in w.tasks ==> TaskOk(w.dest, w.history, w.tasks[t]))
    && (forall g :: g in w.verified ==> GroupOk(g) && Holds(w.dest, g))
    && (forall r :: r in w.pending ==> Covered(w.dest, r))
    && (forall id :: id in w.attempts ==> Covered(w.dest, w.attempts[id].record))
  }

  /** No delete has lost its precondition; what was deleted is in an archive. */
  ghost predicate DeletedKept(w: World) {
    && Firm(w.attempts)
    && (forall v :: v in w.deleted ==> v in w.history && Kept(w.dest, v))
  }

  /** Every archive still holds every row it held. */
  ghost predicate Grows(before: DestStore, after: DestStore) {
    forall a, row :: row in StoredRows(before, a) ==> row in StoredRows(after, a)
  }

  ghost predicate Remembers(before: map<Version, Payload>, after: map<Version, Payload>) {
    forall v :: v in before ==> v in after && after[v] == before[v]
  }

  // ----- One copy step -----

  lemma NamesOne(source: SourceStore, history: map<Version, Payload>, row: MemberRow, u: Version, v: Version)
    requires HistoryOk(source, history) && u in history && v in history
    requires Names(row, u) && Names(row, v)
    ensures u == v
  {
  }

  /** A staged member carries the payload of the version its row names. */
  lemma StagedIsFaithful(source: SourceStore, history: map<Version, Payload>, e: Entry)
    requires HistoryOk(source, history) && StageEntry(source, e).Ok?
    ensures StageEntry(source, e).value.row == RowOf(e)
    ensures Faithful(history, StageEntry(source, e).value)
  {
    var v := Version(SlotOf(e), source[SlotOf(e)].etag);
    assert Names(RowOf(e), v);
  }

  /** A positive refresh verdict means that no stored row is missing from the group. */
  lemma RefreshIsSuperset(dest: DestStore, history: map<Version, Payload>, existing: Metadata, g: Group)
    requires DestOk(dest, history)
    requires At(g.address) in dest && dest[At(g.address)].metadata == existing
    requires Refreshable(dest, existing, g) == Ok(true)
    ensures Replaceable(dest, g)
  {
    var lines := dest[MembersOf(g.address, RecordedSha(existing))].body.lines;
    var stored := PositiveVerdictIsAuthenticated(lines, RowsOf(g.entries), RecordedSha(existing), existing.sourceCount);
    assert IsArchive(dest, g.address);
  }

  lemma ReusableHolds(dest: DestStore, history: map<Version, Payload>, g: Group)
    requires DestOk(dest, history) && GroupOk(g)
    requires At(g.address) in dest && dest[At(g.address)].metadata.manifestSha == Some(ManifestSha(g))
    ensures Holds(dest, g)
  {
    assert IsArchive(dest, g.address);
  }

  /** Replacing an archive that the group covers keeps every row and stays sound. */
  lemma ReplacementGrows(dest: DestStore, history: map<Version, Payload>, g: Group, ms: seq<Member>, tarSize: nat)
    returns (after: DestStore)
    requires DestOk(dest, history) && GroupOk(g) && Replaceable(dest, g)
    requires StagedOk(history, g, ms) && |ms| == |g.entries|
    ensures after == dest[At(g.address) := DestObject(UploadMetadata(g, ms, tarSize), Tar(ms), tarSize)]
    ensures DestOk(after, history) && Grows(dest, after) && Holds(after, g)
  {
    after := dest[At(g.address) := DestObject(UploadMetadata(g, ms, tarSize), Tar(ms), tarSize)];
    assert g.entries[..|ms|] == g.entries;
    assert StoredRows(after, g.address) == RowsOf(g.entries);
    forall a | IsArchive(after, a) && a != g.address
      ensures StoredRows(after, a) == StoredRows(dest, a) && IsArchive(dest, a)
    {
    }
  }

  lemma StagingExtends(source: SourceStore, history: map<Version, Payload>, g: Group, ms: seq<Member>)
    requires HistoryOk(source, history) && StagedOk(history, g, ms) && |ms| < |g.entries|
    requires StageEntry(source, g.entries[|ms|]).Ok?
    ensures StagedOk(history, g, ms + [StageEntry(source, g.entries[|ms|]).value])
  {
    var e := g.entries[|ms|];
    StagedIsFaithful(source, history, e);
    assert g.entries[..|ms| + 1] == g.entries[..|ms|] + [e];
    assert RowsOf(g.entries[..|ms| + 1]) == RowsOf(g.entries[..|ms|]) + [RowOf(e)];
  }

  lemma SidecarIsHarmless(dest: DestStore, history: map<Version, Payload>, g: Group, size: nat)
    requires DestOk(dest, history)
    ensures var after := dest[SidecarKey(g) := DestObject(NO_METADATA, Sidecar(LinesOf(RowsOf(g.entries))), size)];
            && DestOk(after, history) && Grows(dest, after)
            && (Replaceable(dest, g) ==> Replaceable(after, g))
  {
    var after := dest[SidecarKey(g) := DestObject(NO_METADATA, Sidecar(LinesOf(RowsOf(g.entries))), size)];
    assert forall a :: StoredRows(after, a) == StoredRows(dest, a);
  }

  lemma ArchiveStepKeeps(source: SourceStore, dest: DestStore, history: map<Version, Payload>, g: Group,
                         tarSize: nat, sidecarSize: nat, phase: Phase)
    requires HistoryOk(source, history) && DestOk(dest, history)
    requires GroupOk(g) && PhaseOk(dest, history, g, phase)
    ensures var (after, next) := ArchiveStep(source, dest, g, tarSize, sidecarSize, phase);
            DestOk(after, history) && Grows(dest, after) && PhaseOk(after, history, g, next)
  {
    match phase {
      case Starting =>
        if At(g.address) in dest && Reusable(dest[At(g.address)], g) {
          ReusableHolds(dest, history, g);
        }
      case Comparing(existing) =>
        if Refreshable(dest, existing, g) == Ok(true) {
          RefreshIsSuperset(dest, history, existing, g);
        }
      case Staging(ms) =>
        if |ms| < |g.entries| && StageEntry(source, g.entries[|ms|]).Ok? {
          StagingExtends(source, history, g, ms);
        }
      case PublishingSidecar(ms) =>
        SidecarIsHarmless(dest, history, g, sidecarSize);
      case ReplacingArchive(ms) =>
        var after := ReplacementGrows(dest, history, g, ms, tarSize);
      case ConfirmingArchive(ms) =>
        if At(g.address) in dest && MetadataMatches(dest[At(g.address)].metadata, UploadMetadata(g, ms, tarSize)) {
          ReusableHolds(dest, history, g);
        }
      case _ =>
    }
  }

  lemma DirectStepKeeps(source: SourceStore, dest: DestStore, history: map<Version, Payload>, task: Task)
    requires DestOk(dest, history) && TaskOk(dest, history, task) && task.work.DirectCopy?
    ensures var (after, next) := TaskStep(source, dest, task);
            DestOk(after, history) && Grows(dest, after) && TaskOk(after, history, next)
  {
    var e := task.work.entry;
    if task.phase.PuttingObject? && Read(source, SlotOf(e), None).Some? {
      var payload := Read(source, SlotOf(e), None).value;
      var stored := DestObject(NO_METADATA.(fingerprint := Some(FingerprintOf(e))), Plain(payload), |payload|);
      PlainPutIsHarmless(dest, history, AddressOf(task.work), stored);
    }
  }

  lemma PlainPutIsHarmless(dest: DestStore, history: map<Version, Payload>, address: Address, stored: DestObject)
    requires DestOk(dest, history) && !IsArchive(dest, address)
    requires stored.body.Plain? && stored.metadata.manifestSha.None?
    ensures DestOk(dest[At(address) := stored], history) && Grows(dest, dest[At(address) := stored])
  {
    var after := dest[At(address) := stored];
    forall a ensures StoredRows(after, a) == StoredRows(dest, a) && (IsArchive(after, a) ==> IsArchive(dest, a)) {
    }
  }

  lemma TaskStepKeeps(source: SourceStore, dest: DestStore, history: map<Version, Payload>, task: Task)
    requires HistoryOk(source, history) && DestOk(dest, history) && TaskOk(dest, history, task)
    ensures var (after, next) := TaskStep(source, dest, task);
            DestOk(after, history) && Grows(dest, after) && TaskOk(after, history, next)
  {
    match task.work
    case Archive(g, tarSize, sidecarSize) =>
      ArchiveStepKeeps(source, dest, history, g, tarSize, sidecarSize, task.phase);
    case DirectCopy(_) =>
      DirectStepKeeps(source, dest, history, task);
  }

  /** A task is not disturbed by steps taken at other addresses. */
  lemma OthersUndisturbed(before: DestStore, after: DestStore, history: map<Version, Payload>, address: Address,
                          task: Task)
    requires SameElsewhere(before, after, address) && AddressOf(task.work) != address
    requires TaskOk(before, history, task)
    ensures TaskOk(after, history, task)
  {
    var key := At(AddressOf(task.work));
    assert key.address != address;
    assert key in after <==> key in before;
  }

  /** A task that has ended has nothing to lose but its archive's rows. */
  lemma EndedUndisturbed(before: DestStore, after: DestStore, history: map<Version, Payload>, task: Task)
    requires Grows(before, after) && !Active(task) && TaskOk(before, history, task)
    ensures TaskOk(after, history, task)
  {
  }

  lemma RestingStep(source: SourceStore, dest: DestStore, task: Task)
    requires !Active(task)
    ensures TaskStep(source, dest, task) == (dest, task)
  {
  }

  // ----- Every event -----

  lemma FaithfulStays(before: map<Version, Payload>, after: map<Version, Payload>, members: seq<Member>)
    requires Remembers(before, after) && AllFaithful(before, members)
    ensures AllFaithful(after, members)
  {
    forall m | m in members ensures Faithful(after, m) {
      assert Faithful(before, m);
    }
  }

  lemma TaskStays(dest: DestStore, before: map<Version, Payload>, after: map<Version, Payload>, task: Task)
    requires Remembers(before, after) && TaskOk(dest, before, task)
    ensures TaskOk(dest, after, task)
  {
    match task.phase
    case Staging(ms) => if task.work.Archive? { FaithfulStays(before, after, ms); }
    case PublishingSidecar(ms) => if task.work.Archive? { FaithfulStays(before, after, ms); }
    case CheckingSidecar(ms) => if task.work.Archive? { FaithfulStays(before, after, ms); }
    case ReplacingArchive(ms) => if task.work.Archive? { FaithfulStays(before, after, ms); }
    case _ =>
  }

  /** An event keeps the invariant, every stored row and everything remembered. */
  ghost predicate Sound(w: World, event: Event) {
    var after := Apply(w, event);
    && Archived(after) && Single(after.tasks)
    && Grows(w.dest, after.dest) && Remembers(w.history, after.history)
  }

  lemma PutRemembers(w: World, slot: Slot, content: SourceObject)
    requires HistoryOk(w.source, w.history)
    ensures var after := Apply(w, SourcePut(slot, content));
            HistoryOk(after.source, after.history) && Remembers(w.history, after.history)
  {
  }

  lemma PutKeeps(w: World, slot: Slot, content: SourceObject)
    requires Archived(w) && Single(w.tasks)
    ensures Sound(w, SourcePut(slot, content))
  {
    var w' := Apply(w, SourcePut(slot, content));
    PutRemembers(w, slot, content);
    assert w'.dest == w.dest && w'.tasks == w.tasks && w'.verified == w.verified && w'.pending == w.pending
        && w'.attempts == w.attempts;
    forall a | IsArchive(w.dest, a) ensures AllFaithful(w'.history, w.dest[At(a)].body.members) {
      FaithfulStays(w.history, w'.history, w.dest[At(a)].body.members);
    }
    forall t | t in w.tasks ensures TaskOk(w.dest, w'.history, w.tasks[t]) {
      TaskStays(w.dest, w.history, w'.history, w.tasks[t]);
    }
  }

  /** A step leaves its task where it was, and no less at rest. */
  lemma StepKeepsSingle(source: SourceStore, dest: DestStore, tasks: map<Ticket, Task>, ticket: Ticket)
    requires Single(tasks) && ticket in tasks
    ensures Single(tasks[ticket := TaskStep(source, dest, tasks[ticket]).1])
  {
    var task := TaskStep(source, dest, tasks[ticket]).1;
    var after := tasks[ticket := task];
    StepStaysAtAddress(source, dest, tasks[ticket]);
    if !Active(tasks[ticket]) {
      RestingStep(source, dest, tasks[ticket]);
    }
    assert forall t :: t in after && Active(after[t]) ==>
        Active(tasks[t]) && AddressOf(after[t].work) == AddressOf(tasks[t].work);
  }

  lemma OtherTask(w: World, ticket: Ticket, other: Ticket)
    requires Archived(w) && Single(w.tasks) && ticket in w.tasks && other in w.tasks && other != ticket
    ensures TaskOk(TaskStep(w.source, w.dest, w.tasks[ticket]).0, w.history, w.tasks[other])
  {
    var task := w.tasks[ticket];
    var after := TaskStep(w.source, w.dest, task).0;
    if !Active(task) {
      RestingStep(w.source, w.dest, task);
    } else if AddressOf(w.tasks[other].work) != AddressOf(task.work) {
      StepStaysAtAddress(w.source, w.dest, task);
      OthersUndisturbed(w.dest, after, w.history, AddressOf(task.work), w.tasks[other]);
    } else {
      assert !Active(w.tasks[other]);
      TaskStepKeeps(w.source, w.dest, w.history, task);
      EndedUndisturbed(w.dest, after, w.history, w.tasks[other]);
    }
  }

  lemma StepKeeps(w: World, ticket: Ticket)
    requires Archived(w) && Single(w.tasks)
    ensures Sound(w, Step(ticket))
  {
    if ticket in w.tasks {
      var w' := Apply(w, Step(ticket));
      StepKeepsSingle(w.source, w.dest, w.tasks, ticket);
      TaskStepKeeps(w.source, w.dest, w.history, w.tasks[ticket]);
      forall t | t in w'.tasks ensures TaskOk(w'.dest, w.history, w'.tasks[t]) {
        if t != ticket { OtherTask(w, ticket, t); }
      }
      GrowthKeepsPromises(w, w'.dest);
    }
  }

  lemma CoveredStays(before: DestStore, after: DestStore, r: CleanupRecord)
    requires Grows(before, after) && Covered(before, r)
    ensures Covered(after, r)
  {
  }

  lemma GrowthKeepsPromises(w: World, after: DestStore)
    requires Archived(w) && Grows(w.dest, after)
    ensures forall g :: g in w.verified ==> Holds(after, g)
    ensures forall r :: r in w.pending ==> Covered(after, r)
    ensures forall id :: id in w.attempts ==> Covered(after, w.attempts[id].record)
  {
    forall r | r in w.pending ensures Covered(after, r) {
      CoveredStays(w.dest, after, r);
    }
    forall id | id in w.attempts ensures Covered(after, w.attempts[id].record) {
      CoveredStays(w.dest, after, w.attempts[id].record);
    }
  }

  /** Exporting a verified group only promises deletion of what its archive holds. */
  lemma ExportKeeps(w: World, g: Group)
    requires Archived(w) && Single(w.tasks)
    ensures Sound(w, Export(g))
  {
    if g in w.verified {
      forall r | r in RecordsOf(g) ensures Covered(w.dest, r) {
        var e :| e in g.entries && RecordOf(e) == r;
        var i :| 0 <= i < |g.entries| && g.entries[i] == e;
        assert RowsOf(g.entries)[i] == RowOf(e);
        assert RowOf(e) in StoredRows(w.dest, g.address) && Describes(RowOf(e), r);
      }
    }
  }

  /** A group is verified only when its archive holds it. */
  lemma VerifyKeeps(w: World, ticket: Ticket)
    requires Archived(w) && Single(w.tasks)
    ensures Sound(w, Verify(ticket))
  {
    if ticket in w.tasks && w.tasks[ticket].phase.Done? && w.tasks[ticket].work.Archive? {
      EndedIsHeld(w.dest, w.history, w.tasks[ticket]);
      FewerKeepsSingle(w.tasks, ticket);
    }
  }

  lemma EndedIsHeld(dest: DestStore, history: map<Version, Payload>, task: Task)
    requires TaskOk(dest, history, task) && task.phase.Done? && task.work.Archive?
    ensures GroupOk(task.work.group) && Holds(dest, task.work.group)
  {
  }

  lemma FewerKeepsSingle(tasks: map<Ticket, Task>, ticket: Ticket)
    requires Single(tasks)
    ensures Single(tasks - {ticket})
  {
  }

  lemma StartKeeps(w: World, ticket: Ticket, work: Work)
    requires Archived(w) && Single(w.tasks) && !Busy(w.tasks, ticket, AddressOf(work))
    ensures Sound(w, Start(ticket, work))
  {
    if ticket !in w.tasks && WorkOk(work) {
      StartKeepsSingle(w.tasks, ticket, Task(work, Starting));
    }
  }

  lemma StartKeepsSingle(tasks: map<Ticket, Task>, ticket: Ticket, task: Task)
    requires Single(tasks) && ticket !in tasks && !Busy(tasks, ticket, AddressOf(task.work))
    ensures Single(tasks[ticket := task])
  {
  }

  lemma FewerObjects(source: SourceStore, slot: Slot, history: map<Version, Payload>)
    requires HistoryOk(source, history)
    ensures HistoryOk(source - {slot}, history)
  {
  }

  lemma SameCopies(w: World, after: World)
    requires Archived(w) && Single(w.tasks)
    requires after.dest == w.dest && after.tasks == w.tasks && after.history == w.history
    requires HistoryOk(after.source, after.history)
    requires after.verified <= w.verified && after.pending <= w.pending
    requires forall id :: id in after.attempts ==> Covered(w.dest, after.attempts[id].record)
    ensures Archived(after) && Single(after.tasks) && Grows(w.dest, after.dest) && Remembers(w.history, after.history)
  {
  }

  lemma DeleteStepKeeps(w: World, id: nat, service: Cleanup.Service)
    requires Archived(w) && Single(w.tasks)
    ensures Sound(w, DeleteStep(id, service))
  {
    if id in w.attempts {
      StepRemovesOwnSlot(service, w.source, w.attempts[id]);
      FewerObjects(w.source, RecordSlot(w.attempts[id].record), w.history);
    }
    SameCopies(w, Apply(w, DeleteStep(id, service)));
  }

  lemma RemoveKeeps(w: World, slot: Slot)
    requires Archived(w) && Single(w.tasks)
    ensures Sound(w, SourceRemove(slot))
  {
    FewerObjects(w.source, slot, w.history);
    SameCopies(w, Apply(w, SourceRemove(slot)));
  }

  lemma StartDeleteKeeps(w: World, id: nat, record: CleanupRecord)
    requires Archived(w) && Single(w.tasks)
    ensures Sound(w, StartDelete(id, record))
  {
    if id !in w.attempts && record in w.pending {
      AttemptsStayCovered(w.dest, w.attempts, id, record);
    }
    SameCopies(w, Apply(w, StartDelete(id, record)));
  }

  lemma AttemptsStayCovered(dest: DestStore, attempts: map<nat, Attempt>, id: nat, record: CleanupRecord)
    requires Covered(dest, record) && forall other :: other in attempts ==> Covered(dest, attempts[other].record)
    ensures var after := attempts[id := Begin(record)];
            forall other :: other in after ==> Covered(dest, after[other].record)
  {
  }

  lemma QuietKeeps(w: World, event: Event)
    requires Archived(w) && Single(w.tasks)
    requires event.Forget? || event.Retire? || event.StopDelete?
    ensures Sound(w, event)
  {
    SameCopies(w, Apply(w, event));
  }

  /** With one writer for an address, every event keeps the invariant, whatever the deletes do. */
  lemma ApplyKeeps(w: World, event: Event)
    requires Archived(w) && Single(w.tasks) && Permitted(Discipline(true, false), w, event)
    ensures Sound(w, event)
  {
    match event
    case SourcePut(slot, content) => PutKeeps(w, slot, content);
    case Start(ticket, work) => StartKeeps(w, ticket, work);
    case Step(ticket) => StepKeeps(w, ticket);
    case Crash(ticket) => FewerKeepsSingle(w.tasks, ticket);
    case Verify(ticket) => VerifyKeeps(w, ticket);
    case Export(group) => ExportKeeps(w, group);
    case SourceRemove(slot) => RemoveKeeps(w, slot);
    case StartDelete(id, record) => StartDeleteKeeps(w, id, record);
    case DeleteStep(id, service) => DeleteStepKeeps(w, id, service);
    case _ => QuietKeeps(w, event);
  }

  // ----- Deletes -----

  lemma StoredRowsAreNamed(w: World, a: Address, row: MemberRow) returns (v: Version)
    requires Archived(w) && row in StoredRows(w.dest, a)
    ensures v in w.history && Names(row, v)
  {
    var members := w.dest[At(a)].body.members;
    var i :| 0 <= i < |members| && MemberRows(members)[i] == row;
    assert members[i] in members && Faithful(w.history, members[i]);
    v :| v in w.history && Names(row, v) && w.history[v] == members[i].payload;
  }

  /** The version a record and its row point to is the one in the source: by its id, or by its ETag. */
  lemma RemovedIsKept(w: World, r: CleanupRecord)
    requires Archived(w) && Covered(w.dest, r) && RecordSlot(r) in w.source
    requires r.versionId.Some? || w.source[RecordSlot(r)].etag == r.etag
    ensures var v := VersionAt(w.source, RecordSlot(r)); v in w.history && Kept(w.dest, v)
  {
    var v := VersionAt(w.source, RecordSlot(r));
    var a := Address(r.destinationBucket, r.destinationArchiveKey);
    var row :| row in StoredRows(w.dest, a) && Describes(row, r);
    var u := StoredRowsAreNamed(w, a, row);
    assert r.versionId.Some? ==> u == v;
    assert Names(row, v);
  }

  /** An archived object without a version carries an ETag. */
  lemma CoveredIsIdentified(w: World, r: CleanupRecord)
    requires Archived(w) && Covered(w.dest, r)
    ensures r.versionId.Some? || Conditional(r)
  {
    var a := Address(r.destinationBucket, r.destinationArchiveKey);
    var row :| row in StoredRows(w.dest, a) && Describes(row, r);
    var u := StoredRowsAreNamed(w, a, row);
  }

  /** What a request removes while its precondition holds is in an archive. */
  lemma DeleteStepKeepsDeleted(w: World, id: nat, service: Cleanup.Service)
    requires Archived(w) && DeletedKept(w) && service.honoursIfMatch
    ensures DeletedKept(Apply(w, DeleteStep(id, service)))
  {
    if id in w.attempts {
      var next := AttemptStep(service, w.source, w.attempts[id]).1;
      var gone := RemovedByStep(w, id, service);
      MoreDeleted(w, id, next, gone, Apply(w, DeleteStep(id, service)));
    }
  }

  lemma RemovedByStep(w: World, id: nat, service: Cleanup.Service) returns (gone: set<Version>)
    requires Archived(w) && Firm(w.attempts) && service.honoursIfMatch && id in w.attempts
    ensures var a := w.attempts[id];
            var (after, next) := AttemptStep(service, w.source, a);
            && !next.stage.HeadingAgain? && !next.stage.Forcing?
            && gone == (if RecordSlot(a.record) in w.source && RecordSlot(a.record) !in after
                        then {VersionAt(w.source, RecordSlot(a.record))} else {})
            && forall v :: v in gone ==> v in w.history && Kept(w.dest, v)
  {
    var a := w.attempts[id];
    CoveredIsIdentified(w, a.record);
    HonouredStep(service, w.source, a);
    StepRemovesOwnSlot(service, w.source, a);
    gone := {};
    if RecordSlot(a.record) in w.source && RecordSlot(a.record) !in AttemptStep(service, w.source, a).0 {
      gone := {VersionAt(w.source, RecordSlot(a.record))};
      RemovedIsKept(w, a.record);
    }
  }

  lemma MoreDeleted(w: World, id: nat, next: Attempt, gone: set<Version>, after: World)
    requires DeletedKept(w) && !next.stage.HeadingAgain? && !next.stage.Forcing?
    requires forall v :: v in gone ==> v in w.history && Kept(w.dest, v)
    requires after.dest == w.dest && after.history == w.history
    requires after.attempts == w.attempts[id := next] && after.deleted <= w.deleted + gone
    ensures DeletedKept(after)
  {
  }

  lemma KeptStays(before: DestStore, after: DestStore, v: Version)
    requires Grows(before, after) && Kept(before, v)
    ensures Kept(after, v)
  {
  }

  predicate Firm(attempts: map<nat, Attempt>) {
    forall id :: id in attempts ==> !attempts[id].stage.HeadingAgain? && !attempts[id].stage.Forcing?
  }

  lemma OtherEventsDeleteNothing(w: World, event: Event)
    requires !event.DeleteStep? && Firm(w.attempts)
    ensures Apply(w, event).deleted == w.deleted && Firm(Apply(w, event).attempts)
  {
  }

  lemma ApplyKeepsDeleted(w: World, event: Event)
    requires Archived(w) && DeletedKept(w) && Sound(w, event) && Permitted(Discipline(false, true), w, event)
    ensures DeletedKept(Apply(w, event))
  {
    if event.DeleteStep? {
      DeleteStepKeepsDeleted(w, event.id, event.service);
    } else {
      OtherEventsDeleteNothing(w, event);
      forall v | v in w.deleted ensures v in Apply(w, event).history && Kept(Apply(w, event).dest, v) {
        KeptStays(w.dest, Apply(w, event).dest, v);
      }
    }
  }

  // ----- Runs -----

  lemma {:induction false} RunKeeps(w: World, events: seq<Event>)
    requires Archived(w) && Single(w.tasks) && Keeps(Discipline(true, false), w, events)
    ensures Archived(Run(w, events)) && Single(Run(w, events).tasks)
    ensures Grows(w.dest, Run(w, events).dest) && Remembers(w.history, Run(w, events).history)
    decreases |events|
  {
    if events != [] {
      ApplyKeeps(w, events[0]);
      RunKeeps(Apply(w, events[0]), events[1..]);
    }
  }

  lemma {:induction false} StrictRunKeeps(w: World, events: seq<Event>)
    requires Archived(w) && Single(w.tasks) && DeletedKept(w) && Keeps(STRICT, w, events)
    ensures Archived(Run(w, events)) && DeletedKept(Run(w, events))
    decreases |events|
  {
    if events != [] {
      ApplyKeeps(w, events[0]);
      ApplyKeepsDeleted(w, events[0]);
      StrictRunKeeps(Apply(w, events[0]), events[1..]);
    }
  }

  // ----- The results -----

  /** The destination holds an archive with a member of exactly this version and this payload. */
  ghost predicate Preserved(dest: DestStore, v: Version, payload: Payload) {
    exists a, m :: IsArchive(dest, a) && m in dest[At(a)].body.members && Names(m.row, v) && m.payload == payload
  }

  ghost predicate NothingLost(w: World) {
    forall v :: v in w.deleted ==> v in w.history && Preserved(w.dest, v, w.history[v])
  }

  lemma KeptIsPreserved(w: World, v: Version)
    requires Archived(w) && v in w.history && Kept(w.dest, v)
    ensures Preserved(w.dest, v, w.history[v])
  {
    var a, row :| row in StoredRows(w.dest, a) && Names(row, v);
    var members := w.dest[At(a)].body.members;
    var i :| 0 <= i < |members| && MemberRows(members)[i] == row;
    assert members[i] in members && Faithful(w.history, members[i]);
    var u :| u in w.history && Names(row, u) && w.history[u] == members[i].payload;
    NamesOne(w.source, w.history, row, u, v);
  }

  /**
   No loss. Whatever the sources, the copies, the crashes and the cleanups did, in any
   order, with any writers between any two requests: as long as no address had two copies
   under way and the sources implemented If-Match, every version that cleanup has deleted
   so far is a member of an archive, with the payload the source held.
   */
  lemma NothingDeletedIsLost(events: seq<Event>)
    requires Keeps(STRICT, EMPTY_WORLD, events)
    ensures NothingLost(Run(EMPTY_WORLD, events))
  {
    StrictRunKeeps(EMPTY_WORLD, events);
    var w := Run(EMPTY_WORLD, events);
    forall v | v in w.deleted ensures v in w.history && Preserved(w.dest, v, w.history[v]) {
      KeptIsPreserved(w, v);
    }
  }

  /** Archives only grow: from any point of any run with one writer for an address, no stored row disappears. */
  lemma ArchivesOnlyGrow(earlier: seq<Event>, later: seq<Event>, a: Address, row: MemberRow)
    requires Keeps(Discipline(true, false), EMPTY_WORLD, earlier + later)
    requires row in StoredRows(Run(EMPTY_WORLD, earlier).dest, a)
    ensures row in StoredRows(Run(EMPTY_WORLD, earlier + later).dest, a)
  {
    RunAppends(EMPTY_WORLD, earlier, later);
    KeepsAppends(Discipline(true, false), EMPTY_WORLD, earlier, later);
    RunKeeps(EMPTY_WORLD, earlier);
    RunKeeps(Run(EMPTY_WORLD, earlier), later);
  }

  lemma {:induction false} KeepsAppends(d: Discipline, w: World, earlier: seq<Event>, later: seq<Event>)
    ensures Keeps(d, w, earlier + later) <==> Keeps(d, w, earlier) && Keeps(d, Run(w, earlier), later)
    decreases |earlier|
  {
    if earlier == [] {
      assert earlier + later == later;
    } else {
      assert (earlier + later)[1..] == earlier[1..] + later;
      KeepsAppends(d, Apply(w, earlier[0]), earlier[1..], later);
    }
  }

  lemma {:induction false} RunAppends(w: World, earlier: seq<Event>, later: seq<Event>)
    ensures Run(w, earlier + later) == Run(Run(w, earlier), later)
    decreases |earlier|
  {
    if earlier == [] {
      assert earlier + later == later;
    } else {
      assert (earlier + later)[1..] == earlier[1..] + later;
      RunAppends(Apply(w, earlier[0]), earlier[1..], later);
    }
  }
}
