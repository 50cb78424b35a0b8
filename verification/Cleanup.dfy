/**
 The cleanup engine: records of one manifest are deleted in batches where the source
 offers it, one at a time otherwise, and every deletion taken as done is passed on in
 manifest order.
 */
module Cleanup {
  import opened Wrappers
  import opened Manifest
  import opened Stores

  const DELETE_BATCH_SIZE := 1000

  datatype Route = Route(name: string, identity: string, bucket: string, offersBatch: bool)

  type Routes = map<string, Route>

  /**
   What a call to the batch API of the source comes to. An answer has an error entry for
   each delete refused; some entries carry only the key, some are mangled beyond use.
   */
  datatype BatchMode =
    | Answers(keyOnly: set<Slot>, mangled: set<Slot>)
    | NotImplemented
    | Breaks(deletedAnyway: set<Slot>)

  /**
   How the remote source behaves: deletes it refuses, heads on which it fails, objects that
   stay although their delete was accepted, and whether it implements If-Match on a delete.
   */
  datatype Service = Service(
    denied: set<Slot>,
    unreadable: set<Slot>,
    sticky: set<Slot>,
    batch: BatchMode,
    honoursIfMatch: bool)

  datatype Reason =
    | NoSuchRoute
    | IdentityMismatch
    | BucketMismatch
    | UnverifiedBeforeDelete
    | SourceDiffers
    | DeleteFailed
    | UnverifiedAfterDelete
    | StillPresent
    | RunTimedOut

  datatype Failure = Failure(key: string, reason: Reason)

  /** The source, the deletions passed on and the failures noted, so far. */
  datatype Progress = Progress(objects: SourceStore, cleaned: seq<CleanupRecord>, failures: seq<Failure>)

  // ----- Routing -----

  function RouteProblem(r: CleanupRecord, routes: Routes): Option<Reason> {
    if r.routeName !in routes then Some(NoSuchRoute)
    else if routes[r.routeName].identity != r.sourceIdentity then Some(IdentityMismatch)
    else if routes[r.routeName].bucket != r.sourceBucket then Some(BucketMismatch)
    else None
  }

  predicate Batchable(r: CleanupRecord, routes: Routes) {
    RouteProblem(r, routes).None? && r.versionId.Some? && routes[r.routeName].offersBatch
  }

  // ----- One delete -----

  /** What a delete of an object, once accepted, leaves. */
  function Removed(service: Service, objects: SourceStore, slot: Slot): SourceStore {
    if slot in service.sticky then objects else objects - {slot}
  }

  predicate MatchesRecord(current: SourceObject, r: CleanupRecord) {
    current.etag == r.etag && |current.payload| == r.size
  }

  function DeleteAndVerify(service: Service, objects: SourceStore, r: CleanupRecord): (SourceStore, Option<Reason>) {
    var slot := RecordSlot(r);
    if r.versionId.None? && slot in service.unreadable then (objects, Some(UnverifiedBeforeDelete))
    else if r.versionId.None? && slot !in objects then (objects, None)
    else if r.versionId.None? && !MatchesRecord(objects[slot], r) then (objects, Some(SourceDiffers))
    else if slot in service.denied then (objects, Some(DeleteFailed))
    else
      var after := Removed(service, objects, slot);
      if slot in service.unreadable then (after, Some(UnverifiedAfterDelete))
      else if slot in after then (after, Some(StillPresent))
      else (after, None)
  }

  // ----- One batch -----

  type Failed = map<(string, Option<string>), Reason>

  function SerialFailures(service: Service, objects: SourceStore, records: seq<CleanupRecord>): (SourceStore, Failed) {
    if records == [] then (objects, map[])
    else
      var last := records[|records| - 1];
      var (before, failed) := SerialFailures(service, objects, records[..|records| - 1]);
      var (after, problem) := DeleteAndVerify(service, before, last);
      (after, if problem.Some? then failed[(last.key, last.versionId) := problem.value] else failed)
  }

  /** An entry of the error list in the answer to a batch, as far as it can be decoded. */
  datatype ErrorEntry = ErrorEntry(key: Option<string>, versionId: Option<string>)

  function ErrorOf(mode: BatchMode, r: CleanupRecord): ErrorEntry
    requires mode.Answers?
  {
    ErrorEntry(if RecordSlot(r) in mode.mangled then None else Some(r.key),
               if RecordSlot(r) in mode.keyOnly then None else r.versionId)
  }

  /** The errors the service lists: one for each record it refuses to delete. */
  function ErrorsFor(service: Service, records: seq<CleanupRecord>): seq<ErrorEntry>
    requires service.batch.Answers?
  {
    if records == [] then []
    else
      var last := records[|records| - 1];
      ErrorsFor(service, records[..|records| - 1])
      + if RecordSlot(last) in service.denied then [ErrorOf(service.batch, last)] else []
  }

  /** The failures by key and version; entries without a key are skipped. */
  function FailuresIn(errors: seq<ErrorEntry>): Failed {
    if errors == [] then map[]
    else
      var last := errors[|errors| - 1];
      var earlier := FailuresIn(errors[..|errors| - 1]);
      if last.key.None? then earlier else earlier[(last.key.value, last.versionId) := DeleteFailed]
  }

  function Slots(records: seq<CleanupRecord>): set<Slot> {
    set r | r in records :: RecordSlot(r)
  }

  function BatchFailures(service: Service, objects: SourceStore, records: seq<CleanupRecord>): (SourceStore, Failed) {
    match service.batch
    case NotImplemented => SerialFailures(service, objects, records)
    case Breaks(deletedAnyway) =>
      (objects - (deletedAnyway * Slots(records)),
       map r | r in records :: (r.key, r.versionId) := DeleteFailed)
    case Answers(_, _) =>
      (objects - (Slots(records) - service.denied - service.sticky), FailuresIn(ErrorsFor(service, records)))
  }

  function Lookup(failed: Failed, r: CleanupRecord): Option<Reason> {
    if (r.key, r.versionId) in failed then Some(failed[(r.key, r.versionId)])
    else if (r.key, None) in failed then Some(failed[(r.key, None)])
    else None
  }

  /** Pass a record on, or note its failure. */
  function Note(p: Progress, r: CleanupRecord, problem: Option<Reason>): Progress {
    if problem.Some? then p.(failures := p.failures + [Failure(r.key, problem.value)])
    else p.(cleaned := p.cleaned + [r])
  }

  function NoteAll(p: Progress, records: seq<CleanupRecord>, failed: Failed): Progress {
    if records == [] then p
    else
      var last := records[|records| - 1];
      Note(NoteAll(p, records[..|records| - 1], failed), last, Lookup(failed, last))
  }

  function Flush(service: Service, p: Progress, batch: seq<CleanupRecord>): Progress {
    if batch == [] then p
    else
      var (after, failed) := BatchFailures(service, p.objects, batch);
      NoteAll(p.(objects := after), batch, failed)
  }

  // ----- The generator, record by record -----

  /** The pending batch is of one route; no batch is an empty one. */
  datatype State = State(progress: Progress, batch: seq<CleanupRecord>)

  function DeleteNow(service: Service, p: Progress, r: CleanupRecord): Progress {
    var (after, problem) := DeleteAndVerify(service, p.objects, r);
    Note(p.(objects := after), r, problem)
  }

  function Take(service: Service, routes: Routes, s: State, r: CleanupRecord): State {
    if RouteProblem(r, routes).Some? then
      State(Note(Flush(service, s.progress, s.batch), r, RouteProblem(r, routes)), [])
    else if Batchable(r, routes) then
      var switched := s.batch != [] && s.batch[0].routeName != r.routeName;
      var kept := if switched then State(Flush(service, s.progress, s.batch), []) else s;
      var batch := kept.batch + [r];
      if |batch| >= DELETE_BATCH_SIZE then State(Flush(service, kept.progress, batch), [])
      else State(kept.progress, batch)
    else
      State(DeleteNow(service, Flush(service, s.progress, s.batch), r), [])
  }

  function TakeAll(service: Service, routes: Routes, s: State, records: seq<CleanupRecord>): State {
    if records == [] then s
    else Take(service, routes, TakeAll(service, routes, s, records[..|records| - 1]), records[|records| - 1])
  }

  /** The whole generator; `timeoutAt` is the first record before which the run is out of time. */
  function Generate(service: Service, routes: Routes, objects: SourceStore, records: seq<CleanupRecord>,
                    timeoutAt: Option<nat>): Progress
  {
    var start := State(Progress(objects, [], []), []);
    if timeoutAt.Some? && timeoutAt.value < |records| then
      var s := TakeAll(service, routes, start, records[..timeoutAt.value]);
      Note(s.progress, records[timeoutAt.value], Some(RunTimedOut))
    else
      var s := TakeAll(service, routes, start, records);
      Flush(service, s.progress, s.batch)
  }

  // ----- The engine over a mutable source -----

  class RemoteSource {
    var objects: SourceStore
    const service: Service

    constructor (objects: SourceStore, service: Service)
      ensures this.objects == objects && this.service == service
    {
      this.objects, this.service := objects, service;
    }

    method DeleteOne(r: CleanupRecord) returns (problem: Option<Reason>)
      modifies this
      ensures (objects, problem) == DeleteAndVerify(service, old(objects), r)
    {
      var slot := RecordSlot(r);
      if r.versionId.None? {
        if slot in service.unreadable {
          return Some(UnverifiedBeforeDelete);
        }
        if slot !in objects {
          return None;
        }
        if !MatchesRecord(objects[slot], r) {
          return Some(SourceDiffers);
        }
      }
      if slot in service.denied {
        return Some(DeleteFailed);
      }
      objects := Removed(service, objects, slot);
      if slot in service.unreadable {
        return Some(UnverifiedAfterDelete);
      }
      return if slot in objects then Some(StillPresent) else None;
    }

    method DeleteSerially(records: seq<CleanupRecord>) returns (failed: Failed)
      modifies this
      ensures (objects, failed) == SerialFailures(service, old(objects), records)
    {
      failed := map[];
      for i := 0 to |records|
        invariant (objects, failed) == SerialFailures(service, old(objects), records[..i])
      {
        assert records[..i + 1][..i] == records[..i];
        var problem := DeleteOne(records[i]);
        if problem.Some? {
          failed := failed[(records[i].key, records[i].versionId) := problem.value];
        }
      }
      assert records[..|records|] == records;
    }

    /** The service goes through a batch: what it does not refuse is gone, up to what sticks. */
    method SendDeletes(records: seq<CleanupRecord>) returns (errors: seq<ErrorEntry>)
      requires service.batch.Answers?
      modifies this
      ensures errors == ErrorsFor(service, records)
      ensures objects == old(objects) - (Slots(records) - service.denied - service.sticky)
    {
      errors := [];
      for i := 0 to |records|
        invariant errors == ErrorsFor(service, records[..i])
        invariant objects == old(objects) - (Slots(records[..i]) - service.denied - service.sticky)
      {
        assert records[..i + 1][..i] == records[..i];
        assert Slots(records[..i + 1]) == Slots(records[..i]) + {RecordSlot(records[i])};
        if RecordSlot(records[i]) in service.denied {
          errors := errors + [ErrorOf(service.batch, records[i])];
        } else {
          objects := Removed(service, objects, RecordSlot(records[i]));
        }
      }
      assert records[..|records|] == records;
    }

    method DeleteBatch(records: seq<CleanupRecord>) returns (failed: Failed)
      modifies this
      ensures (objects, failed) == BatchFailures(service, old(objects), records)
    {
      match service.batch {
        case NotImplemented =>
          failed := DeleteSerially(records);
        case Breaks(deletedAnyway) =>
          objects := objects - (deletedAnyway * Slots(records));
          failed := map r | r in records :: (r.key, r.versionId) := DeleteFailed;
        case Answers(_, _) =>
          var errors := SendDeletes(records);
          failed := ResponseFailures(errors);
      }
    }
  }

  method ResponseFailures(errors: seq<ErrorEntry>) returns (failed: Failed)
    ensures failed == FailuresIn(errors)
  {
    failed := map[];
    for i := 0 to |errors|
      invariant failed == FailuresIn(errors[..i])
    {
      assert errors[..i + 1][..i] == errors[..i];
      if errors[i].key.None? {
        continue;
      }
      failed := failed[(errors[i].key.value, errors[i].versionId) := DeleteFailed];
    }
    assert errors[..|errors|] == errors;
  }

  class Generator {
    const source: RemoteSource
    const routes: Routes
    var batch: seq<CleanupRecord>
    var cleaned: seq<CleanupRecord>
    var failures: seq<Failure>

    constructor (source: RemoteSource, routes: Routes)
      ensures this.source == source && this.routes == routes
      ensures batch == [] && cleaned == [] && failures == []
    {
      this.source, this.routes := source, routes;
      batch, cleaned, failures := [], [], [];
    }

    ghost function Now(): Progress
      reads this, source
    {
      Progress(source.objects, cleaned, failures)
    }

    method FlushBatch()
      modifies this, source
      ensures Now() == Flush(source.service, old(Now()), old(batch)) && batch == []
    {
      if batch != [] {
        var failed := source.DeleteBatch(batch);
        ghost var after := old(Now()).(objects := source.objects);
        for i := 0 to |batch|
          invariant batch == old(batch) && source.objects == after.objects
          invariant Now() == NoteAll(after, batch[..i], failed)
        {
          assert batch[..i + 1][..i] == batch[..i];
          var problem := Lookup(failed, batch[i]);
          if problem.Some? {
            failures := failures + [Failure(batch[i].key, problem.value)];
          } else {
            cleaned := cleaned + [batch[i]];
          }
        }
        assert batch[..|batch|] == batch;
        batch := [];
      }
    }

    method TakeRecord(r: CleanupRecord)
      modifies this, source
      ensures State(Now(), batch) == Take(source.service, routes, old(State(Now(), batch)), r)
    {
      var problem := RouteProblem(r, routes);
      if problem.Some? {
        FlushBatch();
        failures := failures + [Failure(r.key, problem.value)];
        return;
      }
      if Batchable(r, routes) {
        if batch != [] && batch[0].routeName != r.routeName {
          FlushBatch();
        }
        batch := batch + [r];
        if |batch| >= DELETE_BATCH_SIZE {
          FlushBatch();
        }
        return;
      }
      FlushBatch();
      problem := source.DeleteOne(r);
      if problem.Some? {
        failures := failures + [Failure(r.key, problem.value)];
      } else {
        cleaned := cleaned + [r];
      }
    }

    method VerifiedDeletions(records: seq<CleanupRecord>, timeoutAt: Option<nat>)
      requires batch == [] && cleaned == [] && failures == []
      modifies this, source
      ensures Now() == Generate(source.service, routes, old(source.objects), records, timeoutAt)
    {
      ghost var start := State(Now(), batch);
      for i := 0 to |records|
        invariant State(Now(), batch) == TakeAll(source.service, routes, start, records[..i])
        invariant timeoutAt.Some? ==> i <= timeoutAt.value
      {
        if timeoutAt == Some(i) {
          failures := failures + [Failure(records[i].key, RunTimedOut)];
          return;
        }
        assert records[..i + 1][..i] == records[..i];
        TakeRecord(records[i]);
      }
      assert records[..|records|] == records;
      FlushBatch();
    }
  }
}
