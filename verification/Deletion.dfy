/**
 One checked delete, cut into the requests it makes: head, conditional delete, and where
 If-Match is not implemented a second head and an unconditional delete, then a last head.
 Other clients may write to the source between any two of them.
 */
module Deletion {
  import opened Wrappers
  import opened Manifest
  import opened Stores
  import opened Cleanup

  datatype Stage =
    | Checking
    | Requesting
    | HeadingAgain
    | Forcing
    | Looking
    | Over(problem: Option<Reason>)

  datatype Attempt = Attempt(record: CleanupRecord, stage: Stage)

  function Begin(r: CleanupRecord): Attempt {
    Attempt(r, if r.versionId.None? then Checking else Requesting)
  }

  /** Only a delete without a version carries a precondition. */
  predicate Conditional(r: CleanupRecord) {
    r.versionId.None? && r.etag.Some?
  }

  predicate StillCarries(objects: SourceStore, r: CleanupRecord) {
    RecordSlot(r) in objects && objects[RecordSlot(r)].etag == r.etag
  }

  /** The next request, and what it leaves. */
  function AttemptStep(service: Service, objects: SourceStore, a: Attempt): (SourceStore, Attempt) {
    var r, slot := a.record, RecordSlot(a.record);
    match a.stage
    case Checking =>
      if slot in service.unreadable then (objects, Attempt(r, Over(Some(UnverifiedBeforeDelete))))
      else if slot !in objects then (objects, Attempt(r, Over(None)))
      else if !MatchesRecord(objects[slot], r) then (objects, Attempt(r, Over(Some(SourceDiffers))))
      else (objects, Attempt(r, Requesting))
    case Requesting =>
      if Conditional(r) && !service.honoursIfMatch then (objects, Attempt(r, HeadingAgain))
      else if slot in service.denied || (Conditional(r) && !StillCarries(objects, r))
      then (objects, Attempt(r, Over(Some(DeleteFailed))))
      else (Removed(service, objects, slot), Attempt(r, Looking))
    case HeadingAgain =>
      if slot in service.unreadable || !StillCarries(objects, r) then (objects, Attempt(r, Over(Some(DeleteFailed))))
      else (objects, Attempt(r, Forcing))
    case Forcing =>
      if slot in service.denied then (objects, Attempt(r, Over(Some(DeleteFailed))))
      else (Removed(service, objects, slot), Attempt(r, Looking))
    case Looking =>
      if slot in service.unreadable then (objects, Attempt(r, Over(Some(UnverifiedAfterDelete))))
      else (objects, Attempt(r, Over(if slot in objects then Some(StillPresent) else None)))
    case Over(_) => (objects, a)
  }

  /** A request removes at most the object the record names. */
  lemma StepRemovesOwnSlot(service: Service, objects: SourceStore, a: Attempt)
    ensures var (after, next) := AttemptStep(service, objects, a);
            next.record == a.record && (after == objects || after == objects - {RecordSlot(a.record)})
  {
  }

  /** With If-Match honoured, only the object with the recorded ETag, or the exact version, is removed. */
  lemma HonouredStep(service: Service, objects: SourceStore, a: Attempt)
    requires service.honoursIfMatch && !a.stage.HeadingAgain? && !a.stage.Forcing?
    requires a.record.versionId.Some? || Conditional(a.record)
    ensures var (after, next) := AttemptStep(service, objects, a);
            && !next.stage.HeadingAgain? && !next.stage.Forcing?
            && (after != objects ==> a.record.versionId.Some? || StillCarries(objects, a.record))
  {
  }

  function Rank(stage: Stage): nat {
    match stage
    case Checking => 5
    case Requesting => 4
    case HeadingAgain => 3
    case Forcing => 2
    case Looking => 1
    case Over(_) => 0
  }

  /** The rest of the delete with nobody else at the source. */
  function Finish(service: Service, objects: SourceStore, a: Attempt): (SourceStore, Attempt)
    decreases Rank(a.stage)
  {
    if a.stage.Over? then (objects, a)
    else
      var (after, next) := AttemptStep(service, objects, a);
      Finish(service, after, next)
  }

  lemma FinishStep(service: Service, objects: SourceStore, a: Attempt)
    requires !a.stage.Over?
    ensures Finish(service, objects, a)
         == Finish(service, AttemptStep(service, objects, a).0, AttemptStep(service, objects, a).1)
  {
  }

  /** From the delete request on, whichever way it goes. */
  lemma RequestFinishes(service: Service, objects: SourceStore, r: CleanupRecord)
    requires Conditional(r) ==> StillCarries(objects, r) && RecordSlot(r) !in service.unreadable
    ensures var slot, (after, end) := RecordSlot(r), Finish(service, objects, Attempt(r, Requesting));
            if slot in service.denied then after == objects && end.stage == Over(Some(DeleteFailed))
            else
              && after == Removed(service, objects, slot)
              && end.stage == Over(if slot in service.unreadable then Some(UnverifiedAfterDelete)
                                   else if slot in after then Some(StillPresent) else None)
  {
    var slot := RecordSlot(r);
    var after := Removed(service, objects, slot);
    if Conditional(r) && !service.honoursIfMatch {
      FinishStep(service, objects, Attempt(r, Requesting));
      FinishStep(service, objects, Attempt(r, HeadingAgain));
      FinishStep(service, objects, Attempt(r, Forcing));
    } else {
      FinishStep(service, objects, Attempt(r, Requesting));
    }
    if slot !in service.denied {
      FinishStep(service, after, Attempt(r, Looking));
    }
  }

  /** Undisturbed, the requests add up to the delete the cleanup engine is built on. */
  lemma UndisturbedIsDeleteAndVerify(service: Service, objects: SourceStore, r: CleanupRecord)
    ensures var (after, end) := Finish(service, objects, Begin(r));
            end.stage.Over? && (after, end.stage.problem) == DeleteAndVerify(service, objects, r)
  {
    if r.versionId.None? {
      FinishStep(service, objects, Begin(r));
      var slot := RecordSlot(r);
      if slot !in service.unreadable && slot in objects && MatchesRecord(objects[slot], r) {
        RequestFinishes(service, objects, r);
      }
    } else {
      RequestFinishes(service, objects, r);
    }
  }

  // ----- Writers in between -----

  /** What the delete removes when each of its requests is preceded by some puts. */
  function RemovedInRace(service: Service, objects: SourceStore, a: Attempt, puts: seq<SourceStore>): set<SourceObject>
    decreases |puts|
  {
    if puts == [] then {}
    else
      var slot, now := RecordSlot(a.record), objects + puts[0];
      var (after, next) := AttemptStep(service, now, a);
      (if slot in now && slot !in after then {now[slot]} else {}) + RemovedInRace(service, after, next, puts[1..])
  }

  ghost predicate NeverRemovesChanged(r: CleanupRecord, honoursIfMatch: bool) {
    forall service: Service, objects, puts, removed ::
      service.honoursIfMatch == honoursIfMatch && removed in RemovedInRace(service, objects, Begin(r), puts)
      ==> removed.etag == r.etag
  }

  lemma {:induction false} HonouredRace(service: Service, objects: SourceStore, a: Attempt, puts: seq<SourceStore>)
    requires service.honoursIfMatch && Conditional(a.record) && !a.stage.HeadingAgain? && !a.stage.Forcing?
    ensures forall removed :: removed in RemovedInRace(service, objects, a, puts) ==> removed.etag == a.record.etag
    decreases |puts|
  {
    if puts != [] {
      var (after, next) := AttemptStep(service, objects + puts[0], a);
      HonouredRace(service, after, next, puts[1..]);
    }
  }

  /** A put just before the request that deletes is removed with it. */
  lemma PutIsRemoved(service: Service, objects: SourceStore, a: Attempt, change: SourceStore)
    requires AttemptStep(service, objects + change, a).0 == Removed(service, objects + change, RecordSlot(a.record))
    requires RecordSlot(a.record) in change && RecordSlot(a.record) !in service.sticky
    ensures change[RecordSlot(a.record)] in RemovedInRace(service, objects, a, [change])
  {
  }

  lemma QuietRequest(service: Service, objects: SourceStore, a: Attempt, puts: seq<SourceStore>)
    requires AttemptStep(service, objects, a).0 == objects
    ensures RemovedInRace(service, objects, a, [map[]] + puts)
         == RemovedInRace(service, objects, AttemptStep(service, objects, a).1, puts)
  {
    assert objects + map[] == objects;
    assert ([map[]] + puts)[1..] == puts;
  }

  /** A delete of an unversioned object is safe from puts exactly when its ETag was recorded and If-Match works. */
  lemma SafeFromPutsExactly(r: CleanupRecord, honoursIfMatch: bool)
    requires r.versionId.None? && r.size >= 0
    ensures NeverRemovesChanged(r, honoursIfMatch) <==> r.etag.Some? && honoursIfMatch
  {
    if r.etag.Some? && honoursIfMatch {
      forall service: Service, objects, puts, removed |
        service.honoursIfMatch && removed in RemovedInRace(service, objects, Begin(r), puts)
        ensures removed.etag == r.etag
      {
        HonouredRace(service, objects, Begin(r), puts);
      }
    } else {
      var service, puts, removed := ChangedIsRemoved(r, honoursIfMatch);
    }
  }

  /** A concrete race in which a changed object is removed. */
  lemma ChangedIsRemoved(r: CleanupRecord, honoursIfMatch: bool)
    returns (service: Service, puts: seq<SourceStore>, removed: SourceObject)
    requires r.versionId.None? && r.size >= 0 && !(r.etag.Some? && honoursIfMatch)
    ensures service.honoursIfMatch == honoursIfMatch && removed.etag != r.etag
    ensures removed in RemovedInRace(service, map[RecordSlot(r) := SourceObject(r.etag, seq(r.size, _ => 'x'))],
              Begin(r), puts)
  {
    var slot := RecordSlot(r);
    var objects := map[slot := SourceObject(r.etag, seq(r.size, _ => 'x'))];
    service := Service({}, {}, {}, NotImplemented, honoursIfMatch);
    removed := SourceObject(if r.etag == Some("a") then Some("b") else Some("a"), "");
    var change := map[slot := removed];
    QuietRequest(service, objects, Begin(r), [change]);
    if r.etag.None? {
      puts := [map[]] + [change];
      PutIsRemoved(service, objects, Attempt(r, Requesting), change);
    } else {
      puts := [map[]] + ([map[]] + ([map[]] + [change]));
      QuietRequest(service, objects, Begin(r), [map[]] + ([map[]] + [change]));
      QuietRequest(service, objects, Attempt(r, Requesting), [map[]] + [change]);
      QuietRequest(service, objects, Attempt(r, HeadingAgain), [change]);
      PutIsRemoved(service, objects, Attempt(r, Forcing), change);
    }
  }
}
