/**
 What a cleanup run guarantees: the batched generator does what a one-record-at-a-time
 loop does, accounts for every record in order, and passes on only what is gone.
 */
module CleanupFacts {
  import opened Wrappers
  import opened Manifest
  import opened Stores
  import opened Cleanup

  // ----- The simple loop -----

  function DoOne(service: Service, routes: Routes, p: Progress, r: CleanupRecord): Progress {
    if RouteProblem(r, routes).Some? then Note(p, r, RouteProblem(r, routes)) else DeleteNow(service, p, r)
  }

  function OneByOne(service: Service, routes: Routes, p: Progress, records: seq<CleanupRecord>): Progress {
    if records == [] then p
    else DoOne(service, routes, OneByOne(service, routes, p, records[..|records| - 1]), records[|records| - 1])
  }

  /**
   The batch API reports as single deletes would: it is not there at all, or its errors name
   the versions it refused and nothing it accepted is unreadable or stays.
   */
  predicate Transparent(service: Service, routes: Routes, records: seq<CleanupRecord>) {
    service.batch == NotImplemented ||
    forall r :: r in records && Batchable(r, routes) ==>
      && service.batch.Answers? && Reported(service, RecordSlot(r))
      && RecordSlot(r) !in service.unreadable && RecordSlot(r) !in service.sticky
  }

  /** A refusal of the slot would be reported with its version. */
  predicate Reported(service: Service, slot: Slot)
    requires service.batch.Answers?
  {
    slot !in service.batch.keyOnly && slot !in service.batch.mangled
  }

  /** What the error list of a batch makes of its records. */
  lemma {:induction false} ListedFailures(service: Service, records: seq<CleanupRecord>, k: (string, Option<string>))
    requires service.batch.Answers?
    ensures k in FailuresIn(ErrorsFor(service, records)) <==>
              exists r :: r in records && RecordSlot(r) in service.denied && RecordSlot(r) !in service.batch.mangled
                          && k == (r.key, ErrorOf(service.batch, r).versionId)
    ensures k in FailuresIn(ErrorsFor(service, records)) ==> FailuresIn(ErrorsFor(service, records))[k] == DeleteFailed
    decreases |records|
  {
    if records != [] {
      var rest, last := records[..|records| - 1], records[|records| - 1];
      ListedFailures(service, rest, k);
      var errors := ErrorsFor(service, rest);
      assert (errors + [ErrorOf(service.batch, last)])[..|errors|] == errors;
      assert errors + [] == errors;
      assert forall r :: r in records <==> r in rest || r == last;
    }
  }

  predicate OneBatch(routes: Routes, batch: seq<CleanupRecord>) {
    && (forall r :: r in batch ==> Batchable(r, routes))
    && (forall r, q :: r in batch && q in batch ==> r.routeName == q.routeName)
  }

  /** How deleting an exact version ends, given the objects there were. */
  function Ends(service: Service, objects: SourceStore, r: CleanupRecord): Option<Reason> {
    var slot := RecordSlot(r);
    if slot in service.denied then Some(DeleteFailed)
    else if slot in service.unreadable then Some(UnverifiedAfterDelete)
    else if slot in objects && slot in service.sticky then Some(StillPresent)
    else None
  }

  function Left(service: Service, objects: SourceStore, records: seq<CleanupRecord>): SourceStore {
    objects - (Slots(records) - service.denied - service.sticky)
  }

  lemma VersionedDelete(service: Service, objects: SourceStore, r: CleanupRecord)
    requires r.versionId.Some?
    ensures DeleteAndVerify(service, objects, r) == (Left(service, objects, [r]), Ends(service, objects, r))
  {
    var slot := RecordSlot(r);
    assert Slots([r]) == {slot};
    if slot in service.denied || slot in service.sticky {
      assert Slots([r]) - service.denied - service.sticky == {};
      assert Left(service, objects, [r]) == objects;
    } else {
      assert Slots([r]) - service.denied - service.sticky == {slot};
    }
  }

  lemma LeftOneMore(service: Service, objects: SourceStore, records: seq<CleanupRecord>, r: CleanupRecord)
    ensures Left(service, Left(service, objects, records), [r]) == Left(service, objects, records + [r])
    ensures forall q :: Ends(service, Left(service, objects, records), q) == Ends(service, objects, q)
                        || (Ends(service, objects, q).None? && Ends(service, Left(service, objects, records), q).None?)
  {
    assert Slots(records + [r]) == Slots(records) + {RecordSlot(r)};
    assert Slots([r]) == {RecordSlot(r)};
  }

  lemma EndsStable(service: Service, objects: SourceStore, records: seq<CleanupRecord>, r: CleanupRecord)
    ensures Ends(service, Left(service, objects, records), r) == Ends(service, objects, r)
  {
  }

  /** Deleting versions one by one: what is left, and each record's own end. */
  lemma {:induction false} SerialOutcome(service: Service, objects: SourceStore, records: seq<CleanupRecord>)
    requires forall r :: r in records ==> r.versionId.Some?
    requires forall r, q :: r in records && q in records && (r.key, r.versionId) == (q.key, q.versionId) ==>
               RecordSlot(r) == RecordSlot(q)
    ensures var (after, failed) := SerialFailures(service, objects, records);
            && after == Left(service, objects, records)
            && (forall r :: r in records ==> (r.key, None) !in failed)
            && (forall r :: r in records ==> Lookup(failed, r) == Ends(service, objects, r))
            && (forall k :: k in failed ==> exists r :: r in records && k == (r.key, r.versionId))
    decreases |records|
  {
    if records != [] {
      var rest, last := records[..|records| - 1], records[|records| - 1];
      assert records == rest + [last];
      SerialOutcome(service, objects, rest);
      var (before, failed) := SerialFailures(service, objects, rest);
      VersionedDelete(service, before, last);
      LeftOneMore(service, objects, rest, last);
      EndsStable(service, objects, rest, last);
      var after := SerialFailures(service, objects, records).1;
      forall r | r in records ensures Lookup(after, r) == Ends(service, objects, r) {
        if (r.key, r.versionId) == (last.key, last.versionId) {
          assert RecordSlot(r) == RecordSlot(last);
          if Ends(service, objects, last).None? && (last.key, last.versionId) in failed {
            var q :| q in rest && (q.key, q.versionId) == (last.key, last.versionId);
            assert Lookup(failed, q) == Ends(service, objects, q);
            assert RecordSlot(q) == RecordSlot(last);
          }
        } else {
          assert r in rest;
        }
      }
    }
  }

  lemma BatchSharesSlots(routes: Routes, batch: seq<CleanupRecord>, r: CleanupRecord, q: CleanupRecord)
    requires OneBatch(routes, batch) && r in batch && q in batch && (r.key, r.versionId) == (q.key, q.versionId)
    ensures RecordSlot(r) == RecordSlot(q)
  {
  }

  lemma ReportedLookup(service: Service, routes: Routes, objects: SourceStore, batch: seq<CleanupRecord>,
                       r: CleanupRecord)
    requires OneBatch(routes, batch) && r in batch && service.batch.Answers? && Transparent(service, routes, batch)
    ensures Lookup(FailuresIn(ErrorsFor(service, batch)), r) == Ends(service, objects, r)
  {
    ListedFailures(service, batch, (r.key, r.versionId));
    ListedFailures(service, batch, (r.key, None));
    forall q | q in batch && (q.key, q.versionId) == (r.key, r.versionId) ensures RecordSlot(q) == RecordSlot(r) {
      BatchSharesSlots(routes, batch, q, r);
    }
  }

  /** A transparent batch leaves and reports, for each of its records, what a single delete would. */
  lemma BatchOutcome(service: Service, routes: Routes, objects: SourceStore, batch: seq<CleanupRecord>)
    requires OneBatch(routes, batch) && batch != [] && Transparent(service, routes, batch)
    ensures var (after, failed) := BatchFailures(service, objects, batch);
            && after == Left(service, objects, batch)
            && forall r :: r in batch ==> Lookup(failed, r) == Ends(service, objects, r)
  {
    forall r, q | r in batch && q in batch && (r.key, r.versionId) == (q.key, q.versionId)
      ensures RecordSlot(r) == RecordSlot(q)
    {
      BatchSharesSlots(routes, batch, r, q);
    }
    if service.batch == NotImplemented {
      SerialOutcome(service, objects, batch);
    } else {
      assert batch[0] in batch && service.batch.Answers?;
      forall r | r in batch ensures Lookup(FailuresIn(ErrorsFor(service, batch)), r) == Ends(service, objects, r) {
        ReportedLookup(service, routes, objects, batch, r);
      }
    }
  }

  lemma {:induction false} NotedOneByOne(service: Service, routes: Routes, p: Progress, batch: seq<CleanupRecord>,
                                         failed: Failed)
    requires OneBatch(routes, batch)
    requires forall r :: r in batch ==> Lookup(failed, r) == Ends(service, p.objects, r)
    ensures OneByOne(service, routes, p, batch)
              == NoteAll(p.(objects := Left(service, p.objects, batch)), batch, failed)
    decreases |batch|
  {
    if batch == [] {
      assert Left(service, p.objects, []) == p.objects;
    } else {
      var rest, last := batch[..|batch| - 1], batch[|batch| - 1];
      assert batch == rest + [last] && last in batch;
      NotedOneByOne(service, routes, p, rest, failed);
      NotedStep(service, routes, p, rest, last, failed);
    }
  }

  lemma NotedStep(service: Service, routes: Routes, p: Progress, rest: seq<CleanupRecord>, last: CleanupRecord,
                  failed: Failed)
    requires Batchable(last, routes) && Lookup(failed, last) == Ends(service, p.objects, last)
    ensures DoOne(service, routes, NoteAll(p.(objects := Left(service, p.objects, rest)), rest, failed), last)
         == NoteAll(p.(objects := Left(service, p.objects, rest + [last])), rest + [last], failed)
  {
    var before, after := Left(service, p.objects, rest), Left(service, p.objects, rest + [last]);
    assert (rest + [last])[..|rest|] == rest;
    NoteAllKeepsObjects(p.(objects := before), rest, failed);
    VersionedDelete(service, before, last);
    LeftOneMore(service, p.objects, rest, last);
    EndsStable(service, p.objects, rest, last);
    NoteAllIgnoresObjects(p, before, after, rest, failed);
  }

  lemma {:induction false} NoteAllKeepsObjects(p: Progress, records: seq<CleanupRecord>, failed: Failed)
    ensures NoteAll(p, records, failed).objects == p.objects
    decreases |records|
  {
    if records != [] {
      NoteAllKeepsObjects(p, records[..|records| - 1], failed);
    }
  }

  lemma {:induction false} NoteAllIgnoresObjects(p: Progress, a: SourceStore, b: SourceStore,
                                                 records: seq<CleanupRecord>, failed: Failed)
    ensures NoteAll(p.(objects := a), records, failed).(objects := b) == NoteAll(p.(objects := b), records, failed)
    decreases |records|
  {
    if records != [] {
      NoteAllIgnoresObjects(p, a, b, records[..|records| - 1], failed);
    }
  }

  lemma FlushIsOneByOne(service: Service, routes: Routes, p: Progress, batch: seq<CleanupRecord>)
    requires OneBatch(routes, batch) && Transparent(service, routes, batch)
    ensures Flush(service, p, batch) == OneByOne(service, routes, p, batch)
  {
    if batch != [] {
      BatchOutcome(service, routes, p.objects, batch);
      NotedOneByOne(service, routes, p, batch, BatchFailures(service, p.objects, batch).1);
    }
  }

  lemma {:induction false} OneByOneJoins(service: Service, routes: Routes, p: Progress, a: seq<CleanupRecord>,
                                         b: seq<CleanupRecord>)
    ensures OneByOne(service, routes, p, a + b) == OneByOne(service, routes, OneByOne(service, routes, p, a), b)
    decreases |b|
  {
    if b == [] {
      assert a + b == a;
    } else {
      assert (a + b)[..|a + b| - 1] == a + b[..|b| - 1];
      OneByOneJoins(service, routes, p, a, b[..|b| - 1]);
    }
  }

  /** The generator lags behind the simple loop by its unflushed batch, and by nothing else. */
  ghost predicate Lags(service: Service, routes: Routes, start: Progress, s: State, records: seq<CleanupRecord>) {
    && |s.batch| <= |records| && |s.batch| < DELETE_BATCH_SIZE
    && s.batch == records[|records| - |s.batch|..]
    && OneBatch(routes, s.batch)
    && s.progress == OneByOne(service, routes, start, records[..|records| - |s.batch|])
  }

  lemma FlushCatchesUp(service: Service, routes: Routes, start: Progress, s: State, records: seq<CleanupRecord>)
    requires Lags(service, routes, start, s, records) && Transparent(service, routes, records)
    ensures Flush(service, s.progress, s.batch) == OneByOne(service, routes, start, records)
  {
    var done := records[..|records| - |s.batch|];
    assert records == done + s.batch;
    FlushIsOneByOne(service, routes, s.progress, s.batch);
    OneByOneJoins(service, routes, start, done, s.batch);
  }

  function Joined(service: Service, s: State, r: CleanupRecord): State {
    var batch := s.batch + [r];
    if |batch| >= DELETE_BATCH_SIZE then State(Flush(service, s.progress, batch), []) else State(s.progress, batch)
  }

  lemma TakeForms(service: Service, routes: Routes, s: State, r: CleanupRecord)
    ensures var flushed := Flush(service, s.progress, s.batch);
            Take(service, routes, s, r) ==
            if !Batchable(r, routes) then State(DoOne(service, routes, flushed, r), [])
            else if s.batch != [] && s.batch[0].routeName != r.routeName then Joined(service, State(flushed, []), r)
            else Joined(service, s, r)
  {
  }

  /** A batchable record of the pending route joins the batch, which is flushed when full. */
  lemma JoinLags(service: Service, routes: Routes, start: Progress, s: State, records: seq<CleanupRecord>,
                 r: CleanupRecord)
    requires Lags(service, routes, start, s, records) && Transparent(service, routes, records + [r])
    requires Batchable(r, routes) && (s.batch != [] ==> s.batch[0].routeName == r.routeName)
    ensures Lags(service, routes, start, Joined(service, s, r), records + [r])
  {
    var all, batch := records + [r], s.batch + [r];
    var done := all[..|all| - |batch|];
    BatchGrows(routes, s.batch, r);
    assert batch == all[|all| - |batch|..] && done == records[..|records| - |s.batch|];
    if |batch| >= DELETE_BATCH_SIZE {
      assert all == done + batch;
      FullBatchCatchesUp(service, routes, start, s.progress, done, batch);
    }
  }

  lemma FullBatchCatchesUp(service: Service, routes: Routes, start: Progress, p: Progress, done: seq<CleanupRecord>,
                           batch: seq<CleanupRecord>)
    requires p == OneByOne(service, routes, start, done)
    requires OneBatch(routes, batch) && Transparent(service, routes, done + batch)
    ensures Lags(service, routes, start, State(Flush(service, p, batch), []), done + batch)
  {
    FlushIsOneByOne(service, routes, p, batch);
    OneByOneJoins(service, routes, start, done, batch);
    CaughtUpLags(service, routes, start, Flush(service, p, batch), done + batch);
  }

  lemma CaughtUpLags(service: Service, routes: Routes, start: Progress, p: Progress, records: seq<CleanupRecord>)
    requires p == OneByOne(service, routes, start, records)
    ensures Lags(service, routes, start, State(p, []), records)
  {
    assert records[..|records| - 0] == records && records[|records|..] == [];
  }

  /** A record that does not go into the batch. */
  lemma DirectLags(service: Service, routes: Routes, start: Progress, flushed: Progress, records: seq<CleanupRecord>,
                   r: CleanupRecord)
    requires flushed == OneByOne(service, routes, start, records)
    ensures Lags(service, routes, start, State(DoOne(service, routes, flushed, r), []), records + [r])
  {
    assert (records + [r])[..|records|] == records;
    CaughtUpLags(service, routes, start, DoOne(service, routes, flushed, r), records + [r]);
  }

  lemma TakeLags(service: Service, routes: Routes, start: Progress, s: State, records: seq<CleanupRecord>,
                 r: CleanupRecord)
    requires Lags(service, routes, start, s, records) && Transparent(service, routes, records + [r])
    ensures Lags(service, routes, start, Take(service, routes, s, r), records + [r])
  {
    assert Transparent(service, routes, records);
    FlushCatchesUp(service, routes, start, s, records);
    var flushed := Flush(service, s.progress, s.batch);
    TakeForms(service, routes, s, r);
    if !Batchable(r, routes) {
      DirectLags(service, routes, start, flushed, records, r);
    } else if s.batch != [] && s.batch[0].routeName != r.routeName {
      CaughtUpLags(service, routes, start, flushed, records);
      JoinLags(service, routes, start, State(flushed, []), records, r);
    } else {
      JoinLags(service, routes, start, s, records, r);
    }
  }

  lemma BatchGrows(routes: Routes, batch: seq<CleanupRecord>, r: CleanupRecord)
    requires OneBatch(routes, batch) && Batchable(r, routes)
    requires batch != [] ==> batch[0].routeName == r.routeName
    ensures OneBatch(routes, batch + [r])
  {
    assert forall q :: q in batch ==> q.routeName == batch[0].routeName;
  }

  lemma {:induction false} TakeAllLags(service: Service, routes: Routes, start: Progress, records: seq<CleanupRecord>)
    requires Transparent(service, routes, records)
    ensures Lags(service, routes, start, TakeAll(service, routes, State(start, []), records), records)
    decreases |records|
  {
    if records != [] {
      var rest, last := records[..|records| - 1], records[|records| - 1];
      assert records == rest + [last];
      TakeAllLags(service, routes, start, rest);
      TakeLags(service, routes, start, TakeAll(service, routes, State(start, []), rest), rest, last);
    }
  }

  /**
   Refinement. Without a timeout the batched generator deletes, passes on and reports
   exactly what the simple loop does. On a timeout it has done so up to some record, the
   records between there and the timeout are a batch that was neither deleted nor passed
   on nor reported, and only the timeout is added.
   */
  lemma BatchedRefinesOneByOne(service: Service, routes: Routes, objects: SourceStore, records: seq<CleanupRecord>,
                               timeoutAt: Option<nat>)
    returns (done: nat)
    requires Transparent(service, routes, records)
    ensures var start, end := Progress(objects, [], []), Generate(service, routes, objects, records, timeoutAt);
            if timeoutAt.Some? && timeoutAt.value < |records| then
              && done <= timeoutAt.value < done + DELETE_BATCH_SIZE
              && OneBatch(routes, records[done..timeoutAt.value])
              && end == Note(OneByOne(service, routes, start, records[..done]),
                             records[timeoutAt.value], Some(RunTimedOut))
            else
              done == |records| && end == OneByOne(service, routes, start, records)
  {
    var start := Progress(objects, [], []);
    if timeoutAt.Some? && timeoutAt.value < |records| {
      var taken := records[..timeoutAt.value];
      TakeAllLags(service, routes, start, taken);
      var s := TakeAll(service, routes, State(start, []), taken);
      done := timeoutAt.value - |s.batch|;
      assert taken[..done] == records[..done] && taken[done..] == records[done..timeoutAt.value];
    } else {
      done := |records|;
      TakeAllLags(service, routes, start, records);
      FlushCatchesUp(service, routes, start, TakeAll(service, routes, State(start, []), records), records);
    }
  }
}
