/**
 Manifest files over cleanup runs: validated before anything is deleted, retired exactly
 when everything in them was cleaned, and drained by retries. Also the race between the
 check and the delete of an unversioned object, and the link to the whole-run model.
 */
module CleanupRetirement {
  import opened Wrappers
  import opened Manifest
  import opened Stores
  import opened Cleanup
  import opened CleanupFacts
  import opened CleanupRuns
  import opened CleanupManifest

  datatype Outcome = Outcome(objectCount: int, cleanedCount: nat, failures: seq<Failure>, removed: bool)

  /** The cleaned manifest is identical to the input: same digest, same count. */
  predicate Retires(file: seq<Line>, cleaned: seq<CleanupRecord>)
    requires WellFormed(file)
  {
    OfLines(CanonicalLines(cleaned)) == SummaryIn(file).digest && |cleaned| == SummaryIn(file).count
  }

  function OutcomeOf(file: seq<Line>, end: Progress): Outcome
    requires WellFormed(file)
  {
    Outcome(SummaryIn(file).count, |end.cleaned|, end.failures, Retires(file, end.cleaned))
  }

  method CleanManifest(file: seq<Line>, summary: Summary, source: RemoteSource, routes: Routes, timeoutAt: Option<nat>)
    returns (outcome: Outcome)
    requires WellFormed(file) && summary == SummaryIn(file)
    modifies source
    ensures var end := Generate(source.service, routes, old(source.objects), RecordsIn(file), timeoutAt);
            source.objects == end.objects && outcome == OutcomeOf(file, end)
  {
    var records := IterCleanupRecords(file);
    var generator := new Generator(source, routes);
    generator.VerifiedDeletions(records, timeoutAt);
    var _, cleaned := WriteCleanupManifest(summary.runId, summary.startedAt, generator.cleaned);
    var identical := cleaned.digest == summary.digest && cleaned.count == summary.count;
    outcome := Outcome(summary.count, cleaned.count, generator.failures, identical);
  }

  /** One manifest after the other; empty ones are skipped. */
  function RunAll(service: Service, routes: Routes, objects: SourceStore, files: seq<seq<Line>>,
                  timeouts: seq<Option<nat>>)
    : (SourceStore, seq<Outcome>)
    requires |timeouts| == |files| && forall file :: file in files ==> WellFormed(file)
  {
    if files == [] then (objects, [])
    else
      var n := |files| - 1;
      var (before, outcomes) := RunAll(service, routes, objects, files[..n], timeouts[..n]);
      if SummaryIn(files[n]).status != Valid then (before, outcomes)
      else
        var end := Generate(service, routes, before, RecordsIn(files[n]), timeouts[n]);
        (end.objects, outcomes + [OutcomeOf(files[n], end)])
  }

  lemma OneMoreFile(service: Service, routes: Routes, objects: SourceStore, files: seq<seq<Line>>,
                    timeouts: seq<Option<nat>>, i: nat, before: SourceStore, outcomes: seq<Outcome>)
    requires |timeouts| == |files| && i < |files| && forall k :: 0 <= k < |files| ==> WellFormed(files[k])
    requires RunAll(service, routes, objects, files[..i], timeouts[..i]) == (before, outcomes)
    ensures RunAll(service, routes, objects, files[..i + 1], timeouts[..i + 1])
         == if SummaryIn(files[i]).status != Valid then (before, outcomes)
            else
              var end := Generate(service, routes, before, RecordsIn(files[i]), timeouts[i]);
              (end.objects, outcomes + [OutcomeOf(files[i], end)])
  {
    assert files[..i + 1][..i] == files[..i] && timeouts[..i + 1][..i] == timeouts[..i];
  }

  /** All files are read and checked before any of them is used. */
  method ValidateAll(files: seq<seq<Line>>) returns (result: Result<seq<Summary>, Error>)
    ensures result.Ok? <==> forall k :: 0 <= k < |files| ==> WellFormed(files[k])
    ensures result.Ok? ==>
              && |result.value| == |files|
              && forall k :: 0 <= k < |files| ==> result.value[k] == SummaryIn(files[k])
  {
    var summaries: seq<Summary> := [];
    for i := 0 to |files|
      invariant |summaries| == i
      invariant forall k :: 0 <= k < i ==> WellFormed(files[k]) && summaries[k] == SummaryIn(files[k])
    {
      var checked := ValidateCleanupManifest(files[i]);
      if checked.Err? {
        return Err(checked.error);
      }
      summaries := summaries + [checked.value];
    }
    return Ok(summaries);
  }

  /**
   Every manifest is validated up front. One mangled manifest fails the run with nothing
   deleted; otherwise each manifest that holds records is cleaned, in order.
   */
  method RunCleanup(files: seq<seq<Line>>, source: RemoteSource, routes: Routes, timeouts: seq<Option<nat>>)
    returns (result: Result<seq<Outcome>, Error>)
    requires |timeouts| == |files|
    modifies source
    ensures result.Ok? <==> forall k :: 0 <= k < |files| ==> WellFormed(files[k])
    ensures result.Err? ==> source.objects == old(source.objects)
    ensures result.Ok? ==>
              (source.objects, result.value) == RunAll(source.service, routes, old(source.objects), files, timeouts)
  {
    var summaries := ValidateAll(files);
    if summaries.Err? {
      return Err(summaries.error);
    }
    ghost var start := source.objects;
    var outcomes: seq<Outcome> := [];
    for i := 0 to |files|
      invariant RunAll(source.service, routes, start, files[..i], timeouts[..i]) == (source.objects, outcomes)
    {
      OneMoreFile(source.service, routes, start, files, timeouts, i, source.objects, outcomes);
      if summaries.value[i].status == Valid {
        var outcome := CleanManifest(files[i], summaries.value[i], source, routes, timeouts[i]);
        outcomes := outcomes + [outcome];
      }
    }
    assert files[..|files|] == files && timeouts[..|files|] == timeouts;
    return Ok(outcomes);
  }

  // ----- Retirement -----

  predicate Canonical(file: seq<Line>) {
    forall line :: line in file && line.RecordLine? ==> line.extra == ""
  }

  /**
   A manifest is retired exactly when every record was passed on and every line is in the
   form the writer gives it; a valid manifest in any other form is never retired.
   */
  lemma RetiredWhenAllCleaned(file: seq<Line>, cleaned: seq<CleanupRecord>)
    requires WellFormed(file) && file != []
    ensures Retires(file, cleaned) <==> cleaned == RecordsIn(file) && Canonical(file)
  {
    var body := file[..|file| - 1];
    if Retires(file, cleaned) {
      forall i | 0 <= i < |body| ensures body[i] == CanonicalLine(cleaned[i]) && file[i] == body[i] {
        assert CanonicalLines(cleaned)[i] == body[i];
      }
    } else if cleaned == RecordsIn(file) && Canonical(file) {
      CanonicalIsRewritten(file);
      assert false;
    }
  }

  lemma CanonicalIsRewritten(file: seq<Line>)
    requires WellFormed(file) && file != [] && Canonical(file)
    ensures CanonicalLines(RecordsIn(file)) == file[..|file| - 1]
  {
    assert forall i :: 0 <= i < |file| - 1 ==> file[i] in file;
  }

  lemma WrittenIsCanonical(runId: string, startedAt: string, records: seq<CleanupRecord>)
    ensures WellFormed(Written(runId, startedAt, records)) && Canonical(Written(runId, startedAt, records))
  {
    WrittenReadsBack(runId, startedAt, records);
  }

  // ----- What retirement says of the objects -----

  ghost predicate RetiresOnlyGone(service: Service) {
    forall routes: Routes, objects, file, timeoutAt, r ::
      WellFormed(file) && r in RecordsIn(file)
      && OutcomeOf(file, Generate(service, routes, objects, RecordsIn(file), timeoutAt)).removed
      ==> RecordSlot(r) !in Generate(service, routes, objects, RecordsIn(file), timeoutAt).objects
  }

  /** A manifest retired while the object it names is still there. */
  lemma MisreportedIsRetired(service: Service, slot: Slot, content: SourceObject) returns (file: seq<Line>)
    requires Misreports(service, slot)
    ensures WellFormed(file) && RecordsIn(file) == [RecordAt(slot)]
    ensures var end := Generate(service, RouteTo(slot), map[slot := content], RecordsIn(file), None);
            OutcomeOf(file, end).removed && slot in end.objects
  {
    file := Written("run", "", [RecordAt(slot)]);
    WrittenReadsBack("run", "", [RecordAt(slot)]);
    WrittenIsCanonical("run", "", [RecordAt(slot)]);
    MisreportedIsPassedOn(service, slot, content);
    RetiredWhenAllCleaned(file, [RecordAt(slot)]);
  }

  /** A retired manifest means that all its objects are gone exactly when the batch API misreports no version. */
  lemma RetiredMeansGoneExactly(service: Service)
    ensures RetiresOnlyGone(service) <==> forall slot :: !Misreports(service, slot)
  {
    if forall slot :: !Misreports(service, slot) {
      PassedOnIsGoneExactly(service);
      forall routes: Routes, objects, file, timeoutAt, r |
        WellFormed(file) && r in RecordsIn(file)
        && OutcomeOf(file, Generate(service, routes, objects, RecordsIn(file), timeoutAt)).removed
        ensures RecordSlot(r) !in Generate(service, routes, objects, RecordsIn(file), timeoutAt).objects
      {
        RetiredWhenAllCleaned(file, Generate(service, routes, objects, RecordsIn(file), timeoutAt).cleaned);
      }
    } else {
      var slot :| Misreports(service, slot);
      var file := MisreportedIsRetired(service, slot, SourceObject(None, ""));
      assert RecordAt(slot) in RecordsIn(file);
    }
  }

  // ----- Retries -----

  /** A service that accepts and performs every delete, one by one or in batches. */
  predicate Willing(service: Service) {
    service.denied == {} && service.unreadable == {} && service.sticky == {} && !service.batch.Breaks?
  }

  /** The record still finds its object, or finds it gone. */
  predicate Cleanable(routes: Routes, objects: SourceStore, r: CleanupRecord) {
    && RouteProblem(r, routes).None?
    && (r.versionId.None? && RecordSlot(r) in objects ==> MatchesRecord(objects[RecordSlot(r)], r))
  }

  ghost predicate AllCleanable(routes: Routes, objects: SourceStore, records: seq<CleanupRecord>) {
    forall r :: r in records ==> Cleanable(routes, objects, r)
  }

  ghost predicate Shrinks(before: SourceStore, after: SourceStore) {
    forall slot :: slot in after ==> slot in before && after[slot] == before[slot]
  }

  lemma WillingBatch(service: Service, routes: Routes, p: Progress, batch: seq<CleanupRecord>)
    requires Willing(service) && OneBatch(routes, batch)
    ensures Flush(service, p, batch).cleaned == p.cleaned + batch && Flush(service, p, batch).failures == p.failures
    ensures Shrinks(p.objects, Flush(service, p, batch).objects)
  {
    if batch != [] {
      var (after, failed) := BatchFailures(service, p.objects, batch);
      if service.batch == NotImplemented {
        forall r, q | r in batch && q in batch && (r.key, r.versionId) == (q.key, q.versionId)
          ensures RecordSlot(r) == RecordSlot(q)
        {
          BatchSharesSlots(routes, batch, r, q);
        }
        SerialOutcome(service, p.objects, batch);
      } else {
        forall r | r in batch ensures Lookup(failed, r).None? {
          ListedFailures(service, batch, (r.key, r.versionId));
          ListedFailures(service, batch, (r.key, None));
        }
      }
      NoneFailed(p.(objects := after), batch, failed);
    }
  }

  lemma {:induction false} NoneFailed(p: Progress, batch: seq<CleanupRecord>, failed: Failed)
    requires forall r :: r in batch ==> Lookup(failed, r).None?
    ensures NoteAll(p, batch, failed) == p.(cleaned := p.cleaned + batch)
    decreases |batch|
  {
    if batch == [] {
      assert p.cleaned + batch == p.cleaned;
    } else {
      NoneFailed(p, batch[..|batch| - 1], failed);
      assert p.cleaned + batch[..|batch| - 1] + [batch[|batch| - 1]] == p.cleaned + batch;
    }
  }

  /** Nothing failed so far: passed on plus pending is everything seen. */
  ghost predicate Clean(routes: Routes, objects: SourceStore, s: State, records: seq<CleanupRecord>) {
    && s.progress.failures == []
    && s.progress.cleaned + s.batch == records
    && OneBatch(routes, s.batch)
    && Shrinks(objects, s.progress.objects)
  }

  lemma FlushClean(service: Service, routes: Routes, objects: SourceStore, s: State, records: seq<CleanupRecord>)
    requires Willing(service) && Clean(routes, objects, s, records)
    ensures Clean(routes, objects, State(Flush(service, s.progress, s.batch), []), records)
  {
    WillingBatch(service, routes, s.progress, s.batch);
  }

  lemma JoinClean(service: Service, routes: Routes, objects: SourceStore, s: State, records: seq<CleanupRecord>,
                  r: CleanupRecord)
    requires Willing(service) && Clean(routes, objects, s, records)
    requires Batchable(r, routes) && (s.batch != [] ==> s.batch[0].routeName == r.routeName)
    ensures Clean(routes, objects, Joined(service, s, r), records + [r])
  {
    BatchGrows(routes, s.batch, r);
    var grown := State(s.progress, s.batch + [r]);
    assert s.progress.cleaned + grown.batch == records + [r];
    FlushClean(service, routes, objects, grown, records + [r]);
  }

  /** A record deleted by itself; one that is gone already counts as deleted. */
  lemma DirectClean(service: Service, routes: Routes, objects: SourceStore, p: Progress, records: seq<CleanupRecord>,
                    r: CleanupRecord)
    requires Willing(service) && Cleanable(routes, objects, r) && Clean(routes, objects, State(p, []), records)
    ensures Clean(routes, objects, State(DoOne(service, routes, p, r), []), records + [r])
  {
    assert p.cleaned + [] == p.cleaned;
    assert (p.cleaned + [r]) + [] == records + [r];
  }

  lemma TakeClean(service: Service, routes: Routes, objects: SourceStore, s: State, records: seq<CleanupRecord>,
                  r: CleanupRecord)
    requires Willing(service) && Cleanable(routes, objects, r) && Clean(routes, objects, s, records)
    ensures Clean(routes, objects, Take(service, routes, s, r), records + [r])
  {
    TakeForms(service, routes, s, r);
    FlushClean(service, routes, objects, s, records);
    var flushed := Flush(service, s.progress, s.batch);
    if !Batchable(r, routes) {
      DirectClean(service, routes, objects, flushed, records, r);
    } else if s.batch != [] && s.batch[0].routeName != r.routeName {
      JoinClean(service, routes, objects, State(flushed, []), records, r);
    } else {
      JoinClean(service, routes, objects, s, records, r);
    }
  }

  lemma {:induction false} TakeAllClean(service: Service, routes: Routes, objects: SourceStore, now: SourceStore,
                                        records: seq<CleanupRecord>)
    requires Willing(service) && AllCleanable(routes, objects, records) && Shrinks(objects, now)
    ensures Clean(routes, objects, TakeAll(service, routes, State(Progress(now, [], []), []), records), records)
    decreases |records|
  {
    if records != [] {
      var rest, last := records[..|records| - 1], records[|records| - 1];
      assert records == rest + [last] && last in records;
      TakeAllClean(service, routes, objects, now, rest);
      TakeClean(service, routes, objects, TakeAll(service, routes, State(Progress(now, [], []), []), rest), rest, last);
    }
  }

  /**
   Retries converge. Whatever earlier runs deleted, refused, left pending at a timeout or
   lost to errors, and whatever was written since: a run against a willing service on a
   source where each record finds its object, or finds it gone, passes on every record,
   those gone before included, and retires the file.
   */
  lemma RetryRetires(service: Service, routes: Routes, now: SourceStore, file: seq<Line>)
    requires WellFormed(file) && file != [] && Canonical(file) && Willing(service)
    requires AllCleanable(routes, now, RecordsIn(file))
    ensures var end := Generate(service, routes, now, RecordsIn(file), None);
            end.cleaned == RecordsIn(file) && end.failures == [] && OutcomeOf(file, end).removed
  {
    var records := RecordsIn(file);
    TakeAllClean(service, routes, now, now, records);
    var s := TakeAll(service, routes, State(Progress(now, [], []), []), records);
    WillingBatch(service, routes, s.progress, s.batch);
    RetiredWhenAllCleaned(file, records);
  }

  /** An earlier run of any outcome leaves the records cleanable that were so before it. */
  lemma PartialRunsStayCleanable(first: Service, routes: Routes, objects: SourceStore, file: seq<Line>,
                                 timeoutAt: Option<nat>)
    requires WellFormed(file) && AllCleanable(routes, objects, RecordsIn(file))
    ensures AllCleanable(routes, Generate(first, routes, objects, RecordsIn(file), timeoutAt).objects, RecordsIn(file))
  {
    GenerateAccountsForAll(first, routes, objects, RecordsIn(file), timeoutAt);
  }
}
