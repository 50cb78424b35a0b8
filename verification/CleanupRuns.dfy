/**
 Cleanup runs over the records of a manifest: what they account for, what they may remove,
 and exactly when everything they pass on is gone.
 */
module CleanupRuns {
  import opened Wrappers
  import opened Manifest
  import opened Stores
  import opened Cleanup
  import opened CleanupFacts
  import Membership

  // ----- Every record is accounted for, in order -----

  function Kept(records: seq<CleanupRecord>, problems: seq<Option<Reason>>): seq<CleanupRecord>
    requires |problems| == |records|
  {
    if records == [] then []
    else Kept(records[..|records| - 1], problems[..|records| - 1])
         + if problems[|records| - 1].None? then [records[|records| - 1]] else []
  }

  function Missed(records: seq<CleanupRecord>, problems: seq<Option<Reason>>): seq<Failure>
    requires |problems| == |records|
  {
    if records == [] then []
    else Missed(records[..|records| - 1], problems[..|records| - 1])
         + if problems[|records| - 1].Some?
           then [Failure(records[|records| - 1].key, problems[|records| - 1].value)] else []
  }

  /** From one point to a later one, each record was passed on or failed, one after the other. */
  ghost predicate Accounts(before: Progress, after: Progress, records: seq<CleanupRecord>,
                           problems: seq<Option<Reason>>) {
    && |problems| == |records|
    && after.cleaned == before.cleaned + Kept(records, problems)
    && after.failures == before.failures + Missed(records, problems)
  }

  lemma AccountOne(before: Progress, p: Progress, records: seq<CleanupRecord>, problems: seq<Option<Reason>>,
                   r: CleanupRecord, problem: Option<Reason>)
    requires Accounts(before, p, records, problems)
    ensures Accounts(before, Note(p, r, problem), records + [r], problems + [problem])
  {
    assert (records + [r])[..|records|] == records && (problems + [problem])[..|records|] == problems;
  }

  lemma {:induction false} AccountBatch(before: Progress, p: Progress, records: seq<CleanupRecord>,
                                        problems: seq<Option<Reason>>, batch: seq<CleanupRecord>, failed: Failed)
    returns (more: seq<Option<Reason>>)
    requires Accounts(before, p, records, problems)
    ensures Accounts(before, NoteAll(p, batch, failed), records + batch, problems + more)
    decreases |batch|
  {
    more := [];
    if batch == [] {
      assert records + batch == records && problems + more == problems;
    } else {
      var rest, last := batch[..|batch| - 1], batch[|batch| - 1];
      var some := AccountBatch(before, p, records, problems, rest, failed);
      AccountOne(before, NoteAll(p, rest, failed), records + rest, problems + some, last, Lookup(failed, last));
      more := some + [Lookup(failed, last)];
      assert records + rest + [last] == records + batch && problems + some + [Lookup(failed, last)] == problems + more;
    }
  }

  // ----- What may be removed, and what is gone -----

  /** Objects only disappear, and only those that a routed record names and matches. */
  ghost predicate OnlyNamed(routes: Routes, before: SourceStore, after: SourceStore, records: seq<CleanupRecord>) {
    && (forall slot :: slot in after ==> slot in before && after[slot] == before[slot])
    && forall slot :: slot in before && slot !in after ==>
         exists r :: r in records && RouteProblem(r, routes).None? && RecordSlot(r) == slot
                     && (r.versionId.Some? || MatchesRecord(before[slot], r))
  }

  /**
   An answer to a batch would not list the version although it stays: its delete is accepted
   without effect, or refused in an entry that cannot be used.
   */
  predicate Misreports(service: Service, slot: Slot) {
    && service.batch.Answers? && slot.version.Some?
    && (if slot in service.denied then slot in service.batch.mangled else slot in service.sticky)
  }

  predicate Gone(service: Service, objects: SourceStore, r: CleanupRecord) {
    RecordSlot(r) !in objects || Misreports(service, RecordSlot(r))
  }

  ghost predicate AllGone(service: Service, p: Progress) {
    forall r :: r in p.cleaned ==> Gone(service, p.objects, r)
  }

  lemma NamedMore(routes: Routes, before: SourceStore, mid: SourceStore, after: SourceStore,
                  records: seq<CleanupRecord>, more: seq<CleanupRecord>)
    requires OnlyNamed(routes, before, mid, records) && OnlyNamed(routes, mid, after, more)
    ensures OnlyNamed(routes, before, after, records + more)
  {
    forall slot | slot in before && slot !in after
      ensures exists r :: r in records + more && RouteProblem(r, routes).None? && RecordSlot(r) == slot
                          && (r.versionId.Some? || MatchesRecord(before[slot], r))
    {
      if slot in mid {
        var r :| r in more && RouteProblem(r, routes).None? && RecordSlot(r) == slot
                 && (r.versionId.Some? || MatchesRecord(mid[slot], r));
        assert r in records + more;
      } else {
        var r :| r in records && RouteProblem(r, routes).None? && RecordSlot(r) == slot
                 && (r.versionId.Some? || MatchesRecord(before[slot], r));
        assert r in records + more;
      }
    }
  }

  lemma DeleteNamed(service: Service, routes: Routes, objects: SourceStore, r: CleanupRecord)
    requires RouteProblem(r, routes).None?
    ensures OnlyNamed(routes, objects, DeleteAndVerify(service, objects, r).0, [r])
    ensures DeleteAndVerify(service, objects, r).1.None? ==> Gone(service, DeleteAndVerify(service, objects, r).0, r)
  {
    assert r in [r];
  }

  lemma BatchNamed(service: Service, routes: Routes, objects: SourceStore, batch: seq<CleanupRecord>)
    requires OneBatch(routes, batch)
    ensures var (after, failed) := BatchFailures(service, objects, batch);
            && OnlyNamed(routes, objects, after, batch)
            && forall r :: r in batch && Lookup(failed, r).None? ==> Gone(service, after, r)
  {
    if service.batch == NotImplemented {
      forall r, q | r in batch && q in batch && (r.key, r.versionId) == (q.key, q.versionId)
        ensures RecordSlot(r) == RecordSlot(q)
      {
        BatchSharesSlots(routes, batch, r, q);
      }
      SerialOutcome(service, objects, batch);
    } else if service.batch.Answers? {
      forall r | r in batch && Lookup(FailuresIn(ErrorsFor(service, batch)), r).None?
        ensures RecordSlot(r) in service.denied ==> RecordSlot(r) in service.batch.mangled
      {
        ListedFailures(service, batch, (r.key, ErrorOf(service.batch, r).versionId));
      }
    }
  }

  lemma {:induction false} NotedAreBatch(p: Progress, batch: seq<CleanupRecord>, failed: Failed)
    ensures NoteAll(p, batch, failed).objects == p.objects
    ensures forall r :: r in NoteAll(p, batch, failed).cleaned ==>
              r in p.cleaned || (r in batch && Lookup(failed, r).None?)
    decreases |batch|
  {
    if batch != [] {
      NotedAreBatch(p, batch[..|batch| - 1], failed);
    }
  }

  /** The state of the generator after some records, whatever the service did. */
  ghost predicate Sound(service: Service, routes: Routes, start: Progress, s: State, records: seq<CleanupRecord>,
                        problems: seq<Option<Reason>>)
  {
    && |s.batch| <= |records| && s.batch == records[|records| - |s.batch|..]
    && OneBatch(routes, s.batch)
    && Accounts(start, s.progress, records[..|records| - |s.batch|], problems)
    && OnlyNamed(routes, start.objects, s.progress.objects, records)
    && AllGone(service, s.progress)
  }

  lemma FlushSound(service: Service, routes: Routes, start: Progress, s: State, records: seq<CleanupRecord>,
                   problems: seq<Option<Reason>>)
    returns (all: seq<Option<Reason>>)
    requires Sound(service, routes, start, s, records, problems)
    ensures Sound(service, routes, start, State(Flush(service, s.progress, s.batch), []), records, all)
  {
    var done := records[..|records| - |s.batch|];
    assert records == done + s.batch;
    all := problems;
    if s.batch == [] {
      assert done == records;
    } else {
      var (after, failed) := BatchFailures(service, s.progress.objects, s.batch);
      FlushNamed(service, routes, start.objects, s.progress, records, s.batch);
      var more := AccountBatch(start, s.progress.(objects := after), done, problems, s.batch, failed);
      all := problems + more;
    }
    EmptyBatch(service, routes, start, Flush(service, s.progress, s.batch), records, all);
  }

  lemma EmptyBatch(service: Service, routes: Routes, start: Progress, p: Progress, records: seq<CleanupRecord>,
                   problems: seq<Option<Reason>>)
    requires Accounts(start, p, records, problems)
    requires OnlyNamed(routes, start.objects, p.objects, records) && AllGone(service, p)
    ensures Sound(service, routes, start, State(p, []), records, problems)
  {
    assert records[..|records| - 0] == records && records[|records|..] == [];
  }

  lemma FlushNamed(service: Service, routes: Routes, before: SourceStore, p: Progress, records: seq<CleanupRecord>,
                   batch: seq<CleanupRecord>)
    requires OneBatch(routes, batch) && batch != [] && forall r :: r in batch ==> r in records
    requires OnlyNamed(routes, before, p.objects, records) && AllGone(service, p)
    ensures var end := Flush(service, p, batch);
            OnlyNamed(routes, before, end.objects, records) && AllGone(service, end)
  {
    var (after, failed) := BatchFailures(service, p.objects, batch);
    BatchNamed(service, routes, p.objects, batch);
    NamedMore(routes, before, p.objects, after, records, batch);
    NamedSame(routes, before, after, records, batch);
    NotedAreBatch(p.(objects := after), batch, failed);
  }

  /** Records that are there already need not be listed twice. */
  lemma NamedSame(routes: Routes, before: SourceStore, after: SourceStore, records: seq<CleanupRecord>,
                  again: seq<CleanupRecord>)
    requires OnlyNamed(routes, before, after, records + again) && forall r :: r in again ==> r in records
    ensures OnlyNamed(routes, before, after, records)
  {
    forall slot | slot in before && slot !in after
      ensures exists r :: r in records && RouteProblem(r, routes).None? && RecordSlot(r) == slot
                          && (r.versionId.Some? || MatchesRecord(before[slot], r))
    {
      var r :| r in records + again && RouteProblem(r, routes).None? && RecordSlot(r) == slot
               && (r.versionId.Some? || MatchesRecord(before[slot], r));
      assert r in records;
    }
  }

  lemma NamedGrows(routes: Routes, before: SourceStore, after: SourceStore, records: seq<CleanupRecord>,
                   r: CleanupRecord)
    requires OnlyNamed(routes, before, after, records)
    ensures OnlyNamed(routes, before, after, records + [r])
  {
    assert OnlyNamed(routes, after, after, [r]);
    NamedMore(routes, before, after, after, records, [r]);
  }

  /** Joining the batch is sound. */
  lemma JoinSound(service: Service, routes: Routes, start: Progress, s: State, records: seq<CleanupRecord>,
                  r: CleanupRecord, problems: seq<Option<Reason>>)
    requires Sound(service, routes, start, s, records, problems)
    requires Batchable(r, routes) && (s.batch != [] ==> s.batch[0].routeName == r.routeName)
    ensures Sound(service, routes, start, State(s.progress, s.batch + [r]), records + [r], problems)
  {
    var all, batch := records + [r], s.batch + [r];
    BatchGrows(routes, s.batch, r);
    NamedGrows(routes, start.objects, s.progress.objects, records, r);
    assert batch == all[|all| - |batch|..] && all[..|all| - |batch|] == records[..|records| - |s.batch|];
  }

  /** A record outside any batch: routed and deleted at once, or failed. */
  lemma OneSound(service: Service, routes: Routes, start: Progress, p: Progress, records: seq<CleanupRecord>,
                 r: CleanupRecord, problems: seq<Option<Reason>>)
    returns (all: seq<Option<Reason>>)
    requires Sound(service, routes, start, State(p, []), records, problems)
    ensures Sound(service, routes, start, State(DoOne(service, routes, p, r), []), records + [r], all)
  {
    assert records[..|records| - 0] == records && (records + [r])[..|records + [r]| - 0] == records + [r];
    assert (records + [r])[|records + [r]|..] == [];
    if RouteProblem(r, routes).Some? {
      all := problems + [RouteProblem(r, routes)];
      AccountOne(start, p, records, problems, r, RouteProblem(r, routes));
      NamedGrows(routes, start.objects, p.objects, records, r);
    } else {
      var (after, problem) := DeleteAndVerify(service, p.objects, r);
      DeleteNamed(service, routes, p.objects, r);
      NamedMore(routes, start.objects, p.objects, after, records, [r]);
      AccountOne(start, p.(objects := after), records, problems, r, problem);
      all := problems + [problem];
    }
  }

  lemma TakeSound(service: Service, routes: Routes, start: Progress, s: State, records: seq<CleanupRecord>,
                  r: CleanupRecord, problems: seq<Option<Reason>>)
    returns (all: seq<Option<Reason>>)
    requires Sound(service, routes, start, s, records, problems)
    ensures Sound(service, routes, start, Take(service, routes, s, r), records + [r], all)
  {
    if !Batchable(r, routes) {
      var flushed := FlushSound(service, routes, start, s, records, problems);
      all := OneSound(service, routes, start, Flush(service, s.progress, s.batch), records, r, flushed);
    } else if s.batch != [] && s.batch[0].routeName != r.routeName {
      var flushed := FlushSound(service, routes, start, s, records, problems);
      all := JoinAndFlushSound(service, routes, start, State(Flush(service, s.progress, s.batch), []), records, r,
          flushed);
    } else {
      all := JoinAndFlushSound(service, routes, start, s, records, r, problems);
    }
  }

  lemma JoinAndFlushSound(service: Service, routes: Routes, start: Progress, s: State, records: seq<CleanupRecord>,
                          r: CleanupRecord, problems: seq<Option<Reason>>)
    returns (all: seq<Option<Reason>>)
    requires Sound(service, routes, start, s, records, problems)
    requires Batchable(r, routes) && (s.batch != [] ==> s.batch[0].routeName == r.routeName)
    ensures var batch := s.batch + [r];
            var after := if |batch| >= DELETE_BATCH_SIZE then State(Flush(service, s.progress, batch), [])
                         else State(s.progress, batch);
            Sound(service, routes, start, after, records + [r], all)
  {
    all := problems;
    JoinSound(service, routes, start, s, records, r, problems);
    if |s.batch + [r]| >= DELETE_BATCH_SIZE {
      all := FlushSound(service, routes, start, State(s.progress, s.batch + [r]), records + [r], problems);
    }
  }

  lemma {:induction false} TakeAllSound(service: Service, routes: Routes, start: Progress, records: seq<CleanupRecord>)
    returns (problems: seq<Option<Reason>>)
    requires start.cleaned == []
    ensures Sound(service, routes, start, TakeAll(service, routes, State(start, []), records), records, problems)
    decreases |records|
  {
    problems := [];
    if records != [] {
      var rest, last := records[..|records| - 1], records[|records| - 1];
      assert records == rest + [last];
      var some := TakeAllSound(service, routes, start, rest);
      problems := TakeSound(service, routes, start, TakeAll(service, routes, State(start, []), rest), rest, last, some);
    }
  }

  lemma {:induction false} KeptAndMissed(records: seq<CleanupRecord>, problems: seq<Option<Reason>>)
    requires |problems| == |records|
    ensures |Kept(records, problems)| + |Missed(records, problems)| == |records|
    decreases |records|
  {
    if records != [] {
      KeptAndMissed(records[..|records| - 1], problems[..|records| - 1]);
    }
  }

  lemma {:induction false} KeptIsSubsequence(records: seq<CleanupRecord>, problems: seq<Option<Reason>>)
    returns (places: seq<nat>)
    requires |problems| == |records|
    ensures Membership.Picks(Kept(records, problems), records, places)
    decreases |records|
  {
    places := [];
    if records != [] {
      var rest, last := records[..|records| - 1], records[|records| - 1];
      var some := problems[..|records| - 1];
      places := KeptIsSubsequence(rest, some);
      assert records == rest + [last];
      if problems[|records| - 1].None? {
        PickLast(Kept(rest, some), rest, last, places);
        places := places + [|rest|];
      } else {
        PickNoMore(Kept(rest, some), rest, last, places);
      }
    }
  }

  lemma PickLast<T>(part: seq<T>, whole: seq<T>, last: T, places: seq<nat>)
    requires Membership.Picks(part, whole, places)
    ensures Membership.Picks(part + [last], whole + [last], places + [|whole|])
  {
  }

  lemma PickNoMore<T>(part: seq<T>, whole: seq<T>, last: T, places: seq<nat>)
    requires Membership.Picks(part, whole, places)
    ensures Membership.Picks(part, whole + [last], places)
  {
  }

  lemma {:induction false} PicksOfPrefix<T>(part: seq<T>, whole: seq<T>, k: nat, places: seq<nat>)
    requires k <= |whole| && Membership.Picks(part, whole[..k], places)
    ensures Membership.Picks(part, whole, places)
  {
  }

  /**
   Whatever the service does: the records passed on are a subsequence of the manifest; on a
   run that is not out of time each record is either passed on or failed; whatever was
   passed on is gone, up to the batch API keeping what it said it deleted; and nothing
   disappears that a record did not name and match.
   */
  lemma GenerateAccountsForAll(service: Service, routes: Routes, objects: SourceStore, records: seq<CleanupRecord>,
                               timeoutAt: Option<nat>)
    ensures var end := Generate(service, routes, objects, records, timeoutAt);
            && Membership.Subsequence(end.cleaned, records)
            && (timeoutAt.None? ==> |end.cleaned| + |end.failures| == |records|)
            && AllGone(service, end)
            && OnlyNamed(routes, objects, end.objects, records)
  {
    if timeoutAt.Some? && timeoutAt.value < |records| {
      TimedOutAccounts(service, routes, objects, records, timeoutAt.value);
    } else {
      FullAccounts(service, routes, objects, records);
    }
  }

  lemma TimedOutAccounts(service: Service, routes: Routes, objects: SourceStore, records: seq<CleanupRecord>, at: nat)
    requires at < |records|
    ensures var end := Generate(service, routes, objects, records, Some(at));
            && Membership.Subsequence(end.cleaned, records)
            && AllGone(service, end)
            && OnlyNamed(routes, objects, end.objects, records)
  {
    var start, taken := Progress(objects, [], []), records[..at];
    var problems := TakeAllSound(service, routes, start, taken);
    var s := TakeAll(service, routes, State(start, []), taken);
    var k := at - |s.batch|;
    assert taken[..k] == records[..k];
    var places := KeptIsSubsequence(taken[..k], problems);
    PicksOfPrefix(s.progress.cleaned, records, k, places);
    NamedPrefix(routes, objects, s.progress.objects, records, at);
  }

  lemma FullAccounts(service: Service, routes: Routes, objects: SourceStore, records: seq<CleanupRecord>)
    ensures var end := Generate(service, routes, objects, records, None);
            && Membership.Subsequence(end.cleaned, records)
            && |end.cleaned| + |end.failures| == |records|
            && AllGone(service, end)
            && OnlyNamed(routes, objects, end.objects, records)
  {
    var start := Progress(objects, [], []);
    var some := TakeAllSound(service, routes, start, records);
    var s := TakeAll(service, routes, State(start, []), records);
    var problems := FlushSound(service, routes, start, s, records, some);
    assert records[..|records| - 0] == records;
    var places := KeptIsSubsequence(records, problems);
    KeptAndMissed(records, problems);
    assert Membership.Picks(Flush(service, s.progress, s.batch).cleaned, records, places);
  }

  lemma NamedPrefix(routes: Routes, before: SourceStore, after: SourceStore, records: seq<CleanupRecord>, k: nat)
    requires k <= |records| && OnlyNamed(routes, before, after, records[..k])
    ensures OnlyNamed(routes, before, after, records)
  {
    assert OnlyNamed(routes, after, after, records[k..]);
    NamedMore(routes, before, after, after, records[..k], records[k..]);
    assert records[..k] + records[k..] == records;
  }

  // ----- When everything passed on is gone -----

  ghost predicate PassesOnOnlyGone(service: Service) {
    forall routes: Routes, objects, records, timeoutAt, r ::
      r in Generate(service, routes, objects, records, timeoutAt).cleaned
      ==> RecordSlot(r) !in Generate(service, routes, objects, records, timeoutAt).objects
  }

  function RecordAt(slot: Slot): CleanupRecord {
    CleanupRecord("route", slot.identity, slot.bucket, slot.key, slot.version, 0, None, "", "", "", Manifest.DailyTarGz)
  }

  function RouteTo(slot: Slot): Routes {
    map["route" := Route("route", slot.identity, slot.bucket, true)]
  }

  /** One object, one record, one batch: passed on, and still there. */
  lemma MisreportedIsPassedOn(service: Service, slot: Slot, content: SourceObject)
    requires Misreports(service, slot)
    ensures Generate(service, RouteTo(slot), map[slot := content], [RecordAt(slot)], None)
         == Progress(map[slot := content], [RecordAt(slot)], [])
  {
    var r, objects := RecordAt(slot), map[slot := content];
    var start := State(Progress(objects, [], []), []);
    assert RecordSlot(r) == slot && [r][..0] == [];
    assert TakeAll(service, RouteTo(slot), start, [r]) == Take(service, RouteTo(slot), start, r);
    assert [] + [r] == [r];
    assert Take(service, RouteTo(slot), start, r) == State(start.progress, [r]);
    NothingListed(service, r);
    assert Slots([r]) == {slot};
    assert objects - (Slots([r]) - service.denied - service.sticky) == objects;
    var failed: Failed := map[];
    assert NoteAll(start.progress, [r], failed) == Note(NoteAll(start.progress, [], failed), r, None);
  }

  lemma NothingListed(service: Service, r: CleanupRecord)
    requires Misreports(service, RecordSlot(r))
    ensures FailuresIn(ErrorsFor(service, [r])) == map[]
  {
    assert [r][..0] == [];
    assert ErrorsFor(service, [r]) == if RecordSlot(r) in service.denied then [ErrorOf(service.batch, r)] else [];
    assert [ErrorOf(service.batch, r)][..0] == [];
  }

  /** Whatever is passed on is gone, on every run, exactly when the batch API misreports no version. */
  lemma PassedOnIsGoneExactly(service: Service)
    ensures PassesOnOnlyGone(service) <==> forall slot :: !Misreports(service, slot)
  {
    if forall slot :: !Misreports(service, slot) {
      forall routes: Routes, objects, records, timeoutAt, r |
        r in Generate(service, routes, objects, records, timeoutAt).cleaned
        ensures RecordSlot(r) !in Generate(service, routes, objects, records, timeoutAt).objects
      {
        GenerateAccountsForAll(service, routes, objects, records, timeoutAt);
      }
    } else {
      var slot :| Misreports(service, slot);
      MisreportedIsPassedOn(service, slot, SourceObject(None, ""));
      var objects := map[slot := SourceObject(None, "")];
      assert RecordAt(slot) in Generate(service, RouteTo(slot), objects, [RecordAt(slot)], None).cleaned;
    }
  }
}
