/**
 What an archive run does, and then a cleanup run, told as events: the records written for
 cleanup are pending when it begins, and its deletes are deletes of pending records.
 */
module WholeRuns {
  import opened Wrappers
  import opened Manifest
  import opened Stores
  import opened CopyTask
  import opened NoLoss
  import opened CopyEvents
  import ArchiveRun
  import Cleanup
  import CleanupRuns
  import CopyGroup
  import Deletion
  import Losses

  // ----- Copies -----

  /** Nothing of the run from a piece on. */
  ghost predicate Unstarted(tasks: map<Ticket, Task>, run: string, piece: nat) {
    forall t :: t in tasks && t.run == run ==> t.piece < piece
  }

  ghost predicate AtRest(tasks: map<Ticket, Task>) {
    forall t :: t in tasks ==> !Active(tasks[t])
  }

  ghost predicate AllArchives(works: seq<Work>) {
    forall work :: work in works ==> work.Archive? && WorkOk(work)
  }

  /** Only the destination and the tasks differ. */
  ghost predicate Copying(before: World, after: World) {
    after == before.(dest := after.dest, tasks := after.tasks)
  }

  ghost predicate Ended(tasks: map<Ticket, Task>, ticket: Ticket, task: Task) {
    ticket in tasks && tasks[ticket] == task
  }

  ghost predicate Extends(before: map<Ticket, Task>, after: map<Ticket, Task>) {
    forall t :: t in before ==> t in after && after[t] == before[t]
  }

  ghost predicate AllEnded(tasks: map<Ticket, Task>, run: string, piece: nat, works: seq<Work>, ends: seq<Phase>) {
    |ends| == |works| && forall i :: 0 <= i < |works| ==> Ended(tasks, Ticket(run, piece + i), Task(works[i], ends[i]))
  }

  lemma AllEndedPrepend(tasks: map<Ticket, Task>, run: string, piece: nat, works: seq<Work>, ends: seq<Phase>)
    requires works != [] && |ends| == |works|
    requires Ended(tasks, Ticket(run, piece), Task(works[0], ends[0]))
    requires AllEnded(tasks, run, piece + 1, works[1..], ends[1..])
    ensures AllEnded(tasks, run, piece, works, ends)
  {
    forall i | 0 <= i < |works| ensures Ended(tasks, Ticket(run, piece + i), Task(works[i], ends[i])) {
      if i > 0 {
        assert Ended(tasks, Ticket(run, piece + 1 + (i - 1)), Task(works[1..][i - 1], ends[1..][i - 1]));
        assert piece + 1 + (i - 1) == piece + i;
      }
    }
  }

  lemma AllEndedTail(tasks: map<Ticket, Task>, run: string, piece: nat, works: seq<Work>, ends: seq<Phase>)
    requires works != [] && AllEnded(tasks, run, piece, works, ends)
    ensures Ended(tasks, Ticket(run, piece), Task(works[0], ends[0]))
    ensures AllEnded(tasks, run, piece + 1, works[1..], ends[1..])
  {
    assert Ended(tasks, Ticket(run, piece + 0), Task(works[0], ends[0]));
    forall i | 0 <= i < |works| - 1
        ensures Ended(tasks, Ticket(run, piece + 1 + i), Task(works[1..][i], ends[1..][i])) {
      assert Ended(tasks, Ticket(run, piece + (i + 1)), Task(works[i + 1], ends[i + 1]));
    }
  }

  lemma CopyAllHead(source: SourceStore, dest: DestStore, works: seq<Work>)
    requires works != [] && forall work :: work in works ==> work.Archive?
    ensures var work := works[0];
            var (next, end) := CopyGroup.Outcome(source, dest, work.group, work.tarSize, work.sidecarSize);
            var (last, ends) := CopyGroup.CopyAll(source, next, works[1..]);
            CopyGroup.CopyAll(source, dest, works) == (last, [end] + ends)
  {
  }

  /** One copy more: at rest again, and the run's later pieces unstarted. */
  lemma OneCopy(w: World, ticket: Ticket, work: Work) returns (events: seq<Event>)
    requires work.Archive? && WorkOk(work) && Unstarted(w.tasks, ticket.run, ticket.piece) && AtRest(w.tasks)
    ensures Keeps(STRICT, w, events)
    ensures var end := Run(w, events);
            && AtRest(end.tasks) && Copying(w, end) && Extends(w.tasks, end.tasks)
                && Unstarted(end.tasks, ticket.run, ticket.piece + 1)
            && var (dest, phase) := CopyGroup.Outcome(w.source, w.dest, work.group, work.tarSize, work.sidecarSize);
               end.dest == dest && Ended(end.tasks, ticket, Task(work, phase))
  {
    assert ticket !in w.tasks;
    events := CopyAsEvents(w, ticket, work);
    OutcomeEnds(w.source, w.dest, work);
  }

  /** The copies of a manifest, one after the other, each to its end. */
  lemma {:induction false} CopiesAsEvents(w: World, run: string, works: seq<Work>, piece: nat)
    returns (events: seq<Event>)
    requires AllArchives(works) && Unstarted(w.tasks, run, piece) && AtRest(w.tasks)
    ensures Keeps(STRICT, w, events)
    ensures var end := Run(w, events);
            && AtRest(end.tasks) && Copying(w, end) && Extends(w.tasks, end.tasks)
            && end.dest == CopyGroup.CopyAll(w.source, w.dest, works).0
            && AllEnded(end.tasks, run, piece, works, CopyGroup.CopyAll(w.source, w.dest, works).1)
    decreases |works|
  {
    if works == [] {
      events := [];
    } else {
      var ticket := Ticket(run, piece);
      var copied := OneCopy(w, ticket, works[0]);
      var next := Run(w, copied);
      var rest := CopiesAsEvents(next, run, works[1..], piece + 1);
      events := copied + rest;
      RunAppends(w, copied, rest);
      KeepsAppends(STRICT, w, copied, rest);
      CopyAllHead(w.source, w.dest, works);
      var end, ends := Run(w, events), CopyGroup.CopyAll(w.source, w.dest, works).1;
      assert ends[1..] == CopyGroup.CopyAll(w.source, next.dest, works[1..]).1;
      AllEndedPrepend(end.tasks, run, piece, works, ends);
    }
  }

  lemma OutcomeEnds(source: SourceStore, dest: DestStore, work: Work)
    requires work.Archive?
    ensures var end := CopyGroup.Outcome(source, dest, work.group, work.tarSize, work.sidecarSize).1;
            !Active(Task(work, end))
  {
  }

  // ----- Verification and export -----

  /** Each finished copy is looked at again; those whose archive is as expected are verified. */
  lemma {:induction false} VerifiesAsEvents(w: World, run: string, works: seq<Work>, ends: seq<Phase>, piece: nat)
    returns (events: seq<Event>)
    requires AllArchives(works) && AllEnded(w.tasks, run, piece, works, ends)
    ensures forall event :: event in events ==> Harmless(event)
    ensures var end := Run(w, events);
            && end == w.(tasks := end.tasks, verified := end.verified) && w.verified <= end.verified
            && forall i :: 0 <= i < |works| && ends[i] == Done && CopyGroup.Verifies(w.dest, works[i].group) ==>
                works[i].group in end.verified
    decreases |works|
  {
    if works == [] {
      events := [];
    } else {
      var ticket := Ticket(run, piece);
      var next := Apply(w, Verify(ticket));
      AllEndedTail(w.tasks, run, piece, works, ends);
      AllEndedElsewhere(w.tasks, next.tasks, run, piece, works[1..], ends[1..]);
      var rest := VerifiesAsEvents(next, run, works[1..], ends[1..], piece + 1);
      events := [Verify(ticket)] + rest;
      RunPrepend(w, Verify(ticket), rest);
      forall i | 0 <= i < |works| && ends[i] == Done && CopyGroup.Verifies(w.dest, works[i].group)
        ensures works[i].group in Run(w, events).verified
      {
        if i > 0 {
          assert works[1..][i - 1] == works[i] && ends[1..][i - 1] == ends[i];
        }
      }
    }
  }

  lemma AllEndedElsewhere(before: map<Ticket, Task>, after: map<Ticket, Task>, run: string, piece: nat,
                          works: seq<Work>, ends: seq<Phase>)
    requires AllEnded(before, run, piece + 1, works, ends)
    requires after == before || after == before - {Ticket(run, piece)}
    ensures AllEnded(after, run, piece + 1, works, ends)
  {
    forall i | 0 <= i < |works| ensures Ended(after, Ticket(run, piece + 1 + i), Task(works[i], ends[i])) {
      assert Ended(before, Ticket(run, piece + 1 + i), Task(works[i], ends[i]));
    }
  }

  lemma {:induction false} ExportsAsEvents(w: World, groups: seq<Group>) returns (events: seq<Event>)
    ensures forall event :: event in events ==> Harmless(event)
    ensures var end := Run(w, events);
            && end == w.(pending := end.pending) && w.pending <= end.pending
            && forall g :: g in groups && g in w.verified ==> RecordsOf(g) <= end.pending
    decreases |groups|
  {
    if groups == [] {
      events := [];
    } else {
      var rest := ExportsAsEvents(Apply(w, Export(groups[0])), groups[1..]);
      events := [Export(groups[0])] + rest;
      RunPrepend(w, Export(groups[0]), rest);
    }
  }

  // ----- An archive run -----

  /** The works are those of the items, which all are archive groups. */
  ghost predicate WorksOf(items: seq<ArchiveRun.Item>, works: seq<Work>) {
    && |works| == |items| && AllArchives(works) && CopyGroup.DistinctAddresses(works)
    && (forall i :: 0 <= i < |items| ==>
          !items[i].direct && works[i].group.address == items[i].address && works[i].group.entries == items[i].entries)
  }

  /** An item the run counts as copied did end well. */
  ghost predicate Truthful(w: World, items: seq<ArchiveRun.Item>, works: seq<Work>, routes: seq<string>,
                           log: ArchiveRun.RunLog)
    requires WorksOf(items, works)
  {
    var ends := CopyGroup.CopyAll(w.source, w.dest, works).1;
    forall i :: 0 <= i < |items| && items[i] in ArchiveRun.Copied(items, routes, log) ==> i < |ends| && ends[i] == Done
  }

  function GroupsOf(works: seq<Work>): seq<Group>
    requires forall work :: work in works ==> work.Archive?
  {
    seq(|works|, i requires 0 <= i < |works| => works[i].group)
  }

  /** An entry recorded for cleanup is of a copy that ended well and still verifies after all copies. */
  lemma VerifiedEndedWell(w: World, items: seq<ArchiveRun.Item>, works: seq<Work>, routes: seq<string>,
                          log: ArchiveRun.RunLog, e: Entry)
    returns (i: nat)
    requires WorksOf(items, works) && ArchiveRun.Consistent(items, routes, log)
               && Truthful(w, items, works, routes, log)
    requires e in ArchiveRun.Verified(items, routes, log)
    ensures var (dest, ends) := CopyGroup.CopyAll(w.source, w.dest, works);
            && i < |works| == |ends| && ends[i] == Done && CopyGroup.Verifies(dest, works[i].group)
            && RecordOf(e) in RecordsOf(works[i].group)
  {
    var item := ArchiveRun.CleanupOnlyOfVerified(items, routes, log, e);
    i :| 0 <= i < |items| && items[i] == item;
    CopyGroup.CopiedGroupsVerify(w.source, w.dest, works, i);
  }

  /**
   An archive run with nobody else at work is a series of events that keeps the strict
   discipline, and everything it hands to cleanup is pending at its end.
   */
  lemma ArchiveRunAsEvents(w: World, run: string, items: seq<ArchiveRun.Item>, works: seq<Work>, routes: seq<string>,
                           log: ArchiveRun.RunLog)
    returns (events: seq<Event>)
    requires WorksOf(items, works) && ArchiveRun.Consistent(items, routes, log)
               && Truthful(w, items, works, routes, log)
    requires Unstarted(w.tasks, run, 0) && AtRest(w.tasks)
    ensures Keeps(STRICT, w, events)
    ensures var end := Run(w, events);
            && end.dest == CopyGroup.CopyAll(w.source, w.dest, works).0 && end.source == w.source
                && end.attempts == w.attempts
            && forall e :: e in ArchiveRun.Verified(items, routes, log) ==> RecordOf(e) in end.pending
  {
    var copies := CopiesAsEvents(w, run, works, 0);
    var copied := Run(w, copies);
    var ends := CopyGroup.CopyAll(w.source, w.dest, works).1;
    var verifies := VerifiesAsEvents(copied, run, works, ends, 0);
    var verified := Run(copied, verifies);
    var exports := ExportsAsEvents(verified, GroupsOf(works));
    var end := Run(verified, exports);
    events := copies + (verifies + exports);
    RunAppends(w, copies, verifies + exports);
    RunAppends(copied, verifies, exports);
    HarmlessKeeps(STRICT, copied, verifies + exports);
    KeepsAppends(STRICT, w, copies, verifies + exports);
    forall e | e in ArchiveRun.Verified(items, routes, log) ensures RecordOf(e) in end.pending {
      var i := VerifiedEndedWell(w, items, works, routes, log, e);
      assert works[i].group in verified.verified && GroupsOf(works)[i] in GroupsOf(works);
    }
  }

  // ----- A cleanup run -----

  /** An object that is gone was named by a pending record; a check and a delete remove it. */
  lemma OneRemoval(w: World, routes: Cleanup.Routes, after: SourceStore, records: seq<CleanupRecord>, id: nat,
                   slot: Slot)
    returns (events: seq<Event>)
    requires (forall r :: r in records ==> r in w.pending) && id !in w.attempts
    requires CleanupRuns.OnlyNamed(routes, w.source, after, records) && slot in w.source && slot !in after
    ensures Keeps(STRICT, w, events)
    ensures forall event :: event in events && event.StartDelete? ==> event.record in records
    ensures var v := VersionAt(w.source, slot);
            Run(w, events) == w.(source := w.source - {slot}, deleted := w.deleted + {v})
    ensures CleanupRuns.OnlyNamed(routes, w.source - {slot}, after, records)
  {
    hide Deletion.AttemptStep, Cleanup.RouteProblem, Keeps;
    var r :| r in records && Cleanup.RouteProblem(r, routes).None? && RecordSlot(r) == slot
             && (r.versionId.Some? || Cleanup.MatchesRecord(w.source[slot], r));
    var start, step, stop := StartDelete(id, r), DeleteStep(id, Losses.HONEST), StopDelete(id);
    events := [start] + ([step] + ([step] + [stop]));
    var w1 := Apply(w, start);
    RunPrepend(w, start, [step] + ([step] + [stop]));
    RequestRemoves(w1, id, r);
    var v := VersionAt(w.source, slot);
    assert w1.attempts - {id} == w.attempts;
    HonestKeeps(w, events);
    NamedLess(routes, w.source, after, records, slot);
  }

  lemma NamedLess(routes: Cleanup.Routes, before: SourceStore, after: SourceStore, records: seq<CleanupRecord>,
                  slot: Slot)
    requires CleanupRuns.OnlyNamed(routes, before, after, records) && slot !in after
    ensures CleanupRuns.OnlyNamed(routes, before - {slot}, after, records)
  {
  }

  lemma {:induction false} HonestKeeps(w: World, events: seq<Event>)
    requires forall event :: event in events ==> !event.Start? && (event.DeleteStep? ==> event.service.honoursIfMatch)
    ensures Keeps(STRICT, w, events)
    decreases |events|
  {
    if events != [] {
      assert events[0] in events && forall event :: event in events[1..] ==> event in events;
      HonestKeeps(Apply(w, events[0]), events[1..]);
    }
  }

  lemma RequestRemoves(w: World, id: nat, r: CleanupRecord)
    requires id in w.attempts && w.attempts[id] == Deletion.Begin(r) && RecordSlot(r) in w.source
    requires r.versionId.Some? || Cleanup.MatchesRecord(w.source[RecordSlot(r)], r)
    ensures var step, stop := DeleteStep(id, Losses.HONEST), StopDelete(id);
            Run(w, [step] + ([step] + [stop])) ==
            w.(source := w.source - {RecordSlot(r)}, attempts := w.attempts - {id},
               deleted := w.deleted + {VersionAt(w.source, RecordSlot(r))})
  {
    hide Deletion.AttemptStep, Deletion.Begin, Cleanup.MatchesRecord;
    var step, stop := DeleteStep(id, Losses.HONEST), StopDelete(id);
    TwoRequests(w.source, r);
    var w1 := Apply(w, step);
    var w2 := Apply(w1, step);
    var w3 := Apply(w2, stop);
    RunOne(w2, stop);
    RunPrepend(w1, step, [stop]);
    RunPrepend(w, step, [step] + [stop]);
    assert w2.source == w.source - {RecordSlot(r)};
    assert w3.attempts == w.attempts - {id};
  }

  /** A check and a conditional delete, or a delete and a look, of what is unchanged. */
  lemma TwoRequests(objects: SourceStore, r: CleanupRecord)
    requires RecordSlot(r) in objects && (r.versionId.Some? || Cleanup.MatchesRecord(objects[RecordSlot(r)], r))
    ensures var (mid, next) := Deletion.AttemptStep(Losses.HONEST, objects, Deletion.Begin(r));
            var (after, last) := Deletion.AttemptStep(Losses.HONEST, mid, next);
            && Deletion.Begin(r).record == next.record == last.record == r
            && after == objects - {RecordSlot(r)} && (mid == objects || mid == after)
  {
  }

  /** A run of the cleanup engine on pending records is a series of checked deletes of them. */
  lemma CleanupAsEvents(w: World, service: Cleanup.Service, routes: Cleanup.Routes, records: seq<CleanupRecord>,
                        timeoutAt: Option<nat>, id: nat)
    returns (events: seq<Event>)
    requires (forall r :: r in records ==> r in w.pending) && id !in w.attempts
    ensures Keeps(STRICT, w, events)
    ensures forall event :: event in events && event.StartDelete? ==> event.record in records
    ensures var end := Run(w, events);
            && end == w.(source := end.source, deleted := end.deleted)
            && end.source == Cleanup.Generate(service, routes, w.source, records, timeoutAt).objects
  {
    var after := Cleanup.Generate(service, routes, w.source, records, timeoutAt).objects;
    CleanupRuns.GenerateAccountsForAll(service, routes, w.source, records, timeoutAt);
    events := RemovalsAsEvents(w, routes, after, records, id, w.source.Keys - after.Keys);
  }

  lemma {:induction false} RemovalsAsEvents(w: World, routes: Cleanup.Routes, after: SourceStore,
                                            records: seq<CleanupRecord>, id: nat, gone: set<Slot>)
    returns (events: seq<Event>)
    requires (forall r :: r in records ==> r in w.pending) && id !in w.attempts
    requires CleanupRuns.OnlyNamed(routes, w.source, after, records) && gone == w.source.Keys - after.Keys
    ensures Keeps(STRICT, w, events)
    ensures forall event :: event in events && event.StartDelete? ==> event.record in records
    ensures Run(w, events) == w.(source := after, deleted := Run(w, events).deleted)
    decreases gone
  {
    if gone == {} {
      events := [];
      assert forall slot :: slot in w.source && slot !in after ==> slot in gone;
      assert w.source == after;
    } else {
      var slot :| slot in gone;
      var first := OneRemoval(w, routes, after, records, id, slot);
      var next := Run(w, first);
      assert next.source.Keys - after.Keys == gone - {slot};
      var rest := RemovalsAsEvents(next, routes, after, records, id, gone - {slot});
      events := first + rest;
      RunAppends(w, first, rest);
      KeepsAppends(STRICT, w, first, rest);
    }
  }

  /** An archive run and the cleanup of what it exported, as one series of events of the strict discipline. */
  lemma ArchiveThenCleanup(w: World, run: string, items: seq<ArchiveRun.Item>, works: seq<Work>, routes: seq<string>,
                           log: ArchiveRun.RunLog,
                           service: Cleanup.Service, targets: Cleanup.Routes, timeoutAt: Option<nat>, id: nat)
    returns (events: seq<Event>)
    requires WorksOf(items, works) && ArchiveRun.Consistent(items, routes, log)
               && Truthful(w, items, works, routes, log)
    requires Unstarted(w.tasks, run, 0) && AtRest(w.tasks) && id !in w.attempts
    ensures Keeps(STRICT, w, events)
    ensures var records := ArchiveRun.RecordsFor(ArchiveRun.Verified(items, routes, log));
            && Run(w, events).source == Cleanup.Generate(service, targets, w.source, records, timeoutAt).objects
            && Run(w, events).dest == CopyGroup.CopyAll(w.source, w.dest, works).0
  {
    var records := ArchiveRun.RecordsFor(ArchiveRun.Verified(items, routes, log));
    var archived := ArchiveRunAsEvents(w, run, items, works, routes, log);
    var mid := Run(w, archived);
    forall r | r in records ensures r in mid.pending {
      var k :| 0 <= k < |records| && records[k] == r;
      assert ArchiveRun.Verified(items, routes, log)[k] in ArchiveRun.Verified(items, routes, log);
    }
    var cleaned := CleanupAsEvents(mid, service, targets, records, timeoutAt, id);
    events := archived + cleaned;
    RunAppends(w, archived, cleaned);
    KeepsAppends(STRICT, w, archived, cleaned);
  }
}
