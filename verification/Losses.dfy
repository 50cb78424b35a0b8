/**
 Both parts of the discipline are needed: without one writer for an address, or without
 If-Match on deletes, there is a run that deletes a version no archive holds.
 */
module Losses {
  import opened Wrappers
  import opened Manifest
  import opened Stores
  import opened CopyTask
  import opened Deletion
  import opened NoLoss
  import opened CopyEvents
  import Cleanup
  import CopyGroup

  function Listed(key: string, etag: string): Entry {
    Entry("route", "parser", DailyTarGz, "source", "bucket", "", key, None, Some(etag), 1, None, None,
          "day", "", "destination", "archive", key, "day.tar.gz")
  }

  function Content(etag: string): SourceObject {
    SourceObject(Some(etag), "p")
  }

  /** The archive of one object; every such archive has the same address. */
  function OneMember(e: Entry): Work {
    Archive(Group(Address("archive", "day.tar.gz"), "day", [e], None, None), 1, 1)
  }

  function MemberOf(e: Entry): Member {
    Member(RowOf(e), "p")
  }

  /** The destination with that archive, and its sidecar, put in place. */
  function Replaced(dest: DestStore, e: Entry): DestStore {
    var g := OneMember(e).group;
    CopyGroup.WithArchive(CopyGroup.WithSidecar(dest, g, 1), g, [MemberOf(e)], 1)
  }

  const HONEST := Cleanup.Service({}, {}, {}, Cleanup.NotImplemented, true)
  const PLAIN := HONEST.(honoursIfMatch := false)

  lemma OneMemberIsOk(e: Entry)
    requires e.destinationArchiveKey == "day.tar.gz" && e.destinationBucket == "archive"
    ensures WorkOk(OneMember(e))
  {
  }

  /** Into an empty place the copy goes through, and the archive has that one member. */
  lemma OneMemberIsCopied(source: SourceStore, dest: DestStore, e: Entry)
    requires At(OneMember(e).group.address) !in dest && StageEntry(source, e) == Ok(MemberOf(e))
    ensures CopyGroup.Outcome(source, dest, OneMember(e).group, 1, 1) == (Replaced(dest, e), Done)
  {
    var nothing: seq<Member> := [];
    assert nothing + [MemberOf(e)] == [MemberOf(e)];
    assert CopyGroup.StageFrom(source, [e], []) == CopyGroup.StageFrom(source, [e], [MemberOf(e)]) == Ok([MemberOf(e)]);
  }

  /** A copy that looked and staged before replaces whatever is there by then. */
  lemma StagedReplaces(source: SourceStore, dest: DestStore, e: Entry)
    ensures Complete(source, dest, Task(OneMember(e), Staging([MemberOf(e)]))).0 == Replaced(dest, e)
  {
    CopyGroup.StagingCompletes(source, dest, OneMember(e).group, 1, 1, [MemberOf(e)]);
  }

  /** Nothing but the one archive, with only this member, is an archive. */
  ghost predicate OnlyMember(dest: DestStore, e: Entry) {
    forall a :: IsArchive(dest, a) ==> dest[At(a)].body.members == [MemberOf(e)]
  }

  lemma OnlyMemberStored(dest: DestStore, e: Entry)
    requires forall a :: IsArchive(dest, a) ==> a == OneMember(e).group.address
    ensures OnlyMember(Replaced(dest, e), e)
    ensures forall a :: IsArchive(Replaced(dest, e), a) ==> a == OneMember(e).group.address
  {
    forall a | IsArchive(Replaced(dest, e), a)
      ensures a == OneMember(e).group.address && Replaced(dest, e)[At(a)].body.members == [MemberOf(e)]
    {
      if a != OneMember(e).group.address {
        assert At(a) != SidecarKey(OneMember(e).group);
        assert IsArchive(dest, a);
      }
    }
  }

  lemma OnlyMemberPreservesOnlyIt(dest: DestStore, e: Entry, v: Version, payload: Payload)
    requires OnlyMember(dest, e) && Version(SlotOf(e), e.etag) != v && e.etag.Some?
    ensures !Preserved(dest, v, payload)
  {
  }

  // ----- A verified archive and a delete under way -----

  /** From a world with the object in the source to one with its archive, exported and under deletion. */
  lemma ExportedAsEvents(w: World, ticket: Ticket, e: Entry) returns (events: seq<Event>)
    requires e.destinationArchiveKey == "day.tar.gz" && e.destinationBucket == "archive"
    requires ticket !in w.tasks && 0 !in w.attempts && At(OneMember(e).group.address) !in w.dest
    requires StageEntry(w.source, e) == Ok(MemberOf(e)) && e.versionId.None?
    requires w.verified == {} && w.pending == {}
    ensures forall event :: event in events && event.Start? ==> event == Start(ticket, OneMember(e))
    ensures forall event :: event in events ==> !event.DeleteStep?
    ensures !Busy(w.tasks, ticket, OneMember(e).group.address) ==> Keeps(STRICT, w, events)
    ensures var g := OneMember(e).group;
            Run(w, events) == w.(dest := Replaced(w.dest, e), verified := {g}, pending := {RecordOf(e)},
                attempts := w.attempts[0 := Begin(RecordOf(e))])
  {
    hide Apply, Run, Keeps, RecordsOf, Replaced;
    var work := OneMember(e);
    OneMemberIsOk(e);
    OneMemberIsCopied(w.source, w.dest, e);
    var copied := VerifiedAsEvents(w, ticket, work);
    var more := [Export(work.group)] + [StartDelete(0, RecordOf(e))];
    events := copied + more;
    var verified := Run(w, copied);
    RunAppends(w, copied, more);
    KeepsAppends(STRICT, w, copied, more);
    HarmlessKeeps(STRICT, verified, more);
    ExportedAndBegun(verified, e);
  }

  lemma ExportedAndBegun(w: World, e: Entry)
    requires OneMember(e).group in w.verified && w.pending == {} && 0 !in w.attempts
    ensures Run(w, [Export(OneMember(e).group)] + [StartDelete(0, RecordOf(e))])
         == w.(pending := {RecordOf(e)}, attempts := w.attempts[0 := Begin(RecordOf(e))])
  {
    hide RecordsOf;
    var g := OneMember(e).group;
    OneRecord(e);
    RunPrepend(w, Export(g), [StartDelete(0, RecordOf(e))]);
    RunOne(Apply(w, Export(g)), StartDelete(0, RecordOf(e)));
  }

  lemma OneRecord(e: Entry)
    ensures RecordsOf(OneMember(e).group) == {RecordOf(e)}
  {
  }

  // ----- Two writers -----

  const OLD := Ticket("old", 0)
  const NEW := Ticket("new", 0)

  function X(): Entry { Listed("x", "a") }
  function Y(): Entry { Listed("y", "b") }

  /**
   An old run looks and stages, and stays behind; a new run archives another object at the
   same address and cleanup deletes it; then the old run replaces the archive.
   */
  lemma TwoWritersLose() returns (early: seq<Event>, middle: seq<Event>, late: seq<Event>)
    ensures forall event :: event in early && event.Start? ==> event == Start(OLD, OneMember(Y()))
    ensures forall event :: event in middle && event.Start? ==> event == Start(NEW, OneMember(X()))
    ensures forall event :: event in late ==> event == Step(OLD)
    ensures forall event :: event in early + (middle + late) && event.DeleteStep? ==> event.service.honoursIfMatch
    ensures Keeps(Discipline(false, true), EMPTY_WORLD, early + (middle + late))
    ensures !NothingLost(Run(EMPTY_WORLD, early + (middle + late)))
  {
    var d := Discipline(false, true);
    early := StaysBehind();
    var staged := Run(EMPTY_WORLD, early);
    var exported := ExportedAsEvents(staged, NEW, X());
    var deleting := Run(staged, exported);
    var requests := [DeleteStep(0, HONEST)] + [DeleteStep(0, HONEST)];
    middle := exported + requests;
    RunAppends(staged, exported, requests);
    DeletesUnchanged(deleting, X());
    var deleted := Run(deleting, requests);
    late := CompletesAsSteps(deleted, OLD);
    StagedReplaces(deleted.source, deleted.dest, Y());
    OnlyMemberStored(staged.dest, X());
    OnlyMemberStored(deleted.dest, Y());
    var end := Run(deleted, late);
    var v := Version(SlotOf(X()), Some("a"));
    assert v in end.deleted;
    if v in end.history {
      OnlyMemberPreservesOnlyIt(end.dest, Y(), v, end.history[v]);
    }
    RunAppends(EMPTY_WORLD, early, middle + late);
    RunAppends(staged, middle, late);
    AnyStartKeeps(d, EMPTY_WORLD, early);
    AnyStartKeeps(d, staged, middle);
    AnyStartKeeps(d, deleted, late);
    KeepsAppends(d, EMPTY_WORLD, early, middle + late);
    KeepsAppends(d, staged, middle, late);
  }

  lemma {:induction false} AnyStartKeeps(d: Discipline, w: World, events: seq<Event>)
    requires !d.oneWriter && forall event :: event in events && event.DeleteStep? ==> event.service.honoursIfMatch
    ensures Keeps(d, w, events)
    decreases |events|
  {
    if events != [] {
      assert events[0] in events && forall event :: event in events[1..] ==> event in events;
      AnyStartKeeps(d, Apply(w, events[0]), events[1..]);
    }
  }

  /** Two objects in the source, and a copy of the second that has staged it. */
  lemma StaysBehind() returns (events: seq<Event>)
    ensures forall event :: event in events && event.Start? ==> event == Start(OLD, OneMember(Y()))
    ensures forall event :: event in events ==> !event.DeleteStep?
    ensures Run(EMPTY_WORLD, events) ==
            EMPTY_WORLD.(source := map[SlotOf(X()) := Content("a"), SlotOf(Y()) := Content("b")],
                         history := map[Version(SlotOf(X()), Some("a")) := "p", Version(SlotOf(Y()), Some("b")) := "p"],
                         tasks := map[OLD := Task(OneMember(Y()), Staging([MemberOf(Y())]))])
  {
    var first, second := SourcePut(SlotOf(X()), Content("a")), SourcePut(SlotOf(Y()), Content("b"));
    var staging := [Start(OLD, OneMember(Y()))] + ([Step(OLD)] + [Step(OLD)]);
    events := [first] + ([second] + staging);
    var w1 := Apply(EMPTY_WORLD, first);
    var w2 := Apply(w1, second);
    RunPrepend(EMPTY_WORLD, first, [second] + staging);
    RunPrepend(w1, second, staging);
    StagesOne(w2);
  }

  lemma StagesOne(w: World)
    requires w.tasks == map[] && w.dest == map[] && SlotOf(Y()) in w.source && w.source[SlotOf(Y())] == Content("b")
    ensures Run(w, [Start(OLD, OneMember(Y()))] + ([Step(OLD)] + [Step(OLD)]))
         == w.(tasks := map[OLD := Task(OneMember(Y()), Staging([MemberOf(Y())]))])
  {
    var work := OneMember(Y());
    OneMemberIsOk(Y());
    var w1 := Apply(w, Start(OLD, work));
    var w2 := Apply(w1, Step(OLD));
    assert w2.tasks[OLD] == Task(work, Staging([]));
    var w3 := Apply(w2, Step(OLD));
    assert [] + [MemberOf(Y())] == [MemberOf(Y())];
    assert w3.tasks == map[OLD := Task(work, Staging([MemberOf(Y())]))];
    RunOne(w2, Step(OLD));
    RunPrepend(w1, Step(OLD), [Step(OLD)]);
    RunPrepend(w, Start(OLD, work), [Step(OLD)] + [Step(OLD)]);
  }

  /** Check and conditional delete of an object nobody changed. */
  lemma DeletesUnchanged(w: World, e: Entry)
    requires 0 in w.attempts && w.attempts[0] == Begin(RecordOf(e)) && e.versionId.None? && e.etag.Some? && e.size == 1
    requires SlotOf(e) in w.source && w.source[SlotOf(e)] == SourceObject(e.etag, "p")
    ensures Run(w, [DeleteStep(0, HONEST)] + [DeleteStep(0, HONEST)])
         == w.(source := w.source - {SlotOf(e)}, attempts := w.attempts[0 := Attempt(RecordOf(e), Looking)],
               deleted := w.deleted + {Version(SlotOf(e), e.etag)})
  {
    var checked := Apply(w, DeleteStep(0, HONEST));
    assert checked == w.(attempts := w.attempts[0 := Attempt(RecordOf(e), Requesting)]);
    var gone := Apply(checked, DeleteStep(0, HONEST));
    RunOne(checked, DeleteStep(0, HONEST));
    RunPrepend(w, DeleteStep(0, HONEST), [DeleteStep(0, HONEST)]);
    assert checked.attempts[0 := Attempt(RecordOf(e), Looking)] == w.attempts[0 := Attempt(RecordOf(e), Looking)];
  }

  // ----- A delete without If-Match -----

  /** The object changes between the second head and the unconditional delete. */
  lemma FallbackLoses() returns (events: seq<Event>)
    ensures forall event :: event in events && event.Start? ==> event == Start(NEW, OneMember(X()))
    ensures Keeps(Discipline(true, false), EMPTY_WORLD, events)
    ensures !NothingLost(Run(EMPTY_WORLD, events))
  {
    var d := Discipline(true, false);
    var put := SourcePut(SlotOf(X()), Content("a"));
    var w := Apply(EMPTY_WORLD, put);
    var exported := ExportedAsEvents(w, NEW, X());
    var deleting := Run(w, exported);
    var race := Race(deleting, X());
    var end := Run(deleting, race);
    events := [put] + (exported + race);
    RunPrepend(EMPTY_WORLD, put, exported + race);
    RunAppends(w, exported, race);
    var v := Version(SlotOf(X()), Some("b"));
    OnlyMemberStored(w.dest, X());
    if v in end.history {
      OnlyMemberPreservesOnlyIt(end.dest, X(), v, end.history[v]);
    }
    assert events[1..] == exported + race;
    StrictIsMore(d, w, exported);
    NoStartKeeps(d, deleting, race);
    KeepsAppends(d, w, exported, race);
  }

  lemma {:induction false} NoStartKeeps(d: Discipline, w: World, events: seq<Event>)
    requires !d.honoursIfMatch && forall event :: event in events ==> !event.Start?
    ensures Keeps(d, w, events)
    decreases |events|
  {
    if events != [] {
      assert events[0] in events && forall event :: event in events[1..] ==> event in events;
      NoStartKeeps(d, Apply(w, events[0]), events[1..]);
    }
  }

  lemma {:induction false} StrictIsMore(d: Discipline, w: World, events: seq<Event>)
    requires Keeps(STRICT, w, events)
    ensures Keeps(d, w, events)
    decreases |events|
  {
    if events != [] {
      StrictIsMore(d, Apply(w, events[0]), events[1..]);
    }
  }

  /** Check, delete refused for want of If-Match, head again, a put, and the unconditional delete. */
  lemma Race(w: World, e: Entry) returns (events: seq<Event>)
    requires 0 in w.attempts && w.attempts[0] == Begin(RecordOf(e)) && e.versionId.None? && e.size == 1
               && e.etag == Some("a")
    requires SlotOf(e) in w.source && w.source[SlotOf(e)] == SourceObject(e.etag, "p")
    requires Version(SlotOf(e), Some("b")) !in w.history
    ensures forall event :: event in events ==> !event.Start?
    ensures Run(w, events).dest == w.dest && Version(SlotOf(e), Some("b")) in Run(w, events).deleted
  {
    var step, put := DeleteStep(0, PLAIN), SourcePut(SlotOf(e), Content("b"));
    var w1 := Apply(w, step);
    assert w1.attempts[0] == Attempt(RecordOf(e), Requesting) && w1.source == w.source;
    var w2 := Apply(w1, step);
    assert w2.attempts[0] == Attempt(RecordOf(e), HeadingAgain) && w2.source == w.source;
    var w3 := Apply(w2, step);
    assert w3.attempts[0] == Attempt(RecordOf(e), Forcing) && w3.source == w.source && w3.history == w.history;
    var w4 := Apply(w3, put);
    assert w4.source[SlotOf(e)] == Content("b") && w4.attempts == w3.attempts;
    var w5 := Apply(w4, step);
    RunOne(w4, step);
    RunPrepend(w3, put, [step]);
    RunPrepend(w2, step, [put] + [step]);
    RunPrepend(w1, step, [step] + ([put] + [step]));
    events := [step] + ([step] + ([step] + ([put] + [step])));
    RunPrepend(w, step, [step] + ([step] + ([put] + [step])));
  }

  /** No run loses a deleted version exactly when both parts of the discipline are kept. */
  lemma NothingLostExactly(d: Discipline)
    ensures (forall events :: Keeps(d, EMPTY_WORLD, events) ==> NothingLost(Run(EMPTY_WORLD, events))) <==> d == STRICT
  {
    if d == STRICT {
      forall events | Keeps(d, EMPTY_WORLD, events) ensures NothingLost(Run(EMPTY_WORLD, events)) {
        NothingDeletedIsLost(events);
      }
    } else if !d.oneWriter {
      var early, middle, late := TwoWritersLose();
      LooserKeeps(Discipline(false, true), d, EMPTY_WORLD, early + (middle + late));
    } else {
      var events := FallbackLoses();
    }
  }

  lemma {:induction false} LooserKeeps(d: Discipline, looser: Discipline, w: World, events: seq<Event>)
    requires Keeps(d, w, events) && (looser.oneWriter ==> d.oneWriter) && (looser.honoursIfMatch ==> d.honoursIfMatch)
    ensures Keeps(looser, w, events)
    decreases |events|
  {
    if events != [] {
      LooserKeeps(d, looser, Apply(w, events[0]), events[1..]);
    }
  }
}
