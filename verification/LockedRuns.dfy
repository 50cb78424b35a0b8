/**
 Runs of several processes on several hosts, taking turns by the lock: what the lock, the
 destination checks and the conduct of the runs together give the copies they make.
 */
module LockedRuns {
  import opened Wrappers
  import opened CopyTask
  import Deletion
  import opened NoLoss
  import opened Interleaving
  import Losses
  import RunLock

  datatype Shared = Shared(lock: RunLock.World, store: NoLoss.World)

  datatype Happening = OfLock(lock: RunLock.Event) | OfStore(store: NoLoss.Event)

  /** The manifest of each run, piece by piece. */
  type Plans = map<string, seq<Planned>>

  ghost function After(s: Shared, h: Happening): Shared {
    match h
    case OfLock(event) => s.(lock := RunLock.Apply(s.lock, event))
    case OfStore(event) => s.(store := NoLoss.Apply(s.store, event))
  }

  ghost function History(s: Shared, trace: seq<Happening>): Shared
    decreases |trace|
  {
    if trace == [] then s else History(After(s, trace[0]), trace[1..])
  }

  function StoreEvents(trace: seq<Happening>): seq<NoLoss.Event> {
    if trace == [] then []
    else (if trace[0].OfStore? then [trace[0].store] else []) + StoreEvents(trace[1..])
  }

  predicate InPlan(plans: Plans, ticket: Ticket, work: Work) {
    ticket.run in plans && ticket.piece < |plans[ticket.run]| && plans[ticket.run][ticket.piece].work == work
  }

  /** A worker of the run is at work. */
  ghost predicate Working(tasks: map<Ticket, Task>, run: string) {
    exists t :: t in tasks && t.run == run && Active(tasks[t])
  }

  /**
   What every run does: it starts copies of its own manifest, while it has been granted the
   lock and has not given it back; and a process that dies takes its workers with it.
   */
  ghost predicate ByTheBook(plans: Plans, s: Shared, h: Happening) {
    match h
    case OfStore(Start(ticket, work)) => ticket.run in s.lock.holders && InPlan(plans, ticket, work)
    case OfLock(Die(process)) =>
      forall run :: run in s.lock.holders && s.lock.holders[run].process == process ==> !Working(s.store.tasks, run)
    case _ => true
  }

  /**
   What is up to the deployment: that a run gives the lock back only when its workers are
   done, that nobody finds the lock of a run at work past its timeout or recovers it from
   another host, and that the sources implement If-Match on deletes.
   */
  datatype Conduct = Conduct(joins: bool, unexposed: bool, honoursIfMatch: bool)

  const GOOD := Conduct(true, true, true)

  ghost predicate Conducted(c: Conduct, s: Shared, h: Happening) {
    match h
    case OfLock(Release(run, _)) => c.joins ==> !Working(s.store.tasks, run)
    case OfLock(Acquire(q)) =>
      c.unexposed ==> forall run :: run in s.lock.holders ==> !RunLock.Exposes(q, s.lock.holders[run], s.lock.now)
    case OfStore(DeleteStep(_, service)) => c.honoursIfMatch ==> service.honoursIfMatch
    case _ => true
  }

  ghost predicate Legal(plans: Plans, c: Conduct, s: Shared, trace: seq<Happening>)
    decreases |trace|
  {
    trace == [] ||
    (ByTheBook(plans, s, trace[0]) && Conducted(c, s, trace[0]) && Legal(plans, c, After(s, trace[0]), trace[1..]))
  }

  /** The destination checks passed for every manifest. */
  ghost predicate Checked(plans: Plans) {
    forall run :: run in plans ==> ChecksPass(plans[run])
  }

  // ----- One run at a time -----

  /** Nobody was exposed, and whoever works has the lock and follows its manifest. */
  ghost predicate Orderly(plans: Plans, s: Shared) {
    && RunLock.Inv(s.lock) && s.lock.exposed == {}
    && (forall t :: t in s.store.tasks && Active(s.store.tasks[t]) ==>
          t.run in s.lock.holders && InPlan(plans, t, s.store.tasks[t].work))
  }

  /** The lock gives one run, the checks give one piece. */
  lemma StartIsAlone(plans: Plans, s: Shared, ticket: Ticket, work: Work)
    requires Checked(plans) && Orderly(plans, s)
    requires ticket.run in s.lock.holders && InPlan(plans, ticket, work)
    ensures !Busy(s.store.tasks, ticket, AddressOf(work))
  {
    var tasks := s.store.tasks;
    forall other | other in tasks && other != ticket && Active(tasks[other])
        ensures AddressOf(tasks[other].work) != AddressOf(work) {
      RunLock.AtMostOneSafe(s.lock, ticket.run, other.run);
      ChecksMeanDistinct(plans[ticket.run]);
      assert other.piece != ticket.piece;
    }
  }

  lemma OrderlyLock(plans: Plans, s: Shared, event: RunLock.Event)
    requires Orderly(plans, s) && ByTheBook(plans, s, OfLock(event)) && Conducted(GOOD, s, OfLock(event))
    ensures Orderly(plans, After(s, OfLock(event)))
  {
    RunLock.ApplyKeeps(s.lock, event);
    var lock := RunLock.Apply(s.lock, event);
    assert lock.exposed == {};
    forall t | t in s.store.tasks && Active(s.store.tasks[t]) ensures t.run in lock.holders {
      assert Working(s.store.tasks, t.run);
    }
  }

  lemma OrderlyStore(plans: Plans, s: Shared, event: NoLoss.Event)
    requires Orderly(plans, s) && ByTheBook(plans, s, OfStore(event))
    ensures Orderly(plans, After(s, OfStore(event)))
  {
    hide InPlan, TaskStep, Active, Deletion.AttemptStep, RunLock.Inv;
    var tasks, after := s.store.tasks, NoLoss.Apply(s.store, event).tasks;
    forall t | t in after && Active(after[t]) ensures t.run in s.lock.holders && InPlan(plans, t, after[t].work) {
      if event.Step? && t == event.ticket {
        StepStaysAtAddress(s.store.source, s.store.dest, tasks[t]);
        if !Active(tasks[t]) {
          RestingStep(s.store.source, s.store.dest, tasks[t]);
        }
        assert Active(tasks[t]) && after[t].work == tasks[t].work;
      } else if event.Start? && t == event.ticket && t !in tasks {
        assert after[t].work == event.work;
      } else {
        assert t in tasks && after[t] == tasks[t];
      }
    }
  }

  /** Legal traces under good conduct keep the discipline that loses nothing. */
  lemma {:induction false} LegalKeepsDiscipline(plans: Plans, s: Shared, trace: seq<Happening>)
    requires Checked(plans) && Orderly(plans, s) && Legal(plans, GOOD, s, trace)
    ensures Keeps(STRICT, s.store, StoreEvents(trace))
    ensures History(s, trace).store == NoLoss.Run(s.store, StoreEvents(trace))
    decreases |trace|
  {
    if trace != [] {
      var h, rest := trace[0], StoreEvents(trace[1..]);
      match h
      case OfLock(event) =>
        OrderlyLock(plans, s, event);
        LegalKeepsDiscipline(plans, After(s, h), trace[1..]);
        assert [] + rest == rest;
      case OfStore(event) =>
        OrderlyStore(plans, s, event);
        if event.Start? {
          StartIsAlone(plans, s, event.ticket, event.work);
        }
        LegalKeepsDiscipline(plans, After(s, h), trace[1..]);
        assert ([event] + rest)[1..] == rest;
    }
  }

  function Outset(file: Option<RunLock.LockFile>): Shared {
    Shared(RunLock.Beginning(file), EMPTY_WORLD)
  }

  /** Runs that take turns by the lock, and join their workers before they free it, lose nothing. */
  lemma LockedRunsLoseNothing(plans: Plans, file: Option<RunLock.LockFile>, trace: seq<Happening>)
    requires Checked(plans) && Legal(plans, GOOD, Outset(file), trace)
    ensures NothingLost(History(Outset(file), trace).store)
  {
    LegalKeepsDiscipline(plans, Outset(file), trace);
    NothingDeletedIsLost(StoreEvents(trace));
  }

  // ----- Why each part of the conduct is needed -----

  function Lifted(events: seq<NoLoss.Event>): seq<Happening> {
    if events == [] then [] else [OfStore(events[0])] + Lifted(events[1..])
  }

  lemma {:induction false} HistoryAppends(s: Shared, a: seq<Happening>, b: seq<Happening>)
    ensures History(s, a + b) == History(History(s, a), b)
    decreases |a|
  {
    if a == [] {
      assert a + b == b;
    } else {
      assert (a + b)[1..] == a[1..] + b;
      HistoryAppends(After(s, a[0]), a[1..], b);
    }
  }

  lemma {:induction false} LegalAppends(plans: Plans, c: Conduct, s: Shared, a: seq<Happening>, b: seq<Happening>)
    requires Legal(plans, c, s, a) && Legal(plans, c, History(s, a), b)
    ensures Legal(plans, c, s, a + b)
    decreases |a|
  {
    if a == [] {
      assert a + b == b;
    } else {
      assert (a + b)[1..] == a[1..] + b;
      LegalAppends(plans, c, After(s, a[0]), a[1..], b);
    }
  }

  /** Store events of a run that has the lock, or that start no copy. */
  lemma {:induction false} LiftedIsLegal(plans: Plans, c: Conduct, s: Shared, events: seq<NoLoss.Event>)
    requires forall e :: e in events && e.Start? ==> e.ticket.run in s.lock.holders && InPlan(plans, e.ticket, e.work)
    requires c.honoursIfMatch ==> forall e :: e in events && e.DeleteStep? ==> e.service.honoursIfMatch
    ensures Legal(plans, c, s, Lifted(events))
    ensures History(s, Lifted(events)) == s.(store := NoLoss.Run(s.store, events))
    decreases |events|
  {
    if events != [] {
      assert events[0] in events && forall e :: e in events[1..] ==> e in events;
      LiftedIsLegal(plans, c, After(s, OfStore(events[0])), events[1..]);
      assert Lifted(events)[1..] == Lifted(events[1..]);
    }
  }

  const HERE := RunLock.Process("here", 1)
  const THERE := RunLock.Process("there", 1)
  const OLD_REQUEST := RunLock.Request(HERE, "old", 0, None, 1, false, true)
  const NEW_REQUEST := RunLock.Request(THERE, "new", 0, None, 1, false, true)
  const TWO_PLANS: Plans := map["old" := [Planned("r", Losses.OneMember(Losses.Y()))],
                                "new" := [Planned("r", Losses.OneMember(Losses.X()))]]

  lemma PlansPass()
    ensures Checked(TWO_PLANS)
  {
  }

  /** The old run spawned, granted the lock and at work up to where it stays behind. */
  lemma OldRunStarts(c: Conduct, early: seq<NoLoss.Event>) returns (trace: seq<Happening>)
    requires forall e :: e in early && e.Start? ==> e == Start(Losses.OLD, Losses.OneMember(Losses.Y()))
    requires forall e :: e in early && e.DeleteStep? ==> e.service.honoursIfMatch
    ensures Legal(TWO_PLANS, c, Outset(None), trace)
    ensures History(Outset(None), trace) ==
            Shared(RunLock.World(Some(RunLock.Payload(OLD_REQUEST)), {HERE}, 0, {"old"}, map["old" := OLD_REQUEST], {}),
                   NoLoss.Run(EMPTY_WORLD, early))
  {
    var lifted := [OfLock(RunLock.Spawn(HERE)), OfLock(RunLock.Acquire(OLD_REQUEST))];
    var granted := RunLock.World(Some(RunLock.Payload(OLD_REQUEST)), {HERE}, 0, {"old"}, map["old" := OLD_REQUEST], {});
    var s0 := Outset(None);
    var s1 := After(s0, lifted[0]);
    assert lifted[1..] == [lifted[1]] && [lifted[1]][1..] == [];
    assert s1.lock.alive == {HERE} && s1.lock.holders == map[];
    assert After(s1, lifted[1]).lock == granted;
    assert Legal(TWO_PLANS, c, s1, [lifted[1]]);
    assert History(s1, [lifted[1]]) == After(s1, lifted[1]);
    var s := Shared(granted, EMPTY_WORLD);
    LiftedIsLegal(TWO_PLANS, c, s, early);
    trace := lifted + Lifted(early);
    HistoryAppends(Outset(None), lifted, Lifted(early));
    LegalAppends(TWO_PLANS, c, Outset(None), lifted, Lifted(early));
  }

  /** The new run, granted the lock, archives and deletes; what is left of the old one goes on. */
  lemma NewRunFollows(c: Conduct, s: Shared, middle: seq<NoLoss.Event>, late: seq<NoLoss.Event>)
    returns (trace: seq<Happening>)
    requires "new" in s.lock.holders
    requires forall e :: e in middle && e.Start? ==> e == Start(Losses.NEW, Losses.OneMember(Losses.X()))
    requires forall e :: e in late ==> e == Step(Losses.OLD)
    requires forall e :: e in middle && e.DeleteStep? ==> e.service.honoursIfMatch
    ensures Legal(TWO_PLANS, c, s, trace)
    ensures History(s, trace).store == NoLoss.Run(NoLoss.Run(s.store, middle), late)
  {
    LiftedIsLegal(TWO_PLANS, c, s, middle);
    LiftedIsLegal(TWO_PLANS, c, History(s, Lifted(middle)), late);
    trace := Lifted(middle) + Lifted(late);
    HistoryAppends(s, Lifted(middle), Lifted(late));
    LegalAppends(TWO_PLANS, c, s, Lifted(middle), Lifted(late));
  }

  /** How the lock changes hands: given back too early, or found past its timeout. */
  lemma HandsOver(c: Conduct, s: Shared) returns (trace: seq<Happening>)
    requires !c.joins || !c.unexposed
    requires s.lock == RunLock.World(Some(RunLock.Payload(OLD_REQUEST)), {HERE}, 0, {"old"}, map["old" := OLD_REQUEST],
               {})
    ensures Legal(TWO_PLANS, c, s, trace)
    ensures History(s, trace).store == s.store && "new" in History(s, trace).lock.holders
  {
    var first := OfLock(if c.joins then RunLock.Tick(2) else RunLock.Release("old", true));
    var second, third := OfLock(RunLock.Spawn(THERE)), OfLock(RunLock.Acquire(NEW_REQUEST));
    trace := [first, second, third];
    var s1 := After(s, first);
    var s2 := After(s1, second);
    var s3 := After(s2, third);
    assert trace[1..] == [second, third] && [second, third][1..] == [third] && [third][1..] == [];
    assert !c.joins ==> s2.lock.file == None && s2.lock.holders == map[];
    assert c.joins ==> s2.lock.now == 2 && s2.lock.file == s.lock.file;
    assert RunLock.Proper(s2.lock, NEW_REQUEST);
    assert "new" in s3.lock.holders;
    assert History(s, trace) == History(s1, [second, third]) == History(s2, [third]) == s3;
    assert Legal(TWO_PLANS, c, s2, [third]) && Legal(TWO_PLANS, c, s1, [second, third]);
  }

  /** A worker left behind, by a run that freed the lock or by one that was displaced, undoes an archive. */
  lemma StragglerLoses(c: Conduct) returns (trace: seq<Happening>)
    requires !c.joins || !c.unexposed
    ensures Legal(TWO_PLANS, c, Outset(None), trace)
    ensures !NothingLost(History(Outset(None), trace).store)
  {
    var early, middle, late := Losses.TwoWritersLose();
    assert forall e :: e in early ==> e in early + (middle + late);
    assert forall e :: e in middle ==> e in early + (middle + late);
    var first := OldRunStarts(c, early);
    var s1 := History(Outset(None), first);
    var second := HandsOver(c, s1);
    var s2 := History(s1, second);
    var third := NewRunFollows(c, s2, middle, late);
    trace := first + (second + third);
    HistoryAppends(Outset(None), first, second + third);
    HistoryAppends(s1, second, third);
    LegalAppends(TWO_PLANS, c, s1, second, third);
    LegalAppends(TWO_PLANS, c, Outset(None), first, second + third);
    RunAppends(EMPTY_WORLD, early, middle + late);
    RunAppends(NoLoss.Run(EMPTY_WORLD, early), middle, late);
  }

  lemma UnguardedDeleteLoses(c: Conduct) returns (trace: seq<Happening>)
    requires !c.honoursIfMatch
    ensures Legal(TWO_PLANS, c, Outset(None), trace)
    ensures !NothingLost(History(Outset(None), trace).store)
  {
    var events := Losses.FallbackLoses();
    var locks := [OfLock(RunLock.Spawn(THERE)), OfLock(RunLock.Acquire(NEW_REQUEST))];
    var s0 := Outset(None);
    var s1 := After(s0, locks[0]);
    var s2 := After(s1, locks[1]);
    assert locks[1..] == [locks[1]] && [locks[1]][1..] == [];
    assert s1.lock.holders == map[] && "new" in s2.lock.holders && s2.store == EMPTY_WORLD;
    assert Legal(TWO_PLANS, c, s1, [locks[1]]) && Legal(TWO_PLANS, c, s0, locks);
    assert History(s0, locks) == History(s1, [locks[1]]) == s2;
    LiftedIsLegal(TWO_PLANS, c, s2, events);
    trace := locks + Lifted(events);
    HistoryAppends(s0, locks, Lifted(events));
    LegalAppends(TWO_PLANS, c, s0, locks, Lifted(events));
  }

  ghost predicate NeverLoses(c: Conduct) {
    forall plans, file, trace :: Checked(plans) && Legal(plans, c, Outset(file), trace) ==>
        NothingLost(History(Outset(file), trace).store)
  }

  /**
   Runs under the lock, with checked manifests, never lose a deleted version exactly when
   they join their workers before they free the lock, are not displaced while at work, and
   delete from sources that implement If-Match.
   */
  lemma NothingLostExactly(c: Conduct)
    ensures NeverLoses(c) <==> c == GOOD
  {
    PlansPass();
    if c == GOOD {
      forall plans, file, trace | Checked(plans) && Legal(plans, c, Outset(file), trace)
        ensures NothingLost(History(Outset(file), trace).store)
      {
        LockedRunsLoseNothing(plans, file, trace);
      }
    } else if c.honoursIfMatch {
      var trace := StragglerLoses(c);
      assert !NeverLoses(c);
    } else {
      var trace := UnguardedDeleteLoses(c);
      assert !NeverLoses(c);
    }
  }
}
