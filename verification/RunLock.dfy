/**
 The file-backed run lock: acquire with takeover of stale locks, release by the owner, and
 what holds over every trace of processes on several hosts. The guard file makes each
 acquire and each release one atomic step.
 */
module RunLock {
  import opened Wrappers

  const SCHEDULER := "scheduler"

  /** The lock file as decoded; a field that is missing or of the wrong type is None. */
  datatype LockFile = LockFile(
    hostname: Option<string>,
    pid: Option<int>,
    runId: Option<string>,
    startedAt: Option<int>,
    owner: Option<string>)

  datatype Process = Process(host: string, pid: int)

  /** Who asks for the lock, under which settings, and whether renaming a stale file works for it. */
  datatype Request = Request(
    process: Process,
    runId: string,
    startedAt: int,
    owner: Option<string>,
    timeout: int,
    recoverUnknownHost: bool,
    canRename: bool)

  datatype StaleReason = InvalidMetadata | TimedOut | Abandoned | UnknownHost

  function Payload(q: Request): LockFile {
    LockFile(Some(q.process.host), Some(q.process.pid), Some(q.runId), Some(q.startedAt), q.owner)
  }

  // ----- The decision -----

  predicate OnHost(lock: LockFile, host: string) {
    lock.hostname == Some(host) && lock.pid.Some? && lock.pid.value > 0
  }

  predicate AliveHere(lock: LockFile, host: string, alive: set<Process>) {
    OnHost(lock, host) && Process(host, lock.pid.value) in alive
  }

  predicate DeadHere(lock: LockFile, host: string, alive: set<Process>) {
    OnHost(lock, host) && Process(host, lock.pid.value) !in alive
  }

  predicate OnUnknownHost(lock: LockFile, host: string) {
    lock.hostname.Some? && lock.hostname != Some(host) && lock.owner == Some(SCHEDULER)
  }

  function StaleLockReason(lock: LockFile, q: Request, now: int, alive: set<Process>): Option<StaleReason> {
    if lock.startedAt.None? then Some(InvalidMetadata)
    else
      var timedOut := now - lock.startedAt.value > q.timeout;
      if !timedOut && AliveHere(lock, q.process.host, alive) then None
      else if !timedOut && !DeadHere(lock, q.process.host, alive) then
        if q.recoverUnknownHost && OnUnknownHost(lock, q.process.host) then Some(UnknownHost) else None
      else Some(if timedOut then TimedOut else Abandoned)
  }

  // ----- The lock -----

  predicate MayInstall(file: Option<LockFile>, q: Request, now: int, alive: set<Process>) {
    file.None? || (StaleLockReason(file.value, q, now, alive).Some? && q.canRename)
  }

  function AfterAcquire(file: Option<LockFile>, q: Request, now: int, alive: set<Process>): Option<LockFile> {
    if MayInstall(file, q, now, alive) then Some(Payload(q)) else file
  }

  function AfterRelease(file: Option<LockFile>, runId: string, canRename: bool): Option<LockFile> {
    if file.Some? && file.value.runId == Some(runId) && canRename then None else file
  }

  class FileArchiveRunLock {
    var file: Option<LockFile>

    constructor (file: Option<LockFile>)
      ensures this.file == file
    {
      this.file := file;
    }

    /** Link the payload into place unless a lock file is there. */
    method Install(payload: LockFile) returns (installed: bool)
      modifies this
      ensures installed == old(file).None?
      ensures file == if installed then Some(payload) else old(file)
    {
      installed := file.None?;
      if installed {
        file := Some(payload);
      }
    }

    /** Move a stale lock file out of the way. */
    method TakeOver(q: Request, now: int, alive: set<Process>) returns (taken: bool)
      requires file.Some?
      modifies this
      ensures taken == (StaleLockReason(old(file).value, q, now, alive).Some? && q.canRename)
      ensures file == if taken then None else old(file)
    {
      var reason := StaleLockReason(file.value, q, now, alive);
      taken := reason.Some? && q.canRename;
      if taken {
        file := None;
      }
    }

    /**
     Two attempts under the guard. The lock is granted exactly when there was none or a stale
     one could be moved away, so the install after a takeover never fails.
     */
    method Acquire(q: Request, now: int, alive: set<Process>) returns (granted: bool)
      modifies this
      ensures granted == MayInstall(old(file), q, now, alive)
      ensures file == AfterAcquire(old(file), q, now, alive)
    {
      for attempt := 0 to 2
        invariant attempt == 0 ==> file == old(file)
        invariant attempt == 1 ==> file == None && MayInstall(old(file), q, now, alive)
        invariant attempt < 2
      {
        var installed := Install(Payload(q));
        if installed {
          return true;
        }
        var taken := TakeOver(q, now, alive);
        if !taken {
          return false;
        }
      }
      assert false;
      return false;
    }

    /** Removes the run's own lock; a file that cannot be moved stays. */
    method Release(runId: string, canRename: bool)
      modifies this
      ensures file == AfterRelease(old(file), runId, canRename)
    {
      if file.None? {
        return;
      }
      if file.value.runId == Some(runId) {
        if canRename {
          file := None;
        }
      }
    }
  }

  // ----- Traces -----

  /**
   The shared directory and the processes. `holders` are the granted requests not yet
   released whose process has not died since; `exposed` are the runs whose lock an acquire
   found past its timeout or was told to recover from another host.
   */
  datatype World = World(
    file: Option<LockFile>,
    alive: set<Process>,
    now: int,
    used: set<string>,
    holders: map<string, Request>,
    exposed: set<string>)

  /** Nobody at work yet; a lock file of an earlier time, or a corrupt one, may be there. */
  function Beginning(file: Option<LockFile>): World {
    World(file, {}, 0, if file.Some? && file.value.runId.Some? then {file.value.runId.value} else {}, map[], {})
  }

  datatype Event =
    | Spawn(process: Process)
    | Die(process: Process)
    | Tick(seconds: nat)
    | Acquire(q: Request)
    | Release(runId: string, canRename: bool)

  /** Run ids are fresh, and only a running process, with a positive pid, asks for the lock. */
  predicate Proper(w: World, q: Request) {
    q.runId !in w.used && q.process in w.alive && q.process.pid > 0
  }

  predicate Exposes(q: Request, holder: Request, now: int) {
    now - holder.startedAt > q.timeout
    || (q.recoverUnknownHost && OnUnknownHost(Payload(holder), q.process.host))
  }

  function Apply(w: World, event: Event): World {
    match event
    case Spawn(process) => w.(alive := w.alive + {process})
    case Die(process) =>
      w.(alive := w.alive - {process},
         holders := map id | id in w.holders && w.holders[id].process != process :: w.holders[id])
    case Tick(seconds) => w.(now := w.now + seconds)
    case Acquire(q) =>
      if !Proper(w, q) then w
      else
        World(AfterAcquire(w.file, q, w.now, w.alive), w.alive, w.now, w.used + {q.runId},
              if MayInstall(w.file, q, w.now, w.alive) then w.holders[q.runId := q] else w.holders,
              w.exposed + set id | id in w.holders && Exposes(q, w.holders[id], w.now))
    case Release(runId, canRename) =>
      if runId !in w.holders then w
      else w.(file := AfterRelease(w.file, runId, canRename), holders := w.holders - {runId})
  }

  function Run(w: World, events: seq<Event>): World
    decreases |events|
  {
    if events == [] then w else Run(Apply(w, events[0]), events[1..])
  }

  /** A holder at work whose lock no acquire found past its timeout or recovered from another host. */
  predicate Safe(w: World, runId: string) {
    runId in w.holders && runId !in w.exposed
  }

  ghost predicate HoldersOk(w: World) {
    forall id :: id in w.holders ==>
      id in w.used && w.holders[id].runId == id && w.holders[id].process in w.alive && w.holders[id].process.pid > 0
  }

  /** A lock file naming a holder is that holder's; a run named by the file has been used. */
  ghost predicate FileOk(w: World) {
    w.file.Some? && w.file.value.runId.Some? ==>
      && w.file.value.runId.value in w.used
      && (w.file.value.runId.value in w.holders ==> w.file == Some(Payload(w.holders[w.file.value.runId.value])))
  }

  ghost predicate SafeHold(w: World) {
    forall id :: Safe(w, id) ==> w.file == Some(Payload(w.holders[id]))
  }

  ghost predicate Inv(w: World) {
    HoldersOk(w) && FileOk(w) && SafeHold(w) && w.exposed <= w.used
  }

  /** What an acquire decides about the lock of a holder at work. */
  lemma LiveLockIsStaleWhenExposed(holder: Request, q: Request, now: int, alive: set<Process>)
    requires holder.process in alive && holder.process.pid > 0
    ensures StaleLockReason(Payload(holder), q, now, alive).Some? <==> Exposes(q, holder, now)
  {
    assert Process(holder.process.host, holder.process.pid) == holder.process;
  }

  lemma AcquireKeeps(w: World, q: Request)
    requires Inv(w)
    ensures Inv(Apply(w, Acquire(q)))
  {
    if Proper(w, q) {
      var w' := Apply(w, Acquire(q));
      forall id | Safe(w', id) ensures w'.file == Some(Payload(w'.holders[id])) {
        if id != q.runId || id in w.holders {
          assert Safe(w, id);
          LiveLockIsStaleWhenExposed(w.holders[id], q, w.now, w.alive);
        }
      }
    }
  }

  lemma ApplyKeeps(w: World, event: Event)
    requires Inv(w)
    ensures Inv(Apply(w, event))
  {
    match event
    case Acquire(q) => AcquireKeeps(w, q);
    case Release(runId, _) =>
      if runId in w.holders {
        var w' := Apply(w, event);
        forall id | Safe(w', id) ensures w'.file == Some(Payload(w'.holders[id])) {
          assert Safe(w, id);
        }
      }
    case Die(process) =>
      var w' := Apply(w, event);
      forall id | Safe(w', id) ensures w'.file == Some(Payload(w'.holders[id])) {
        assert Safe(w, id);
      }
    case _ =>
      var w' := Apply(w, event);
      forall id | Safe(w', id) ensures w'.file == Some(Payload(w'.holders[id])) {
        assert Safe(w, id);
      }
  }

  lemma {:induction false} RunKeeps(w: World, events: seq<Event>)
    requires Inv(w)
    ensures Inv(Run(w, events))
    decreases |events|
  {
    if events != [] {
      ApplyKeeps(w, events[0]);
      RunKeeps(Apply(w, events[0]), events[1..]);
    }
  }

  // ----- The results -----

  lemma AtMostOneSafe(w: World, id: string, other: string)
    requires Inv(w) && Safe(w, id) && Safe(w, other)
    ensures id == other
  {
  }

  /**
   Mutual exclusion. After any trace, whatever file was there before, a holder that was not
   exposed still has its lock, and no two such holders exist, on whatever hosts.
   */
  lemma SafeHoldersHaveTheLock(file: Option<LockFile>, events: seq<Event>, id: string, other: string)
    requires Safe(Run(Beginning(file), events), id)
    ensures Run(Beginning(file), events).file == Some(Payload(Run(Beginning(file), events).holders[id]))
    ensures Safe(Run(Beginning(file), events), other) ==> other == id
  {
    RunKeeps(Beginning(file), events);
  }

  /**
   Displacement, exactly. An acquire takes the lock of a holder at work if and only if it
   finds the lock past its timeout, or recovers a scheduler's lock from another host, and
   can move the file.
   */
  lemma DisplacedExactly(file: Option<LockFile>, events: seq<Event>, q: Request, id: string)
    requires var w := Run(Beginning(file), events);
             Proper(w, q) && id in w.holders && w.file == Some(Payload(w.holders[id]))
    ensures var w := Run(Beginning(file), events);
            Apply(w, Acquire(q)).file != w.file <==> Exposes(q, w.holders[id], w.now) && q.canRename
  {
    RunKeeps(Beginning(file), events);
    var w := Run(Beginning(file), events);
    LiveLockIsStaleWhenExposed(w.holders[id], q, w.now, w.alive);
    assert Payload(q).runId != w.file.value.runId;
  }

  /**
   A release, however late, removes nobody else's lock: either it changes nothing, or the
   file it removes is its own run's.
   */
  lemma ReleaseRemovesOwnLockOnly(file: Option<LockFile>, events: seq<Event>, runId: string, canRename: bool)
    ensures var w := Run(Beginning(file), events);
            var after := Apply(w, Release(runId, canRename));
            after.file != w.file ==>
              runId in w.holders && w.file == Some(Payload(w.holders[runId])) && after.file == None
    ensures forall id :: id != runId && Safe(Run(Beginning(file), events), id) ==>
              Safe(Apply(Run(Beginning(file), events), Release(runId, canRename)), id)
  {
    RunKeeps(Beginning(file), events);
  }

  function Elapsed(events: seq<Event>): nat
    decreases |events|
  {
    if events == [] then 0 else (if events[0].Tick? then events[0].seconds else 0) + Elapsed(events[1..])
  }

  /** Nobody recovers from unknown hosts, and every timeout covers the whole trace. */
  predicate Quiet(events: seq<Event>, span: nat) {
    forall event :: event in events && event.Acquire? ==>
      !event.q.recoverUnknownHost && event.q.startedAt >= 0 && event.q.timeout >= span
  }

  lemma {:induction false} QuietExposesNobody(w: World, events: seq<Event>, span: nat)
    requires Quiet(events, span) && w.now >= 0 && w.now + Elapsed(events) <= span
    requires w.exposed == {} && forall id :: id in w.holders ==> w.holders[id].startedAt >= 0
    ensures Run(w, events).exposed == {}
    decreases |events|
  {
    if events != [] {
      var w' := Apply(w, events[0]);
      assert events[0] in events && forall event :: event in events[1..] ==> event in events;
      assert w'.exposed == {};
      QuietExposesNobody(w', events[1..], span);
    }
  }

  /** Before the timeout and with unknown-host recovery off, every holder at work has the lock. */
  lemma QuietTracesDisplaceNobody(file: Option<LockFile>, events: seq<Event>, span: nat, id: string)
    requires Quiet(events, span) && Elapsed(events) <= span
    ensures var w := Run(Beginning(file), events); id in w.holders ==> w.file == Some(Payload(w.holders[id]))
  {
    QuietExposesNobody(Beginning(file), events, span);
    RunKeeps(Beginning(file), events);
    assert id in Run(Beginning(file), events).holders ==> Safe(Run(Beginning(file), events), id);
  }
}
