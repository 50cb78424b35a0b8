/**
 One copy worker per route, all running at once. When the destination checks pass, every
 interleaving of their store operations ends in the same state as running the routes one
 after the other.
 */
module Interleaving {
  import opened Stores
  import opened CopyTask

  /** A route's worker: the tasks it has ended, and those it still has to do, in order. */
  datatype Worker = Worker(ended: seq<Task>, queue: seq<Task>)

  datatype System = System(dest: DestStore, workers: map<string, Worker>)

  /** One piece of a manifest: which route copies what. */
  datatype Planned = Planned(route: string, work: Work)

  // ----- The destination checks -----

  ghost predicate HasDuplicateDirectDestination(plan: seq<Planned>) {
    exists i, j :: 0 <= i < j < |plan| && plan[i].work.DirectCopy? && plan[j].work.DirectCopy?
      && AddressOf(plan[i].work) == AddressOf(plan[j].work)
  }

  ghost predicate HasDuplicateArchiveDestination(plan: seq<Planned>) {
    exists i, j :: 0 <= i < j < |plan| && plan[i].work.Archive? && plan[j].work.Archive?
      && AddressOf(plan[i].work) == AddressOf(plan[j].work)
  }

  ghost predicate HasDirectArchiveCollision(plan: seq<Planned>) {
    exists i, j :: 0 <= i < |plan| && 0 <= j < |plan| && plan[i].work.DirectCopy? && plan[j].work.Archive?
      && AddressOf(plan[i].work) == AddressOf(plan[j].work)
  }

  ghost predicate ChecksPass(plan: seq<Planned>) {
    && !HasDuplicateDirectDestination(plan)
    && !HasDuplicateArchiveDestination(plan)
    && !HasDirectArchiveCollision(plan)
  }

  // ----- Workers -----

  /** The tasks of a route: its direct copies, then its groups, each in manifest order. */
  function TasksOf(plan: seq<Planned>, route: string, direct: bool): seq<Task> {
    if plan == [] then []
    else
      (if plan[0].route == route && plan[0].work.DirectCopy? == direct then [Task(plan[0].work, Starting)] else [])
      + TasksOf(plan[1..], route, direct)
  }

  function WorkerOf(plan: seq<Planned>, route: string): Worker {
    Worker([], TasksOf(plan, route, true) + TasksOf(plan, route, false))
  }

  function Initial(dest: DestStore, plan: seq<Planned>, routes: set<string>): System {
    System(dest, map route | route in routes :: WorkerOf(plan, route))
  }

  /** A worker's next operation: a step of its current task, or moving on from an ended one. */
  function WorkerStep(source: SourceStore, dest: DestStore, w: Worker): (DestStore, Worker) {
    if w.queue == [] then (dest, w)
    else if Rank(w.queue[0]) == 0 then (dest, Worker(w.ended + [w.queue[0]], w.queue[1..]))
    else
      var (dest', task) := TaskStep(source, dest, w.queue[0]);
      (dest', w.(queue := [task] + w.queue[1..]))
  }

  function SystemStep(source: SourceStore, s: System, route: string): System {
    if route !in s.workers then s
    else
      var (dest, worker) := WorkerStep(source, s.dest, s.workers[route]);
      System(dest, s.workers[route := worker])
  }

  /** A schedule names the route whose worker takes each successive operation. */
  function RunSchedule(source: SourceStore, s: System, schedule: seq<string>): System {
    if schedule == [] then s
    else SystemStep(source, RunSchedule(source, s, schedule[..|schedule| - 1]), schedule[|schedule| - 1])
  }

  predicate Complete(s: System) {
    forall route :: route in s.workers ==> s.workers[route].queue == []
  }

  /** One worker running with nobody else around. */
  function Alone(source: SourceStore, dest: DestStore, w: Worker, steps: nat): (DestStore, Worker) {
    if steps == 0 then (dest, w)
    else
      var (dest', w') := Alone(source, dest, w, steps - 1);
      WorkerStep(source, dest', w')
  }

  // ----- Footprints -----

  function Works(w: Worker): seq<Work> {
    seq(|w.ended| + |w.queue|, i requires 0 <= i < |w.ended| + |w.queue| => (w.ended + w.queue)[i].work)
  }

  ghost predicate Owns(w: Worker, address: Address) {
    exists i :: 0 <= i < |Works(w)| && AddressOf(Works(w)[i]) == address
  }

  ghost predicate Disjoint(workers: map<string, Worker>) {
    forall r, q, a :: r in workers && q in workers && r != q && Owns(workers[r], a) ==> !Owns(workers[q], a)
  }

  ghost predicate SameOwned(left: DestStore, right: DestStore, w: Worker) {
    forall a :: Owns(w, a) ==> SameAt(left, right, a)
  }

  lemma WorkerStepKeepsWorks(source: SourceStore, dest: DestStore, w: Worker)
    ensures Works(WorkerStep(source, dest, w).1) == Works(w)
  {
    if w.queue != [] && Rank(w.queue[0]) > 0 {
      StepStaysAtAddress(source, dest, w.queue[0]);
    }
  }

  lemma WorkerStaysAtHome(source: SourceStore, dest: DestStore, w: Worker, a: Address)
    requires !Owns(w, a)
    ensures SameAt(dest, WorkerStep(source, dest, w).0, a)
  {
    if w.queue != [] && Rank(w.queue[0]) > 0 {
      assert Works(w)[|w.ended|] == w.queue[0].work;
      StepStaysAtAddress(source, dest, w.queue[0]);
    }
  }

  lemma WorkerSeesHome(source: SourceStore, left: DestStore, right: DestStore, w: Worker)
    requires SameOwned(left, right, w)
    ensures WorkerStep(source, left, w).1 == WorkerStep(source, right, w).1
    ensures SameOwned(WorkerStep(source, left, w).0, WorkerStep(source, right, w).0, w)
  {
    if w.queue != [] && Rank(w.queue[0]) > 0 {
      var task := w.queue[0];
      assert Works(w)[|w.ended|] == task.work;
      assert Owns(w, AddressOf(task.work));
      StepSeesOwnAddress(source, left, right, task);
      StepStaysAtAddress(source, left, task);
      StepStaysAtAddress(source, right, task);
    }
  }

  lemma {:induction false} AloneKeepsWorks(source: SourceStore, dest: DestStore, w: Worker, steps: nat)
    ensures Works(Alone(source, dest, w, steps).1) == Works(w)
  {
    if steps > 0 {
      AloneKeepsWorks(source, dest, w, steps - 1);
      var (dest', w') := Alone(source, dest, w, steps - 1);
      WorkerStepKeepsWorks(source, dest', w');
    }
  }

  // ----- Every worker runs as if alone -----

  function Turns(schedule: seq<string>, route: string): nat {
    if schedule == [] then 0
    else Turns(schedule[..|schedule| - 1], route) + if schedule[|schedule| - 1] == route then 1 else 0
  }

  /** The worker of a route and its share of the destination are as if it had run alone. */
  ghost predicate AsAlone(source: SourceStore, before: System, after: System, route: string, turns: nat)
    requires route in before.workers && route in after.workers
  {
    var (dest, w) := Alone(source, before.dest, before.workers[route], turns);
    after.workers[route] == w && SameOwned(after.dest, dest, before.workers[route])
  }

  ghost predicate Unowned(workers: map<string, Worker>, a: Address) {
    forall r :: r in workers ==> !Owns(workers[r], a)
  }

  /** After any schedule, that holds of every worker, and nothing else has changed. */
  ghost predicate Separate(source: SourceStore, before: System, after: System, schedule: seq<string>) {
    && after.workers.Keys == before.workers.Keys
    && (forall r :: r in before.workers ==> AsAlone(source, before, after, r, Turns(schedule, r)))
    && (forall a :: Unowned(before.workers, a) ==> SameAt(before.dest, after.dest, a))
  }

  lemma SameOwnedChain(a: DestStore, b: DestStore, c: DestStore, w: Worker)
    requires SameOwned(a, b, w) && SameOwned(b, c, w)
    ensures SameOwned(a, c, w)
  {
    forall address | Owns(w, address) ensures SameAt(a, c, address) {
      assert SameAt(a, b, address) && SameAt(b, c, address);
    }
  }

  /** The worker that moves: its step is the one it would take alone. */
  lemma MoverStaysSeparate(source: SourceStore, dest: DestStore, start: DestStore, first: Worker, w: Worker, turns: nat)
    requires w == Alone(source, start, first, turns).1
    requires SameOwned(dest, Alone(source, start, first, turns).0, first)
    ensures WorkerStep(source, dest, w).1 == Alone(source, start, first, turns + 1).1
    ensures SameOwned(WorkerStep(source, dest, w).0, Alone(source, start, first, turns + 1).0, first)
  {
    AloneKeepsWorks(source, start, first, turns);
    assert forall a :: Owns(first, a) <==> Owns(w, a);
    WorkerSeesHome(source, dest, Alone(source, start, first, turns).0, w);
  }

  /** A step by the owner of other addresses changes nothing at these. */
  lemma BystanderStaysSame(source: SourceStore, dest: DestStore, mover: Worker, first: Worker, w: Worker)
    requires Works(mover) == Works(first)
    requires forall a :: Owns(w, a) ==> !Owns(first, a)
    ensures SameOwned(WorkerStep(source, dest, mover).0, dest, w)
  {
    forall a | Owns(w, a) ensures SameAt(WorkerStep(source, dest, mover).0, dest, a) {
      assert !Owns(first, a);
      assert !Owns(mover, a);
      WorkerStaysAtHome(source, dest, mover, a);
    }
  }

  lemma TurnsOneMore(earlier: seq<string>, route: string, r: string)
    ensures Turns(earlier + [route], r) == Turns(earlier, r) + if route == r then 1 else 0
  {
    assert (earlier + [route])[..|earlier|] == earlier;
  }

  lemma {:induction false} SchedulesStaySeparate(source: SourceStore, s: System, schedule: seq<string>)
    requires Disjoint(s.workers)
    ensures Separate(source, s, RunSchedule(source, s, schedule), schedule)
    decreases |schedule|
  {
    if schedule != [] {
      var earlier, route := schedule[..|schedule| - 1], schedule[|schedule| - 1];
      var mid := RunSchedule(source, s, earlier);
      assert schedule == earlier + [route];
      SchedulesStaySeparate(source, s, earlier);
      if route in s.workers {
        OneMoreTurn(source, s, mid, earlier, route);
      } else {
        NobodysTurn(source, s, mid, earlier, route);
      }
    }
  }

  lemma NobodysTurn(source: SourceStore, s: System, mid: System, earlier: seq<string>, route: string)
    requires Separate(source, s, mid, earlier) && route !in s.workers
    ensures Separate(source, s, mid, earlier + [route])
  {
    forall r | r in s.workers ensures AsAlone(source, s, mid, r, Turns(earlier + [route], r)) {
      TurnsOneMore(earlier, route, r);
    }
  }

  lemma MoversTurn(source: SourceStore, s: System, mid: System, route: string, turns: nat)
    requires route in s.workers && route in mid.workers && AsAlone(source, s, mid, route, turns)
    ensures AsAlone(source, s, SystemStep(source, mid, route), route, turns + 1)
  {
    MoverStaysSeparate(source, mid.dest, s.dest, s.workers[route], mid.workers[route], turns);
  }

  lemma BystandersTurn(source: SourceStore, s: System, mid: System, route: string, r: string, turns: nat)
    requires Disjoint(s.workers) && route in s.workers && r in s.workers && r != route
    requires route in mid.workers && r in mid.workers && Works(mid.workers[route]) == Works(s.workers[route])
    requires AsAlone(source, s, mid, r, turns)
    ensures AsAlone(source, s, SystemStep(source, mid, route), r, turns)
  {
    BystanderStaysSame(source, mid.dest, mid.workers[route], s.workers[route], s.workers[r]);
    SameOwnedChain(SystemStep(source, mid, route).dest, mid.dest, Alone(source, s.dest, s.workers[r], turns).0,
        s.workers[r]);
  }

  lemma UnownedStays(source: SourceStore, s: System, mid: System, route: string, a: Address)
    requires route in s.workers && route in mid.workers && Works(mid.workers[route]) == Works(s.workers[route])
    requires Unowned(s.workers, a) && SameAt(s.dest, mid.dest, a)
    ensures SameAt(s.dest, SystemStep(source, mid, route).dest, a)
  {
    assert !Owns(s.workers[route], a);
    assert !Owns(mid.workers[route], a);
    WorkerStaysAtHome(source, mid.dest, mid.workers[route], a);
  }

  lemma MoverKeepsWorks(source: SourceStore, s: System, mid: System, route: string, turns: nat)
    requires route in s.workers && route in mid.workers && AsAlone(source, s, mid, route, turns)
    ensures Works(mid.workers[route]) == Works(s.workers[route])
  {
    AloneKeepsWorks(source, s.dest, s.workers[route], turns);
  }

  lemma EveryonesTurn(source: SourceStore, s: System, mid: System, earlier: seq<string>, route: string, r: string)
    requires Disjoint(s.workers) && route in s.workers && r in s.workers
    requires route in mid.workers && r in mid.workers && Works(mid.workers[route]) == Works(s.workers[route])
    requires AsAlone(source, s, mid, r, Turns(earlier, r))
    ensures AsAlone(source, s, SystemStep(source, mid, route), r, Turns(earlier + [route], r))
  {
    TurnsOneMore(earlier, route, r);
    if r == route {
      MoversTurn(source, s, mid, r, Turns(earlier, r));
    } else {
      BystandersTurn(source, s, mid, route, r, Turns(earlier, r));
    }
  }

  lemma OneMoreTurn(source: SourceStore, s: System, mid: System, earlier: seq<string>, route: string)
    requires Disjoint(s.workers) && route in s.workers
    requires Separate(source, s, mid, earlier)
    ensures Separate(source, s, SystemStep(source, mid, route), earlier + [route])
  {
    MoverKeepsWorks(source, s, mid, route, Turns(earlier, route));
    forall r | r in s.workers
        ensures AsAlone(source, s, SystemStep(source, mid, route), r, Turns(earlier + [route], r)) {
      EveryonesTurn(source, s, mid, earlier, route, r);
    }
    forall a | Unowned(s.workers, a) ensures SameAt(s.dest, SystemStep(source, mid, route).dest, a) {
      UnownedStays(source, s, mid, route, a);
    }
  }

  lemma {:induction false} EndedStaysEnded(source: SourceStore, dest: DestStore, w: Worker, few: nat, many: nat)
    requires few <= many && Alone(source, dest, w, few).1.queue == []
    ensures Alone(source, dest, w, many) == Alone(source, dest, w, few)
    decreases many
  {
    if few < many {
      EndedStaysEnded(source, dest, w, few, many - 1);
    }
  }

  lemma EndedAgree(source: SourceStore, dest: DestStore, w: Worker, left: nat, right: nat)
    requires Alone(source, dest, w, left).1.queue == [] && Alone(source, dest, w, right).1.queue == []
    ensures Alone(source, dest, w, left) == Alone(source, dest, w, right)
  {
    if left <= right {
      EndedStaysEnded(source, dest, w, left, right);
    } else {
      EndedStaysEnded(source, dest, w, right, left);
    }
  }

  /** Any two schedules that let every worker finish end in the same system. */
  lemma CompleteSchedulesAgree(source: SourceStore, s: System, left: seq<string>, right: seq<string>)
    requires Disjoint(s.workers)
    requires Complete(RunSchedule(source, s, left)) && Complete(RunSchedule(source, s, right))
    ensures RunSchedule(source, s, left) == RunSchedule(source, s, right)
  {
    hide RunSchedule, Alone, Owns;
    var a, b := RunSchedule(source, s, left), RunSchedule(source, s, right);
    SchedulesStaySeparate(source, s, left);
    SchedulesStaySeparate(source, s, right);
    forall r | r in s.workers ensures a.workers[r] == b.workers[r] && SameOwned(a.dest, b.dest, s.workers[r]) {
      assert AsAlone(source, s, a, r, Turns(left, r)) && AsAlone(source, s, b, r, Turns(right, r));
      EndedAgree(source, s.dest, s.workers[r], Turns(left, r), Turns(right, r));
      var (dest, w) := Alone(source, s.dest, s.workers[r], Turns(left, r));
      SameOwnedChain(a.dest, dest, b.dest, s.workers[r]);
    }
    forall key: DestKey ensures (key in a.dest <==> key in b.dest) && (key in a.dest ==> a.dest[key] == b.dest[key]) {
      if r :| r in s.workers && Owns(s.workers[r], key.address) {
        assert SameAt(a.dest, b.dest, key.address);
      } else {
        assert Unowned(s.workers, key.address);
        assert SameAt(s.dest, a.dest, key.address) && SameAt(s.dest, b.dest, key.address);
      }
    }
    assert a.dest == b.dest && a.workers == b.workers;
  }

  // ----- The routes one after the other -----

  /** The operations a worker needs to empty its queue. */
  function Effort(queue: seq<Task>): nat {
    if queue == [] then 0 else Rank(queue[0]) + 1 + Effort(queue[1..])
  }

  lemma {:induction false} EffortSuffices(source: SourceStore, dest: DestStore, w: Worker, steps: nat)
    requires steps >= Effort(w.queue)
    ensures Alone(source, dest, w, steps).1.queue == []
    decreases steps
  {
    if w.queue == [] {
      EndedStaysEnded(source, dest, w, 0, steps);
    } else {
      var (dest', w') := WorkerStep(source, dest, w);
      if Rank(w.queue[0]) > 0 {
        StepDescends(source, dest, w.queue[0]);
        assert w'.queue[1..] == w.queue[1..];
      }
      EffortSuffices(source, dest', w', steps - 1);
      FirstStepFirst(source, dest, w, steps - 1);
    }
  }

  lemma {:induction false} FirstStepFirst(source: SourceStore, dest: DestStore, w: Worker, steps: nat)
    ensures var (dest', w') := WorkerStep(source, dest, w);
            Alone(source, dest, w, steps + 1) == Alone(source, dest', w', steps)
  {
    if steps > 0 {
      FirstStepFirst(source, dest, w, steps - 1);
    } else {
      assert Alone(source, dest, w, 0) == (dest, w);
    }
  }

  function Repeat(route: string, turns: nat): seq<string> {
    if turns == 0 then [] else Repeat(route, turns - 1) + [route]
  }

  /** Each route in turn takes all the operations its worker needs. */
  function InTurn(s: System, order: seq<string>): seq<string> {
    if order == [] then []
    else
      var last := order[|order| - 1];
      InTurn(s, order[..|order| - 1]) + Repeat(last, if last in s.workers then Effort(s.workers[last].queue) else 0)
  }

  lemma {:induction false} TurnsRepeat(earlier: seq<string>, route: string, turns: nat, r: string)
    ensures Turns(earlier + Repeat(route, turns), r) == Turns(earlier, r) + if r == route then turns else 0
  {
    if turns == 0 {
      assert earlier + Repeat(route, 0) == earlier;
    } else {
      var all := earlier + Repeat(route, turns);
      assert all[..|all| - 1] == earlier + Repeat(route, turns - 1);
      TurnsRepeat(earlier, route, turns - 1, r);
    }
  }

  lemma {:induction false} InTurnGivesEnough(s: System, order: seq<string>, r: string)
    requires r in order && r in s.workers
    ensures Turns(InTurn(s, order), r) >= Effort(s.workers[r].queue)
    decreases |order|
  {
    var last, rest := order[|order| - 1], order[..|order| - 1];
    TurnsRepeat(InTurn(s, rest), last, if last in s.workers then Effort(s.workers[last].queue) else 0, r);
    if r != last {
      InTurnGivesEnough(s, rest, r);
    }
  }

  lemma RoutesInTurnComplete(source: SourceStore, s: System, order: seq<string>)
    requires Disjoint(s.workers)
    requires forall r :: r in s.workers ==> r in order
    ensures Complete(RunSchedule(source, s, InTurn(s, order)))
  {
    SchedulesStaySeparate(source, s, InTurn(s, order));
    forall r | r in s.workers ensures RunSchedule(source, s, InTurn(s, order)).workers[r].queue == [] {
      InTurnGivesEnough(s, order, r);
      EffortSuffices(source, s.dest, s.workers[r], Turns(InTurn(s, order), r));
    }
  }

  // ----- From the checks to disjoint workers -----

  lemma {:induction false} TasksComeFromPlan(plan: seq<Planned>, route: string, direct: bool, i: nat) returns (at: nat)
    requires i < |TasksOf(plan, route, direct)|
    ensures at < |plan| && plan[at].route == route && plan[at].work == TasksOf(plan, route, direct)[i].work
    decreases |plan|
  {
    var here := plan[0].route == route && plan[0].work.DirectCopy? == direct;
    if here && i == 0 {
      at := 0;
    } else {
      var later := TasksComeFromPlan(plan[1..], route, direct, if here then i - 1 else i);
      at := later + 1;
    }
  }

  lemma OwnedComesFromPlan(plan: seq<Planned>, route: string, a: Address) returns (at: nat)
    requires Owns(WorkerOf(plan, route), a)
    ensures at < |plan| && plan[at].route == route && AddressOf(plan[at].work) == a
  {
    var w := WorkerOf(plan, route);
    var i :| 0 <= i < |Works(w)| && AddressOf(Works(w)[i]) == a;
    var direct := TasksOf(plan, route, true);
    if i < |direct| {
      at := TasksComeFromPlan(plan, route, true, i);
    } else {
      at := TasksComeFromPlan(plan, route, false, i - |direct|);
    }
  }

  /** The three checks pass exactly when no two pieces of the manifest share an address. */
  lemma ChecksMeanDistinct(plan: seq<Planned>)
    ensures ChecksPass(plan)
       <==> forall i, j :: 0 <= i < j < |plan| ==> AddressOf(plan[i].work) != AddressOf(plan[j].work)
  {
    if ChecksPass(plan) {
      forall i, j | 0 <= i < j < |plan| ensures AddressOf(plan[i].work) != AddressOf(plan[j].work) {
        assert AddressOf(plan[i].work) == AddressOf(plan[j].work) ==>
            HasDuplicateDirectDestination(plan) || HasDuplicateArchiveDestination(plan)
                || HasDirectArchiveCollision(plan);
      }
    }
  }

  lemma ChecksGiveDisjointWorkers(dest: DestStore, plan: seq<Planned>, routes: set<string>)
    requires ChecksPass(plan)
    ensures Disjoint(Initial(dest, plan, routes).workers)
  {
    ChecksMeanDistinct(plan);
    var workers := Initial(dest, plan, routes).workers;
    forall r, q, a | r in workers && q in workers && r != q && Owns(workers[r], a) ensures !Owns(workers[q], a) {
      var i := OwnedComesFromPlan(plan, r, a);
      if Owns(workers[q], a) {
        var j := OwnedComesFromPlan(plan, q, a);
      }
    }
  }

  function FailuresOf(s: System, routes: set<string>): map<string, seq<Task>> {
    map r | r in routes && r in s.workers :: Failed(s.workers[r].ended)
  }

  function Failed(ended: seq<Task>): seq<Task> {
    if ended == [] then []
    else (if ended[0].phase.Failed? then [ended[0]] else []) + Failed(ended[1..])
  }

  /**
   When the destination checks pass, every schedule in which all workers finish gives the
   destination and the failures that the routes give when run one after the other, in
   whatever order.
   */
  lemma InterleavingIsSequential(source: SourceStore, dest: DestStore, plan: seq<Planned>, routes: set<string>,
                                 schedule: seq<string>, order: seq<string>)
    requires ChecksPass(plan)
    requires forall r :: r in routes ==> r in order
    requires Complete(RunSchedule(source, Initial(dest, plan, routes), schedule))
    ensures var s := Initial(dest, plan, routes);
            var interleaved, sequential := RunSchedule(source, s, schedule), RunSchedule(source, s, InTurn(s, order));
            && Complete(sequential)
            && interleaved.dest == sequential.dest
            && FailuresOf(interleaved, routes) == FailuresOf(sequential, routes)
  {
    var s := Initial(dest, plan, routes);
    ChecksGiveDisjointWorkers(dest, plan, routes);
    RoutesInTurnComplete(source, s, order);
    CompleteSchedulesAgree(source, s, schedule, InTurn(s, order));
  }
}
