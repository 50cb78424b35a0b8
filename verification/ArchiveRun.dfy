/**
 One archive run: build the manifest, copy, verify, and decide which entries may be
 deleted. What each copy or check comes to, how far each worker got and when the clock
 passed the deadline are inputs.
 */
module ArchiveRun {
  import opened Wrappers
  import opened Manifest
  import opened Stores
  import opened CleanupManifest

  /** A direct copy, or an archive group with the entries read through its chunk. */
  datatype Item = Item(route: string, direct: bool, address: Address, entries: seq<Entry>)

  datatype PhaseFailure =
    | ItemFailed(address: Address)
    | WorkerRaised(route: string)
    | RunTimedOut
    | ListFailed(reason: string)

  datatype PhaseResult = PhaseResult(failures: seq<PhaseFailure>, skipped: bool)

  predicate PhaseOk(phase: PhaseResult) {
    phase.failures == []
  }

  datatype RunResult = RunResult(
    list: PhaseResult,
    copy: PhaseResult,
    verify: PhaseResult,
    cleanup: Option<seq<Entry>>)

  predicate RunOk(result: RunResult) {
    PhaseOk(result.list) && PhaseOk(result.copy) && PhaseOk(result.verify)
  }

  /**
   How a phase went: the addresses at which it failed; how much each worker had done by the
   time it was taken into account, in items copied or in entries verified; the workers that
   raised; the workers whose results were collected, in order of arrival; whether the
   deadline had passed before it began. A worker whose results were not collected may go on.
   */
  datatype PhaseLog = PhaseLog(
    failed: set<Address>,
    finished: map<string, nat>,
    raised: set<string>,
    arrived: seq<string>,
    lateStart: bool)

  datatype RunLog = RunLog(
    copy: PhaseLog,
    verify: PhaseLog,
    lateAfterList: bool,
    lateAfterCopy: bool,
    lateAfterVerify: bool)

  // ----- Selecting items -----

  function OfRoute(items: seq<Item>, route: string, direct: bool): seq<Item> {
    if items == [] then []
    else
      (if items[0].route == route && items[0].direct == direct then [items[0]] else [])
      + OfRoute(items[1..], route, direct)
  }

  function AtAddresses(items: seq<Item>, addresses: set<Address>): seq<Item> {
    if items == [] then []
    else (if items[0].address in addresses then [items[0]] else []) + AtAddresses(items[1..], addresses)
  }

  function EntriesOf(items: seq<Item>): seq<Entry> {
    if items == [] then [] else items[0].entries + EntriesOf(items[1..])
  }

  /** What a copy worker goes through: direct copies, then groups. */
  function CopyQueue(items: seq<Item>, route: string): seq<Item> {
    OfRoute(items, route, true) + OfRoute(items, route, false)
  }

  /** What a verify worker goes through: groups, then direct copies. */
  function VerifyQueue(items: seq<Item>, route: string): seq<Item> {
    OfRoute(items, route, false) + OfRoute(items, route, true)
  }

  /** The part of a queue a worker finished; all of it once its results arrived without an exception. */
  function Finished(queue: seq<Item>, route: string, log: PhaseLog): seq<Item> {
    if route in log.arrived && route !in log.raised then queue
    else if route in log.finished && log.finished[route] <= |queue| then queue[..log.finished[route]]
    else []
  }

  function Passed(items: seq<Item>, failed: set<Address>): seq<Item> {
    if items == [] then []
    else Passed(items[..|items| - 1], failed)
         + if items[|items| - 1].address in failed then [] else [items[|items| - 1]]
  }

  function FailuresIn(items: seq<Item>, failed: set<Address>): seq<PhaseFailure> {
    if items == [] then []
    else FailuresIn(items[..|items| - 1], failed)
         + if items[|items| - 1].address in failed then [ItemFailed(items[|items| - 1].address)] else []
  }

  // ----- Workers and phases -----

  method Work(items: seq<Item>, failed: set<Address>) returns (passed: seq<Item>, failures: seq<PhaseFailure>)
    ensures passed == Passed(items, failed) && failures == FailuresIn(items, failed)
  {
    passed, failures := [], [];
    for i := 0 to |items|
      invariant passed == Passed(items[..i], failed) && failures == FailuresIn(items[..i], failed)
    {
      assert items[..i + 1][..i] == items[..i];
      if items[i].address in failed {
        failures := failures + [ItemFailed(items[i].address)];
      } else {
        passed := passed + [items[i]];
      }
    }
    assert items[..|items|] == items;
  }

  /** What the workers of all routes passed, route by route. */
  function AllPassed(queues: map<string, seq<Item>>, routes: seq<string>, log: PhaseLog): seq<Item>
    requires forall r :: r in routes ==> r in queues
  {
    if routes == [] then []
    else
      var r := routes[|routes| - 1];
      AllPassed(queues, routes[..|routes| - 1], log) + Passed(Finished(queues[r], r, log), log.failed)
  }

  /** The entries a verify worker had recorded, one by one as their items passed. */
  function Recorded(queue: seq<Item>, route: string, log: PhaseLog): seq<Entry> {
    var all := EntriesOf(Passed(queue, log.failed));
    if route in log.arrived && route !in log.raised then all
    else if route in log.finished && log.finished[route] <= |all| then all[..log.finished[route]]
    else []
  }

  function AllRecorded(queues: map<string, seq<Item>>, routes: seq<string>, log: PhaseLog): seq<Entry>
    requires forall r :: r in routes ==> r in queues
  {
    if routes == [] then []
    else
      var r := routes[|routes| - 1];
      AllRecorded(queues, routes[..|routes| - 1], log) + Recorded(queues[r], r, log)
  }

  /** The failures collected, in order of arrival, and a timeout when a worker is missing. */
  function Collected(queues: map<string, seq<Item>>, routes: seq<string>, log: PhaseLog): seq<PhaseFailure>
    requires forall r :: r in log.arrived ==> r in queues
  {
    if routes == [] then []
    else if log.lateStart then [RunTimedOut]
    else Arrivals(queues, log.arrived, log) + if |log.arrived| < |routes| then [RunTimedOut] else []
  }

  function Arrivals(queues: map<string, seq<Item>>, arrived: seq<string>, log: PhaseLog): seq<PhaseFailure>
    requires forall r :: r in arrived ==> r in queues
  {
    if arrived == [] then []
    else
      var r := arrived[|arrived| - 1];
      Arrivals(queues, arrived[..|arrived| - 1], log)
      + if r in log.raised then [WorkerRaised(r)] else FailuresIn(queues[r], log.failed)
  }

  /** The results of the workers, as they arrive; with a late start no worker runs at all. */
  method RunPhase(queues: map<string, seq<Item>>, routes: seq<string>, log: PhaseLog)
    returns (result: PhaseResult, started: bool)
    requires forall r :: r in log.arrived ==> r in queues
    ensures result == PhaseResult(Collected(queues, routes, log), false)
    ensures started <==> routes != [] && !log.lateStart
  {
    if routes == [] {
      return PhaseResult([], false), false;
    }
    if log.lateStart {
      return PhaseResult([RunTimedOut], false), false;
    }
    var failures: seq<PhaseFailure> := [];
    for i := 0 to |log.arrived|
      invariant failures == Arrivals(queues, log.arrived[..i], log)
    {
      var r := log.arrived[i];
      assert log.arrived[..i + 1][..i] == log.arrived[..i];
      if r in log.raised {
        failures := failures + [WorkerRaised(r)];
      } else {
        var _, some := Work(queues[r], log.failed);
        failures := failures + some;
      }
    }
    assert log.arrived[..|log.arrived|] == log.arrived;
    if |log.arrived| < |routes| {
      failures := failures + [RunTimedOut];
    }
    return PhaseResult(failures, false), true;
  }

  /** What the copy workers marked as copied. */
  method TakeCopied(queues: map<string, seq<Item>>, routes: seq<string>, log: PhaseLog) returns (passed: seq<Item>)
    requires forall r :: r in routes ==> r in queues
    ensures passed == AllPassed(queues, routes, log)
  {
    passed := [];
    for i := 0 to |routes|
      invariant passed == AllPassed(queues, routes[..i], log)
    {
      assert routes[..i + 1][..i] == routes[..i];
      var some, _ := Work(Finished(queues[routes[i]], routes[i], log), log.failed);
      passed := passed + some;
    }
    assert routes[..|routes|] == routes;
  }

  /** What the verify workers recorded for cleanup. */
  method TakeRecorded(queues: map<string, seq<Item>>, routes: seq<string>, log: PhaseLog) returns (entries: seq<Entry>)
    requires forall r :: r in routes ==> r in queues
    ensures entries == AllRecorded(queues, routes, log)
  {
    entries := [];
    for i := 0 to |routes|
      invariant entries == AllRecorded(queues, routes[..i], log)
    {
      assert routes[..i + 1][..i] == routes[..i];
      entries := entries + Recorded(queues[routes[i]], routes[i], log);
    }
    assert routes[..|routes|] == routes;
  }

  // ----- The run -----

  function Addresses(items: seq<Item>): set<Address> {
    set item | item in items :: item.address
  }

  function CopyQueues(items: seq<Item>, routes: seq<string>): map<string, seq<Item>> {
    map r | r in routes :: CopyQueue(items, r)
  }

  function VerifyQueues(items: seq<Item>, routes: seq<string>): map<string, seq<Item>> {
    map r | r in routes :: VerifyQueue(items, r)
  }

  /** Items that passed the copy phase. */
  function Copied(items: seq<Item>, routes: seq<string>, log: RunLog): seq<Item> {
    if log.copy.lateStart then [] else AllPassed(CopyQueues(items, routes), routes, log.copy)
  }

  /** What is verified: the items whose address was copied to. */
  function ToVerify(items: seq<Item>, routes: seq<string>, log: RunLog): seq<Item> {
    AtAddresses(items, Addresses(Copied(items, routes, log)))
  }

  /** The entries recorded by the verify phase. */
  function Verified(items: seq<Item>, routes: seq<string>, log: RunLog): seq<Entry> {
    if log.verify.lateStart then []
    else AllRecorded(VerifyQueues(ToVerify(items, routes, log), routes), routes, log.verify)
  }

  const SKIPPED := PhaseResult([], true)
  const FINE := PhaseResult([], false)
  const LATE := PhaseResult([RunTimedOut], false)

  predicate Arriving(routes: seq<string>, log: RunLog) {
    && (forall r :: r in log.copy.arrived ==> r in routes)
    && (forall r :: r in log.verify.arrived ==> r in routes)
  }

  function CopyResult(items: seq<Item>, routes: seq<string>, log: RunLog): PhaseResult
    requires Arriving(routes, log)
  {
    PhaseResult(Collected(CopyQueues(items, routes), routes, log.copy), false)
  }

  function VerifyResult(items: seq<Item>, routes: seq<string>, log: RunLog): PhaseResult
    requires Arriving(routes, log)
  {
    PhaseResult(Collected(VerifyQueues(ToVerify(items, routes, log), routes), routes, log.verify), false)
  }

  predicate Halted(plan: Result<seq<Item>, string>, routes: seq<string>, log: RunLog)
    requires Arriving(routes, log)
  {
    || plan.Err?
    || log.lateAfterList
    || log.lateAfterCopy
    || (log.lateAfterVerify && PhaseOk(CopyResult(plan.value, routes, log)))
  }

  /** The phases in order; only a run that was not halted fills in the entries for cleanup. */
  method RunArchive(plan: Result<seq<Item>, string>, routes: seq<string>, log: RunLog) returns (result: RunResult)
    requires routes != [] && Arriving(routes, log)
    ensures Halted(plan, routes, log) <==> result.cleanup.None?
    ensures Halted(plan, routes, log) ==> !RunOk(result)
    ensures !Halted(plan, routes, log) ==>
              && result.list == FINE
              && result.copy == CopyResult(plan.value, routes, log)
              && result.verify == (if Copied(plan.value, routes, log) == [] && !PhaseOk(result.copy) then SKIPPED
                                   else VerifyResult(plan.value, routes, log))
              && result.cleanup == Some(Verified(plan.value, routes, log))
    ensures RunOk(result) && Consistent(plan.value, routes, log) ==>
              multiset(result.cleanup.value) == multiset(EntriesOf(plan.value))
    ensures forall all :: ExportedEntries(result, all) == if result.cleanup == Some([]) then None else result.cleanup
  {
    if plan.Err? {
      return RunResult(PhaseResult([ListFailed(plan.error)], false), SKIPPED, SKIPPED, None);
    }
    var items := plan.value;
    if log.lateAfterList {
      return RunResult(FINE, LATE, SKIPPED, None);
    }
    var copy, started := RunPhase(CopyQueues(items, routes), routes, log.copy);
    var copied: seq<Item> := [];
    if started {
      copied := TakeCopied(CopyQueues(items, routes), routes, log.copy);
    }
    if log.lateAfterCopy {
      return RunResult(FINE, if PhaseOk(copy) then LATE else copy, SKIPPED, None);
    }
    var verify, cleanup := SKIPPED, [];
    if copied == [] && !PhaseOk(copy) {
      NothingCopiedNothingVerified(items, routes, log);
    } else {
      var queues := VerifyQueues(AtAddresses(items, Addresses(copied)), routes);
      verify, started := RunPhase(queues, routes, log.verify);
      if started {
        cleanup := TakeRecorded(queues, routes, log.verify);
      }
    }
    if PhaseOk(copy) && log.lateAfterVerify {
      return RunResult(FINE, copy, if PhaseOk(verify) then LATE else verify, None);
    }
    result := RunResult(FINE, copy, verify, Some(cleanup));
    if RunOk(result) && Consistent(items, routes, log) {
      FineRunsCleanEverything(items, routes, log);
    }
  }

  /**
   What is written for cleanup: nothing for a run without entries; the fallback to every
   entry of the manifest would need a run that is fine and has no entries.
   */
  function ExportedEntries(result: RunResult, all: seq<Entry>): Option<seq<Entry>> {
    if result.cleanup.None? then if RunOk(result) && all != [] then Some(all) else None
    else if result.cleanup.value == [] then None
    else result.cleanup
  }

  method WriteResultManifest(result: RunResult, all: seq<Entry>, runId: string, startedAt: string)
    returns (file: Option<seq<Line>>)
    ensures file == match ExportedEntries(result, all)
                    case None => None
                    case Some(entries) => Some(Written(runId, startedAt, RecordsFor(entries)))
    ensures file.Some? ==> WellFormed(file.value)
  {
    var entries := ExportedEntries(result, all);
    if entries.None? {
      return None;
    }
    var written, _ := WriteCleanupManifest(runId, startedAt, RecordsFor(entries.value));
    WrittenReadsBack(runId, startedAt, RecordsFor(entries.value));
    file := Some(written);
  }

  function RecordsFor(entries: seq<Entry>): seq<CleanupRecord> {
    seq(|entries|, i requires 0 <= i < |entries| => RecordOf(entries[i]))
  }

  // ----- What a run guarantees -----

  ghost predicate Distinct<T>(s: seq<T>) {
    forall i, j :: 0 <= i < j < |s| ==> s[i] != s[j]
  }

  /** Unique route names, results that arrive once each, items of known routes at unique addresses. */
  ghost predicate Consistent(items: seq<Item>, routes: seq<string>, log: RunLog) {
    && Distinct(routes) && Distinct(log.copy.arrived) && Distinct(log.verify.arrived)
    && (forall item :: item in items ==> item.route in routes)
    && (forall i, j :: 0 <= i < j < |items| ==> items[i].address != items[j].address)
  }

  lemma {:induction false} OfRouteSelects(items: seq<Item>, route: string, direct: bool)
    ensures forall item :: item in OfRoute(items, route, direct) <==>
              item in items && item.route == route && item.direct == direct
  {
    if items != [] {
      OfRouteSelects(items[1..], route, direct);
    }
  }

  lemma {:induction false} AtAddressesSelects(items: seq<Item>, addresses: set<Address>)
    ensures forall item :: item in AtAddresses(items, addresses) <==> item in items && item.address in addresses
  {
    if items != [] {
      AtAddressesSelects(items[1..], addresses);
    }
  }

  lemma {:induction false} PassedSelects(items: seq<Item>, failed: set<Address>)
    ensures forall item :: item in Passed(items, failed) <==> item in items && item.address !in failed
    ensures FailuresIn(items, failed) == [] ==> Passed(items, failed) == items
    decreases |items|
  {
    if items != [] {
      var rest, last := items[..|items| - 1], items[|items| - 1];
      PassedSelects(rest, failed);
      assert items == rest + [last];
    }
  }

  lemma {:induction false} CopiedHasQueue(queues: map<string, seq<Item>>, routes: seq<string>, log: PhaseLog,
                                          item: Item)
    returns (r: string)
    requires forall r :: r in routes ==> r in queues
    requires item in AllPassed(queues, routes, log)
    ensures r in routes && item in queues[r] && item.address !in log.failed
    decreases |routes|
  {
    r := routes[|routes| - 1];
    if item in Passed(Finished(queues[r], r, log), log.failed) {
      PassedSelects(Finished(queues[r], r, log), log.failed);
    } else {
      r := CopiedHasQueue(queues, routes[..|routes| - 1], log, item);
    }
  }

  lemma {:induction false} EntryHasItem(items: seq<Item>, e: Entry) returns (item: Item)
    requires e in EntriesOf(items)
    ensures item in items && e in item.entries
  {
    if e in items[0].entries {
      item := items[0];
    } else {
      item := EntryHasItem(items[1..], e);
    }
  }

  lemma {:induction false} RecordedHasItem(queues: map<string, seq<Item>>, routes: seq<string>, log: PhaseLog, e: Entry)
    returns (r: string, item: Item)
    requires forall r :: r in routes ==> r in queues
    requires e in AllRecorded(queues, routes, log)
    ensures r in routes && item in queues[r] && item.address !in log.failed && e in item.entries
    decreases |routes|
  {
    var last := routes[|routes| - 1];
    if e in Recorded(queues[last], last, log) {
      r := last;
      item := EntryHasItem(Passed(queues[last], log.failed), e);
      PassedSelects(queues[last], log.failed);
    } else {
      r, item := RecordedHasItem(queues, routes[..|routes| - 1], log, e);
    }
  }

  /**
   On every run, also a failed one, an entry reaches cleanup only with an item of the
   manifest that passed its copy and its check.
   */
  lemma CleanupOnlyOfVerified(items: seq<Item>, routes: seq<string>, log: RunLog, e: Entry) returns (item: Item)
    requires Consistent(items, routes, log) && e in Verified(items, routes, log)
    ensures item in items && e in item.entries
    ensures item in Copied(items, routes, log) && item.address !in log.copy.failed && item.address !in log.verify.failed
  {
    var toVerify := ToVerify(items, routes, log);
    var r;
    r, item := RecordedHasItem(VerifyQueues(toVerify, routes), routes, log.verify, e);
    OfRouteSelects(toVerify, r, false);
    OfRouteSelects(toVerify, r, true);
    ToVerifyWasCopied(items, routes, log, item);
  }

  lemma ToVerifyWasCopied(items: seq<Item>, routes: seq<string>, log: RunLog, item: Item)
    requires Consistent(items, routes, log) && item in ToVerify(items, routes, log)
    ensures item in items && item in Copied(items, routes, log) && item.address !in log.copy.failed
  {
    var copied := Copied(items, routes, log);
    AtAddressesSelects(items, Addresses(copied));
    var twin :| twin in copied && twin.address == item.address;
    var q := CopiedHasQueue(CopyQueues(items, routes), routes, log.copy, twin);
    OfRouteSelects(items, q, false);
    OfRouteSelects(items, q, true);
    assert twin in items && item in items;
    assert twin == item;
  }

  // ----- A run that is fine -----

  lemma {:induction false} NoArrivalFailed(queues: map<string, seq<Item>>, arrived: seq<string>, log: PhaseLog,
                                           r: string)
    requires forall q :: q in arrived ==> q in queues
    requires Arrivals(queues, arrived, log) == [] && r in arrived
    ensures r !in log.raised && FailuresIn(queues[r], log.failed) == []
    decreases |arrived|
  {
    if r != arrived[|arrived| - 1] {
      NoArrivalFailed(queues, arrived[..|arrived| - 1], log, r);
    }
  }

  /** Distinct names out of a list as long as itself are all of it. */
  lemma {:induction false} AllArrived(routes: seq<string>, arrived: seq<string>, r: string)
    requires Distinct(arrived) && (forall q :: q in arrived ==> q in routes)
    requires |arrived| >= |routes| && r in routes
    ensures r in arrived
    decreases |routes|
  {
    if r !in arrived {
      var i :| 0 <= i < |routes| && routes[i] == r;
      var fewer := routes[..i] + routes[i + 1..];
      forall q | q in arrived ensures q in fewer {
        var k :| 0 <= k < |routes| && routes[k] == q;
        assert if k < i then fewer[k] == q else fewer[k - 1] == q;
      }
      PigeonHole(fewer, arrived);
    }
  }

  lemma {:induction false} PigeonHole(holes: seq<string>, pigeons: seq<string>)
    requires Distinct(pigeons) && forall q :: q in pigeons ==> q in holes
    ensures |pigeons| <= |holes|
    decreases |pigeons|
  {
    if pigeons != [] {
      var last, rest := pigeons[|pigeons| - 1], pigeons[..|pigeons| - 1];
      assert last in pigeons;
      var i :| 0 <= i < |holes| && holes[i] == last;
      var fewer := holes[..i] + holes[i + 1..];
      forall q | q in rest ensures q in fewer {
        assert q in pigeons && q != last;
        var k :| 0 <= k < |holes| && holes[k] == q;
        assert if k < i then fewer[k] == q else fewer[k - 1] == q;
      }
      PigeonHole(fewer, rest);
    }
  }

  /** When a phase is fine, every queue was finished and passed in full. */
  lemma FinePhasePassesAll(queues: map<string, seq<Item>>, routes: seq<string>, log: PhaseLog, r: string)
    requires forall q :: q in routes ==> q in queues
    requires Distinct(log.arrived) && forall q :: q in log.arrived ==> q in routes
    requires Collected(queues, routes, log) == [] && r in routes
    ensures !log.lateStart && Passed(Finished(queues[r], r, log), log.failed) == queues[r]
    ensures Recorded(queues[r], r, log) == EntriesOf(queues[r])
  {
    AllArrived(routes, log.arrived, r);
    NoArrivalFailed(queues, log.arrived, log, r);
    PassedSelects(queues[r], log.failed);
  }

  function Joined(queues: map<string, seq<Item>>, routes: seq<string>): seq<Item>
    requires forall r :: r in routes ==> r in queues
  {
    if routes == [] then [] else Joined(queues, routes[..|routes| - 1]) + queues[routes[|routes| - 1]]
  }

  lemma {:induction false} FinePhaseJoins(queues: map<string, seq<Item>>, all: seq<string>, routes: seq<string>,
                                          log: PhaseLog)
    requires forall q :: q in all ==> q in queues
    requires forall r :: r in routes ==> r in all
    requires Distinct(log.arrived) && forall q :: q in log.arrived ==> q in all
    requires Collected(queues, all, log) == []
    ensures AllPassed(queues, routes, log) == Joined(queues, routes)
    ensures AllRecorded(queues, routes, log) == EntriesOf(Joined(queues, routes))
    decreases |routes|
  {
    if routes != [] {
      var rest, r := routes[..|routes| - 1], routes[|routes| - 1];
      FinePhaseJoins(queues, all, rest, log);
      FinePhasePassesAll(queues, all, log, r);
      EntriesJoin(Joined(queues, rest), queues[r]);
    }
  }

  // ----- Items by route are the items -----

  lemma {:induction false} EntriesJoin(a: seq<Item>, b: seq<Item>)
    ensures EntriesOf(a + b) == EntriesOf(a) + EntriesOf(b)
    decreases |a|
  {
    if a == [] {
      assert a + b == b;
    } else {
      assert (a + b)[1..] == a[1..] + b;
      EntriesJoin(a[1..], b);
    }
  }

  function OfRoutes(items: seq<Item>, routes: seq<string>): seq<Item> {
    if items == [] then [] else (if items[0].route in routes then [items[0]] else []) + OfRoutes(items[1..], routes)
  }

  function Share(items: seq<Item>, r: string): multiset<Entry> {
    multiset(EntriesOf(OfRoute(items, r, false))) + multiset(EntriesOf(OfRoute(items, r, true)))
  }

  lemma HeadAdds(head: Item, rest: seq<Item>)
    ensures multiset(EntriesOf([head] + rest)) == multiset(head.entries) + multiset(EntriesOf(rest))
  {
    assert ([head] + rest)[1..] == rest;
  }

  lemma OfRouteHead(items: seq<Item>, r: string, direct: bool)
    requires items != []
    ensures multiset(EntriesOf(OfRoute(items, r, direct)))
         == (if items[0].route == r && items[0].direct == direct then multiset(items[0].entries) else multiset{})
            + multiset(EntriesOf(OfRoute(items[1..], r, direct)))
  {
    HeadAdds(items[0], OfRoute(items[1..], r, direct));
    assert [] + OfRoute(items[1..], r, direct) == OfRoute(items[1..], r, direct);
  }

  /** An item is in the share of its own route and in no other. */
  lemma ShareOfHead(items: seq<Item>, r: string)
    requires items != []
    ensures Share(items, r)
         == (if items[0].route == r then multiset(items[0].entries) else multiset{}) + Share(items[1..], r)
  {
    OfRouteHead(items, r, false);
    OfRouteHead(items, r, true);
  }

  lemma OfRoutesHead(items: seq<Item>, routes: seq<string>)
    requires items != []
    ensures multiset(EntriesOf(OfRoutes(items, routes)))
         == (if items[0].route in routes then multiset(items[0].entries)
             else multiset{}) + multiset(EntriesOf(OfRoutes(items[1..], routes)))
  {
    HeadAdds(items[0], OfRoutes(items[1..], routes));
    assert [] + OfRoutes(items[1..], routes) == OfRoutes(items[1..], routes);
  }

  /** One more route adds its groups and direct copies, nothing twice. */
  lemma {:induction false} OneMoreRoute(items: seq<Item>, routes: seq<string>, r: string)
    requires r !in routes
    ensures multiset(EntriesOf(OfRoutes(items, routes + [r])))
              == multiset(EntriesOf(OfRoutes(items, routes))) + Share(items, r)
  {
    if items != [] {
      OneMoreRoute(items[1..], routes, r);
      ShareOfHead(items, r);
      OfRoutesHead(items, routes);
      OfRoutesHead(items, routes + [r]);
    }
  }

  lemma {:induction false} OfAllRoutes(items: seq<Item>, routes: seq<string>)
    requires forall item :: item in items ==> item.route in routes
    ensures OfRoutes(items, routes) == items
  {
    if items != [] {
      OfAllRoutes(items[1..], routes);
    }
  }

  lemma {:induction false} OfNoRoute(items: seq<Item>)
    ensures OfRoutes(items, []) == []
  {
    if items != [] {
      OfNoRoute(items[1..]);
    }
  }

  /** The queues of distinct routes, joined, hold the entries of the items of those routes. */
  lemma {:induction false} JoinedAreOfRoutes(items: seq<Item>, queues: map<string, seq<Item>>, routes: seq<string>)
    requires Distinct(routes)
    requires forall r :: r in routes ==> r in queues && queues[r] == VerifyQueue(items, r)
    ensures multiset(EntriesOf(Joined(queues, routes))) == multiset(EntriesOf(OfRoutes(items, routes)))
    decreases |routes|
  {
    if routes == [] {
      OfNoRoute(items);
    } else {
      var rest, r := routes[..|routes| - 1], routes[|routes| - 1];
      assert routes == rest + [r];
      JoinedAreOfRoutes(items, queues, rest);
      OneMoreRoute(items, rest, r);
      EntriesJoin(Joined(queues, rest), queues[r]);
      EntriesJoin(OfRoute(items, r, false), OfRoute(items, r, true));
    }
  }

  lemma {:induction false} AtAllAddresses(items: seq<Item>, addresses: set<Address>)
    requires forall item :: item in items ==> item.address in addresses
    ensures AtAddresses(items, addresses) == items
  {
    if items != [] {
      AtAllAddresses(items[1..], addresses);
    }
  }

  lemma {:induction false} InJoined(queues: map<string, seq<Item>>, routes: seq<string>, r: string, item: Item)
    requires forall q :: q in routes ==> q in queues
    requires r in routes && item in queues[r]
    ensures item in Joined(queues, routes)
    decreases |routes|
  {
    if r != routes[|routes| - 1] {
      InJoined(queues, routes[..|routes| - 1], r, item);
    }
  }

  /** After a copy phase that is fine every item goes on to verification. */
  lemma FineCopyKeepsAll(items: seq<Item>, routes: seq<string>, log: RunLog)
    requires routes != [] && Arriving(routes, log) && Consistent(items, routes, log)
    requires PhaseOk(CopyResult(items, routes, log))
    ensures ToVerify(items, routes, log) == items
  {
    var queues := CopyQueues(items, routes);
    FinePhaseJoins(queues, routes, routes, log.copy);
    FinePhasePassesAll(queues, routes, log.copy, routes[0]);
    forall item | item in items ensures item.address in Addresses(Copied(items, routes, log)) {
      OfRouteSelects(items, item.route, item.direct);
      InJoined(queues, routes, item.route, item);
    }
    AtAllAddresses(items, Addresses(Copied(items, routes, log)));
  }

  /** A run reported fine puts every entry of the manifest in the cleanup set, as often as it is in the manifest. */
  lemma FineRunsCleanEverything(items: seq<Item>, routes: seq<string>, log: RunLog)
    requires routes != [] && Arriving(routes, log) && Consistent(items, routes, log)
    requires PhaseOk(CopyResult(items, routes, log)) && PhaseOk(VerifyResult(items, routes, log))
    ensures multiset(Verified(items, routes, log)) == multiset(EntriesOf(items))
  {
    FineCopyKeepsAll(items, routes, log);
    var queues := VerifyQueues(items, routes);
    FinePhaseJoins(queues, routes, routes, log.verify);
    FinePhasePassesAll(queues, routes, log.verify, routes[0]);
    JoinedAreOfRoutes(items, queues, routes);
    OfAllRoutes(items, routes);
  }

  // ----- A run in which nothing was copied -----

  lemma {:induction false} AtNoAddress(items: seq<Item>)
    ensures AtAddresses(items, {}) == []
  {
    if items != [] {
      AtNoAddress(items[1..]);
    }
  }

  lemma {:induction false} EmptyQueuesRecordNothing(queues: map<string, seq<Item>>, routes: seq<string>, log: PhaseLog)
    requires forall r :: r in routes ==> r in queues && queues[r] == []
    ensures AllRecorded(queues, routes, log) == []
    decreases |routes|
  {
    if routes != [] {
      EmptyQueuesRecordNothing(queues, routes[..|routes| - 1], log);
    }
  }

  lemma NothingCopiedNothingVerified(items: seq<Item>, routes: seq<string>, log: RunLog)
    requires Copied(items, routes, log) == []
    ensures Verified(items, routes, log) == []
  {
    AtNoAddress(items);
    assert Addresses([]) == {};
    EmptyQueuesRecordNothing(VerifyQueues([], routes), routes, log.verify);
  }
}
