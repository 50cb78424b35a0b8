/**
 `copy_group` run without interference: the method over the two buckets, its outcome in
 closed form, the agreement of both with the atomic steps of `CopyTask`, and reruns.
 */
module CopyGroup {
  import opened Wrappers
  import opened Manifest
  import opened Membership
  import opened Stores
  import opened CopyTask

  class SourceBucket {
    var objects: SourceStore

    constructor (objects: SourceStore)
      ensures this.objects == objects
    {
      this.objects := objects;
    }
  }

  class DestinationBucket {
    var objects: DestStore

    constructor (objects: DestStore)
      ensures this.objects == objects
    {
      this.objects := objects;
    }

    method Head(key: DestKey) returns (found: Option<DestObject>)
      ensures found == if key in objects then Some(objects[key]) else None
    {
      found := if key in objects then Some(objects[key]) else None;
    }

    method Upload(key: DestKey, content: DestObject)
      modifies this
      ensures objects == old(objects)[key := content]
    {
      objects := objects[key := content];
    }
  }

  // ----- The outcome in closed form -----

  /** All members of a group, or the first failure. */
  function StageFrom(source: SourceStore, entries: seq<Entry>, members: seq<Member>): Result<seq<Member>, string>
    decreases |entries| - |members|
  {
    if |members| >= |entries| then Ok(members)
    else
      match StageEntry(source, entries[|members|])
      case Err(reason) => Err(reason)
      case Ok(member) => StageFrom(source, entries, members + [member])
  }

  function WithSidecar(dest: DestStore, g: Group, sidecarSize: nat): DestStore {
    dest[SidecarKey(g) := DestObject(NO_METADATA, Sidecar(LinesOf(RowsOf(g.entries))), sidecarSize)]
  }

  function WithArchive(dest: DestStore, g: Group, members: seq<Member>, tarSize: nat): DestStore {
    dest[At(g.address) := DestObject(UploadMetadata(g, members, tarSize), Tar(members), tarSize)]
  }

  /** Reuse what is stored, refuse to touch it, or write the sidecar and then the archive. */
  function Outcome(source: SourceStore, dest: DestStore, g: Group, tarSize: nat, sidecarSize: nat): (DestStore, Phase) {
    var key := At(g.address);
    if key in dest && Reusable(dest[key], g) then (dest, Done)
    else
      var allowed := if key in dest then Refreshable(dest, dest[key].metadata, g) else Ok(true);
      match allowed
      case Err(reason) => (dest, Failed(reason))
      case Ok(false) => (dest, Failed("archive verification failed"))
      case Ok(true) =>
        match StageFrom(source, g.entries, [])
        case Err(reason) => (dest, Failed(reason))
        case Ok(members) => (WithArchive(WithSidecar(dest, g, sidecarSize), g, members, tarSize), Done)
  }

  // ----- The method -----

  method WriteTar(source: SourceBucket, entries: seq<Entry>) returns (tar: Result<seq<Member>, string>)
    ensures tar == StageFrom(source.objects, entries, [])
  {
    var members: seq<Member> := [];
    while |members| < |entries|
      invariant |members| <= |entries|
      invariant StageFrom(source.objects, entries, members) == StageFrom(source.objects, entries, [])
    {
      var next := StageEntry(source.objects, entries[|members|]);
      if next.Err? {
        return Err(next.error);
      }
      members := members + [next.value];
    }
    return Ok(members);
  }

  method UploadMembership(destination: DestinationBucket, g: Group, sidecarSize: nat) returns (stored: bool)
    modifies destination
    ensures destination.objects == WithSidecar(old(destination.objects), g, sidecarSize)
    ensures stored
  {
    var rows: seq<Line> := [];
    for i := 0 to |g.entries|
      invariant rows == LinesOf(RowsOf(g.entries))[..i]
    {
      rows := rows + [Canonical(RowOf(g.entries[i]))];
    }
    assert rows == LinesOf(RowsOf(g.entries));
    destination.Upload(SidecarKey(g), DestObject(NO_METADATA, Sidecar(rows), sidecarSize));
    var found := destination.Head(SidecarKey(g));
    stored := found.Some? && found.value.size == sidecarSize;
  }

  method CopyGroup(source: SourceBucket, destination: DestinationBucket, g: Group, tarSize: nat, sidecarSize: nat)
    returns (end: Phase)
    modifies destination
    ensures (destination.objects, end) == Outcome(source.objects, old(destination.objects), g, tarSize, sidecarSize)
  {
    var key := At(g.address);
    var existing := destination.Head(key);
    if existing.Some? {
      if Reusable(existing.value, g) {
        return Done;
      }
      var allowed := Refreshable(destination.objects, existing.value.metadata, g);
      if allowed.Err? {
        return Failed(allowed.error);
      }
      if !allowed.value {
        return Failed("archive verification failed");
      }
    }
    var tar := WriteTar(source, g.entries);
    if tar.Err? {
      return Failed(tar.error);
    }
    var stored := UploadMembership(destination, g, sidecarSize);
    if !stored {
      return Failed("membership upload size mismatch");
    }
    destination.Upload(key, DestObject(UploadMetadata(g, tar.value, tarSize), Tar(tar.value), tarSize));
    var verified := destination.Head(key);
    if verified.None? {
      return Failed("destination missing");
    }
    if verified.value.size != tarSize {
      return Failed("archive size mismatch");
    }
    if MetadataMatches(verified.value.metadata, UploadMetadata(g, tar.value, tarSize)) {
      return Done;
    }
    return Failed("archive verification failed");
  }

  // ----- Agreement with the atomic steps -----

  lemma OneStep(source: SourceStore, dest: DestStore, g: Group, tarSize: nat, sidecarSize: nat, phase: Phase)
    ensures var task := Task(Archive(g, tarSize, sidecarSize), phase);
            if Rank(task) == 0 then Complete(source, dest, task) == (dest, task)
            else
              var (after, next) := ArchiveStep(source, dest, g, tarSize, sidecarSize, phase);
              Complete(source, dest, task) == Complete(source, after, Task(task.work, next))
  {
    var task := Task(Archive(g, tarSize, sidecarSize), phase);
    if Rank(task) > 0 {
      StepDescends(source, dest, task);
    }
  }

  /** The writes: sidecar first, then the archive. */
  lemma PublishingCompletes(source: SourceStore, dest: DestStore, g: Group, tarSize: nat, sidecarSize: nat,
                            members: seq<Member>)
    ensures var task := Task(Archive(g, tarSize, sidecarSize), PublishingSidecar(members));
            Complete(source, dest, task)
                == (WithArchive(WithSidecar(dest, g, sidecarSize), g, members, tarSize), task.(phase := Done))
  {
    var published := WithSidecar(dest, g, sidecarSize);
    var replaced := WithArchive(published, g, members, tarSize);
    OneStep(source, dest, g, tarSize, sidecarSize, PublishingSidecar(members));
    OneStep(source, published, g, tarSize, sidecarSize, CheckingSidecar(members));
    OneStep(source, published, g, tarSize, sidecarSize, ReplacingArchive(members));
    OneStep(source, replaced, g, tarSize, sidecarSize, ConfirmingArchive(members));
    OneStep(source, replaced, g, tarSize, sidecarSize, Done);
  }

  lemma {:induction false} StagingCompletes(source: SourceStore, dest: DestStore, g: Group, tarSize: nat,
                                            sidecarSize: nat, members: seq<Member>)
    requires |members| <= |g.entries|
    ensures var (after, end) := Complete(source, dest, Task(Archive(g, tarSize, sidecarSize), Staging(members)));
            match StageFrom(source, g.entries, members)
            case Err(reason) => after == dest && end.phase == Failed(reason)
            case Ok(all) =>
              after == WithArchive(WithSidecar(dest, g, sidecarSize), g, all, tarSize)
              && end.phase == Done
    decreases |g.entries| - |members|
  {
    OneStep(source, dest, g, tarSize, sidecarSize, Staging(members));
    if |members| >= |g.entries| {
      PublishingCompletes(source, dest, g, tarSize, sidecarSize, members);
    } else {
      match StageEntry(source, g.entries[|members|])
      case Ok(member) => StagingCompletes(source, dest, g, tarSize, sidecarSize, members + [member]);
      case Err(reason) => OneStep(source, dest, g, tarSize, sidecarSize, Failed(reason));
    }
  }

  /** Undisturbed, the atomic steps of a group copy add up to the outcome of the method. */
  lemma StepsGiveOutcome(source: SourceStore, dest: DestStore, g: Group, tarSize: nat, sidecarSize: nat)
    ensures var (after, end) := Complete(source, dest, Task(Archive(g, tarSize, sidecarSize), Starting));
            (after, end.phase) == Outcome(source, dest, g, tarSize, sidecarSize)
  {
    var key := At(g.address);
    StagingCompletes(source, dest, g, tarSize, sidecarSize, []);
    OneStep(source, dest, g, tarSize, sidecarSize, Starting);
    if key in dest && Reusable(dest[key], g) {
      OneStep(source, dest, g, tarSize, sidecarSize, Done);
    } else if key in dest {
      OneStep(source, dest, g, tarSize, sidecarSize, Comparing(dest[key].metadata));
      match Refreshable(dest, dest[key].metadata, g)
      case Err(reason) => OneStep(source, dest, g, tarSize, sidecarSize, Failed(reason));
      case Ok(allowed) => OneStep(source, dest, g, tarSize, sidecarSize, Failed("archive verification failed"));
    }
  }

  // ----- Reruns -----

  /** The groups of a run, copied one after the other. */
  function CopyAll(source: SourceStore, dest: DestStore, works: seq<Work>): (DestStore, seq<Phase>)
    requires forall work :: work in works ==> work.Archive?
    decreases |works|
  {
    if works == [] then (dest, [])
    else
      var (dest', end) := Outcome(source, dest, works[0].group, works[0].tarSize, works[0].sidecarSize);
      var (dest'', ends) := CopyAll(source, dest', works[1..]);
      (dest'', [end] + ends)
  }

  /** What the verify phase demands of a group. */
  predicate Verifies(dest: DestStore, g: Group) {
    At(g.address) in dest && Reusable(dest[At(g.address)], g)
  }

  predicate DistinctAddresses(works: seq<Work>) {
    forall i, j :: 0 <= i < j < |works| ==> AddressOf(works[i]) != AddressOf(works[j])
  }

  lemma OutcomeStaysAtAddress(source: SourceStore, dest: DestStore, g: Group, tarSize: nat, sidecarSize: nat)
    ensures SameElsewhere(dest, Outcome(source, dest, g, tarSize, sidecarSize).0, g.address)
  {
  }

  lemma {:induction false} CopyAllStaysAtAddresses(source: SourceStore, dest: DestStore, works: seq<Work>,
                                                   address: Address)
    requires forall work :: work in works ==> work.Archive? && AddressOf(work) != address
    ensures SameAt(dest, CopyAll(source, dest, works).0, address)
    decreases |works|
  {
    if works != [] {
      var work := works[0];
      OutcomeStaysAtAddress(source, dest, work.group, work.tarSize, work.sidecarSize);
      CopyAllStaysAtAddresses(source, Outcome(source, dest, work.group, work.tarSize, work.sidecarSize).0, works[1..],
          address);
    }
  }

  lemma DoneVerifies(source: SourceStore, dest: DestStore, g: Group, tarSize: nat, sidecarSize: nat)
    ensures var (after, end) := Outcome(source, dest, g, tarSize, sidecarSize); end == Done ==> Verifies(after, g)
  {
  }

  lemma VerifiesAtAddress(left: DestStore, right: DestStore, g: Group)
    requires SameAt(left, right, g.address) && Verifies(left, g)
    ensures Verifies(right, g)
  {
    assert At(g.address).address == g.address;
  }

  /** A group that ended well verifies afterwards, whatever groups are copied after it. */
  lemma {:induction false} CopiedGroupsVerify(source: SourceStore, dest: DestStore, works: seq<Work>, i: nat)
    requires forall work :: work in works ==> work.Archive?
    requires DistinctAddresses(works) && i < |works|
    ensures var (after, ends) := CopyAll(source, dest, works);
            |ends| == |works| && (ends[i] == Done ==> Verifies(after, works[i].group))
    decreases |works|
  {
    var work := works[0];
    var (dest', end) := Outcome(source, dest, work.group, work.tarSize, work.sidecarSize);
    if i == 0 {
      CopyAllLength(source, dest', works[1..]);
      CopyAllStaysAtAddresses(source, dest', works[1..], work.group.address);
      if end == Done {
        DoneVerifies(source, dest, work.group, work.tarSize, work.sidecarSize);
        VerifiesAtAddress(dest', CopyAll(source, dest', works[1..]).0, work.group);
      }
    } else {
      assert works[1..][i - 1] == works[i];
      CopiedGroupsVerify(source, dest', works[1..], i - 1);
    }
  }

  lemma {:induction false} CopyAllLength(source: SourceStore, dest: DestStore, works: seq<Work>)
    requires forall work :: work in works ==> work.Archive?
    ensures |CopyAll(source, dest, works).1| == |works|
    decreases |works|
  {
    if works != [] {
      var work := works[0];
      CopyAllLength(source, Outcome(source, dest, work.group, work.tarSize, work.sidecarSize).0, works[1..]);
    }
  }

  /** Groups that verify are reused: nothing is written, whatever the source holds by then. */
  lemma {:induction false} VerifiedGroupsAreReused(source: SourceStore, dest: DestStore, works: seq<Work>)
    requires forall work :: work in works ==> work.Archive? && Verifies(dest, work.group)
    ensures var (after, ends) := CopyAll(source, dest, works);
            after == dest && |ends| == |works| && forall k :: 0 <= k < |ends| ==> ends[k] == Done
    decreases |works|
  {
    if works != [] {
      VerifiedGroupsAreReused(source, dest, works[1..]);
    }
  }

  /**
   Running the same manifest again after every group was copied performs no destination
   write and ends every group well again, even from a source that has changed meanwhile.
   */
  lemma RerunWritesNothing(source: SourceStore, dest: DestStore, works: seq<Work>, later: SourceStore)
    requires forall work :: work in works ==> work.Archive?
    requires DistinctAddresses(works)
    requires forall end :: end in CopyAll(source, dest, works).1 ==> end == Done
    ensures var (after, ends) := CopyAll(source, dest, works);
            CopyAll(later, after, works) == (after, ends)
  {
    var (after, ends) := CopyAll(source, dest, works);
    CopyAllLength(source, dest, works);
    forall work | work in works ensures Verifies(after, work.group) {
      var i :| 0 <= i < |works| && works[i] == work;
      CopiedGroupsVerify(source, dest, works, i);
      assert ends[i] in ends;
    }
    VerifiedGroupsAreReused(later, after, works);
    assert forall i :: 0 <= i < |ends| ==> ends[i] in ends;
    assert CopyAll(later, after, works).1 == ends;
  }
}
