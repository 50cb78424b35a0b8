/**
 Which route a listed key belongs to. Routes over one storage may be nested; a route leaves
 out the keys under the prefixes of the routes nested in it. Paths are text.
 */
module RoutePartition {
  import opened Wrappers

  // ----- Prefixes -----

  function StripLeft(s: string): string {
    if s != "" && s[0] == '/' then StripLeft(s[1..]) else s
  }

  function StripRight(s: string): string {
    if s != "" && s[|s| - 1] == '/' then StripRight(s[..|s| - 1]) else s
  }

  function NormalizePrefix(path: string): string {
    var stripped := StripRight(StripLeft(path));
    if stripped == "" then "" else stripped + "/"
  }

  function RoutePathPrefix(path: string): string {
    var normalized := StripRight(NormalizePrefix(path));
    if normalized == "" then "" else normalized + "/"
  }

  predicate StrictlyNested(child: string, parent: string) {
    |RoutePathPrefix(child)| > |RoutePathPrefix(parent)| && RoutePathPrefix(parent) <= RoutePathPrefix(child)
  }

  lemma {:induction false} RightEnd(s: string)
    ensures var t := StripRight(s); t <= s && (t != "" ==> t[|t| - 1] != '/')
    decreases |s|
  {
    if s != "" && s[|s| - 1] == '/' {
      RightEnd(s[..|s| - 1]);
    }
  }

  lemma {:induction false} LeftEnd(s: string)
    ensures var t := StripLeft(s); t != "" ==> t[0] != '/'
    decreases |s|
  {
    if s != "" && s[0] == '/' {
      LeftEnd(s[1..]);
    }
  }

  lemma StripAdded(t: string)
    requires t != "" && t[0] != '/' && t[|t| - 1] != '/'
    ensures StripRight(t + "/") == t && StripLeft(t + "/") == t + "/"
    ensures NormalizePrefix(t + "/") == t + "/"
  {
    assert (t + "/")[..|t|] == t;
    assert (t + "/")[0] == t[0];
  }

  /** Both ways to a prefix agree, a prefix is its own prefix, and it is empty or ends in a slash. */
  lemma PrefixesAreNormal(path: string)
    ensures RoutePathPrefix(path) == NormalizePrefix(path) == NormalizePrefix(NormalizePrefix(path))
    ensures RoutePathPrefix(path) != "" ==> RoutePathPrefix(path)[|RoutePathPrefix(path)| - 1] == '/'
    ensures RoutePathPrefix(RoutePathPrefix(path)) == RoutePathPrefix(path)
  {
    var left := StripLeft(path);
    LeftEnd(path);
    RightEnd(left);
    var stripped := StripRight(left);
    if stripped != "" {
      assert stripped[0] == left[0];
      StripAdded(stripped);
    }
  }

  // ----- Validation -----

  datatype Location = Location(storage: string, path: string)

  datatype Route = Route(name: string, source: Location, destination: Location)

  datatype Issue = SameStorage(route: nat) | SameSource(left: nat, right: nat) | SameDestination(left: nat, right: nat)

  predicate Clash(a: Location, b: Location) {
    a.storage == b.storage && RoutePathPrefix(a.path) == RoutePathPrefix(b.path)
  }

  /** Both sides of two routes are apart. */
  predicate Apart(a: Route, b: Route) {
    !Clash(a.source, b.source) && !Clash(a.destination, b.destination)
  }

  predicate ValidRoutes(routes: seq<Route>) {
    && OwnStorages(routes)
    && (forall i, j :: 0 <= i < j < |routes| ==> Apart(routes[i], routes[j]))
  }

  predicate OwnStorages(routes: seq<Route>) {
    forall r :: r in routes ==> r.source.storage != r.destination.storage
  }

  /** A route clashes with one after it; all in between are apart from it. */
  predicate FirstClash(routes: seq<Route>, issue: Issue) {
    && !issue.SameStorage?
    && issue.left < issue.right < |routes|
    && (if issue.SameSource?
        then Clash(routes[issue.left].source, routes[issue.right].source)
        else
          && !Clash(routes[issue.left].source, routes[issue.right].source)
          && Clash(routes[issue.left].destination, routes[issue.right].destination))
    && (forall b :: issue.left < b < issue.right ==> Apart(routes[issue.left], routes[b]))
  }

  method CheckAgainstLater(routes: seq<Route>, i: nat) returns (issue: Option<Issue>)
    requires i < |routes|
    ensures issue.None? ==> forall b :: i < b < |routes| ==> Apart(routes[i], routes[b])
    ensures issue.Some? ==> FirstClash(routes, issue.value) && issue.value.left == i
  {
    for j := i + 1 to |routes|
      invariant forall b :: i < b < j ==> Apart(routes[i], routes[b])
    {
      if Clash(routes[i].source, routes[j].source) {
        return Some(SameSource(i, j));
      }
      if Clash(routes[i].destination, routes[j].destination) {
        return Some(SameDestination(i, j));
      }
    }
    issue := None;
  }

  /** Rejects exactly the invalid configurations, with the first issue in reading order. */
  method ValidateRouteStorage(routes: seq<Route>) returns (issue: Option<Issue>)
    ensures issue.None? <==> ValidRoutes(routes)
    ensures issue.Some? && issue.value.SameStorage? ==>
              && issue.value.route < |routes|
              && routes[issue.value.route].source.storage == routes[issue.value.route].destination.storage
              && OwnStorages(routes[..issue.value.route])
    ensures issue.Some? && !issue.value.SameStorage? ==>
              && OwnStorages(routes)
              && FirstClash(routes, issue.value)
              && (forall a, b :: 0 <= a < issue.value.left && a < b < |routes| ==> Apart(routes[a], routes[b]))
  {
    for i := 0 to |routes|
      invariant OwnStorages(routes[..i])
    {
      if routes[i].source.storage == routes[i].destination.storage {
        assert routes[i] in routes;
        return Some(SameStorage(i));
      }
    }
    assert routes[..|routes|] == routes;
    for i := 0 to |routes|
      invariant forall a, b :: 0 <= a < i && a < b < |routes| ==> Apart(routes[a], routes[b])
    {
      var found := CheckAgainstLater(routes, i);
      if found.Some? {
        assert !Apart(routes[i], routes[found.value.right]);
        return found;
      }
    }
    issue := None;
  }

  // ----- Exclusions -----

  /** Prefixes of the members nested in a path, in order. */
  function NestedIn(members: seq<(nat, string)>, index: nat, path: string): seq<string> {
    if members == [] then []
    else
      NestedIn(members[..|members| - 1], index, path)
      + var other := members[|members| - 1];
        if other.0 != index && StrictlyNested(other.1, path) then [RoutePathPrefix(other.1)] else []
  }

  /** The routes of one storage with their places, in order. */
  function Members(sources: seq<Location>, storage: string): seq<(nat, string)> {
    if sources == [] then []
    else
      var last := |sources| - 1;
      Members(sources[..last], storage) + if sources[last].storage == storage then [(last, sources[last].path)] else []
  }

  function Exclusions(sources: seq<Location>, index: nat): seq<string>
    requires index < |sources|
  {
    NestedIn(Members(sources, sources[index].storage), index, sources[index].path)
  }

  lemma {:induction false} MembersAreRoutes(sources: seq<Location>, storage: string, member: (nat, string))
    ensures member in Members(sources, storage) <==>
              member.0 < |sources| && sources[member.0].storage == storage && sources[member.0].path == member.1
    decreases |sources|
  {
    if sources != [] {
      MembersAreRoutes(sources[..|sources| - 1], storage, member);
    }
  }

  /** Every entry of the table is the right one; every route of the given storages has one. */
  ghost predicate Correct(exclusions: map<nat, seq<string>>, sources: seq<Location>, storages: seq<string>) {
    && (forall i :: i in exclusions ==> i < |sources| && exclusions[i] == Exclusions(sources, i))
    && (forall i: nat :: i < |sources| && sources[i].storage in storages ==> i in exclusions)
  }

  lemma EntryIsRight(exclusions: map<nat, seq<string>>, sources: seq<Location>, storages: seq<string>, storage: string,
                     member: (nat, string))
    requires Correct(exclusions, sources, storages) && member in Members(sources, storage)
    ensures Correct(exclusions[member.0 := NestedIn(Members(sources, storage), member.0, member.1)], sources, storages)
  {
    hide NestedIn, Members;
    MembersAreRoutes(sources, storage, member);
    assert NestedIn(Members(sources, storage), member.0, member.1) == Exclusions(sources, member.0);
  }

  lemma GroupIsDone(exclusions: map<nat, seq<string>>, sources: seq<Location>, storages: seq<string>, storage: string)
    requires Correct(exclusions, sources, storages)
    requires forall k :: 0 <= k < |Members(sources, storage)| ==> Members(sources, storage)[k].0 in exclusions
    ensures Correct(exclusions, sources, storages + [storage])
  {
    forall i: nat | i < |sources| && sources[i].storage == storage ensures i in exclusions {
      MembersAreRoutes(sources, storage, (i, sources[i].path));
    }
  }

  method AddGroup(exclusions: map<nat, seq<string>>, ghost sources: seq<Location>, ghost storages: seq<string>,
                  members: seq<(nat, string)>, ghost storage: string)
    returns (more: map<nat, seq<string>>)
    requires Correct(exclusions, sources, storages) && members == Members(sources, storage)
    ensures Correct(more, sources, storages + [storage])
  {
    hide Members, NestedIn, Correct;
    more := exclusions;
    for m := 0 to |members|
      invariant Correct(more, sources, storages)
      invariant forall k :: 0 <= k < m ==> members[k].0 in more
    {
      EntryIsRight(more, sources, storages, storage, members[m]);
      more := more[members[m].0 := NestedIn(members, members[m].0, members[m].1)];
    }
    GroupIsDone(more, sources, storages, storage);
  }

  function GroupOf(groups: map<string, seq<(nat, string)>>, storage: string): seq<(nat, string)> {
    if storage in groups then groups[storage] else []
  }

  lemma MembersStep(sources: seq<Location>, i: nat, storage: string)
    requires i < |sources|
    ensures Members(sources[..i + 1], storage)
         == Members(sources[..i], storage) + if sources[i].storage == storage then [(i, sources[i].path)] else []
  {
    assert sources[..i + 1][..i] == sources[..i];
  }

  ghost predicate Grouped(groups: map<string, seq<(nat, string)>>, sources: seq<Location>) {
    forall s :: GroupOf(groups, s) == Members(sources, s)
  }

  ghost predicate Named(groups: map<string, seq<(nat, string)>>, identities: seq<string>, sources: seq<Location>) {
    && (forall s :: s in groups <==> s in identities)
    && (forall source :: source in sources ==> source.storage in identities)
  }

  lemma GroupStep(groups: map<string, seq<(nat, string)>>, sources: seq<Location>, i: nat)
    requires i < |sources| && Grouped(groups, sources[..i])
    ensures var storage := sources[i].storage;
            Grouped(groups[storage := GroupOf(groups, storage) + [(i, sources[i].path)]], sources[..i + 1])
  {
    var storage := sources[i].storage;
    var more := groups[storage := GroupOf(groups, storage) + [(i, sources[i].path)]];
    forall s ensures GroupOf(more, s) == Members(sources[..i + 1], s) {
      MembersStep(sources, i, s);
      assert GroupOf(groups, s) == Members(sources[..i], s);
    }
  }

  method GroupByStorage(sources: seq<Location>)
    returns (groups: map<string, seq<(nat, string)>>, identities: seq<string>)
    ensures Named(groups, identities, sources)
    ensures Grouped(groups, sources)
  {
    groups, identities := map[], [];
    for i := 0 to |sources|
      invariant Named(groups, identities, sources[..i])
      invariant Grouped(groups, sources[..i])
    {
      var storage := sources[i].storage;
      if storage !in groups {
        identities := identities + [storage];
      }
      GroupStep(groups, sources, i);
      groups := groups[storage := GroupOf(groups, storage) + [(i, sources[i].path)]];
    }
    assert sources[..|sources|] == sources;
  }

  ghost predicate Complete(exclusions: map<nat, seq<string>>, sources: seq<Location>) {
    && (forall i: nat :: i in exclusions <==> i < |sources|)
    && (forall i: nat :: i < |sources| ==> exclusions[i] == Exclusions(sources, i))
  }

  lemma CorrectIsComplete(exclusions: map<nat, seq<string>>, sources: seq<Location>, storages: seq<string>)
    requires Correct(exclusions, sources, storages)
    requires forall source :: source in sources ==> source.storage in storages
    ensures Complete(exclusions, sources)
  {
    forall i: nat | i < |sources| ensures i in exclusions {
      assert sources[i] in sources;
    }
  }

  /** Groups the routes by storage, then looks for nested paths within each group. */
  method RouteExclusionPrefixes(sources: seq<Location>) returns (exclusions: map<nat, seq<string>>)
    ensures Complete(exclusions, sources)
  {
    var groups, identities := GroupByStorage(sources);
    exclusions := map[];
    for g := 0 to |identities|
      invariant Correct(exclusions, sources, identities[..g])
    {
      assert identities[..g] + [identities[g]] == identities[..g + 1];
      exclusions := AddGroup(exclusions, sources, identities[..g], GroupOf(groups, identities[g]), identities[g]);
    }
    assert identities[..|identities|] == identities;
    CorrectIsComplete(exclusions, sources, identities);
  }

  // ----- Filtering a listing -----

  /** The two filters a listed key goes through on a route. */
  predicate Passes(sources: seq<Location>, i: nat, key: string)
    requires i < |sources|
  {
    && NormalizePrefix(sources[i].path) <= key
    && !(exists e :: e in Exclusions(sources, i) && RoutePathPrefix(e) <= key)
  }

  /** A key selected on a route. */
  datatype Found = Found(storage: string, key: string, route: nat)

  function Filtered(sources: seq<Location>, i: nat, keys: seq<string>): seq<Found>
    requires i < |sources|
  {
    if keys == [] then []
    else
      var last := |keys| - 1;
      Filtered(sources, i, keys[..last])
      + if Passes(sources, i, keys[last]) then [Found(sources[i].storage, keys[last], i)] else []
  }

  /** What all routes select, route by route. */
  function Streamed(lists: seq<seq<Found>>): seq<Found> {
    if lists == [] then [] else Streamed(lists[..|lists| - 1]) + lists[|lists| - 1]
  }

  function Parsed(found: seq<Found>, skips: Found -> bool, skipped: bool): seq<Found> {
    if found == [] then []
    else
      var last := |found| - 1;
      Parsed(found[..last], skips, skipped) + if skips(found[last]) == skipped then [found[last]] else []
  }

  lemma ParsedStep(found: seq<Found>, next: Found, skips: Found -> bool, skipped: bool)
    ensures Parsed(found + [next], skips, skipped)
         == Parsed(found, skips, skipped) + if skips(next) == skipped then [next] else []
  {
    assert (found + [next])[..|found|] == found;
  }

  method AnyPrefix(prefixes: seq<string>, key: string) returns (any: bool)
    ensures any <==> exists e :: e in prefixes && RoutePathPrefix(e) <= key
  {
    for k := 0 to |prefixes|
      invariant forall e :: e in prefixes[..k] ==> !(RoutePathPrefix(e) <= key)
    {
      if RoutePathPrefix(prefixes[k]) <= key {
        assert prefixes[k] in prefixes;
        return true;
      }
    }
    assert prefixes[..|prefixes|] == prefixes;
    any := false;
  }

  method ListRoute(sources: seq<Location>, i: nat, keys: seq<string>, exclusions: seq<string>)
    returns (found: seq<Found>)
    requires i < |sources| && exclusions == Exclusions(sources, i)
    ensures found == Filtered(sources, i, keys)
  {
    found := [];
    for k := 0 to |keys|
      invariant found == Filtered(sources, i, keys[..k])
    {
      assert keys[..k + 1][..k] == keys[..k];
      if !(NormalizePrefix(sources[i].path) <= keys[k]) {
        continue;
      }
      var excluded := AnyPrefix(exclusions, keys[k]);
      if excluded {
        continue;
      }
      found := found + [Found(sources[i].storage, keys[k], i)];
    }
    assert keys[..|keys|] == keys;
  }

  /** The lists of the first routes; each route has its own listing. */
  ghost predicate SelectedSoFar(sources: seq<Location>, listings: seq<seq<string>>, lists: seq<seq<Found>>) {
    && |lists| <= |listings| == |sources|
    && (forall i :: 0 <= i < |lists| ==> lists[i] == Filtered(sources, i, listings[i]))
  }

  ghost predicate Selected(sources: seq<Location>, listings: seq<seq<string>>, lists: seq<seq<Found>>) {
    SelectedSoFar(sources, listings, lists) && |lists| == |sources|
  }

  lemma SelectedNext(sources: seq<Location>, listings: seq<seq<string>>, lists: seq<seq<Found>>, found: seq<Found>)
    requires SelectedSoFar(sources, listings, lists) && |lists| < |sources|
    requires found == Filtered(sources, |lists|, listings[|lists|])
    ensures SelectedSoFar(sources, listings, lists + [found])
  {
    var more := lists + [found];
    forall i | 0 <= i < |more| ensures more[i] == Filtered(sources, i, listings[i]) {
      assert i < |lists| ==> more[i] == lists[i];
    }
  }

  method ListRoutes(sources: seq<Location>, listings: seq<seq<string>>) returns (lists: seq<seq<Found>>)
    requires |listings| == |sources|
    ensures Selected(sources, listings, lists)
  {
    var exclusions := RouteExclusionPrefixes(sources);
    lists := [];
    for i := 0 to |sources|
      invariant |lists| == i && SelectedSoFar(sources, listings, lists)
    {
      assert i in exclusions && exclusions[i] == Exclusions(sources, i);
      var found := ListRoute(sources, i, listings[i], exclusions[i]);
      SelectedNext(sources, listings, lists, found);
      lists := lists + [found];
    }
  }

  const INSERT_BATCH := 1000

  /** The two tables being filled in batches, with what waits in the buffers. */
  class Streamer {
    var entries: seq<Found>
    var skipped: seq<Found>
    var entryBuffer: seq<Found>
    var skippedBuffer: seq<Found>

    constructor ()
      ensures entries == skipped == entryBuffer == skippedBuffer == []
    {
      entries, skipped, entryBuffer, skippedBuffer := [], [], [], [];
    }

    method Add(found: Found, skip: bool)
      requires |entryBuffer| < INSERT_BATCH && |skippedBuffer| < INSERT_BATCH
      modifies this
      ensures |entryBuffer| < INSERT_BATCH && |skippedBuffer| < INSERT_BATCH
      ensures entries + entryBuffer == old(entries + entryBuffer) + (if skip then [] else [found])
      ensures skipped + skippedBuffer == old(skipped + skippedBuffer) + (if skip then [found] else [])
    {
      if skip {
        skippedBuffer := skippedBuffer + [found];
        if |skippedBuffer| >= INSERT_BATCH {
          skipped, skippedBuffer := skipped + skippedBuffer, [];
        }
      } else {
        entryBuffer := entryBuffer + [found];
        if |entryBuffer| >= INSERT_BATCH {
          entries, entryBuffer := entries + entryBuffer, [];
        }
      }
    }

    method AddAll(found: seq<Found>, skips: Found -> bool, ghost done: seq<Found>)
      requires |entryBuffer| < INSERT_BATCH && |skippedBuffer| < INSERT_BATCH
      requires entries + entryBuffer == Parsed(done, skips, false)
                 && skipped + skippedBuffer == Parsed(done, skips, true)
      modifies this
      ensures |entryBuffer| < INSERT_BATCH && |skippedBuffer| < INSERT_BATCH
      ensures entries + entryBuffer == Parsed(done + found, skips, false)
      ensures skipped + skippedBuffer == Parsed(done + found, skips, true)
    {
      assert done + found[..0] == done;
      for k := 0 to |found|
        invariant |entryBuffer| < INSERT_BATCH && |skippedBuffer| < INSERT_BATCH
        invariant entries + entryBuffer == Parsed(done + found[..k], skips, false)
        invariant skipped + skippedBuffer == Parsed(done + found[..k], skips, true)
      {
        assert done + found[..k + 1] == (done + found[..k]) + [found[k]];
        ParsedStep(done + found[..k], found[k], skips, false);
        ParsedStep(done + found[..k], found[k], skips, true);
        Add(found[k], skips(found[k]));
      }
      assert found[..|found|] == found;
    }

    /** Streams every list; no key is lost between the batches. */
    method StreamRoutes(lists: seq<seq<Found>>, skips: Found -> bool)
      requires entries == skipped == entryBuffer == skippedBuffer == []
      modifies this
      ensures entries == Parsed(Streamed(lists), skips, false)
      ensures skipped == Parsed(Streamed(lists), skips, true)
    {
      for i := 0 to |lists|
        invariant |entryBuffer| < INSERT_BATCH && |skippedBuffer| < INSERT_BATCH
        invariant entries + entryBuffer == Parsed(Streamed(lists[..i]), skips, false)
        invariant skipped + skippedBuffer == Parsed(Streamed(lists[..i]), skips, true)
      {
        assert lists[..i + 1][..i] == lists[..i];
        AddAll(lists[i], skips, Streamed(lists[..i]));
      }
      assert lists[..|lists|] == lists;
      Flush();
    }

    method Flush()
      modifies this
      ensures entries == old(entries + entryBuffer) && entryBuffer == []
      ensures skipped == old(skipped + skippedBuffer) && skippedBuffer == []
    {
      if entryBuffer != [] {
        entries, entryBuffer := entries + entryBuffer, [];
      }
      if skippedBuffer != [] {
        skipped, skippedBuffer := skipped + skippedBuffer, [];
      }
    }
  }

  // ----- One route per key -----

  /** The route covers the key, by its prefix alone. */
  predicate Covers(source: Location, key: string) {
    RoutePathPrefix(source.path) <= key
  }

  /** No route over the same storage covers the key with a longer prefix. */
  ghost predicate Closest(sources: seq<Location>, i: nat, key: string)
    requires i < |sources|
  {
    && Covers(sources[i], key)
    && (forall j :: 0 <= j < |sources| && sources[j].storage == sources[i].storage && Covers(sources[j], key)
                    ==> |RoutePathPrefix(sources[j].path)| <= |RoutePathPrefix(sources[i].path)|)
  }

  lemma {:induction false} NestedInHas(members: seq<(nat, string)>, index: nat, path: string, k: nat)
    requires k < |members| && members[k].0 != index && StrictlyNested(members[k].1, path)
    ensures RoutePathPrefix(members[k].1) in NestedIn(members, index, path)
    decreases |members|
  {
    if k < |members| - 1 {
      NestedInHas(members[..|members| - 1], index, path, k);
    }
  }

  lemma {:induction false} NestedInAre(members: seq<(nat, string)>, index: nat, path: string, e: string)
    returns (k: nat)
    requires e in NestedIn(members, index, path)
    ensures k < |members| && members[k].0 != index && StrictlyNested(members[k].1, path)
              && e == RoutePathPrefix(members[k].1)
    decreases |members|
  {
    var last := |members| - 1;
    if e in NestedIn(members[..last], index, path) {
      k := NestedInAre(members[..last], index, path, e);
    } else {
      k := last;
    }
  }

  lemma ExclusionsHave(sources: seq<Location>, i: nat, j: nat)
    requires i < |sources| && j < |sources| && i != j && sources[i].storage == sources[j].storage
    requires StrictlyNested(sources[j].path, sources[i].path)
    ensures RoutePathPrefix(sources[j].path) in Exclusions(sources, i)
  {
    var members := Members(sources, sources[i].storage);
    MembersAreRoutes(sources, sources[i].storage, (j, sources[j].path));
    var k :| 0 <= k < |members| && members[k] == (j, sources[j].path);
    NestedInHas(members, i, sources[i].path, k);
  }

  lemma ExclusionsAreRoutes(sources: seq<Location>, i: nat, e: string) returns (j: nat)
    requires i < |sources| && e in Exclusions(sources, i)
    ensures j < |sources| && sources[j].storage == sources[i].storage
    ensures StrictlyNested(sources[j].path, sources[i].path) && e == RoutePathPrefix(sources[j].path)
  {
    var members := Members(sources, sources[i].storage);
    var k := NestedInAre(members, i, sources[i].path, e);
    MembersAreRoutes(sources, sources[i].storage, members[k]);
    j := members[k].0;
  }

  /** A key passes the filters of exactly the routes that cover it with the longest prefix. */
  lemma PassesExactlyClosest(sources: seq<Location>, i: nat, key: string)
    requires i < |sources|
    ensures Passes(sources, i, key) <==> Closest(sources, i, key)
  {
    PrefixesAreNormal(sources[i].path);
    if Passes(sources, i, key) {
      forall j | 0 <= j < |sources| && sources[j].storage == sources[i].storage && Covers(sources[j], key)
        ensures |RoutePathPrefix(sources[j].path)| <= |RoutePathPrefix(sources[i].path)|
      {
        if |RoutePathPrefix(sources[j].path)| > |RoutePathPrefix(sources[i].path)| {
          PrefixesAreNormal(sources[j].path);
          ExclusionsHave(sources, i, j);
          assert false;
        }
      }
    }
    if Closest(sources, i, key) {
      forall e | e in Exclusions(sources, i) ensures !(RoutePathPrefix(e) <= key) {
        var j := ExclusionsAreRoutes(sources, i, e);
        PrefixesAreNormal(sources[j].path);
        if RoutePathPrefix(e) <= key {
          assert Covers(sources[j], key);
        }
      }
    }
  }

  ghost predicate DistinctPaths(sources: seq<Location>) {
    forall i, j :: 0 <= i < j < |sources| ==> !Clash(sources[i], sources[j])
  }

  ghost predicate OneRoutePerKey(sources: seq<Location>) {
    forall i, j, key :: 0 <= i < j < |sources| && sources[i].storage == sources[j].storage ==>
      !(Passes(sources, i, key) && Passes(sources, j, key))
  }

  lemma PassingClash(sources: seq<Location>, i: nat, j: nat, key: string)
    requires i < |sources| && j < |sources| && sources[i].storage == sources[j].storage
    requires Passes(sources, i, key) && Passes(sources, j, key)
    ensures Clash(sources[i], sources[j])
  {
    PassesExactlyClosest(sources, i, key);
    PassesExactlyClosest(sources, j, key);
    var p, q := RoutePathPrefix(sources[i].path), RoutePathPrefix(sources[j].path);
    assert p == key[..|p|] && q == key[..|q|];
  }

  /** A key right under a shared prefix is not under any longer one. */
  lemma ClashingRoutesShare(sources: seq<Location>, i: nat, j: nat)
    requires i < |sources| && j < |sources| && Clash(sources[i], sources[j])
    ensures var key := RoutePathPrefix(sources[i].path) + "x"; Passes(sources, i, key) && Passes(sources, j, key)
  {
    var p := RoutePathPrefix(sources[i].path);
    var key := p + "x";
    forall k | 0 <= k < |sources| && Covers(sources[k], key) ensures |RoutePathPrefix(sources[k].path)| <= |p| {
      PrefixesAreNormal(sources[k].path);
    }
    PassesExactlyClosest(sources, i, key);
    PassesExactlyClosest(sources, j, key);
  }

  /** No key ever passes on two routes of one storage exactly when their paths are distinct, as validation demands. */
  lemma OneRoutePerKeyExactly(sources: seq<Location>)
    ensures OneRoutePerKey(sources) <==> DistinctPaths(sources)
  {
    hide Passes;
    forall i, j, key | 0 <= i < j < |sources| && sources[i].storage == sources[j].storage
                       && Passes(sources, i, key) && Passes(sources, j, key)
      ensures Clash(sources[i], sources[j])
    {
      PassingClash(sources, i, j, key);
    }
    forall i, j | 0 <= i < j < |sources| && Clash(sources[i], sources[j]) ensures !OneRoutePerKey(sources) {
      ClashingRoutesShare(sources, i, j);
    }
  }

  /** Among the first routes, one that covers the key is closest to it. */
  lemma {:induction false} SomeIsClosest(sources: seq<Location>, i: nat, key: string) returns (best: nat)
    requires i < |sources| && Covers(sources[i], key)
    ensures best < |sources| && sources[best].storage == sources[i].storage && Closest(sources, best, key)
    decreases |key| - |RoutePathPrefix(sources[i].path)|
  {
    if Closest(sources, i, key) {
      best := i;
    } else {
      var j :| 0 <= j < |sources| && sources[j].storage == sources[i].storage && Covers(sources[j], key)
               && |RoutePathPrefix(sources[j].path)| > |RoutePathPrefix(sources[i].path)|;
      best := SomeIsClosest(sources, j, key);
    }
  }

  // ----- The whole stream -----

  /** Each route's listing has the stored keys under its prefix, once each, and perhaps others. */
  ghost predicate Lists(sources: seq<Location>, listings: seq<seq<string>>, stored: map<string, set<string>>) {
    && |listings| == |sources|
    && (forall i :: 0 <= i < |sources| ==> sources[i].storage in stored)
    && (forall i, a, b :: 0 <= i < |sources| && 0 <= a < b < |listings[i]| ==> listings[i][a] != listings[i][b])
    && (forall i, key :: 0 <= i < |sources| && Covers(sources[i], key) ==>
          (key in listings[i] <==> key in stored[sources[i].storage]))
  }

  lemma {:induction false} FilteredHas(sources: seq<Location>, i: nat, keys: seq<string>, f: Found)
    requires i < |sources|
    ensures f in Filtered(sources, i, keys) <==>
              f.storage == sources[i].storage && f.route == i && f.key in keys && Passes(sources, i, f.key)
    decreases |keys|
  {
    if keys != [] {
      FilteredHas(sources, i, keys[..|keys| - 1], f);
      assert keys == keys[..|keys| - 1] + [keys[|keys| - 1]];
    }
  }

  predicate Same(f: Found, g: Found) {
    f.storage == g.storage && f.key == g.key
  }

  ghost predicate EachOnce(found: seq<Found>) {
    forall a, b :: 0 <= a < b < |found| ==> !Same(found[a], found[b])
  }

  lemma {:induction false} FilteredOnce(sources: seq<Location>, i: nat, keys: seq<string>)
    requires i < |sources| && forall a, b :: 0 <= a < b < |keys| ==> keys[a] != keys[b]
    ensures EachOnce(Filtered(sources, i, keys))
    decreases |keys|
  {
    if keys != [] {
      var rest := keys[..|keys| - 1];
      FilteredOnce(sources, i, rest);
      forall f | f in Filtered(sources, i, rest) ensures f.key != keys[|keys| - 1] {
        FilteredHas(sources, i, rest, f);
      }
    }
  }

  lemma {:induction false} StreamedHas(lists: seq<seq<Found>>, f: Found)
    ensures f in Streamed(lists) <==> exists i :: 0 <= i < |lists| && f in lists[i]
    decreases |lists|
  {
    if lists != [] {
      StreamedHas(lists[..|lists| - 1], f);
    }
  }

  lemma {:induction false} StreamedOnce(lists: seq<seq<Found>>)
    requires forall i :: 0 <= i < |lists| ==> EachOnce(lists[i])
    requires forall i, j, f, g :: 0 <= i < j < |lists| && f in lists[i] && g in lists[j] ==> !Same(f, g)
    ensures EachOnce(Streamed(lists))
    decreases |lists|
  {
    if lists != [] {
      var rest, last := lists[..|lists| - 1], lists[|lists| - 1];
      StreamedOnce(rest);
      forall f, g | f in Streamed(rest) && g in last ensures !Same(f, g) {
        StreamedHas(rest, f);
      }
      EachOnceJoins(Streamed(rest), last);
    }
  }

  lemma EachOnceJoins(a: seq<Found>, b: seq<Found>)
    requires EachOnce(a) && EachOnce(b)
    requires forall f, g :: f in a && g in b ==> !Same(f, g)
    ensures EachOnce(a + b)
  {
    var all := a + b;
    forall i, j | 0 <= i < j < |all| ensures !Same(all[i], all[j]) {
      assert if i < |a| then all[i] in a else all[i] == b[i - |a|];
      assert if j < |a| then all[j] == a[j] else all[j] == b[j - |a|];
    }
  }

  lemma ListsOnce(sources: seq<Location>, listings: seq<seq<string>>, lists: seq<seq<Found>>,
                  stored: map<string, set<string>>)
    requires DistinctPaths(sources) && Lists(sources, listings, stored) && Selected(sources, listings, lists)
    ensures EachOnce(Streamed(lists))
  {
    forall i | 0 <= i < |lists| ensures EachOnce(lists[i]) {
      FilteredOnce(sources, i, listings[i]);
    }
    forall i, j, f, g | 0 <= i < j < |lists| && f in lists[i] && g in lists[j] ensures !Same(f, g) {
      FilteredHas(sources, i, listings[i], f);
      FilteredHas(sources, j, listings[j], g);
      if Same(f, g) {
        PassingClash(sources, i, j, f.key);
      }
    }
    StreamedOnce(lists);
  }

  ghost predicate Covered(sources: seq<Location>, storage: string, key: string) {
    exists i :: 0 <= i < |sources| && sources[i].storage == storage && Covers(sources[i], key)
  }

  lemma SelectedHas(sources: seq<Location>, listings: seq<seq<string>>, lists: seq<seq<Found>>, f: Found)
    requires Selected(sources, listings, lists)
    ensures f in Streamed(lists) <==>
              && f.route < |sources| && f.storage == sources[f.route].storage
              && f.key in listings[f.route] && Closest(sources, f.route, f.key)
  {
    StreamedHas(lists, f);
    forall i | 0 <= i < |lists|
      ensures f in lists[i] <==>
                && f.storage == sources[i].storage && f.route == i && f.key in listings[i]
                && Closest(sources, i, f.key)
    {
      FilteredHas(sources, i, listings[i], f);
      PassesExactlyClosest(sources, i, f.key);
    }
  }

  /** Nested routes neither repeat nor lose a key: each stored key covered is selected once, on the closest route. */
  lemma NestedRoutesPartition(sources: seq<Location>, listings: seq<seq<string>>, lists: seq<seq<Found>>,
                              stored: map<string, set<string>>, storage: string, key: string)
    requires DistinctPaths(sources) && Lists(sources, listings, stored) && Selected(sources, listings, lists)
    ensures EachOnce(Streamed(lists))
    ensures (exists f :: f in Streamed(lists) && f.storage == storage && f.key == key) <==>
              storage in stored && key in stored[storage] && Covered(sources, storage, key)
    ensures forall f :: f in Streamed(lists) ==>
              && f.route < |sources| && f.storage == sources[f.route].storage
              && Closest(sources, f.route, f.key)
  {
    ListsOnce(sources, listings, lists, stored);
    forall f | f in Streamed(lists)
      ensures f.route < |sources| && f.storage == sources[f.route].storage && Closest(sources, f.route, f.key)
      ensures f.storage in stored && f.key in stored[f.storage] && Covered(sources, f.storage, f.key)
    {
      SelectedHas(sources, listings, lists, f);
    }
    if storage in stored && key in stored[storage] && Covered(sources, storage, key) {
      var i :| 0 <= i < |sources| && sources[i].storage == storage && Covers(sources[i], key);
      var best := SomeIsClosest(sources, i, key);
      SelectedHas(sources, listings, lists, Found(storage, key, best));
    }
  }

  /** Routes that pass validation share no key. */
  lemma ValidRoutesShareNothing(routes: seq<Route>, sources: seq<Location>)
    requires ValidRoutes(routes) && |sources| == |routes|
    requires forall i :: 0 <= i < |routes| ==> sources[i] == routes[i].source
    ensures OneRoutePerKey(sources)
  {
    forall i, j | 0 <= i < j < |sources| ensures !Clash(sources[i], sources[j]) {
      assert Apart(routes[i], routes[j]);
    }
    OneRoutePerKeyExactly(sources);
  }
}
