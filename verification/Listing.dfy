/**
 Listing a source bucket page by page. The service decides how long each page is, and an
 unversioned bucket may change between pages.
 */
module Listing {
  import opened Wrappers
  import opened KeyOrder

  predicate Ascending(keys: seq<string>) {
    forall i, j :: 0 <= i < j < |keys| ==> Less(keys[i], keys[j])
  }

  // ----- Unversioned buckets -----

  predicate Wanted(key: string, prefix: string, after: Option<string>) {
    prefix <= key && (after.Some? ==> Less(after.value, key))
  }

  /** The keys of a bucket under the prefix and after the marker, in order. */
  function Matching(keys: seq<string>, prefix: string, after: Option<string>): seq<string> {
    if keys == [] then []
    else (if Wanted(keys[0], prefix, after) then [keys[0]] else []) + Matching(keys[1..], prefix, after)
  }

  datatype Page = Page(keys: seq<string>, truncated: bool)

  function Serve(keys: seq<string>, prefix: string, after: Option<string>, size: nat): Page {
    var all := Matching(keys, prefix, after);
    if size < |all| then Page(all[..size], true) else Page(all, false)
  }

  lemma {:induction false} MatchingHas(keys: seq<string>, prefix: string, after: Option<string>)
    ensures forall key :: key in Matching(keys, prefix, after) <==> key in keys && Wanted(key, prefix, after)
    ensures Ascending(keys) ==> Ascending(Matching(keys, prefix, after))
  {
    if keys != [] {
      MatchingHas(keys[1..], prefix, after);
      var rest := Matching(keys[1..], prefix, after);
      if Ascending(keys) {
        forall key | key in rest ensures Less(keys[0], key) {
          var k :| 0 <= k < |keys[1..]| && keys[1..][k] == key;
          assert keys[k + 1] == key;
        }
      }
    }
  }

  /** The bucket's keys at each request, all from a finite stock. */
  ghost predicate Bucket(snapshots: nat -> seq<string>, stock: set<string>) {
    forall r :: Ascending(snapshots(r)) && forall key :: key in snapshots(r) ==> key in stock
  }

  predicate BeforeOrAt(key: string, marker: string) {
    key == marker || Less(key, marker)
  }

  /** What is left of the stock after the marker. */
  function Left(stock: set<string>, after: Option<string>): set<string> {
    set key | key in stock && (after.Some? ==> Less(after.value, key))
  }

  lemma LeftShrinks(stock: set<string>, after: Option<string>, last: string)
    requires last in stock && (after.Some? ==> Less(after.value, last))
    ensures Left(stock, Some(last)) < Left(stock, after)
  {
    Irreflexive(last);
    assert last in Left(stock, after) && last !in Left(stock, Some(last));
    forall key | key in Left(stock, Some(last)) ensures key in Left(stock, after) {
      if after.Some? {
        Transitive(after.value, last, key);
      }
    }
  }

  /** A page holds every matching key up to its last one; the last page holds them all. */
  lemma PageIsComplete(keys: seq<string>, prefix: string, after: Option<string>, size: nat, key: string)
    requires Ascending(keys) && key in keys && Wanted(key, prefix, after)
    ensures var page := Serve(keys, prefix, after, size);
            (!page.truncated || (page.keys != [] && BeforeOrAt(key, page.keys[|page.keys| - 1]))) ==> key in page.keys
  {
    MatchingHas(keys, prefix, after);
    var all := Matching(keys, prefix, after);
    var page := Serve(keys, prefix, after, size);
    if page.truncated && page.keys != [] && BeforeOrAt(key, page.keys[|page.keys| - 1]) {
      var k :| 0 <= k < |all| && all[k] == key;
      if k >= size {
        assert Less(all[size - 1], all[k]);
        Asymmetric(all[size - 1], all[k]);
      }
    }
  }

  lemma PageIsWanted(keys: seq<string>, prefix: string, after: Option<string>, size: nat)
    requires Ascending(keys)
    ensures var page := Serve(keys, prefix, after, size).keys;
            Ascending(page) && forall key :: key in page ==> key in keys && Wanted(key, prefix, after)
  {
    MatchingHas(keys, prefix, after);
  }

  lemma AscendingJoin(a: seq<string>, b: seq<string>)
    requires Ascending(a) && Ascending(b)
    requires a != [] && b != [] ==> Less(a[|a| - 1], b[0])
    ensures Ascending(a + b)
  {
    var all := a + b;
    forall i, j | 0 <= i < j < |all| ensures Less(all[i], all[j]) {
      if i < |a| <= j {
        var last, first := a[|a| - 1], b[0];
        if i < |a| - 1 {
          Transitive(a[i], last, first);
        }
        if j > |a| {
          Transitive(a[i], first, b[j - |a|]);
        }
      }
    }
  }

  ghost predicate Present(snapshots: nat -> seq<string>, key: string) {
    forall r :: key in snapshots(r)
  }

  /** Every key listed was in the bucket at some request, under the prefix. */
  ghost predicate Seen(snapshots: nat -> seq<string>, prefix: string, listed: seq<string>) {
    forall key :: key in listed ==> prefix <= key && exists r :: key in snapshots(r)
  }

  /** Every key there all along, under the prefix and up to the marker, is listed. */
  ghost predicate Covers(snapshots: nat -> seq<string>, prefix: string, after: Option<string>, listed: seq<string>) {
    forall key :: Present(snapshots, key) && prefix <= key && after.Some? && BeforeOrAt(key, after.value) ==>
        key in listed
  }

  function LastOf(listed: seq<string>): Option<string> {
    if listed == [] then None else Some(listed[|listed| - 1])
  }

  /** The keys listed so far: in order, seen, and complete up to the last. */
  ghost predicate SoFar(snapshots: nat -> seq<string>, prefix: string, listed: seq<string>) {
    && Ascending(listed)
    && Seen(snapshots, prefix, listed)
    && Covers(snapshots, prefix, LastOf(listed), listed)
  }

  ghost predicate CoversAll(snapshots: nat -> seq<string>, prefix: string, listed: seq<string>) {
    forall key :: Present(snapshots, key) && prefix <= key ==> key in listed
  }

  lemma PageExtends(snapshots: nat -> seq<string>, stock: set<string>, prefix: string, listed: seq<string>, r: nat,
                    size: nat)
    requires Bucket(snapshots, stock) && SoFar(snapshots, prefix, listed)
    ensures var page := Serve(snapshots(r), prefix, LastOf(listed), size);
            && Ascending(listed + page.keys)
            && Seen(snapshots, prefix, listed + page.keys)
            && (page.keys != [] ==> SoFar(snapshots, prefix, listed + page.keys))
            && (!page.truncated ==> CoversAll(snapshots, prefix, listed + page.keys))
  {
    var after := LastOf(listed);
    var page := Serve(snapshots(r), prefix, after, size);
    PageIsWanted(snapshots(r), prefix, after, size);
    assert page.keys != [] ==> page.keys[0] in page.keys;
    AscendingJoin(listed, page.keys);
    forall key | Present(snapshots, key) && prefix <= key
      ensures !page.truncated || (page.keys != [] && BeforeOrAt(key, page.keys[|page.keys| - 1])) ==>
                key in listed + page.keys
    {
      assert key in snapshots(r);
      if after.Some? && !Less(after.value, key) {
        Trichotomy(key, after.value);
      } else {
        PageIsComplete(snapshots(r), prefix, after, size, key);
      }
    }
  }

  /** A page that is not empty moves the marker. */
  lemma PageAdvances(snapshots: nat -> seq<string>, stock: set<string>, prefix: string, listed: seq<string>, r: nat,
                     size: nat)
    requires Bucket(snapshots, stock)
    ensures var page := Serve(snapshots(r), prefix, LastOf(listed), size);
            page.keys != [] ==> Left(stock, LastOf(listed + page.keys)) < Left(stock, LastOf(listed))
  {
    var page := Serve(snapshots(r), prefix, LastOf(listed), size);
    if page.keys != [] {
      var last := page.keys[|page.keys| - 1];
      PageIsWanted(snapshots(r), prefix, LastOf(listed), size);
      assert last in page.keys && last in snapshots(r);
      LeftShrinks(stock, LastOf(listed), last);
      assert (listed + page.keys)[|listed + page.keys| - 1] == last;
    }
  }

  /** One request: the page extends the listing, and moves the marker unless it is empty. */
  method Request(snapshots: nat -> seq<string>, sizes: nat -> nat, prefix: string, r: nat, listed: seq<string>,
                 ghost stock: set<string>)
    returns (page: Page)
    requires Bucket(snapshots, stock) && SoFar(snapshots, prefix, listed)
    ensures page == Serve(snapshots(r), prefix, LastOf(listed), sizes(r))
    ensures page.keys != [] ==>
              SoFar(snapshots, prefix, listed + page.keys)
                  && Left(stock, LastOf(listed + page.keys)) < Left(stock, LastOf(listed))
    ensures !page.truncated ==>
              && Ascending(listed + page.keys) && Seen(snapshots, prefix, listed + page.keys)
              && CoversAll(snapshots, prefix, listed + page.keys)
    ensures page.truncated && page.keys != [] ==> sizes(r) > 0
    ensures page.truncated && page.keys == [] ==> sizes(r) == 0 && Matching(snapshots(r), prefix, LastOf(listed)) != []
  {
    PageExtends(snapshots, stock, prefix, listed, r, sizes(r));
    PageAdvances(snapshots, stock, prefix, listed, r, sizes(r));
    page := Serve(snapshots(r), prefix, LastOf(listed), sizes(r));
  }

  /**
   Asks for pages until one is not truncated; the last key is the next marker. Whatever the
   service does, no key comes twice or out of order; unless it returns a truncated empty
   page, every key that was there all along is listed.
   */
  method ListUnversioned(snapshots: nat -> seq<string>, sizes: nat -> nat, prefix: string, ghost stock: set<string>)
    returns (listed: seq<string>, ok: bool, requests: nat)
    requires Bucket(snapshots, stock)
    ensures Ascending(listed) && Seen(snapshots, prefix, listed)
    ensures ok ==> CoversAll(snapshots, prefix, listed)
    ensures !ok ==>
              && requests > 0 && sizes(requests - 1) == 0
              && Matching(snapshots(requests - 1), prefix, LastOf(listed)) != []
    ensures forall r :: 0 <= r < requests - 1 ==> sizes(r) > 0
  {
    listed, requests := [], 0;
    while true
      invariant SoFar(snapshots, prefix, listed)
      invariant forall r :: 0 <= r < requests ==> sizes(r) > 0
      decreases Left(stock, LastOf(listed))
    {
      var page := Request(snapshots, sizes, prefix, requests, listed, stock);
      requests := requests + 1;
      if !page.truncated {
        return listed + page.keys, true, requests;
      }
      if page.keys == [] {
        return listed, false, requests;
      }
      listed := listed + page.keys;
    }
  }

  lemma HeadIsLeast(keys: seq<string>, key: string)
    requires Ascending(keys) && key in keys
    ensures !Less(key, keys[0])
  {
    var k :| 0 <= k < |keys| && keys[k] == key;
    Irreflexive(key);
    if k > 0 {
      Asymmetric(keys[0], keys[k]);
    }
  }

  lemma {:induction false} SameMembersSameOrder(a: seq<string>, b: seq<string>)
    requires Ascending(a) && Ascending(b)
    requires forall key :: key in a <==> key in b
    ensures a == b
  {
    assert forall i :: 0 <= i < |a| ==> a[i] in b;
    assert forall i :: 0 <= i < |b| ==> b[i] in a;
    if a != [] && b != [] {
      HeadIsLeast(a, b[0]);
      HeadIsLeast(b, a[0]);
      Trichotomy(a[0], b[0]);
      forall key ensures key in a[1..] <==> key in b[1..] {
        TailHas(a, key);
        TailHas(b, key);
      }
      SameMembersSameOrder(a[1..], b[1..]);
    }
  }

  lemma TailHas(keys: seq<string>, key: string)
    requires Ascending(keys) && keys != []
    ensures key in keys[1..] <==> key in keys && key != keys[0]
  {
    Irreflexive(keys[0]);
    if key in keys && key != keys[0] {
      var k :| 0 <= k < |keys| && keys[k] == key;
      assert keys[1..][k - 1] == key;
    }
  }

  /** Of a bucket that does not change, the listing is exactly the keys under the prefix. */
  lemma SteadyListingIsExact(keys: seq<string>, prefix: string, listed: seq<string>)
    requires Ascending(keys) && Ascending(listed) && Seen(r => keys, prefix, listed)
    requires CoversAll(r => keys, prefix, listed)
    ensures listed == Matching(keys, prefix, None)
  {
    MatchingHas(keys, prefix, None);
    forall key ensures key in listed <==> key in Matching(keys, prefix, None) {
      if key in keys && prefix <= key {
        assert Present(r => keys, key);
      }
    }
    SameMembersSameOrder(listed, Matching(keys, prefix, None));
  }

  // ----- Versioned buckets -----

  datatype Version = Version(key: string, id: string, latest: bool, marker: bool)

  function Id(version: Version): (string, string) {
    (version.key, version.id)
  }

  /** What is left of the list after the version with the markers. */
  function After(versions: seq<Version>, marker: Option<(string, string)>): seq<Version> {
    if marker.None? || versions == [] then versions
    else if Id(versions[0]) == marker.value then versions[1..]
    else After(versions[1..], marker)
  }

  /** The versions returned are the latest of their keys; delete markers are listed apart. */
  function Latest(versions: seq<Version>): seq<Version> {
    if versions == [] then []
    else
      var last := versions[|versions| - 1];
      Latest(versions[..|versions| - 1]) + if last.latest && !last.marker then [last] else []
  }

  ghost predicate DistinctIds(versions: seq<Version>) {
    forall i, j :: 0 <= i < j < |versions| ==> Id(versions[i]) != Id(versions[j])
  }

  lemma {:induction false} AfterLast(done: seq<Version>, rest: seq<Version>)
    requires done != [] && DistinctIds(done + rest)
    ensures After(done + rest, Some(Id(done[|done| - 1]))) == rest
  {
    var all := done + rest;
    assert all[1..] == done[1..] + rest;
    if |done| > 1 {
      assert all[0] == done[0] && all[|done| - 1] == done[|done| - 1];
      forall i, j | 0 <= i < j < |all[1..]| ensures Id(all[1..][i]) != Id(all[1..][j]) {
        assert Id(all[i + 1]) != Id(all[j + 1]);
      }
      AfterLast(done[1..], rest);
    }
  }

  lemma {:induction false} LatestJoins(a: seq<Version>, b: seq<Version>)
    ensures Latest(a + b) == Latest(a) + Latest(b)
    decreases |b|
  {
    if b == [] {
      assert a + b == a;
    } else {
      LatestJoins(a, b[..|b| - 1]);
      assert (a + b)[..|a + b| - 1] == a + b[..|b| - 1];
    }
  }

  /** Where a listing is: the versions before the marker are done with. */
  ghost predicate Reached(versions: seq<Version>, done: seq<Version>, marker: Option<(string, string)>) {
    versions == done + After(versions, marker)
  }

  /** The markers after a truncated page; an empty one leaves the listing where it was. */
  function NextMarker(page: seq<Version>, marker: Option<(string, string)>): Option<(string, string)> {
    if page == [] then marker else Some(Id(page[|page| - 1]))
  }

  lemma FullPageReached(versions: seq<Version>, done: seq<Version>, page: seq<Version>, left: seq<Version>)
    requires DistinctIds(versions) && versions == (done + page) + left && page != []
    ensures After(versions, Some(Id(page[|page| - 1]))) == left
  {
    assert (done + page)[|done + page| - 1] == page[|page| - 1];
    AfterLast(done + page, left);
  }

  lemma PageReached(versions: seq<Version>, done: seq<Version>, marker: Option<(string, string)>, size: nat)
    requires DistinctIds(versions) && Reached(versions, done, marker) && size <= |After(versions, marker)|
    ensures var page := After(versions, marker)[..size];
            && Reached(versions, done + page, NextMarker(page, marker))
            && After(versions, NextMarker(page, marker)) == After(versions, marker)[size..]
  {
    var rest := After(versions, marker);
    var page, left := rest[..size], rest[size..];
    JoinThree(done, page, left, rest);
    if page == [] {
      assert done + page == done && left == rest;
    } else {
      FullPageReached(versions, done, page, left);
    }
  }

  lemma JoinThree(a: seq<Version>, b: seq<Version>, c: seq<Version>, d: seq<Version>)
    requires d == b + c
    ensures a + d == (a + b) + c
  {
  }

  /** How many versions the pages of the first requests have room for. */
  function Served(sizes: nat -> nat, requests: nat): nat {
    if requests == 0 then 0 else Served(sizes, requests - 1) + sizes(requests - 1)
  }

  lemma {:induction false} ServedGrows(sizes: nat -> nat, few: nat, many: nat)
    requires few <= many
    ensures Served(sizes, few) <= Served(sizes, many)
    decreases many
  {
    if few < many {
      ServedGrows(sizes, few, many - 1);
    }
  }

  /** What is listed after so many requests that all were truncated. */
  ghost predicate Underway(versions: seq<Version>, sizes: nat -> nat, requests: nat, done: seq<Version>,
                           marker: Option<(string, string)>, listed: seq<Version>)
  {
    && Reached(versions, done, marker)
    && listed == Latest(done) && |done| == Served(sizes, requests)
    && forall n: nat :: 0 < n <= requests ==> Served(sizes, n) < |versions|
  }

  lemma TruncatedPage(versions: seq<Version>, sizes: nat -> nat, requests: nat, done: seq<Version>,
                      marker: Option<(string, string)>, listed: seq<Version>)
    requires DistinctIds(versions) && Underway(versions, sizes, requests, done, marker, listed)
    requires sizes(requests) < |After(versions, marker)|
    ensures var page := After(versions, marker)[..sizes(requests)];
            Underway(versions, sizes, requests + 1, done + page, NextMarker(page, marker), listed + Latest(page))
    ensures Served(sizes, requests + 1) < |versions|
  {
    var page := After(versions, marker)[..sizes(requests)];
    LatestJoins(done, page);
    PageReached(versions, done, marker, sizes(requests));
  }

  lemma LastPage(versions: seq<Version>, sizes: nat -> nat, requests: nat, done: seq<Version>,
                 marker: Option<(string, string)>, listed: seq<Version>)
    requires Underway(versions, sizes, requests, done, marker, listed)
    requires sizes(requests) >= |After(versions, marker)|
    ensures listed + Latest(After(versions, marker)) == Latest(versions)
    ensures Served(sizes, requests + 1) >= |versions|
  {
    LatestJoins(done, After(versions, marker));
  }

  /**
   Asks for pages with the markers of the last one, until one is not truncated. Pages may be
   empty, as long as the service gets through its versions at some time.
   */
  method ListVersioned(versions: seq<Version>, sizes: nat -> nat) returns (listed: seq<Version>, requests: nat)
    requires DistinctIds(versions) && exists n: nat :: Served(sizes, n) >= |versions|
    ensures listed == Latest(versions)
    ensures requests > 0 && Served(sizes, requests) >= |versions|
    ensures forall n: nat :: 0 < n < requests ==> Served(sizes, n) < |versions|
  {
    ghost var enough: nat :| Served(sizes, enough) >= |versions|;
    listed, requests := [], 0;
    var marker: Option<(string, string)> := None;
    ghost var done: seq<Version> := [];
    while true
      invariant Underway(versions, sizes, requests, done, marker, listed)
      decreases enough - requests
    {
      var rest, size := After(versions, marker), sizes(requests);
      if size >= |rest| {
        LastPage(versions, sizes, requests, done, marker, listed);
        return listed + Latest(rest), requests + 1;
      }
      TruncatedPage(versions, sizes, requests, done, marker, listed);
      if requests >= enough {
        ServedGrows(sizes, enough, requests + 1);
      }
      listed, done := listed + Latest(rest[..size]), done + rest[..size];
      marker, requests := NextMarker(rest[..size], marker), requests + 1;
    }
  }

  // ----- When a versioned listing ends -----

  datatype Progress = Progress(marker: Option<(string, string)>, listed: seq<Version>, over: bool)

  /** The listing after so many requests. */
  function AfterRequests(versions: seq<Version>, sizes: nat -> nat, requests: nat): Progress {
    if requests == 0 then Progress(None, [], false)
    else
      var p, size := AfterRequests(versions, sizes, requests - 1), sizes(requests - 1);
      var rest := After(versions, p.marker);
      if p.over then p
      else if size >= |rest| then Progress(p.marker, p.listed + Latest(rest), true)
      else Progress(NextMarker(rest[..size], p.marker), p.listed + Latest(rest[..size]), false)
  }

  lemma {:induction false} OverExactly(versions: seq<Version>, sizes: nat -> nat, requests: nat)
    returns (done: seq<Version>)
    requires DistinctIds(versions)
    ensures var p := AfterRequests(versions, sizes, requests);
            && (p.over <==> requests > 0 && Served(sizes, requests) >= |versions|)
            && (p.over ==> p.listed == Latest(versions))
            && (!p.over ==>
                  Reached(versions, done, p.marker) && |done| == Served(sizes, requests) && p.listed == Latest(done))
  {
    done := [];
    if requests > 0 {
      done := OverExactly(versions, sizes, requests - 1);
      var p, size := AfterRequests(versions, sizes, requests - 1), sizes(requests - 1);
      if !p.over {
        var rest := After(versions, p.marker);
        if size >= |rest| {
          LatestJoins(done, rest);
        } else {
          PageReached(versions, done, p.marker, size);
          LatestJoins(done, rest[..size]);
          done := done + rest[..size];
        }
      }
    }
  }

  /**
   The listing is over by a request exactly when the pages up to it have room for all
   versions; so it ends if and only if they ever do, and else asks for ever.
   */
  lemma ListingEndsExactly(versions: seq<Version>, sizes: nat -> nat)
    requires DistinctIds(versions)
    ensures forall n: nat :: AfterRequests(versions, sizes, n).over <==> n > 0 && Served(sizes, n) >= |versions|
    ensures (exists n: nat :: AfterRequests(versions, sizes, n).over) <==>
              exists n: nat :: Served(sizes, n) >= |versions|
    ensures forall n: nat :: AfterRequests(versions, sizes, n).over ==>
              AfterRequests(versions, sizes, n).listed == Latest(versions)
  {
    forall n: nat
      ensures AfterRequests(versions, sizes, n).over <==> n > 0 && Served(sizes, n) >= |versions|
      ensures AfterRequests(versions, sizes, n).over ==> AfterRequests(versions, sizes, n).listed == Latest(versions)
    {
      var done := OverExactly(versions, sizes, n);
    }
    if n: nat :| AfterRequests(versions, sizes, n).over {
      assert Served(sizes, n) >= |versions|;
    }
    if n: nat :| Served(sizes, n) >= |versions| {
      ServedGrows(sizes, n, n + 1);
      assert AfterRequests(versions, sizes, n + 1).over;
    }
  }

  /** Versions by ascending key; the first of each key is its latest. */
  ghost predicate Ranked(versions: seq<Version>) {
    && DistinctIds(versions)
    && (forall i, j :: 0 <= i < j < |versions| ==> BeforeOrAt(versions[i].key, versions[j].key))
    && (forall i :: 0 <= i < |versions| ==>
          (versions[i].latest <==> forall h :: 0 <= h < i ==> versions[h].key != versions[i].key))
  }

  lemma {:induction false} LatestHas(versions: seq<Version>, v: Version)
    ensures v in Latest(versions) <==> v in versions && v.latest && !v.marker
    decreases |versions|
  {
    if versions != [] {
      var rest := versions[..|versions| - 1];
      LatestHas(rest, v);
      assert versions == rest + [versions[|versions| - 1]];
    }
  }

  /** A latest version comes behind smaller keys only. */
  ghost predicate LatestBehind(versions: seq<Version>) {
    forall h, i :: 0 <= h < i < |versions| && versions[i].latest ==> Less(versions[h].key, versions[i].key)
  }

  lemma RankedLatestBehind(versions: seq<Version>)
    requires Ranked(versions)
    ensures LatestBehind(versions)
  {
    forall h, i | 0 <= h < i < |versions| && versions[i].latest ensures Less(versions[h].key, versions[i].key) {
      assert BeforeOrAt(versions[h].key, versions[i].key);
    }
  }

  ghost predicate KeysAscend(versions: seq<Version>) {
    forall i, j :: 0 <= i < j < |versions| ==> Less(versions[i].key, versions[j].key)
  }

  lemma LastBehindAll(versions: seq<Version>)
    requires LatestBehind(versions) && versions != [] && versions[|versions| - 1].latest
    ensures forall v :: v in Latest(versions[..|versions| - 1]) ==> Less(v.key, versions[|versions| - 1].key)
  {
    var rest := versions[..|versions| - 1];
    forall v | v in Latest(rest) ensures Less(v.key, versions[|versions| - 1].key) {
      LatestHas(rest, v);
      var h :| 0 <= h < |rest| && rest[h] == v;
      assert versions[h] == v;
    }
  }

  lemma AscendAppended(versions: seq<Version>, last: Version)
    requires KeysAscend(versions) && forall v :: v in versions ==> Less(v.key, last.key)
    ensures KeysAscend(versions + [last])
  {
  }

  lemma BehindPrefix(versions: seq<Version>, n: nat)
    requires LatestBehind(versions) && n <= |versions|
    ensures LatestBehind(versions[..n])
  {
  }

  lemma {:induction false} LatestAscend(versions: seq<Version>)
    requires LatestBehind(versions)
    ensures KeysAscend(Latest(versions))
    decreases |versions|
  {
    if versions != [] {
      var rest, last := versions[..|versions| - 1], versions[|versions| - 1];
      BehindPrefix(versions, |versions| - 1);
      LatestAscend(rest);
      if last.latest && !last.marker {
        LastBehindAll(versions);
        AscendAppended(Latest(rest), last);
      } else {
        assert Latest(rest) + [] == Latest(rest);
      }
    }
  }

  /** Each key whose latest version is not a delete marker comes once, and in order. */
  lemma LatestAreUnique(versions: seq<Version>)
    requires Ranked(versions)
    ensures KeysAscend(Latest(versions))
    ensures forall v :: v in Latest(versions) <==> v in versions && v.latest && !v.marker
  {
    RankedLatestBehind(versions);
    LatestAscend(versions);
    forall v ensures v in Latest(versions) <==> v in versions && v.latest && !v.marker {
      LatestHas(versions, v);
    }
  }
}
