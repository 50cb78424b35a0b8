/**
 When dropping oversized chunks leaves no oversized chunk behind. The rebuild chunks across
 the gaps, so two neighbours that were each within the limit can end up together above it.
 */
module SizePolicy {
  import opened Chunking

  const BASE := 1024 + 1024 * 1024

  function PaddedSize(size: int): int {
    (size + 511) / 512 * 512
  }

  /** The estimated staged tar size of a chunk. */
  function Estimate(sizes: seq<int>): int {
    if sizes == [] then BASE
    else Estimate(sizes[..|sizes| - 1]) + 512 + PaddedSize(sizes[|sizes| - 1])
  }

  /** The sizes left when the oversized greedy chunks are dropped. */
  function Survivors(limits: Limits, limit: int, sizes: seq<int>): seq<int>
    decreases |sizes|
  {
    if sizes == [] then []
    else
      var n := Fill(limits, sizes, 0);
      (if Estimate(sizes[..n]) <= limit then sizes[..n] else []) + Survivors(limits, limit, sizes[n..])
  }

  /** Every greedy chunk is within the limit. */
  predicate AllWithin(limits: Limits, limit: int, sizes: seq<int>)
    decreases |sizes|
  {
    sizes == [] ||
    var n := Fill(limits, sizes, 0);
    Estimate(sizes[..n]) <= limit && AllWithin(limits, limit, sizes[n..])
  }

  ghost predicate NonNegative(s: seq<int>) {
    forall i :: 0 <= i < |s| ==> s[i] >= 0
  }

  /** Two pieces within the limit that fit one chunk together. */
  ghost predicate Mergeable(limits: Limits, limit: int, a: seq<int>, b: seq<int>) {
    && NonNegative(a) && NonNegative(b) && a != [] && b != []
    && Fits(limits, a + b)
    && Estimate(a) <= limit && Estimate(b) <= limit
  }

  /** Two pieces within the limit that fit one chunk together are within the limit together. */
  ghost predicate MergesStayWithin(limits: Limits, limit: int) {
    forall a, b :: Mergeable(limits, limit, a, b) ==> Estimate(a + b) <= limit
  }

  lemma {:induction false} EstimateOfParts(a: seq<int>, b: seq<int>)
    ensures Estimate(a + b) == Estimate(a) + Estimate(b) - BASE
    decreases |b|
  {
    if b == [] {
      assert a + b == a;
    } else {
      assert (a + b)[..|a + b| - 1] == a + b[..|b| - 1];
      EstimateOfParts(a, b[..|b| - 1]);
    }
  }

  lemma {:induction false} EstimateAtLeastBase(a: seq<int>)
    requires NonNegative(a)
    ensures Estimate(a) >= BASE
  {
    if a != [] {
      EstimateAtLeastBase(a[..|a| - 1]);
    }
  }

  lemma EstimateOfSlice(a: seq<int>, i: nat, j: nat)
    requires NonNegative(a) && i <= j <= |a|
    ensures Estimate(a[i..j]) <= Estimate(a)
  {
    var front := a[..j];
    assert front == a[..i] + a[i..j] && a == front + a[j..];
    EstimateOfParts(a[..i], a[i..j]);
    EstimateOfParts(front, a[j..]);
    EstimateAtLeastBase(a[..i]);
    EstimateAtLeastBase(a[j..]);
  }

  // ----- The condition suffices -----

  function Flatten(pieces: seq<seq<int>>): seq<int> {
    if pieces == [] then [] else pieces[0] + Flatten(pieces[1..])
  }

  ghost predicate PiecesWithin(limit: int, pieces: seq<seq<int>>) {
    forall p :: p in pieces ==> NonNegative(p) && Estimate(p) <= limit
  }

  lemma {:induction false} SurvivorsArePieces(limits: Limits, limit: int, sizes: seq<int>)
    returns (pieces: seq<seq<int>>)
    requires NonNegative(sizes)
    ensures Survivors(limits, limit, sizes) == Flatten(pieces) && PiecesWithin(limit, pieces)
    decreases |sizes|
  {
    pieces := [];
    if sizes != [] {
      var n := Fill(limits, sizes, 0);
      var later := SurvivorsArePieces(limits, limit, sizes[n..]);
      pieces := if Estimate(sizes[..n]) <= limit then [sizes[..n]] + later else later;
    }
  }

  lemma {:induction false} FlattenSizes(limit: int, pieces: seq<seq<int>>)
    requires PiecesWithin(limit, pieces)
    ensures NonNegative(Flatten(pieces))
  {
    if pieces != [] {
      assert pieces[0] in pieces;
      FlattenSizes(limit, pieces[1..]);
    }
  }

  /** A slice that fits a chunk is within the limit. */
  ghost predicate SliceWithin(limits: Limits, limit: int, all: seq<int>, i: nat, j: nat)
    requires i < j <= |all|
  {
    Fits(limits, all[i..j]) ==> Estimate(all[i..j]) <= limit
  }

  ghost predicate SlicesWithin(limits: Limits, limit: int, all: seq<int>) {
    forall i, j :: 0 <= i < j <= |all| ==> SliceWithin(limits, limit, all, i, j)
  }

  lemma {:induction false} PiecesGiveSlices(limits: Limits, limit: int, pieces: seq<seq<int>>)
    requires Usable(limits) && MergesStayWithin(limits, limit) && PiecesWithin(limit, pieces)
    ensures SlicesWithin(limits, limit, Flatten(pieces))
  {
    if pieces != [] {
      assert pieces[0] in pieces;
      FlattenSizes(limit, pieces[1..]);
      PiecesGiveSlices(limits, limit, pieces[1..]);
      OneMorePiece(limits, limit, pieces[0], Flatten(pieces[1..]));
    }
  }

  lemma OneMorePiece(limits: Limits, limit: int, first: seq<int>, rest: seq<int>)
    requires Usable(limits) && MergesStayWithin(limits, limit) && SlicesWithin(limits, limit, rest)
    requires NonNegative(first) && NonNegative(rest) && Estimate(first) <= limit
    ensures SlicesWithin(limits, limit, first + rest)
  {
    forall i, j | 0 <= i < j <= |first + rest| ensures SliceWithin(limits, limit, first + rest, i, j) {
      if j <= |first| {
        SliceOfFirst(first, rest, i, j);
        EstimateOfSlice(first, i, j);
      } else if i >= |first| {
        SliceOfSecond(first, rest, i, j);
        assert SliceWithin(limits, limit, rest, i - |first|, j - |first|);
      } else {
        assert SliceWithin(limits, limit, rest, 0, j - |first|);
        SliceAcross(limits, limit, first, rest, i, j);
      }
    }
  }

  lemma SliceAcross(limits: Limits, limit: int, first: seq<int>, rest: seq<int>, i: nat, j: nat)
    requires Usable(limits) && MergesStayWithin(limits, limit) && i < |first| < j <= |first + rest|
    requires NonNegative(first) && NonNegative(rest) && Estimate(first) <= limit
    requires SliceWithin(limits, limit, rest, 0, j - |first|)
    ensures SliceWithin(limits, limit, first + rest, i, j)
  {
    if Fits(limits, (first + rest)[i..j]) {
      SecondPartOfSliceFits(limits, first, rest, i, j);
      PartsWithin(limits, limit, first, i, rest[0..j - |first|]);
    }
  }

  lemma SliceOfFirst(a: seq<int>, b: seq<int>, i: nat, j: nat)
    requires i <= j <= |a|
    ensures (a + b)[i..j] == a[i..j]
  {
  }

  lemma SliceOfSecond(a: seq<int>, b: seq<int>, i: nat, j: nat)
    requires |a| <= i <= j <= |a| + |b|
    ensures (a + b)[i..j] == b[i - |a|..j - |a|]
  {
  }

  lemma SecondPartOfSliceFits(limits: Limits, first: seq<int>, rest: seq<int>, i: nat, j: nat)
    requires Usable(limits) && i < |first| < j <= |first + rest| && Fits(limits, (first + rest)[i..j])
    ensures (first + rest)[i..j] == first[i..] + rest[0..j - |first|]
    ensures Fits(limits, rest[0..j - |first|])
  {
    assert (first + rest)[i..j] == first[i..] + rest[0..j - |first|];
    SecondPartFits(limits, first[i..], rest[0..j - |first|]);
  }

  lemma SecondPartFits(limits: Limits, a: seq<int>, b: seq<int>)
    requires Usable(limits) && Fits(limits, a + b) && b != []
    ensures Fits(limits, b)
  {
    FitsInside(limits, a + b, |a|, |a + b|);
    assert (a + b)[|a|..|a + b|] == b;
  }

  lemma PartsWithin(limits: Limits, limit: int, first: seq<int>, i: nat, b: seq<int>)
    requires MergesStayWithin(limits, limit) && i < |first| && b != []
    requires NonNegative(first) && NonNegative(b) && Estimate(first) <= limit && Estimate(b) <= limit
    requires Fits(limits, first[i..] + b)
    ensures Estimate(first[i..] + b) <= limit
  {
    EstimateOfSlice(first, i, |first|);
    assert first[i..|first|] == first[i..];
    assert Mergeable(limits, limit, first[i..], b);
  }

  lemma {:induction false} SlicesWithinGiveAll(limits: Limits, limit: int, sizes: seq<int>, from: nat)
    requires Usable(limits) && from <= |sizes|
    requires SlicesWithin(limits, limit, sizes)
    ensures AllWithin(limits, limit, sizes[from..])
    decreases |sizes| - from
  {
    if from < |sizes| {
      var n := Fill(limits, sizes[from..], 0);
      FillFits(limits, sizes[from..], 0);
      assert sizes[from..][..n] == sizes[from..from + n] && sizes[from..][n..] == sizes[from + n..];
      assert SliceWithin(limits, limit, sizes, from, from + n);
      SlicesWithinGiveAll(limits, limit, sizes, from + n);
    }
  }

  lemma MergesWithinSuffices(limits: Limits, limit: int, sizes: seq<int>)
    requires Usable(limits) && MergesStayWithin(limits, limit) && NonNegative(sizes)
    ensures AllWithin(limits, limit, Survivors(limits, limit, sizes))
  {
    var left := Survivors(limits, limit, sizes);
    var pieces := SurvivorsArePieces(limits, limit, sizes);
    PiecesGiveSlices(limits, limit, pieces);
    SlicesWithinGiveAll(limits, limit, left, 0);
    assert left[0..] == left;
  }

  // ----- And is necessary -----

  /** A chunk that fits is one greedy chunk when what follows it does not fit behind it. */
  lemma FillsExactly(limits: Limits, chunk: seq<int>, rest: seq<int>)
    requires Usable(limits) && Fits(limits, chunk)
    requires rest != [] ==> Weight(chunk) + Clamped(rest[0]) > limits.maxBytes
    ensures Fill(limits, chunk + rest, 0) == |chunk|
  {
    var all := chunk + rest;
    var n, k := Fill(limits, all, 0), |chunk|;
    assert all[..k] == chunk;
    FillIsLongest(limits, all, 0, k);
    if n > k {
      FillFits(limits, all, 0);
      assert all[..n][..k] == chunk && all[..n][k] == rest[0];
      OverfullDoesNotFit(limits, all[..n], k);
    }
  }

  lemma OverfullDoesNotFit(limits: Limits, sizes: seq<int>, k: nat)
    requires 1 <= k < |sizes| && Weight(sizes[..k]) + Clamped(sizes[k]) > limits.maxBytes
    ensures !Fits(limits, sizes)
  {
    var front := sizes[..k + 1];
    assert front[..k] == sizes[..k] && sizes[0..k + 1] == front;
    WeightOfSlice(sizes, 0, k + 1);
  }

  /** Two pieces around an object too big for any chunk: it goes, and they merge. */
  lemma PiecesSurvive(limits: Limits, limit: int, a: seq<int>, huge: int, b: seq<int>, sizes: seq<int>)
    requires Usable(limits) && Fits(limits, a) && Fits(limits, b) && a != [] && b != []
    requires Estimate(a) <= limit && Estimate(b) <= limit && NonNegative(b)
    requires huge >= 0 && Weight(a) + huge > limits.maxBytes && huge + b[0] > limits.maxBytes
    requires BASE + 512 + PaddedSize(huge) > limit
    requires sizes == a + ([huge] + b)
    ensures Survivors(limits, limit, sizes) == a + b
  {
    FirstChunkSurvives(limits, limit, a, [huge] + b);
    HugeIsDropped(limits, limit, huge, b);
    OneChunkAlone(limits, limit, b);
  }

  lemma AlwaysWithinNeedsMerges(limits: Limits, limit: int, a: seq<int>, b: seq<int>) returns (sizes: seq<int>)
    requires Usable(limits) && Mergeable(limits, limit, a, b) && Estimate(a + b) > limit
    ensures NonNegative(sizes) && !AllWithin(limits, limit, Survivors(limits, limit, sizes))
  {
    EstimateAtLeastBase(a);
    var huge := limits.maxBytes + limit + 1;
    sizes := a + ([huge] + b);
    WithHugeBetween(a, huge, b, sizes);
    OneChunkRemains(limits, limit, a, huge, b, sizes);
  }

  lemma WithHugeBetween(a: seq<int>, huge: int, b: seq<int>, sizes: seq<int>)
    requires NonNegative(a) && NonNegative(b) && huge >= 0 && sizes == a + ([huge] + b)
    ensures NonNegative(sizes)
  {
  }

  lemma OneChunkRemains(limits: Limits, limit: int, a: seq<int>, huge: int, b: seq<int>, sizes: seq<int>)
    requires Usable(limits) && Mergeable(limits, limit, a, b) && Estimate(a + b) > limit >= 0
    requires huge == limits.maxBytes + limit + 1 && sizes == a + ([huge] + b)
    ensures !AllWithin(limits, limit, Survivors(limits, limit, sizes))
  {
    HugeIsTooMuch(limits, limit, a, huge, b);
    PiecesSurvive(limits, limit, a, huge, b, sizes);
    OneChunkAlone(limits, limit, a + b);
  }

  lemma HugeIsTooMuch(limits: Limits, limit: int, a: seq<int>, huge: int, b: seq<int>)
    requires Usable(limits) && Mergeable(limits, limit, a, b) && huge == limits.maxBytes + limit + 1 && limit >= 0
    ensures Fits(limits, a) && Fits(limits, b)
    ensures Weight(a) + huge > limits.maxBytes && huge + b[0] > limits.maxBytes && PaddedSize(huge) > limit
  {
    FirstPartFits(limits, a, b);
    SecondPartFits(limits, a, b);
    NoNegativeWeight(a);
    PaddingAdds(huge);
  }

  lemma PaddingAdds(size: int)
    ensures PaddedSize(size) >= size
  {
  }

  lemma {:induction false} NoNegativeWeight(sizes: seq<int>)
    ensures Weight(sizes) >= 0
    decreases |sizes|
  {
    if sizes != [] {
      NoNegativeWeight(sizes[..|sizes| - 1]);
    }
  }

  lemma FirstPartFits(limits: Limits, a: seq<int>, b: seq<int>)
    requires Usable(limits) && Fits(limits, a + b) && a != []
    ensures Fits(limits, a)
  {
    FitsInside(limits, a + b, 0, |a|);
    assert (a + b)[0..|a|] == a;
  }

  lemma FirstChunkSurvives(limits: Limits, limit: int, chunk: seq<int>, tail: seq<int>)
    requires Usable(limits) && Fits(limits, chunk) && Estimate(chunk) <= limit
    requires tail != [] && Weight(chunk) + Clamped(tail[0]) > limits.maxBytes
    ensures Survivors(limits, limit, chunk + tail) == chunk + Survivors(limits, limit, tail)
  {
    FillsExactly(limits, chunk, tail);
    assert (chunk + tail)[..|chunk|] == chunk && (chunk + tail)[|chunk|..] == tail;
  }

  lemma OneChunkAlone(limits: Limits, limit: int, chunk: seq<int>)
    requires Usable(limits) && Fits(limits, chunk)
    ensures AllWithin(limits, limit, chunk) <==> Estimate(chunk) <= limit
    ensures Estimate(chunk) <= limit ==> Survivors(limits, limit, chunk) == chunk
  {
    FillsExactly(limits, chunk, []);
    assert chunk + [] == chunk && chunk[..|chunk|] == chunk && chunk[|chunk|..] == [];
  }

  lemma HugeIsDropped(limits: Limits, limit: int, huge: int, b: seq<int>)
    requires Usable(limits) && NonNegative(b) && b != [] && huge >= 0
    requires huge + b[0] > limits.maxBytes && BASE + 512 + PaddedSize(huge) > limit
    ensures Survivors(limits, limit, [huge] + b) == Survivors(limits, limit, b)
  {
    var tail := [huge] + b;
    assert tail[..1] == [huge] && tail[1..] == b && [huge][..0] == [];
    assert Weight([huge]) == huge;
    assert Overflows(limits, tail[..1], tail[1]);
    assert Fill(limits, tail, 1) == 1;
    assert Estimate([huge]) == BASE + 512 + PaddedSize(huge);
  }

  // ----- The condition on the settings -----

  /** How many blocks of 512 bytes the contents take. */
  function Blocks(sizes: seq<int>): int {
    if sizes == [] then 0 else Blocks(sizes[..|sizes| - 1]) + (sizes[|sizes| - 1] + 511) / 512
  }

  /** The most blocks that so many objects with so many bytes can take. */
  function MostBlocks(objects: nat, bytes: nat): nat {
    var filled := if objects < bytes then objects else bytes;
    filled + (bytes - filled) / 512
  }

  /** One object a chunk, no room for any object, or room for the fullest chunk. */
  predicate MergesFit(limits: Limits, limit: int) {
    || limits.maxObjects == 1
    || limit < BASE + 512
    || BASE + 512 * (limits.maxObjects + MostBlocks(limits.maxObjects, limits.maxBytes)) <= limit
  }

  lemma {:induction false} EstimateInBlocks(sizes: seq<int>)
    ensures Estimate(sizes) == BASE + 512 * (|sizes| + Blocks(sizes))
    decreases |sizes|
  {
    if sizes != [] {
      EstimateInBlocks(sizes[..|sizes| - 1]);
    }
  }

  /** Each object that is not empty takes one block for its first byte, and one for every further 512. */
  lemma {:induction false} BlocksOfFilled(sizes: seq<int>) returns (filled: nat)
    requires NonNegative(sizes)
    ensures filled <= |sizes| && filled <= Weight(sizes)
    ensures Blocks(sizes) <= filled + (Weight(sizes) - filled) / 512
    decreases |sizes|
  {
    filled := 0;
    if sizes != [] {
      var last := sizes[|sizes| - 1];
      filled := BlocksOfFilled(sizes[..|sizes| - 1]);
      if last > 0 {
        filled := filled + 1;
      }
    }
  }

  lemma MoreFilledTakesMore(filled: nat, weight: nat, objects: nat, bytes: nat)
    requires filled <= weight <= bytes && filled <= objects
    ensures filled + (weight - filled) / 512 <= MostBlocks(objects, bytes)
  {
    var m := if objects < bytes then objects else bytes;
    assert (bytes - filled) / 512 <= (m - filled) + (bytes - m) / 512;
  }

  lemma ChunkInBlocks(limits: Limits, chunk: seq<int>)
    requires NonNegative(chunk) && |chunk| <= limits.maxObjects && Weight(chunk) <= limits.maxBytes
    ensures Estimate(chunk) <= BASE + 512 * (limits.maxObjects + MostBlocks(limits.maxObjects, limits.maxBytes))
  {
    EstimateInBlocks(chunk);
    var filled := BlocksOfFilled(chunk);
    MoreFilledTakesMore(filled, Weight(chunk), limits.maxObjects, limits.maxBytes);
  }

  /** So many objects, some of one byte and the rest empty. */
  lemma {:induction false} SmallObjects(objects: nat, filled: nat) returns (sizes: seq<int>)
    requires filled <= objects
    ensures |sizes| == objects && NonNegative(sizes) && Weight(sizes) == Blocks(sizes) == filled
  {
    sizes := [];
    if objects > 0 {
      var last := if filled == objects then 1 else 0;
      var rest := SmallObjects(objects - 1, filled - last);
      SmallObject(rest, last);
      sizes := rest + [last];
    }
  }

  lemma SmallObject(sizes: seq<int>, last: int)
    requires 0 <= last <= 1
    ensures Weight(sizes + [last]) == Weight(sizes) + last && Blocks(sizes + [last]) == Blocks(sizes) + last
    ensures NonNegative(sizes) ==> NonNegative(sizes + [last])
  {
    assert (sizes + [last])[..|sizes|] == sizes;
    assert (last + 511) / 512 == last;
  }

  lemma {:induction false} BlocksJoin(a: seq<int>, b: seq<int>)
    ensures Blocks(a + b) == Blocks(a) + Blocks(b)
    decreases |b|
  {
    if b == [] {
      assert a + b == a;
    } else {
      BlocksJoin(a, b[..|b| - 1]);
      assert (a + b)[..|a + b| - 1] == a + b[..|b| - 1];
    }
  }

  /** Every number of blocks up to the most is taken by some objects within the limits. */
  lemma AnyBlocks(limits: Limits, blocks: nat) returns (sizes: seq<int>)
    requires Usable(limits) && blocks <= MostBlocks(limits.maxObjects, limits.maxBytes)
    ensures |sizes| == limits.maxObjects && NonNegative(sizes) && Weight(sizes) <= limits.maxBytes
              && Blocks(sizes) == blocks
  {
    var n := limits.maxObjects;
    if blocks <= n && blocks <= limits.maxBytes {
      sizes := SmallObjects(n, blocks);
    } else {
      var big := [1 + 512 * (blocks - n)];
      var ones := SmallObjects(n - 1, n - 1);
      assert n < limits.maxBytes && blocks - n <= (limits.maxBytes - n) / 512;
      assert big[..0] == [] && Weight(big) == 1 + 512 * (blocks - n) && Blocks(big) == 1 + (blocks - n);
      WeightOfParts(big, ones);
      BlocksJoin(big, ones);
      sizes := big + ones;
    }
  }

  /** A list just above the limit, every part of which is within it. */
  lemma JustAbove(limits: Limits, limit: int) returns (a: seq<int>, b: seq<int>)
    requires Usable(limits) && !MergesFit(limits, limit)
    ensures Mergeable(limits, limit, a, b) && Estimate(a + b) > limit
  {
    var units := (limit - BASE) / 512 + 1;
    var n := limits.maxObjects;
    var sizes;
    if units <= n {
      sizes := SmallObjects(units, 0);
    } else {
      sizes := AnyBlocks(limits, units - n);
    }
    EstimateInBlocks(sizes);
    assert limit < Estimate(sizes) <= limit + 512;
    a, b := sizes[..1], sizes[1..];
    assert a + b == sizes;
    EstimateOfParts(a, b);
    EstimateInBlocks(a);
    EstimateInBlocks(b);
    NoNegativeBlocks(a);
    NoNegativeBlocks(b);
  }

  lemma {:induction false} NoNegativeBlocks(sizes: seq<int>)
    requires NonNegative(sizes)
    ensures Blocks(sizes) >= 0
    decreases |sizes|
  {
    if sizes != [] {
      NoNegativeBlocks(sizes[..|sizes| - 1]);
    }
  }

  /** Merged pieces stay within the limit exactly when the settings say so. */
  lemma MergesFitExactly(limits: Limits, limit: int)
    requires Usable(limits)
    ensures MergesStayWithin(limits, limit) <==> MergesFit(limits, limit)
  {
    if MergesFit(limits, limit) {
      forall a, b | Mergeable(limits, limit, a, b) ensures Estimate(a + b) <= limit {
        EstimateInBlocks(a);
        NoNegativeBlocks(a);
        ChunkInBlocks(limits, a + b);
      }
    } else {
      var a, b := JustAbove(limits, limit);
    }
  }

  /**
   For given settings, dropping leaves only chunks within the limit, whatever the sizes in a
   group, if and only if the settings leave room for the fullest chunk, or for none to merge.
   */
  lemma DroppingSufficesExactly(limits: Limits, limit: int)
    requires Usable(limits)
    ensures MergesFit(limits, limit)
       <==> forall sizes :: NonNegative(sizes) ==> AllWithin(limits, limit, Survivors(limits, limit, sizes))
  {
    MergesFitExactly(limits, limit);
    if MergesStayWithin(limits, limit) {
      forall sizes | NonNegative(sizes) ensures AllWithin(limits, limit, Survivors(limits, limit, sizes)) {
        MergesWithinSuffices(limits, limit, sizes);
      }
    } else {
      var a, b :| Mergeable(limits, limit, a, b) && Estimate(a + b) > limit;
      var sizes := AlwaysWithinNeedsMerges(limits, limit, a, b);
    }
  }

  const GIB := 1024 * 1024 * 1024

  /**
   With the default settings it does not hold: two objects of 50 GiB around one of 100 GiB,
   which is within the limit for source objects and, as a tar, above the one for archives.
   */
  lemma DefaultsCanLeaveOversized()
    ensures var limits, limit := Limits(100 * GIB, 2_000_000), 102_400 * 1024 * 1024;
            var sizes := [50 * GIB, 100 * GIB, 50 * GIB];
            && (forall size :: size in sizes ==> size <= limit)
            && Survivors(limits, limit, sizes) == [50 * GIB, 50 * GIB]
            && !AllWithin(limits, limit, [50 * GIB, 50 * GIB])
            && !MergesFit(limits, limit)
  {
    var one, both, sizes := [50 * GIB], [50 * GIB, 50 * GIB], [50 * GIB, 100 * GIB, 50 * GIB];
    assert both == one + one && sizes == one + ([100 * GIB] + one);
    HalvesMerge(Limits(100 * GIB, 2_000_000), 100 * GIB, 50 * GIB, one, both, sizes);
  }

  /** Two halves of the limit around an object of the size of the limit. */
  lemma HalvesMerge(limits: Limits, limit: int, half: int, one: seq<int>, both: seq<int>, sizes: seq<int>)
    requires limits.maxBytes == limit == 2 * half && limits.maxObjects >= 2 && half % 512 == 0 && half > BASE + 512
    requires one == [half] && both == one + one && sizes == one + ([limit] + one)
    ensures Survivors(limits, limit, sizes) == both && !AllWithin(limits, limit, both)
  {
    OneObject(half);
    OneObject(limit);
    WeightOfParts(one, one);
    EstimateOfParts(one, one);
    PiecesSurvive(limits, limit, one, limit, one, sizes);
    OneChunkAlone(limits, limit, both);
  }

  lemma OneObject(size: int)
    requires size >= 0 && size % 512 == 0
    ensures Weight([size]) == size && PaddedSize(size) == size && Estimate([size]) == BASE + 512 + size
  {
    assert [size][..0] == [];
  }
}
