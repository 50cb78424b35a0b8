/**
 Greedy chunking of a group under a byte limit and an object limit, and why no other
 contiguous split does with fewer chunks. Both limits come from settings that accept
 positive values only.
 */
module Chunking {
  datatype Limits = Limits(maxBytes: nat, maxObjects: nat)

  predicate Usable(limits: Limits) {
    limits.maxBytes >= 1 && limits.maxObjects >= 1
  }

  function Clamped(size: int): nat {
    if size > 0 then size else 0
  }

  function Weight(sizes: seq<int>): nat {
    if sizes == [] then 0 else Weight(sizes[..|sizes| - 1]) + Clamped(sizes[|sizes| - 1])
  }

  /** The running totals of the chunk being filled. */
  class ArchiveChunkSizer {
    const limits: Limits
    var objectCount: nat
    var byteCount: nat

    constructor (limits: Limits)
      ensures this.limits == limits && objectCount == 0 && byteCount == 0
    {
      this.limits := limits;
      objectCount, byteCount := 0, 0;
    }

    ghost predicate Tracks(sizes: seq<int>)
      reads this
    {
      objectCount == |sizes| && byteCount == Weight(sizes)
    }

    predicate WouldOverflow(size: int)
      reads this
    {
      objectCount > 0 && (objectCount >= limits.maxObjects || byteCount + Clamped(size) > limits.maxBytes)
    }

    method Add(size: int)
      modifies this
      ensures forall sizes :: old(Tracks(sizes)) ==> Tracks(sizes + [size])
    {
      objectCount := objectCount + 1;
      byteCount := byteCount + Clamped(size);
      forall sizes | old(Tracks(sizes)) ensures Tracks(sizes + [size]) {
        assert (sizes + [size])[..|sizes|] == sizes;
      }
    }

    method Reset()
      modifies this
      ensures Tracks([])
    {
      objectCount, byteCount := 0, 0;
    }
  }

  // ----- The greedy split -----

  predicate Overflows(limits: Limits, chunk: seq<int>, size: int) {
    chunk != [] && (|chunk| >= limits.maxObjects || Weight(chunk) + Clamped(size) > limits.maxBytes)
  }

  /** How far a chunk already holding the first `taken` sizes is filled. */
  function Fill(limits: Limits, sizes: seq<int>, taken: nat): (filled: nat)
    requires taken <= |sizes|
    ensures taken <= filled <= |sizes|
    ensures sizes != [] ==> filled >= 1
    decreases |sizes| - taken
  {
    if taken == |sizes| || Overflows(limits, sizes[..taken], sizes[taken]) then taken
    else Fill(limits, sizes, taken + 1)
  }

  /** The lengths of the greedy chunks. */
  function Greedy(limits: Limits, sizes: seq<int>): seq<nat>
    decreases |sizes|
  {
    if sizes == [] then []
    else
      var n := Fill(limits, sizes, 0);
      [n] + Greedy(limits, sizes[n..])
  }

  // ----- What a split has to be -----

  /** A chunk within both limits, or a single object. */
  predicate Fits(limits: Limits, chunk: seq<int>) {
    |chunk| == 1 || (1 <= |chunk| <= limits.maxObjects && Weight(chunk) <= limits.maxBytes)
  }

  /** Non-empty contiguous chunks of the given lengths use up the sizes and all fit. */
  predicate ValidSplit(limits: Limits, sizes: seq<int>, lengths: seq<nat>)
    decreases |lengths|
  {
    if lengths == [] then sizes == []
    else
      && 1 <= lengths[0] <= |sizes|
      && Fits(limits, sizes[..lengths[0]])
      && ValidSplit(limits, sizes[lengths[0]..], lengths[1..])
  }

  lemma {:induction false} WeightOfParts(a: seq<int>, b: seq<int>)
    ensures Weight(a + b) == Weight(a) + Weight(b)
    decreases |b|
  {
    if b == [] {
      assert a + b == a;
    } else {
      assert (a + b)[..|a + b| - 1] == a + b[..|b| - 1];
      WeightOfParts(a, b[..|b| - 1]);
    }
  }

  lemma WeightOfSlice(sizes: seq<int>, i: nat, j: nat)
    requires i <= j <= |sizes|
    ensures Weight(sizes[i..j]) <= Weight(sizes)
  {
    var front := sizes[..j];
    assert front == sizes[..i] + sizes[i..j];
    WeightOfParts(sizes[..i], sizes[i..j]);
    assert sizes == front + sizes[j..];
    WeightOfParts(front, sizes[j..]);
  }

  lemma FitsInside(limits: Limits, chunk: seq<int>, i: nat, j: nat)
    requires Usable(limits) && Fits(limits, chunk) && i < j <= |chunk|
    ensures Fits(limits, chunk[i..j])
  {
    WeightOfSlice(chunk, i, j);
  }

  lemma {:induction false} FillFits(limits: Limits, sizes: seq<int>, taken: nat)
    requires Usable(limits) && sizes != [] && taken <= |sizes|
    requires taken > 0 ==> Fits(limits, sizes[..taken])
    ensures Fits(limits, sizes[..Fill(limits, sizes, taken)])
    decreases |sizes| - taken
  {
    if taken < |sizes| && !Overflows(limits, sizes[..taken], sizes[taken]) {
      var more := sizes[..taken + 1];
      assert more[..taken] == sizes[..taken];
      assert Weight(more) == Weight(sizes[..taken]) + Clamped(sizes[taken]);
      FillFits(limits, sizes, taken + 1);
    }
  }

  /** No fitting chunk at the front is longer than the greedy one. */
  lemma {:induction false} FillIsLongest(limits: Limits, sizes: seq<int>, taken: nat, n: nat)
    requires Usable(limits) && taken <= n <= |sizes| && Fits(limits, sizes[..n])
    ensures n <= Fill(limits, sizes, taken)
    decreases |sizes| - taken
  {
    if taken < n {
      var more := sizes[..n][..taken + 1];
      assert more == sizes[..taken + 1] && more[..taken] == sizes[..taken];
      WeightOfSlice(sizes[..n], 0, taken + 1);
      assert sizes[..n][0..taken + 1] == more;
      FillIsLongest(limits, sizes, taken + 1, n);
    }
  }

  /** The greedy split is one of the splits allowed. */
  lemma {:induction false} GreedyIsValid(limits: Limits, sizes: seq<int>)
    requires Usable(limits)
    ensures ValidSplit(limits, sizes, Greedy(limits, sizes))
    decreases |sizes|
  {
    if sizes != [] {
      var n := Fill(limits, sizes, 0);
      FillFits(limits, sizes, 0);
      GreedyIsValid(limits, sizes[n..]);
      assert Greedy(limits, sizes)[1..] == Greedy(limits, sizes[n..]);
    }
  }

  /** Starting later never takes more chunks. */
  lemma {:induction false} LaterStartNoMoreChunks(limits: Limits, sizes: seq<int>, k: nat)
    requires Usable(limits) && k <= |sizes|
    ensures |Greedy(limits, sizes[k..])| <= |Greedy(limits, sizes)|
    decreases |sizes|
  {
    if sizes != [] && 0 < k < |sizes| {
      var n := Fill(limits, sizes, 0);
      if k >= n {
        assert sizes[n..][k - n..] == sizes[k..];
        LaterStartNoMoreChunks(limits, sizes[n..], k - n);
      } else {
        var rest := sizes[k..];
        FillFits(limits, sizes, 0);
        FitsInside(limits, sizes[..n], k, n);
        assert sizes[..n][k..n] == rest[..n - k];
        FillIsLongest(limits, rest, 0, n - k);
        var m := Fill(limits, rest, 0);
        assert rest[m..] == sizes[n..][k + m - n..];
        LaterStartNoMoreChunks(limits, sizes[n..], k + m - n);
      }
    }
  }

  /** Optimality: every allowed split has at least as many chunks as the greedy one. */
  lemma {:induction false} GreedyIsShortest(limits: Limits, sizes: seq<int>, other: seq<nat>)
    requires Usable(limits) && ValidSplit(limits, sizes, other)
    ensures |Greedy(limits, sizes)| <= |other|
    decreases |other|
  {
    if sizes != [] {
      var n, m := Fill(limits, sizes, 0), other[0];
      FillIsLongest(limits, sizes, 0, m);
      GreedyIsShortest(limits, sizes[m..], other[1..]);
      assert sizes[m..][n - m..] == sizes[n..];
      LaterStartNoMoreChunks(limits, sizes[m..], n - m);
    }
  }
}
