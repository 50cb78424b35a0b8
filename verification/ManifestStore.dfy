/**
 The manifest store: its tables, the rebuild of the chunk table, and the removal of
 oversized chunks in place.
 */
module ManifestStore {
  import opened Manifest
  import opened GroupOrder
  import opened ManifestTables
  import opened Chunking
  import opened ChunkTable
  import opened SizePolicy

  /** A row of the skipped table, with the sizes its reason mentions. */
  datatype Skipped = Skipped(entry: Entry, estimatedSize: int, limit: int)

  // ----- Size policy -----

  function EntrySizes(entries: seq<Entry>): seq<int> {
    seq(|entries|, i requires 0 <= i < |entries| => entries[i].size)
  }

  /** The staging estimate, entry by entry. */
  method EstimatedArchiveSize(entries: seq<Entry>) returns (bytes: int)
    ensures bytes == Estimate(EntrySizes(entries))
  {
    var tarBytes := 1024;
    ghost var sizes := EntrySizes(entries);
    for i := 0 to |entries|
      invariant tarBytes + 1024 * 1024 == Estimate(sizes[..i])
    {
      assert sizes[..i + 1][..i] == sizes[..i];
      tarBytes := tarBytes + 512;
      tarBytes := tarBytes + PaddedSize(entries[i].size);
    }
    assert sizes[..|entries|] == sizes;
    bytes := tarBytes + 1024 * 1024;
  }

  // ----- The store -----

  class Store {
    var entries: Table
    var skipped: seq<Skipped>
    var chunks: seq<ChunkRow>
    var nextId: nat
    const limits: Limits

    ghost predicate Valid()
      reads this
    {
      && Usable(limits)
      && UniqueIds(entries)
      && forall row :: row in entries ==> row.id < nextId
    }

    /** The chunk table is the one a rebuild would compute. */
    ghost predicate Current()
      reads this
    {
      chunks == ChunksOf(limits, entries, GroupKeys(entries))
    }

    constructor (limits: Limits)
      requires Usable(limits)
      ensures Valid() && Current() && entries == [] && skipped == []
      ensures this.limits == limits
    {
      this.limits := limits;
      entries, skipped, chunks, nextId := [], [], [], 0;
    }

    method AddEntry(e: Entry)
      requires Valid()
      modifies this`entries, this`nextId
      ensures Valid()
      ensures entries == old(entries) + [Row(old(nextId), e)]
    {
      entries := entries + [Row(nextId, e)];
      nextId := nextId + 1;
    }

    /** Empty the chunk table and refill it, group by group. */
    method Commit()
      requires Valid()
      modifies this`chunks
      ensures Valid() && Current()
    {
      var keys := GroupKeys(entries);
      chunks := [];
      for k := 0 to |keys|
        invariant chunks == ChunksOf(limits, entries, keys[..k])
      {
        var found := GroupChunks(limits, keys[k], Ordered(entries, keys[k]));
        assert keys[..k + 1][..k] == keys[..k];
        chunks := chunks + found;
      }
      assert keys[..|keys|] == keys;
    }

    /** Move one chunk to the skipped table if its current view is estimated above the limit. */
    method DropChunkIfOversized(c: ChunkRow, limit: int, ghost count: nat) returns (dropped: bool)
      requires Valid()
      modifies this`entries, this`skipped
      ensures Valid()
      ensures DropOne(Tables(old(entries), old(skipped), count), c, limit)
           == Tables(entries, skipped, count + if dropped then 1 else 0)
    {
      var view := ViewEntries(entries, c);
      var estimated := EstimatedArchiveSize(view);
      if estimated <= limit {
        return false;
      }
      var slice := ChunkSlice(entries, c);
      Skip(slice, estimated, limit);
      WithoutSelects(entries, Ids(slice));
      entries := Without(entries, Ids(slice));
      return true;
    }

    /** Insert the rows into the skipped table, one by one. */
    method Skip(slice: seq<Row>, estimated: int, limit: int)
      modifies this`skipped
      ensures skipped == old(skipped) + SkippedWith(slice, estimated, limit)
    {
      for i := 0 to |slice|
        invariant skipped == old(skipped) + SkippedWith(slice, estimated, limit)[..i]
      {
        skipped := skipped + [Skipped(slice[i].entry, estimated, limit)];
      }
    }

    /** Visit the chunks from the last to the first. */
    method VisitChunks(chunkRows: seq<ChunkRow>, limit: int) returns (dropped: nat)
      requires Valid()
      modifies this`entries, this`skipped
      ensures Valid()
      ensures Tables(entries, skipped, dropped) == Walk(Tables(old(entries), old(skipped), 0), chunkRows, limit, 0)
    {
      ghost var before := Tables(entries, skipped, 0);
      dropped := 0;
      var i: nat := |chunkRows|;
      while i > 0
        invariant i <= |chunkRows| && Valid()
        invariant Tables(entries, skipped, dropped) == Walk(before, chunkRows, limit, i)
      {
        i := i - 1;
        var gone := DropChunkIfOversized(chunkRows[i], limit, dropped);
        if gone {
          dropped := dropped + 1;
        }
      }
    }

    /** Drop the oversized chunks, then rebuild if anything was dropped. */
    method DropOversizedChunks(limit: int) returns (dropped: nat)
      requires Valid() && Current()
      modifies this`entries, this`skipped, this`chunks
      ensures Valid() && Current()
      ensures Tables(entries, skipped, dropped) == Dropped(old(entries), old(skipped), old(chunks), limit, 0)
    {
      dropped := VisitChunks(chunks, limit);
      CurrentIsWellPlaced(limits, old(entries));
      WalkDropsAsListed(Tables(old(entries), old(skipped), 0), chunks, limit);
      if dropped > 0 {
        Commit();
      } else {
        NothingDropped(old(entries), chunks, limit, 0);
        WithoutNothing(old(entries));
      }
    }
  }

  // ----- The walk -----

  datatype Tables = Tables(entries: Table, skipped: seq<Skipped>, dropped: nat)

  function DropOne(t: Tables, c: ChunkRow, limit: int): Tables {
    if Oversized(t.entries, c, limit)
    then Tables(Without(t.entries, Ids(ChunkSlice(t.entries, c))), t.skipped + SkippedRows(t.entries, c, limit),
        t.dropped + 1)
    else t
  }

  /** Visits the items from position `from` on, last first. */
  function FoldBack<S, C>(step: (S, C) -> S, start: S, items: seq<C>, from: nat): S
    requires from <= |items|
    decreases |items| - from
  {
    if from == |items| then start else step(FoldBack(step, start, items, from + 1), items[from])
  }

  function Step(limit: int): (Tables, ChunkRow) -> Tables {
    (t, c) => DropOne(t, c, limit)
  }

  /** The tables after the chunks from position `from` on were visited, last first. */
  function Walk(before: Tables, chunks: seq<ChunkRow>, limit: int, from: nat): Tables
    requires from <= |chunks|
  {
    FoldBack(Step(limit), before, chunks, from)
  }

  // ----- Dropping in closed form, from the tables as they were -----

  /** The rows a chunk reads. */
  function ChunkSlice(table: Table, c: ChunkRow): seq<Row> {
    Limited(Ordered(table, c.group), c.offset, c.count)
  }

  predicate Oversized(table: Table, c: ChunkRow, limit: int) {
    Estimate(EntrySizes(ViewEntries(table, c))) > limit
  }

  function SkippedRows(table: Table, c: ChunkRow, limit: int): seq<Skipped> {
    SkippedWith(ChunkSlice(table, c), Estimate(EntrySizes(ViewEntries(table, c))), limit)
  }

  function SkippedWith(slice: seq<Row>, estimated: int, limit: int): seq<Skipped> {
    seq(|slice|, i requires 0 <= i < |slice| => Skipped(slice[i].entry, estimated, limit))
  }

  /** The oversized chunks from position `from` on, last first. */
  function OversizedChunks(table: Table, chunks: seq<ChunkRow>, limit: int, from: nat): seq<ChunkRow>
    requires from <= |chunks|
    decreases |chunks| - from
  {
    if from == |chunks| then []
    else OversizedChunks(table, chunks, limit, from + 1)
         + if Oversized(table, chunks[from], limit) then [chunks[from]] else []
  }

  function DroppedIds(table: Table, chunks: seq<ChunkRow>, limit: int, from: nat): set<nat>
    requires from <= |chunks|
    decreases |chunks| - from
  {
    if from == |chunks| then {}
    else DroppedIds(table, chunks, limit, from + 1)
         + if Oversized(table, chunks[from], limit) then Ids(ChunkSlice(table, chunks[from])) else {}
  }

  function DroppedRows(table: Table, chunks: seq<ChunkRow>, limit: int, from: nat): seq<Skipped>
    requires from <= |chunks|
    decreases |chunks| - from
  {
    if from == |chunks| then []
    else DroppedRows(table, chunks, limit, from + 1)
         + if Oversized(table, chunks[from], limit) then SkippedRows(table, chunks[from], limit) else []
  }

  /** What is left and what is skipped, from the chunks that were oversized beforehand. */
  function Dropped(entries: Table, skipped: seq<Skipped>, chunks: seq<ChunkRow>, limit: int, from: nat): Tables
    requires from <= |chunks|
  {
    Tables(Without(entries, DroppedIds(entries, chunks, limit, from)),
           skipped + DroppedRows(entries, chunks, limit, from),
           |OversizedChunks(entries, chunks, limit, from)|)
  }

  // ----- A deletion higher up does not move a slice below -----

  lemma WithoutNothing(table: Table)
    ensures Without(table, {}) == table
  {
  }

  lemma {:induction false} NothingDropped(table: Table, chunks: seq<ChunkRow>, limit: int, from: nat)
    requires from <= |chunks| && OversizedChunks(table, chunks, limit, from) == []
    ensures DroppedIds(table, chunks, limit, from) == {} && DroppedRows(table, chunks, limit, from) == []
    decreases |chunks| - from
  {
    hide Oversized, ChunkSlice, SkippedRows;
    if from < |chunks| {
      NothingDropped(table, chunks, limit, from + 1);
    }
  }

  /** Ids dropped from position `from` on belong to slices at these positions. */
  lemma {:induction false} DroppedIdsAreInSlices(table: Table, chunks: seq<ChunkRow>, limit: int, from: nat, id: nat)
    returns (at: nat)
    requires from <= |chunks| && id in DroppedIds(table, chunks, limit, from)
    ensures from <= at < |chunks| && Oversized(table, chunks[at], limit) && id in Ids(ChunkSlice(table, chunks[at]))
    decreases |chunks| - from
  {
    if Oversized(table, chunks[from], limit) && id in Ids(ChunkSlice(table, chunks[from])) {
      at := from;
    } else {
      at := DroppedIdsAreInSlices(table, chunks, limit, from + 1, id);
    }
  }

  lemma LowerSliceUnmoved(table: Table, chunks: seq<ChunkRow>, limit: int, i: nat)
    requires UniqueIds(table) && WellPlaced(table, chunks) && i < |chunks|
    ensures ChunkSlice(Without(table, DroppedIds(table, chunks, limit, i + 1)), chunks[i])
              == ChunkSlice(table, chunks[i])
  {
    var c, ids := chunks[i], DroppedIds(table, chunks, limit, i + 1);
    var rows := Ordered(table, c.group);
    OrderedIsQuery(table, c.group);
    forall k | 0 <= k < c.offset + c.count ensures rows[k].id !in ids {
      if rows[k].id in ids {
        var at := DroppedIdsAreInSlices(table, chunks, limit, i + 1, rows[k].id);
        OtherSlice(table, c, chunks[at], k);
      }
    }
    SliceStays(table, ids, c.group, c.offset, c.count);
  }

  /** A chunk whose slice is unmoved: the current view decides and skips as the original one did. */
  lemma SameVerdict(table: Table, later: Table, c: ChunkRow, limit: int)
    requires ChunkSlice(later, c) == ChunkSlice(table, c)
    ensures Oversized(later, c, limit) == Oversized(table, c, limit)
              && SkippedRows(later, c, limit) == SkippedRows(table, c, limit)
  {
  }

  lemma DropOneForms(t: Tables, c: ChunkRow, limit: int, slice: seq<Row>, over: bool, rows: seq<Skipped>)
    requires ChunkSlice(t.entries, c) == slice && Oversized(t.entries, c, limit) == over
               && SkippedRows(t.entries, c, limit) == rows
    ensures DropOne(t, c, limit)
         == if over then Tables(Without(t.entries, Ids(slice)), t.skipped + rows, t.dropped + 1) else t
  {
  }

  lemma DroppedForms(table: Table, skipped: seq<Skipped>, chunks: seq<ChunkRow>, limit: int, i: nat, over: bool)
    requires i < |chunks| && Oversized(table, chunks[i], limit) == over
    ensures var ids, later := DroppedIds(table, chunks, limit, i + 1), Dropped(table, skipped, chunks, limit, i + 1);
            && later.entries == Without(table, ids)
            && Dropped(table, skipped, chunks, limit, i) ==
               if over
               then Tables(Without(table, ids + Ids(ChunkSlice(table, chunks[i]))),
                           later.skipped + SkippedRows(table, chunks[i], limit), later.dropped + 1)
               else later
  {
    hide Oversized, SkippedRows, ChunkSlice, Without, Ids;
    var ids, rows, over' := DroppedIds(table, chunks, limit, i + 1), DroppedRows(table, chunks, limit, i + 1),
        OversizedChunks(table, chunks, limit, i + 1);
    assert ids + {} == ids && rows + [] == rows && over' + [] == over';
    assert skipped + (rows + SkippedRows(table, chunks[i], limit))
        == (skipped + rows) + SkippedRows(table, chunks[i], limit);
  }

  /** One turn of the walk. */
  lemma DropStep(table: Table, skipped: seq<Skipped>, chunks: seq<ChunkRow>, limit: int, i: nat)
    requires UniqueIds(table) && WellPlaced(table, chunks) && i < |chunks|
    ensures DropOne(Dropped(table, skipped, chunks, limit, i + 1), chunks[i], limit)
              == Dropped(table, skipped, chunks, limit, i)
  {
    var ids, c := DroppedIds(table, chunks, limit, i + 1), chunks[i];
    var over, slice := Oversized(table, c, limit), ChunkSlice(table, c);
    LowerSliceUnmoved(table, chunks, limit, i);
    SameVerdict(table, Without(table, ids), c, limit);
    DroppedForms(table, skipped, chunks, limit, i, over);
    DropOneForms(Dropped(table, skipped, chunks, limit, i + 1), c, limit, slice, over, SkippedRows(table, c, limit));
    WithoutTwice(table, ids, Ids(slice));
  }

  /** The walk over changing tables drops exactly the chunks that were oversized beforehand. */
  lemma WalkDropsAsListed(before: Tables, chunks: seq<ChunkRow>, limit: int)
    requires UniqueIds(before.entries) && before.dropped == 0 && WellPlaced(before.entries, chunks)
    ensures Walk(before, chunks, limit, 0) == Dropped(before.entries, before.skipped, chunks, limit, 0)
  {
    var states := seq(|chunks| + 1,
        i requires 0 <= i <= |chunks| => Dropped(before.entries, before.skipped, chunks, limit, i));
    WithoutNothing(before.entries);
    assert states[|chunks|] == before;
    forall i | 0 <= i < |chunks| ensures Follows(Step(limit), states, chunks, i) {
      DropStep(before.entries, before.skipped, chunks, limit, i);
    }
    FoldFollows(Step(limit), states, chunks, 0);
  }

  predicate Follows<S(==), C>(step: (S, C) -> S, states: seq<S>, items: seq<C>, i: nat)
    requires i < |items| < |states|
  {
    states[i] == step(states[i + 1], items[i])
  }

  lemma {:induction false} FoldFollows<S, C>(step: (S, C) -> S, states: seq<S>, items: seq<C>, from: nat)
    requires |states| == |items| + 1 && from <= |items|
    requires forall i :: 0 <= i < |items| ==> Follows(step, states, items, i)
    ensures FoldBack(step, states[|items|], items, from) == states[from]
    decreases |items| - from
  {
    if from < |items| {
      FoldFollows(step, states, items, from + 1);
      assert Follows(step, states, items, from);
    }
  }

  lemma SliceHasPlace(table: Table, d: ChunkRow, id: nat) returns (m: nat)
    requires d.offset + d.count <= |Ordered(table, d.group)| && id in Ids(ChunkSlice(table, d))
    ensures d.offset <= m < |Ordered(table, d.group)| && Ordered(table, d.group)[m].id == id
  {
    var other :| other in ChunkSlice(table, d) && other.id == id;
    var k :| 0 <= k < |ChunkSlice(table, d)| && ChunkSlice(table, d)[k] == other;
    m := d.offset + k;
  }

  /** A row of the prefix a chunk ends is in no slice of another group or of a later chunk. */
  lemma OtherSlice(table: Table, c: ChunkRow, d: ChunkRow, k: nat)
    requires UniqueIds(table)
    requires c.offset + c.count <= |Ordered(table, c.group)| && d.offset + d.count <= |Ordered(table, d.group)|
    requires c.group == d.group ==> c.offset + c.count <= d.offset
    requires k < c.offset + c.count
    ensures Ordered(table, c.group)[k].id !in Ids(ChunkSlice(table, d))
  {
    if Ordered(table, c.group)[k].id in Ids(ChunkSlice(table, d)) {
      var m := SliceHasPlace(table, d, Ordered(table, c.group)[k].id);
      PlacesDiffer(table, c.group, k, d.group, m);
    }
  }

  /** Rows at different places of ordered groups have different ids. */
  lemma PlacesDiffer(table: Table, g: GroupKey, k: nat, h: GroupKey, m: nat)
    requires UniqueIds(table) && k < |Ordered(table, g)| && m < |Ordered(table, h)|
    requires g == h ==> k < m
    ensures Ordered(table, g)[k].id != Ordered(table, h)[m].id
  {
    var a, b := Ordered(table, g)[k], Ordered(table, h)[m];
    OrderedIsQuery(table, g);
    OrderedIsQuery(table, h);
    assert a in Ordered(table, g) && b in Ordered(table, h);
    if a.id == b.id {
      SameIdSameRow(table, a, b);
      BeforeAsymmetric(a, b);
    }
  }
}
