/**
 What the manifest store guarantees: chunk views are slices, chunks partition the grouped
 rows, dropping conserves rows, and when dropping leaves the other chunks as they were.
 */
module ManifestFacts {
  import opened Wrappers
  import opened Manifest
  import opened GroupOrder
  import opened ManifestTables
  import opened Chunking
  import opened ChunkTable
  import opened ManifestStore
  import opened SizePolicy
  import CopyTask
  import NoLoss

  // ----- Views -----

  /**
   A chunk's lazy view, by iteration and by index from either end, is its slice of the
   ordered group with rewritten keys, and its digest is the digest stored at chunk time.
   */
  lemma ViewsAreSlices(table: Table, c: ChunkRow)
    requires Reads(Ordered(table, c.group), c)
    ensures |ViewEntries(table, c)| == c.count
    ensures c.digest == OfRows(RowsOf(ViewEntries(table, c)))
    ensures forall i :: 0 <= i < c.count ==>
              && ViewEntries(table, c)[i] == ChunkEntry(Ordered(table, c.group)[c.offset + i].entry, c.index)
              && ViewAt(table, c, i) == Some(ViewEntries(table, c)[i])
              && ViewAt(table, c, i - c.count) == Some(ViewEntries(table, c)[i])
    ensures forall i :: i + c.count < 0 || i >= c.count ==> ViewAt(table, c, i) == None
  {
    var rows := Ordered(table, c.group);
    assert ChunkSlice(table, c) == rows[c.offset..c.offset + c.count];
    forall i | 0 <= i < c.count
      ensures ViewAt(table, c, i) == Some(ViewEntries(table, c)[i]) == ViewAt(table, c, i - c.count)
      ensures ViewEntries(table, c)[i] == ChunkEntry(rows[c.offset + i].entry, c.index)
    {
      ViewAtPlace(table, c, rows, i);
    }
  }

  lemma ViewAtPlace(table: Table, c: ChunkRow, rows: seq<Row>, i: nat)
    requires rows == Ordered(table, c.group) && i < c.count && c.offset + c.count <= |rows|
    ensures ViewAt(table, c, i) == Some(ChunkEntry(rows[c.offset + i].entry, c.index)) == ViewAt(table, c, i - c.count)
  {
    assert Limited(rows, c.offset + i, 1) == [rows[c.offset + i]];
    assert c.count + (i - c.count) == i;
  }

  /** The group handed to the copy phase records its own digest and count, at its own address. */
  lemma ChunkGroupsAreOk(limits: Limits, table: Table, i: nat)
    requires UniqueIds(table) && i < |ChunksOf(limits, table, GroupKeys(table))|
    ensures var g := GroupFromChunkRow(table, ChunksOf(limits, table, GroupKeys(table))[i]);
            NoLoss.GroupOk(g) && CopyTask.SourceCount(g) == |g.entries|
  {
    var chunks := ChunksOf(limits, table, GroupKeys(table));
    var c := chunks[i];
    TableReads(limits, table, GroupKeys(table), chunks, i);
    ViewsAreSlices(table, c);
    OrderedIsQuery(table, c.group);
    var g := GroupFromChunkRow(table, c);
    forall e | e in g.entries
      ensures e.destinationArchiveKey == g.address.name && e.destinationBucket == g.address.bucket
    {
      var k :| 0 <= k < c.count && g.entries[k] == e;
      assert Ordered(table, c.group)[c.offset + k] in Ordered(table, c.group);
    }
  }

  // ----- The partition -----

  function RowsRead(table: Table, chunks: seq<ChunkRow>): seq<Row> {
    if chunks == [] then [] else ChunkSlice(table, chunks[0]) + RowsRead(table, chunks[1..])
  }

  function GroupRows(table: Table, keys: seq<GroupKey>): seq<Row> {
    if keys == [] then [] else GroupRows(table, keys[..|keys| - 1]) + Ordered(table, keys[|keys| - 1])
  }

  lemma {:induction false} RowsReadAppend(table: Table, a: seq<ChunkRow>, b: seq<ChunkRow>)
    ensures RowsRead(table, a + b) == RowsRead(table, a) + RowsRead(table, b)
    decreases |a|
  {
    if a == [] {
      assert a + b == b;
    } else {
      assert (a + b)[1..] == a[1..] + b;
      RowsReadAppend(table, a[1..], b);
    }
  }

  /** The chunks of a group, in order, read its rows from the offset on, in order. */
  lemma ChunksTileGroup(limits: Limits, table: Table, g: GroupKey, offset: nat, index: nat)
    requires offset <= |Ordered(table, g)|
    ensures RowsRead(table, ChunksFrom(limits, g, Ordered(table, g), offset, index)) == Ordered(table, g)[offset..]
  {
    TilesFrom(limits, table, g, Ordered(table, g), offset, index);
  }

  lemma {:induction false} TilesFrom(limits: Limits, table: Table, g: GroupKey, rows: seq<Row>, offset: nat, index: nat)
    requires rows == Ordered(table, g) && offset <= |rows|
    ensures RowsRead(table, ChunksFrom(limits, g, rows, offset, index)) == rows[offset..]
    decreases |rows| - offset
  {
    hide ChunkOf, Fill, ChunkSlice, Ordered;
    if offset < |rows| {
      var n, later := FirstChunk(limits, g, rows, offset, index, ChunksFrom(limits, g, rows, offset, index));
      TilesFrom(limits, table, g, rows, offset + n, index + 1);
      FirstChunkReads(table, g, rows, offset, n, index, later);
    }
  }

  lemma FirstChunkReads(table: Table, g: GroupKey, rows: seq<Row>, offset: nat, n: nat, index: nat,
                        later: seq<ChunkRow>)
    requires rows == Ordered(table, g) && n >= 1 && offset + n <= |rows|
    requires RowsRead(table, later) == rows[offset + n..]
    ensures RowsRead(table, [ChunkOf(g, rows[offset..offset + n], offset, index)] + later) == rows[offset..]
  {
    hide ChunkOf, ChunkSlice, Ordered;
    var c := ChunkOf(g, rows[offset..offset + n], offset, index);
    assert ([c] + later)[0] == c && ([c] + later)[1..] == later;
    SliceRead(table, g, rows, offset, n, index);
    assert rows[offset..] == rows[offset..offset + n] + rows[offset + n..];
  }

  lemma SliceRead(table: Table, g: GroupKey, rows: seq<Row>, offset: nat, n: nat, index: nat)
    requires rows == Ordered(table, g) && n >= 1 && offset + n <= |rows|
    ensures ChunkSlice(table, ChunkOf(g, rows[offset..offset + n], offset, index)) == rows[offset..offset + n]
  {
  }

  lemma {:induction false} ChunksTileGroups(limits: Limits, table: Table, keys: seq<GroupKey>)
    ensures RowsRead(table, ChunksOf(limits, table, keys)) == GroupRows(table, keys)
    decreases |keys|
  {
    if keys != [] {
      var g, rest := keys[|keys| - 1], keys[..|keys| - 1];
      ChunksTileGroups(limits, table, rest);
      ChunksTileGroup(limits, table, g, 0, 1);
      RowsReadAppend(table, ChunksOf(limits, table, rest), ChunksFrom(limits, g, Ordered(table, g), 0, 1));
    }
  }

  lemma AscendingHasUniqueIds(table: Table, g: GroupKey)
    requires UniqueIds(table)
    ensures UniqueIds(Ordered(table, g))
  {
    var rows := Ordered(table, g);
    OrderedIsQuery(table, g);
    forall i, j | 0 <= i < j < |rows| ensures rows[i].id != rows[j].id {
      BeforeAsymmetric(rows[i], rows[j]);
      if rows[i].id == rows[j].id {
        SameIdSameRow(table, rows[i], rows[j]);
      }
    }
  }

  lemma {:induction false} GroupRowsOnce(table: Table, keys: seq<GroupKey>, row: Row)
    requires UniqueIds(table) && Distinct(keys)
    ensures multiset(GroupRows(table, keys))[row] == if row in table && GroupOf(row.entry) in keys then 1 else 0
    decreases |keys|
  {
    if keys != [] {
      var g, rest := keys[|keys| - 1], keys[..|keys| - 1];
      GroupRowsOnce(table, rest, row);
      OrderedIsQuery(table, g);
      AscendingHasUniqueIds(table, g);
      Once(Ordered(table, g), row);
      assert keys == rest + [g];
    }
  }

  /** Every grouped row is read by exactly one chunk, exactly once; no other row is read. */
  lemma ChunksPartitionRows(limits: Limits, table: Table, row: Row)
    requires UniqueIds(table)
    ensures multiset(RowsRead(table, ChunksOf(limits, table, GroupKeys(table))))[row]
         == if row in table && Grouped(row.entry) then 1 else 0
  {
    GroupKeysAreDistinct(table);
    ChunksTileGroups(limits, table, GroupKeys(table));
    GroupRowsOnce(table, GroupKeys(table), row);
    if GroupOf(row.entry) in GroupKeys(table) {
      var other :| other in table && Grouped(other.entry) && GroupOf(other.entry) == GroupOf(row.entry);
    }
  }

  // ----- Dropping conserves -----

  /** The rows of the oversized chunks from position `from` on, in the order they are skipped. */
  function DroppedSlices(table: Table, chunks: seq<ChunkRow>, limit: int, from: nat): seq<Row>
    requires from <= |chunks|
    decreases |chunks| - from
  {
    if from == |chunks| then []
    else DroppedSlices(table, chunks, limit, from + 1)
         + if Oversized(table, chunks[from], limit) then ChunkSlice(table, chunks[from]) else []
  }

  function EntriesSkipped(skipped: seq<Skipped>): seq<Entry> {
    seq(|skipped|, i requires 0 <= i < |skipped| => skipped[i].entry)
  }

  function EntriesOf(rows: seq<Row>): seq<Entry> {
    seq(|rows|, i requires 0 <= i < |rows| => rows[i].entry)
  }

  lemma {:induction false} SkippedAreSlices(table: Table, chunks: seq<ChunkRow>, limit: int, from: nat)
    requires from <= |chunks|
    ensures EntriesSkipped(DroppedRows(table, chunks, limit, from))
              == EntriesOf(DroppedSlices(table, chunks, limit, from))
    decreases |chunks| - from
  {
    if from < |chunks| {
      SkippedAreSlices(table, chunks, limit, from + 1);
      var skipped, rows := DroppedRows(table, chunks, limit, from + 1), DroppedSlices(table, chunks, limit, from + 1);
      OneChunkSkipped(skipped, rows, table, chunks[from], limit);
      assert skipped + [] == skipped && rows + [] == rows;
    }
  }

  lemma OneChunkSkipped(skipped: seq<Skipped>, rows: seq<Row>, table: Table, c: ChunkRow, limit: int)
    requires EntriesSkipped(skipped) == EntriesOf(rows)
    ensures EntriesSkipped(skipped + SkippedRows(table, c, limit)) == EntriesOf(rows + ChunkSlice(table, c))
  {
    SkippedEntries(ChunkSlice(table, c), Estimate(EntrySizes(ViewEntries(table, c))), limit);
    EntriesSkippedJoin(skipped, SkippedRows(table, c, limit));
    EntriesOfJoin(rows, ChunkSlice(table, c));
  }

  lemma SkippedEntries(slice: seq<Row>, estimated: int, limit: int)
    ensures EntriesSkipped(SkippedWith(slice, estimated, limit)) == EntriesOf(slice)
  {
  }

  lemma EntriesOfJoin(a: seq<Row>, b: seq<Row>)
    ensures EntriesOf(a + b) == EntriesOf(a) + EntriesOf(b)
  {
  }

  lemma {:induction false} DroppedIdsAreIds(table: Table, chunks: seq<ChunkRow>, limit: int, from: nat)
    requires from <= |chunks|
    ensures Ids(DroppedSlices(table, chunks, limit, from)) == DroppedIds(table, chunks, limit, from)
    decreases |chunks| - from
  {
    hide Oversized, ChunkSlice, Ids;
    if from == |chunks| {
      NoIds();
    } else {
      DroppedIdsAreIds(table, chunks, limit, from + 1);
      var rows := DroppedSlices(table, chunks, limit, from + 1);
      if Oversized(table, chunks[from], limit) {
        IdsOfJoin(rows, ChunkSlice(table, chunks[from]));
      } else {
        assert rows + [] == rows;
      }
    }
  }

  lemma NoIds()
    ensures Ids([]) == {}
  {
  }

  lemma IdsOfJoin(a: seq<Row>, b: seq<Row>)
    ensures Ids(a + b) == Ids(a) + Ids(b)
  {
  }

  lemma SliceRows(table: Table, c: ChunkRow)
    requires UniqueIds(table) && Reads(Ordered(table, c.group), c)
    ensures Picked(table, ChunkSlice(table, c))
  {
    var rows := Ordered(table, c.group);
    AscendingHasUniqueIds(table, c.group);
    OrderedIsQuery(table, c.group);
    assert ChunkSlice(table, c) == rows[c.offset..c.offset + c.count];
    forall row | row in ChunkSlice(table, c) ensures row in table {
      assert row in rows;
    }
  }

  /** Distinct rows of the table. */
  ghost predicate Picked(table: Table, rows: seq<Row>) {
    UniqueIds(rows) && forall row :: row in rows ==> row in table
  }

  lemma {:induction false} DroppedSlicesAreDistinct(table: Table, chunks: seq<ChunkRow>, limit: int, from: nat)
    requires UniqueIds(table) && WellPlaced(table, chunks) && from <= |chunks|
    ensures Picked(table, DroppedSlices(table, chunks, limit, from))
    decreases |chunks| - from
  {
    hide Oversized, ChunkSlice, Ids;
    if from < |chunks| {
      DroppedSlicesAreDistinct(table, chunks, limit, from + 1);
      var rows := DroppedSlices(table, chunks, limit, from + 1);
      if Oversized(table, chunks[from], limit) {
        SliceRows(table, chunks[from]);
        SliceIsApart(table, chunks, limit, from);
        JoinPicked(table, rows, ChunkSlice(table, chunks[from]));
      } else {
        assert rows + [] == rows;
      }
    }
  }

  /** A chunk's slice shares no row with the slices dropped behind it. */
  lemma SliceIsApart(table: Table, chunks: seq<ChunkRow>, limit: int, i: nat)
    requires UniqueIds(table) && WellPlaced(table, chunks) && i < |chunks|
    ensures forall row :: row in ChunkSlice(table, chunks[i]) ==>
              row.id !in Ids(DroppedSlices(table, chunks, limit, i + 1))
  {
    DroppedIdsAreIds(table, chunks, limit, i + 1);
    forall row | row in ChunkSlice(table, chunks[i]) ensures row.id !in DroppedIds(table, chunks, limit, i + 1) {
      if row.id in DroppedIds(table, chunks, limit, i + 1) {
        var at := DroppedIdsAreInSlices(table, chunks, limit, i + 1, row.id);
        SlicesApart(table, chunks[i], chunks[at], row);
      }
    }
  }

  lemma SlicesApart(table: Table, c: ChunkRow, d: ChunkRow, row: Row)
    requires UniqueIds(table) && Reads(Ordered(table, c.group), c) && Reads(Ordered(table, d.group), d)
    requires Precedes(c, d) && row in ChunkSlice(table, c)
    ensures row.id !in Ids(ChunkSlice(table, d))
  {
    var k :| 0 <= k < |ChunkSlice(table, c)| && ChunkSlice(table, c)[k] == row;
    OtherSlice(table, c, d, c.offset + k);
  }

  lemma JoinPicked(table: Table, a: seq<Row>, b: seq<Row>)
    requires Picked(table, a) && Picked(table, b)
    requires forall row :: row in b ==> row.id !in Ids(a)
    ensures Picked(table, a + b)
  {
    forall i, j | 0 <= i < j < |a + b| ensures (a + b)[i].id != (a + b)[j].id {
      if i < |a| <= j {
        assert a[i] in a && a[i].id in Ids(a);
        assert b[j - |a|] in b;
      }
    }
  }

  lemma EntriesSkippedJoin(a: seq<Skipped>, b: seq<Skipped>)
    ensures EntriesSkipped(a + b) == EntriesSkipped(a) + EntriesSkipped(b)
  {
  }

  lemma PlacedDropConserves(table: Table, skipped: seq<Skipped>, chunks: seq<ChunkRow>, limit: int)
    requires UniqueIds(table) && WellPlaced(table, chunks)
    ensures var gone := DroppedSlices(table, chunks, limit, 0);
            && multiset(table) == multiset(Without(table, DroppedIds(table, chunks, limit, 0))) + multiset(gone)
            && EntriesSkipped(skipped + DroppedRows(table, chunks, limit, 0))
                == EntriesSkipped(skipped) + EntriesOf(gone)
  {
    DroppedSlicesAreDistinct(table, chunks, limit, 0);
    SkippedAreSlices(table, chunks, limit, 0);
    DroppedIdsAreIds(table, chunks, limit, 0);
    PickedConserves(table, DroppedSlices(table, chunks, limit, 0));
    EntriesSkippedJoin(skipped, DroppedRows(table, chunks, limit, 0));
  }

  lemma PickedConserves(table: Table, gone: seq<Row>)
    requires UniqueIds(table) && Picked(table, gone)
    ensures multiset(table) == multiset(Without(table, Ids(gone))) + multiset(gone)
  {
    DeleteConserves(table, gone);
  }

  /**
   Dropping conserves: the rows before are the rows left plus the rows of the chunks that
   were oversized, each once, and exactly the entries of the latter were added to skipped.
   */
  lemma DropConserves(limits: Limits, table: Table, skipped: seq<Skipped>, limit: int)
    requires UniqueIds(table)
    ensures var chunks := ChunksOf(limits, table, GroupKeys(table));
            var gone, after := DroppedSlices(table, chunks, limit, 0), Dropped(table, skipped, chunks, limit, 0);
            && multiset(table) == multiset(after.entries) + multiset(gone)
            && EntriesSkipped(after.skipped) == EntriesSkipped(skipped) + EntriesOf(gone)
  {
    CurrentIsWellPlaced(limits, table);
    PlacedDropConserves(table, skipped, ChunksOf(limits, table, GroupKeys(table)), limit);
  }

  // ----- What is left of a group, and its new chunks -----

  lemma SameSizes(table: Table, c: ChunkRow)
    ensures EntrySizes(ViewEntries(table, c)) == Sizes(ChunkSlice(table, c))
  {
  }

  /** A row of a chunk is dropped exactly when its chunk was oversized. */
  lemma DroppedWithItsChunk(table: Table, chunks: seq<ChunkRow>, limit: int, i: nat, row: Row)
    requires UniqueIds(table) && WellPlaced(table, chunks)
    requires i < |chunks| && row in ChunkSlice(table, chunks[i])
    ensures row.id in DroppedIds(table, chunks, limit, 0) <==> Oversized(table, chunks[i], limit)
  {
    if row.id in DroppedIds(table, chunks, limit, 0) {
      var at := DroppedIdsAreInSlices(table, chunks, limit, 0, row.id);
      if i < at {
        SlicesApart(table, chunks[i], chunks[at], row);
      } else if at < i {
        var other :| other in ChunkSlice(table, chunks[at]) && other.id == row.id;
        SlicesApart(table, chunks[at], chunks[i], other);
      }
    }
    if Oversized(table, chunks[i], limit) {
      OversizedIdsAreDropped(table, chunks, limit, 0, i);
    }
  }

  lemma {:induction false} OversizedIdsAreDropped(table: Table, chunks: seq<ChunkRow>, limit: int, from: nat, i: nat)
    requires from <= i < |chunks| && Oversized(table, chunks[i], limit)
    ensures Ids(ChunkSlice(table, chunks[i])) <= DroppedIds(table, chunks, limit, from)
    decreases i - from
  {
    hide Oversized, ChunkSlice, Ids;
    if from < i {
      OversizedIdsAreDropped(table, chunks, limit, from + 1, i);
    }
  }

  lemma {:induction false} WithoutJoin(a: seq<Row>, b: seq<Row>, ids: set<nat>)
    ensures Without(a + b, ids) == Without(a, ids) + Without(b, ids)
    decreases |a|
  {
    if a == [] {
      assert a + b == b;
    } else {
      assert (a + b)[1..] == a[1..] + b;
      WithoutJoin(a[1..], b, ids);
    }
  }

  lemma {:induction false} WithoutAllOrNone(rows: seq<Row>, ids: set<nat>, gone: bool)
    requires forall row :: row in rows ==> (row.id in ids <==> gone)
    ensures Without(rows, ids) == if gone then [] else rows
  {
    if rows != [] {
      assert rows[0] in rows;
      WithoutAllOrNone(rows[1..], ids, gone);
    }
  }

  /** All rows of a chunk are among the ids, or none, as the chunk is oversized or not. */
  ghost predicate Uniform(table: Table, c: ChunkRow, limit: int, ids: set<nat>) {
    forall row :: row in ChunkSlice(table, c) ==> (row.id in ids <==> Oversized(table, c, limit))
  }

  /** The rows from an offset on are the slice of the first chunk and what the chunks behind it read. */
  lemma FirstAndRest(limits: Limits, table: Table, g: GroupKey, rows: seq<Row>, offset: nat, index: nat,
                     tail: seq<Row>, chunks: seq<ChunkRow>)
    returns (slice: seq<Row>, rest: seq<Row>)
    requires rows == Ordered(table, g) && offset < |rows| && tail == rows[offset..]
    requires chunks == ChunksFrom(limits, g, rows, offset, index)
    ensures slice != [] && tail == slice + rest && offset + |slice| <= |rows| && rest == rows[offset + |slice|..]
    ensures Fill(limits, Sizes(slice + rest), 0) == |slice|
    ensures chunks != [] && ChunkSlice(table, chunks[0]) == slice
    ensures chunks[1..] == ChunksFrom(limits, g, rows, offset + |slice|, index + 1)
  {
    hide ChunksFrom, Fill;
    var n, later := FirstChunk(limits, g, rows, offset, index, chunks);
    slice, rest := rows[offset..offset + n], rows[offset + n..];
    assert tail == slice + rest;
  }

  /** The greedy pieces of some rows. */
  predicate Cuts(limits: Limits, tail: seq<Row>, pieces: seq<seq<Row>>) {
    if pieces == [] then tail == []
    else
      && 0 < |pieces[0]| <= |tail| && pieces[0] == tail[..|pieces[0]|]
      && Fill(limits, Sizes(tail), 0) == |pieces[0]|
      && Cuts(limits, tail[|pieces[0]|..], pieces[1..])
  }

  /** The ids are those of all rows of an oversized piece, and of no row of another. */
  predicate Whole(limit: int, piece: seq<Row>, ids: set<nat>) {
    Without(piece, ids) == if Estimate(Sizes(piece)) > limit then [] else piece
  }

  ghost predicate AllWhole(limit: int, pieces: seq<seq<Row>>, ids: set<nat>) {
    forall k :: 0 <= k < |pieces| ==> Whole(limit, pieces[k], ids)
  }

  lemma {:induction false} ChunksCut(limits: Limits, table: Table, g: GroupKey, rows: seq<Row>, offset: nat,
                                     index: nat, chunks: seq<ChunkRow>)
    returns (pieces: seq<seq<Row>>)
    requires rows == Ordered(table, g) && offset <= |rows| && chunks == ChunksFrom(limits, g, rows, offset, index)
    ensures Cuts(limits, rows[offset..], pieces)
    ensures |pieces| == |chunks| && forall k :: 0 <= k < |chunks| ==> pieces[k] == ChunkSlice(table, chunks[k])
    decreases |rows| - offset
  {
    hide ChunkSlice, Fill;
    if offset == |rows| {
      pieces := [];
    } else {
      var tail := rows[offset..];
      var slice, rest := FirstAndRest(limits, table, g, rows, offset, index, tail, chunks);
      var later := ChunksCut(limits, table, g, rows, offset + |slice|, index + 1, chunks[1..]);
      pieces := [slice] + later;
      assert tail[..|slice|] == slice && tail[|slice|..] == rest && pieces[1..] == later;
    }
  }

  lemma ChunkIsWhole(table: Table, c: ChunkRow, limit: int, ids: set<nat>)
    requires Uniform(table, c, limit, ids)
    ensures Whole(limit, ChunkSlice(table, c), ids)
  {
    SameSizes(table, c);
    WithoutAllOrNone(ChunkSlice(table, c), ids, Oversized(table, c, limit));
  }

  /** The rows left when the oversized greedy pieces are dropped. */
  function SurvivingRows(limits: Limits, limit: int, rows: seq<Row>): seq<Row>
    decreases |rows|
  {
    if rows == [] then []
    else
      var n := Fill(limits, Sizes(rows), 0);
      (if Estimate(Sizes(rows[..n])) <= limit then rows[..n] else []) + SurvivingRows(limits, limit, rows[n..])
  }

  lemma SurvivingRowsOfJoin(limits: Limits, limit: int, slice: seq<Row>, rest: seq<Row>)
    requires slice != [] && Fill(limits, Sizes(slice + rest), 0) == |slice|
    ensures SurvivingRows(limits, limit, slice + rest)
         == (if Estimate(Sizes(slice)) <= limit then slice else []) + SurvivingRows(limits, limit, rest)
  {
    assert (slice + rest)[..|slice|] == slice && (slice + rest)[|slice|..] == rest;
  }

  /** What deleting whole pieces leaves are the surviving rows. */
  lemma {:induction false} CutsLeaveSurvivors(limits: Limits, limit: int, tail: seq<Row>, pieces: seq<seq<Row>>,
                                              ids: set<nat>)
    requires Cuts(limits, tail, pieces) && AllWhole(limit, pieces, ids)
    ensures Without(tail, ids) == SurvivingRows(limits, limit, tail)
    decreases |pieces|
  {
    hide AllWhole, Sizes, Fill, Estimate;
    if pieces != [] {
      var slice, rest := pieces[0], tail[|pieces[0]|..];
      WholeTail(limit, pieces, ids);
      CutsLeaveSurvivors(limits, limit, rest, pieces[1..], ids);
      assert tail == slice + rest;
      WithoutJoin(slice, rest, ids);
      SurvivingRowsOfJoin(limits, limit, slice, rest);
    }
  }

  lemma WholeTail(limit: int, pieces: seq<seq<Row>>, ids: set<nat>)
    requires AllWhole(limit, pieces, ids) && pieces != []
    ensures Whole(limit, pieces[0], ids) && AllWhole(limit, pieces[1..], ids)
  {
    forall k | 0 <= k < |pieces[1..]| ensures Whole(limit, pieces[1..][k], ids) {
      assert Whole(limit, pieces[k + 1], ids);
    }
  }

  lemma SizesJoin(a: seq<Row>, b: seq<Row>)
    ensures Sizes(a + b) == Sizes(a) + Sizes(b)
  {
  }

  lemma SizesCut(rows: seq<Row>, n: nat)
    requires n <= |rows|
    ensures Sizes(rows)[..n] == Sizes(rows[..n]) && Sizes(rows)[n..] == Sizes(rows[n..])
  {
  }

  /** Size by size, they are the survivors of the sizes. */
  lemma {:induction false} SurvivingSizes(limits: Limits, limit: int, rows: seq<Row>)
    ensures Sizes(SurvivingRows(limits, limit, rows)) == Survivors(limits, limit, Sizes(rows))
    decreases |rows|
  {
    if rows != [] {
      var n := Fill(limits, Sizes(rows), 0);
      SizesCut(rows, n);
      SurvivingSizes(limits, limit, rows[n..]);
      var first := if Estimate(Sizes(rows[..n])) <= limit then rows[..n] else [];
      SizesJoin(first, SurvivingRows(limits, limit, rows[n..]));
    }
  }

  lemma {:induction false} GroupChunksAreInTable(limits: Limits, table: Table, keys: seq<GroupKey>, g: GroupKey,
                                                 c: ChunkRow)
    requires g in keys && c in ChunksFrom(limits, g, Ordered(table, g), 0, 1)
    ensures c in ChunksOf(limits, table, keys)
    decreases |keys|
  {
    if g != keys[|keys| - 1] {
      GroupChunksAreInTable(limits, table, keys[..|keys| - 1], g, c);
    }
  }

  lemma {:induction false} TableChunksAreOfGroups(limits: Limits, table: Table, keys: seq<GroupKey>, c: ChunkRow)
    requires c in ChunksOf(limits, table, keys)
    ensures c.group in keys && c in ChunksFrom(limits, c.group, Ordered(table, c.group), 0, 1)
    decreases |keys|
  {
    var g, rest := keys[|keys| - 1], keys[..|keys| - 1];
    if c in ChunksOf(limits, table, rest) {
      TableChunksAreOfGroups(limits, table, rest, c);
    } else {
      var own := ChunksFrom(limits, g, Ordered(table, g), 0, 1);
      var k :| 0 <= k < |own| && own[k] == c;
      ChunkReads(limits, g, Ordered(table, g), 0, 1, own, k);
    }
  }

  /** The rows a group keeps are, in order, those of its greedy chunks that were not oversized. */
  lemma GroupKeepsSurvivors(limits: Limits, table: Table, g: GroupKey, limit: int)
    requires UniqueIds(table) && g in GroupKeys(table)
    ensures var after := Without(table, DroppedIds(table, ChunksOf(limits, table, GroupKeys(table)), limit, 0));
            Ordered(after, g) == SurvivingRows(limits, limit, Ordered(table, g))
  {
    var chunks, rows := ChunksOf(limits, table, GroupKeys(table)), Ordered(table, g);
    var ids := DroppedIds(table, chunks, limit, 0);
    CurrentIsWellPlaced(limits, table);
    var own := ChunksFrom(limits, g, rows, 0, 1);
    var pieces := ChunksCut(limits, table, g, rows, 0, 1, own);
    forall k | 0 <= k < |own| ensures Whole(limit, pieces[k], ids) {
      GroupChunksAreInTable(limits, table, GroupKeys(table), g, own[k]);
      var i :| 0 <= i < |chunks| && chunks[i] == own[k];
      forall row | row in ChunkSlice(table, own[k]) ensures row.id in ids <==> Oversized(table, own[k], limit) {
        DroppedWithItsChunk(table, chunks, limit, i, row);
      }
      ChunkIsWhole(table, own[k], limit, ids);
    }
    assert rows[0..] == rows;
    CutsLeaveSurvivors(limits, limit, rows, pieces, ids);
    QueryAfterDelete(table, ids, g);
  }

  lemma WithinStep(limits: Limits, limit: int, sizes: seq<int>)
    requires AllWithin(limits, limit, sizes) && sizes != []
    ensures var n := Fill(limits, sizes, 0); Estimate(sizes[..n]) <= limit && AllWithin(limits, limit, sizes[n..])
  {
  }

  predicate SliceWithin(rows: seq<Row>, c: ChunkRow, limit: int) {
    c.offset + c.count <= |rows| && Estimate(Sizes(rows[c.offset..c.offset + c.count])) <= limit
  }

  ghost predicate SlicesWithin(rows: seq<Row>, chunks: seq<ChunkRow>, limit: int) {
    forall c :: c in chunks ==> SliceWithin(rows, c, limit)
  }

  lemma SlicesWithinPrepend(rows: seq<Row>, first: ChunkRow, rest: seq<ChunkRow>, limit: int)
    requires SliceWithin(rows, first, limit) && SlicesWithin(rows, rest, limit)
    ensures SlicesWithin(rows, [first] + rest, limit)
  {
  }

  lemma FirstSliceWithin(g: GroupKey, rows: seq<Row>, offset: nat, n: nat, index: nat, limit: int)
    requires 1 <= n && offset + n <= |rows| && Estimate(Sizes(rows[offset..offset + n])) <= limit
    ensures SliceWithin(rows, ChunkOf(g, rows[offset..offset + n], offset, index), limit)
  {
  }

  lemma SplitSizes(rows: seq<Row>, offset: nat, n: nat)
    requires offset + n <= |rows|
    ensures Sizes(rows[offset..])[..n] == Sizes(rows[offset..offset + n])
    ensures Sizes(rows[offset..])[n..] == Sizes(rows[offset + n..])
  {
  }

  lemma {:induction false} GreedySlicesWithin(limits: Limits, g: GroupKey, rows: seq<Row>, offset: nat,
                                              index: nat, chunks: seq<ChunkRow>, limit: int)
    requires offset <= |rows| && AllWithin(limits, limit, Sizes(rows[offset..]))
    requires chunks == ChunksFrom(limits, g, rows, offset, index)
    ensures SlicesWithin(rows, chunks, limit)
    decreases |rows| - offset
  {
    hide ChunkOf, Fill, Fits, Sizes, AllWithin, SliceWithin;
    if offset < |rows| {
      var n, later := FirstChunk(limits, g, rows, offset, index, chunks);
      WithinStep(limits, limit, Sizes(rows[offset..]));
      SplitSizes(rows, offset, n);
      GreedySlicesWithin(limits, g, rows, offset + n, index + 1, later, limit);
      FirstSliceWithin(g, rows, offset, n, index, limit);
      SlicesWithinPrepend(rows, ChunkOf(g, rows[offset..offset + n], offset, index), later, limit);
    }
  }

  lemma WithinMeansNotOversized(table: Table, c: ChunkRow, limit: int)
    requires SliceWithin(Ordered(table, c.group), c, limit)
    ensures !Oversized(table, c, limit)
  {
    SameSizes(table, c);
  }

  /** Under settings that leave room for the fullest chunk, no chunk is oversized after a drop. */
  lemma DropLeavesNoneOversized(limits: Limits, table: Table, limit: int, c: ChunkRow)
    requires Usable(limits) && UniqueIds(table) && MergesFit(limits, limit)
    requires forall row :: row in table ==> row.entry.size >= 0
    ensures var after := Without(table, DroppedIds(table, ChunksOf(limits, table, GroupKeys(table)), limit, 0));
            c in ChunksOf(limits, after, GroupKeys(after)) ==> !Oversized(after, c, limit)
  {
    var ids := DroppedIds(table, ChunksOf(limits, table, GroupKeys(table)), limit, 0);
    var after := Without(table, ids);
    if c in ChunksOf(limits, after, GroupKeys(after)) {
      var g := c.group;
      TableChunksAreOfGroups(limits, after, GroupKeys(after), c);
      WithoutSelects(table, ids);
      GroupKeysAreDistinct(after);
      GroupKeysAreDistinct(table);
      var row :| row in after && Grouped(row.entry) && GroupOf(row.entry) == g;
      assert row in table;
      OrderedIsQuery(table, g);
      assert NonNegative(Sizes(Ordered(table, g))) by {
        forall k | 0 <= k < |Ordered(table, g)| ensures Sizes(Ordered(table, g))[k] >= 0 {
          assert Ordered(table, g)[k] in Ordered(table, g);
        }
      }
      MergesFitExactly(limits, limit);
      MergesWithinSuffices(limits, limit, Sizes(Ordered(table, g)));
      GroupKeepsSurvivors(limits, table, g, limit);
      SurvivingSizes(limits, limit, Ordered(table, g));
      assert Ordered(after, g)[0..] == Ordered(after, g);
      GreedySlicesWithin(limits, g, Ordered(after, g), 0, 1, ChunksFrom(limits, g, Ordered(after, g), 0, 1), limit);
      WithinMeansNotOversized(after, c, limit);
    }
  }
}
