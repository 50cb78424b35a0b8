/**
 The archive_chunks table: chunk metadata computed in one pass over each group, and the
 lazy views that read a chunk back through its offset and length.
 */
module ChunkTable {
  import opened Wrappers
  import opened Manifest
  import opened GroupOrder
  import opened ManifestTables
  import opened Chunking
  import opened Naming
  import Stores
  import CopyTask

  /** A row of the archive_chunks table; `first` stands for the columns taken from it. */
  datatype ChunkRow = ChunkRow(
    group: GroupKey,
    index: nat,
    offset: nat,
    count: nat,
    destinationKey: string,
    digest: Digest,
    first: Entry)

  // ----- Chunk entries and views -----

  function ChunkEntry(e: Entry, index: nat): Entry {
    if index == 1 then e
    else
      var key := ChunkKey(e.destinationArchiveKey, index);
      e.(destinationArchiveKey := key, destinationKey := key)
  }

  function ChunkEntries(rows: seq<Row>, index: nat): seq<Entry> {
    seq(|rows|, i requires 0 <= i < |rows| => ChunkEntry(rows[i].entry, index))
  }

  /** Iterating the lazy sequence of a chunk: one query with LIMIT and OFFSET. */
  function ViewEntries(table: Table, c: ChunkRow): seq<Entry> {
    ChunkEntries(Limited(Ordered(table, c.group), c.offset, c.count), c.index)
  }

  /** Indexing it: negative indices count from the end, and each access is its own query. */
  function ViewAt(table: Table, c: ChunkRow, index: int): Option<Entry> {
    var normalized := if index < 0 then c.count + index else index;
    if normalized < 0 || normalized >= c.count then None
    else
      var found := Limited(Ordered(table, c.group), c.offset + normalized, 1);
      if found == [] then None else Some(ChunkEntry(found[0].entry, c.index))
  }

  function GroupFromChunkRow(table: Table, c: ChunkRow): CopyTask.Group {
    CopyTask.Group(Stores.Address(c.group.destinationBucket, c.destinationKey), c.group.targetDay,
                   ViewEntries(table, c), Some(c.digest), Some(c.count))
  }

  // ----- The chunk table in closed form -----

  function Sizes(rows: seq<Row>): seq<int> {
    seq(|rows|, i requires 0 <= i < |rows| => rows[i].entry.size)
  }

  function ChunkOf(g: GroupKey, slice: seq<Row>, offset: nat, index: nat): ChunkRow
    requires slice != []
  {
    ChunkRow(g, index, offset, |slice|, ChunkKey(g.destinationArchiveKey, index),
             OfRows(RowsOf(ChunkEntries(slice, index))), slice[0].entry)
  }

  function ChunksFrom(limits: Limits, g: GroupKey, rows: seq<Row>, offset: nat, index: nat): seq<ChunkRow>
    requires offset <= |rows|
    decreases |rows| - offset
  {
    if offset == |rows| then []
    else
      var n := Fill(limits, Sizes(rows[offset..]), 0);
      [ChunkOf(g, rows[offset..offset + n], offset, index)] + ChunksFrom(limits, g, rows, offset + n, index + 1)
  }

  function ChunksOf(limits: Limits, table: Table, keys: seq<GroupKey>): seq<ChunkRow> {
    if keys == [] then []
    else
      ChunksOf(limits, table, keys[..|keys| - 1])
      + ChunksFrom(limits, keys[|keys| - 1], Ordered(table, keys[|keys| - 1]), 0, 1)
  }

  // ----- One pass over a group -----

  /** The chunk being filled: its rows so far, the running totals and the running digest. */
  class ChunkInProgress {
    const sizer: ArchiveChunkSizer
    var digest: DigestBuilder
    var index: nat
    ghost var slice: seq<Row>

    constructor (limits: Limits)
      ensures fresh(sizer) && fresh(digest) && sizer.limits == limits
      ensures Valid() && slice == [] && index == 1
    {
      sizer := new ArchiveChunkSizer(limits);
      digest := new DigestBuilder();
      index := 1;
      slice := [];
    }

    ghost predicate Valid()
      reads this, sizer, digest
    {
      sizer.Tracks(Sizes(slice)) && digest.rows == RowsOf(ChunkEntries(slice, index))
    }

    method Take(row: Row)
      requires Valid()
      modifies this`slice, sizer, digest
      ensures Valid() && slice == old(slice) + [row]
    {
      ghost var longer := slice + [row];
      assert Sizes(longer)[..|slice|] == Sizes(slice);
      sizer.Add(row.entry.size);
      digest.Add(ChunkEntry(row.entry, index));
      slice := longer;
    }

    method Emit(g: GroupKey, offset: nat, length: nat, first: Entry) returns (c: ChunkRow)
      requires Valid() && slice != [] && length == |slice| && first == slice[0].entry
      ensures c == ChunkOf(g, slice, offset, index)
    {
      c := ChunkRow(g, index, offset, length, ChunkKey(g.destinationArchiveKey, index), digest.HexDigest(), first);
    }

    method Next()
      modifies this, sizer
      ensures Valid() && slice == [] && index == old(index) + 1 && fresh(digest)
    {
      sizer.Reset();
      digest := new DigestBuilder();
      index := index + 1;
      slice := [];
    }
  }

  /** The chunks still to be emitted, given the chunk being filled and the rows still to come. */
  function Remaining(limits: Limits, g: GroupKey, slice: seq<Row>, rest: seq<Row>, offset: nat,
                     index: nat): seq<ChunkRow>
    decreases |rest|, |slice|
  {
    if rest == [] then if slice == [] then [] else [ChunkOf(g, slice, offset, index)]
    else if Overflows(limits, Sizes(slice), rest[0].entry.size)
    then [ChunkOf(g, slice, offset, index)] + Remaining(limits, g, [], rest, offset + |slice|, index + 1)
    else Remaining(limits, g, slice + [rest[0]], rest[1..], offset, index)
  }

  /** Fill, emit on overflow, emit the last chunk. */
  method GroupChunks(limits: Limits, g: GroupKey, rows: seq<Row>) returns (found: seq<ChunkRow>)
    ensures found == ChunksFrom(limits, g, rows, 0, 1)
  {
    var chunk := new ChunkInProgress(limits);
    var offset, length := 0, 0;
    var first: Option<Entry> := None;
    found := [];
    assert rows[0..] == rows;
    for i := 0 to |rows|
      invariant fresh(chunk) && fresh(chunk.sizer) && fresh(chunk.digest) && chunk.sizer.limits == limits
      invariant chunk.Valid() && length == |chunk.slice|
      invariant first == if length > 0 then Some(chunk.slice[0].entry) else None
      invariant found + Remaining(limits, g, chunk.slice, rows[i..], offset, chunk.index)
                  == Remaining(limits, g, [], rows, 0, 1)
    {
      var row := rows[i];
      assert rows[i..][0] == row && rows[i..][1..] == rows[i + 1..];
      if chunk.sizer.WouldOverflow(row.entry.size) {
        var full := chunk.Emit(g, offset, length, first.value);
        found := found + [full];
        offset, length, first := offset + length, 0, None;
        chunk.Next();
      }
      if first.None? {
        first := Some(row.entry);
      }
      chunk.Take(row);
      length := length + 1;
    }
    if length > 0 {
      var last := chunk.Emit(g, offset, length, first.value);
      found := found + [last];
    }
    RemainingIsGreedy(limits, g, rows, 0, 1);
  }

  lemma RemainingStep(limits: Limits, g: GroupKey, rows: seq<Row>, offset: nat, next: nat, index: nat)
    requires offset <= next <= |rows| && offset < |rows|
    ensures var slice := rows[offset..next];
            Remaining(limits, g, slice, rows[next..], offset, index) ==
            if next == |rows| then [ChunkOf(g, slice, offset, index)]
            else if Overflows(limits, Sizes(slice), rows[next].entry.size)
            then [ChunkOf(g, slice, offset, index)] + Remaining(limits, g, [], rows[next..], next, index + 1)
            else Remaining(limits, g, rows[offset..next + 1], rows[next + 1..], offset, index)
  {
    if next < |rows| {
      assert rows[next..][0] == rows[next] && rows[next..][1..] == rows[next + 1..];
      NextSlice(rows, offset, next);
    }
  }

  /** The row at a position does not fit behind the slice before it. */
  predicate OverflowsAt(limits: Limits, rows: seq<Row>, offset: nat, at: nat)
    requires offset <= at < |rows|
  {
    Overflows(limits, Sizes(rows[offset..at]), rows[at].entry.size)
  }

  /** No overflow before position `end`, and one there unless the rows end. */
  predicate FullAt(limits: Limits, rows: seq<Row>, offset: nat, next: nat, end: nat) {
    && offset <= next <= end <= |rows|
    && (forall m :: next <= m < end ==> !OverflowsAt(limits, rows, offset, m))
    && (end < |rows| ==> OverflowsAt(limits, rows, offset, end))
  }

  /** The chunk being filled is emitted where it is full. */
  lemma {:induction false} OneChunk(limits: Limits, g: GroupKey, rows: seq<Row>, offset: nat, next: nat, end: nat,
                                    index: nat)
    requires FullAt(limits, rows, offset, next, end) && offset < |rows|
    ensures Remaining(limits, g, rows[offset..next], rows[next..], offset, index)
         == [ChunkOf(g, rows[offset..end], offset, index)] + Remaining(limits, g, [], rows[end..], end, index + 1)
    decreases end - next
  {
    RemainingStep(limits, g, rows, offset, next, index);
    if next < end {
      assert !OverflowsAt(limits, rows, offset, next);
      OneChunk(limits, g, rows, offset, next + 1, end, index);
    } else if next == |rows| {
      assert rows[end..] == [];
    }
  }

  lemma TailSizes(rows: seq<Row>, offset: nat, next: nat)
    requires offset <= next <= |rows|
    ensures Sizes(rows[offset..])[..next - offset] == Sizes(rows[offset..next])
    ensures next < |rows| ==> Sizes(rows[offset..])[next - offset] == rows[next].entry.size
  {
  }

  /** The greedy length is where the chunk is full. */
  lemma {:induction false} FillIsFull(limits: Limits, rows: seq<Row>, offset: nat, next: nat, sizes: seq<int>)
    requires offset <= next <= |rows| && sizes == Sizes(rows[offset..])
    ensures FullAt(limits, rows, offset, next, offset + Fill(limits, sizes, next - offset))
    decreases |rows| - next
  {
    hide Overflows;
    TailSizes(rows, offset, next);
    if next < |rows| && !OverflowsAt(limits, rows, offset, next) {
      FillIsFull(limits, rows, offset, next + 1, sizes);
    }
  }

  lemma NextSlice<T>(s: seq<T>, i: nat, j: nat)
    requires i <= j < |s|
    ensures s[i..j] + [s[j]] == s[i..j + 1]
  {
  }

  /** Emitting on overflow gives the greedy chunks. */
  lemma {:induction false} RemainingIsGreedy(limits: Limits, g: GroupKey, rows: seq<Row>, offset: nat, index: nat)
    requires offset <= |rows|
    ensures Remaining(limits, g, [], rows[offset..], offset, index) == ChunksFrom(limits, g, rows, offset, index)
    decreases |rows| - offset
  {
    if offset < |rows| {
      assert rows[offset..offset] == [];
      var end := offset + Fill(limits, Sizes(rows[offset..]), 0);
      FillIsFull(limits, rows, offset, offset, Sizes(rows[offset..]));
      OneChunk(limits, g, rows, offset, offset, end, index);
      RemainingIsGreedy(limits, g, rows, end, index + 1);
    }
  }

  // ----- What the chunks of a table are -----

  lemma GroupKeysAreDistinct(table: Table)
    ensures Distinct(GroupKeys(table))
    ensures forall g :: g in GroupKeys(table) <==>
              exists row :: row in table && Grouped(row.entry) && GroupOf(row.entry) == g
  {
    GroupKeysAscend(table);
    AscendingGroupsDiffer(GroupKeys(table));
  }

  ghost predicate Distinct<T>(s: seq<T>) {
    forall i, j :: 0 <= i < j < |s| ==> s[i] != s[j]
  }

  /** The chunk is the one made of a non-empty slice of its group's rows. */
  predicate Reads(rows: seq<Row>, c: ChunkRow) {
    && c.count >= 1
    && c.offset + c.count <= |rows|
    && c == ChunkOf(c.group, rows[c.offset..c.offset + c.count], c.offset, c.index)
  }

  /** `b` ends before `c` begins, if they are chunks of one group. */
  predicate Precedes(b: ChunkRow, c: ChunkRow) {
    b.group == c.group ==> b.offset + b.count <= c.offset
  }

  /** The first chunk behind an offset, and those behind it. */
  lemma FirstChunk(limits: Limits, g: GroupKey, rows: seq<Row>, offset: nat, index: nat, all: seq<ChunkRow>)
    returns (n: nat, later: seq<ChunkRow>)
    requires offset <= |rows| && all == ChunksFrom(limits, g, rows, offset, index) && (all != [] || offset < |rows|)
    ensures n == Fill(limits, Sizes(rows[offset..]), 0) && 1 <= n && offset + n <= |rows|
    ensures later == ChunksFrom(limits, g, rows, offset + n, index + 1)
    ensures all == [ChunkOf(g, rows[offset..offset + n], offset, index)] + later
  {
    hide ChunkOf, Fill;
    n := Fill(limits, Sizes(rows[offset..]), 0);
    later := ChunksFrom(limits, g, rows, offset + n, index + 1);
  }

  lemma ChunkOfSlice(g: GroupKey, rows: seq<Row>, offset: nat, n: nat, index: nat)
    requires 1 <= n && offset + n <= |rows|
    ensures var c := ChunkOf(g, rows[offset..offset + n], offset, index);
            c.group == g && c.offset == offset && c.count == n && c.index == index && Reads(rows, c)
  {
  }

  lemma {:induction false} ChunkReads(limits: Limits, g: GroupKey, rows: seq<Row>, offset: nat, index: nat,
                                      all: seq<ChunkRow>, k: nat)
    requires offset <= |rows| && all == ChunksFrom(limits, g, rows, offset, index) && k < |all|
    ensures all[k].group == g && all[k].offset >= offset && Reads(rows, all[k])
    decreases k
  {
    hide *;
    var n, later := FirstChunk(limits, g, rows, offset, index, all);
    if k == 0 {
      ChunkOfSlice(g, rows, offset, n, index);
    } else {
      ChunkReads(limits, g, rows, offset + n, index + 1, later, k - 1);
    }
  }

  lemma {:induction false} ChunksInOrder(limits: Limits, g: GroupKey, rows: seq<Row>, offset: nat, index: nat,
                                         all: seq<ChunkRow>, j: nat, k: nat)
    requires offset <= |rows| && all == ChunksFrom(limits, g, rows, offset, index) && j < k < |all|
    ensures Precedes(all[j], all[k])
    decreases j
  {
    hide ChunkOf, ChunksFrom, Reads;
    var n, later := FirstChunk(limits, g, rows, offset, index, all);
    if j > 0 {
      ChunksInOrder(limits, g, rows, offset + n, index + 1, later, j - 1, k - 1);
    } else {
      ChunkOfSlice(g, rows, offset, n, index);
      ChunkReads(limits, g, rows, offset + n, index + 1, later, k - 1);
    }
  }

  lemma {:induction false} TableReads(limits: Limits, table: Table, keys: seq<GroupKey>, all: seq<ChunkRow>, i: nat)
    requires all == ChunksOf(limits, table, keys) && i < |all|
    ensures all[i].group in keys && Reads(Ordered(table, all[i].group), all[i])
    decreases |keys|
  {
    hide ChunksFrom, Reads, Ordered;
    var g, rest := keys[|keys| - 1], keys[..|keys| - 1];
    var earlier, own := ChunksOf(limits, table, rest), ChunksFrom(limits, g, Ordered(table, g), 0, 1);
    assert all == earlier + own;
    if i < |earlier| {
      TableReads(limits, table, rest, earlier, i);
    } else {
      ChunkReads(limits, g, Ordered(table, g), 0, 1, own, i - |earlier|);
    }
  }

  lemma {:induction false} TableInOrder(limits: Limits, table: Table, keys: seq<GroupKey>, all: seq<ChunkRow>, j: nat,
                                        i: nat)
    requires Distinct(keys) && all == ChunksOf(limits, table, keys) && j < i < |all|
    ensures Precedes(all[j], all[i])
    decreases |keys|
  {
    hide ChunksFrom, Reads, Ordered;
    var g, rest := keys[|keys| - 1], keys[..|keys| - 1];
    var earlier, own := ChunksOf(limits, table, rest), ChunksFrom(limits, g, Ordered(table, g), 0, 1);
    assert all == earlier + own;
    if i < |earlier| {
      TableInOrder(limits, table, rest, earlier, j, i);
    } else if j < |earlier| {
      TableReads(limits, table, rest, earlier, j);
      ChunkReads(limits, g, Ordered(table, g), 0, 1, own, i - |earlier|);
      assert earlier[j].group in rest && own[i - |earlier|].group == g;
    } else {
      ChunksInOrder(limits, g, Ordered(table, g), 0, 1, own, j - |earlier|, i - |earlier|);
    }
  }

  /** Every chunk reads a slice of its group, and the slices of a group come in order. */
  ghost predicate WellPlaced(table: Table, chunks: seq<ChunkRow>) {
    && (forall i :: 0 <= i < |chunks| ==> Reads(Ordered(table, chunks[i].group), chunks[i]))
    && (forall i, j :: 0 <= i < j < |chunks| ==> Precedes(chunks[i], chunks[j]))
  }

  lemma CurrentIsWellPlaced(limits: Limits, table: Table)
    ensures WellPlaced(table, ChunksOf(limits, table, GroupKeys(table)))
  {
    var keys := GroupKeys(table);
    var chunks := ChunksOf(limits, table, keys);
    GroupKeysAreDistinct(table);
    forall i | 0 <= i < |chunks| ensures Reads(Ordered(table, chunks[i].group), chunks[i]) {
      TableReads(limits, table, keys, chunks, i);
    }
    forall i, j | 0 <= i < j < |chunks| ensures Precedes(chunks[i], chunks[j]) {
      TableInOrder(limits, table, keys, chunks, i, j);
    }
  }
}
