/**
 The entries table of the manifest store and the query every chunk is read through: the
 rows of one group, ordered by key and row id, under LIMIT and OFFSET. Tables are
 sequences of rows in insertion order; queries are given by their meaning.
 */
module ManifestTables {
  import opened KeyOrder
  import opened Manifest

  datatype Row = Row(id: nat, entry: Entry)

  type Table = seq<Row>

  datatype GroupKey = GroupKey(
    routeName: string,
    copyMode: CopyMode,
    archiveRoot: string,
    targetDay: string,
    destinationBucket: string,
    destinationArchiveKey: string,
    destinationIdentity: string)

  function GroupOf(e: Entry): GroupKey {
    GroupKey(e.routeName, e.copyMode, e.archiveRoot, e.targetDay, e.destinationBucket,
             e.destinationArchiveKey, e.destinationIdentity)
  }

  predicate Grouped(e: Entry) {
    e.copyMode != Direct && e.targetDay != ""
  }

  ghost predicate UniqueIds(table: Table) {
    forall i, j :: 0 <= i < j < |table| ==> table[i].id != table[j].id
  }

  /** The sort key of GROUP_ENTRY_ORDER. */
  predicate Before(a: Row, b: Row) {
    Less(a.entry.key, b.entry.key) || (a.entry.key == b.entry.key && a.id < b.id)
  }

  function InGroup(table: Table, g: GroupKey): Table {
    if table == [] then []
    else (if GroupOf(table[0].entry) == g then [table[0]] else []) + InGroup(table[1..], g)
  }

  function Insert(row: Row, rows: seq<Row>): seq<Row> {
    if rows == [] || Before(row, rows[0]) then [row] + rows else [rows[0]] + Insert(row, rows[1..])
  }

  function Sort(rows: seq<Row>): seq<Row> {
    if rows == [] then [] else Insert(rows[0], Sort(rows[1..]))
  }

  /** The rows of a group in query order. */
  function Ordered(table: Table, g: GroupKey): seq<Row> {
    Sort(InGroup(table, g))
  }

  function Min(a: nat, b: nat): nat {
    if a <= b then a else b
  }

  /** LIMIT count OFFSET offset. */
  function Limited(rows: seq<Row>, offset: nat, count: nat): seq<Row> {
    rows[Min(offset, |rows|)..Min(offset + count, |rows|)]
  }

  /** DELETE FROM entries WHERE id is one of `ids`. */
  function Without(table: Table, ids: set<nat>): Table {
    if table == [] then []
    else (if table[0].id in ids then [] else [table[0]]) + Without(table[1..], ids)
  }

  function Ids(rows: seq<Row>): set<nat> {
    set row | row in rows :: row.id
  }

  // ----- The order is total, so an ordered list is determined by its rows -----

  ghost predicate Ascending(rows: seq<Row>) {
    forall i, j :: 0 <= i < j < |rows| ==> Before(rows[i], rows[j])
  }

  lemma BeforeTransitive(a: Row, b: Row, c: Row)
    requires Before(a, b) && Before(b, c)
    ensures Before(a, c)
  {
    if Less(a.entry.key, b.entry.key) && Less(b.entry.key, c.entry.key) {
      Transitive(a.entry.key, b.entry.key, c.entry.key);
    }
  }

  lemma BeforeAsymmetric(a: Row, b: Row)
    requires Before(a, b)
    ensures !Before(b, a) && a != b
  {
    if Less(a.entry.key, b.entry.key) {
      KeyOrder.Asymmetric(a.entry.key, b.entry.key);
    } else {
      Irreflexive(a.entry.key);
    }
  }

  lemma BeforeTotal(a: Row, b: Row)
    requires a.id != b.id
    ensures Before(a, b) || Before(b, a)
  {
    Trichotomy(a.entry.key, b.entry.key);
  }

  lemma EmptyOrNot(rows: seq<Row>)
    ensures rows == [] || exists row :: row in rows
  {
    if rows != [] {
      assert rows[0] in rows;
    }
  }

  /** Two ascending lists of the same rows are the same list. */
  lemma {:induction false} AscendingUnique(a: seq<Row>, b: seq<Row>)
    requires Ascending(a) && Ascending(b)
    requires forall row :: row in a <==> row in b
    ensures a == b
  {
    EmptyOrNot(a);
    EmptyOrNot(b);
    if a != [] {
      assert a[0] in b;
      FirstIsFirst(a, b);
      forall row ensures row in a[1..] <==> row in b[1..] {
        TailMembers(a, row);
        TailMembers(b, row);
      }
      AscendingUnique(a[1..], b[1..]);
      assert a == [a[0]] + a[1..] && b == [b[0]] + b[1..];
    }
  }

  lemma FirstIsFirst(a: seq<Row>, b: seq<Row>)
    requires Ascending(a) && Ascending(b) && a != [] && b != []
    requires a[0] in b && b[0] in a
    ensures a[0] == b[0]
  {
    var i :| 0 <= i < |b| && b[i] == a[0];
    var j :| 0 <= j < |a| && a[j] == b[0];
    if i > 0 && j > 0 {
      BeforeAsymmetric(b[0], b[i]);
    }
  }

  lemma TailMembers(a: seq<Row>, row: Row)
    requires Ascending(a) && a != []
    ensures row in a[1..] <==> row in a && row != a[0]
  {
    if row in a[1..] {
      var i :| 0 <= i < |a[1..]| && a[1..][i] == row;
      BeforeAsymmetric(a[0], a[i + 1]);
    }
    if row in a && row != a[0] {
      var i :| 0 <= i < |a| && a[i] == row;
      assert a[1..][i - 1] == row;
    }
  }

  // ----- Sorting -----

  lemma {:induction false} InsertKeeps(row: Row, rows: seq<Row>)
    requires Ascending(rows) && forall other :: other in rows ==> other.id != row.id
    ensures Ascending(Insert(row, rows))
    ensures forall other :: other in Insert(row, rows) <==> other == row || other in rows
    ensures |Insert(row, rows)| == |rows| + 1
  {
    if rows != [] && !Before(row, rows[0]) {
      BeforeTotal(row, rows[0]);
      InsertKeeps(row, rows[1..]);
      PrependAscends(rows[0], Insert(row, rows[1..]));
    } else if rows != [] {
      forall other | other in rows ensures Before(row, other) {
        var i :| 0 <= i < |rows| && rows[i] == other;
        if i > 0 { BeforeTransitive(row, rows[0], other); }
      }
      PrependAscends(row, rows);
    }
  }

  lemma PrependAscends(row: Row, rows: seq<Row>)
    requires Ascending(rows) && forall other :: other in rows ==> Before(row, other)
    ensures Ascending([row] + rows)
  {
  }

  lemma {:induction false} SortSorts(rows: seq<Row>)
    requires UniqueIds(rows)
    ensures Ascending(Sort(rows)) && |Sort(rows)| == |rows|
    ensures forall row :: row in Sort(rows) <==> row in rows
  {
    if rows != [] {
      SortSorts(rows[1..]);
      InsertKeeps(rows[0], Sort(rows[1..]));
    }
  }

  lemma {:induction false} InGroupSelects(table: Table, g: GroupKey)
    requires UniqueIds(table)
    ensures UniqueIds(InGroup(table, g))
    ensures forall row :: row in InGroup(table, g) <==> row in table && GroupOf(row.entry) == g
  {
    if table != [] {
      InGroupSelects(table[1..], g);
    }
  }

  lemma {:induction false} WithoutSelects(table: Table, ids: set<nat>)
    requires UniqueIds(table)
    ensures UniqueIds(Without(table, ids))
    ensures forall row :: row in Without(table, ids) <==> row in table && row.id !in ids
  {
    if table != [] {
      WithoutSelects(table[1..], ids);
    }
  }

  /** The query lists every row of the group once, in order. */
  lemma OrderedIsQuery(table: Table, g: GroupKey)
    requires UniqueIds(table)
    ensures Ascending(Ordered(table, g))
    ensures forall row :: row in Ordered(table, g) <==> row in table && GroupOf(row.entry) == g
  {
    InGroupSelects(table, g);
    SortSorts(InGroup(table, g));
  }

  // ----- Deleting and querying commute -----

  lemma {:induction false} WithoutAscends(rows: seq<Row>, ids: set<nat>)
    requires Ascending(rows)
    ensures Ascending(Without(rows, ids))
    ensures forall row :: row in Without(rows, ids) <==> row in rows && row.id !in ids
  {
    if rows != [] {
      WithoutAscends(rows[1..], ids);
      if rows[0].id !in ids {
        PrependAscends(rows[0], Without(rows[1..], ids));
      }
    }
  }

  lemma QueryAfterDelete(table: Table, ids: set<nat>, g: GroupKey)
    requires UniqueIds(table)
    ensures Ordered(Without(table, ids), g) == Without(Ordered(table, g), ids)
  {
    WithoutSelects(table, ids);
    OrderedIsQuery(table, g);
    OrderedIsQuery(Without(table, ids), g);
    WithoutAscends(Ordered(table, g), ids);
    AscendingUnique(Ordered(Without(table, ids), g), Without(Ordered(table, g), ids));
  }

  /** Deleting behind a prefix leaves the prefix where it is. */
  lemma {:induction false} PrefixStays(rows: seq<Row>, ids: set<nat>, k: nat)
    requires k <= |rows| && forall i :: 0 <= i < k ==> rows[i].id !in ids
    ensures k <= |Without(rows, ids)| && Without(rows, ids)[..k] == rows[..k]
    decreases k
  {
    if k > 0 {
      PrefixStays(rows[1..], ids, k - 1);
      assert rows[..k] == [rows[0]] + rows[1..][..k - 1];
      assert Without(rows, ids) == [rows[0]] + Without(rows[1..], ids);
      assert Without(rows, ids)[..k] == [rows[0]] + Without(rows[1..], ids)[..k - 1];
    }
  }

  /** So a slice that ends within the prefix reads the same rows. */
  lemma SliceStays(table: Table, ids: set<nat>, g: GroupKey, offset: nat, count: nat)
    requires UniqueIds(table) && offset + count <= |Ordered(table, g)|
    requires forall i :: 0 <= i < offset + count ==> Ordered(table, g)[i].id !in ids
    ensures Limited(Ordered(Without(table, ids), g), offset, count) == Limited(Ordered(table, g), offset, count)
  {
    var rows, after := Ordered(table, g), Ordered(Without(table, ids), g);
    QueryAfterDelete(table, ids, g);
    PrefixStays(rows, ids, offset + count);
    assert after[offset..offset + count] == after[..offset + count][offset..];
    assert rows[offset..offset + count] == rows[..offset + count][offset..];
  }

  lemma {:induction false} WithoutTwice(table: Table, ids: set<nat>, more: set<nat>)
    ensures Without(Without(table, ids), more) == Without(table, ids + more)
  {
    if table != [] {
      WithoutTwice(table[1..], ids, more);
      if table[0].id in ids {
        assert Without(table, ids) == Without(table[1..], ids);
      } else {
        assert Without(table, ids)[1..] == Without(table[1..], ids);
      }
    }
  }

  /** Deleting rows of the table takes out exactly these rows, each once. */
  lemma {:induction false} DeleteConserves(table: Table, rows: seq<Row>)
    requires UniqueIds(table) && UniqueIds(rows) && forall row :: row in rows ==> row in table
    ensures multiset(table) == multiset(Without(table, Ids(rows))) + multiset(rows)
  {
    var kept := Without(table, Ids(rows));
    WithoutSelects(table, Ids(rows));
    forall row ensures multiset(table)[row] == (multiset(kept) + multiset(rows))[row] {
      Once(table, row);
      Once(kept, row);
      Once(rows, row);
      if row in table && row.id in Ids(rows) {
        var other :| other in rows && other.id == row.id;
        SameIdSameRow(table, row, other);
      }
    }
  }

  lemma SameIdSameRow(table: Table, a: Row, b: Row)
    requires UniqueIds(table) && a in table && b in table && a.id == b.id
    ensures a == b
  {
  }

  lemma {:induction false} Once(table: Table, row: Row)
    requires UniqueIds(table)
    ensures multiset(table)[row] == if row in table then 1 else 0
  {
    if table != [] {
      Once(table[1..], row);
      assert table == [table[0]] + table[1..];
      assert forall i :: 0 <= i < |table[1..]| ==> table[1..][i].id == table[i + 1].id != table[0].id;
    }
  }
}
