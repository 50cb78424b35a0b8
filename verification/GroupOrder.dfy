/**
 The groups of a table in the order of their columns, as the chunk table is filled and read.
 */
module GroupOrder {
  import opened KeyOrder
  import opened Manifest
  import opened ManifestTables

  function ModeText(mode: CopyMode): string {
    match mode
    case Direct => "direct"
    case DailyTarGz => "daily_tar_gz"
    case TimestampChildTarGz => "timestamp_child_tar_gz"
  }

  function Columns(g: GroupKey): seq<string> {
    [g.routeName, ModeText(g.copyMode), g.archiveRoot, g.targetDay, g.destinationBucket, g.destinationArchiveKey,
        g.destinationIdentity]
  }

  /** The order of rows: by the first column in which they differ. */
  predicate ColumnsLess(a: seq<string>, b: seq<string>) {
    a != [] && b != [] && (Less(a[0], b[0]) || (a[0] == b[0] && ColumnsLess(a[1..], b[1..])))
  }

  predicate GroupBefore(a: GroupKey, b: GroupKey) {
    ColumnsLess(Columns(a), Columns(b))
  }

  function InsertGroup(g: GroupKey, keys: seq<GroupKey>): seq<GroupKey> {
    if keys == [] then [g]
    else if g == keys[0] then keys
    else if GroupBefore(g, keys[0]) then [g] + keys
    else [keys[0]] + InsertGroup(g, keys[1..])
  }

  /** The groups present in a table, each once, ordered by the group columns. */
  function GroupKeys(table: Table): seq<GroupKey> {
    if table == [] then []
    else
      var e, earlier := table[|table| - 1].entry, GroupKeys(table[..|table| - 1]);
      if Grouped(e) then InsertGroup(GroupOf(e), earlier) else earlier
  }

  // ----- The order is strict and total -----

  lemma {:induction false} ColumnsTransitive(a: seq<string>, b: seq<string>, c: seq<string>)
    requires ColumnsLess(a, b) && ColumnsLess(b, c)
    ensures ColumnsLess(a, c)
  {
    if Less(a[0], b[0]) && Less(b[0], c[0]) {
      Transitive(a[0], b[0], c[0]);
    } else if a[0] == b[0] == c[0] && !Less(a[0], b[0]) && !Less(b[0], c[0]) {
      ColumnsTransitive(a[1..], b[1..], c[1..]);
    }
  }

  lemma {:induction false} ColumnsIrreflexive(a: seq<string>)
    ensures !ColumnsLess(a, a)
  {
    if a != [] {
      Irreflexive(a[0]);
      ColumnsIrreflexive(a[1..]);
    }
  }

  lemma {:induction false} ColumnsTotal(a: seq<string>, b: seq<string>)
    requires |a| == |b|
    ensures a == b || ColumnsLess(a, b) || ColumnsLess(b, a)
  {
    if a != [] {
      Trichotomy(a[0], b[0]);
      ColumnsTotal(a[1..], b[1..]);
      assert a == [a[0]] + a[1..] && b == [b[0]] + b[1..];
    }
  }

  lemma ColumnsTellGroups(a: GroupKey, b: GroupKey)
    requires Columns(a) == Columns(b)
    ensures a == b
  {
    assert forall i :: 0 <= i < 7 ==> Columns(a)[i] == Columns(b)[i];
    ModesDiffer(a.copyMode, b.copyMode);
  }

  lemma ModesDiffer(a: CopyMode, b: CopyMode)
    ensures ModeText(a) == ModeText(b) ==> a == b
  {
    assert |ModeText(Direct)| == 6 && |ModeText(DailyTarGz)| == 12 && |ModeText(TimestampChildTarGz)| == 22;
  }

  ghost predicate GroupsAscend(keys: seq<GroupKey>) {
    forall i, j :: 0 <= i < j < |keys| ==> GroupBefore(keys[i], keys[j])
  }

  lemma {:induction false} InsertHas(g: GroupKey, keys: seq<GroupKey>)
    ensures forall k :: k in InsertGroup(g, keys) <==> k == g || k in keys
  {
    if keys != [] && g != keys[0] && !GroupBefore(g, keys[0]) {
      InsertHas(g, keys[1..]);
    }
  }

  lemma PrependGroup(g: GroupKey, keys: seq<GroupKey>)
    requires GroupsAscend(keys) && forall k :: k in keys ==> GroupBefore(g, k)
    ensures GroupsAscend([g] + keys)
  {
  }

  lemma {:induction false} InsertAscends(g: GroupKey, keys: seq<GroupKey>)
    requires GroupsAscend(keys)
    ensures GroupsAscend(InsertGroup(g, keys))
  {
    if keys == [] || g == keys[0] {
    } else if GroupBefore(g, keys[0]) {
      forall k | k in keys ensures GroupBefore(g, k) {
        if k != keys[0] {
          assert GroupBefore(keys[0], k);
          ColumnsTransitive(Columns(g), Columns(keys[0]), Columns(k));
        }
      }
      PrependGroup(g, keys);
    } else {
      InsertAscends(g, keys[1..]);
      InsertHas(g, keys[1..]);
      ColumnsTotal(Columns(g), Columns(keys[0]));
      if Columns(g) == Columns(keys[0]) {
        ColumnsTellGroups(g, keys[0]);
      }
      forall k | k in InsertGroup(g, keys[1..]) ensures GroupBefore(keys[0], k) {
        if k != g {
          assert k in keys[1..];
        }
      }
      PrependGroup(keys[0], InsertGroup(g, keys[1..]));
    }
  }

  /** The groups come in the order of their columns, each once, and are those of the grouped rows. */
  lemma {:induction false} GroupKeysAscend(table: Table)
    ensures GroupsAscend(GroupKeys(table))
    ensures forall g :: g in GroupKeys(table) <==>
              exists row :: row in table && Grouped(row.entry) && GroupOf(row.entry) == g
    decreases |table|
  {
    if table != [] {
      var rest, last := table[..|table| - 1], table[|table| - 1];
      GroupKeysAscend(rest);
      InsertAscends(GroupOf(last.entry), GroupKeys(rest));
      InsertHas(GroupOf(last.entry), GroupKeys(rest));
      assert forall row :: row in table <==> row in rest || row == last;
    }
  }

  lemma AscendingGroupsDiffer(keys: seq<GroupKey>)
    requires GroupsAscend(keys)
    ensures forall i, j :: 0 <= i < j < |keys| ==> keys[i] != keys[j]
  {
    forall i, j | 0 <= i < j < |keys| ensures keys[i] != keys[j] {
      assert GroupBefore(keys[i], keys[j]);
      ColumnsIrreflexive(Columns(keys[i]));
    }
  }
}
