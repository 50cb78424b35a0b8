/**
 The streaming merge that authorises replacing an archive: every member of the archive
 already stored, read from its sidecar, has to reappear unchanged in the new group.
 */
module Membership {
  import opened Wrappers
  import opened KeyOrder
  import opened Manifest

  /**
   One line of a sidecar as read back: the canonical form of a row; some other JSON
   object, with the "key" field it may carry as a string; or text on which reading or
   decoding raises (a truncated gzip stream, invalid JSON, not an object).
   */
  datatype Line =
    | Canonical(row: MemberRow)
    | OtherObject(key: Option<string>, text: string)
    | Undecodable(text: string)

  /** How the merge loop ends. */
  datatype MergeEnd = Accepted | Rejected | Raised

  function LineKey(line: Line): Option<string> {
    match line
    case Canonical(row) => Some(row.key)
    case OtherObject(key, _) => key
    case Undecodable(_) => None
  }

  function LinesOf(rows: seq<MemberRow>): seq<Line> {
    seq(|rows|, i requires 0 <= i < |rows| => Canonical(rows[i]))
  }

  function DropBefore(rows: seq<MemberRow>, key: string): seq<MemberRow> {
    if rows == [] || !Less(rows[0].key, key) then rows else DropBefore(rows[1..], key)
  }

  predicate OutOfOrder(key: Option<string>, previous: Option<string>) {
    key.None? || (previous.Some? && !Less(previous.value, key.value))
  }

  function Merge(lines: seq<Line>, rows: seq<MemberRow>, previous: Option<string>): MergeEnd
    decreases |lines|
  {
    if lines == [] then Accepted
    else if lines[0].Undecodable? then Raised
    else
      var key := LineKey(lines[0]);
      if OutOfOrder(key, previous) then Rejected
      else
        var rest := DropBefore(rows, key.value);
        if rest == [] || Canonical(rest[0]) != lines[0] then Rejected
        else Merge(lines[1..], rest[1..], key)
  }

  /**
   The verdict on one sidecar: its lines merge into the new rows, their digest is the one
   recorded on the archive and their number is the recorded source count.
   */
  function Contains(lines: seq<Line>, rows: seq<MemberRow>, oldDigest: Digest, oldCount: Option<nat>)
    : Result<bool, string>
  {
    match Merge(lines, rows, None)
    case Raised => Err("unreadable membership sidecar")
    case Rejected => Ok(false)
    case Accepted => Ok(OfRows(RowsIn(lines)) == oldDigest && oldCount == Some(|lines|))
  }

  /** The rows of the canonical lines, in order. */
  function RowsIn(lines: seq<Line>): seq<MemberRow> {
    if lines == [] then []
    else (if lines[0].Canonical? then [lines[0].row] else []) + RowsIn(lines[1..])
  }

  /** One turn of the merge, seen from position `count` of the sidecar and `next` of the rows. */
  lemma MergeStep(lines: seq<Line>, count: nat, rows: seq<MemberRow>, next: nat, previous: Option<string>)
    requires count < |lines| && next <= |rows|
    ensures Merge(lines[count..], rows[next..], previous) ==
            if lines[count].Undecodable? then Raised
            else if OutOfOrder(LineKey(lines[count]), previous) then Rejected
            else
              var rest := DropBefore(rows[next..], LineKey(lines[count]).value);
              if rest == [] || Canonical(rest[0]) != lines[count] then Rejected
              else Merge(lines[count + 1..], rest[1..], LineKey(lines[count]))
  {
    assert lines[count..][1..] == lines[count + 1..];
  }

  lemma RowsInStep(lines: seq<Line>, count: nat)
    requires count < |lines| && lines[count].Canonical?
    ensures RowsIn(lines[count..]) == [lines[count].row] + RowsIn(lines[count + 1..])
  {
    assert lines[count..][1..] == lines[count + 1..];
  }

  /** The candidate found matches the line: the merge goes on behind both. */
  lemma MergeTakes(lines: seq<Line>, count: nat, rows: seq<MemberRow>, next: nat, found: nat, previous: Option<string>)
    requires count < |lines| && next <= found < |rows| && lines[count] == Canonical(rows[found])
    requires !OutOfOrder(LineKey(lines[count]), previous)
    requires rows[found..] == DropBefore(rows[next..], LineKey(lines[count]).value)
    ensures Merge(lines[count..], rows[next..], previous)
              == Merge(lines[count + 1..], rows[found + 1..], LineKey(lines[count]))
  {
    MergeStep(lines, count, rows, next, previous);
    assert rows[found..][1..] == rows[found + 1..];
  }

  /** The merge as the source runs it: one candidate, a running digest and a count. */
  method ContainsPreviousMembership(lines: seq<Line>, entries: seq<Entry>, oldDigest: Digest,
                                    oldCount: Option<nat>)
    returns (verdict: Result<bool, string>)
    ensures verdict == Contains(lines, RowsOf(entries), oldDigest, oldCount)
  {
    hide DropBefore, Less;
    ghost var rows := RowsOf(entries);
    var digest: seq<MemberRow> := [];
    var count := 0;
    var next := 0;
    var previousKey: Option<string> := None;
    while count < |lines|
      invariant count <= |lines| && next <= |entries|
      invariant digest + RowsIn(lines[count..]) == RowsIn(lines)
      invariant Merge(lines[count..], rows[next..], previousKey) == Merge(lines, rows, None)
    {
      var line := lines[count];
      MergeStep(lines, count, rows, next, previousKey);
      if line.Undecodable? {
        return Err("unreadable membership sidecar");
      }
      var oldKey := LineKey(line);
      if OutOfOrder(oldKey, previousKey) {
        return Ok(false);
      }
      var found := SkipBefore(entries, next, oldKey.value);
      if found == |entries| || Canonical(RowOf(entries[found])) != line {
        return Ok(false);
      }
      MergeTakes(lines, count, rows, next, found, previousKey);
      RowsInStep(lines, count);
      digest := digest + [line.row];
      previousKey := oldKey;
      count := count + 1;
      next := found + 1;
    }
    assert lines[count..] == [];
    return Ok(OfRows(digest) == oldDigest && oldCount == Some(count));
  }

  /** The inner loop: advance the candidate past every key below the old one. */
  method SkipBefore(entries: seq<Entry>, from: nat, key: string) returns (next: nat)
    requires from <= |entries|
    ensures from <= next <= |entries|
    ensures RowsOf(entries)[next..] == DropBefore(RowsOf(entries)[from..], key)
  {
    ghost var rows := RowsOf(entries);
    next := from;
    while next < |entries| && Less(entries[next].key, key)
      invariant from <= next <= |entries|
      invariant DropBefore(rows[next..], key) == DropBefore(rows[from..], key)
    {
      assert rows[next..][1..] == rows[next + 1..];
      next := next + 1;
    }
  }

  // ----- What an accepted sidecar proves -----

  ghost predicate Ascending(rows: seq<MemberRow>) {
    forall i, j :: 0 <= i < j < |rows| ==> Less(rows[i].key, rows[j].key)
  }

  /** `places` picks the elements of `part` out of `whole`, from left to right. */
  ghost predicate Picks<T>(part: seq<T>, whole: seq<T>, places: seq<nat>) {
    && |places| == |part|
    && (forall i :: 0 <= i < |part| ==> places[i] < |whole| && whole[places[i]] == part[i])
    && (forall i, j :: 0 <= i < j < |part| ==> places[i] < places[j])
  }

  ghost predicate Subsequence<T(!new)>(part: seq<T>, whole: seq<T>) {
    exists places :: Picks(part, whole, places)
  }

  lemma {:induction false} DropBeforeIsSuffix(rows: seq<MemberRow>, key: string) returns (dropped: nat)
    ensures dropped <= |rows| && DropBefore(rows, key) == rows[dropped..]
    ensures forall i :: 0 <= i < dropped ==> Less(rows[i].key, key)
    ensures dropped < |rows| ==> !Less(rows[dropped].key, key)
  {
    if rows == [] || !Less(rows[0].key, key) {
      dropped := 0;
    } else {
      var d := DropBeforeIsSuffix(rows[1..], key);
      dropped := d + 1;
      forall i | 0 <= i < dropped ensures Less(rows[i].key, key) {
        if i > 0 { assert rows[i] == rows[1..][i - 1]; }
      }
    }
  }

  lemma PickFirst<T>(part: seq<T>, whole: seq<T>, first: nat, later: seq<nat>) returns (places: seq<nat>)
    requires part != [] && first < |whole| && whole[first] == part[0]
    requires Picks(part[1..], whole[first + 1..], later)
    ensures Picks(part, whole, places)
  {
    places := [first] + seq(|later|, i requires 0 <= i < |later| => later[i] + first + 1);
    forall i | 0 < i < |part| ensures places[i] < |whole| && whole[places[i]] == part[i] {
      assert part[i] == part[1..][i - 1];
    }
  }

  /** The first line of an accepted sidecar matches a new row; the rest merges behind it. */
  lemma AcceptedHead(lines: seq<Line>, rows: seq<MemberRow>, previous: Option<string>) returns (at: nat)
    requires lines != [] && Merge(lines, rows, previous) == Accepted
    ensures at < |rows| && lines[0] == Canonical(rows[at])
    ensures previous.Some? ==> Less(previous.value, rows[at].key)
    ensures Merge(lines[1..], rows[at + 1..], Some(rows[at].key)) == Accepted
    ensures RowsIn(lines) == [rows[at]] + RowsIn(lines[1..])
  {
    at := DropBeforeIsSuffix(rows, lines[0].row.key);
    assert rows[at..][0] == rows[at] && rows[at..][1..] == rows[at + 1..];
  }

  lemma {:induction false} AcceptedLinesAreCanonical(lines: seq<Line>, rows: seq<MemberRow>, previous: Option<string>)
    requires Merge(lines, rows, previous) == Accepted
    ensures lines == LinesOf(RowsIn(lines))
    decreases |lines|
  {
    if lines != [] {
      var at := AcceptedHead(lines, rows, previous);
      AcceptedLinesAreCanonical(lines[1..], rows[at + 1..], Some(rows[at].key));
      assert lines == [lines[0]] + lines[1..];
    }
  }

  /** The rows of accepted lines are picked from the new rows. */
  lemma {:induction false} AcceptedRowsArePicked(lines: seq<Line>, rows: seq<MemberRow>, previous: Option<string>)
    returns (places: seq<nat>)
    requires Merge(lines, rows, previous) == Accepted
    ensures Picks(RowsIn(lines), rows, places)
    decreases |lines|
  {
    places := [];
    if lines != [] {
      var at := AcceptedHead(lines, rows, previous);
      var later := AcceptedRowsArePicked(lines[1..], rows[at + 1..], Some(rows[at].key));
      assert RowsIn(lines)[1..] == RowsIn(lines[1..]);
      places := PickFirst(RowsIn(lines), rows, at, later);
    }
  }

  lemma {:induction false} AcceptedRowsAscend(lines: seq<Line>, rows: seq<MemberRow>, previous: Option<string>)
    requires Merge(lines, rows, previous) == Accepted
    ensures Ascending(RowsIn(lines))
    ensures previous.Some? ==> forall row :: row in RowsIn(lines) ==> Less(previous.value, row.key)
    decreases |lines|
  {
    if lines != [] {
      var at := AcceptedHead(lines, rows, previous);
      var key := rows[at].key;
      AcceptedRowsAscend(lines[1..], rows[at + 1..], Some(key));
      AscendFirst(rows[at], RowsIn(lines[1..]));
      forall row | row in RowsIn(lines[1..]) && previous.Some? ensures Less(previous.value, row.key) {
        Transitive(previous.value, key, row.key);
      }
    }
  }

  lemma AscendFirst(first: MemberRow, rest: seq<MemberRow>)
    requires Ascending(rest) && forall row :: row in rest ==> Less(first.key, row.key)
    ensures Ascending([first] + rest)
  {
  }

  /** Conversely, rows in key order that all reappear among rows in key order are accepted. */
  lemma {:induction false} ContainedRowsAreAccepted(stored: seq<MemberRow>, rows: seq<MemberRow>,
                                                    previous: Option<string>)
    requires Ascending(stored) && Ascending(rows)
    requires forall row :: row in stored ==> row in rows
    requires previous.Some? ==> forall row :: row in stored ==> Less(previous.value, row.key)
    ensures Merge(LinesOf(stored), rows, previous) == Accepted
    decreases |stored|
  {
    if stored != [] {
      var d := ContainedFirst(stored, rows);
      assert rows[d..][0] == stored[0] && rows[d..][1..] == rows[d + 1..];
      ContainedRest(stored, rows, d);
      ContainedRowsAreAccepted(stored[1..], rows[d + 1..], Some(stored[0].key));
      assert LinesOf(stored)[1..] == LinesOf(stored[1..]);
      assert LinesOf(stored)[0] == Canonical(stored[0]) && stored[0] in stored;
    }
  }

  lemma ContainedFirst(stored: seq<MemberRow>, rows: seq<MemberRow>) returns (at: nat)
    requires Ascending(rows) && stored != [] && stored[0] in rows
    ensures at < |rows| && rows[at] == stored[0] && DropBefore(rows, stored[0].key) == rows[at..]
  {
    var key := stored[0].key;
    at := DropBeforeIsSuffix(rows, key);
    var found :| 0 <= found < |rows| && rows[found] == stored[0];
    Irreflexive(key);
    assert at <= found;
    assert at == found;
  }

  lemma ContainedRest(stored: seq<MemberRow>, rows: seq<MemberRow>, at: nat)
    requires Ascending(stored) && Ascending(rows) && stored != []
    requires forall row :: row in stored ==> row in rows
    requires at < |rows| && rows[at] == stored[0]
    ensures Ascending(stored[1..]) && Ascending(rows[at + 1..])
    ensures forall row :: row in stored[1..] ==> row in rows[at + 1..] && Less(stored[0].key, row.key)
  {
    forall row | row in stored[1..] ensures row in rows[at + 1..] && Less(stored[0].key, row.key) {
      var i :| 0 <= i < |stored[1..]| && stored[1..][i] == row;
      assert row == stored[i + 1] && Less(stored[0].key, row.key);
      assert row in rows;
      var j :| 0 <= j < |rows| && rows[j] == row;
      if j < at { Asymmetric(row.key, stored[0].key); }
      Irreflexive(stored[0].key);
      assert rows[at + 1..][j - at - 1] == row;
    }
  }

  lemma {:induction false} RowsInOfLinesOf(rows: seq<MemberRow>)
    ensures RowsIn(LinesOf(rows)) == rows
  {
    if rows != [] {
      RowsInOfLinesOf(rows[1..]);
      assert LinesOf(rows)[1..] == LinesOf(rows[1..]);
    }
  }

  /**
   Soundness for every sidecar and every group: a positive verdict means that the sidecar
   holds exactly the rows behind the digest recorded on the archive, and that those rows
   are a subsequence of the new rows.
   */
  lemma PositiveVerdictIsAuthenticated(lines: seq<Line>, rows: seq<MemberRow>, oldDigest: Digest, oldCount: Option<nat>)
    returns (stored: seq<MemberRow>)
    requires Contains(lines, rows, oldDigest, oldCount) == Ok(true)
    ensures lines == LinesOf(stored) && oldDigest == OfRows(stored) && oldCount == Some(|stored|)
    ensures Ascending(stored) && Subsequence(stored, rows)
    ensures forall row :: row in stored ==> row in rows
  {
    stored := RowsIn(lines);
    AcceptedLinesAreCanonical(lines, rows, None);
    AcceptedRowsAscend(lines, rows, None);
    var places := AcceptedRowsArePicked(lines, rows, None);
    forall row | row in stored ensures row in rows {
      var i :| 0 <= i < |stored| && stored[i] == row;
      assert rows[places[i]] == row;
    }
  }

  /**
   Exactness: against new rows in strictly ascending key order, a sidecar of canonical rows
   is accepted if and only if its rows are in strictly ascending key order, match the
   recorded digest and count, and are all among the new rows.
   */
  lemma VerdictIsExact(stored: seq<MemberRow>, rows: seq<MemberRow>, oldDigest: Digest, oldCount: Option<nat>)
    requires Ascending(rows)
    ensures Contains(LinesOf(stored), rows, oldDigest, oldCount) == Ok(true)
       <==> && Ascending(stored)
            && oldDigest == OfRows(stored)
            && oldCount == Some(|stored|)
            && forall row :: row in stored ==> row in rows
  {
    RowsInOfLinesOf(stored);
    if Contains(LinesOf(stored), rows, oldDigest, oldCount) == Ok(true) {
      var read := PositiveVerdictIsAuthenticated(LinesOf(stored), rows, oldDigest, oldCount);
    } else if Ascending(stored) && forall row :: row in stored ==> row in rows {
      ContainedRowsAreAccepted(stored, rows, None);
    }
  }
}
