/**
 The text of destination keys: numbered chunk keys and membership sidecar keys. The rest
 of the model keeps an archive and its sidecar apart by constructor; these lemmas say that
 the text does too.
 */
module Naming {
  const TAR_SUFFIX := ".tar.gz"
  const SIDECAR_SUFFIX := ".jsonl.gz"

  predicate EndsWith(s: string, suffix: string) {
    |suffix| <= |s| && s[|s| - |suffix|..] == suffix
  }

  function Digit(d: nat): char
    requires d < 10
  {
    '0' + d as char
  }

  function Decimal(n: nat): string {
    if n < 10 then [Digit(n)] else Decimal(n / 10) + [Digit(n % 10)]
  }

  function PadTo(width: nat, s: string): string
    decreases width - |s|
  {
    if |s| >= width then s else PadTo(width, "0" + s)
  }

  function ChunkKey(key: string, index: nat): string {
    if index == 1 then key
    else if EndsWith(key, TAR_SUFFIX)
    then key[..|key| - 7] + ".part-" + PadTo(5, Decimal(index)) + TAR_SUFFIX
    else key + ".part-" + PadTo(5, Decimal(index))
  }

  function MembershipKey(archiveKey: string, digest: string): string {
    archiveKey + ".members." + digest + SIDECAR_SUFFIX
  }

  // ----- Numbers can be read back -----

  function Value(s: string): int {
    if s == "" then 0 else Value(s[..|s| - 1]) * 10 + (s[|s| - 1] as int - '0' as int)
  }

  lemma {:induction false} DecimalReadsBack(n: nat)
    ensures Value(Decimal(n)) == n
  {
    var s := Decimal(n);
    if n < 10 {
      assert s[..|s| - 1] == "" && Value("") == 0;
    } else {
      DecimalReadsBack(n / 10);
      assert s[..|s| - 1] == Decimal(n / 10);
    }
  }

  lemma {:induction false} LeadingZero(s: string)
    ensures Value("0" + s) == Value(s)
    decreases |s|
  {
    var z := "0" + s;
    if s == "" {
      assert z[..0] == "" && z == "0";
    } else {
      LeadingZero(s[..|s| - 1]);
      assert z[..|z| - 1] == "0" + s[..|s| - 1];
    }
  }

  lemma {:induction false} PaddingReadsBack(width: nat, s: string)
    ensures Value(PadTo(width, s)) == Value(s)
    decreases width - |s|
  {
    if |s| < width {
      LeadingZero(s);
      PaddingReadsBack(width, "0" + s);
    }
  }

  lemma SameMiddle(head: string, a: string, b: string, tail: string)
    requires head + a + tail == head + b + tail
    ensures a == b
  {
    assert |a| == |b|;
    assert a == (head + a + tail)[|head|..|head| + |a|];
    assert b == (head + b + tail)[|head|..|head| + |b|];
  }

  // ----- Keys do not collide -----

  /** The chunks of one group are stored under different keys, whatever the group's key. */
  lemma ChunkKeysDiffer(key: string, i: nat, j: nat)
    requires i != j
    ensures ChunkKey(key, i) != ChunkKey(key, j)
  {
    var head := (if EndsWith(key, TAR_SUFFIX) then key[..|key| - 7] else key) + ".part-";
    var tail := if EndsWith(key, TAR_SUFFIX) then TAR_SUFFIX else "";
    var a, b := PadTo(5, Decimal(i)), PadTo(5, Decimal(j));
    DecimalReadsBack(i);
    DecimalReadsBack(j);
    PaddingReadsBack(5, Decimal(i));
    PaddingReadsBack(5, Decimal(j));
    PaddedLength(5, Decimal(i));
    PaddedLength(5, Decimal(j));
    assert i != 1 ==> ChunkKey(key, i) == head + a + tail;
    assert j != 1 ==> ChunkKey(key, j) == head + b + tail;
    if i != 1 && j != 1 && ChunkKey(key, i) == ChunkKey(key, j) {
      SameMiddle(head, a, b, tail);
    }
  }

  lemma {:induction false} PaddedLength(width: nat, s: string)
    ensures |PadTo(width, s)| >= width
    decreases width - |s|
  {
    if |s| < width {
      PaddedLength(width, "0" + s);
    }
  }

  lemma ChunkKeysStayArchives(key: string, i: nat)
    requires EndsWith(key, TAR_SUFFIX)
    ensures EndsWith(ChunkKey(key, i), TAR_SUFFIX)
  {
  }

  /** A sidecar never takes the place of an archive. */
  lemma SidecarIsNoArchive(archiveKey: string, digest: string, other: string)
    requires EndsWith(other, TAR_SUFFIX)
    ensures MembershipKey(archiveKey, digest) != other
  {
    var s := MembershipKey(archiveKey, digest);
    assert s[|s| - 7] == 's';
    assert other[|other| - 7..][0] == other[|other| - 7];
  }

  /** Sidecar keys with digests of one length name one archive and one digest. */
  lemma SidecarNamesItsArchive(a: string, d: string, b: string, e: string)
    requires |d| == |e| && MembershipKey(a, d) == MembershipKey(b, e)
    ensures a == b && d == e
  {
    var s := MembershipKey(a, d);
    assert |a| == |b|;
    assert a == s[..|a|] && b == s[..|b|];
    assert d == s[|a| + 9..|a| + 9 + |d|];
    assert e == s[|b| + 9..|b| + 9 + |e|];
  }
}
