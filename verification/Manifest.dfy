/**
 Manifest entries, the member identity each contributes to an archive, and the digest of
 a list of members.

 Canonical JSON rows and SHA-256 are treated as injective, so the digest of a list of
 rows is represented by the list itself.
 */
module Manifest {
  import opened Wrappers

  datatype CopyMode = Direct | DailyTarGz | TimestampChildTarGz

  /** One source object selected for archiving. */
  datatype Entry = Entry(
    routeName: string,
    parserKind: string,
    copyMode: CopyMode,
    sourceIdentity: string,
    sourceBucket: string,
    sourcePath: string,
    key: string,
    versionId: Option<string>,
    etag: Option<string>,
    size: int,
    selectedTimestamp: Option<string>,
    timestampSource: Option<string>,
    targetDay: string,
    archiveRoot: string,
    destinationIdentity: string,
    destinationBucket: string,
    destinationKey: string,
    destinationArchiveKey: string)

  /** The canonical identity row of an archive member. */
  datatype MemberRow = MemberRow(
    copyMode: CopyMode,
    destinationArchiveKey: string,
    key: string,
    parserKind: string,
    routeName: string,
    size: int,
    sourceBucket: string,
    sourceIdentity: string,
    sourcePath: string,
    etag: Option<string>,
    versionId: Option<string>,
    selectedTimestamp: Option<string>,
    timestampSource: Option<string>)

  /** One archived source object that is safe to delete, as named by a cleanup manifest. */
  datatype CleanupRecord = CleanupRecord(
    routeName: string,
    sourceIdentity: string,
    sourceBucket: string,
    key: string,
    versionId: Option<string>,
    size: int,
    etag: Option<string>,
    destinationBucket: string,
    destinationKey: string,
    destinationArchiveKey: string,
    copyMode: CopyMode)

  function RecordOf(e: Entry): CleanupRecord {
    CleanupRecord(e.routeName, e.sourceIdentity, e.sourceBucket, e.key, e.versionId, e.size, e.etag,
                  e.destinationBucket, e.destinationKey, e.destinationArchiveKey, e.copyMode)
  }

  /** A digest found in metadata is either the digest of some rows or unrelated text. */
  datatype Digest = OfRows(rows: seq<MemberRow>) | Text(text: string)

  function RowOf(e: Entry): MemberRow {
    MemberRow(e.copyMode, e.destinationArchiveKey, e.key, e.parserKind, e.routeName, e.size,
              e.sourceBucket, e.sourceIdentity, e.sourcePath, e.etag, e.versionId,
              e.selectedTimestamp, e.timestampSource)
  }

  function RowsOf(entries: seq<Entry>): seq<MemberRow> {
    seq(|entries|, i requires 0 <= i < |entries| => RowOf(entries[i]))
  }

  /** The incremental digest of a list of entries: rows are added one at a time. */
  class DigestBuilder {
    var rows: seq<MemberRow>

    constructor ()
      ensures rows == []
    {
      rows := [];
    }

    method Add(e: Entry)
      modifies this
      ensures rows == old(rows) + [RowOf(e)]
    {
      rows := rows + [RowOf(e)];
    }

    function HexDigest(): Digest
      reads this
    {
      OfRows(rows)
    }
  }
}
