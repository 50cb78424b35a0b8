/**
 The two object stores of a route. A source holds exact versions of objects; a destination
 holds archives, their membership sidecars and directly copied objects. Every put, get,
 head and delete is one atomic step.
 */
module Stores {
  import opened Wrappers
  import opened Manifest
  import opened Membership

  type Payload = string

  /** An exact place in a source: the storage, the bucket, the key and the version if any. */
  datatype Slot = Slot(identity: string, bucket: string, key: string, version: Option<string>)

  /** What a source holds in a slot. An ETag is a strong validator of the payload. */
  datatype SourceObject = SourceObject(etag: Option<string>, payload: Payload)

  type SourceStore = map<Slot, SourceObject>

  datatype Address = Address(bucket: string, name: string)

  /** A destination key: an ordinary one, or the content-addressed sidecar of an archive. */
  datatype DestKey =
    | At(address: Address)
    | MembersOf(address: Address, digest: Digest)

  /** A tar member: the identity it was archived under and the bytes read for it. */
  datatype Member = Member(row: MemberRow, payload: Payload)

  datatype Fingerprint = Fingerprint(bucket: string, identity: string, key: string, size: int,
                                     version: Option<string>, etag: Option<string>)

  /** The user metadata of a destination object; an absent entry is None. */
  datatype Metadata = Metadata(
    manifestSha: Option<Digest>,
    targetDay: Option<string>,
    sourceCount: Option<nat>,
    schemaVersion: Option<string>,
    archiveSha: Option<seq<Member>>,
    archiveSize: Option<nat>,
    membershipKey: Option<DestKey>,
    fingerprint: Option<Fingerprint>)

  datatype Body =
    | Tar(members: seq<Member>)
    | Sidecar(lines: seq<Line>)
    | Plain(payload: Payload)

  datatype DestObject = DestObject(metadata: Metadata, body: Body, size: nat)

  type DestStore = map<DestKey, DestObject>

  const NO_METADATA := Metadata(None, None, None, None, None, None, None, None)

  function SlotOf(e: Entry): Slot {
    Slot(e.sourceIdentity, e.sourceBucket, e.key, e.versionId)
  }

  function RowSlot(row: MemberRow): Slot {
    Slot(row.sourceIdentity, row.sourceBucket, row.key, row.versionId)
  }

  function RecordSlot(r: CleanupRecord): Slot {
    Slot(r.sourceIdentity, r.sourceBucket, r.key, r.versionId)
  }

  function MemberRows(members: seq<Member>): seq<MemberRow> {
    seq(|members|, i requires 0 <= i < |members| => members[i].row)
  }

  /** A read under an optional If-Match precondition (RFC 9110, section 13.1.1). */
  function Read(source: SourceStore, slot: Slot, ifMatch: Option<string>): Option<Payload> {
    if slot in source && (ifMatch.None? || source[slot].etag == ifMatch)
    then Some(source[slot].payload)
    else None
  }
}
