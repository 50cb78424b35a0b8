/**
 Multipart transfers: the ranges an object is copied in, the window of parts an upload
 keeps in flight, and the object the destination has in the end. What the service answers
 to each part, and whether the upload can be completed or aborted, are inputs.
 */
module Transfer {
  import opened Wrappers

  const CHUNK_BYTES := 8 * 1024 * 1024
  const MAX_PARTS := 10_000
  const WORKERS := 4

  function MultipartChunkSize(size: nat): (chunk: nat)
    ensures chunk >= CHUNK_BYTES && chunk * MAX_PARTS >= size
  {
    var spread := (size + MAX_PARTS - 1) / MAX_PARTS;
    if CHUNK_BYTES < spread then spread else CHUNK_BYTES
  }

  // ----- Ranges -----

  /** A numbered part with its first and last byte, both included. */
  datatype Range = Range(number: nat, first: nat, last: int)

  /** The parts from a start on. */
  function RangesFrom(number: nat, start: nat, size: nat, chunk: nat): seq<Range>
    requires chunk > 0
    decreases size - start
  {
    if start >= size then []
    else
      var next := start + chunk;
      [Range(number, start, (if next < size then next else size) - 1)] + RangesFrom(number + 1, next, size, chunk)
  }

  predicate Sound(range: Range, number: nat, chunk: nat) {
    range.number == number && range.first <= range.last < range.first + chunk
  }

  predicate Follows(range: Range, next: Range, chunk: nat) {
    next.first == range.last + 1 == range.first + chunk
  }

  /** Numbered in order, back to back, from the first byte to the last, none empty and only the last one short. */
  ghost predicate Tiles(ranges: seq<Range>, number: nat, start: nat, size: nat, chunk: nat) {
    && ranges != [] && ranges[0].first == start && ranges[|ranges| - 1].last == size - 1
    && (forall k :: 0 <= k < |ranges| ==> Sound(ranges[k], number + k, chunk))
    && (forall j, k :: 0 <= j < k < |ranges| && k == j + 1 ==> Follows(ranges[j], ranges[k], chunk))
  }

  lemma TilesPrepended(head: Range, tail: seq<Range>, size: nat, chunk: nat)
    requires chunk > 0 && head.last + 1 == head.first + chunk
    requires Tiles(tail, head.number + 1, head.first + chunk, size, chunk)
    ensures Tiles([head] + tail, head.number, head.first, size, chunk)
  {
    var all := [head] + tail;
    forall k | 0 <= k < |all| ensures Sound(all[k], head.number + k, chunk) {
      assert k > 0 ==> all[k] == tail[k - 1];
    }
    forall j, k | 0 <= j < k < |all| && k == j + 1 ensures Follows(all[j], all[k], chunk) {
      assert all[k] == tail[j] && (j > 0 ==> all[j] == tail[j - 1]);
    }
  }

  lemma FirstRange(number: nat, start: nat, size: nat, chunk: nat)
    requires chunk > 0 && start < size
    ensures RangesFrom(number, start, size, chunk)
         == if start + chunk < size
            then [Range(number, start, start + chunk - 1)] + RangesFrom(number + 1, start + chunk, size, chunk)
            else [Range(number, start, size - 1)]
  {
    if start + chunk >= size {
      assert RangesFrom(number + 1, start + chunk, size, chunk) == [];
    }
  }

  lemma {:induction false} RangesTile(number: nat, start: nat, size: nat, chunk: nat)
    requires chunk > 0 && start < size
    ensures Tiles(RangesFrom(number, start, size, chunk), number, start, size, chunk)
    decreases size - start
  {
    FirstRange(number, start, size, chunk);
    if start + chunk < size {
      RangesTile(number + 1, start + chunk, size, chunk);
      TilesPrepended(Range(number, start, start + chunk - 1), RangesFrom(number + 1, start + chunk, size, chunk), size,
          chunk);
    }
  }

  /** As many parts as it takes, and no more. */
  lemma {:induction false} RangeCount(number: nat, start: nat, size: nat, chunk: nat)
    requires chunk > 0 && start < size
    ensures var n := |RangesFrom(number, start, size, chunk)|; n > 0 && (n - 1) * chunk < size - start <= n * chunk
    decreases size - start
  {
    var next := start + chunk;
    var n := |RangesFrom(number + 1, next, size, chunk)|;
    assert |RangesFrom(number, start, size, chunk)| == n + 1;
    if next < size {
      RangeCount(number + 1, next, size, chunk);
      assert (n + 1) * chunk == n * chunk + chunk && n * chunk == (n - 1) * chunk + chunk;
    }
  }

  /** Every object fits the service's limit of parts; no smaller permitted chunk would do. */
  lemma MultipartTiles(size: nat, smaller: nat)
    requires size > 0
    ensures var ranges := RangesFrom(1, 0, size, MultipartChunkSize(size));
            Tiles(ranges, 1, 0, size, MultipartChunkSize(size)) && |ranges| <= MAX_PARTS
    ensures CHUNK_BYTES <= smaller < MultipartChunkSize(size) ==> |RangesFrom(1, 0, size, smaller)| > MAX_PARTS
  {
    var chunk := MultipartChunkSize(size);
    RangesTile(1, 0, size, chunk);
    RangeCount(1, 0, size, chunk);
    ProductsGrow(MAX_PARTS, |RangesFrom(1, 0, size, chunk)| - 1, chunk);
    if CHUNK_BYTES <= smaller < chunk {
      RangeCount(1, 0, size, smaller);
      ProductsGrow(|RangesFrom(1, 0, size, smaller)|, MAX_PARTS, smaller);
    }
  }

  lemma ProductsGrow(a: int, b: int, chunk: nat)
    ensures a <= b ==> a * chunk <= b * chunk
  {
  }

  // ----- Pieces of a content -----

  function Pieces<T>(content: seq<T>, chunk: nat): seq<seq<T>>
    requires chunk > 0
    decreases |content|
  {
    if content == [] then []
    else if |content| <= chunk then [content]
    else [content[..chunk]] + Pieces(content[chunk..], chunk)
  }

  function Concat<T>(pieces: seq<seq<T>>): seq<T> {
    if pieces == [] then [] else pieces[0] + Concat(pieces[1..])
  }

  lemma {:induction false} PiecesJoin<T>(content: seq<T>, chunk: nat)
    requires chunk > 0
    ensures Concat(Pieces(content, chunk)) == content
    decreases |content|
  {
    if |content| > chunk {
      PiecesJoin(content[chunk..], chunk);
    } else if content != [] {
      assert [content][1..] == [];
    }
  }

  /** The ranges cut the content into the same pieces as reading it chunk by chunk. */
  lemma {:induction false} RangesAreConsecutivePieces<T>(content: seq<T>, number: nat, start: nat, chunk: nat)
    requires chunk > 0 && start <= |content|
    ensures var ranges := RangesFrom(number, start, |content|, chunk);
            var pieces := Pieces(content[start..], chunk);
            && |ranges| == |pieces|
            && forall k :: 0 <= k < |ranges| ==>
                 0 <= ranges[k].first <= ranges[k].last + 1 <= |content|
                     && pieces[k] == content[ranges[k].first..ranges[k].last + 1]
    decreases |content| - start
  {
    if start + chunk < |content| {
      RangesAreConsecutivePieces(content, number + 1, start + chunk, chunk);
      assert content[start..][chunk..] == content[start + chunk..];
      assert content[start..][..chunk] == content[start..start + chunk];
    } else if start < |content| {
      assert RangesFrom(number + 1, start + chunk, |content|, chunk) == [];
    }
  }

  // ----- The destination -----

  datatype Part<T> = Part(body: seq<T>, etag: string)
  datatype Record = Record(number: nat, etag: string)

  /** What the service answers to a part: its etag, or nothing when the request fails or has none. */
  type Answers = nat -> Option<string>

  /** A write is accepted, refused, or takes effect while its answer is lost on the way back. */
  datatype Outcome = Accepted | Refused | Lost

  /** How the service treats one transfer. */
  datatype Service = Service(opens: bool, answers: Answers, completion: Outcome, aborts: bool)

  /** One key with at most one upload under way. */
  class Destination<T> {
    var stored: Option<seq<T>>
    var parts: map<nat, Part<T>>

    method Create()
      modifies this
      ensures stored == old(stored) && parts == map[]
    {
      parts := map[];
    }

    method UploadPart(number: nat, body: seq<T>, answer: Option<string>)
      modifies this
      ensures stored == old(stored)
      ensures parts == if answer.Some? then old(parts)[number := Part(body, answer.value)] else old(parts)
    {
      if answer.Some? {
        parts := parts[number := Part(body, answer.value)];
      }
    }

    /** Joins the parts listed; the numbers must rise and the etags agree. */
    method Complete(records: seq<Record>, outcome: Outcome) returns (ok: bool)
      modifies this
      ensures ok <==> outcome == Accepted && Acceptable(records, old(parts))
      ensures outcome != Refused && Acceptable(records, old(parts)) ==>
                stored == Some(Concat(Bodies(records, old(parts)))) && parts == map[]
      ensures outcome == Refused || !Acceptable(records, old(parts)) ==> stored == old(stored) && parts == old(parts)
    {
      ok := outcome == Accepted && Acceptable(records, parts);
      if outcome != Refused && Acceptable(records, parts) {
        stored, parts := Some(Concat(Bodies(records, parts))), map[];
      }
    }

    method Abort(reachable: bool)
      modifies this
      ensures stored == old(stored) && parts == if reachable then map[] else old(parts)
    {
      if reachable {
        parts := map[];
      }
    }

    method Put(body: seq<T>, outcome: Outcome) returns (ok: bool)
      modifies this
      ensures ok <==> outcome == Accepted
      ensures stored == (if outcome == Refused then old(stored) else Some(body)) && parts == old(parts)
    {
      if outcome != Refused {
        stored := Some(body);
      }
      ok := outcome == Accepted;
    }
  }

  predicate Acceptable<T>(records: seq<Record>, parts: map<nat, Part<T>>) {
    && (forall k :: 0 <= k < |records| ==>
          records[k].number in parts && parts[records[k].number].etag == records[k].etag)
    && (forall j, k :: 0 <= j < k < |records| ==> records[j].number < records[k].number)
  }

  function Bodies<T>(records: seq<Record>, parts: map<nat, Part<T>>): (bodies: seq<seq<T>>)
    requires forall k :: 0 <= k < |records| ==> records[k].number in parts
    ensures |bodies| == |records|
    ensures forall k :: 0 <= k < |records| ==> bodies[k] == parts[records[k].number].body
  {
    seq(|records|, k requires 0 <= k < |records| => parts[records[k].number].body)
  }

  // ----- Sending the parts -----

  /** The first parts were answered, and the list numbers them in order. */
  ghost predicate Listed(records: seq<Record>, answers: Answers) {
    forall k :: 0 <= k < |records| ==> answers(k + 1) == Some(records[k].etag) && records[k].number == k + 1
  }

  predicate Held<T(==)>(parts: map<nat, Part<T>>, number: nat, piece: seq<T>, answer: Option<string>) {
    answer.Some? ==> number in parts && parts[number] == Part(piece, answer.value)
  }

  /** The destination has the first pieces that were answered, each under its number. */
  ghost predicate Holds<T>(parts: map<nat, Part<T>>, pieces: seq<seq<T>>, answers: Answers) {
    forall k :: 0 <= k < |pieces| ==> Held(parts, k + 1, pieces[k], answers(k + 1))
  }

  function Min(a: nat, b: nat): nat {
    if a < b then a else b
  }

  type Future = (nat, Option<string>)

  /** Parts sent after so many were collected, in order, with their answers. */
  ghost predicate InFlight(pending: seq<Future>, collected: nat, answers: Answers) {
    forall k :: 0 <= k < |pending| ==> pending[k] == (collected + k + 1, answers(collected + k + 1))
  }

  /** Takes the results of pending parts in order, up to the first failure. */
  method Collect(records: seq<Record>, pending: seq<Future>, ghost answers: Answers)
    returns (sent: Result<seq<Record>, nat>)
    requires Listed(records, answers) && InFlight(pending, |records|, answers)
    ensures sent.Ok? ==> |sent.value| == |records| + |pending| && Listed(sent.value, answers)
    ensures sent.Err? ==>
              && |records| < sent.error <= |records| + |pending| && answers(sent.error).None?
              && (forall k :: 1 <= k < sent.error ==> answers(k).Some?)
  {
    var all := records;
    for k := 0 to |pending|
      invariant |all| == |records| + k && Listed(all, answers)
    {
      var (number, answer) := pending[k];
      if answer.None? {
        assert forall j :: 1 <= j < number ==> answers(j) == Some(all[j - 1].etag);
        return Err(number);
      }
      all := all + [Record(number, answer.value)];
    }
    sent := Ok(all);
  }

  /** Sending the next piece keeps what the destination holds. */
  method Send<T>(destination: Destination<T>, ghost pieces: seq<seq<T>>, body: seq<T>, number: nat, answers: Answers)
    requires number == |pieces| + 1 && Holds(destination.parts, pieces, answers)
    modifies destination
    ensures destination.stored == old(destination.stored)
    ensures Holds(destination.parts, pieces + [body], answers)
  {
    ghost var before := destination.parts;
    destination.UploadPart(number, body, answers(number));
    ghost var all := pieces + [body];
    forall k | 0 <= k < |all| ensures Held(destination.parts, k + 1, all[k], answers(k + 1)) {
      if k < |pieces| {
        assert Held(before, k + 1, pieces[k], answers(k + 1));
      }
    }
  }

  lemma PieceRead<T>(pieces: seq<seq<T>>, rest: seq<T>, chunk: nat)
    requires chunk > 0 && rest != []
    ensures var size := Min(chunk, |rest|);
            (pieces + [rest[..size]]) + Pieces(rest[size..], chunk) == pieces + Pieces(rest, chunk)
  {
    if |rest| <= chunk {
      assert rest[..|rest|] == rest;
    } else {
      assert Pieces(rest, chunk) == [rest[..chunk]] + Pieces(rest[chunk..], chunk);
    }
  }

  lemma OneMore(pending: seq<Future>, collected: nat, answers: Answers)
    requires InFlight(pending, collected, answers)
    ensures var next := collected + |pending| + 1; InFlight(pending + [(next, answers(next))], collected, answers)
  {
  }

  /**
   The window: at most four parts in flight, results taken in the order sent. A part that
   fails stops the reading at most three parts later.
   */
  method UploadFileParts<T>(destination: Destination<T>, file: seq<T>, chunk: nat, answers: Answers)
    returns (sent: Result<seq<Record>, nat>, submitted: nat, peak: nat)
    requires chunk > 0
    modifies destination
    ensures destination.stored == old(destination.stored)
    ensures submitted <= |Pieces(file, chunk)| && Holds(destination.parts, Pieces(file, chunk)[..submitted], answers)
    ensures sent.Ok? ==> |sent.value| == submitted == |Pieces(file, chunk)| && Listed(sent.value, answers)
    ensures sent.Err? ==>
              && 1 <= sent.error <= |Pieces(file, chunk)| && answers(sent.error).None?
              && (forall k :: 1 <= k < sent.error ==> answers(k).Some?)
              && submitted == Min(|Pieces(file, chunk)|, sent.error + WORKERS - 1)
    ensures peak == Min(submitted, WORKERS)
  {
    var rest := file;
    var records: seq<Record> := [];
    var pending: seq<Future> := [];
    ghost var pieces, total := [], Pieces(file, chunk);
    submitted, peak := 0, 0;
    while rest != []
      invariant destination.stored == old(destination.stored)
      invariant pieces + Pieces(rest, chunk) == total && |pieces| == submitted
      invariant submitted == |records| + |pending| && |pending| == Min(submitted, WORKERS - 1)
      invariant Listed(records, answers) && InFlight(pending, |records|, answers)
      invariant Holds(destination.parts, pieces, answers)
      invariant peak == Min(submitted, WORKERS)
      decreases |rest|
    {
      var size := Min(chunk, |rest|);
      submitted := submitted + 1;
      Send(destination, pieces, rest[..size], submitted, answers);
      PieceRead(pieces, rest, chunk);
      pieces, rest := pieces + [rest[..size]], rest[size..];
      OneMore(pending, |records|, answers);
      pending := pending + [(submitted, answers(submitted))];
      peak := if peak < |pending| then |pending| else peak;
      if |pending| >= WORKERS {
        var oldest := Collect(records, pending[..1], answers);
        if oldest.Err? {
          assert total[..submitted] == pieces;
          return oldest, submitted, peak;
        }
        records, pending := oldest.value, pending[1..];
      }
    }
    assert total == pieces == total[..submitted];
    sent := Collect(records, pending, answers);
  }

  // ----- Whole transfers -----

  lemma PartsMakeTheWhole<T>(records: seq<Record>, parts: map<nat, Part<T>>, pieces: seq<seq<T>>, answers: Answers)
    requires |records| == |pieces| && Listed(records, answers) && Holds(parts, pieces, answers)
    ensures Acceptable(records, parts) && Bodies(records, parts) == pieces
  {
    forall k | 0 <= k < |records|
      ensures records[k].number in parts && parts[records[k].number] == Part(pieces[k], records[k].etag)
    {
      assert answers(k + 1) == Some(records[k].etag);
      assert Held(parts, k + 1, pieces[k], answers(k + 1));
    }
  }

  ghost predicate AllAnswered(answers: Answers, count: nat) {
    forall k :: 1 <= k <= count ==> answers(k).Some?
  }

  lemma OutcomeOfParts(sent: Result<seq<Record>, nat>, count: nat, answers: Answers)
    requires sent.Ok? ==> |sent.value| == count && Listed(sent.value, answers)
    requires sent.Err? ==> 1 <= sent.error <= count && answers(sent.error).None?
    ensures sent.Ok? <==> AllAnswered(answers, count)
  {
    if sent.Ok? {
      forall k | 1 <= k <= count ensures answers(k).Some? {
        assert answers(k - 1 + 1) == Some(sent.value[k - 1].etag);
      }
    }
  }

  /** Completes an upload of all parts; aborts it when that fails. */
  method Finish<T>(destination: Destination<T>, sent: Result<seq<Record>, nat>, service: Service,
                   ghost pieces: seq<seq<T>>)
    returns (ok: bool)
    requires sent.Ok? ==>
               && |sent.value| == |pieces| && Listed(sent.value, service.answers)
               && Holds(destination.parts, pieces, service.answers)
    modifies destination
    ensures ok <==> sent.Ok? && service.completion == Accepted
    ensures destination.stored
         == if sent.Ok? && service.completion != Refused then Some(Concat(pieces)) else old(destination.stored)
    ensures ok || service.aborts ==> destination.parts == map[]
  {
    ok := false;
    if sent.Ok? {
      PartsMakeTheWhole(sent.value, destination.parts, pieces, service.answers);
      ok := destination.Complete(sent.value, service.completion);
    }
    if !ok {
      destination.Abort(service.aborts);
    }
  }

  /** The file can be sent in full. */
  ghost predicate Sendable<T>(file: seq<T>, service: Service) {
    file == [] || (service.opens && AllAnswered(service.answers, |Pieces(file, MultipartChunkSize(|file|))|))
  }

  /**
   The upload replaces the object by the whole file, or leaves it as it was. One that is
   reported as failed has replaced it all the same when the answer to its last request was lost.
   */
  method UploadFile<T>(destination: Destination<T>, file: seq<T>, service: Service) returns (ok: bool)
    modifies destination
    ensures destination.stored
         == if Sendable(file, service) && service.completion != Refused then Some(file) else old(destination.stored)
    ensures ok <==> Sendable(file, service) && service.completion == Accepted
    ensures file != [] && service.opens && (ok || service.aborts) ==> destination.parts == map[]
    ensures file == [] || !service.opens ==> destination.parts == old(destination.parts)
  {
    if file == [] {
      ok := destination.Put([], service.completion);
      return;
    }
    if !service.opens {
      return false;
    }
    var chunk := MultipartChunkSize(|file|);
    ghost var pieces := Pieces(file, chunk);
    destination.Create();
    var sent, submitted, _ := UploadFileParts(destination, file, chunk, service.answers);
    assert sent.Ok? ==> pieces[..submitted] == pieces;
    OutcomeOfParts(sent, |pieces|, service.answers);
    PiecesJoin(file, chunk);
    ok := Finish(destination, sent, service, pieces);
  }

  // ----- Copies by ranges -----

  /**
   A source object: its content when the copy began, and when each part of it was read. It
   is pinned when parts name its version or are conditional on its ETag.
   */
  datatype Source<T> = Source(head: seq<T>, seen: nat -> seq<T>, pinned: bool)

  function Cut<T>(content: seq<T>, range: Range): seq<T> {
    if range.first <= range.last + 1 <= |content| then content[range.first..range.last + 1] else []
  }

  /** What each part reads. */
  function Reads<T>(source: Source<T>, ranges: seq<Range>): (pieces: seq<seq<T>>)
    ensures |pieces| == |ranges|
  {
    seq(|ranges|, k requires 0 <= k < |ranges| => Cut(source.seen(k + 1), ranges[k]))
  }

  /** The service refuses ranges outside the object, and reads of anything but what a part is pinned to. */
  ghost predicate Honest<T>(source: Source<T>, ranges: seq<Range>, answers: Answers) {
    forall k :: 0 <= k < |ranges| && answers(k + 1).Some? ==>
      ranges[k].last < |source.seen(k + 1)| && (source.pinned ==> source.seen(k + 1) == source.head)
  }

  function CopyRanges(size: nat): seq<Range> {
    RangesFrom(1, 0, size, MultipartChunkSize(size))
  }

  lemma CopyRangesTile(size: nat)
    requires size > 0
    ensures CopyRanges(size) != [] && CopyRanges(size)[0].first == 0
    ensures forall k :: 0 <= k < |CopyRanges(size)| ==> Sound(CopyRanges(size)[k], k + 1, MultipartChunkSize(size))
  {
    var chunk := MultipartChunkSize(size);
    RangesTile(1, 0, size, chunk);
    assert forall k :: 0 <= k < |CopyRanges(size)| ==> Sound(CopyRanges(size)[k], 1 + k, chunk);
  }

  method SendBatch<T>(destination: Destination<T>, source: Source<T>, ranges: seq<Range>, from: nat, to: nat,
                      answers: Answers)
    returns (batch: seq<Future>)
    requires from <= to <= |ranges|
    requires forall k :: 0 <= k < |ranges| ==> ranges[k].number == k + 1
    requires Holds(destination.parts, Reads(source, ranges)[..from], answers)
    modifies destination
    ensures destination.stored == old(destination.stored)
    ensures Holds(destination.parts, Reads(source, ranges)[..to], answers)
    ensures |batch| == to - from && InFlight(batch, from, answers)
  {
    batch := [];
    ghost var pieces := Reads(source, ranges);
    for i := from to to
      invariant destination.stored == old(destination.stored)
      invariant Holds(destination.parts, pieces[..i], answers)
      invariant |batch| == i - from && InFlight(batch, from, answers)
    {
      Send(destination, pieces[..i], Cut(source.seen(i + 1), ranges[i]), ranges[i].number, answers);
      assert pieces[..i] + [pieces[i]] == pieces[..i + 1];
      OneMore(batch, from, answers);
      batch := batch + [(ranges[i].number, answers(ranges[i].number))];
    }
  }

  /** Copies four ranges at a time; a batch is sent in full before its results are looked at. */
  method CopyParts<T>(destination: Destination<T>, source: Source<T>, ranges: seq<Range>, answers: Answers)
    returns (sent: Result<seq<Record>, nat>, submitted: nat)
    requires forall k :: 0 <= k < |ranges| ==> ranges[k].number == k + 1
    modifies destination
    ensures destination.stored == old(destination.stored)
    ensures submitted <= |ranges| && Holds(destination.parts, Reads(source, ranges)[..submitted], answers)
    ensures sent.Ok? ==> |sent.value| == submitted == |ranges| && Listed(sent.value, answers)
    ensures sent.Err? ==>
              && 1 <= sent.error <= |ranges| && answers(sent.error).None?
              && (forall k :: 1 <= k < sent.error ==> answers(k).Some?)
              && submitted == Min(|ranges|, (sent.error - 1) / WORKERS * WORKERS + WORKERS)
  {
    var records: seq<Record> := [];
    submitted := 0;
    while submitted < |ranges|
      invariant destination.stored == old(destination.stored)
      invariant submitted <= |ranges| && (submitted % WORKERS == 0 || submitted == |ranges|)
      invariant Holds(destination.parts, Reads(source, ranges)[..submitted], answers)
      invariant |records| == submitted && Listed(records, answers)
    {
      var end := Min(|ranges|, submitted + WORKERS);
      var batch := SendBatch(destination, source, ranges, submitted, end, answers);
      var all := Collect(records, batch, answers);
      submitted := end;
      if all.Err? {
        return all, submitted;
      }
      records := all.value;
    }
    sent := Ok(records);
  }

  /** Every part of a copy can be read and sent. */
  ghost predicate Copyable<T>(source: Source<T>, service: Service) {
    service.opens && AllAnswered(service.answers, |CopyRanges(|source.head|)|)
  }

  /**
   The copy replaces the object by what its parts read, or leaves it as it was. Tags are
   written afterwards, so a failure there is one of an object already replaced.
   */
  method MultipartCopy<T>(destination: Destination<T>, source: Source<T>, service: Service, tags: Outcome)
    returns (ok: bool)
    requires source.head != []
    modifies destination
    ensures destination.stored
         == if Copyable(source, service) && service.completion != Refused
            then Some(Concat(Reads(source, CopyRanges(|source.head|)))) else old(destination.stored)
    ensures ok <==> Copyable(source, service) && service.completion == Accepted && tags == Accepted
    ensures service.opens && (ok || service.aborts) ==> destination.parts == map[]
  {
    if !service.opens {
      return false;
    }
    var ranges := CopyRanges(|source.head|);
    CopyRangesTile(|source.head|);
    ghost var pieces := Reads(source, ranges);
    destination.Create();
    var sent, submitted := CopyParts(destination, source, ranges, service.answers);
    assert sent.Ok? ==> pieces[..submitted] == pieces;
    OutcomeOfParts(sent, |ranges|, service.answers);
    ok := Finish(destination, sent, service, pieces);
    ok := ok && tags == Accepted;
  }

  /** A pinned copy that was sent in full has the content the copy began with. */
  lemma PinnedCopyIsExact<T>(source: Source<T>, answers: Answers)
    requires source.head != [] && source.pinned
    requires Honest(source, CopyRanges(|source.head|), answers) && AllAnswered(answers, |CopyRanges(|source.head|)|)
    ensures Concat(Reads(source, CopyRanges(|source.head|))) == source.head
  {
    var head, chunk := source.head, MultipartChunkSize(|source.head|);
    var ranges := CopyRanges(|head|);
    assert head[0..] == head;
    RangesAreConsecutivePieces(head, 1, 0, chunk);
    forall k | 0 <= k < |ranges| ensures Reads(source, ranges)[k] == Pieces(head, chunk)[k] {
      assert answers(k + 1).Some?;
    }
    assert Reads(source, ranges) == Pieces(head, chunk);
    PiecesJoin(head, chunk);
  }

  /** The source is replaced while its first part is read. */
  lemma UnpinnedCopyMixes<T>(head: seq<T>, other: T) returns (source: Source<T>, answers: Answers)
    requires head != [] && other != head[0]
    ensures source.head == head && !source.pinned
    ensures Honest(source, CopyRanges(|head|), answers) && AllAnswered(answers, |CopyRanges(|head|)|)
    ensures Concat(Reads(source, CopyRanges(|head|))) != head
  {
    source := Source(head, k => if k == 1 then head[0 := other] else head, false);
    answers := _ => Some("etag");
    var ranges := CopyRanges(|head|);
    CopyRangesTile(|head|);
    assert Honest(source, ranges, answers) by {
      RangesEnd(1, 0, |head|, MultipartChunkSize(|head|));
    }
    var pieces := Reads(source, ranges);
    assert Sound(ranges[0], 1, MultipartChunkSize(|head|));
    RangesEnd(1, 0, |head|, MultipartChunkSize(|head|));
    assert pieces[0][0] == other;
    assert Concat(pieces)[0] == other;
  }

  lemma {:induction false} RangesEnd(number: nat, start: nat, size: nat, chunk: nat)
    requires chunk > 0
    ensures forall range :: range in RangesFrom(number, start, size, chunk) ==> range.last < size
    decreases size - start
  {
    if start < size {
      RangesEnd(number + 1, start + chunk, size, chunk);
    }
  }

  /** Copies sent in full are exact, whatever happens to the source meanwhile, if and only if they are pinned. */
  lemma CopiesAreExactExactly<T(!new)>(head: seq<T>, other: T, pinned: bool)
    requires head != [] && other != head[0]
    ensures pinned <==>
            forall source: Source<T>, answers ::
              source.head == head && source.pinned == pinned
              && Honest(source, CopyRanges(|head|), answers) && AllAnswered(answers, |CopyRanges(|head|)|)
              ==> Concat(Reads(source, CopyRanges(|head|))) == head
  {
    if pinned {
      forall source: Source<T>, answers |
        && source.head == head && source.pinned == pinned
        && Honest(source, CopyRanges(|head|), answers) && AllAnswered(answers, |CopyRanges(|head|)|)
        ensures Concat(Reads(source, CopyRanges(|head|))) == head
      {
        PinnedCopyIsExact(source, answers);
      }
    } else {
      var source, answers := UnpinnedCopyMixes(head, other);
    }
  }
}
