/**
 Cleanup manifests: one line for each record and a summary line with the count and the
 digest of the record lines. Lines are represented by what decoding them gives; SHA-256
 over the record lines is injective, so it is represented by the lines themselves.
 */
module CleanupManifest {
  import opened Wrappers
  import opened Manifest

  const SCHEMA_VERSION := 1

  /** A digest found in a summary is either the digest of some lines or unrelated text. */
  datatype LinesDigest = OfLines(lines: seq<Line>) | OtherText(text: string)

  /**
   A record line also carries whatever its text has beyond the canonical form of the
   record: extra fields, spacing, another field order. The canonical form has none.
   */
  datatype Line =
    | RecordLine(record: CleanupRecord, extra: string)
    | SummaryLine(schemaVersion: int, count: int, runId: string, startedAt: string, digest: LinesDigest)
    | MangledLine(text: string)

  datatype Status = Valid | Empty

  datatype Summary = Summary(status: Status, count: int, runId: string, startedAt: string, digest: LinesDigest)

  datatype Error = CleanupManifestError(reason: string)

  const EMPTY_SUMMARY := Summary(Empty, 0, "", "", OtherText(""))

  function CanonicalLine(r: CleanupRecord): Line {
    RecordLine(r, "")
  }

  function CanonicalLines(records: seq<CleanupRecord>): seq<Line> {
    seq(|records|, i requires 0 <= i < |records| => CanonicalLine(records[i]))
  }

  function StatusFor(count: int): Status {
    if count == 0 then Empty else Valid
  }

  function SummaryOf(count: int, runId: string, startedAt: string, digest: LinesDigest): Summary {
    Summary(StatusFor(count), count, runId, startedAt, digest)
  }

  /** The file written for some records. */
  function Written(runId: string, startedAt: string, records: seq<CleanupRecord>): seq<Line> {
    CanonicalLines(records)
    + [SummaryLine(SCHEMA_VERSION, |records|, runId, startedAt, OfLines(CanonicalLines(records)))]
  }

  method WriteCleanupManifest(runId: string, startedAt: string, records: seq<CleanupRecord>)
    returns (file: seq<Line>, summary: Summary)
    ensures file == Written(runId, startedAt, records)
    ensures summary == SummaryOf(|records|, runId, startedAt, OfLines(CanonicalLines(records)))
  {
    var digested: seq<Line> := [];
    var objectCount := 0;
    file := [];
    for i := 0 to |records|
      invariant file == digested == CanonicalLines(records)[..i] && objectCount == i
    {
      var line := CanonicalLine(records[i]);
      file := file + [line];
      digested := digested + [line];
      objectCount := objectCount + 1;
    }
    assert CanonicalLines(records)[..|records|] == CanonicalLines(records);
    file := file + [SummaryLine(SCHEMA_VERSION, objectCount, runId, startedAt, OfLines(digested))];
    summary := SummaryOf(objectCount, runId, startedAt, OfLines(digested));
  }

  // ----- Validation -----

  /** The lines in front of the summary, all of them records. */
  predicate AllRecords(lines: seq<Line>) {
    forall i :: 0 <= i < |lines| ==> lines[i].RecordLine?
  }

  /** A valid file: nothing at all, or records followed by one matching summary. */
  predicate WellFormed(file: seq<Line>) {
    file == [] ||
    var body, last := file[..|file| - 1], file[|file| - 1];
    && AllRecords(body)
    && last.SummaryLine? && last.schemaVersion == SCHEMA_VERSION
    && last.count == |body| && last.digest == OfLines(body)
  }

  function SummaryIn(file: seq<Line>): Summary
    requires WellFormed(file)
  {
    if file == [] then EMPTY_SUMMARY
    else var last := file[|file| - 1]; SummaryOf(last.count, last.runId, last.startedAt, last.digest)
  }

  /**
   One pass over the file. It accepts exactly the well-formed files and then returns their
   summary.
   */
  method ValidateCleanupManifest(file: seq<Line>) returns (checked: Result<Summary, Error>)
    ensures checked.Ok? <==> WellFormed(file)
    ensures checked.Ok? ==> checked.value == SummaryIn(file)
  {
    var digested: seq<Line> := [];
    var recordCount := 0;
    var footer: Option<Summary> := None;
    for i := 0 to |file|
      invariant footer.None? ==> digested == file[..i] && recordCount == i && AllRecords(file[..i])
      invariant footer.Some? ==>
                  && i >= 1 && digested == file[..i - 1] && recordCount == i - 1 && AllRecords(file[..i - 1])
                  && var last := file[i - 1];
                     last.SummaryLine? && last.schemaVersion == SCHEMA_VERSION
                     && footer.value == SummaryOf(last.count, last.runId, last.startedAt, last.digest)
    {
      if footer.Some? {
        assert !file[..|file| - 1][i - 1].RecordLine?;
        return Err(CleanupManifestError("content after the manifest summary line"));
      }
      match file[i] {
        case MangledLine(_) =>
          NotWellFormed(file, i);
          return Err(CleanupManifestError("mangled manifest line"));
        case SummaryLine(version, count, runId, startedAt, digest) =>
          if version != SCHEMA_VERSION {
            NotWellFormed(file, i);
            return Err(CleanupManifestError("unsupported cleanup manifest schema version"));
          }
          footer := Some(SummaryOf(count, runId, startedAt, digest));
        case RecordLine(_, _) =>
          digested := digested + [file[i]];
          recordCount := recordCount + 1;
      }
    }
    checked := Finalize(footer, recordCount, OfLines(digested));
  }

  lemma NotWellFormed(file: seq<Line>, i: nat)
    requires i < |file| && !file[i].RecordLine?
    requires file[i].SummaryLine? ==> file[i].schemaVersion != SCHEMA_VERSION
    ensures !WellFormed(file)
  {
    if i < |file| - 1 {
      assert file[..|file| - 1][i] == file[i];
    }
  }

  function Finalize(footer: Option<Summary>, recordCount: nat, digest: LinesDigest): Result<Summary, Error> {
    if footer.None? then
      if recordCount == 0 then Ok(EMPTY_SUMMARY) else Err(CleanupManifestError("missing the manifest summary line"))
    else if footer.value.count != recordCount then Err(CleanupManifestError("summary object count does not match"))
    else if footer.value.digest != digest then Err(CleanupManifestError("manifest content digest mismatch"))
    else Ok(footer.value)
  }

  // ----- Reading -----

  /** The records of a well-formed file, in file order. */
  function RecordsIn(file: seq<Line>): seq<CleanupRecord>
    requires WellFormed(file)
  {
    if file == [] then [] else seq(|file| - 1, i requires 0 <= i < |file| - 1 => file[..|file| - 1][i].record)
  }

  method IterCleanupRecords(file: seq<Line>) returns (records: seq<CleanupRecord>)
    requires WellFormed(file)
    ensures records == RecordsIn(file)
  {
    records := [];
    var n := if file == [] then 0 else |file| - 1;
    ghost var body := file[..n];
    for i := 0 to |file|
      invariant |records| == if i <= n then i else n
      invariant forall k :: 0 <= k < |records| ==>
                  body[k] == file[k] && file[k].RecordLine? && records[k] == file[k].record
    {
      assert i < n ==> body[i] == file[i];
      if file[i].RecordLine? {
        records := records + [file[i].record];
      }
    }
  }

  // ----- Round trip and tamper evidence -----

  /** Writing, then validating and reading, gives back the summary and the records. */
  lemma WrittenReadsBack(runId: string, startedAt: string, records: seq<CleanupRecord>)
    ensures var file := Written(runId, startedAt, records);
            && WellFormed(file)
            && RecordsIn(file) == records
            && SummaryIn(file) == SummaryOf(|records|, runId, startedAt, OfLines(CanonicalLines(records)))
  {
    var file := Written(runId, startedAt, records);
    assert file[..|file| - 1] == CanonicalLines(records);
  }

  /** Every proper line prefix of a valid file is rejected, except the one without any line. */
  lemma PrefixesAreRejected(file: seq<Line>, k: nat)
    requires WellFormed(file) && k < |file|
    ensures WellFormed(file[..k]) <==> k == 0
  {
    if k > 0 {
      var cut := file[..k];
      assert file[..|file| - 1][k - 1] == cut[|cut| - 1];
    }
  }

  /** Every line extension of a valid file is rejected, except of the one without any line. */
  lemma ExtensionsAreRejected(file: seq<Line>, more: seq<Line>)
    requires WellFormed(file) && file != [] && more != []
    ensures !WellFormed(file + more)
  {
    var longer := file + more;
    assert longer[..|longer| - 1][|file| - 1] == file[|file| - 1];
  }

  /** Two valid files whose summaries carry one digest have the same records, text for text. */
  lemma SummaryFixesRecords(left: seq<Line>, right: seq<Line>)
    requires WellFormed(left) && WellFormed(right) && left != [] && right != []
    requires SummaryIn(left).digest == SummaryIn(right).digest
    ensures left[..|left| - 1] == right[..|right| - 1] && RecordsIn(left) == RecordsIn(right)
  {
    assert left[..|left| - 1] == right[..|right| - 1];
  }
}
