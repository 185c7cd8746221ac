/**
 * The per-file loop shared by every `IArtifactParser.Parse`: for each
 * discovered export file, read its records in order, turn each one the parser
 * keeps into one row, count the rows, and record the count in the run summary
 * once the file has been read to the end. A file that fails part-way keeps
 * the rows it already contributed, adds nothing to the summary, and does not
 * stop the files after it.
 */
module ParseDriver {
  import opened Wrappers
  import opened Timeline

  /** How reading one export file ended: all of its records were read, or an
      exception was raised after `records` had been read. */
  datatype ReadOutcome =
    | Completed(records: seq<Record>)
    | Failed(records: seq<Record>)

  /** A discovered export file: its path and what reading it yields. */
  datatype ExportFile = ExportFile(path: string, outcome: ReadOutcome)

  /** A parser's per-record step: the file path and one record to the row the
      record yields, or `None` when the parser skips it. */
  type RecordMapper = (string, Record) -> Option<TimelineRow>

  /** The summary key `(tool, artifact)`. */
  type SummaryKey = (string, string)

  function KeyOf(art: ArtifactDefinition): SummaryKey {
    (art.tool, art.artifact)
  }

  /** The rows one record contributes: one when it is kept, none when skipped. */
  function RecordRows(mapRecord: RecordMapper, path: string, rec: Record): (rows: seq<TimelineRow>)
    ensures |rows| <= 1
    ensures rows != [] <==> mapRecord(path, rec).Some?
    ensures rows != [] ==> rows[0] == mapRecord(path, rec).value
  {
    match mapRecord(path, rec)
    case Some(row) => [row]
    case None => []
  }

  /** The rows a sequence of records of one file contributes, in record order. */
  function FileRows(mapRecord: RecordMapper, path: string, records: seq<Record>): (rows: seq<TimelineRow>)
    ensures |rows| <= |records|
  {
    if records == [] then []
    else FileRows(mapRecord, path, records[..|records| - 1])
         + RecordRows(mapRecord, path, records[|records| - 1])
  }

  /** The rows a sequence of files contributes, in file order: never more
      than the records read from them. */
  function AllRows(mapRecord: RecordMapper, files: seq<ExportFile>): (rows: seq<TimelineRow>)
    ensures |rows| <= RecordCount(files)
  {
    if files == [] then []
    else AllRows(mapRecord, files[..|files| - 1])
         + FileRows(mapRecord, files[|files| - 1].path, files[|files| - 1].outcome.records)
  }

  /** The number of records read from a sequence of files. */
  function RecordCount(files: seq<ExportFile>): nat {
    if files == [] then 0 else RecordCount(files[..|files| - 1]) + |files[|files| - 1].outcome.records|
  }

  /** The number of rows contributed by the files read to the end: part of
      the rows returned. */
  function CompletedRowCount(mapRecord: RecordMapper, files: seq<ExportFile>): (n: nat)
    ensures n <= |AllRows(mapRecord, files)|
  {
    if files == [] then 0
    else
      var last := files[|files| - 1];
      CompletedRowCount(mapRecord, files[..|files| - 1])
      + (if last.outcome.Completed? then |FileRows(mapRecord, last.path, last.outcome.records)| else 0)
  }

  /** The number of rows contributed by the files that failed part-way. */
  function FailedRowCount(mapRecord: RecordMapper, files: seq<ExportFile>): nat
  {
    if files == [] then 0
    else
      var last := files[|files| - 1];
      FailedRowCount(mapRecord, files[..|files| - 1])
      + (if last.outcome.Failed? then |FileRows(mapRecord, last.path, last.outcome.records)| else 0)
  }

  /** `LoggerSummary.TrackSummary(tool, artifact, n)`: add `n` to the running
      count of `key`, creating it at `n` if it was not there. */
  function Increment(counts: map<SummaryKey, nat>, key: SummaryKey, n: nat): (r: map<SummaryKey, nat>)
    ensures r.Keys == counts.Keys + {key}
    ensures r[key] == n + (if key in counts then counts[key] else 0)
    ensures forall k :: k in counts && k != key ==> r[k] == counts[k]
  {
    counts[key := n + (if key in counts then counts[key] else 0)]
  }

  /** The summary after the loop: one `TrackSummary` call per file read to the
      end, none for a file that failed. Only the entry for `key` changes; it
      grows by exactly the rows of the completed files, and it exists
      afterwards exactly when it did before or some file completed. */
  function TrackAll(counts: map<SummaryKey, nat>, key: SummaryKey, mapRecord: RecordMapper, files: seq<ExportFile>)
    : (r: map<SummaryKey, nat>)
    ensures r.Keys == counts.Keys + (if exists f :: f in files && f.outcome.Completed? then {key} else {})
    ensures key in r ==> r[key] == CompletedRowCount(mapRecord, files) + (if key in counts then counts[key] else 0)
    ensures forall k :: k in counts && k != key ==> r[k] == counts[k]
  {
    if files == [] then counts
    else
      var init := files[..|files| - 1];
      var last := files[|files| - 1];
      var before := TrackAll(counts, key, mapRecord, init);
      assert forall f :: f in files <==> f in init || f == last;
      if last.outcome.Completed? then
        assert key !in before ==> CompletedRowCount(mapRecord, init) == 0 by {
          if key !in before { NoCompletedRows(mapRecord, init); }
        }
        Increment(before, key, |FileRows(mapRecord, last.path, last.outcome.records)|)
      else
        before
  }

  /** The process-wide summary, `LoggerSummary`: a running row count per
      (tool, artifact). */
  class SummaryTracker {
    var counts: map<SummaryKey, nat>

    constructor ()
      ensures counts == map[]
    {
      counts := map[];
    }

    method TrackSummary(tool: string, artifact: string, n: nat)
      modifies this
      ensures counts == Increment(old(counts), (tool, artifact), n)
    {
      counts := Increment(counts, (tool, artifact), n);
    }
  }

  /**
   * The record loop of one file: append the row of every kept record, in
   * record order, and count the rows appended.
   */
  method CollectRows(mapRecord: RecordMapper, path: string, records: seq<Record>, rowsIn: seq<TimelineRow>)
    returns (rows: seq<TimelineRow>, timelineCount: nat)
    ensures rows == rowsIn + FileRows(mapRecord, path, records)
    ensures timelineCount == |rows| - |rowsIn| <= |records|
  {
    rows := rowsIn;
    timelineCount := 0;
    var j := 0;
    while j < |records|
      invariant 0 <= j <= |records|
      invariant rows == rowsIn + FileRows(mapRecord, path, records[..j])
      invariant timelineCount == |FileRows(mapRecord, path, records[..j])|
    {
      assert records[..j + 1][..j] == records[..j];
      match mapRecord(path, records[j]) {
        case None =>
        case Some(row) =>
          rows := rows + [row];
          timelineCount := timelineCount + 1;
      }
      j := j + 1;
    }
    assert records[..j] == records;
  }

  /**
   * One pass of the file loop (the `try` block): append the rows of `file` and
   * report their count to the summary only when the file was read to the end.
   * A failed file keeps the rows of the records read before the failure.
   */
  method ParseFile(mapRecord: RecordMapper, art: ArtifactDefinition, file: ExportFile, summary: SummaryTracker,
                   rowsIn: seq<TimelineRow>)
    returns (rows: seq<TimelineRow>)
    modifies summary
    ensures rows == rowsIn + FileRows(mapRecord, file.path, file.outcome.records)
    ensures summary.counts
            == if file.outcome.Completed?
               then Increment(old(summary.counts), KeyOf(art), |FileRows(mapRecord, file.path, file.outcome.records)|)
               else old(summary.counts)
  {
    var timelineCount;
    rows, timelineCount := CollectRows(mapRecord, file.path, file.outcome.records, rowsIn);
    if file.outcome.Completed? {
      summary.TrackSummary(art.tool, art.artifact, timelineCount);
    }
  }

  /**
   * The loop of `Parse`, from the discovered files on. With no files it returns
   * at once, before any summary call. Otherwise it processes every file in
   * order; a failed file does not stop the ones after it.
   */
  method ParseFiles(mapRecord: RecordMapper, art: ArtifactDefinition, files: seq<ExportFile>, summary: SummaryTracker)
    returns (rows: seq<TimelineRow>)
    modifies summary
    ensures rows == AllRows(mapRecord, files)
    ensures summary.counts == TrackAll(old(summary.counts), KeyOf(art), mapRecord, files)
    ensures files == [] ==> rows == [] && summary.counts == old(summary.counts)
  {
    rows := [];
    if |files| == 0 {
      return;
    }
    var i := 0;
    while i < |files|
      invariant 0 <= i <= |files|
      invariant rows == AllRows(mapRecord, files[..i])
      invariant summary.counts == TrackAll(old(summary.counts), KeyOf(art), mapRecord, files[..i])
    {
      assert files[..i + 1][..i] == files[..i];
      rows := ParseFile(mapRecord, art, files[i], summary, rows);
      i := i + 1;
    }
    assert files[..i] == files;
  }

  /** Records contribute their rows independently: the rows of `a + b` are the
      rows of `a` followed by the rows of `b`. */
  lemma {:induction false} FileRowsAppend(mapRecord: RecordMapper, path: string, a: seq<Record>, b: seq<Record>)
    ensures FileRows(mapRecord, path, a + b) == FileRows(mapRecord, path, a) + FileRows(mapRecord, path, b)
    decreases |b|
  {
    if b == [] {
      assert a + b == a;
    } else {
      var b' := b[..|b| - 1];
      assert (a + b)[..|a + b| - 1] == a + b';
      assert (a + b)[|a + b| - 1] == b[|b| - 1];
      FileRowsAppend(mapRecord, path, a, b');
    }
  }

  /** Each kept record yields exactly one row, at its place in record order; a
      skipped record yields none. */
  lemma {:induction false} RecordInPlace(mapRecord: RecordMapper, path: string, before: seq<Record>, rec: Record, after: seq<Record>)
    ensures FileRows(mapRecord, path, before + [rec] + after)
            == FileRows(mapRecord, path, before)
               + (match mapRecord(path, rec) case Some(row) => [row] case None => [])
               + FileRows(mapRecord, path, after)
  {
    FileRowsAppend(mapRecord, path, before + [rec], after);
    FileRowsAppend(mapRecord, path, before, [rec]);
    assert [rec][..0] == [];
  }

  /** Files contribute their rows independently: the rows of `a + b` are the
      rows of `a` followed by the rows of `b`. */
  lemma {:induction false} AllRowsAppend(mapRecord: RecordMapper, a: seq<ExportFile>, b: seq<ExportFile>)
    ensures AllRows(mapRecord, a + b) == AllRows(mapRecord, a) + AllRows(mapRecord, b)
    decreases |b|
  {
    if b == [] {
      assert a + b == a;
    } else {
      var b', last := b[..|b| - 1], b[|b| - 1];
      var lastRows := FileRows(mapRecord, last.path, last.outcome.records);
      assert (a + b)[..|a + b| - 1] == a + b';
      assert (a + b)[|a + b| - 1] == last;
      AllRowsAppend(mapRecord, a, b');
      calc {
        AllRows(mapRecord, a + b);
        AllRows(mapRecord, a + b') + lastRows;
        AllRows(mapRecord, a) + AllRows(mapRecord, b') + lastRows;
        AllRows(mapRecord, a) + (AllRows(mapRecord, b') + lastRows);
        AllRows(mapRecord, a) + AllRows(mapRecord, b);
      }
    }
  }

  /**
   * Failure isolation: a file that fails after reading `read` keeps the rows of
   * those records, and the files before and after it contribute exactly what
   * they would have without it.
   */
  lemma {:induction false} FailedFileIsolated(mapRecord: RecordMapper, before: seq<ExportFile>, path: string,
                                               read: seq<Record>, after: seq<ExportFile>)
    ensures AllRows(mapRecord, before + [ExportFile(path, Failed(read))] + after)
            == AllRows(mapRecord, before) + FileRows(mapRecord, path, read) + AllRows(mapRecord, after)
  {
    var bad := ExportFile(path, Failed(read));
    AllRowsAppend(mapRecord, before + [bad], after);
    AllRowsAppend(mapRecord, before, [bad]);
    assert [bad][..0] == [];
  }

  /** A file that cannot be read at all leaves the result exactly as if it had
      not been discovered: N-1 files' worth of rows. */
  lemma UnreadableFileContributesNothing(mapRecord: RecordMapper, before: seq<ExportFile>, path: string,
                                         after: seq<ExportFile>)
    ensures AllRows(mapRecord, before + [ExportFile(path, Failed([]))] + after)
            == AllRows(mapRecord, before + after)
  {
    FailedFileIsolated(mapRecord, before, path, [], after);
    AllRowsAppend(mapRecord, before, after);
  }

  /** Every row comes from a completed file or from a failed one: the summary
      accounts for all rows except those of failed files. */
  lemma {:induction false} RowsAccounted(mapRecord: RecordMapper, files: seq<ExportFile>)
    ensures |AllRows(mapRecord, files)| == CompletedRowCount(mapRecord, files) + FailedRowCount(mapRecord, files)
    decreases |files|
  {
    if files != [] {
      RowsAccounted(mapRecord, files[..|files| - 1]);
    }
  }

  /** When every file is read to the end, the summary entry grows by exactly
      the number of rows returned. */
  lemma {:induction false} SummaryMatchesRows(counts: map<SummaryKey, nat>, key: SummaryKey, mapRecord: RecordMapper,
                                              files: seq<ExportFile>)
    requires files != []
    requires forall f :: f in files ==> f.outcome.Completed?
    ensures key in TrackAll(counts, key, mapRecord, files)
    ensures TrackAll(counts, key, mapRecord, files)[key]
            == |AllRows(mapRecord, files)| + (if key in counts then counts[key] else 0)
  {
    assert files[0] in files;
    RowsAccounted(mapRecord, files);
    NoFailedRows(mapRecord, files);
  }

  lemma {:induction false} NoFailedRows(mapRecord: RecordMapper, files: seq<ExportFile>)
    requires forall f :: f in files ==> f.outcome.Completed?
    ensures FailedRowCount(mapRecord, files) == 0
    decreases |files|
  {
    if files != [] {
      var init := files[..|files| - 1];
      assert forall f :: f in init ==> f in files;
      assert files[|files| - 1] in files;
      NoFailedRows(mapRecord, init);
    }
  }

  lemma {:induction false} NoCompletedRows(mapRecord: RecordMapper, files: seq<ExportFile>)
    requires forall f :: f in files ==> f.outcome.Failed?
    ensures CompletedRowCount(mapRecord, files) == 0
    decreases |files|
  {
    if files != [] {
      var init := files[..|files| - 1];
      assert forall f :: f in init ==> f in files;
      assert files[|files| - 1] in files;
      NoCompletedRows(mapRecord, init);
    }
  }

  /** A property every row the mapper can produce has holds of every row the
      loop returns. */
  lemma {:induction false} AllRowsSatisfy(mapRecord: RecordMapper, P: TimelineRow -> bool, files: seq<ExportFile>)
    requires forall path, rec :: mapRecord(path, rec).Some? ==> P(mapRecord(path, rec).value)
    ensures forall row :: row in AllRows(mapRecord, files) ==> P(row)
    decreases |files|
  {
    if files != [] {
      var last := files[|files| - 1];
      AllRowsSatisfy(mapRecord, P, files[..|files| - 1]);
      FileRowsSatisfy(mapRecord, P, last.path, last.outcome.records);
    }
  }

  lemma {:induction false} FileRowsSatisfy(mapRecord: RecordMapper, P: TimelineRow -> bool, path: string,
                                           records: seq<Record>)
    requires forall path, rec :: mapRecord(path, rec).Some? ==> P(mapRecord(path, rec).value)
    ensures forall row :: row in FileRows(mapRecord, path, records) ==> P(row)
    decreases |records|
  {
    if records != [] {
      FileRowsSatisfy(mapRecord, P, path, records[..|records| - 1]);
    }
  }
}
