/**
 * `AxiomAutoRunsParser`: auto-run registry entries exported by AXIOM. A record
 * becomes a "Registry" row labelled "Program Execution" and stamped "Last
 * Modified" when its key-modification time parses and its file path is not
 * blank.
 */
module AxiomAutoRuns {
  import opened Wrappers
  import opened Text
  import opened Timeline
  import opened ParseDriver

  const ModifiedColumn: string := "Registry Key Modified Date/Time - UTC+00:00 (M/d/yyyy)"
  const FilePathColumn: string := "File Path"
  const FileNameColumn: string := "File Name"

  /**
   * The body of the record loop. A record yields a row exactly when its time
   * parses and its "File Path" is not blank. That path is kept as it is (not
   * trimmed or lower-cased), the details are the "File Name", and the evidence
   * path is always the export file relative to `baseDir`.
   */
  function MapRecord(lib: Library, art: ArtifactDefinition, baseDir: string, file: string, rec: Record)
    : (r: Option<TimelineRow>)
    ensures r.Some? <==>
              lib.getDateTime(rec, ModifiedColumn).Some? && !IsNullOrWhiteSpace(lib.getString(rec, FilePathColumn))
    ensures r.Some? ==>
              var row := r.value;
              && row.dateTime == CanonicalDateTime(lib, lib.getDateTime(rec, ModifiedColumn).value)
              && !Contains(row.dateTime, UtcOffset)
              && row.timestampInfo == "Last Modified"
              && row.artifactName == "Registry"
              && row.tool == art.tool
              && row.description == "Program Execution"
              && row.dataPath == lib.getString(rec, FilePathColumn)
              && !IsNullOrWhiteSpace(row.dataPath)
              && row.dataDetails == lib.getString(rec, FileNameColumn)
              && row.fileSize == None
              && row.evidencePath == lib.getRelativePath(baseDir, file)
  {
    match lib.getDateTime(rec, ModifiedColumn)
    case None => None
    case Some(parsedDt) =>
      var path := lib.getString(rec, FilePathColumn);
      if IsNullOrWhiteSpace(path) then None
      else
        Some(TimelineRow(
          dateTime := CanonicalDateTime(lib, parsedDt),
          timestampInfo := "Last Modified",
          artifactName := "Registry",
          tool := art.tool,
          description := "Program Execution",
          dataPath := path,
          dataDetails := lib.getString(rec, FileNameColumn),
          fileSize := None,
          evidencePath := lib.getRelativePath(baseDir, file)))
  }

  function Mapper(lib: Library, art: ArtifactDefinition, baseDir: string): RecordMapper {
    (file: string, rec: Record) => MapRecord(lib, art, baseDir, file, rec)
  }

  /** The fixed labels every returned row carries. */
  predicate Labelled(art: ArtifactDefinition, row: TimelineRow) {
    && row.timestampInfo == "Last Modified"
    && row.artifactName == "Registry"
    && row.tool == art.tool
    && row.description == "Program Execution"
    && !IsNullOrWhiteSpace(row.dataPath)
    && !Contains(row.dateTime, UtcOffset)
  }

  /** Every row the parser returns, from any files, carries the labels. */
  lemma {:induction false} RowsLabelled(lib: Library, art: ArtifactDefinition, baseDir: string, files: seq<ExportFile>)
    ensures forall row :: row in AllRows(Mapper(lib, art, baseDir), files) ==> Labelled(art, row)
  {
    AllRowsSatisfy(Mapper(lib, art, baseDir), row => Labelled(art, row), files);
  }

  /** Every row of one export file names that file as its evidence. */
  lemma {:induction false} EvidenceIsTheExportFile(lib: Library, art: ArtifactDefinition, baseDir: string, file: string,
                                                   records: seq<Record>)
    ensures forall row :: row in FileRows(Mapper(lib, art, baseDir), file, records) ==>
              row.evidencePath == lib.getRelativePath(baseDir, file)
    decreases |records|
  {
    if records != [] {
      EvidenceIsTheExportFile(lib, art, baseDir, file, records[..|records| - 1]);
    }
  }

  /** `IArtifactParser.Parse` for AXIOM auto-run entries, from the discovered
      files on. */
  method Parse(lib: Library, baseDir: string, art: ArtifactDefinition, files: seq<ExportFile>, summary: SummaryTracker)
    returns (rows: seq<TimelineRow>)
    modifies summary
    ensures rows == AllRows(Mapper(lib, art, baseDir), files)
    ensures forall row :: row in rows ==> Labelled(art, row)
    ensures summary.counts == TrackAll(old(summary.counts), KeyOf(art), Mapper(lib, art, baseDir), files)
  {
    rows := ParseFiles(Mapper(lib, art, baseDir), art, files, summary);
    RowsLabelled(lib, art, baseDir, files);
  }
}
