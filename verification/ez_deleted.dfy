/**
 * `DeletedParser`: Recycle Bin records exported by the EZ Tools. Every record
 * whose deletion time parses becomes a "File Deleted On" row: the deleted
 * file's full path is the row's path, its file name the details, and the
 * record's source file (or the export file itself) the evidence path.
 */
module EZDeleted {
  import opened Wrappers
  import opened Text
  import opened Timeline
  import opened ParseDriver

  const DeletedOnColumn: string := "DeletedOn"
  const FileNameColumn: string := "FileName"
  const SourceNameColumn: string := "SourceName"
  const FileSizeColumn: string := "FileSize"

  /** The details: the file-name part of the full path, or "" when the full
      path is blank. */
  function FileNameOf(lib: Library, fullPath: Option<string>): (name: string)
    ensures IsNullOrWhiteSpace(fullPath) ==> name == ""
    ensures !IsNullOrWhiteSpace(fullPath) ==> name == lib.getFileName(fullPath.value)
  {
    if IsNullOrWhiteSpace(fullPath) then "" else lib.getFileName(fullPath.value)
  }

  /** The path the evidence path is made relative from: the record's
      "SourceName" when it is not blank, otherwise the export file. */
  function SourcePath(file: string, sourceName: Option<string>): (p: string)
    ensures !IsNullOrWhiteSpace(sourceName) ==> p == sourceName.value
    ensures IsNullOrWhiteSpace(sourceName) ==> p == file
  {
    if IsNullOrWhiteSpace(sourceName) then file else sourceName.value
  }

  /**
   * The body of the record loop. The only skip rule is a missing or
   * unparseable deletion time: a record with no file name still yields a row,
   * with empty details. Name and description come from the artifact
   * definition, and the size is the optional "FileSize".
   */
  function MapRecord(lib: Library, art: ArtifactDefinition, baseDir: string, file: string, rec: Record)
    : (r: Option<TimelineRow>)
    ensures r.Some? <==> lib.getDateTime(rec, DeletedOnColumn).Some?
    ensures r.Some? ==>
              var row := r.value;
              && row.dateTime == CanonicalDateTime(lib, lib.getDateTime(rec, DeletedOnColumn).value)
              && !Contains(row.dateTime, UtcOffset)
              && row.timestampInfo == "File Deleted On"
              && row.artifactName == art.artifact
              && row.tool == art.tool
              && row.description == art.description
              && row.dataPath == lib.getString(rec, FileNameColumn)
              && row.dataDetails == Some(FileNameOf(lib, lib.getString(rec, FileNameColumn)))
              && (IsNullOrWhiteSpace(lib.getString(rec, FileNameColumn)) ==> row.dataDetails == Some(""))
              && row.fileSize == lib.getLong(rec, FileSizeColumn)
              && row.evidencePath
                 == lib.getRelativePath(baseDir, SourcePath(file, lib.getString(rec, SourceNameColumn)))
  {
    match lib.getDateTime(rec, DeletedOnColumn)
    case None => None
    case Some(parsedDt) =>
      var fullPath := lib.getString(rec, FileNameColumn);
      var sourcePath := SourcePath(file, lib.getString(rec, SourceNameColumn));
      Some(TimelineRow(
        dateTime := CanonicalDateTime(lib, parsedDt),
        timestampInfo := "File Deleted On",
        artifactName := art.artifact,
        tool := art.tool,
        description := art.description,
        dataPath := fullPath,
        dataDetails := Some(FileNameOf(lib, fullPath)),
        fileSize := lib.getLong(rec, FileSizeColumn),
        evidencePath := lib.getRelativePath(baseDir, sourcePath)))
  }

  function Mapper(lib: Library, art: ArtifactDefinition, baseDir: string): RecordMapper {
    (file: string, rec: Record) => MapRecord(lib, art, baseDir, file, rec)
  }

  /** The labels every returned row carries. */
  predicate Labelled(art: ArtifactDefinition, row: TimelineRow) {
    && row.timestampInfo == "File Deleted On"
    && row.artifactName == art.artifact
    && row.tool == art.tool
    && row.description == art.description
    && row.dataDetails.Some?
    && !Contains(row.dateTime, UtcOffset)
  }

  /** Every row the parser returns, from any files, carries the labels. */
  lemma {:induction false} RowsLabelled(lib: Library, art: ArtifactDefinition, baseDir: string, files: seq<ExportFile>)
    ensures forall row :: row in AllRows(Mapper(lib, art, baseDir), files) ==> Labelled(art, row)
  {
    AllRowsSatisfy(Mapper(lib, art, baseDir), row => Labelled(art, row), files);
  }

  /** A record with a parseable deletion time is never dropped: a file read to
      the end yields exactly one row per such record. */
  lemma {:induction false} EveryDatedRecordKept(lib: Library, art: ArtifactDefinition, baseDir: string, file: string,
                                                records: seq<Record>)
    requires forall rec :: rec in records ==> lib.getDateTime(rec, DeletedOnColumn).Some?
    ensures |FileRows(Mapper(lib, art, baseDir), file, records)| == |records|
    decreases |records|
  {
    if records != [] {
      var init := records[..|records| - 1];
      assert forall rec :: rec in init ==> rec in records;
      assert records[|records| - 1] in records;
      EveryDatedRecordKept(lib, art, baseDir, file, init);
    }
  }

  /** `IArtifactParser.Parse` for EZ Tools deleted-file records, from the
      discovered files on. */
  method Parse(lib: Library, baseDir: string, art: ArtifactDefinition, files: seq<ExportFile>, summary: SummaryTracker)
    returns (rows: seq<TimelineRow>)
    modifies summary
    ensures rows == AllRows(Mapper(lib, art, baseDir), files)
    ensures forall row :: row in rows ==> Labelled(art, row)
    ensures summary.counts == TrackAll(old(summary.counts), KeyOf(art), Mapper(lib, art, baseDir), files)
  {
    rows := ParseFiles(Mapper(lib, art, baseDir), art, files, summary);
    RowsLabelled(lib, art, baseDir, files);
  }
}
