# Forensic timeline parsers — a Dafny model

This project models three artifact parsers of a forensic timeline builder,
and the file loop they share. Each parser reads the delimited export files
that a forensic tool produced for one artifact. It turns each usable record
into one normalised `TimelineRow`, counts the rows per file, and reports that
count to a process-wide run summary.

- `AxiomIEHistory` models `AxiomIEHistoryParser`. It handles Internet Explorer
  history exported by Magnet AXIOM, and classifies each visited URL as a
  file access, a search, a download or plain browsing.
- `EZDeleted` models `DeletedParser`. It handles Recycle Bin records exported
  by the EZ Tools.
- `AxiomAutoRuns` models `AxiomAutoRunsParser`. It handles auto-run registry
  entries exported by AXIOM.
- `ParseDriver` models the loop all three share:
  - it returns at once when no file was found;
  - it processes the files in order and the records of each file in order;
  - it calls `LoggerSummary.TrackSummary` once per file that is read to the end;
  - it catches a failure per file, so a file that fails keeps the rows it
    already added and does not stop the files after it.
- `Timeline` holds the row and artifact-definition types. It also holds the
  canonical rendering of a timestamp: the round-trip format, with `+00:00`
  replaced by `Z`.
- `Text` models the ordinal .NET string operations the parsers use:
  `Trim`, `string.IsNullOrWhiteSpace`, `StartsWith`, `Contains` and `Replace`.

Each parser's per-record step is a function, `MapRecord`. Its contract says
exactly when a record yields a row, and what every field of that row is.

The file loop is the imperative method `ParseDriver.ParseFiles`. Each pass of
its loop is `ParseDriver.ParseFile`. Together they are proved against two
specification functions:

- `AllRows` gives the rows, in order;
- `TrackAll` gives the summary afterwards.

Lemmas about those two functions state failure isolation and how the summary
accounts for the rows.

The summary is the class `SummaryTracker`. Its `counts` map is updated in place.

The parsers call code that this model does not contain. These calls are
passed in as the fields of a `Timeline.Library` value:

- the record accessors `GetDateTime`, `GetString` and `GetLong`;
- `DateTime.ToString("o")`;
- `Path.GetRelativePath` and `Path.GetFileName`;
- `ToLowerInvariant`.

Reading a file is given as a `ReadOutcome`. It lists the records read, and
says whether reading stopped with an exception.

Unlike the other two parsers, `AxiomIEHistoryParser`
(Tools/Axiom/AxiomIEHistoryParser.cs lines 69-73) uses the record's raw
"Browser Source" text as the evidence path whenever that text is not blank.
Only a blank one falls back to the export file's path relative to the base
directory. `AxiomIEHistory.EvidencePath` models this.

## Model

| member | source | states |
|---|---|---|
| Text.Trim | Tools/Axiom/AxiomIEHistoryParser.cs:48 | the result is a contiguous slice of the input with no leading or trailing white space, dropping only white space; it is empty exactly when the input is all white space |
| Text.IsWhiteSpace | Tools/Axiom/AxiomIEHistoryParser.cs:48-49 | `char.IsWhiteSpace`: among ASCII characters exactly the space and the controls tab to carriage return are white space, and no white space lies outside U+0009..U+3000 |
| Text.IsNullOrWhiteSpace | Tools/Axiom/AxiomIEHistoryParser.cs:49 | `string.IsNullOrWhiteSpace` holds exactly when the string is null or trims to the empty string |
| Text.StartsWith | Tools/Axiom/AxiomIEHistoryParser.cs:53 | every string starts with the empty string, and a prefix is never longer than the string |
| Text.Contains | Tools/Axiom/AxiomIEHistoryParser.cs:57-63 | a string contains each of its prefixes (so the empty string), and nothing longer than itself |
| Text.ContainsAny | Tools/Axiom/AxiomIEHistoryParser.cs:57-58 | `terms.Any(term => url.Contains(term))` holds exactly when some term occurs in the string |
| Text.Replace | Tools/Axiom/AxiomIEHistoryParser.cs:75 | a string in which the pattern does not occur is returned unchanged; what an occurrence becomes is `Timeline.InteriorOffset` |
| Text.ContainsInfix | Tools/Axiom/AxiomIEHistoryParser.cs:57-63 | a string that contains a term also contains every substring of that term |
| Timeline.CanonicalDateTime | Tools/Axiom/AxiomIEHistoryParser.cs:75 | the rendered timestamp never contains `+00:00`, and a rendering without that offset is kept as it is |
| Timeline.NoOffsetLeft | Tools/Axiom/AxiomIEHistoryParser.cs:75 | replacing `+00:00` by `Z` leaves no `+00:00` behind, including none formed across a replacement |
| Timeline.ReplacedPrefix | Tools/Axiom/AxiomIEHistoryParser.cs:75 | a prefix without `Z` that the replaced string starts with was already a prefix of the input |
| Timeline.InteriorOffset | Tools/Axiom/AxiomIEHistoryParser.cs:75 | every occurrence of `+00:00`, wherever it stands, becomes `Z`, and the text before and after it is canonicalised on its own |
| Timeline.OffsetSuffixBecomesZ | Tools/EZTools/DeletedParser.cs:48 | a rendering ending in the offset `+00:00` ends in `Z` after the replacement, and the text before the offset is canonicalised on its own |
| ParseDriver.RecordRows | Tools/Axiom/AxiomIEHistoryParser.cs:78-90 | a record yields one row exactly when the parser keeps it, and that row is the mapped one |
| ParseDriver.FileRows | Tools/Axiom/AxiomIEHistoryParser.cs:42-91 | a file never yields more rows than it has records |
| ParseDriver.AllRows | Tools/Axiom/AxiomIEHistoryParser.cs:27-100 | the rows of a sequence of files, in file order, are never more than the records read from them |
| ParseDriver.CompletedRowCount | Tools/Axiom/AxiomIEHistoryParser.cs:94 | the rows reported to the summary are part of the rows returned |
| ParseDriver.Increment | Tools/Axiom/AxiomIEHistoryParser.cs:94 | the summary entry for (tool, artifact) grows by the count, and is created at the count if absent; every other entry is unchanged |
| ParseDriver.TrackAll | Tools/Axiom/AxiomIEHistoryParser.cs:27-100 | after the loop the summary has an entry for the key exactly when it did before or some file was read to the end; that entry grew by exactly the rows of the completed files, and no other entry changed |
| ParseDriver.SummaryTracker.TrackSummary | Tools/Axiom/AxiomIEHistoryParser.cs:94 | the running total of (tool, artifact) grows by the count |
| ParseDriver.CollectRows | Tools/Axiom/AxiomIEHistoryParser.cs:42-91 | the record loop appends the row of every kept record, in record order, and its count equals the number of rows appended, never more than the records read |
| ParseDriver.ParseFile | Tools/Axiom/AxiomIEHistoryParser.cs:29-99 | one pass of the file loop appends the file's rows in record order, including those read before a failure; it reports their count to the summary only when the file was read to the end |
| ParseDriver.ParseFiles | Tools/Axiom/AxiomIEHistoryParser.cs:16-102 | the rows returned are the rows of every file, in file order, and the summary is `TrackAll` of the old summary; with no files nothing is returned and the summary is untouched |
| ParseDriver.FileRowsAppend | Tools/EZTools/DeletedParser.cs:42-69 | records contribute independently: the rows of two runs of records are the rows of the first followed by the rows of the second |
| ParseDriver.RecordInPlace | Tools/EZTools/DeletedParser.cs:42-69 | a kept record yields exactly one row, at its own place in record order, and a skipped record yields none |
| ParseDriver.AllRowsAppend | Tools/EZTools/DeletedParser.cs:27-78 | files contribute independently: the rows of two runs of files are the rows of the first followed by the rows of the second |
| ParseDriver.FailedFileIsolated | Tools/EZTools/DeletedParser.cs:74-77 | a file that fails keeps the rows of the records read before the failure, and the files before and after it contribute exactly what they would have without it |
| ParseDriver.UnreadableFileContributesNothing | Tools/Axiom/AxiomAutoRunsParser.cs:71-74 | a file that fails before its first record leaves the rows exactly as if it had not been found |
| ParseDriver.RowsAccounted | Tools/Axiom/AxiomAutoRunsParser.cs:65-69 | every returned row is counted either for a completed file or for a failed one |
| ParseDriver.SummaryMatchesRows | Tools/Axiom/AxiomAutoRunsParser.cs:65-69 | when every file is read to the end, the summary entry grows by exactly the number of rows returned |
| ParseDriver.NoFailedRows | Tools/Axiom/AxiomAutoRunsParser.cs:71-74 | with no failed file, no row is attributed to a failed file |
| ParseDriver.NoCompletedRows | Tools/Axiom/AxiomAutoRunsParser.cs:69 | with no completed file, no row is counted in the summary |
| ParseDriver.AllRowsSatisfy | Tools/Axiom/AxiomAutoRunsParser.cs:27-75 | a property of every row the per-record step can produce holds of every row the loop returns |
| ParseDriver.FileRowsSatisfy | Tools/Axiom/AxiomAutoRunsParser.cs:42-66 | a property of every row the per-record step can produce holds of every row of one file |
| AxiomIEHistory.Classify | Tools/Axiom/AxiomIEHistoryParser.cs:51-66 | the activity tag in priority order: a `file:///` URL is a file access; otherwise a URL with a search term is a search; otherwise a URL with a download term is a download; otherwise it has no tag (each as an if-and-only-if) |
| AxiomIEHistory.Activity.Tag | Tools/Axiom/AxiomIEHistoryParser.cs:51-66 | the description suffix is empty exactly for plain browsing, and otherwise starts with `" + "` |
| AxiomIEHistory.RedundantTerms | Tools/Axiom/AxiomIEHistoryParser.cs:57-63 | the four site-specific search terms and `/downloads/` never change the outcome: only the first six search terms and the first nine download terms matter |
| AxiomIEHistory.DescriptionOf | Tools/Axiom/AxiomIEHistoryParser.cs:84 | every activity gives one of the four IE History descriptions, and different activities give different descriptions |
| AxiomIEHistory.NormalizedUrl | Tools/Axiom/AxiomIEHistoryParser.cs:48 | a null URL stays null; otherwise the URL is trimmed, then lower-cased |
| AxiomIEHistory.UrlSkipRule | Tools/Axiom/AxiomIEHistoryParser.cs:48-49 | given a lower-casing that keeps a string all white space exactly when it was, a null or blank raw URL drops the record, and any other raw URL keeps it when its time parses |
| AxiomIEHistory.EvidencePath | Tools/Axiom/AxiomIEHistoryParser.cs:69-73 | the evidence path is the "Browser Source" text when it is not blank, otherwise the export file relative to the base directory |
| AxiomIEHistory.MapRecord | Tools/Axiom/AxiomIEHistoryParser.cs:44-88 | a record yields a row exactly when its access time parses and its normalised URL is not blank; the row is "Last Visited" / "Web History", with the canonical time, the normalised URL, the page title, one of the four descriptions chosen by the classifier, and no file size |
| AxiomIEHistory.RowsLabelled | Tools/Axiom/AxiomIEHistoryParser.cs:78-88 | every row returned from any files carries the fixed labels, a non-blank path and a time without `+00:00` |
| AxiomIEHistory.SearchExample | Tools/Axiom/AxiomIEHistoryParser.cs:57-60 | `https://example.com/search?q=test` is classified as a search |
| AxiomIEHistory.FileSchemeFirstExample | Tools/Axiom/AxiomIEHistoryParser.cs:53-56 | a `file:///` URL that also names a search and a download is a file access |
| AxiomIEHistory.Parse | Tools/Axiom/AxiomIEHistoryParser.cs:14-103 | the rows returned are those of `AllRows` for the IE History step, every one carries the IE History labels, and the summary is updated as `TrackAll` says |
| EZDeleted.FileNameOf | Tools/EZTools/DeletedParser.cs:50-51 | the details are empty for a blank full path, and otherwise the file-name part of that path |
| EZDeleted.SourcePath | Tools/EZTools/DeletedParser.cs:52-53 | the evidence is the record's "SourceName" when it is not blank, otherwise the export file |
| EZDeleted.MapRecord | Tools/EZTools/DeletedParser.cs:44-66 | a record yields a row exactly when its deletion time parses; the row is "File Deleted On", named and described by the artifact definition, with the full path, the file name (empty when the path is blank), the optional size, and the source path relative to the base directory |
| EZDeleted.RowsLabelled | Tools/EZTools/DeletedParser.cs:55-66 | every row returned from any files carries the definition's labels, present details and a time without `+00:00` |
| EZDeleted.EveryDatedRecordKept | Tools/EZTools/DeletedParser.cs:45-46 | a file whose records all have a parseable deletion time yields exactly one row per record |
| EZDeleted.Parse | Tools/EZTools/DeletedParser.cs:14-81 | the rows returned are those of `AllRows` for the deleted-file step, every one carries the labels, and the summary is updated as `TrackAll` says |
| AxiomAutoRuns.MapRecord | Tools/Axiom/AxiomAutoRunsParser.cs:44-63 | a record yields a row exactly when its modification time parses and its "File Path" is not blank; the row is "Last Modified" / "Registry" / "Program Execution", with the path as it is, the file name, no size, and the export file as evidence |
| AxiomAutoRuns.RowsLabelled | Tools/Axiom/AxiomAutoRunsParser.cs:53-63 | every row returned from any files carries the fixed labels, a non-blank path and a time without `+00:00` |
| AxiomAutoRuns.EvidenceIsTheExportFile | Tools/Axiom/AxiomAutoRunsParser.cs:62 | every row of one export file names that file, relative to the base directory, as its evidence |
| AxiomAutoRuns.Parse | Tools/Axiom/AxiomAutoRunsParser.cs:14-78 | the rows returned are those of `AllRows` for the auto-run step, every one carries the labels, and the summary is updated as `TrackAll` says |

## Left out

- Discovery of the export files (`Discovery.FindArtifactFiles`, `inputDir`) is not part of this model. The discovered files are an input to `Parse`, each one with the outcome of reading it.
- CSV parsing, `StreamReader`/`CsvReader` and their disposal are left out. A file is given as the records it yields, in order, and whether reading stopped with an exception.
- Exceptions raised while a record is mapped (inside a library call) are not modelled separately. They have the same effect as a read failure after the records before that record, which `ReadOutcome.Failed` expresses.
- The record accessors `GetDateTime`, `GetString` and `GetLong` are not part of this model. They are parameters, with no property assumed beyond returning an optional value.
- `DateTime.ToString("o")`, `Path.GetRelativePath`, `Path.GetFileName` and `ToLowerInvariant` are also parameters. No property of their output is assumed, so, for example, the model does not prove that a lower-cased URL has no upper-case letters.
- AxiomIEHistory.Classify: `StartsWith("file:///")` is modelled as an ordinal comparison. The culture-sensitive comparison .NET uses by default can ignore some zero-width characters, and the model does not capture that.
- Text.Trim: characters are Unicode scalar values, not UTF-16 code units. White space outside the basic plane does not exist, so the two agree, but surrogate pairs are not modelled.
- ParseDriver.SummaryTracker.TrackSummary: the body of `LoggerSummary.TrackSummary` is not part of this model. It is taken to add the count to a running total per (tool, artifact).
- Logging (`Logger.PrintAndLog`) is left out, apart from the call below, because writing a message adds no row and changes no count.
- ParseDriver.ParseFiles: the progress message at line 30 of each parser calls `Path.GetRelativePath(baseDir, file)` before the `try`. The model assumes that call does not throw. For an empty `baseDir` it throws, which ends `Parse` and skips the remaining files; the model does not capture that abort.
- AxiomIEHistory.UrlSkipRule: proved only for a lower-casing that keeps a string all white space exactly when it was, as `ToLowerInvariant` does. `ToLowerInvariant` is a parameter with no other property assumed.
- `ParsedArgs` is left out, because these three parsers never read it.
- Sorting and writing the timeline, and the engine that invokes the parsers, are not part of this model.
