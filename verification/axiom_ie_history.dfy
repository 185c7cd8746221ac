/**
 * `AxiomIEHistoryParser`: Internet Explorer history exported by AXIOM. A record
 * becomes a "Web History" row stamped "Last Visited" when its access time
 * parses and its URL is not blank; the URL is trimmed and lower-cased, and the
 * description is tagged with the kind of activity the URL suggests.
 */
module AxiomIEHistory {
  import opened Wrappers
  import opened Text
  import opened Timeline
  import opened ParseDriver

  const AccessedColumn: string := "Accessed Date/Time - UTC+00:00 (M/d/yyyy)"
  const UrlColumn: string := "URL"
  const TitleColumn: string := "Page Title"
  const BrowserSourceColumn: string := "Browser Source"

  const FileScheme: string := "file:///"
  const SearchTerms: seq<string> := ["search", "query", "q=", "p=", "find", "lookup", "google.com/search",
                                     "bing.com/search", "duckduckgo.com/?q=", "yahoo.com/search"]
  const DownloadTerms: seq<string> := ["download", ".exe", ".zip", ".rar", ".7z", ".msi", ".iso", ".pdf", ".dll",
                                       "/downloads/"]

  /** The activity a visited URL suggests. */
  datatype Activity = FileOpenAccess | Search | Download | Browse {
    /** The suffix appended to the description: empty exactly for plain
        browsing, and otherwise `" + "` followed by the activity's name. */
    function Tag(): (t: string)
      ensures t == [] <==> this == Browse
      ensures t != [] ==> |t| > 3 && t[..3] == " + "
    {
      match this
      case FileOpenAccess => " + File Open Access"
      case Search => " + Search"
      case Download => " + Download"
      case Browse => ""
    }
  }

  /**
   * The activity classifier, in priority order: a local-file URL is a file
   * access whatever else it contains; otherwise a search term beats a download
   * term; a URL matching neither carries no tag.
   */
  function Classify(url: string): (a: Activity)
    ensures a == FileOpenAccess <==> StartsWith(url, FileScheme)
    ensures a == Search <==>
              !StartsWith(url, FileScheme) && exists t :: t in SearchTerms && Contains(url, t)
    ensures a == Download <==>
              && !StartsWith(url, FileScheme)
              && (forall t :: t in SearchTerms ==> !Contains(url, t))
              && exists t :: t in DownloadTerms && Contains(url, t)
    ensures a == Browse <==>
              && !StartsWith(url, FileScheme)
              && (forall t :: t in SearchTerms ==> !Contains(url, t))
              && (forall t :: t in DownloadTerms ==> !Contains(url, t))
  {
    if StartsWith(url, FileScheme) then FileOpenAccess
    else if ContainsAny(url, SearchTerms) then Search
    else if ContainsAny(url, DownloadTerms) then Download
    else Browse
  }

  /** The four descriptions an IE History row can carry. */
  const Descriptions: set<string> :=
    {"IE History", "IE History + File Open Access", "IE History + Search", "IE History + Download"}

  /**
   * The four site-specific search terms and "/downloads/" never change the
   * outcome: each contains a shorter term of its own list, so only the first six
   * search terms and the first nine download terms matter.
   */
  lemma RedundantTerms(url: string)
    ensures ContainsAny(url, SearchTerms) <==> ContainsAny(url, SearchTerms[..6])
    ensures ContainsAny(url, DownloadTerms) <==> ContainsAny(url, DownloadTerms[..9])
  {
    assert OccursAt("google.com/search", "search", 11);
    assert OccursAt("bing.com/search", "search", 9);
    assert OccursAt("duckduckgo.com/?q=", "q=", 16);
    assert OccursAt("yahoo.com/search", "search", 10);
    assert OccursAt("/downloads/", "download", 1);
    forall t | t in SearchTerms && Contains(url, t)
      ensures exists u :: u in SearchTerms[..6] && Contains(url, u)
    {
      if t in SearchTerms[..6] {
      } else if t == "duckduckgo.com/?q=" {
        ContainsInfix(url, t, "q=");
        assert "q=" == SearchTerms[2];
      } else {
        ContainsInfix(url, t, "search");
        assert "search" == SearchTerms[0];
      }
    }
    forall t | t in DownloadTerms && Contains(url, t)
      ensures exists u :: u in DownloadTerms[..9] && Contains(url, u)
    {
      if t !in DownloadTerms[..9] {
        ContainsInfix(url, t, "download");
        assert "download" == DownloadTerms[0];
      }
    }
  }

  /** Each activity gives one of the four descriptions, and different
      activities give different ones. */
  lemma DescriptionOf(a: Activity)
    ensures "IE History" + a.Tag() in Descriptions
    ensures forall b: Activity :: "IE History" + b.Tag() == "IE History" + a.Tag() ==> b == a
  {
    match a
    case FileOpenAccess => assert "IE History" + a.Tag() == "IE History + File Open Access";
    case Search => assert "IE History" + a.Tag() == "IE History + Search";
    case Download => assert "IE History" + a.Tag() == "IE History + Download";
    case Browse => assert "IE History" + a.Tag() == "IE History";
  }

  /** `dict.GetString("URL")?.Trim().ToLowerInvariant()`. */
  function NormalizedUrl(lib: Library, rec: Record): (url: Option<string>)
    ensures url.Some? <==> lib.getString(rec, UrlColumn).Some?
    ensures url.Some? ==> url.value == lib.toLowerInvariant(Trim(lib.getString(rec, UrlColumn).value))
  {
    match lib.getString(rec, UrlColumn)
    case None => None
    case Some(raw) => Some(lib.toLowerInvariant(Trim(raw)))
  }

  /** The evidence path: the record's "Browser Source" when it is not blank,
      otherwise the export file's path relative to `baseDir`. */
  function EvidencePath(lib: Library, baseDir: string, file: string, rec: Record): (p: string)
    ensures !IsNullOrWhiteSpace(lib.getString(rec, BrowserSourceColumn)) ==>
              p == lib.getString(rec, BrowserSourceColumn).value
    ensures IsNullOrWhiteSpace(lib.getString(rec, BrowserSourceColumn)) ==>
              p == lib.getRelativePath(baseDir, file)
  {
    var source := lib.getString(rec, BrowserSourceColumn);
    if IsNullOrWhiteSpace(source) then lib.getRelativePath(baseDir, file) else source.value
  }

  /**
   * The body of the record loop. A record yields a row exactly when its access
   * time parses and its normalised URL is not blank. The row's time is the
   * canonical rendering of the access time, its path the normalised URL, its
   * description one of the four IE History descriptions chosen by `Classify`,
   * and its details the page title.
   */
  function MapRecord(lib: Library, art: ArtifactDefinition, baseDir: string, file: string, rec: Record)
    : (r: Option<TimelineRow>)
    ensures r.Some? <==>
              lib.getDateTime(rec, AccessedColumn).Some? && !IsNullOrWhiteSpace(NormalizedUrl(lib, rec))
    ensures r.Some? ==>
              var row := r.value;
              && row.dateTime == CanonicalDateTime(lib, lib.getDateTime(rec, AccessedColumn).value)
              && !Contains(row.dateTime, UtcOffset)
              && row.timestampInfo == "Last Visited"
              && row.artifactName == "Web History"
              && row.tool == art.tool
              && row.description in Descriptions
              && row.description == "IE History" + Classify(NormalizedUrl(lib, rec).value).Tag()
              && row.dataPath == NormalizedUrl(lib, rec)
              && !IsNullOrWhiteSpace(row.dataPath)
              && row.dataDetails == lib.getString(rec, TitleColumn)
              && row.fileSize == None
              && row.evidencePath == EvidencePath(lib, baseDir, file, rec)
  {
    match lib.getDateTime(rec, AccessedColumn)
    case None => None
    case Some(parsedDt) =>
      var url := NormalizedUrl(lib, rec);
      if IsNullOrWhiteSpace(url) then None
      else
        var activity := Classify(url.value);
        DescriptionOf(activity);
        Some(TimelineRow(
          dateTime := CanonicalDateTime(lib, parsedDt),
          timestampInfo := "Last Visited",
          artifactName := "Web History",
          tool := art.tool,
          description := "IE History" + activity.Tag(),
          dataPath := url,
          dataDetails := lib.getString(rec, TitleColumn),
          fileSize := None,
          evidencePath := EvidencePath(lib, baseDir, file, rec)))
  }

  /**
   * The URL skip rule in terms of the raw field, for a lower-casing that keeps
   * a string all white space exactly when it was: a missing or blank "URL"
   * drops the record, and any other one keeps it when its time parses.
   */
  lemma UrlSkipRule(lib: Library, art: ArtifactDefinition, baseDir: string, file: string, rec: Record)
    requires forall s :: AllWhiteSpace(lib.toLowerInvariant(s)) <==> AllWhiteSpace(s)
    ensures IsNullOrWhiteSpace(lib.getString(rec, UrlColumn)) ==> MapRecord(lib, art, baseDir, file, rec).None?
    ensures lib.getDateTime(rec, AccessedColumn).Some? && !IsNullOrWhiteSpace(lib.getString(rec, UrlColumn)) ==>
              MapRecord(lib, art, baseDir, file, rec).Some?
  {
  }

  function Mapper(lib: Library, art: ArtifactDefinition, baseDir: string): RecordMapper {
    (file: string, rec: Record) => MapRecord(lib, art, baseDir, file, rec)
  }

  /** The fixed labels every returned row carries. */
  predicate Labelled(art: ArtifactDefinition, row: TimelineRow) {
    && row.timestampInfo == "Last Visited"
    && row.artifactName == "Web History"
    && row.tool == art.tool
    && row.description in Descriptions
    && !IsNullOrWhiteSpace(row.dataPath)
    && !Contains(row.dateTime, UtcOffset)
  }

  /** Every row the parser returns, from any files, carries the IE History labels. */
  lemma {:induction false} RowsLabelled(lib: Library, art: ArtifactDefinition, baseDir: string, files: seq<ExportFile>)
    ensures forall row :: row in AllRows(Mapper(lib, art, baseDir), files) ==> Labelled(art, row)
  {
    AllRowsSatisfy(Mapper(lib, art, baseDir), row => Labelled(art, row), files);
  }

  /** The example URL of a search: tagged " + Search". */
  lemma SearchExample()
    ensures Classify("https://example.com/search?q=test") == Search
  {
    var url := "https://example.com/search?q=test";
    assert url[0] != FileScheme[0];
    assert url[20..26] == "search";
    assert OccursAt(url, "search", 20);
    assert SearchTerms[0] == "search";
  }

  /** A local-file URL is a file access even when it names a search and a download. */
  lemma FileSchemeFirstExample()
    ensures Classify("file:///c:/downloads/search.exe") == FileOpenAccess
  {
    assert "file:///c:/downloads/search.exe"[..8] == FileScheme;
  }

  /** `IArtifactParser.Parse` for AXIOM IE history, from the discovered files on. */
  method Parse(lib: Library, baseDir: string, art: ArtifactDefinition, files: seq<ExportFile>, summary: SummaryTracker)
    returns (rows: seq<TimelineRow>)
    modifies summary
    ensures rows == AllRows(Mapper(lib, art, baseDir), files)
    ensures forall row :: row in rows ==> Labelled(art, row)
    ensures summary.counts == TrackAll(old(summary.counts), KeyOf(art), Mapper(lib, art, baseDir), files)
  {
    rows := ParseFiles(Mapper(lib, art, baseDir), art, files, summary);
    RowsLabelled(lib, art, baseDir, files);
  }
}
