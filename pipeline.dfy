/**
 * `process_article`: fetch the article, analyse it, put the article's own
 * title in place of any title from the analysis, and store the result.
 */
module Pipeline {
  import opened Wrappers
  import opened Text
  import Parser
  import opened Extract
  import opened Analysis
  import opened Sink
  import Config

  /** How `process_article` ends: stored, one of its two early returns, or an exception. */
  datatype Status =
    | Stored
    | NoContent                            // "Content extraction failed."
    | NoAnalysis                           // "Content analysis failed."
    | AnalysisRaised(fault: AnalysisFault) // raised by `analyze_content`
    | SheetRaised                          // raised by `update_google_sheet`

  /** The analysis with `title` set to the fetched title: the dictionary handed to the sink, if it gets that far. */
  function Prepared(url: string, download: (string, nat) -> PageOutcome, post: (string, nat) -> ApiOutcome)
    : Option<map<string, string>>
  {
    var fetched := Fetch(url, download);
    if fetched.None? then None
    else
      match Analyze(fetched.value.content, post)
      case Raised(_) => None
      case Fields(analysis) =>
        if analysis == map[] then None else Some(analysis[TitleKey := fetched.value.title])
  }

  /** How `process_article(url)` ends, given whether the spreadsheet could be opened. */
  function Outcome(url: string, download: (string, nat) -> PageOutcome, post: (string, nat) -> ApiOutcome,
                   sheetOpens: bool): Status
  {
    var fetched := Fetch(url, download);
    if fetched.None? then NoContent
    else
      match Analyze(fetched.value.content, post)
      case Raised(e) => AnalysisRaised(e)
      case Fields(analysis) =>
        if analysis == map[] then NoAnalysis
        else if sheetOpens then Stored
        else SheetRaised
  }

  /**
   * `process_article`. The fetched content is tested with `if not content`;
   * here that is the `None` case alone, as a fetched content is never empty
   * (`Extract.FetchedContentBounds`).
   */
  method ProcessArticle(url: string, download: (string, nat) -> PageOutcome, post: (string, nat) -> ApiOutcome,
                        spreadsheet: Spreadsheet?, backup: BackupStore, timestamp: string, day: string)
    returns (status: Status)
    modifies spreadsheet, if spreadsheet != null then spreadsheet.sheets else [], backup
    ensures status == Outcome(url, download, post, spreadsheet != null)
    ensures status == Stored ==>
      && Prepared(url, download, post).Some?
      && spreadsheet != null
      && spreadsheet.FirstRows()
         == WithHeader(old(spreadsheet.FirstRows())) + [DataRow(Prepared(url, download, post).value, url, timestamp)]
      && backup.files == old(backup.files)[BackupName(day) :=
           old(backup.Records(BackupName(day))) + [BackupRecord(timestamp, Prepared(url, download, post).value, url)]]
    ensures status == Stored && old(spreadsheet.sheets) != [] ==> spreadsheet.sheets == old(spreadsheet.sheets)
    ensures status == Stored && old(spreadsheet.sheets) == [] ==>
      && |spreadsheet.sheets| == 1 && fresh(spreadsheet.sheets[0])
      && spreadsheet.sheets[0].title == NewSheetTitle
      && spreadsheet.sheets[0].rowCount == NewSheetRows && spreadsheet.sheets[0].colCount == NewSheetCols
    ensures status == Stored ==>
      forall s :: s in old(spreadsheet.sheets) && s != spreadsheet.sheets[0] ==> s.rows == old(s.rows)
    ensures status != Stored ==> backup.files == old(backup.files)
    ensures status != Stored && spreadsheet != null ==>
      && spreadsheet.sheets == old(spreadsheet.sheets)
      && forall s :: s in old(spreadsheet.sheets) ==> s.rows == old(s.rows)
  {
    var fetched, _ := FetchWebpageContent(url, download);
    if fetched.None? {
      return NoContent;
    }
    var content := fetched.value.content;
    var realTitle := fetched.value.title;
    var analysis, _ := AnalyzeContent(content, post);
    if analysis.Raised? {
      return AnalysisRaised(analysis.fault);
    }
    if analysis.fields == map[] {
      return NoAnalysis;
    }
    var data := analysis.fields[TitleKey := realTitle];
    var ok := UpdateGoogleSheet(data, url, timestamp, day, spreadsheet, backup);
    status := if ok then Stored else SheetRaised;
  }

  // ---------------------------------------------------------------------
  // Properties.
  // ---------------------------------------------------------------------

  /** The empty-content `ValueError` of `analyze_content` cannot escape `process_article`. */
  lemma NeverEmptyContentError(url: string, download: (string, nat) -> PageOutcome,
                               post: (string, nat) -> ApiOutcome, sheetOpens: bool)
    ensures Outcome(url, download, post, sheetOpens) != AnalysisRaised(EmptyContent)
  {
    FetchedContentBounds(url, download);
    var fetched := Fetch(url, download);
    if fetched.Some? {
      EmptyContentRaises(fetched.value.content, post);
    }
  }

  /** The run stops at extraction exactly when all three fetch attempts fail. */
  lemma NoContentIffAllFetchesFail(url: string, download: (string, nat) -> PageOutcome,
                                   post: (string, nat) -> ApiOutcome, sheetOpens: bool)
    ensures Outcome(url, download, post, sheetOpens) == NoContent
            <==> forall j :: 0 <= j < Config.MaxRetries ==> Attempt(download(url, j)).None?
  {
    FetchNoneIffAllAttemptsFail(url, download);
  }

  /** The run stops at analysis exactly when the article was fetched and all three requests failed. */
  lemma NoAnalysisIffAllRequestsFail(url: string, download: (string, nat) -> PageOutcome,
                                     post: (string, nat) -> ApiOutcome, sheetOpens: bool)
    ensures Outcome(url, download, post, sheetOpens) == NoAnalysis
            <==> Fetch(url, download).Some?
                 && forall j :: 0 <= j < Config.MaxRetries ==>
                      post(Prompt(Fetch(url, download).value.content), j).RequestFailed?
  {
    FetchedContentBounds(url, download);
    var fetched := Fetch(url, download);
    if fetched.Some? {
      GivesUpIffAllRequestsFail(fetched.value.content, post);
    }
  }

  /** A dictionary is handed to the sink exactly when the run does not stop or raise before it. */
  lemma PreparedIffReachesSink(url: string, download: (string, nat) -> PageOutcome,
                               post: (string, nat) -> ApiOutcome, sheetOpens: bool)
    ensures Prepared(url, download, post).Some?
            <==> Outcome(url, download, post, sheetOpens) in {Stored, SheetRaised}
    ensures Outcome(url, download, post, sheetOpens) == Stored <==> Prepared(url, download, post).Some? && sheetOpens
  {
  }

  /** The stored title is the article's own title from the first successful fetch, never one from the reply. */
  lemma StoredTitle(url: string, download: (string, nat) -> PageOutcome, post: (string, nat) -> ApiOutcome)
    ensures var p := Prepared(url, download, post);
      p.Some? ==>
        var n := AttemptsMade(url, download);
        && 1 <= n <= Config.MaxRetries
        && download(url, n - 1).Parsed?
        && p.value[TitleKey] == ResolveTitle(download(url, n - 1).title)
  {
    FetchFirstSuccess(url, download);
    if Prepared(url, download, post).Some? {
      AttemptSpec(download(url, AttemptsMade(url, download) - 1));
    }
  }

  /** The stored subject and summary are those parsed from the first reply, and they are the only other keys. */
  lemma StoredSections(url: string, download: (string, nat) -> PageOutcome, post: (string, nat) -> ApiOutcome)
    ensures var p := Prepared(url, download, post);
      p.Some? ==>
        var content := Fetch(url, download).value.content;
        var m := RequestsSent(content, post);
        var reply := post(Prompt(content), m - 1);
        && 1 <= m <= Config.MaxRetries
        && reply.Reply?
        && p.value.Keys == {Parser.SubjectKey, TitleKey, Parser.SummaryKey}
        && p.value[Parser.SubjectKey] == Parser.ParseResult(reply.text)[Parser.SubjectKey]
        && p.value[Parser.SummaryKey] == Parser.ParseResult(reply.text)[Parser.SummaryKey]
  {
    if Prepared(url, download, post).Some? {
      var fetched := Fetch(url, download).value;
      var a := Analyze(fetched.content, post);
      var m := RequestsSent(fetched.content, post);
      var reply := post(Prompt(fetched.content), m - 1);
      assert Prepared(url, download, post).value == a.fields[TitleKey := fetched.title];
      assert && a.Fields? && 1 <= m <= Config.MaxRetries && reply.Reply?
             && a.fields == Parser.ParseResult(reply.text)
             && a.fields.Keys == {Parser.SubjectKey, Parser.SummaryKey} by {
        FetchedContentBounds(url, download);
        AnsweredFromFirstReply(fetched.content, post);
      }
      WithTitle(a.fields, fetched.title);
    }
  }

  /** Adding the title to a two-section analysis gives three keys and keeps both sections. */
  lemma WithTitle(fields: map<string, string>, title: string)
    requires fields.Keys == {Parser.SubjectKey, Parser.SummaryKey}
    ensures var data := fields[TitleKey := title];
      && data.Keys == {Parser.SubjectKey, TitleKey, Parser.SummaryKey}
      && data[Parser.SubjectKey] == fields[Parser.SubjectKey]
      && data[Parser.SummaryKey] == fields[Parser.SummaryKey]
      && data[TitleKey] == title
  {
  }

  /** The stored row uses no default cell: subject, fetched title, summary, link and timestamp. */
  lemma StoredRowHasNoDefaults(url: string, download: (string, nat) -> PageOutcome,
                               post: (string, nat) -> ApiOutcome, timestamp: string)
    ensures var p := Prepared(url, download, post);
      p.Some? ==>
        DataRow(p.value, url, timestamp)
        == [p.value[Parser.SubjectKey], Fetch(url, download).value.title, p.value[Parser.SummaryKey], url, timestamp]
  {
    StoredSections(url, download, post);
  }
}
