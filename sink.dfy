/**
 * The Google Sheets sink: `get_or_create_worksheet` and
 * `update_google_sheet`, over an in-memory picture of the spreadsheet
 * (its worksheets, each a list of rows of cells) and of the local
 * backup files (each a list of JSON records, one per line).
 */
module Sink {
  import Parser

  /** The header row written to an empty worksheet. */
  const Header: seq<string> := ["Chủ đề", "Tiêu đề", "Tóm tắt", "Link bài báo", "Timestamp"]
  /** The cell text used for a key missing from the analysis. */
  const NoInfo: string := "Không có thông tin"
  /** The key `process_article` sets; the other two keys are the parser's. */
  const TitleKey: string := "title"
  /** The worksheet created when the spreadsheet has none, and its grid size. */
  const NewSheetTitle: string := "Sheet1"
  const NewSheetRows: nat := 1000
  const NewSheetCols: nat := 20

  /** A row as `row_values` reports it: trailing empty cells are not returned. */
  function TrimTrailingEmpty(row: seq<string>): (r: seq<string>)
    ensures |r| <= |row|
    ensures r == [] || r[|r| - 1] != ""
  {
    if row != [] && row[|row| - 1] == "" then TrimTrailingEmpty(row[..|row| - 1]) else row
  }

  /** `worksheet.row_values(1)` */
  function FirstRow(rows: seq<seq<string>>): seq<string> {
    if rows == [] then [] else TrimTrailingEmpty(rows[0])
  }

  /** The rows after the header check: the header is appended only when the first row is empty. */
  function WithHeader(rows: seq<seq<string>>): seq<seq<string>> {
    if FirstRow(rows) == [] then rows + [Header] else rows
  }

  /** `data.get(key, 'Không có thông tin')` */
  function Field(data: map<string, string>, key: string): string {
    if key in data then data[key] else NoInfo
  }

  /** The row `update_google_sheet` appends, in the header's column order. */
  function DataRow(data: map<string, string>, url: string, timestamp: string): seq<string> {
    [Field(data, Parser.SubjectKey), Field(data, TitleKey), Field(data, Parser.SummaryKey), url, timestamp]
  }

  /** The name of the backup file for a day written as `YYYYMMDD`. */
  function BackupName(day: string): string {
    "backup_" + day + ".json"
  }

  /** One line of a backup file: the JSON object `{timestamp, analysis, url}`. */
  datatype BackupRecord = BackupRecord(timestamp: string, analysis: map<string, string>, url: string)

  /** A worksheet: a title, a grid size, and the rows holding data. */
  class Worksheet {
    const title: string
    const rowCount: nat
    const colCount: nat
    var rows: seq<seq<string>>

    constructor (title: string, rowCount: nat, colCount: nat)
      ensures this.title == title && this.rowCount == rowCount && this.colCount == colCount
      ensures rows == []
    {
      this.title := title;
      this.rowCount := rowCount;
      this.colCount := colCount;
      rows := [];
    }

    /** `row_values(1)` */
    function RowValues1(): (r: seq<string>)
      reads this
      ensures rows == [] ==> r == []
      ensures rows != [] ==> |r| <= |rows[0]|
      ensures r == [] || r[|r| - 1] != ""
    {
      FirstRow(rows)
    }

    /** `append_row(row)`: the row follows the existing ones. */
    method AppendRow(row: seq<string>)
      modifies this
      ensures rows == old(rows) + [row]
    {
      rows := rows + [row];
    }
  }

  /** A spreadsheet: its worksheets, in order. */
  class Spreadsheet {
    var sheets: seq<Worksheet>

    constructor (sheets: seq<Worksheet>)
      ensures this.sheets == sheets
    {
      this.sheets := sheets;
    }

    /** The rows of the first worksheet, or none when there is no worksheet. */
    function FirstRows(): seq<seq<string>>
      reads this, sheets
    {
      if sheets == [] then [] else sheets[0].rows
    }

    /** `get_worksheet(index)`: the worksheet at that position, or `None`. */
    method GetWorksheet(index: nat) returns (w: Worksheet?)
      ensures w == if index < |sheets| then sheets[index] else null
    {
      w := if index < |sheets| then sheets[index] else null;
    }

    /** `add_worksheet`: a new, empty worksheet after the existing ones. */
    method AddWorksheet(title: string, rowCount: nat, colCount: nat) returns (w: Worksheet)
      modifies this
      ensures fresh(w) && w.title == title && w.rowCount == rowCount && w.colCount == colCount
      ensures w.rows == []
      ensures sheets == old(sheets) + [w]
    {
      w := new Worksheet(title, rowCount, colCount);
      sheets := sheets + [w];
    }
  }

  /** The local backup files, by name. */
  class BackupStore {
    var files: map<string, seq<BackupRecord>>

    constructor ()
      ensures files == map[]
    {
      files := map[];
    }

    /** The records of a file; a missing file has none. */
    function Records(name: string): seq<BackupRecord>
      reads this
    {
      if name in files then files[name] else []
    }

    /** Opening the file in append mode and writing one record line. */
    method Append(name: string, record: BackupRecord)
      modifies this
      ensures files == old(files)[name := old(Records(name)) + [record]]
    {
      files := files[name := Records(name) + [record]];
    }
  }

  /** `get_or_create_worksheet`: the first worksheet, created if missing, with its header ensured. */
  method GetOrCreateWorksheet(spreadsheet: Spreadsheet) returns (worksheet: Worksheet)
    modifies spreadsheet, spreadsheet.sheets
    ensures old(spreadsheet.sheets) != [] ==>
      worksheet == old(spreadsheet.sheets[0]) && spreadsheet.sheets == old(spreadsheet.sheets)
    ensures old(spreadsheet.sheets) == [] ==>
      && fresh(worksheet) && spreadsheet.sheets == [worksheet]
      && worksheet.title == NewSheetTitle
      && worksheet.rowCount == NewSheetRows && worksheet.colCount == NewSheetCols
    ensures spreadsheet.sheets[0] == worksheet
    ensures spreadsheet.FirstRows() == WithHeader(old(spreadsheet.FirstRows()))
    ensures forall s :: s in old(spreadsheet.sheets) && s != worksheet ==> s.rows == old(s.rows)
  {
    var found := spreadsheet.GetWorksheet(0);
    if found == null {
      worksheet := spreadsheet.AddWorksheet(NewSheetTitle, NewSheetRows, NewSheetCols);
    } else {
      worksheet := found;
    }
    var firstRow := worksheet.RowValues1();
    if firstRow == [] {
      worksheet.AppendRow(Header);
    }
  }

  /**
   * `update_google_sheet`: append the data row to the first worksheet, then one
   * record to the day's backup file. `spreadsheet` is what `init_google_sheets`
   * opened, `null` when it raised; `timestamp` and `day` are the two readings of
   * the clock. The result is false when the call raises.
   */
  method UpdateGoogleSheet(data: map<string, string>, url: string, timestamp: string, day: string,
                           spreadsheet: Spreadsheet?, backup: BackupStore)
    returns (ok: bool)
    modifies spreadsheet, if spreadsheet != null then spreadsheet.sheets else [], backup
    ensures ok <==> spreadsheet != null
    ensures spreadsheet == null ==> backup.files == old(backup.files)
    ensures spreadsheet != null ==>
      && spreadsheet.FirstRows() == WithHeader(old(spreadsheet.FirstRows())) + [DataRow(data, url, timestamp)]
      && backup.files == old(backup.files)[BackupName(day) :=
           old(backup.Records(BackupName(day))) + [BackupRecord(timestamp, data, url)]]
    ensures spreadsheet != null && old(spreadsheet.sheets) != [] ==> spreadsheet.sheets == old(spreadsheet.sheets)
    ensures spreadsheet != null && old(spreadsheet.sheets) == [] ==>
      && |spreadsheet.sheets| == 1 && fresh(spreadsheet.sheets[0])
      && spreadsheet.sheets[0].title == NewSheetTitle
      && spreadsheet.sheets[0].rowCount == NewSheetRows && spreadsheet.sheets[0].colCount == NewSheetCols
    ensures spreadsheet != null ==>
      forall s :: s in old(spreadsheet.sheets) && s != spreadsheet.sheets[0] ==> s.rows == old(s.rows)
  {
    if spreadsheet == null {
      return false;
    }
    var worksheet := GetOrCreateWorksheet(spreadsheet);
    var newRow := [Field(data, Parser.SubjectKey), Field(data, TitleKey), Field(data, Parser.SummaryKey), url, timestamp];
    worksheet.AppendRow(newRow);
    backup.Append(BackupName(day), BackupRecord(timestamp, data, url));
    return true;
  }

  // ---------------------------------------------------------------------
  // Properties.
  // ---------------------------------------------------------------------

  /** `row_values` drops exactly the trailing empty cells. */
  lemma {:induction false} TrimTrailingEmptySpec(row: seq<string>)
    ensures var r := TrimTrailingEmpty(row);
      && r == row[..|r|]
      && forall k :: |r| <= k < |row| ==> row[k] == ""
    decreases |row|
  {
    if row != [] && row[|row| - 1] == "" {
      TrimTrailingEmptySpec(row[..|row| - 1]);
    }
  }

  /** The first row reads as empty exactly when there is no row or its cells are all empty. */
  lemma FirstRowEmpty(rows: seq<seq<string>>)
    ensures FirstRow(rows) == [] <==> rows == [] || forall k :: 0 <= k < |rows[0]| ==> rows[0][k] == ""
  {
    if rows != [] {
      TrimTrailingEmptySpec(rows[0]);
      var r := TrimTrailingEmpty(rows[0]);
      assert r != [] ==> rows[0][|r| - 1] == r[|r| - 1];
    }
  }

  /** The header is Header's five columns and reads back as itself. */
  lemma HeaderReadsBack()
    ensures |Header| == 5
    ensures FirstRow([Header]) == Header
    ensures FirstRow(WithHeader([])) == Header
  {
  }

  /**
   * The header check never moves or changes a row: it keeps the old rows and
   * adds at most the header after them. Afterwards the first row reads as
   * non-empty exactly when the sheet was empty or its first row was already
   * non-empty; a blank first row stays blank.
   */
  lemma WithHeaderSpec(rows: seq<seq<string>>)
    ensures var w := WithHeader(rows);
      && rows <= w
      && (w == rows || w == rows + [Header])
      && (FirstRow(w) != [] <==> rows == [] || FirstRow(rows) != [])
  {
    var w := WithHeader(rows);
    if rows == [] {
      HeaderReadsBack();
    } else {
      assert w[0] == rows[0];
    }
  }

  /** On a worksheet that is empty or has a header, a second header check changes nothing. */
  lemma WithHeaderStable(rows: seq<seq<string>>, more: seq<seq<string>>)
    requires rows == [] || FirstRow(rows) != []
    ensures FirstRow(WithHeader(rows) + more) != []
    ensures WithHeader(WithHeader(rows) + more) == WithHeader(rows) + more
  {
    var w := WithHeader(rows);
    assert (w + more)[0] == w[0];
    if rows == [] {
      assert w[0] == Header;
    }
  }

  /** With a blank first row above other rows, every check appends one more header. */
  lemma BlankFirstRowRepeatsHeader(blank: seq<string>, rest: seq<seq<string>>, more: seq<seq<string>>)
    requires forall k :: 0 <= k < |blank| ==> blank[k] == ""
    ensures WithHeader(WithHeader([blank] + rest) + more) == [blank] + rest + [Header] + more + [Header]
  {
    FirstRowEmpty([blank] + rest);
    var w := WithHeader([blank] + rest);
    assert (w + more)[0] == blank;
    FirstRowEmpty(w + more);
  }

  /**
   * A cell shows the default only for an absent key: a present value is copied
   * as it is, so an empty subject or summary gives an empty cell. Setting a key
   * (as the title override does) changes that cell alone.
   */
  lemma FieldSpec(data: map<string, string>, key: string, other: string, v: string)
    ensures key !in data ==> Field(data, key) == NoInfo
    ensures Field(data, key) == "" <==> key in data && data[key] == ""
    ensures Field(data[key := v], key) == v
    ensures other != key ==> Field(data[other := v], key) == Field(data, key)
  {
  }

  /**
   * For an analysis with the three keys the sheet row loses nothing: equal rows
   * come only from equal analyses, links and timestamps.
   */
  lemma DataRowDeterminesData(d1: map<string, string>, url1: string, time1: string,
                              d2: map<string, string>, url2: string, time2: string)
    requires d1.Keys == {Parser.SubjectKey, TitleKey, Parser.SummaryKey}
    requires d2.Keys == {Parser.SubjectKey, TitleKey, Parser.SummaryKey}
    requires DataRow(d1, url1, time1) == DataRow(d2, url2, time2)
    ensures d1 == d2 && url1 == url2 && time1 == time2
  {
    var r1 := DataRow(d1, url1, time1);
    var r2 := DataRow(d2, url2, time2);
    assert r1[0] == r2[0] && r1[1] == r2[1] && r1[2] == r2[2];
    assert r1[3] == r2[3] && r1[4] == r2[4];
    forall k | k in d1
      ensures d1[k] == d2[k]
    {
      assert k == Parser.SubjectKey || k == TitleKey || k == Parser.SummaryKey;
    }
  }

  /** Different days write to different backup files. */
  lemma BackupNameInjective(d1: string, d2: string)
    requires BackupName(d1) == BackupName(d2)
    ensures d1 == d2
  {
    var n := |"backup_"|;
    assert d1 == BackupName(d1)[n..n + |d1|];
    assert d2 == BackupName(d2)[n..n + |d2|];
  }

  /** Two updates in a row on a sheet with a header (or none) give one header and both rows in order. */
  lemma TwoUpdatesKeepOrder(rows: seq<seq<string>>, a: seq<string>, b: seq<string>)
    requires rows == [] || FirstRow(rows) != []
    ensures WithHeader(WithHeader(rows) + [a]) + [b] == WithHeader(rows) + [a, b]
  {
    WithHeaderStable(rows, [a]);
  }
}
