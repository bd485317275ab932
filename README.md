# Article pipeline: a Dafny model

This project models the core of `utils.py` in the article-ingestion bot. For one submitted URL the
bot does four things. It fetches the article with newspaper3k, in up to three attempts. It asks a
language model (DeepSeek through OpenRouter) for a topic (`Chủ đề:`) and a summary (`Tóm tắt:`),
again in up to three attempts, and parses the free-text answer into a dictionary. It puts the article's own
headline in the dictionary as `title`. Finally it appends one row to the first worksheet of a Google
spreadsheet (adding the header row when the first row is empty) and one record to a daily local
backup file.

The modules follow the program's functions:

- `Wrappers`: `Option`, standing in for `None`.
- `Config`: `MAX_RETRIES` and `MAX_CONTENT_LENGTH`, shared by both retry loops and the length limit.
- `Text`: the Python string built-ins the code relies on. These are `str.isspace`, `str.strip()`,
  `str.startswith` and `str.splitlines()`, over code points.
- `Parser`: `parse_deepseek_result`. There is an imperative loop (`ParseDeepseekResult`) proved equal
  to a fold over the lines (`ParseResult`). There is also a second, independent reference definition:
  each field is the value on its last label line followed by the lines continuing it. Lemmas state
  the parser's promises (see the table).
- `Extract`: `fetch_webpage_content`, its retry loop, the length limit and the title fallback.
- `Analysis`: `analyze_content`, its empty-input check, prompt, retry loop and its `{}` fallback.
- `Sink`: `get_or_create_worksheet` and `update_google_sheet`. The spreadsheet, its worksheets and
  the backup files are classes whose fields the methods update.
- `Pipeline`: `process_article`, its two early returns, the title override, and which exceptions
  can reach its caller.

The outside world is given to the model as parameters:

- `download(url, attempt)` says what newspaper3k's `download()`/`parse()` produced on that attempt.
- `post(prompt, attempt)` says what `requests.post` produced on that attempt: a reply text, a
  `RequestException`, or another failure.
- `spreadsheet` is the object `init_google_sheets` opened, or `null` when that call raised.
- `timestamp` and `day` are the two clock readings of `update_google_sheet`.

Python exceptions are values. `AnalysisResult.Raised` stands for the exceptions that leave
`analyze_content`. `Pipeline.Status` says how `process_article` ended.

Three behaviours of the code worth knowing:

- The sheet uses the default cell `Không có thông tin` only when a key is ABSENT (`data.get`). An
  empty subject or summary is written as an empty cell.
- Only a `RequestException` is retried by `analyze_content`. Any other failure while reading the
  answer leaves the function as an exception. It does not count as an exhausted retry.
- The header is added when `row_values(1)` is empty, not only when the sheet has no rows. A blank
  first row above existing rows therefore gets a new header appended on every call
  (`Sink.BlankFirstRowRepeatsHeader`).

## Model

| member | source | states |
|---|---|---|
| `Text.IsLineBreak` | utils.py:56 | every character `splitlines` breaks at is also whitespace for `strip` |
| `Text.IsSpace` | utils.py:57 | `str.isspace`: the characters `strip()` removes, CPython's whitespace set |
| `Text.StartsWith` | utils.py:58-61 | `str.startswith`: the prefix is no longer than the string and equals its start |
| `Text.TrimStart` | utils.py:57 | the result is no longer than the input and does not begin with whitespace |
| `Text.TrimEnd` | utils.py:57 | the result is no longer than the input and does not end with whitespace |
| `Text.Strip` | utils.py:57 | the result is no longer than the input and has no whitespace at either end |
| `Text.TrimStartSpec` | utils.py:57 | `lstrip` returns a suffix of the input, and every character it removed is whitespace |
| `Text.TrimEndSpec` | utils.py:57 | `rstrip` returns a prefix of the input, and every character it removed is whitespace |
| `Text.StripEmpty` | utils.py:65 | `strip()` is empty exactly when the input is all whitespace, so such a line is falsy |
| `Text.StripClean` | utils.py:57 | a string with no whitespace at either end is its own strip |
| `Text.StripIdempotent` | utils.py:69-70 | stripping twice is stripping once |
| `Text.StripNoLineBreak` | utils.py:57 | stripping introduces no line boundary |
| `Text.StripLeadingSpace` | utils.py:60 | a leading whitespace character does not change the strip |
| `Text.StripKeepsPrefix` | utils.py:58 | a prefix that starts and ends with a non-space survives `strip()`, so `startswith` still sees it |
| `Text.FirstBreak` | utils.py:56 | the index of the first line boundary, or the length: no boundary before it, a boundary at it |
| `Text.SplitLines` | utils.py:56 | no produced line contains a line boundary |
| `Text.SplitLinesNoBreak` | utils.py:56 | a non-empty string without boundaries is one line |
| `Text.SplitLinesCons` | utils.py:56 | a line followed by `\n` splits off as the first line |
| `Text.SplitJoin` | utils.py:56 | `splitlines` undoes `"\n".join` for boundary-free lines whose last line is non-empty |
| `Parser.Finish` | utils.py:68-71 | the returned dictionary has exactly the keys `subject` and `summary` |
| `Parser.LabelOf` | utils.py:58-61 | the label a stripped line starts with, the subject label tried first |
| `Parser.LabelValue` | utils.py:60-63 | `line[len(label):].strip()`: no longer than the text after the label, with no whitespace at either end |
| `Parser.Classify` | utils.py:57-63 | a line is stripped; a labelled line gives its label and the stripped rest, any other line its stripped text |
| `Parser.Apply` | utils.py:58-66 | one iteration's effect: a label sets its section and opens it; other non-blank text is appended after a space to the open section |
| `Parser.Step` | utils.py:57-66 | one iteration of the loop on one raw line |
| `Parser.RunFrom` | utils.py:56-66 | the loop over the lines, one step per line in order |
| `Parser.ParseResult` | utils.py:44-71 | `parse_deepseek_result`: the loop over `splitlines`, then both sections stripped |
| `Parser.ParseDeepseekResult` | utils.py:44-71 | the loop over the stripped lines returns exactly the reference fold `ParseResult`, with both keys always present |
| `Parser.ParseLine` | utils.py:57-66 | one iteration: a label opens its section and sets it, another non-blank line is appended to the open section |
| `Parser.Kinds` | utils.py:56-63 | one classification per line |
| `Parser.LastLabelled` | utils.py:58-63 | the index, if any, of a line carrying the label |
| `Parser.LastOpenedSpec` | utils.py:58-66 | the open section is `l` exactly when `l`'s last label line is followed only by unlabelled lines |
| `Parser.ContinuationSnoc` | utils.py:64-66 | one more line extends a section's continuation only when no label stands in between |
| `Parser.ApplyGet` | utils.py:58-66 | what one classified line does to a section: set by its own label, extended while open, otherwise kept |
| `Parser.AccumulatedSnoc` | utils.py:56-66 | one more line keeps each section equal to its reference text |
| `Parser.RunMatchesReference` | utils.py:56-66 | after any lines, each section is its last label's value followed by its continuation lines, and the open section is the last label seen |
| `Parser.ParseMatchesReference` | utils.py:44-71 | each returned field is its reference text, stripped |
| `Parser.NoLastLabelled` | utils.py:58-63 | without label lines no label has a last occurrence |
| `Parser.NoLabelsGivesEmptyFields` | utils.py:50-53 | an answer with no label line yields two empty strings, not missing keys |
| `Parser.RunFromAppend` | utils.py:56 | the loop over two line lists is the loop over the first continued with the second |
| `Parser.AgreeOnSection` | utils.py:56-66 | a section depends only on its own earlier value and the open section |
| `Parser.LaterLabelOverwrites` | utils.py:58-63 | a later line with the same label discards everything that section held before it |
| `Parser.BlankLineIgnored` | utils.py:65 | a blank or whitespace-only line changes nothing, wherever it stands |
| `Parser.JunkKeepsStart` | utils.py:54-65 | lines without a label before the first label leave the initial state |
| `Parser.LeadingJunkDiscarded` | utils.py:54-65 | lines before the first label are dropped from the result |
| `Parser.ContinuationAppends` | utils.py:56-66 | during a parse, an unlabelled non-blank line is appended after one space to the section the last label line opened; every other section, every section before any label or for a blank line, and the open section stay as they were |
| `Parser.LabelsClean` | utils.py:58-61 | both labels start and end with a non-space and hold no line boundary |
| `Parser.TitleLineIsContinuation` | utils.py:48-66 | a `Tiêu đề:` line is not recognised and continues whichever section is open |
| `Parser.RenderedLine` | utils.py:58-63 | a `Label value` line with a stripped value is classified as that label with that value |
| `Parser.RenderedLineNoBreak` | utils.py:56 | a rendered line holds no line boundary |
| `Parser.RenderRoundTrip` | utils.py:44-71 | rendering stripped one-line values as subject then summary and parsing gives the values back |
| `Parser.RenderReversedRoundTrip` | utils.py:44-71 | the same in the opposite section order |
| `Parser.RunNoLineBreak` | utils.py:56-66 | accumulated sections never hold a line boundary, since lines are joined with spaces |
| `Parser.ParseRenderIdempotent` | utils.py:44-71 | parsing the rendered result of a parse gives the same result |
| `Extract.FetchWebpageContent` | utils.py:76-104 | the retry loop returns the reference result `Fetch` after the reference number of attempts |
| `Extract.Truncate` | utils.py:93-95 | the length limit: over 50000 characters, the first 50000 followed by `...` |
| `Extract.ResolveTitle` | utils.py:88 | the stripped title, or `Không có tiêu đề` for a falsy one |
| `Extract.Attempt` | utils.py:83-97 | one attempt: a failed download or parse, or blank text, sends the loop round; otherwise the cut content and the title |
| `Extract.Tries` | utils.py:81-83 | the outcome of each numbered attempt on the URL |
| `Extract.FetchFrom` | utils.py:81-104 | the loop from attempt `i`: the first usable attempt, or `(None, None)` after the last |
| `Extract.AttemptsFrom` | utils.py:81-104 | the number of attempts that loop makes |
| `Extract.Fetch` | utils.py:76-104 | `fetch_webpage_content(url)`: the loop from the first attempt |
| `Extract.TruncateSpec` | utils.py:93-95 | content within 50000 characters is kept; longer content keeps its first 50000 characters followed by `...` |
| `Extract.TruncateKeepsStart` | utils.py:93-95 | non-empty content stays non-empty and keeps its first character |
| `Extract.ResolveTitleSpec` | utils.py:88 | an absent or empty title becomes `Không có tiêu đề`; otherwise the title is stripped, and it is empty only when it was all whitespace |
| `Extract.AttemptSpec` | utils.py:83-97 | an attempt succeeds exactly when the page parsed and its text is not blank; it returns the stripped, cut text and the resolved title |
| `Extract.FetchFromNone` | utils.py:81-104 | the loop from any attempt gives up exactly when every remaining attempt fails |
| `Extract.FetchFromFirstSuccess` | utils.py:81-97 | a success is the first successful attempt's result, and every earlier attempt failed |
| `Extract.FetchNoneIffAllAttemptsFail` | utils.py:81-104 | `(None, None)` is returned exactly when all three attempts fail, after three attempts |
| `Extract.FetchFirstSuccess` | utils.py:81-97 | on success, the pair comes from the first attempt that succeeded and no later attempt is made |
| `Extract.FetchedContentBounds` | utils.py:87-97 | returned content is non-empty, starts with a non-space and is at most 50003 characters long |
| `Analysis.AnalyzeContent` | utils.py:109-173 | the empty-content guard and the retry loop return the reference result `Analyze` after the reference number of requests |
| `Analysis.Prompt` | utils.py:118-127 | the user prompt: the fixed instructions, the article text, the fixed reminder |
| `Analysis.AnalyzeFrom` | utils.py:142-173 | the loop from attempt `i`: a `RequestException` goes round again, any other answer ends it, `{}` after the last |
| `Analysis.Answer` | utils.py:151-166 | an answer that ends the loop: a reply is parsed, another failure is raised |
| `Analysis.RequestsFrom` | utils.py:142-173 | the number of requests that loop sends |
| `Analysis.Analyze` | utils.py:109-173 | `analyze_content(content)`: `ValueError` for empty content, otherwise the loop from the first attempt |
| `Analysis.PromptInjective` | utils.py:118-127 | the article text is placed verbatim in the prompt: different texts give different prompts |
| `Analysis.EmptyContentRaises` | utils.py:114-115 | `ValueError` is raised exactly for empty content, before any request |
| `Analysis.AnalyzeFromNeverEmptyContent` | utils.py:142-173 | the retry loop itself never raises the empty-content error |
| `Analysis.AnalyzeFromGivesUp` | utils.py:142-173 | the loop from any attempt returns `{}` exactly when every remaining request raises a `RequestException`, and then it has made all three |
| `Analysis.AnalyzeFromFirstAnswer` | utils.py:142-170 | otherwise the loop stops at the first answer that is not a `RequestException`: a reply is parsed, any other failure is raised |
| `Analysis.GivesUpIffAllRequestsFail` | utils.py:142-173 | for non-empty content, `{}` is returned exactly when all three requests fail, after three requests |
| `Analysis.AnsweredFromFirstReply` | utils.py:142-166 | a non-empty result is the parse of the first reply, has exactly the keys `subject` and `summary`, and every earlier request failed |
| `Analysis.ResultShape` | utils.py:159-173 | a returned dictionary is `{}` or has exactly the keys `subject` and `summary` |
| `Sink.TrimTrailingEmpty` | utils.py:219 | `row_values` never reports a trailing empty cell |
| `Sink.FirstRow` | utils.py:219 | `row_values(1)`: the first row without its trailing empty cells, or none |
| `Sink.WithHeader` | utils.py:219-222 | the header check: the header is appended when the first row reads empty |
| `Sink.Field` | utils.py:239-241 | `data.get(key, 'Không có thông tin')` |
| `Sink.DataRow` | utils.py:238-244 | the appended row: subject, title, summary, link, timestamp, in the header's column order |
| `Sink.BackupName` | utils.py:256 | the backup file of a day, `backup_<day>.json` |
| `Sink.Worksheet.constructor` | utils.py:208 | a new worksheet has the given title and grid size and no rows |
| `Sink.Worksheet.RowValues1` | utils.py:219 | `row_values(1)`: nothing for a sheet without rows; otherwise no more cells than the first row, and never a trailing empty cell |
| `Sink.Worksheet.AppendRow` | utils.py:247 | `append_row` puts the row after the existing rows |
| `Sink.Spreadsheet.constructor` | utils.py:199 | the spreadsheet holds the given worksheets |
| `Sink.Spreadsheet.GetWorksheet` | utils.py:206 | `get_worksheet(0)` is the first worksheet or `None` |
| `Sink.Spreadsheet.AddWorksheet` | utils.py:208 | `add_worksheet` adds a fresh, empty worksheet with the given title and size after the others |
| `Sink.BackupStore.constructor` | utils.py:256-259 | no backup file exists yet |
| `Sink.BackupStore.Append` | utils.py:256-259 | opening a file in append mode and writing a record adds the record after the file's earlier records; other files are unchanged |
| `Sink.GetOrCreateWorksheet` | utils.py:201-226 | returns the first worksheet, or a new `Sheet1` of 1000 by 20 when there is none; its rows become `WithHeader` of the old ones; no other worksheet changes |
| `Sink.UpdateGoogleSheet` | utils.py:228-263 | when the spreadsheet opened: the first worksheet gets the header check and then the data row, the day's backup file gets one `{timestamp, analysis, url}` record, the worksheet list is kept (or is the one new `Sheet1`) and no other worksheet changes; otherwise it raises and writes nothing |
| `Sink.TrimTrailingEmptySpec` | utils.py:219 | `row_values` returns a prefix of the row and drops only empty cells |
| `Sink.FirstRowEmpty` | utils.py:219-220 | the first row reads as empty exactly when there is no row or all its cells are empty |
| `Sink.HeaderReadsBack` | utils.py:218-222 | the header has five columns and reads back as itself, so an empty sheet gets exactly the header as first row |
| `Sink.WithHeaderSpec` | utils.py:219-222 | the header check keeps every existing row in place and adds at most the header after them; afterwards the first row reads as non-empty exactly when the sheet was empty or its first row already was, so a blank first row stays blank |
| `Sink.WithHeaderStable` | utils.py:219-222 | on a sheet that was empty or had a first row, a later header check with more rows below adds no duplicate header |
| `Sink.BlankFirstRowRepeatsHeader` | utils.py:219-222 | with a blank first row above other rows, each header check appends another header |
| `Sink.FieldSpec` | utils.py:239-241 | the default appears for an absent key; a cell is empty exactly when its key is present with an empty value; setting a key (the title override) changes that cell and no other |
| `Sink.DataRowDeterminesData` | utils.py:238-244 | for analyses with the three keys, equal rows come only from equal analyses, links and timestamps: the row loses nothing |
| `Sink.BackupNameInjective` | utils.py:256 | different days write to different backup files |
| `Sink.TwoUpdatesKeepOrder` | utils.py:219-247 | two updates on a sheet with a header (or none) give one header and both rows in call order |
| `Pipeline.ProcessArticle` | utils.py:268-295 | the run ends as `Outcome` says. A stored run appends the prepared dictionary's row to the first worksheet and its record to the backup, and touches no other worksheet. Any other end writes nothing to the backup and, when the sheet was open, keeps its worksheet list and every worksheet's rows |
| `Pipeline.Outcome` | utils.py:279-294 | how `process_article` ends: no content, no analysis, an exception from the analysis or the sheet, or stored |
| `Pipeline.Prepared` | utils.py:279-291 | the dictionary handed to `update_google_sheet`: the non-empty analysis with `title` set to the fetched title |
| `Pipeline.NeverEmptyContentError` | utils.py:279-285 | the empty-content `ValueError` can never escape `process_article` |
| `Pipeline.NoContentIffAllFetchesFail` | utils.py:279-282 | the run stops at extraction exactly when all three fetch attempts fail |
| `Pipeline.NoAnalysisIffAllRequestsFail` | utils.py:285-288 | the run stops at analysis exactly when the article was fetched and all three requests raised `RequestException` |
| `Pipeline.PreparedIffReachesSink` | utils.py:279-294 | a dictionary reaches the sink exactly when neither early return nor an analysis exception happened; it is stored exactly when the spreadsheet opens |
| `Pipeline.StoredTitle` | utils.py:291 | the stored title is the resolved title of the first successful fetch, never one from the model's reply |
| `Pipeline.StoredSections` | utils.py:285-291 | the stored subject and summary are those parsed from the first reply; `subject`, `title` and `summary` are the only keys |
| `Pipeline.WithTitle` | utils.py:291 | adding `title` to a two-section analysis keeps both sections and gives three keys |
| `Pipeline.StoredRowHasNoDefaults` | utils.py:238-244 | the stored row never uses the default cell: subject, fetched title, summary, link, timestamp |

## Left out

- The network, newspaper3k's extraction, OAuth and gspread are oracles or in-memory objects. What
  newspaper3k reads from a page, and what the model answers, are not modelled.
- `time.sleep(RETRY_DELAY)`, `REQUEST_TIMEOUT` and all logging are left out: they affect timing and
  the log only. That includes the empty-section warnings (utils.py:162-164).
- The request body and headers (model id, system message, temperature, token cap, API key, and the
  key check at import time) are left out. They do not affect the control flow. The user prompt is
  modelled verbatim.
- `init_google_sheets` (credentials file, environment variable, `open_by_key`) appears only as a
  `null` spreadsheet, meaning that it raised. Other possible failures are not modelled:
  `get_worksheet`, `add_worksheet`, `row_values`, `append_row`, and the backup file write inside
  `update_google_sheet`. A failing `get_worksheet` or `add_worksheet` raises before anything is
  written. A failing `row_values` (utils.py:219) or header `append_row` (utils.py:222) can follow a
  newly added `Sheet1`. A failing data `append_row` (utils.py:247) can follow a header
  just written. A failing backup write (utils.py:257-259) follows the stored row.
- `Sink.Worksheet.AppendRow`: does not model Google Sheets' table detection. A row is placed after the
  last stored row.
- The text of the timestamp (`%Y-%m-%d %H:%M:%S`) and of the file-name date (`%Y%m%d`) is not
  modelled; both are parameters. The two separate `datetime.now()` readings are two inputs.
- The JSON encoding of a backup record is left out; a record is kept as a structured value.
- A failing upload to a worksheet whose grid is full is not modelled. The 1000 by 20 grid size is
  recorded only.
- `bot.py` and `main.py` are not part of this model. They do not call `process_article`: each imports
  `fetch_webpage_content`, `analyze_content` and `update_google_sheet` and calls the three itself.
- Strings are sequences of code points, as in Python 3. No Unicode normalisation is modelled.
