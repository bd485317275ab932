/**
 * `analyze_content`: send the article to the language model, up to three
 * times, and parse its answer into a `subject` and a `summary`.
 *
 * The HTTP exchange is an oracle `post(prompt, attempt)` that says what the
 * request of the given attempt produced: the answer text found at
 * `choices[0].message.content`, a failure that `requests` reports as a
 * `RequestException` (connection errors, timeouts, an error status from
 * `raise_for_status`), or any other failure of reading the answer, which is
 * not caught by the retry loop.
 */
module Analysis {
  import opened Parser
  import opened Config

  /** The instructions before the article text and the reminder after it. */
  const PromptHead: string := "Hãy phân tích nội dung sau và trả về kết quả theo định dạng chính xác:\n\nChủ đề: [chủ đề chính (vd: chính trị, thể thao, thời trang...)]\nTóm tắt: [tóm tắt ngắn gọn nội dung]\n\nNội dung cần phân tích:\n"
  const PromptTail: string := "\n\nLưu ý: Phải trả về đúng định dạng với các từ khóa 'Chủ đề:', 'Tóm tắt:' ở đầu mỗi phần.\n"

  /** What one `requests.post` attempt produced. */
  datatype ApiOutcome = Reply(text: string) | RequestFailed | Malformed

  /** The exceptions that leave `analyze_content`. */
  datatype AnalysisFault =
    | EmptyContent  // the `ValueError` raised before any request
    | BadResponse   // a failure other than a `RequestException` while reading the answer

  /** A returned dictionary (`map[]` is the `{}` given after three failed requests), or an exception. */
  datatype AnalysisResult = Fields(fields: map<string, string>) | Raised(fault: AnalysisFault)

  /** The user message: the instructions with the article text placed verbatim between them. */
  function Prompt(content: string): string {
    PromptHead + content + PromptTail
  }

  /** The result of the retry loop entered at attempt `i`. */
  function AnalyzeFrom(prompt: string, post: (string, nat) -> ApiOutcome, i: nat): AnalysisResult
    decreases MaxRetries - i
  {
    if i >= MaxRetries then Fields(map[])
    else if post(prompt, i).RequestFailed? then AnalyzeFrom(prompt, post, i + 1)
    else Answer(post(prompt, i))
  }

  /** What an answer that ends the loop gives: a reply is parsed, any other failure is raised. */
  function Answer(o: ApiOutcome): AnalysisResult {
    match o
    case Reply(text) => Fields(ParseResult(text))
    case Malformed => Raised(BadResponse)
    case RequestFailed => Fields(map[])  // never reached: the loop sends a `RequestException` round again
  }

  /** The number of requests the loop entered at attempt `i` sends. */
  function RequestsFrom(prompt: string, post: (string, nat) -> ApiOutcome, i: nat): nat
    decreases MaxRetries - i
  {
    if i >= MaxRetries then i
    else if post(prompt, i).RequestFailed? then RequestsFrom(prompt, post, i + 1)
    else i + 1
  }

  /** What `analyze_content(content)` returns or raises. */
  function Analyze(content: string, post: (string, nat) -> ApiOutcome): AnalysisResult {
    if content == "" then Raised(EmptyContent) else AnalyzeFrom(Prompt(content), post, 0)
  }

  function RequestsSent(content: string, post: (string, nat) -> ApiOutcome): nat {
    if content == "" then 0 else RequestsFrom(Prompt(content), post, 0)
  }

  /** `analyze_content`: the empty-input check, then the retry loop around the request and the parser. */
  method AnalyzeContent(content: string, post: (string, nat) -> ApiOutcome)
    returns (r: AnalysisResult, requests: nat)
    ensures r == Analyze(content, post)
    ensures requests == RequestsSent(content, post)
  {
    if content == "" {
      return Raised(EmptyContent), 0;
    }
    var prompt := Prompt(content);
    var attempt: nat := 0;
    while attempt < MaxRetries
      invariant attempt <= MaxRetries
      invariant AnalyzeFrom(prompt, post, attempt) == Analyze(content, post)
      invariant RequestsFrom(prompt, post, attempt) == RequestsSent(content, post)
      decreases MaxRetries - attempt
    {
      var response := post(prompt, attempt);
      match response
      case Reply(text) =>
        var resultDict := ParseDeepseekResult(text);
        return Fields(resultDict), attempt + 1;
      case Malformed =>
        return Raised(BadResponse), attempt + 1;
      case RequestFailed =>
        attempt := attempt + 1;
    }
    return Fields(map[]), MaxRetries;
  }

  // ---------------------------------------------------------------------
  // Properties.
  // ---------------------------------------------------------------------

  /** Different articles give different prompts: the article text is recoverable from the prompt. */
  lemma PromptInjective(a: string, b: string)
    requires Prompt(a) == Prompt(b)
    ensures a == b
  {
    var n := |PromptHead|;
    assert |a| == |b|;
    assert a == Prompt(a)[n..n + |a|];
    assert b == Prompt(b)[n..n + |b|];
  }

  /** Empty content raises `ValueError` before any request is sent. */
  lemma EmptyContentRaises(content: string, post: (string, nat) -> ApiOutcome)
    ensures Analyze(content, post) == Raised(EmptyContent) <==> content == ""
    ensures content == "" ==> RequestsSent(content, post) == 0
  {
    if content != "" {
      AnalyzeFromNeverEmptyContent(Prompt(content), post, 0);
    }
  }

  lemma {:induction false} AnalyzeFromNeverEmptyContent(prompt: string, post: (string, nat) -> ApiOutcome, i: nat)
    ensures AnalyzeFrom(prompt, post, i) != Raised(EmptyContent)
    decreases MaxRetries - i
  {
    if i < MaxRetries && post(prompt, i).RequestFailed? {
      AnalyzeFromNeverEmptyContent(prompt, post, i + 1);
    }
  }

  /** Every request from attempt `i` on fails with a `RequestException`. */
  predicate AllFailFrom(prompt: string, post: (string, nat) -> ApiOutcome, i: nat) {
    forall j :: i <= j < MaxRetries ==> post(prompt, j).RequestFailed?
  }

  /** The loop entered at `i` gives `{}` exactly when every remaining request fails with a `RequestException`. */
  lemma {:induction false} AnalyzeFromGivesUp(prompt: string, post: (string, nat) -> ApiOutcome, i: nat)
    ensures AnalyzeFrom(prompt, post, i) == Fields(map[]) <==> AllFailFrom(prompt, post, i)
    ensures AnalyzeFrom(prompt, post, i) == Fields(map[]) ==> RequestsFrom(prompt, post, i) == if i < MaxRetries then MaxRetries else i
    decreases MaxRetries - i
  {
    if i < MaxRetries {
      AnalyzeFromGivesUp(prompt, post, i + 1);
      match post(prompt, i)
      case Reply(text) =>
        assert ParseResult(text).Keys == {SubjectKey, SummaryKey};
        assert SubjectKey in ParseResult(text);
      case RequestFailed =>
      case Malformed =>
    }
  }

  /**
   * Otherwise the loop stops at the first answer that is not a `RequestException`: a reply is parsed,
   * anything else is raised; every earlier request failed.
   */
  lemma {:induction false} AnalyzeFromFirstAnswer(prompt: string, post: (string, nat) -> ApiOutcome, i: nat)
    ensures var r := AnalyzeFrom(prompt, post, i);
      var n := RequestsFrom(prompt, post, i);
      !AllFailFrom(prompt, post, i) ==>
        && i < n <= MaxRetries
        && (forall j :: i <= j < n - 1 ==> post(prompt, j).RequestFailed?)
        && !post(prompt, n - 1).RequestFailed?
        && r == Answer(post(prompt, n - 1))
    decreases MaxRetries - i
  {
    if i < MaxRetries {
      AllFailFromUnfold(prompt, post, i);
      if post(prompt, i).RequestFailed? {
        AnalyzeFromFirstAnswer(prompt, post, i + 1);
      }
    }
  }

  /** All requests from `i` fail exactly when request `i` fails and all from `i + 1` do. */
  lemma AllFailFromUnfold(prompt: string, post: (string, nat) -> ApiOutcome, i: nat)
    requires i < MaxRetries
    ensures AllFailFrom(prompt, post, i) <==> post(prompt, i).RequestFailed? && AllFailFrom(prompt, post, i + 1)
  {
  }

  /** `{}` is returned exactly when all three requests fail with a `RequestException`. */
  lemma GivesUpIffAllRequestsFail(content: string, post: (string, nat) -> ApiOutcome)
    requires content != ""
    ensures Analyze(content, post) == Fields(map[])
            <==> forall j :: 0 <= j < MaxRetries ==> post(Prompt(content), j).RequestFailed?
    ensures Analyze(content, post) == Fields(map[]) ==> RequestsSent(content, post) == MaxRetries
  {
    AnalyzeFromGivesUp(Prompt(content), post, 0);
    assert AllFailFrom(Prompt(content), post, 0)
           <==> forall j :: 0 <= j < MaxRetries ==> post(Prompt(content), j).RequestFailed?;
  }

  /** A non-empty result is the parse of the first reply, has exactly the two keys, and ends the retries. */
  lemma AnsweredFromFirstReply(content: string, post: (string, nat) -> ApiOutcome)
    requires content != ""
    ensures var r := Analyze(content, post);
      var n := RequestsSent(content, post);
      r.Fields? && r.fields != map[] ==>
        && 1 <= n <= MaxRetries
        && post(Prompt(content), n - 1).Reply?
        && r.fields == ParseResult(post(Prompt(content), n - 1).text)
        && r.fields.Keys == {SubjectKey, SummaryKey}
        && forall j :: 0 <= j < n - 1 ==> post(Prompt(content), j).RequestFailed?
  {
    AnalyzeFromGivesUp(Prompt(content), post, 0);
    AnalyzeFromFirstAnswer(Prompt(content), post, 0);
    var n := RequestsSent(content, post);
    var o := post(Prompt(content), n - 1);
    if Analyze(content, post).Fields? && Analyze(content, post).fields != map[] {
      assert o.Reply?;
      ParseMatchesReference(o.text);
    }
  }

  /** A returned dictionary is either `{}` or has exactly the keys `subject` and `summary`. */
  lemma ResultShape(content: string, post: (string, nat) -> ApiOutcome)
    ensures var r := Analyze(content, post);
      r.Fields? ==> r.fields == map[] || r.fields.Keys == {SubjectKey, SummaryKey}
  {
    if content != "" {
      AnsweredFromFirstReply(content, post);
    }
  }
}
