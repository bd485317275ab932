/**
 * `fetch_webpage_content`: download and parse an article with newspaper3k,
 * up to three times, and return its stripped text (cut to the maximum
 * length) together with its title.
 *
 * The download-and-parse step is an oracle `download(url, attempt)` that
 * says what newspaper3k produced on the given attempt: the article's text
 * and title, or a failure (an exception from `download()` or `parse()`).
 * A missing title (`None`) and an empty one are both the empty string here,
 * as Python treats them alike.
 */
module Extract {
  import opened Wrappers
  import opened Text
  import opened Config

  const Ellipsis: string := "..."
  /** The title used when the article has none. */
  const NoTitle: string := "Không có tiêu đề"

  /** What one `Article(url).download(); .parse()` attempt produced. */
  datatype PageOutcome = Parsed(text: string, title: string) | Failed

  /** The `(content, real_title)` pair of a successful fetch. */
  datatype Extracted = Extracted(content: string, title: string)

  /** The length limit: longer content keeps its first `MaxContentLength` characters and gains "...". */
  function Truncate(content: string): string {
    if |content| > MaxContentLength then content[..MaxContentLength] + Ellipsis else content
  }

  /** `article.title.strip() if article.title else NoTitle` */
  function ResolveTitle(title: string): string {
    if title != "" then Strip(title) else NoTitle
  }

  /** The result of one attempt: `None` stands for the exception that sends the loop round again. */
  function Attempt(page: PageOutcome): Option<Extracted> {
    match page
    case Failed => None
    case Parsed(text, title) =>
      var content := Strip(text);
      if content == "" then None
      else Some(Extracted(Truncate(content), ResolveTitle(title)))
  }

  /** What each attempt of `fetch_webpage_content(url)` gives, by attempt number. */
  function Tries(url: string, download: (string, nat) -> PageOutcome): nat -> Option<Extracted> {
    (j: nat) => Attempt(download(url, j))
  }

  /** The result of the retry loop entered at attempt `i`, given what each attempt gives. */
  function FetchFrom(tries: nat -> Option<Extracted>, i: nat): Option<Extracted>
    decreases MaxRetries - i
  {
    if i >= MaxRetries then None
    else if tries(i).Some? then tries(i)
    else FetchFrom(tries, i + 1)
  }

  /** The number of download attempts the loop entered at attempt `i` makes. */
  function AttemptsFrom(tries: nat -> Option<Extracted>, i: nat): nat
    decreases MaxRetries - i
  {
    if i >= MaxRetries then i
    else if tries(i).Some? then i + 1
    else AttemptsFrom(tries, i + 1)
  }

  /** What `fetch_webpage_content(url)` returns; `None` is the `(None, None)` pair. */
  function Fetch(url: string, download: (string, nat) -> PageOutcome): Option<Extracted> {
    FetchFrom(Tries(url, download), 0)
  }

  function AttemptsMade(url: string, download: (string, nat) -> PageOutcome): nat {
    AttemptsFrom(Tries(url, download), 0)
  }

  /** The retry loop of `fetch_webpage_content`, returning early on the first usable article. */
  method FetchWebpageContent(url: string, download: (string, nat) -> PageOutcome)
    returns (r: Option<Extracted>, attempts: nat)
    ensures r == Fetch(url, download)
    ensures attempts == AttemptsMade(url, download)
  {
    var attempt: nat := 0;
    while attempt < MaxRetries
      invariant attempt <= MaxRetries
      invariant FetchFrom(Tries(url, download), attempt) == Fetch(url, download)
      invariant AttemptsFrom(Tries(url, download), attempt) == AttemptsMade(url, download)
      decreases MaxRetries - attempt
    {
      var page := download(url, attempt);
      if page.Parsed? {
        var content := Strip(page.text);
        var realTitle := if page.title != "" then Strip(page.title) else NoTitle;
        if content != "" {
          if |content| > MaxContentLength {
            content := content[..MaxContentLength] + Ellipsis;
          }
          return Some(Extracted(content, realTitle)), attempt + 1;
        }
      }
      attempt := attempt + 1;
    }
    return None, MaxRetries;
  }

  // ---------------------------------------------------------------------
  // Properties.
  // ---------------------------------------------------------------------

  /** Content within the limit is kept; longer content keeps its first 50000 characters followed by "...". */
  lemma TruncateSpec(content: string)
    ensures var r := Truncate(content);
      && |r| <= MaxContentLength + |Ellipsis|
      && (|content| <= MaxContentLength ==> r == content)
      && (|content| > MaxContentLength ==>
            |r| == MaxContentLength + 3 && r[..MaxContentLength] == content[..MaxContentLength]
            && r[MaxContentLength..] == Ellipsis)
  {
  }

  /** Stripped non-empty content stays non-empty and keeps its first character. */
  lemma TruncateKeepsStart(content: string)
    requires content != []
    ensures var r := Truncate(content); r != [] && r[0] == content[0]
  {
  }

  /** A present title is stripped; an absent or empty one becomes the sentinel. */
  lemma ResolveTitleSpec(title: string)
    ensures title == "" ==> ResolveTitle(title) == NoTitle
    ensures title != "" ==> ResolveTitle(title) == Strip(title)
    ensures ResolveTitle(title) == "" <==> title != "" && AllSpace(title)
  {
    StripEmpty(title);
  }

  /** An attempt succeeds exactly when newspaper3k parsed the page and its text is not blank. */
  lemma AttemptSpec(page: PageOutcome)
    ensures Attempt(page).Some? <==> page.Parsed? && !AllSpace(page.text)
    ensures Attempt(page).Some? ==>
      var e := Attempt(page).value;
      && e.content == Truncate(Strip(page.text))
      && e.title == ResolveTitle(page.title)
      && e.content != []
      && !IsSpace(e.content[0])
      && |e.content| <= MaxContentLength + 3
  {
    if page.Parsed? {
      StripEmpty(page.text);
      var c := Strip(page.text);
      if c != [] {
        TruncateKeepsStart(c);
      }
    }
  }

  /** The loop entered at attempt `i` gives up exactly when every remaining attempt fails. */
  lemma {:induction false} FetchFromNone(tries: nat -> Option<Extracted>, i: nat)
    ensures FetchFrom(tries, i).None? <==> forall j :: i <= j < MaxRetries ==> tries(j).None?
    ensures FetchFrom(tries, i).None? ==> AttemptsFrom(tries, i) == if i < MaxRetries then MaxRetries else i
    decreases MaxRetries - i
  {
    if i < MaxRetries {
      FetchFromNone(tries, i + 1);
    }
  }

  /** A success is the first successful attempt's result, after as many attempts as it took. */
  lemma {:induction false} FetchFromFirstSuccess(tries: nat -> Option<Extracted>, i: nat)
    ensures var r := FetchFrom(tries, i);
      var n := AttemptsFrom(tries, i);
      r.Some? ==>
        && i < n <= MaxRetries
        && r == tries(n - 1)
        && forall j :: i <= j < n - 1 ==> tries(j).None?
    decreases MaxRetries - i
  {
    if i < MaxRetries && tries(i).None? {
      FetchFromFirstSuccess(tries, i + 1);
    }
  }

  /** `fetch_webpage_content` returns `(None, None)` exactly when all three attempts fail, after three attempts. */
  lemma FetchNoneIffAllAttemptsFail(url: string, download: (string, nat) -> PageOutcome)
    ensures Fetch(url, download).None?
            <==> forall j :: 0 <= j < MaxRetries ==> Attempt(download(url, j)).None?
    ensures Fetch(url, download).None? ==> AttemptsMade(url, download) == MaxRetries
  {
    var tries := Tries(url, download);
    FetchFromNone(tries, 0);
    assert (forall j :: 0 <= j < MaxRetries ==> tries(j).None?)
           <==> forall j :: 0 <= j < MaxRetries ==> Attempt(download(url, j)).None?;
  }

  /** On success the pair comes from the first attempt that succeeded, and no later attempt is made. */
  lemma FetchFirstSuccess(url: string, download: (string, nat) -> PageOutcome)
    ensures var r := Fetch(url, download);
      var n := AttemptsMade(url, download);
      r.Some? ==>
        && 1 <= n <= MaxRetries
        && r == Attempt(download(url, n - 1))
        && forall j :: 0 <= j < n - 1 ==> Attempt(download(url, j)).None?
  {
    var tries := Tries(url, download);
    FetchFromFirstSuccess(tries, 0);
    if Fetch(url, download).Some? {
      var n := AttemptsMade(url, download);
      assert Fetch(url, download) == tries(n - 1);
      forall j | 0 <= j < n - 1
        ensures Attempt(download(url, j)).None?
      {
        assert tries(j).None?;
      }
    }
  }

  /** Returned content is never empty, starts with a non-space character and is at most 50003 characters long. */
  lemma FetchedContentBounds(url: string, download: (string, nat) -> PageOutcome)
    ensures var r := Fetch(url, download);
      r.Some? ==>
        && r.value.content != []
        && !IsSpace(r.value.content[0])
        && |r.value.content| <= MaxContentLength + 3
  {
    FetchFirstSuccess(url, download);
    var r := Fetch(url, download);
    if r.Some? {
      AttemptSpec(download(url, AttemptsMade(url, download) - 1));
    }
  }
}
