/**
 * `parse_deepseek_result`: the labelled-section parser that turns the
 * language model's free-text answer into a `subject` and a `summary`.
 *
 * The text is split into lines; every line is stripped. A line beginning
 * with a recognised label opens that section and sets it to the rest of the
 * line; any other non-blank line is appended, after one space, to the open
 * section; lines before the first label are dropped. Both fields are
 * stripped at the end.
 */
module Parser {
  import opened Wrappers
  import opened Text

  /** The two recognised sections. */
  datatype Label = Subject | Summary

  const SubjectLabel: string := "Chủ đề:"
  const SummaryLabel: string := "Tóm tắt:"
  /** The title label is no longer requested and is not recognised. */
  const TitleLabel: string := "Tiêu đề:"

  const SubjectKey: string := "subject"
  const SummaryKey: string := "summary"

  function LabelText(l: Label): string {
    match l
    case Subject => SubjectLabel
    case Summary => SummaryLabel
  }

  function KeyOf(l: Label): string {
    match l
    case Subject => SubjectKey
    case Summary => SummaryKey
  }

  /** The label a stripped line begins with; the subject label is tried first. */
  function LabelOf(line: string): Option<Label> {
    if StartsWith(line, SubjectLabel) then Some(Subject)
    else if StartsWith(line, SummaryLabel) then Some(Summary)
    else None
  }

  /** The text after the label on a stripped labelled line, stripped. */
  function LabelValue(line: string, l: Label): (v: string)
    requires StartsWith(line, LabelText(l))
    ensures |LabelText(l)| + |v| <= |line|
    ensures v == [] || (!IsSpace(v[0]) && !IsSpace(v[|v| - 1]))
  {
    Strip(line[|LabelText(l)|..])
  }

  /** The `sections` dictionary and `current_section` of the loop. */
  datatype ParseState = ParseState(subject: string, summary: string, current: Option<Label>) {

    function Get(l: Label): string {
      match l
      case Subject => subject
      case Summary => summary
    }

    function Set(l: Label, v: string): ParseState {
      match l
      case Subject => this.(subject := v)
      case Summary => this.(summary := v)
    }
  }

  const Start: ParseState := ParseState("", "", None)

  /** How the loop sees one line once it is stripped: a labelled line and its value, or plain text. */
  datatype LineKind = Labelled(tag: Label, value: string) | Plain(text: string)

  function Classify(raw: string): LineKind {
    var line := Strip(raw);
    match LabelOf(line)
    case Some(l) => Labelled(l, LabelValue(line, l))
    case None => Plain(line)
  }

  /** The effect of one classified line on the sections and the open section. */
  function Apply(st: ParseState, k: LineKind): ParseState {
    match k
    case Labelled(l, v) => st.Set(l, v).(current := Some(l))
    case Plain(line) =>
      if st.current.Some? && line != "" then
        st.Set(st.current.value, st.Get(st.current.value) + " " + line)
      else st
  }

  /** One iteration of the loop, on one line of the answer. */
  function Step(st: ParseState, raw: string): ParseState {
    Apply(st, Classify(raw))
  }

  /** The state after the loop has consumed `lines`, starting from `st`. */
  function RunFrom(st: ParseState, lines: seq<string>): ParseState
    decreases |lines|
  {
    if lines == [] then st
    else Step(RunFrom(st, lines[..|lines| - 1]), lines[|lines| - 1])
  }

  /** The dictionary returned after the loop. */
  function Finish(st: ParseState): (r: map<string, string>)
    ensures r.Keys == {SubjectKey, SummaryKey}
  {
    map[SubjectKey := Strip(st.subject), SummaryKey := Strip(st.summary)]
  }

  function ParseLines(lines: seq<string>): map<string, string> {
    Finish(RunFrom(Start, lines))
  }

  /** What `parse_deepseek_result(result_text)` returns. */
  function ParseResult(resultText: string): map<string, string> {
    ParseLines(SplitLines(resultText))
  }

  /** The loop of `parse_deepseek_result`, updating the sections dictionary in place. */
  method ParseDeepseekResult(resultText: string) returns (result: map<string, string>)
    ensures result == ParseResult(resultText)
    ensures result.Keys == {SubjectKey, SummaryKey}
  {
    var lines := SplitLines(resultText);
    var sections: map<Label, string> := map[Subject := "", Summary := ""];
    var current: Option<Label> := None;
    for i := 0 to |lines|
      invariant Subject in sections && Summary in sections
      invariant ParseState(sections[Subject], sections[Summary], current) == RunFrom(Start, lines[..i])
    {
      assert lines[..i + 1][..i] == lines[..i];
      sections, current := ParseLine(sections, current, lines[i]);
    }
    assert lines[..|lines|] == lines;
    result := map[SubjectKey := Strip(sections[Subject]), SummaryKey := Strip(sections[Summary])];
  }

  /** The body of the loop, for one line. */
  method ParseLine(sections: map<Label, string>, current: Option<Label>, raw: string)
    returns (sections': map<Label, string>, current': Option<Label>)
    requires Subject in sections && Summary in sections
    ensures Subject in sections' && Summary in sections'
    ensures ParseState(sections'[Subject], sections'[Summary], current')
            == Step(ParseState(sections[Subject], sections[Summary], current), raw)
  {
    sections', current' := sections, current;
    var line := Strip(raw);
    if StartsWith(line, SubjectLabel) {
      current' := Some(Subject);
      sections' := sections'[Subject := Strip(line[|SubjectLabel|..])];
    } else if StartsWith(line, SummaryLabel) {
      current' := Some(Summary);
      sections' := sections'[Summary := Strip(line[|SummaryLabel|..])];
    } else if current'.Some? && line != "" {
      assert current'.value.Subject? || current'.value.Summary?;
      sections' := sections'[current'.value := sections'[current'.value] + " " + line];
    }
  }

  // ---------------------------------------------------------------------
  // A reference definition: where each field's final text comes from.
  // ---------------------------------------------------------------------

  /** The classified lines. */
  function Kinds(lines: seq<string>): (ks: seq<LineKind>)
    ensures |ks| == |lines|
    decreases |lines|
  {
    if lines == [] then [] else Kinds(lines[..|lines| - 1]) + [Classify(lines[|lines| - 1])]
  }

  /** The loop over already classified lines. */
  function RunKinds(st: ParseState, ks: seq<LineKind>): ParseState
    decreases |ks|
  {
    if ks == [] then st else Apply(RunKinds(st, ks[..|ks| - 1]), ks[|ks| - 1])
  }

  /** Index of the last line labelled `l`, or -1 when there is none. */
  function LastLabelled(ks: seq<LineKind>, l: Label): (k: int)
    ensures -1 <= k < |ks|
    ensures k >= 0 ==> ks[k].Labelled? && ks[k].tag == l
    decreases |ks|
  {
    if ks == [] then -1
    else if ks[|ks| - 1].Labelled? && ks[|ks| - 1].tag == l then |ks| - 1
    else LastLabelled(ks[..|ks| - 1], l)
  }

  /** The label of the last labelled line, if any. */
  function LastOpened(ks: seq<LineKind>): Option<Label>
    decreases |ks|
  {
    if ks == [] then None
    else if ks[|ks| - 1].Labelled? then Some(ks[|ks| - 1].tag)
    else LastOpened(ks[..|ks| - 1])
  }

  /** Every line from index `i` on is plain. */
  predicate PlainFrom(ks: seq<LineKind>, i: nat) {
    forall j :: i <= j < |ks| ==> ks[j].Plain?
  }

  /** What a plain line contributes to the open section. */
  function Piece(k: LineKind): string {
    if k.Labelled? || k.text == "" then "" else " " + k.text
  }

  /** The text the lines from index `i` contribute until the next labelled line. */
  function Continuation(ks: seq<LineKind>, i: nat): string
    decreases |ks| - i
  {
    if i >= |ks| || ks[i].Labelled? then ""
    else Piece(ks[i]) + Continuation(ks, i + 1)
  }

  /** The value on the last line labelled `l`, followed by the lines continuing it. */
  function Accumulated(ks: seq<LineKind>, l: Label): string {
    var k := LastLabelled(ks, l);
    if k < 0 then "" else ks[k].value + Continuation(ks, k + 1)
  }

  function ReferenceField(lines: seq<string>, l: Label): string {
    Strip(Accumulated(Kinds(lines), l))
  }

  lemma {:induction false} RunFromKinds(st: ParseState, lines: seq<string>)
    ensures RunFrom(st, lines) == RunKinds(st, Kinds(lines))
    decreases |lines|
  {
    if lines != [] {
      var n := |lines|;
      var ks := Kinds(lines);
      assert ks[..n - 1] == Kinds(lines[..n - 1]);
      RunFromKinds(st, lines[..n - 1]);
    }
  }

  lemma ConcatAssoc(a: string, b: string, c: string)
    ensures a + b + c == a + (b + c)
  {
  }

  /** One more line extends a continuation only if no label stands in between. */
  lemma {:induction false} ContinuationSnoc(p: seq<LineKind>, x: LineKind, i: nat)
    requires i <= |p|
    ensures Continuation(p + [x], i)
            == if PlainFrom(p, i) && Piece(x) != "" then Continuation(p, i) + Piece(x) else Continuation(p, i)
    decreases |p| - i
  {
    var ks := p + [x];
    if i == |p| {
      assert ks[i] == x;
      assert Piece(x) + "" == Piece(x) == "" + Piece(x);
      assert Continuation(p, i) + "" == Continuation(p, i);
    } else {
      assert ks[i] == p[i];
      ContinuationSnoc(p, x, i + 1);
      assert PlainFrom(p, i) <==> p[i].Plain? && PlainFrom(p, i + 1);
      if p[i].Plain? {
        ConcatAssoc(Piece(p[i]), Continuation(p, i + 1), Piece(x));
      }
    }
  }

  lemma LastLabelledSnoc(p: seq<LineKind>, x: LineKind, l: Label)
    ensures LastLabelled(p + [x], l) == if x.Labelled? && x.tag == l then |p| else LastLabelled(p, l)
    ensures LastOpened(p + [x]) == if x.Labelled? then Some(x.tag) else LastOpened(p)
  {
    assert (p + [x])[..|p|] == p;
  }

  lemma PlainFromSnoc(p: seq<LineKind>, x: LineKind, i: nat)
    requires i <= |p|
    ensures PlainFrom(p + [x], i) <==> PlainFrom(p, i) && x.Plain?
  {
    var q := p + [x];
    assert q[|p|] == x;
    assert forall j :: 0 <= j < |p| ==> q[j] == p[j];
  }

  /** The open section is `l` exactly when `l`'s last label is followed by no other label. */
  lemma {:induction false} LastOpenedSpec(ks: seq<LineKind>, l: Label)
    ensures LastOpened(ks) == Some(l) <==> LastLabelled(ks, l) >= 0 && PlainFrom(ks, LastLabelled(ks, l) + 1)
    decreases |ks|
  {
    if ks != [] {
      var p := ks[..|ks| - 1];
      var x := ks[|ks| - 1];
      assert ks == p + [x];
      LastLabelledSnoc(p, x, l);
      LastOpenedSpec(p, l);
      var k := LastLabelled(p, l);
      PlainFromSnoc(p, x, k + 1);
    }
  }

  /** What one classified line does to section `l`. */
  lemma ApplyGet(st: ParseState, x: LineKind, l: Label)
    ensures Apply(st, x).Get(l)
            == if x.Labelled? && x.tag == l then x.value
               else if x.Plain? && st.current == Some(l) && Piece(x) != "" then st.Get(l) + Piece(x)
               else st.Get(l)
  {
  }

  /** A line that does not carry label `l` extends the continuation of `l`'s last label. */
  lemma AccumulatedSnocOther(p: seq<LineKind>, x: LineKind, l: Label)
    requires !(x.Labelled? && x.tag == l)
    ensures var k := LastLabelled(p, l);
      Accumulated(p + [x], l) == if k < 0 then "" else p[k].value + Continuation(p + [x], k + 1)
  {
    LastLabelledSnoc(p, x, l);
    var k := LastLabelled(p, l);
    if k >= 0 {
      assert (p + [x])[k] == p[k];
    }
  }

  /** A continuing or foreign line after `l`'s last label. */
  lemma {:induction false} ContinuedSnoc(st: ParseState, p: seq<LineKind>, x: LineKind, l: Label, k: nat)
    requires !(x.Labelled? && x.tag == l) && k == LastLabelled(p, l)
    requires st.Get(l) == p[k].value + Continuation(p, k + 1)
    requires st.current == Some(l) <==> PlainFrom(p, k + 1)
    ensures Apply(st, x).Get(l) == p[k].value + Continuation(p + [x], k + 1)
  {
    ApplyGet(st, x, l);
    ContinuationSnoc(p, x, k + 1);
    var a := p[k].value;
    var c := Continuation(p, k + 1);
    ConcatAssoc(a, c, Piece(x));
  }

  /** A line carrying label `l` makes its value the whole of `l`'s reference text. */
  lemma AccumulatedSnocOwn(p: seq<LineKind>, x: LineKind, l: Label)
    requires x.Labelled? && x.tag == l
    ensures Accumulated(p + [x], l) == x.value
  {
    LastLabelledSnoc(p, x, l);
    var ks := p + [x];
    assert ks[|p|] == x;
    assert Continuation(ks, |p| + 1) == "";
    assert x.value + "" == x.value;
  }

  /** One more line keeps a section equal to its reference text. */
  lemma {:induction false} AccumulatedSnoc(st: ParseState, p: seq<LineKind>, x: LineKind, l: Label)
    requires st.Get(l) == Accumulated(p, l) && st.current == LastOpened(p)
    ensures Apply(st, x).Get(l) == Accumulated(p + [x], l)
  {
    if x.Labelled? && x.tag == l {
      AccumulatedSnocOwn(p, x, l);
    } else if LastLabelled(p, l) >= 0 {
      AccumulatedSnocLabelled(st, p, x, l);
    } else {
      AccumulatedSnocUnlabelled(st, p, x, l);
    }
  }

  /** `AccumulatedSnoc` when `l` has a last label that `x` does not replace. */
  lemma AccumulatedSnocLabelled(st: ParseState, p: seq<LineKind>, x: LineKind, l: Label)
    requires !(x.Labelled? && x.tag == l) && LastLabelled(p, l) >= 0
    requires st.Get(l) == Accumulated(p, l) && st.current == LastOpened(p)
    ensures Apply(st, x).Get(l) == Accumulated(p + [x], l)
  {
    var k := LastLabelled(p, l);
    assert st.Get(l) == p[k].value + Continuation(p, k + 1);
    assert st.current == Some(l) <==> PlainFrom(p, k + 1) by {
      LastOpenedSpec(p, l);
    }
    ContinuedSnoc(st, p, x, l, k);
    AccumulatedSnocOther(p, x, l);
  }

  /** `AccumulatedSnoc` when neither `p` nor `x` carries label `l`. */
  lemma AccumulatedSnocUnlabelled(st: ParseState, p: seq<LineKind>, x: LineKind, l: Label)
    requires !(x.Labelled? && x.tag == l) && LastLabelled(p, l) < 0
    requires st.Get(l) == Accumulated(p, l) && st.current == LastOpened(p)
    ensures Apply(st, x).Get(l) == Accumulated(p + [x], l)
  {
    assert st.current != Some(l) by {
      LastOpenedSpec(p, l);
    }
    ApplyGet(st, x, l);
    AccumulatedSnocOther(p, x, l);
  }

  /** The loop computes each section's reference text; the open section is the last label seen. */
  lemma {:induction false} RunMatchesReference(ks: seq<LineKind>)
    ensures var st := RunKinds(Start, ks);
      && st.subject == Accumulated(ks, Subject)
      && st.summary == Accumulated(ks, Summary)
      && st.current == LastOpened(ks)
    decreases |ks|
  {
    if ks != [] {
      var n := |ks|;
      var p := ks[..n - 1];
      var x := ks[n - 1];
      assert p + [x] == ks;
      RunMatchesReference(p);
      var st := RunKinds(Start, p);
      AccumulatedSnoc(st, p, x, Subject);
      AccumulatedSnoc(st, p, x, Summary);
      LastLabelledSnoc(p, x, Subject);
    }
  }

  /** Each returned field is the reference text of its section, stripped. */
  lemma ParseMatchesReference(resultText: string)
    ensures var r := ParseResult(resultText);
      var lines := SplitLines(resultText);
      && r.Keys == {SubjectKey, SummaryKey}
      && r[SubjectKey] == ReferenceField(lines, Subject)
      && r[SummaryKey] == ReferenceField(lines, Summary)
  {
    RunFromKinds(Start, SplitLines(resultText));
    RunMatchesReference(Kinds(SplitLines(resultText)));
  }

  predicate IsLabelLine(raw: string) {
    Classify(raw).Labelled?
  }

  predicate NoLabelLine(lines: seq<string>) {
    forall j :: 0 <= j < |lines| ==> !IsLabelLine(lines[j])
  }

  /** Without a labelled line no label has a last occurrence. */
  lemma {:induction false} NoLastLabelled(lines: seq<string>, l: Label)
    requires NoLabelLine(lines)
    ensures LastLabelled(Kinds(lines), l) == -1
    decreases |lines|
  {
    if lines != [] {
      var n := |lines|;
      var ks := Kinds(lines);
      assert !IsLabelLine(lines[n - 1]);
      assert ks[..n - 1] == Kinds(lines[..n - 1]);
      NoLastLabelled(lines[..n - 1], l);
    }
  }

  /** Without any labelled line both fields are empty strings, not missing. */
  lemma NoLabelsGivesEmptyFields(lines: seq<string>)
    requires NoLabelLine(lines)
    ensures ParseLines(lines) == map[SubjectKey := "", SummaryKey := ""]
  {
    RunFromKinds(Start, lines);
    RunMatchesReference(Kinds(lines));
    NoLastLabelled(lines, Subject);
    NoLastLabelled(lines, Summary);
  }

  // ---------------------------------------------------------------------
  // Properties stated on the loop itself.
  // ---------------------------------------------------------------------

  lemma {:induction false} RunFromAppend(st: ParseState, a: seq<string>, b: seq<string>)
    ensures RunFrom(st, a + b) == RunFrom(RunFrom(st, a), b)
    decreases |b|
  {
    if b == [] {
      assert a + b == a;
    } else {
      var n := |b|;
      assert (a + b)[..|a + b| - 1] == a + b[..n - 1];
      assert (a + b)[|a + b| - 1] == b[n - 1];
      RunFromAppend(st, a, b[..n - 1]);
    }
  }

  /** Two states that agree on section `l` and on the open section keep agreeing on them. */
  lemma {:induction false} AgreeOnSection(s1: ParseState, s2: ParseState, lines: seq<string>, l: Label)
    requires s1.Get(l) == s2.Get(l) && s1.current == s2.current
    ensures RunFrom(s1, lines).Get(l) == RunFrom(s2, lines).Get(l)
    ensures RunFrom(s1, lines).current == RunFrom(s2, lines).current
    decreases |lines|
  {
    if lines != [] {
      AgreeOnSection(s1, s2, lines[..|lines| - 1], l);
    }
  }

  /** A later line with the same label overwrites the section: nothing before it matters. */
  lemma LaterLabelOverwrites(before: seq<string>, x: string, after: seq<string>, l: Label)
    requires Classify(x).Labelled? && Classify(x).tag == l
    ensures ParseLines(before + [x] + after)[KeyOf(l)] == ParseLines([x] + after)[KeyOf(l)]
  {
    RunFromAppend(Start, before + [x], after);
    RunFromAppend(Start, before, [x]);
    RunFromAppend(Start, [x], after);
    assert RunFrom(Start, [x]) == Step(Start, x);
    AgreeOnSection(Step(RunFrom(Start, before), x), Step(Start, x), after, l);
  }

  /** A blank (or whitespace-only) line changes nothing, wherever it stands. */
  lemma BlankLineIgnored(before: seq<string>, blank: string, after: seq<string>)
    requires Strip(blank) == ""
    ensures ParseLines(before + [blank] + after) == ParseLines(before + after)
  {
    RunFromAppend(Start, before + [blank], after);
    RunFromAppend(Start, before, [blank]);
    RunFromAppend(Start, before, after);
  }

  lemma {:induction false} JunkKeepsStart(junk: seq<string>)
    requires NoLabelLine(junk)
    ensures RunFrom(Start, junk) == Start
    decreases |junk|
  {
    if junk != [] {
      var n := |junk|;
      assert !IsLabelLine(junk[n - 1]);
      JunkKeepsStart(junk[..n - 1]);
    }
  }

  /** Lines before the first label are discarded. */
  lemma LeadingJunkDiscarded(junk: seq<string>, lines: seq<string>)
    requires NoLabelLine(junk)
    ensures ParseLines(junk + lines) == ParseLines(lines)
  {
    RunFromAppend(Start, junk, lines);
    JunkKeepsStart(junk);
  }

  /**
   * During a parse, a non-blank line without a label is appended, after one
   * space, to the section the last label line opened. Every other section,
   * and every section when no label has been seen yet or the line is blank,
   * stays as it was, and so does the open section.
   */
  lemma ContinuationAppends(lines: seq<string>, raw: string, l: Label)
    requires !IsLabelLine(raw)
    ensures var before := RunFrom(Start, lines);
      var after := RunFrom(Start, lines + [raw]);
      && after.current == before.current
      && (LastOpened(Kinds(lines)) == Some(l) && Strip(raw) != "" ==>
            after.Get(l) == before.Get(l) + " " + Strip(raw))
      && (LastOpened(Kinds(lines)) != Some(l) || Strip(raw) == "" ==> after.Get(l) == before.Get(l))
  {
    var before := RunFrom(Start, lines);
    assert RunFrom(Start, lines + [raw]) == Step(before, raw) by {
      assert (lines + [raw])[..|lines|] == lines;
    }
    assert before.current == LastOpened(Kinds(lines)) by {
      RunFromKinds(Start, lines);
      RunMatchesReference(Kinds(lines));
    }
    assert Classify(raw) == Plain(Strip(raw));
    PlainApplyGet(before, Strip(raw), l);
  }

  /** What a plain line does to section `l`, and that it leaves the open section alone. */
  lemma PlainApplyGet(st: ParseState, t: string, l: Label)
    ensures Apply(st, Plain(t)).current == st.current
    ensures Apply(st, Plain(t)).Get(l)
            == if st.current == Some(l) && t != "" then st.Get(l) + " " + t else st.Get(l)
  {
  }

  /** The labels begin and end with a non-space character and hold no line boundary. */
  lemma LabelsClean(l: Label)
    ensures var t := LabelText(l);
      t != [] && !IsSpace(t[0]) && !IsSpace(t[|t| - 1]) && NoLineBreak(t)
  {
  }

  /** A `Tiêu đề:` line is not a label: it continues whichever section is open. */
  lemma TitleLineIsContinuation(st: ParseState, t: string)
    ensures !IsLabelLine(TitleLabel + t)
    ensures st.current.Some? ==>
      Step(st, TitleLabel + t)
      == st.Set(st.current.value, st.Get(st.current.value) + " " + Strip(TitleLabel + t))
  {
    var line := Strip(TitleLabel + t);
    assert LabelOf(line) == None && line != "" by {
      StripKeepsPrefix(TitleLabel, t);
      assert line[0] == 'T' && line[1] == 'i';
    }
    assert Classify(TitleLabel + t) == Plain(line);
  }

  /** One rendered `Label: value` line parses back to its label and value. */
  lemma {:induction false} RenderedLine(l: Label, v: string)
    requires Strip(v) == v
    ensures Classify(LabelText(l) + " " + v) == Labelled(l, v)
  {
    var t := LabelText(l);
    var raw := t + " " + v;
    LabelsClean(l);
    if v == [] {
      assert TrimStart(raw) == raw;
      assert raw[..|raw| - 1] == t;
      assert TrimEnd(raw) == TrimEnd(t) == t;
      assert Strip(raw) == t;
      assert t[|t|..] == [];
    } else {
      assert raw[0] == t[0];
      assert raw[|raw| - 1] == v[|v| - 1];
      StripClean(raw);
      ConcatAssoc(t, " ", v);
      assert raw[|t|..] == [' '] + v;
      StripLeadingSpace(' ', v);
    }
    assert StartsWith(Strip(raw), t);
    assert l == Summary ==> !StartsWith(Strip(raw), SubjectLabel) by {
      assert SummaryLabel[0] != SubjectLabel[0];
    }
  }

  /** The `Label: value` text a reader would reconstruct from a parse result. */
  function Render(subject: string, summary: string): string {
    JoinLines([SubjectLabel + " " + subject, SummaryLabel + " " + summary])
  }

  /** The same two sections in the opposite order. */
  function RenderReversed(subject: string, summary: string): string {
    JoinLines([SummaryLabel + " " + summary, SubjectLabel + " " + subject])
  }

  lemma {:induction false} RenderedLineNoBreak(l: Label, v: string)
    requires NoLineBreak(v)
    ensures NoLineBreak(LabelText(l) + " " + v)
  {
    LabelsClean(l);
    var t := LabelText(l);
    var s := t + " " + v;
    forall k | 0 <= k < |s| ensures !IsLineBreak(s[k]) {
      if k < |t| { assert s[k] == t[k]; }
      else if k > |t| { assert s[k] == v[k - |t| - 1]; }
    }
  }

  /** The loop over two lines is two steps. */
  lemma RunTwo(st: ParseState, x: string, y: string)
    ensures RunFrom(st, [x, y]) == Step(Step(st, x), y)
  {
    assert RunFrom(st, [x]) == Step(st, x) by {
      assert [x][..0] == [];
    }
    assert [x, y][..1] == [x];
  }

  /** Rendering stripped one-line values and parsing them back gives the values. */
  lemma RenderRoundTrip(subject: string, summary: string)
    requires Strip(subject) == subject && NoLineBreak(subject)
    requires Strip(summary) == summary && NoLineBreak(summary)
    ensures ParseResult(Render(subject, summary)) == map[SubjectKey := subject, SummaryKey := summary]
  {
    var a := SubjectLabel + " " + subject;
    var b := SummaryLabel + " " + summary;
    assert SplitLines(JoinLines([a, b])) == [a, b] by {
      RenderedLineNoBreak(Subject, subject);
      RenderedLineNoBreak(Summary, summary);
      SplitJoin([a, b]);
    }
    assert RunFrom(Start, [a, b]) == ParseState(subject, summary, Some(Summary)) by {
      RenderedLine(Subject, subject);
      RenderedLine(Summary, summary);
      RunTwo(Start, a, b);
    }
  }

  /** The order of the two sections does not matter. */
  lemma RenderReversedRoundTrip(subject: string, summary: string)
    requires Strip(subject) == subject && NoLineBreak(subject)
    requires Strip(summary) == summary && NoLineBreak(summary)
    ensures ParseResult(RenderReversed(subject, summary)) == map[SubjectKey := subject, SummaryKey := summary]
  {
    var a := SubjectLabel + " " + subject;
    var b := SummaryLabel + " " + summary;
    assert SplitLines(JoinLines([b, a])) == [b, a] by {
      RenderedLineNoBreak(Subject, subject);
      RenderedLineNoBreak(Summary, summary);
      SplitJoin([b, a]);
    }
    assert RunFrom(Start, [b, a]) == ParseState(subject, summary, Some(Subject)) by {
      RenderedLine(Subject, subject);
      RenderedLine(Summary, summary);
      RunTwo(Start, b, a);
    }
  }

  lemma {:induction false} RunNoLineBreak(lines: seq<string>)
    requires forall i :: 0 <= i < |lines| ==> NoLineBreak(lines[i])
    ensures NoLineBreak(RunFrom(Start, lines).subject) && NoLineBreak(RunFrom(Start, lines).summary)
    decreases |lines|
  {
    if lines != [] {
      var n := |lines|;
      var p := lines[..n - 1];
      RunNoLineBreak(p);
      StepNoLineBreak(RunFrom(Start, p), lines[n - 1]);
    }
  }

  /** One step keeps both sections free of line boundaries. */
  lemma StepNoLineBreak(st: ParseState, raw: string)
    requires NoLineBreak(st.subject) && NoLineBreak(st.summary) && NoLineBreak(raw)
    ensures NoLineBreak(Step(st, raw).subject) && NoLineBreak(Step(st, raw).summary)
  {
    var line := Strip(raw);
    StripNoLineBreak(raw);
    match LabelOf(line)
    case Some(l) =>
      StripNoLineBreak(line[|LabelText(l)|..]);
    case None =>
      assert Classify(raw) == Plain(line);
      if st.current.Some? && line != "" {
        JoinNoLineBreak(st.Get(st.current.value), line);
      }
  }

  /** Parsing is idempotent under rendering its own result as `Label: value` lines. */
  lemma ParseRenderIdempotent(resultText: string)
    ensures var r := ParseResult(resultText);
      ParseResult(Render(r[SubjectKey], r[SummaryKey])) == r
  {
    var st := RunFrom(Start, SplitLines(resultText));
    RunNoLineBreak(SplitLines(resultText));
    StripNoLineBreak(st.subject);
    StripNoLineBreak(st.summary);
    StripIdempotent(st.subject);
    StripIdempotent(st.summary);
    RenderRoundTrip(Strip(st.subject), Strip(st.summary));
  }
}
