/** Fixture extraction from a problem description (`fetchTestCases` in
    src/fetchTestCases.ts), with the page replaced by plain inputs: the text
    of every `<pre>` block, and for every example block its `example-io`
    spans, each with the text of its enclosing paragraph when it has one.
    `<pre>` blocks are read line by line by a small state machine; example
    blocks are read span by span. */
module Extraction {
  import opened Wrappers
  import opened Strings
  import opened Splitter

  /** One fixture, the `TestCase` record: input values, expected output
      values, and the input types, left empty during extraction. */
  datatype TestCase = TestCase(inputs: seq<String>, outputs: seq<String>, inputTypes: seq<String>)

  /** The section a `<pre>` scan is in. The source keeps three flags,
      `isProcessingInput`, `isProcessingOutput` and
      `isProcessingExplanation`, of which at most one is ever set. */
  datatype Section = Idle | InInput | InOutput | InExplanation

  datatype PreState = PreState(inputs: seq<String>, outputs: seq<String>, section: Section)

  const PreStart := PreState([], [], Idle)

  /** The trimmed text after the first case-insensitive occurrence of
      `marker` in `line`. */
  function AfterMarker(line: String, marker: String): String
    requires Contains(ToLower(line), marker)
  {
    var i := IndexOf(ToLower(line), marker).value;
    Trim(line[i + |marker|..])
  }

  /** One line of a `<pre>` block. A blank line changes nothing. A line
      holding `explanation:` ends the useful part of the block; after it every
      line is ignored. Otherwise `input:` is checked before `output:`: a
      marker line switches the section and, when something follows the
      marker, replaces that section's values. Any other line adds its values
      to the current section. */
  function PreStep(st: PreState, raw: String): PreState {
    var line := Trim(raw);
    var lower := ToLower(line);
    if line == "" then st
    else if Contains(lower, "explanation:") then PreState(st.inputs, st.outputs, InExplanation)
    else if st.section == InExplanation then st
    else if Contains(lower, "input:") then
      var part := AfterMarker(line, "input:");
      PreState(if part != "" then SplitValues(part) else st.inputs, st.outputs, InInput)
    else if Contains(lower, "output:") then
      var part := AfterMarker(line, "output:");
      PreState(st.inputs, if part != "" then SplitValues(part) else st.outputs, InOutput)
    else if st.section == InInput then st.(inputs := st.inputs + SplitValues(line))
    else if st.section == InOutput then st.(outputs := st.outputs + SplitValues(line))
    else st
  }

  /** The state after reading `lines` from `st`, in order. */
  function PreRun(st: PreState, lines: seq<String>): PreState {
    if lines == [] then st else PreStep(PreRun(st, lines[..|lines| - 1]), lines[|lines| - 1])
  }

  lemma PreRunSnoc(st: PreState, lines: seq<String>, line: String)
    ensures PreRun(st, lines + [line]) == PreStep(PreRun(st, lines), line)
  {
    assert (lines + [line])[..|lines|] == lines;
  }

  /** The section encoded by the source's three flags. */
  function SectionOf(isInput: bool, isOutput: bool, isExplanation: bool): Section {
    if isExplanation then InExplanation
    else if isInput then InInput
    else if isOutput then InOutput
    else Idle
  }

  /** The scan of one `<pre>` block: split its text into lines and run the
      flag-driven state machine over them. */
  method ScanPreBlock(fullText: String) returns (currentInputs: seq<String>, currentOutputs: seq<String>)
    ensures var st := PreRun(PreStart, Split(fullText, '\n'));
      currentInputs == st.inputs && currentOutputs == st.outputs
  {
    var lines := Split(fullText, '\n');
    currentInputs, currentOutputs := [], [];
    var isProcessingInput, isProcessingOutput, isProcessingExplanation := false, false, false;
    var k := 0;
    while k < |lines|
      invariant 0 <= k <= |lines|
      invariant !(isProcessingInput && isProcessingOutput)
      invariant isProcessingExplanation ==> !isProcessingInput && !isProcessingOutput
      invariant PreRun(PreStart, lines[..k]) ==
        PreState(currentInputs, currentOutputs,
                 SectionOf(isProcessingInput, isProcessingOutput, isProcessingExplanation))
    {
      PreRunSnoc(PreStart, lines[..k], lines[k]);
      assert lines[..k + 1] == lines[..k] + [lines[k]];
      var line := Trim(lines[k]);
      if line != "" {
        var lower := ToLower(line);
        if Contains(lower, "explanation:") {
          isProcessingExplanation := true;
          isProcessingInput := false;
          isProcessingOutput := false;
        } else if !isProcessingExplanation {
          if Contains(lower, "input:") {
            isProcessingInput := true;
            isProcessingOutput := false;
            var inputPart := AfterMarker(line, "input:");
            if inputPart != "" {
              currentInputs := ProcessInput(inputPart);
            }
          } else if Contains(lower, "output:") {
            isProcessingInput := false;
            isProcessingOutput := true;
            var outputPart := AfterMarker(line, "output:");
            if outputPart != "" {
              currentOutputs := ProcessInput(outputPart);
            }
          } else if isProcessingInput {
            var values := ProcessInput(line);
            currentInputs := currentInputs + values;
          } else if isProcessingOutput {
            var values := ProcessInput(line);
            currentOutputs := currentOutputs + values;
          }
        }
      }
      k := k + 1;
    }
    assert lines[..k] == lines;
  }

  /** Whether `raw`, trimmed and lower-cased, holds `marker`. */
  predicate Holds(raw: String, marker: String) {
    Contains(ToLower(Trim(raw)), marker)
  }

  predicate IsBlank(raw: String) {
    Trim(raw) == []
  }

  /** A line that is neither blank nor holds any of the three markers. */
  predicate IsContinuation(raw: String) {
    !IsBlank(raw) && !Holds(raw, "explanation:") && !Holds(raw, "input:") && !Holds(raw, "output:")
  }

  /** Reading `a` and then `b` is reading `a + b`. */
  lemma {:induction false} PreRunConcat(st: PreState, a: seq<String>, b: seq<String>)
    ensures PreRun(st, a + b) == PreRun(PreRun(st, a), b)
    decreases |b|
  {
    if b == [] {
      assert a + b == a;
    } else {
      var init := b[..|b| - 1];
      var last := b[|b| - 1];
      PreRunConcat(st, a, init);
      assert b == init + [last];
      assert a + b == (a + init) + [last];
      PreRunSnoc(st, a + init, last);
      PreRunSnoc(PreRun(st, a), init, last);
    }
  }

  /** A step ends in the explanation exactly when it starts there or reads
      an `explanation:` line. */
  lemma StepSection(st: PreState, raw: String)
    ensures PreStep(st, raw).section == InExplanation <==>
      st.section == InExplanation || Holds(raw, "explanation:")
  {
    if Trim(raw) == [] {
      assert ToLower(Trim(raw)) == [];
    }
  }

  /** Once in the explanation, no line changes anything, marker lines
      included. */
  lemma {:induction false} ExplanationAbsorbs(st: PreState, lines: seq<String>)
    requires st.section == InExplanation
    ensures PreRun(st, lines) == st
    decreases |lines|
  {
    if lines != [] {
      ExplanationAbsorbs(st, lines[..|lines| - 1]);
    }
  }

  /** The first `explanation:` line freezes the inputs and outputs: the block
      yields what the lines before it gave. */
  lemma ExplanationFreezes(st: PreState, lines: seq<String>, k: nat)
    requires k < |lines| && Holds(lines[k], "explanation:")
    ensures PreRun(st, lines) == PreRun(st, lines[..k]).(section := InExplanation)
  {
    assert lines == lines[..k + 1] + lines[k + 1..];
    assert lines[..k + 1][..k] == lines[..k];
    PreRunConcat(st, lines[..k + 1], lines[k + 1..]);
    ExplanationAbsorbs(PreRun(st, lines[..k + 1]), lines[k + 1..]);
  }

  /** The scan ends in the explanation exactly when some line holds
      `explanation:`. */
  lemma {:induction false} ExplainedIff(lines: seq<String>)
    ensures PreRun(PreStart, lines).section == InExplanation <==>
      exists k :: 0 <= k < |lines| && Holds(lines[k], "explanation:")
    decreases |lines|
  {
    if lines != [] {
      var init := lines[..|lines| - 1];
      var last := lines[|lines| - 1];
      ExplainedIff(init);
      assert lines == init + [last];
      PreRunSnoc(PreStart, init, last);
      StepSection(PreRun(PreStart, init), last);
      if exists k :: 0 <= k < |init| && Holds(init[k], "explanation:") {
        var k :| 0 <= k < |init| && Holds(init[k], "explanation:");
        assert lines[k] == init[k];
      }
      if exists k :: 0 <= k < |lines| && Holds(lines[k], "explanation:") {
        var k :| 0 <= k < |lines| && Holds(lines[k], "explanation:");
        if k < |init| {
          assert init[k] == lines[k];
        }
      }
    }
  }

  /** A blank line can be dropped from anywhere in a block. */
  lemma BlankLineIgnored(st: PreState, a: seq<String>, blank: String, b: seq<String>)
    requires IsBlank(blank)
    ensures PreRun(st, a + [blank] + b) == PreRun(st, a + b)
  {
    PreRunConcat(st, a + [blank], b);
    PreRunSnoc(st, a, blank);
    PreRunConcat(st, a, b);
  }

  /** An `input:` line read before any explanation switches to the input
      section, leaves the outputs alone (even when it also holds `output:`),
      and replaces the inputs with the values after the marker unless
      nothing follows it. */
  lemma InputMarker(lines: seq<String>, m: String)
    requires forall k :: 0 <= k < |lines| ==> !Holds(lines[k], "explanation:")
    requires !Holds(m, "explanation:") && Holds(m, "input:")
    ensures var before := PreRun(PreStart, lines);
      var after := PreRun(PreStart, lines + [m]);
      var part := AfterMarker(Trim(m), "input:");
      after.section == InInput && after.outputs == before.outputs &&
      after.inputs == if part != [] then SplitValues(part) else before.inputs
  {
    ExplainedIff(lines);
    PreRunSnoc(PreStart, lines, m);
  }

  /** The same for an `output:` line that does not also hold `input:`. */
  lemma OutputMarker(lines: seq<String>, m: String)
    requires forall k :: 0 <= k < |lines| ==> !Holds(lines[k], "explanation:")
    requires !Holds(m, "explanation:") && !Holds(m, "input:") && Holds(m, "output:")
    ensures var before := PreRun(PreStart, lines);
      var after := PreRun(PreStart, lines + [m]);
      var part := AfterMarker(Trim(m), "output:");
      after.section == InOutput && after.inputs == before.inputs &&
      after.outputs == if part != [] then SplitValues(part) else before.outputs
  {
    ExplainedIff(lines);
    PreRunSnoc(PreStart, lines, m);
  }

  /** A block of one `Input:` line and one `Output:` line: the inputs are
      the values after the first marker and the outputs those after the
      second. The values hold neither `x` nor, after `Output:`, `i` in either
      case, so that neither line holds another marker. */
  lemma LabelledBlock(v: String, w: String)
    requires '\n' !in v && 'x' !in v && 'X' !in v && v != [] && IsTrimmed(v)
    requires '\n' !in w && 'x' !in w && 'X' !in w && 'i' !in w && 'I' !in w && w != [] && IsTrimmed(w)
    ensures PreFixture("Input: " + v + "\nOutput: " + w) == Fixture(SplitValues(v), SplitValues(w))
  {
    var l1, l2 := "Input:" + (" " + v), "Output:" + (" " + w);
    Spaced();
    assert "Input: " + v + "\nOutput: " + w == l1 + "\n" + l2;
    InputLine(v);
    OutputLine(w);
    MarkerPair(l1, l2);
  }

  lemma InputLine(v: String)
    requires '\n' !in v && 'x' !in v && 'X' !in v && v != [] && IsTrimmed(v)
    ensures var line := "Input:" + (" " + v);
      '\n' !in line && !Holds(line, "explanation:") && Holds(line, "input:") &&
      AfterMarker(Trim(line), "input:") == v
  {
    var line := "Input:" + (" " + v);
    assert '\n' !in line && 'x' !in line && 'X' !in line;
    Labels();
    MarkerLine("Input:", "input:", " " + v);
    TrimPadded(" ", v, "");
    assert " " + v + "" == " " + v;
    NoExplanation(line);
  }

  lemma OutputLine(w: String)
    requires '\n' !in w && 'x' !in w && 'X' !in w && 'i' !in w && 'I' !in w && w != [] && IsTrimmed(w)
    ensures var line := "Output:" + (" " + w);
      '\n' !in line && !Holds(line, "explanation:") && !Holds(line, "input:") && Holds(line, "output:") &&
      AfterMarker(Trim(line), "output:") == w
  {
    var line := "Output:" + (" " + w);
    assert '\n' !in line && 'x' !in line && 'X' !in line && 'i' !in line && 'I' !in line;
    Labels();
    MarkerLine("Output:", "output:", " " + w);
    TrimPadded(" ", w, "");
    assert " " + w + "" == " " + w;
    NoExplanation(line);
    NoInputMarker(line);
  }

  lemma Labels()
    ensures ToLower("Input:") == "input:" && ToLower("Output:") == "output:"
    ensures !IsSpace("Input:"[0]) && !IsSpace("Output:"[0])
  {
  }

  /** Two lines, an `input:` line and an `output:` line, each with
      something after its marker: the block's fixture holds the values after
      each marker. */
  lemma MarkerPair(l1: String, l2: String)
    requires '\n' !in l1 && '\n' !in l2
    requires !Holds(l1, "explanation:") && Holds(l1, "input:")
    requires !Holds(l2, "explanation:") && !Holds(l2, "input:") && Holds(l2, "output:")
    requires AfterMarker(Trim(l1), "input:") != [] && AfterMarker(Trim(l2), "output:") != []
    ensures PreFixture(l1 + "\n" + l2) ==
      Fixture(SplitValues(AfterMarker(Trim(l1), "input:")), SplitValues(AfterMarker(Trim(l2), "output:")))
  {
    var inputs, outputs := SplitValues(AfterMarker(Trim(l1), "input:")), SplitValues(AfterMarker(Trim(l2), "output:"));
    TwoLines(l1, l2);
    InputMarker([], l1);
    assert [] + [l1] == [l1];
    assert PreRun(PreStart, [l1]) == PreState(inputs, [], InInput);
    OutputMarker([l1], l2);
    assert [l1] + [l2] == [l1, l2];
    assert PreRun(PreStart, Split(l1 + "\n" + l2, '\n')) == PreState(inputs, outputs, InOutput);
  }

  lemma TwoLines(l1: String, l2: String)
    requires '\n' !in l1 && '\n' !in l2
    ensures Split(l1 + "\n" + l2, '\n') == [l1, l2]
  {
    assert l1 + "\n" + l2 == l1 + ['\n'] + l2;
    SplitFirst(l1, l2, '\n');
    SplitNone(l2, '\n');
  }

  /** A line lacking the letter `x` in either case holds no
      `explanation:` marker. */
  lemma NoExplanation(line: String)
    requires 'x' !in line && 'X' !in line
    ensures !Holds(line, "explanation:")
  {
    TrimKeepsOut(line, 'x');
    TrimKeepsOut(line, 'X');
    LowerLacks(Trim(line), "explanation:", 'x');
  }

  /** A line lacking the letter `i` in either case holds no `input:`
      marker. */
  lemma NoInputMarker(line: String)
    requires 'i' !in line && 'I' !in line
    ensures !Holds(line, "input:")
  {
    TrimKeepsOut(line, 'i');
    TrimKeepsOut(line, 'I');
    LowerLacks(Trim(line), "input:", 'i');
  }

  /** A trimmed line `head + v` whose head lower-cases to `marker` holds the
      marker, and what follows it is the trimmed `v`. */
  lemma MarkerLine(head: String, marker: String, v: String)
    requires ToLower(head) == marker && head != [] && !IsSpace(head[0])
    requires v != [] && !IsSpace(v[|v| - 1])
    ensures Trim(head + v) == head + v
    ensures Holds(head + v, marker)
    ensures AfterMarker(Trim(head + v), marker) == Trim(v)
  {
    var line := head + v;
    TrimmedIsFixed(line);
    ToLowerConcat(head, v);
    PrefixFound(marker, ToLower(v));
    assert |marker| == |head|;
    assert line[|head|..] == v;
  }

  /** The labelled-line example, `Input: nums = [1,2,3]` then
      `Output: [1,2,3]`: one fixture whose only input is the named list
      without its name and whose only output is the same list. */
  lemma LabelledBlockExample(name: String, elems: String)
    requires name == "nums" && elems == "1,2,3"
    ensures var list := "[" + elems + "]";
      list == "[1,2,3]" &&
      PreFixture("Input: " + (name + " = " + list) + "\nOutput: " + list) == Some(TestCase([list], [list], []))
  {
    var list := "[" + elems + "]";
    ExampleLines(name, elems);
    LabelledBlock(name + " = " + list, list);
    NamedFlatList(name, elems);
  }

  lemma ExampleLines(name: String, elems: String)
    requires name == "nums" && elems == "1,2,3"
    ensures var list := "[" + elems + "]";
      var v := name + " = " + list;
      list == "[1,2,3]" &&
      '\n' !in v && 'x' !in v && 'X' !in v && v != [] && IsTrimmed(v) &&
      '\n' !in list && 'x' !in list && 'X' !in list && 'i' !in list && 'I' !in list && IsTrimmed(list) &&
      Plain(name) && '=' !in name && '[' !in elems && ']' !in elems && '"' !in elems && '=' !in elems
  {
    ExamplePieces(name, elems);
    NamedListLine(name, elems);
  }

  lemma ExamplePieces(name: String, elems: String)
    requires name == "nums" && elems == "1,2,3"
    ensures "[" + elems + "]" == "[1,2,3]"
    ensures name != [] && !IsSpace(name[0]) && Plain(name)
    ensures '\n' !in name && 'x' !in name && 'X' !in name && '=' !in name
    ensures '\n' !in elems && 'x' !in elems && 'X' !in elems && 'i' !in elems && 'I' !in elems
    ensures '[' !in elems && ']' !in elems && '"' !in elems && '=' !in elems
  {
  }

  lemma NamedListLine(name: String, elems: String)
    requires name != [] && !IsSpace(name[0])
    requires '\n' !in name && 'x' !in name && 'X' !in name
    requires '\n' !in elems && 'x' !in elems && 'X' !in elems && 'i' !in elems && 'I' !in elems
    ensures var list := "[" + elems + "]";
      var v := name + " = " + list;
      '\n' !in v && 'x' !in v && 'X' !in v && v != [] && IsTrimmed(v) &&
      '\n' !in list && 'x' !in list && 'X' !in list && 'i' !in list && 'I' !in list && IsTrimmed(list)
  {
  }

  lemma Spaced()
    ensures "Input: " == "Input:" + " " && "\nOutput: " == "\n" + "Output:" + " "
  {
  }

  /** The values of the non-blank `lines`, in order. */
  function LineValues(lines: seq<String>): seq<String> {
    if lines == [] then []
    else
      var last := lines[|lines| - 1];
      LineValues(lines[..|lines| - 1]) + if IsBlank(last) then [] else SplitValues(Trim(last))
  }

  /** `st` with `values` added to its active section. */
  function Appended(st: PreState, values: seq<String>): PreState {
    match st.section
    case InInput => st.(inputs := st.inputs + values)
    case InOutput => st.(outputs := st.outputs + values)
    case _ => st
  }

  lemma ContinuationStep(st: PreState, values: seq<String>, line: String)
    requires st.section != InExplanation
    requires IsBlank(line) || IsContinuation(line)
    ensures PreStep(Appended(st, values), line) ==
      Appended(st, values + if IsBlank(line) then [] else SplitValues(Trim(line)))
  {
    if !IsBlank(line) {
      var extra := SplitValues(Trim(line));
      assert st.inputs + values + extra == st.inputs + (values + extra);
      assert st.outputs + values + extra == st.outputs + (values + extra);
    } else {
      assert values + [] == values;
    }
  }

  /** Lines without markers add their values to the active section, in
      order, and are ignored when no section is active. */
  lemma {:induction false} ContinuationLines(st: PreState, lines: seq<String>)
    requires st.section != InExplanation
    requires forall k :: 0 <= k < |lines| ==> IsBlank(lines[k]) || IsContinuation(lines[k])
    ensures PreRun(st, lines) == Appended(st, LineValues(lines))
    decreases |lines|
  {
    if lines == [] {
      assert st.inputs + [] == st.inputs && st.outputs + [] == st.outputs;
    } else {
      var init := lines[..|lines| - 1];
      ContinuationLines(st, init);
      ContinuationStep(st, LineValues(init), lines[|lines| - 1]);
    }
  }

  /** An `example-io` span of an example block: its text, and the text of
      the paragraph enclosing it, if any. */
  datatype Span = Span(text: String, paragraph: Option<String>)

  datatype BlockValues = BlockValues(inputs: seq<String>, outputs: seq<String>)

  /** The value of an input span: the trimmed text between the first and the
      second `=` when it has one, the whole trimmed text otherwise. */
  function SpanValue(text: String): String {
    if '=' in text then
      CountZero(text, '=');
      Trim(Split(text, '=')[1])
    else Trim(text)
  }

  /** What one span contributes. */
  datatype SpanRole = Skipped | InputValue(value: String) | OutputValue(value: String)

  /** One span: skipped without a paragraph; an input value when the
      paragraph holds `input:`; otherwise an output value when it holds
      `output:`. */
  function Role(span: Span): SpanRole {
    match span.paragraph
    case None => Skipped
    case Some(p) =>
      if Contains(ToLower(p), "input:") then InputValue(SpanValue(span.text))
      else if Contains(ToLower(p), "output:") then OutputValue(Trim(span.text))
      else Skipped
  }

  function SpanStep(acc: BlockValues, span: Span): BlockValues {
    match Role(span)
    case Skipped => acc
    case InputValue(v) => acc.(inputs := acc.inputs + [v])
    case OutputValue(v) => acc.(outputs := acc.outputs + [v])
  }

  function ScanSpans(spans: seq<Span>): BlockValues {
    if spans == [] then BlockValues([], [])
    else SpanStep(ScanSpans(spans[..|spans| - 1]), spans[|spans| - 1])
  }

  /** The span loop of one example block. */
  method ScanExampleBlock(spans: seq<Span>) returns (inputs: seq<String>, outputs: seq<String>)
    ensures BlockValues(inputs, outputs) == ScanSpans(spans)
  {
    inputs, outputs := [], [];
    var k := 0;
    while k < |spans|
      invariant 0 <= k <= |spans|
      invariant BlockValues(inputs, outputs) == ScanSpans(spans[..k])
    {
      assert spans[..k + 1][..k] == spans[..k];
      var text := spans[k].text;
      match spans[k].paragraph {
        case None =>
        case Some(parentText) =>
          if Contains(ToLower(parentText), "input:") {
            var value := if '=' in text then (CountZero(text, '='); Trim(Split(text, '=')[1])) else Trim(text);
            inputs := inputs + [value];
          } else if Contains(ToLower(parentText), "output:") {
            outputs := outputs + [Trim(text)];
          }
      }
      k := k + 1;
    }
    assert spans[..k] == spans;
  }

  /** An input span's value stops at its second `=`, where the line
      splitter's value keeps everything after the first one. */
  lemma SpanValueBetweenEquals(a: String, b: String, c: String)
    requires '=' !in a && '=' !in b
    ensures SpanValue(a + "=" + b) == Trim(b)
    ensures SpanValue(a + "=" + b + "=" + c) == Trim(b)
    ensures ExtractValue(a + "=" + b + "=" + c) == Trim(b + "=" + c)
  {
    SplitFirst(a, b, '=');
    SplitNone(b, '=');
    assert '=' in a + "=" + b by { assert (a + "=" + b)[|a|] == '='; }
    SplitFirst(a, b + "=" + c, '=');
    SplitFirst(b, c, '=');
    assert a + "=" + b + "=" + c == a + "=" + (b + "=" + c);
    assert '=' in a + "=" + b + "=" + c by { assert (a + "=" + b + "=" + c)[|a|] == '='; }
    ExtractValueNamed(a, b + "=" + c);
  }

  /** Reading `a` and then `b` is reading `a + b`. */
  lemma {:induction false} ScanSpansConcat(a: seq<Span>, b: seq<Span>)
    ensures ScanSpans(a + b) ==
      BlockValues(ScanSpans(a).inputs + ScanSpans(b).inputs, ScanSpans(a).outputs + ScanSpans(b).outputs)
    decreases |b|
  {
    if b == [] {
      assert a + b == a;
      assert ScanSpans(a).inputs + [] == ScanSpans(a).inputs;
      assert ScanSpans(a).outputs + [] == ScanSpans(a).outputs;
    } else {
      var init := b[..|b| - 1];
      ScanSpansConcat(a, init);
      assert (a + b)[..|a + b| - 1] == a + init;
      assert (a + b)[|a + b| - 1] == b[|b| - 1];
      var x, y := ScanSpans(a), ScanSpans(init);
      match Role(b[|b| - 1]) {
        case Skipped =>
        case InputValue(v) =>
          assert x.inputs + y.inputs + [v] == x.inputs + (y.inputs + [v]);
        case OutputValue(v) =>
          assert x.outputs + y.outputs + [v] == x.outputs + (y.outputs + [v]);
      }
    }
  }

  /** A span without an enclosing paragraph contributes nothing. */
  lemma OrphanSpanSkipped(a: seq<Span>, text: String, b: seq<Span>)
    ensures ScanSpans(a + [Span(text, None)] + b) == ScanSpans(a + b)
  {
    ScanSpansConcat(a + [Span(text, None)], b);
    ScanSpansConcat(a, [Span(text, None)]);
    ScanSpansConcat(a, b);
    assert ScanSpans([Span(text, None)]) == BlockValues([], []) by {
      assert [Span(text, None)][..0] == [];
    }
    var x := ScanSpans(a);
    assert x.inputs + [] == x.inputs && x.outputs + [] == x.outputs;
  }

  /** Each span gives at most one value, and every value is trimmed. */
  lemma {:induction false} ScanSpansShape(spans: seq<Span>)
    ensures var v := ScanSpans(spans);
      |v.inputs| + |v.outputs| <= |spans| &&
      (forall i :: 0 <= i < |v.inputs| ==> IsTrimmed(v.inputs[i])) &&
      (forall i :: 0 <= i < |v.outputs| ==> IsTrimmed(v.outputs[i]))
    decreases |spans|
  {
    if spans != [] {
      ScanSpansShape(spans[..|spans| - 1]);
    }
  }

  /** A fixture is kept only when it has both inputs and outputs. */
  function Fixture(inputs: seq<String>, outputs: seq<String>): Option<TestCase> {
    if |inputs| > 0 && |outputs| > 0 then Some(TestCase(inputs, outputs, [])) else None
  }

  function PreFixture(fullText: String): Option<TestCase> {
    var st := PreRun(PreStart, Split(fullText, '\n'));
    Fixture(st.inputs, st.outputs)
  }

  function BlockFixture(spans: seq<Span>): Option<TestCase> {
    var v := ScanSpans(spans);
    Fixture(v.inputs, v.outputs)
  }

  /** The fixtures `fixture` finds in `items`, in order; an item without
      one contributes nothing. */
  function Harvest<T>(items: seq<T>, fixture: T -> Option<TestCase>): seq<TestCase> {
    if items == [] then []
    else
      var f := fixture(items[|items| - 1]);
      Harvest(items[..|items| - 1], fixture) + if f.Some? then [f.value] else []
  }

  /** All fixtures of a description: those of the `<pre>` blocks, then those
      of the example blocks, each group in page order. */
  function TestCases(preTexts: seq<String>, blocks: seq<seq<Span>>): seq<TestCase> {
    Harvest(preTexts, PreFixture) + Harvest(blocks, BlockFixture)
  }

  lemma HarvestSnoc<T>(items: seq<T>, k: nat, fixture: T -> Option<TestCase>)
    requires k < |items|
    ensures Harvest(items[..k + 1], fixture) ==
      Harvest(items[..k], fixture) + var f := fixture(items[k]); if f.Some? then [f.value] else []
  {
    assert items[..k + 1][..k] == items[..k];
  }

  /** The extraction run inside the page: every `<pre>` block, then every
      example block. */
  method ExtractTestCases(preTexts: seq<String>, blocks: seq<seq<Span>>) returns (testCases: seq<TestCase>)
    ensures testCases == TestCases(preTexts, blocks)
  {
    testCases := [];
    var k := 0;
    while k < |preTexts|
      invariant 0 <= k <= |preTexts|
      invariant testCases == Harvest(preTexts[..k], PreFixture)
    {
      HarvestSnoc(preTexts, k, PreFixture);
      var currentInputs, currentOutputs := ScanPreBlock(preTexts[k]);
      ghost var found := PreFixture(preTexts[k]);
      assert found == Fixture(currentInputs, currentOutputs);
      if |currentInputs| > 0 && |currentOutputs| > 0 {
        testCases := testCases + [TestCase(currentInputs, currentOutputs, [])];
      } else {
        assert found == None;
      }
      k := k + 1;
    }
    assert preTexts[..k] == preTexts;
    var preCases := testCases;
    var j := 0;
    while j < |blocks|
      invariant 0 <= j <= |blocks|
      invariant testCases == preCases + Harvest(blocks[..j], BlockFixture)
    {
      HarvestSnoc(blocks, j, BlockFixture);
      var inputs, outputs := ScanExampleBlock(blocks[j]);
      ghost var found := BlockFixture(blocks[j]);
      assert found == Fixture(inputs, outputs);
      if |inputs| > 0 && |outputs| > 0 {
        testCases := testCases + [TestCase(inputs, outputs, [])];
      } else {
        assert found == None;
      }
      j := j + 1;
    }
    assert blocks[..j] == blocks;
  }

  /** Reading `x` and then `y` finds the fixtures of `x`, then those of `y`. */
  lemma {:induction false} HarvestConcat<T>(x: seq<T>, y: seq<T>, fixture: T -> Option<TestCase>)
    ensures Harvest(x + y, fixture) == Harvest(x, fixture) + Harvest(y, fixture)
    decreases |y|
  {
    if y == [] {
      assert x + y == x;
    } else {
      HarvestConcat(x, y[..|y| - 1], fixture);
      assert (x + y)[..|x + y| - 1] == x + y[..|y| - 1];
      assert (x + y)[|x + y| - 1] == y[|y| - 1];
    }
  }

  /** Every fixture found comes from one of the items, and there are at most
      as many fixtures as items. */
  lemma {:induction false} HarvestFrom<T>(items: seq<T>, fixture: T -> Option<TestCase>)
    ensures |Harvest(items, fixture)| <= |items|
    ensures forall t :: t in Harvest(items, fixture) ==> exists i :: 0 <= i < |items| && fixture(items[i]) == Some(t)
    decreases |items|
  {
    if items != [] {
      var n := |items| - 1;
      var init := items[..n];
      HarvestFrom(init, fixture);
      forall t | t in Harvest(items, fixture)
        ensures exists i :: 0 <= i < |items| && fixture(items[i]) == Some(t)
      {
        if t in Harvest(init, fixture) {
          var i :| 0 <= i < |init| && fixture(init[i]) == Some(t);
          assert items[i] == init[i];
        } else {
          assert fixture(items[n]) == Some(t);
        }
      }
    }
  }

  /** A fixture has inputs and outputs and no types yet. */
  predicate WellFormed(t: TestCase) {
    |t.inputs| > 0 && |t.outputs| > 0 && t.inputTypes == []
  }

  lemma FixtureWellFormed(inputs: seq<String>, outputs: seq<String>)
    ensures Fixture(inputs, outputs).Some? <==> |inputs| > 0 && |outputs| > 0
    ensures Fixture(inputs, outputs).Some? ==> WellFormed(Fixture(inputs, outputs).value)
  {
  }

  /** Every fixture is well formed, and no block yields more than one. */
  lemma FixturesWellFormed(preTexts: seq<String>, blocks: seq<seq<Span>>)
    ensures |TestCases(preTexts, blocks)| <= |preTexts| + |blocks|
    ensures forall t :: t in TestCases(preTexts, blocks) ==> WellFormed(t)
  {
    HarvestFrom(preTexts, PreFixture);
    HarvestFrom(blocks, BlockFixture);
    forall t | t in TestCases(preTexts, blocks) ensures WellFormed(t) {
      if t in Harvest(preTexts, PreFixture) {
        var i :| 0 <= i < |preTexts| && PreFixture(preTexts[i]) == Some(t);
        var st := PreRun(PreStart, Split(preTexts[i], '\n'));
        FixtureWellFormed(st.inputs, st.outputs);
      } else {
        var i :| 0 <= i < |blocks| && BlockFixture(blocks[i]) == Some(t);
        var v := ScanSpans(blocks[i]);
        FixtureWellFormed(v.inputs, v.outputs);
      }
    }
  }

  /** Fixtures follow the order of their blocks within each kind, and every
      `<pre>` fixture comes before every example-block fixture, wherever the
      blocks sit on the page. */
  lemma TestCasesOrder(a: seq<String>, b: seq<String>, c: seq<seq<Span>>, d: seq<seq<Span>>)
    ensures TestCases(a + b, c + d) ==
      TestCases(a, []) + TestCases(b, []) + TestCases([], c) + TestCases([], d)
  {
    HarvestOrder(a, b, c, d, PreFixture, BlockFixture);
  }

  lemma HarvestOrder<S, T>(a: seq<S>, b: seq<S>, c: seq<T>, d: seq<T>,
                           f: S -> Option<TestCase>, g: T -> Option<TestCase>)
    ensures Harvest(a + b, f) + Harvest(c + d, g) ==
      (Harvest(a, f) + Harvest([], g)) + (Harvest(b, f) + Harvest([], g)) +
      (Harvest([], f) + Harvest(c, g)) + (Harvest([], f) + Harvest(d, g))
  {
    HarvestConcat(a, b, f);
    HarvestConcat(c, d, g);
    assert Harvest([], f) == [] && Harvest([], g) == [];
    Regroup4(Harvest(a, f), Harvest(b, f), Harvest(c, g), Harvest(d, g));
  }

  lemma Regroup4<X>(p: seq<X>, q: seq<X>, r: seq<X>, s: seq<X>)
    ensures (p + q) + (r + s) == (p + []) + (q + []) + ([] + r) + ([] + s)
  {
    assert p + [] == p && q + [] == q && [] + r == r && [] + s == s;
  }

}
