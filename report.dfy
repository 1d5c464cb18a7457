/** `formatTestResults` of src/extension.ts: the Markdown report shown
    beside the editor after a run. A report is a header, a pass count and one
    section per result; a section is a sequence of blocks, each rendered to a
    fixed piece of text. */
module Report {
  import opened Wrappers
  import opened Strings
  import opened Types

  /** The pieces a result's section is made of. */
  datatype Block =
    | Title(testNumber: nat)
    | Status(passed: bool)
    | Time(text: String)
    | Fenced(heading: String, body: String)
    | Rule

  const InputLabel: String := "Input"
  const ExpectedLabel: String := "Expected Output"
  const ActualLabel: String := "Actual Output"
  const ErrorLabel: String := "Error"

  const TitleText: String := "### Test Case "
  const StatusText: String := "**Status:** "
  const PassedText: String := "\U{2705} Passed"
  const FailedText: String := "\U{274C} Failed"
  const TimeText: String := "**Execution Time:** "
  const TimeUnit: String := "ms\n\n"
  const Bold: String := "**"
  const FenceOpen: String := ":**\n```\n"
  const FenceClose: String := "\n```\n\n"
  const RuleText: String := "---\n\n"
  const NewLine: String := "\n"

  function RenderBlock(b: Block): String {
    match b
    case Title(n) => TitleText + NatToString(n) + NewLine
    case Status(passed) => StatusText + (if passed then PassedText else FailedText) + NewLine
    case Time(text) => TimeText + text + TimeUnit
    case Fenced(heading, body) => Bold + heading + FenceOpen + body + FenceClose
    case Rule => RuleText
  }

  /** The text of a sequence of blocks, one after another. */
  function Render(blocks: seq<Block>): String {
    if blocks == [] then [] else Render(blocks[..|blocks| - 1]) + RenderBlock(blocks[|blocks| - 1])
  }

  /** The execution time as printed: the formatted number, or `0` when the
      formatter gives nothing. `formatTime` stands for `toFixed(2)`. */
  function TimeShown(t: real, formatTime: real -> String): String {
    if formatTime(t) == [] then "0" else formatTime(t)
  }

  /** What the Actual Output block shows: the output, or `N/A` for none. */
  function ActualText(r: TestResult): String {
    if r.actualOutput == [] then "N/A" else r.actualOutput
  }

  /** Whether the Error block is shown: only for a failed result with a
      non-empty error. */
  predicate ShowsError(r: TestResult) {
    !r.passed && r.error.Some? && r.error.value != []
  }

  /** The blocks every section opens with. */
  function Head(r: TestResult, formatTime: real -> String): seq<Block> {
    [Title(r.testNumber), Status(r.passed), Time(TimeShown(r.executionTime, formatTime)),
     Fenced(InputLabel, r.input), Fenced(ExpectedLabel, r.expectedOutput)]
  }

  /** The blocks only a failed result has. */
  function FailureBlocks(r: TestResult): seq<Block> {
    if r.passed then []
    else [Fenced(ActualLabel, ActualText(r))] + if ShowsError(r) then [Fenced(ErrorLabel, r.error.value)] else []
  }

  /** The blocks of one result's section. */
  function Blocks(r: TestResult, formatTime: real -> String): seq<Block> {
    Head(r, formatTime) + FailureBlocks(r) + [Rule]
  }

  /** The sections of `results` in order, each given by `section`. */
  function Sections(results: seq<TestResult>, section: TestResult -> seq<Block>): seq<Block> {
    if results == [] then []
    else Sections(results[..|results| - 1], section) + section(results[|results| - 1])
  }

  function SectionOf(formatTime: real -> String): TestResult -> seq<Block> {
    r => Blocks(r, formatTime)
  }

  /** The sections of all results, in order. */
  function ReportBlocks(results: seq<TestResult>, formatTime: real -> String): seq<Block> {
    Sections(results, SectionOf(formatTime))
  }

  /** The number of passed results. */
  function PassedCount(results: seq<TestResult>): nat {
    if results == [] then 0
    else PassedCount(results[..|results| - 1]) + if results[|results| - 1].passed then 1 else 0
  }

  const ReportTitle: String := "# Test Results\n\n"
  const SummaryText: String := "**Summary:** "
  const SummaryEnd: String := " tests passed\n\n"

  /** The title and the pass count over the number of results. */
  function Header(passed: nat, total: nat): String {
    ReportTitle + SummaryText + NatToString(passed) + "/" + NatToString(total) + SummaryEnd
  }

  /** The whole report. */
  function Report(results: seq<TestResult>, formatTime: real -> String): String {
    Header(PassedCount(results), |results|) + Render(ReportBlocks(results, formatTime))
  }

  lemma RenderSnoc(blocks: seq<Block>, b: Block)
    ensures Render(blocks + [b]) == Render(blocks) + RenderBlock(b)
  {
    assert (blocks + [b])[..|blocks|] == blocks;
  }

  lemma ReportBlocksSnoc(results: seq<TestResult>, k: nat, formatTime: real -> String)
    requires k < |results|
    ensures ReportBlocks(results[..k + 1], formatTime) ==
      ReportBlocks(results[..k], formatTime) + Blocks(results[k], formatTime)
  {
    assert results[..k + 1][..k] == results[..k];
  }

  /** One block appended to the text of a section under way. */
  lemma Appended(o: String, prefix: String, section: seq<Block>, b: Block)
    requires o == prefix + Render(section)
    ensures o + RenderBlock(b) == prefix + Render(section + [b])
  {
    RenderSnoc(section, b);
    Regroup(o, prefix, Render(section), RenderBlock(b), Render(section + [b]));
  }

  /** Text appended after a prefix, regrouped. */
  lemma Regroup(o: String, prefix: String, x: String, y: String, z: String)
    requires o == prefix + x && z == x + y
    ensures o + y == prefix + z
  {
  }

  /** The blocks every section of the callback opens with, appended. */
  method AppendHead(output: String, result: TestResult, formatTime: real -> String) returns (o: String)
    ensures o == output + Render(Head(result, formatTime))
  {
    ghost var section: seq<Block> := [];
    assert output + Render(section) == output;
    o := output;
    var b := Title(result.testNumber);
    Appended(o, output, section, b);
    o, section := o + RenderBlock(b), section + [b];
    b := Status(result.passed);
    Appended(o, output, section, b);
    o, section := o + RenderBlock(b), section + [b];
    b := Time(TimeShown(result.executionTime, formatTime));
    Appended(o, output, section, b);
    o, section := o + RenderBlock(b), section + [b];
    b := Fenced(InputLabel, result.input);
    Appended(o, output, section, b);
    o, section := o + RenderBlock(b), section + [b];
    b := Fenced(ExpectedLabel, result.expectedOutput);
    Appended(o, output, section, b);
    o, section := o + RenderBlock(b), section + [b];
    assert section == Head(result, formatTime);
  }

  /** The callback of `formatTestResults`: one result's section appended to
      the report. */
  method AppendSection(output: String, result: TestResult, formatTime: real -> String) returns (o: String)
    ensures o == output + Render(Blocks(result, formatTime))
  {
    o := AppendHead(output, result, formatTime);
    ghost var section := Head(result, formatTime);
    var b: Block;
    if !result.passed {
      b := Fenced(ActualLabel, ActualText(result));
      Appended(o, output, section, b);
      o, section := o + RenderBlock(b), section + [b];
      if result.error.Some? && result.error.value != [] {
        b := Fenced(ErrorLabel, result.error.value);
        Appended(o, output, section, b);
        o, section := o + RenderBlock(b), section + [b];
      }
    }
    assert section == Head(result, formatTime) + FailureBlocks(result);
    b := Rule;
    Appended(o, output, section, b);
    o, section := o + RenderBlock(b), section + [b];
  }

  lemma SectionAppended(o: String, prefix: String, blocks: seq<Block>, more: seq<Block>)
    requires o == prefix + Render(blocks)
    ensures o + Render(more) == prefix + Render(blocks + more)
  {
    RenderConcat(blocks, more);
    Regroup(o, prefix, Render(blocks), Render(more), Render(blocks + more));
  }

  /** `formatTestResults`: the header with the pass count, then the
      sections of the results in order. */
  method FormatTestResults(results: seq<TestResult>, formatTime: real -> String) returns (output: String)
    ensures output == Report(results, formatTime)
  {
    output := ReportTitle;
    var totalTests := |results|;
    var passedTests := PassedCount(results);
    output := output + SummaryText + NatToString(passedTests) + "/" + NatToString(totalTests) + SummaryEnd;
    ghost var header := output;
    var k := 0;
    while k < |results|
      invariant 0 <= k <= |results|
      invariant header == Header(PassedCount(results), |results|)
      invariant output == header + Render(ReportBlocks(results[..k], formatTime))
    {
      ReportBlocksSnoc(results, k, formatTime);
      SectionAppended(output, header, ReportBlocks(results[..k], formatTime), Blocks(results[k], formatTime));
      output := AppendSection(output, results[k], formatTime);
      k := k + 1;
    }
    assert results[..k] == results;
  }

  lemma {:induction false} RenderConcat(a: seq<Block>, b: seq<Block>)
    ensures Render(a + b) == Render(a) + Render(b)
    decreases |b|
  {
    if b == [] {
      assert a + b == a;
    } else {
      var init := b[..|b| - 1];
      assert (a + b)[..|a + b| - 1] == a + init;
      RenderConcat(a, init);
    }
  }

  /** The summary counts passed results: never more than there are, all of
      them exactly when every result passed, and none exactly when every
      result failed. */
  lemma {:induction false} PassedCountBounds(results: seq<TestResult>)
    ensures PassedCount(results) <= |results|
    ensures PassedCount(results) == |results| <==> forall i :: 0 <= i < |results| ==> results[i].passed
    ensures PassedCount(results) == 0 <==> forall i :: 0 <= i < |results| ==> !results[i].passed
    decreases |results|
  {
    if results != [] {
      var init := results[..|results| - 1];
      PassedCountBounds(init);
      assert forall i :: 0 <= i < |init| ==> init[i] == results[i];
    }
  }

  /** The pass count of two runs together is the sum of their counts. */
  lemma {:induction false} PassedCountConcat(a: seq<TestResult>, b: seq<TestResult>)
    ensures PassedCount(a + b) == PassedCount(a) + PassedCount(b)
    decreases |b|
  {
    if b == [] {
      assert a + b == a;
    } else {
      var init := b[..|b| - 1];
      assert (a + b)[..|a + b| - 1] == a + init;
      PassedCountConcat(a, init);
    }
  }

  /** The report of two runs' results is the two sequences of sections one
      after the other. */
  lemma ReportBlocksConcat(a: seq<TestResult>, b: seq<TestResult>, formatTime: real -> String)
    ensures ReportBlocks(a + b, formatTime) == ReportBlocks(a, formatTime) + ReportBlocks(b, formatTime)
  {
    SectionsConcat(a, b, SectionOf(formatTime));
  }

  lemma {:induction false} SectionsConcat(a: seq<TestResult>, b: seq<TestResult>, section: TestResult -> seq<Block>)
    ensures Sections(a + b, section) == Sections(a, section) + Sections(b, section)
    decreases |b|
  {
    if b == [] {
      assert a + b == a;
    } else {
      var init, last := b[..|b| - 1], b[|b| - 1];
      assert (a + b)[..|a + b| - 1] == a + init;
      assert (a + b)[|a + b| - 1] == last;
      SectionsConcat(a, init, section);
    }
  }

  /** The test numbers of the section titles among `blocks`, in order. */
  function Titles(blocks: seq<Block>): seq<nat> {
    if blocks == [] then []
    else Titles(blocks[..|blocks| - 1]) + if blocks[|blocks| - 1].Title? then [blocks[|blocks| - 1].testNumber] else []
  }

  lemma {:induction false} TitlesConcat(a: seq<Block>, b: seq<Block>)
    ensures Titles(a + b) == Titles(a) + Titles(b)
    decreases |b|
  {
    if b == [] {
      assert a + b == a;
    } else {
      var init := b[..|b| - 1];
      assert (a + b)[..|a + b| - 1] == a + init;
      TitlesConcat(a, init);
    }
  }

  lemma TitlesNone(blocks: seq<Block>)
    requires forall i :: 0 <= i < |blocks| ==> !blocks[i].Title?
    ensures Titles(blocks) == []
    decreases |blocks|
  {
    if blocks != [] {
      TitlesNone(blocks[..|blocks| - 1]);
    }
  }

  /** A section opens with its title, closes with the rule, and holds no
      other title. */
  lemma SectionShape(r: TestResult, formatTime: real -> String)
    ensures var bs := Blocks(r, formatTime);
      |bs| >= 6 && bs[0] == Title(r.testNumber) && bs[|bs| - 1] == Rule &&
      Titles(bs) == [r.testNumber]
  {
    var bs := Blocks(r, formatTime);
    TitlesConcat([bs[0]], bs[1..]);
    assert [bs[0]] + bs[1..] == bs;
    TitlesNone(bs[1..]);
    assert Titles([bs[0]]) == Titles([]) + [r.testNumber];
  }

  /** The report has one section per result, titled with its test number,
      in the order of the results. */
  lemma {:induction false} OneSectionPerResult(results: seq<TestResult>, formatTime: real -> String)
    ensures Titles(ReportBlocks(results, formatTime)) ==
      seq(|results|, i requires 0 <= i < |results| => results[i].testNumber)
    decreases |results|
  {
    if results != [] {
      var init := results[..|results| - 1];
      var last := results[|results| - 1];
      OneSectionPerResult(init, formatTime);
      TitlesConcat(ReportBlocks(init, formatTime), Blocks(last, formatTime));
      SectionShape(last, formatTime);
    }
  }

  /** Only a failed result shows its actual output, as `N/A` when it has
      none. */
  lemma ActualShownIffFailed(r: TestResult, formatTime: real -> String)
    ensures !r.passed ==> Fenced(ActualLabel, ActualText(r)) in Blocks(r, formatTime)
    ensures forall b :: b in Blocks(r, formatTime) && b.Fenced? && b.heading == ActualLabel ==>
      !r.passed && b.body == (if r.actualOutput == [] then "N/A" else r.actualOutput)
  {
    assert ActualLabel[0] != InputLabel[0] && ActualLabel[0] != ErrorLabel[0];
    assert ActualLabel[1] != ExpectedLabel[1];
  }

  /** The error is shown exactly when the result failed and the error is
      non-empty. */
  lemma ErrorShownIff(r: TestResult, formatTime: real -> String)
    ensures (exists b :: b in Blocks(r, formatTime) && b.Fenced? && b.heading == ErrorLabel) <==>
      !r.passed && r.error.Some? && r.error.value != []
    ensures forall b :: b in Blocks(r, formatTime) && b.Fenced? && b.heading == ErrorLabel ==>
      b.body == r.error.value
  {
    assert ErrorLabel[0] != InputLabel[0] && ErrorLabel[1] != ExpectedLabel[1] && ErrorLabel[0] != ActualLabel[0];
    if ShowsError(r) {
      assert Fenced(ErrorLabel, r.error.value) in Blocks(r, formatTime);
    }
  }

  /** A failed run without output shows `N/A` and then its error. */
  lemma FailedSectionExample(formatTime: real -> String)
    ensures var r := TestResult(2, "x", "1", "", false, 0.0, Some("boom"));
      Blocks(r, formatTime) == Head(r, formatTime) + [Fenced(ActualLabel, "N/A"), Fenced(ErrorLabel, "boom"), Rule]
  {
  }

  /** The summary line of a run where one of two tests passed reads
      `1/2`. */
  lemma SummaryExample()
    ensures Header(1, 2) == ReportTitle + SummaryText + "1/2" + SummaryEnd
  {
    Regroup3(ReportTitle + SummaryText, NatToString(1), "/", NatToString(2), SummaryEnd);
    SummaryCount();
  }

  lemma Regroup3(p: String, x: String, y: String, z: String, e: String)
    ensures p + x + y + z + e == p + (x + y + z) + e
  {
  }

  lemma SummaryCount()
    ensures NatToString(1) + "/" + NatToString(2) == "1/2"
  {
  }
}
