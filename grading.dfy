/** Grading of one run (src/testRunner.ts): the output canonicaliser
    `normalizeOutput`, and the choice in `runSingleTest` that turns what the
    solution process did into a `TestResult`. */
module Grading {
  import opened Wrappers
  import opened Strings
  import opened Types

  /** `.replace(/\r\n/g, '\n')`: each CR LF pair, scanning left to right,
      becomes a single LF. */
  function JoinCrLf(s: String): String
    decreases |s|
  {
    if s == [] then []
    else if |s| >= 2 && s[0] == '\r' && s[1] == '\n' then "\n" + JoinCrLf(s[2..])
    else [s[0]] + JoinCrLf(s[1..])
  }

  /** `s` without its leading white space. */
  function DropSpaces(s: String): (r: String)
    ensures |r| <= |s|
    decreases |s|
  {
    if s != [] && IsSpace(s[0]) then DropSpaces(s[1..]) else s
  }

  /** `.replace(/\s+/g, ' ')`: each maximal run of white space becomes one
      space. */
  function CollapseSpaces(s: String): String
    decreases |s|
  {
    if s == [] then []
    else if IsSpace(s[0]) then " " + CollapseSpaces(DropSpaces(s[1..]))
    else [s[0]] + CollapseSpaces(s[1..])
  }

  /** The characters `.replace(/\[|\]|\s/g, '')` deletes. */
  predicate IsRemoved(c: char) {
    c == '[' || c == ']' || IsSpace(c)
  }

  /** `.replace(/\[|\]|\s/g, '')`: `s` without brackets and white space. */
  function Strip(s: String): String {
    if s == [] then [] else (if IsRemoved(s[0]) then [] else [s[0]]) + Strip(s[1..])
  }

  /** `normalizeOutput`: trim, turn CR LF into LF, collapse white space,
      delete brackets and white space, lower-case. */
  function NormalizeOutput(output: String): String {
    ToLower(Strip(CollapseSpaces(JoinCrLf(Trim(output)))))
  }

  lemma {:induction false} StripConcat(a: String, b: String)
    ensures Strip(a + b) == Strip(a) + Strip(b)
    decreases |a|
  {
    if a != [] {
      StripConcat(a[1..], b);
      assert (a + b)[1..] == a[1..] + b;
    } else {
      assert a + b == b;
    }
  }

  lemma {:induction false} StripSpaces(a: String)
    requires AllSpace(a)
    ensures Strip(a) == []
    decreases |a|
  {
    if a != [] {
      StripSpaces(a[1..]);
    }
  }

  /** Nothing `Strip` keeps is a bracket or white space, and text without
      those is left as it is. */
  lemma {:induction false} StripClean(s: String)
    ensures forall i :: 0 <= i < |Strip(s)| ==> !IsRemoved(Strip(s)[i])
    ensures (forall i :: 0 <= i < |s| ==> !IsRemoved(s[i])) ==> Strip(s) == s
    decreases |s|
  {
    if s != [] {
      StripClean(s[1..]);
    }
  }

  lemma StripTrim(s: String)
    ensures Strip(Trim(s)) == Strip(s)
  {
    var k := TrimSplits(s);
    var r := Trim(s);
    StripConcat(s[..k] + r, s[k + |r|..]);
    StripConcat(s[..k], r);
    StripSpaces(s[..k]);
    StripSpaces(s[k + |r|..]);
  }

  lemma {:induction false} StripJoinCrLf(s: String)
    ensures Strip(JoinCrLf(s)) == Strip(s)
    decreases |s|
  {
    if s != [] {
      if |s| >= 2 && s[0] == '\r' && s[1] == '\n' {
        StripJoinCrLf(s[2..]);
        StripConcat("\n", JoinCrLf(s[2..]));
        assert s == [s[0]] + ([s[1]] + s[2..]);
        StripConcat([s[0]], [s[1]] + s[2..]);
        StripConcat([s[1]], s[2..]);
      } else {
        StripJoinCrLf(s[1..]);
        StripConcat([s[0]], JoinCrLf(s[1..]));
        assert s == [s[0]] + s[1..];
        StripConcat([s[0]], s[1..]);
      }
    }
  }

  lemma {:induction false} StripDropSpaces(s: String)
    ensures Strip(DropSpaces(s)) == Strip(s)
    decreases |s|
  {
    if s != [] && IsSpace(s[0]) {
      StripDropSpaces(s[1..]);
    }
  }

  lemma {:induction false} StripCollapse(s: String)
    ensures Strip(CollapseSpaces(s)) == Strip(s)
    decreases |s|
  {
    if s != [] {
      if IsSpace(s[0]) {
        var rest := DropSpaces(s[1..]);
        StripCollapse(rest);
        StripDropSpaces(s[1..]);
        StripConcat(" ", CollapseSpaces(rest));
      } else {
        StripCollapse(s[1..]);
        StripConcat([s[0]], CollapseSpaces(s[1..]));
      }
    }
  }

  /** The trim, CR LF and collapse steps make no difference: the canonical
      form is the lower-cased text with brackets and white space deleted. */
  lemma NormalizeIsStrip(output: String)
    ensures NormalizeOutput(output) == ToLower(Strip(output))
  {
    var t := Trim(output);
    StripCollapse(JoinCrLf(t));
    StripJoinCrLf(t);
    StripTrim(output);
  }

  predicate IsCanonical(s: String) {
    forall i :: 0 <= i < |s| ==> !IsRemoved(s[i])
  }

  /** Lower-casing keeps text canonical and is idempotent. */
  lemma LowerCanonical(s: String)
    requires IsCanonical(s)
    ensures IsCanonical(ToLower(s)) && ToLower(ToLower(s)) == ToLower(s)
  {
  }

  /** The canonical form holds no bracket and no white space, and
      normalising it again changes nothing. */
  lemma NormalizeCanonical(output: String)
    ensures IsCanonical(NormalizeOutput(output))
    ensures NormalizeOutput(NormalizeOutput(output)) == NormalizeOutput(output)
  {
    var stripped := Strip(output);
    NormalizeIsStrip(output);
    StripClean(output);
    LowerCanonical(stripped);
    var n := ToLower(stripped);
    assert NormalizeOutput(output) == n;
    NormalizeIsStrip(n);
    StripClean(n);
    assert Strip(n) == n;
  }

  /** Brackets and white space around a clean piece are all deleted. */
  lemma StripAround(x: String, y: String, z: String)
    requires forall i :: 0 <= i < |x| ==> IsRemoved(x[i])
    requires IsCanonical(y)
    requires forall i :: 0 <= i < |z| ==> IsRemoved(z[i])
    ensures Strip(x + y + z) == y
  {
    StripConcat(x + y, z);
    StripConcat(x, y);
    StripRemoved(x);
    StripRemoved(z);
    StripClean(y);
  }

  lemma {:induction false} StripRemoved(x: String)
    requires forall i :: 0 <= i < |x| ==> IsRemoved(x[i])
    ensures Strip(x) == []
    decreases |x|
  {
    if x != [] {
      StripRemoved(x[1..]);
    }
  }

  lemma StripList1(s: String)
    requires s == "[1,2,3]"
    ensures Strip(s) == "1,2,3"
  {
    assert s == "[" + "1,2,3" + "]";
    StripAround("[", "1,2,3", "]");
  }

  /** Deleting one bracket or white-space character changes nothing. */
  lemma StripDelete(x: String, c: char, y: String)
    requires IsRemoved(c)
    ensures Strip(x + [c] + y) == Strip(x + y)
  {
    StripConcat(x + [c], y);
    StripConcat(x, [c]);
    StripConcat(x, y);
  }

  lemma StripList2(s: String)
    requires s == "[1, 2, 3]"
    ensures Strip(s) == "1,2,3"
  {
    var t := "[1," + "2, 3]";
    assert s == "[1," + [' '] + "2, 3]";
    StripDelete("[1,", ' ', "2, 3]");
    assert t == "[1,2," + [' '] + "3]";
    StripDelete("[1,2,", ' ', "3]");
    StripList1("[1,2," + "3]");
  }

  lemma LowerDigitsList()
    ensures ToLower("1,2,3") == "1,2,3"
  {
  }

  /** Spacing and brackets around a list do not matter. */
  lemma NormalizeExamples(a: String, b: String)
    requires a == "[1,2,3]" && b == "[1, 2, 3]"
    ensures NormalizeOutput(a) == NormalizeOutput(b) == "1,2,3"
  {
    LowerDigitsList();
    NormalizeIsStrip(a);
    StripList1(a);
    NormalizeIsStrip(b);
    StripList2(b);
  }

  /** What the solution process did: it exited (with a code, or with none
      when a signal ended it) after printing `stdout` and `stderr`, taking
      `elapsed` milliseconds; or starting it threw. */
  datatype ProcessOutcome =
    | Exited(code: Option<int>, stdout: String, stderr: String, elapsed: real)
    | Threw(message: String)

  /** The `TestResult` that `runSingleTest` resolves to. */
  function Grade(testNumber: nat, input: String, expectedOutput: String, outcome: ProcessOutcome): TestResult {
    match outcome
    case Threw(message) =>
      TestResult(testNumber, Trim(input), Trim(expectedOutput), "", false, 0.0, Some(message))
    case Exited(code, stdout, stderr, elapsed) =>
      if code != Some(0) then
        TestResult(testNumber, Trim(input), Trim(expectedOutput), "", false, elapsed, Some(stderr))
      else
        TestResult(testNumber, Trim(input), Trim(expectedOutput), Trim(stdout),
                   NormalizeOutput(stdout) == NormalizeOutput(expectedOutput), elapsed, None)
  }

  predicate ExitedCleanly(outcome: ProcessOutcome) {
    outcome.Exited? && outcome.code == Some(0)
  }

  /** A test passes exactly when the program exited with code 0 and its
      output matches the expected one once case, brackets and white space
      are ignored. */
  lemma GradePassedIff(testNumber: nat, input: String, expectedOutput: String, outcome: ProcessOutcome)
    ensures Grade(testNumber, input, expectedOutput, outcome).passed <==>
      ExitedCleanly(outcome) && ToLower(Strip(outcome.stdout)) == ToLower(Strip(expectedOutput))
  {
    if outcome.Exited? {
      NormalizeIsStrip(outcome.stdout);
      NormalizeIsStrip(expectedOutput);
    }
  }

  /** Every result carries its number and the trimmed input and expected
      output. A run that did not exit cleanly records no output and an
      error (the program's stderr, or the thrown message with time 0); a
      clean run records the trimmed raw output, not its canonical form, and
      no error. */
  lemma GradeFields(testNumber: nat, input: String, expectedOutput: String, outcome: ProcessOutcome)
    ensures var r := Grade(testNumber, input, expectedOutput, outcome);
      r.testNumber == testNumber && r.input == Trim(input) && r.expectedOutput == Trim(expectedOutput) &&
      (!ExitedCleanly(outcome) ==> r.actualOutput == [] && !r.passed && r.error.Some?) &&
      (outcome.Exited? && outcome.code != Some(0) ==> r.error == Some(outcome.stderr)) &&
      (outcome.Threw? ==> r.error == Some(outcome.message) && r.executionTime == 0.0) &&
      (ExitedCleanly(outcome) ==> r.actualOutput == Trim(outcome.stdout) && r.error == None)
  {
  }

  /** A CR LF ending is stripped like any other white space. */
  lemma StripCrLfList(out: String)
    requires out == "[1, 2, 3]\r\n"
    ensures Strip(out) == "1,2,3"
  {
    assert out == "[1, 2, 3]\r" + ['\n'] + [];
    StripDelete("[1, 2, 3]\r", '\n', []);
    assert "[1, 2, 3]\r" + [] == "[1, 2, 3]" + ['\r'] + [];
    StripDelete("[1, 2, 3]", '\r', []);
    assert "[1, 2, 3]" + [] == "[1, 2, 3]";
    StripList2("[1, 2, 3]");
  }

  /** Output printed with spaces and a CR LF ending still passes against the
      compact expected form. */
  lemma GradeExample(out: String, expected: String, elapsed: real)
    requires out == "[1, 2, 3]\r\n" && expected == "[1,2,3]"
    ensures Grade(1, "nums", expected, Exited(Some(0), out, "", elapsed)).passed
  {
    StripCrLfList(out);
    StripList1(expected);
    GradePassedIff(1, "nums", expected, Exited(Some(0), out, "", elapsed));
  }
}
