/** The checks the `addManualTest` and `runTests` commands of
    src/extension.ts make before handing a configuration to the runner: the
    language of the open file, the comma split of the typed input, and the
    name of the directory the solution lives in. The editor, the input boxes
    and the notifications are left out; the path of the open file and the
    typed texts are parameters. */
module Commands {
  import opened Wrappers
  import opened Strings
  import opened Types
  import opened Paths
  import opened TestRunner

  /** The language label of an extension (with its dot); other extensions
      are refused. */
  function LanguageName(ext: String): Option<String> {
    if ext == ".cpp" then Some("C++") else if ext == ".py" then Some("Python") else None
  }

  /** The values typed into the manual-input box: cut at every comma, with
      no regard for brackets or quotes, each piece trimmed. */
  function ManualInputs(inputStr: String): (r: seq<String>)
    ensures |r| == Count(inputStr, ',') + 1
    ensures forall i :: 0 <= i < |r| ==> IsTrimmed(r[i])
  {
    var pieces := Split(inputStr, ',');
    seq(|pieces|, i requires 0 <= i < |pieces| => Trim(pieces[i]))
  }

  /** What the manual-test command does with the open file and the two
      typed texts. */
  datatype ManualRequest =
    | UnsupportedFile
    | Cancelled
    | Submit(config: TestConfig)

  function ManualTestRequest(filePath: String, inputStr: String, expectedOutput: String): ManualRequest {
    var language := LanguageName(ExtName(filePath));
    if language.None? then UnsupportedFile
    else if inputStr == [] || expectedOutput == [] then Cancelled
    else Submit(TestConfig(filePath, Some(ManualTest(ManualInputs(inputStr), expectedOutput, language)), None))
  }

  predicate IsSlugChar(c: char) {
    'a' <= c <= 'z' || '0' <= c <= '9' || c == '-'
  }

  /** A match of `^[a-z0-9-]+$`: one or more lower-case letters, digits
      and hyphens, and nothing else. */
  predicate IsSlug(s: String) {
    |s| >= 1 && forall i :: 0 <= i < |s| ==> IsSlugChar(s[i])
  }

  /** The name of the directory holding the file. */
  function ProblemDirectory(filePath: String): String {
    BaseName(DirName(filePath))
  }

  /** The run-tests command: nothing without a file path or outside a
      problem directory; otherwise the file with its own extension. */
  function RunTestsRequest(filePath: String): Option<TestConfig> {
    if filePath == [] || !IsSlug(ProblemDirectory(filePath)) then None
    else Some(TestConfig(filePath, None, Some(ExtNoDot(filePath))))
  }

  /** Every piece of the manual input is free of commas. */
  lemma ManualInputsNoComma(inputStr: String)
    ensures forall i :: 0 <= i < |ManualInputs(inputStr)| ==> ',' !in ManualInputs(inputStr)[i]
  {
    var pieces := Split(inputStr, ',');
    forall i | 0 <= i < |pieces| ensures ',' !in Trim(pieces[i]) {
      TrimKeepsOut(pieces[i], ',');
    }
  }

  /** Values typed with commas between them come back as they were typed,
      provided none holds a comma or surrounding white space. */
  lemma ManualInputsRoundTrip(values: seq<String>)
    requires |values| >= 1
    requires forall i :: 0 <= i < |values| ==> ',' !in values[i] && IsTrimmed(values[i])
    ensures ManualInputs(Join(values, ",")) == values
  {
    SplitJoin(values, ',');
    forall i | 0 <= i < |values| ensures Trim(values[i]) == values[i] {
      TrimmedIsFixed(values[i]);
    }
  }

  /** A list typed as one value is cut at its commas. */
  lemma ManualListExample()
    ensures ManualInputs("[1,2,3]") == ["[1", "2", "3]"]
  {
    var values: seq<String> := ["[1", "2", "3]"];
    assert Join(values, ",") == "[1,2,3]" by {
      assert values[1..] == ["2", "3]"];
      assert values[1..][1..] == ["3]"];
    }
    ManualInputsRoundTrip(values);
  }

  /** A non-empty extension starts with its dot. */
  lemma ExtNameDot(filePath: String)
    ensures ExtName(filePath) == [] || (ExtName(filePath)[0] == '.' && ExtName(filePath)[1..] == ExtNoDot(filePath))
  {
    var b := BaseName(filePath);
    LastDotShape(b);
  }

  /** The manual-test command accepts exactly the files the runner has a
      language for. */
  lemma LanguagesAgree(filePath: String)
    ensures LanguageName(".cpp") == Some("C++") && LanguageName(".py") == Some("Python")
    ensures LanguageName(ExtName(filePath)).Some? <==> LanguageKey(ExtNoDot(filePath)).Some?
    ensures LanguageName(ExtName(filePath)).Some? <==> ExtName(filePath) in {".cpp", ".py"}
  {
    ExtNameDot(filePath);
    var e := ExtName(filePath);
    if e != [] {
      assert e == [e[0]] + e[1..];
    }
  }

  /** A submitted manual test carries the trimmed comma pieces, the typed
      expected output and a language the runner knows; the runner is given
      no extension of its own. */
  lemma ManualRequestShape(filePath: String, inputStr: String, expectedOutput: String)
    ensures var request := ManualTestRequest(filePath, inputStr, expectedOutput);
      (request == UnsupportedFile <==> ExtName(filePath) !in {".cpp", ".py"}) &&
      (request.Submit? <==> ExtName(filePath) in {".cpp", ".py"} && inputStr != [] && expectedOutput != []) &&
      (request.Submit? ==>
        request.config.filePath == filePath &&
        request.config.manualTest.Some? &&
        request.config.manualTest.value.input == ManualInputs(inputStr) &&
        request.config.manualTest.value.expectedOutput == expectedOutput &&
        request.config.manualTest.value.language == LanguageName(ExtName(filePath)) &&
        request.config.fileExt == None &&
        LanguageKey(EffectiveExt(request.config)).Some?)
  {
    LanguagesAgree(filePath);
  }

  /** Run-tests is allowed exactly for a file directly inside a directory
      whose name matches `^[a-z0-9-]+$`. */
  lemma ProblemDirectoryCheck(root: String, slug: String, file: String)
    requires root != [] && !IsSep(root[|root| - 1])
    requires slug != [] && forall i :: 0 <= i < |slug| ==> !IsSep(slug[i])
    requires file != [] && forall i :: 0 <= i < |file| ==> !IsSep(file[i])
    ensures ProblemDirectory(root + "\\" + slug + "\\" + file) == slug
    ensures RunTestsRequest(root + "\\" + slug + "\\" + file).Some? <==> IsSlug(slug)
  {
    var dir := root + "\\" + slug;
    assert dir[|dir| - 1] == slug[|slug| - 1];
    JoinedParts(dir, file);
    JoinedParts(root, slug);
  }

  /** The run-tests command hands the runner the file's own extension. */
  lemma RunRequestExtension(filePath: String)
    requires RunTestsRequest(filePath).Some?
    ensures RunTestsRequest(filePath).value.manualTest.None?
    ensures EffectiveExt(RunTestsRequest(filePath).value) == ExtNoDot(filePath)
  {
  }

  lemma SlugExamples()
    ensures IsSlug("two-sum") && IsSlug("3sum")
    ensures !IsSlug("Two Sum") && !IsSlug("") && !IsSlug("two_sum")
  {
    assert !IsSlugChar("Two Sum"[0]);
    assert !IsSlugChar("two_sum"[3]);
  }
}
