/** `runTests` of src/testRunner.ts: pick the language from the file
    extension, compile when the language has a compile command, then run
    either the manual test or every stored fixture. The editor, the settings
    store, the file system and child processes are parameters: the language
    profiles as a map, the compiler as `exec`, the solution process as `run`
    (from the command and the text fed to its stdin), the `test_cases`
    directory as its listing and a map from file name to contents. */
module TestRunner {
  import opened Wrappers
  import opened Strings
  import opened Types
  import opened Grading
  import opened Paths
  import opened Sorting

  /** A language's entry in the `languages` setting. */
  datatype LanguageProfile = LanguageProfile(compile: Option<String>, run: String)

  /** What `exec` of the compile command did: finished, with what it
      printed, or rejected (the command could not run or exited non-zero),
      with the rejection as `${error}` prints it. */
  datatype ExecOutcome = ExecDone(stdout: String, stderr: String) | ExecFailed(description: String)

  /** Why `runTests` throws instead of returning results. */
  datatype RunError =
    | UnsupportedExtension(ext: String)
    | MissingConfiguration(languageKey: String)
    | CompilationError(detail: String)
    | UnreadableDirectory
    | UnreadableFile(name: String)

  /** The extension-to-language table. */
  function LanguageKey(ext: String): Option<String> {
    if ext == "py" then Some("python") else if ext == "cpp" then Some("cpp") else None
  }

  /** The configured extension when one is given and non-empty, else the
      file's own. */
  function EffectiveExt(config: TestConfig): String {
    if config.fileExt.Some? && config.fileExt.value != [] then config.fileExt.value
    else ExtNoDot(config.filePath)
  }

  function Quote(s: String): String {
    "\"" + s + "\""
  }

  /** A command template with its placeholders filled in: the first
      `{file}` becomes the quoted path, then the first `{fileNoExt}` the
      quoted file name without directory and extension. */
  function Substitute(template: String, filePath: String): String {
    ReplaceFirst(ReplaceFirst(template, "{file}", Quote(filePath)), "{fileNoExt}", Quote(FileStem(filePath)))
  }

  /** The compile step: nothing to report when there is no compile command
      or it ran with an empty stderr. */
  function CompileStep(profile: LanguageProfile, filePath: String, exec: String -> ExecOutcome): Option<RunError> {
    match profile.compile
    case None => None
    case Some(template) =>
      if template == [] then None
      else match exec(Substitute(template, filePath))
        case ExecFailed(description) => Some(CompilationError(description))
        case ExecDone(_, stderr) => if stderr != [] then Some(CompilationError("Error: " + stderr)) else None
  }

  /** The digits at the start of `s`. */
  function DigitPrefix(s: String): (d: String)
    ensures AllDigits(d) && |d| <= |s| && d == s[..|d|]
  {
    if s != [] && IsDigit(s[0]) then [s[0]] + DigitPrefix(s[1..]) else []
  }

  /** The first run of digits in `s`, as `s.match(/\d+/)` finds it. */
  function FirstDigitRun(s: String): (r: Option<String>)
    ensures r.Some? ==> |r.value| >= 1 && AllDigits(r.value)
  {
    if s == [] then None
    else if IsDigit(s[0]) then Some(DigitPrefix(s))
    else FirstDigitRun(s[1..])
  }

  /** The test number of a fixture file: `parseInt` of its first digit run,
      or of `'0'` when it has none. */
  function TestNumberOf(name: String): nat {
    match FirstDigitRun(name)
    case None => 0
    case Some(digits) => DigitsValue(digits)
  }

  /** The names under which fixture `n` is stored. */
  function InputFileName(n: nat): String {
    "input_" + NatToString(n) + ".txt"
  }

  function OutputFileName(n: nat): String {
    "output_" + NatToString(n) + ".txt"
  }

  /** The listed names starting with `input_`, in listing order. */
  function InputNames(listing: seq<String>): (r: seq<String>)
    ensures forall i :: 0 <= i < |r| ==> StartsWith(r[i], "input_")
    ensures forall x :: x in r <==> x in listing && StartsWith(x, "input_")
  {
    if listing == [] then []
    else
      var last := listing[|listing| - 1];
      InputNames(listing[..|listing| - 1]) + if StartsWith(last, "input_") then [last] else []
  }

  /** The input files in the order they are run. */
  function InputFiles(listing: seq<String>): seq<String> {
    Sort(InputNames(listing))
  }

  /** Everything a fixture run needs besides the file name. */
  datatype Job = Job(filePath: String, runCommand: String, files: map<String, String>,
                     run: (String, String) -> ProcessOutcome)

  /** One fixture file: read it and its expected output, run, grade. */
  function RunFile(name: String, job: Job): Result<TestResult, RunError> {
    var testNumber := TestNumberOf(name);
    var outputFile := OutputFileName(testNumber);
    if name !in job.files then Failure(UnreadableFile(name))
    else if outputFile !in job.files then Failure(UnreadableFile(outputFile))
    else
      var input := job.files[name];
      Success(Grade(testNumber, input, job.files[outputFile],
                    job.run(Substitute(job.runCommand, job.filePath), input)))
  }

  /** The per-file step of a run over `job`. */
  function FileStep(job: Job): String -> Result<TestResult, RunError> {
    name => RunFile(name, job)
  }

  /** The fixture files in order, each through `step`; the first failure
      ends the run. */
  function RunFiles(names: seq<String>, step: String -> Result<TestResult, RunError>): Result<seq<TestResult>, RunError> {
    if names == [] then Success([])
    else match RunFiles(names[..|names| - 1], step)
      case Failure(e) => Failure(e)
      case Success(results) =>
        match step(names[|names| - 1])
        case Failure(e) => Failure(e)
        case Success(result) => Success(results + [result])
  }

  /** `runTests`: the results, or the error it throws. */
  function RunTestsSpec(config: TestConfig, languages: map<String, LanguageProfile>,
                        exec: String -> ExecOutcome, run: (String, String) -> ProcessOutcome,
                        listing: Option<seq<String>>, files: map<String, String>): Result<seq<TestResult>, RunError>
  {
    var ext := EffectiveExt(config);
    match LanguageKey(ext)
    case None => Failure(UnsupportedExtension(ext))
    case Some(key) =>
      if key !in languages then Failure(MissingConfiguration(key))
      else
        var profile := languages[key];
        match CompileStep(profile, config.filePath, exec)
        case Some(e) => Failure(e)
        case None =>
          match config.manualTest
          case Some(manual) =>
            var input := Join(manual.input, "\n");
            Success([Grade(1, input, manual.expectedOutput, run(Substitute(profile.run, config.filePath), input))])
          case None =>
            match listing
            case None => Failure(UnreadableDirectory)
            case Some(names) => RunFiles(InputFiles(names), FileStep(Job(config.filePath, profile.run, files, run)))
  }

  /** Once a prefix of the files has failed, the whole run fails the same
      way. */
  lemma {:induction false} FailurePersists(names: seq<String>, k: nat, step: String -> Result<TestResult, RunError>)
    requires k <= |names| && RunFiles(names[..k], step).Failure?
    ensures RunFiles(names, step) == RunFiles(names[..k], step)
    decreases |names| - k
  {
    if k < |names| {
      var next := names[..k + 1];
      assert next[..k] == names[..k];
      FailurePersists(names, k + 1, step);
    } else {
      assert names[..k] == names;
    }
  }

  /** The loop of `runTests` over the fixture files. */
  method RunTests(config: TestConfig, languages: map<String, LanguageProfile>,
                  exec: String -> ExecOutcome, run: (String, String) -> ProcessOutcome,
                  listing: Option<seq<String>>, files: map<String, String>)
    returns (r: Result<seq<TestResult>, RunError>)
    ensures r == RunTestsSpec(config, languages, exec, run, listing, files)
  {
    var fileExt := EffectiveExt(config);
    var languageKey := LanguageKey(fileExt);
    if languageKey.None? {
      return Failure(UnsupportedExtension(fileExt));
    }
    if languageKey.value !in languages {
      return Failure(MissingConfiguration(languageKey.value));
    }
    var languageConfig := languages[languageKey.value];
    var compileError := CompileStep(languageConfig, config.filePath, exec);
    if compileError.Some? {
      return Failure(compileError.value);
    }
    if config.manualTest.Some? {
      var input := Join(config.manualTest.value.input, "\n");
      var outcome := run(Substitute(languageConfig.run, config.filePath), input);
      var result := Grade(1, input, config.manualTest.value.expectedOutput, outcome);
      return Success([result]);
    }
    if listing.None? {
      return Failure(UnreadableDirectory);
    }
    var inputFiles := InputFiles(listing.value);
    ghost var step := FileStep(Job(config.filePath, languageConfig.run, files, run));
    var results := [];
    var k := 0;
    while k < |inputFiles|
      invariant 0 <= k <= |inputFiles|
      invariant RunFiles(inputFiles[..k], step) == Success(results)
    {
      var inputFile := inputFiles[k];
      assert inputFiles[..k + 1][..k] == inputFiles[..k];
      var testNumber := TestNumberOf(inputFile);
      var outputFile := OutputFileName(testNumber);
      if inputFile !in files {
        FailurePersists(inputFiles, k + 1, step);
        return Failure(UnreadableFile(inputFile));
      }
      var input := files[inputFile];
      if outputFile !in files {
        FailurePersists(inputFiles, k + 1, step);
        return Failure(UnreadableFile(outputFile));
      }
      var expectedOutput := files[outputFile];
      var outcome := run(Substitute(languageConfig.run, config.filePath), input);
      var result := Grade(testNumber, input, expectedOutput, outcome);
      results := results + [result];
      k := k + 1;
    }
    assert inputFiles[..k] == inputFiles;
    return Success(results);
  }

  /** Only `py` and `cpp` are accepted, and each needs a profile. */
  lemma LanguageGate(config: TestConfig, languages: map<String, LanguageProfile>,
                     exec: String -> ExecOutcome, run: (String, String) -> ProcessOutcome,
                     listing: Option<seq<String>>, files: map<String, String>)
    ensures LanguageKey(EffectiveExt(config)).Some? <==> EffectiveExt(config) in {"py", "cpp"}
    ensures var ext := EffectiveExt(config);
      var r := RunTestsSpec(config, languages, exec, run, listing, files);
      (ext !in {"py", "cpp"} ==> r == Failure(UnsupportedExtension(ext))) &&
      (ext == "py" && "python" !in languages ==> r == Failure(MissingConfiguration("python"))) &&
      (ext == "cpp" && "cpp" !in languages ==> r == Failure(MissingConfiguration("cpp")))
  {
  }

  /** The compiler runs only for a non-empty compile command: without one
      the outcome does not depend on `exec`. A compile step that fails or
      writes to stderr aborts the run before any test. */
  lemma CompileGate(config: TestConfig, languages: map<String, LanguageProfile>,
                    exec: String -> ExecOutcome, exec2: String -> ExecOutcome,
                    run: (String, String) -> ProcessOutcome,
                    listing: Option<seq<String>>, files: map<String, String>)
    requires LanguageKey(EffectiveExt(config)).Some?
    requires LanguageKey(EffectiveExt(config)).value in languages
    ensures var profile := languages[LanguageKey(EffectiveExt(config)).value];
      (profile.compile.None? || profile.compile == Some([]) ==>
        RunTestsSpec(config, languages, exec, run, listing, files) ==
        RunTestsSpec(config, languages, exec2, run, listing, files)) &&
      (CompileStep(profile, config.filePath, exec).Some? ==>
        RunTestsSpec(config, languages, exec, run, listing, files) ==
        Failure(CompileStep(profile, config.filePath, exec).value))
  {
  }

  /** A compile command that writes to stderr stops the run with that text. */
  lemma CompilerStderrAborts(profile: LanguageProfile, filePath: String, exec: String -> ExecOutcome)
    requires profile.compile.Some? && profile.compile.value != []
    requires exec(Substitute(profile.compile.value, filePath)).ExecDone?
    requires exec(Substitute(profile.compile.value, filePath)).stderr != []
    ensures CompileStep(profile, filePath, exec) ==
      Some(CompilationError("Error: " + exec(Substitute(profile.compile.value, filePath)).stderr))
  {
  }

  /** A manual test past the gates yields exactly one result, numbered 1,
      for the values joined by newlines; the stored fixtures are not read. */
  lemma ManualMode(config: TestConfig, languages: map<String, LanguageProfile>,
                   exec: String -> ExecOutcome, run: (String, String) -> ProcessOutcome,
                   listing: Option<seq<String>>, files: map<String, String>,
                   listing2: Option<seq<String>>, files2: map<String, String>)
    requires config.manualTest.Some?
    requires LanguageKey(EffectiveExt(config)).Some?
    requires LanguageKey(EffectiveExt(config)).value in languages
    requires CompileStep(languages[LanguageKey(EffectiveExt(config)).value], config.filePath, exec).None?
    ensures var r := RunTestsSpec(config, languages, exec, run, listing, files);
      var manual := config.manualTest.value;
      r == RunTestsSpec(config, languages, exec, run, listing2, files2) &&
      r.Success? && |r.value| == 1 && r.value[0].testNumber == 1 &&
      r.value[0].input == Trim(Join(manual.input, "\n")) &&
      r.value[0].expectedOutput == Trim(manual.expectedOutput) &&
      r == Success([Grade(1, Join(manual.input, "\n"), manual.expectedOutput,
        run(Substitute(languages[LanguageKey(EffectiveExt(config)).value].run, config.filePath),
            Join(manual.input, "\n")))])
  {
  }

  /** What one fixture file yields when it can be read. */
  lemma RunFileResult(name: String, job: Job)
    ensures RunFile(name, job).Success? <==>
      name in job.files && OutputFileName(TestNumberOf(name)) in job.files
    ensures RunFile(name, job).Success? ==>
      var n := TestNumberOf(name);
      var r := RunFile(name, job).value;
      r.testNumber == n && r.input == Trim(job.files[name]) &&
      r.expectedOutput == Trim(job.files[OutputFileName(n)]) &&
      r == Grade(n, job.files[name], job.files[OutputFileName(n)],
                 job.run(Substitute(job.runCommand, job.filePath), job.files[name]))
  {
    if RunFile(name, job).Success? {
      var n := TestNumberOf(name);
      GradeFields(n, job.files[name], job.files[OutputFileName(n)],
                  job.run(Substitute(job.runCommand, job.filePath), job.files[name]));
    }
  }

  predicate AllRun(names: seq<String>, step: String -> Result<TestResult, RunError>) {
    forall i :: 0 <= i < |names| ==> step(names[i]).Success?
  }

  /** All files run exactly when every one of them can be read. */
  lemma {:induction false} RunFilesAll(names: seq<String>, step: String -> Result<TestResult, RunError>)
    ensures RunFiles(names, step).Success? <==> AllRun(names, step)
    decreases |names|
  {
    if names != [] {
      var init := names[..|names| - 1];
      RunFilesAll(init, step);
      if !RunFiles(init, step).Success? {
        var i :| 0 <= i < |init| && !step(init[i]).Success?;
        assert names[i] == init[i];
      } else {
        assert forall i :: 0 <= i < |init| ==> init[i] == names[i];
      }
    }
  }

  /** A successful run has one result per file, in order. */
  lemma {:induction false} RunFilesResults(names: seq<String>, step: String -> Result<TestResult, RunError>)
    requires RunFiles(names, step).Success?
    ensures |RunFiles(names, step).value| == |names|
    ensures forall i :: 0 <= i < |names| ==> step(names[i]) == Success(RunFiles(names, step).value[i])
    decreases |names|
  {
    if names != [] {
      var init := names[..|names| - 1];
      RunFilesResults(init, step);
      var rs := RunFiles(init, step).value;
      var r := step(names[|names| - 1]).value;
      assert RunFiles(names, step).value == rs + [r];
      assert forall i :: 0 <= i < |init| ==> init[i] == names[i];
    }
  }

  /** A failed run reports the error of the first file that could not be
      read. */
  lemma {:induction false} RunFilesFirstFailure(names: seq<String>, step: String -> Result<TestResult, RunError>)
    requires RunFiles(names, step).Failure?
    ensures exists k :: 0 <= k < |names| && step(names[k]) == Failure(RunFiles(names, step).error) &&
                        AllRun(names[..k], step)
    decreases |names|
  {
    var init := names[..|names| - 1];
    if RunFiles(init, step).Failure? {
      RunFilesFirstFailure(init, step);
      var k :| 0 <= k < |init| && step(init[k]) == Failure(RunFiles(init, step).error) &&
        AllRun(init[..k], step);
      assert names[k] == init[k];
      assert names[..k] == init[..k];
    } else {
      RunFilesAll(init, step);
      var k := |names| - 1;
      assert names[..k] == init;
    }
  }

  /** The input files are every listed `input_` file, each once, in
      character order. */
  lemma InputFilesSpec(names: seq<String>)
    ensures Sorted(InputFiles(names))
    ensures multiset(InputFiles(names)) == multiset(InputNames(names))
    ensures forall x :: x in InputFiles(names) <==> x in names && StartsWith(x, "input_")
  {
    var inputFiles := InputFiles(names);
    SortSpec(InputNames(names));
    forall x ensures x in inputFiles <==> x in InputNames(names) {
      assert x in inputFiles <==> x in multiset(inputFiles);
      assert x in InputNames(names) <==> x in multiset(InputNames(names));
    }
  }

  /** Past the gates, with no manual test, the run is the run of the input
      files. */
  lemma FileModeRuns(config: TestConfig, languages: map<String, LanguageProfile>,
                     exec: String -> ExecOutcome, run: (String, String) -> ProcessOutcome,
                     names: seq<String>, files: map<String, String>)
    requires config.manualTest.None?
    requires LanguageKey(EffectiveExt(config)).Some?
    requires LanguageKey(EffectiveExt(config)).value in languages
    requires CompileStep(languages[LanguageKey(EffectiveExt(config)).value], config.filePath, exec).None?
    ensures RunTestsSpec(config, languages, exec, run, Some(names), files) ==
      RunFiles(InputFiles(names), FileStep(Job(config.filePath, languages[LanguageKey(EffectiveExt(config)).value].run, files, run)))
    ensures RunTestsSpec(config, languages, exec, run, None, files) == Failure(UnreadableDirectory)
  {
  }

  /** A result of the file step, numbered and filled from its files. */
  lemma FileStepResult(job: Job, name: String, r: TestResult)
    requires FileStep(job)(name) == Success(r)
    ensures var n := TestNumberOf(name);
      name in job.files && OutputFileName(n) in job.files &&
      r.testNumber == n && r.input == Trim(job.files[name]) &&
      r.expectedOutput == Trim(job.files[OutputFileName(n)]) &&
      r == Grade(n, job.files[name], job.files[OutputFileName(n)],
                 job.run(Substitute(job.runCommand, job.filePath), job.files[name]))
  {
    RunFileResult(name, job);
  }

  /** A successful run of fixture files, one graded result per file. */
  lemma FileRunResults(names: seq<String>, job: Job)
    requires RunFiles(names, FileStep(job)).Success?
    ensures var results := RunFiles(names, FileStep(job)).value;
      |results| == |names| &&
      forall i :: 0 <= i < |results| ==>
        var n := TestNumberOf(names[i]);
        names[i] in job.files && OutputFileName(n) in job.files &&
        results[i].testNumber == n &&
        results[i].input == Trim(job.files[names[i]]) &&
        results[i].expectedOutput == Trim(job.files[OutputFileName(n)]) &&
        results[i] == Grade(n, job.files[names[i]], job.files[OutputFileName(n)],
                            job.run(Substitute(job.runCommand, job.filePath), job.files[names[i]]))
  {
    RunFilesResults(names, FileStep(job));
    var results := RunFiles(names, FileStep(job)).value;
    forall i | 0 <= i < |results|
      ensures var n := TestNumberOf(names[i]);
        names[i] in job.files && OutputFileName(n) in job.files &&
        results[i].testNumber == n &&
        results[i].input == Trim(job.files[names[i]]) &&
        results[i].expectedOutput == Trim(job.files[OutputFileName(n)]) &&
        results[i] == Grade(n, job.files[names[i]], job.files[OutputFileName(n)],
                            job.run(Substitute(job.runCommand, job.filePath), job.files[names[i]]))
    {
      FileStepResult(job, names[i], results[i]);
    }
  }

  /** In file mode every `input_` file is run, in character order, each
      numbered by its first digit run and graded against the `output_` file
      of that number. */
  lemma FileMode(config: TestConfig, languages: map<String, LanguageProfile>,
                 exec: String -> ExecOutcome, run: (String, String) -> ProcessOutcome,
                 names: seq<String>, files: map<String, String>)
    requires config.manualTest.None?
    requires LanguageKey(EffectiveExt(config)).Some?
    requires LanguageKey(EffectiveExt(config)).value in languages
    requires CompileStep(languages[LanguageKey(EffectiveExt(config)).value], config.filePath, exec).None?
    requires RunTestsSpec(config, languages, exec, run, Some(names), files).Success?
    ensures var results := RunTestsSpec(config, languages, exec, run, Some(names), files).value;
      var inputFiles := InputFiles(names);
      |results| == |inputFiles| &&
      forall i :: 0 <= i < |results| ==>
        var n := TestNumberOf(inputFiles[i]);
        inputFiles[i] in files && OutputFileName(n) in files &&
        results[i].testNumber == n &&
        results[i].input == Trim(files[inputFiles[i]]) &&
        results[i].expectedOutput == Trim(files[OutputFileName(n)]) &&
        results[i] == Grade(n, files[inputFiles[i]], files[OutputFileName(n)],
          run(Substitute(languages[LanguageKey(EffectiveExt(config)).value].run, config.filePath),
              files[inputFiles[i]]))
  {
    var job := Job(config.filePath, languages[LanguageKey(EffectiveExt(config)).value].run, files, run);
    FileModeRuns(config, languages, exec, run, names, files);
    FileRunResults(InputFiles(names), job);
  }

  lemma {:induction false} SkipNonDigits(p: String, s: String)
    requires forall i :: 0 <= i < |p| ==> !IsDigit(p[i])
    ensures FirstDigitRun(p + s) == FirstDigitRun(s)
    decreases |p|
  {
    if p != [] {
      assert (p + s)[1..] == p[1..] + s;
      SkipNonDigits(p[1..], s);
    } else {
      assert p + s == s;
    }
  }

  lemma {:induction false} DigitPrefixOf(d: String, t: String)
    requires AllDigits(d) && (t == [] || !IsDigit(t[0]))
    ensures DigitPrefix(d + t) == d
    decreases |d|
  {
    if d != [] {
      assert (d + t)[1..] == d[1..] + t;
      DigitPrefixOf(d[1..], t);
    } else {
      assert d + t == t;
    }
  }

  /** The number read back from a fixture's file name is the number it was
      saved under, so fixture `n` is graded against `output_n.txt`. */
  lemma FileNameRoundTrip(n: nat)
    ensures TestNumberOf(InputFileName(n)) == n
    ensures OutputFileName(TestNumberOf(InputFileName(n))) == OutputFileName(n)
  {
    var digits := NatToString(n);
    var prefix: String := "input_";
    assert forall i :: 0 <= i < |prefix| ==> !IsDigit(prefix[i]);
    assert InputFileName(n) == prefix + (digits + ".txt");
    SkipNonDigits(prefix, digits + ".txt");
    DigitPrefixOf(digits, ".txt");
    assert (digits + ".txt")[0] == digits[0];
  }

  /** Text without `{` holds no placeholder. */
  lemma BraceFree(s: String, p: String)
    requires '{' !in s && p != [] && p[0] == '{'
    ensures !Contains(s, p)
  {
    forall j: nat ensures !OccursAt(s, p, j) {
      if j + |p| <= |s| {
        assert s[j..j + |p|][0] == s[j] != '{';
      }
    }
  }

  lemma BraceFreePrefix(a: String, p: String, b: String)
    requires '{' !in a && p != [] && p[0] == '{'
    ensures forall j: nat :: j < |a| ==> !OccursAt(a + p + b, p, j)
  {
    var s := a + p + b;
    forall j: nat | j < |a| ensures !OccursAt(s, p, j) {
      assert s[j..j + |p|][0] == a[j] != '{';
    }
  }

  lemma BraceFreeConcat(a: String, b: String, c: String)
    requires '{' !in a && '{' !in b && '{' !in c
    ensures '{' !in a + b + c
  {
  }

  /** With placeholder-free surroundings, `{file}` becomes the quoted
      path. */
  lemma SubstituteFile(a: String, b: String, filePath: String)
    requires '{' !in a && '{' !in b && '{' !in filePath
    ensures Substitute(a + "{file}" + b, filePath) == a + Quote(filePath) + b
  {
    BraceFreePrefix(a, "{file}", b);
    ReplaceFirstAt(a, "{file}", b, Quote(filePath));
    BraceFreeConcat(a, Quote(filePath), b);
    BraceFree(a + Quote(filePath) + b, "{fileNoExt}");
  }

  /** `{fileNoExt}` is not mistaken for `{file}`, and becomes the quoted
      file name without extension. */
  lemma SubstituteStem(a: String, c: String, filePath: String)
    requires '{' !in a && '{' !in c
    ensures Substitute(a + "{fileNoExt}" + c, filePath) == a + Quote(FileStem(filePath)) + c
  {
    StemIsNotFile(a, c);
    BraceFreePrefix(a, "{fileNoExt}", c);
    ReplaceFirstAt(a, "{fileNoExt}", c, Quote(FileStem(filePath)));
  }

  /** At the start of `{fileNoExt}`, `{file}` does not match: its sixth
      character is `N`, not `}`. */
  lemma StemNotFileHere(a: String, c: String)
    ensures !OccursAt(a + "{fileNoExt}" + c, "{file}", |a|)
  {
    var t := a + "{fileNoExt}" + c;
    assert t == a + ("{fileNoExt}" + c);
    assert t[|a| + 5] == ("{fileNoExt}" + c)[5] == 'N';
    assert t[|a|..|a| + 6][5] == t[|a| + 5];
  }

  /** A placeholder cannot start inside a tail without `{`. */
  lemma BraceFreeTail(x: String, y: String, p: String)
    requires '{' !in y && p != [] && p[0] == '{'
    ensures forall j: nat :: |x| <= j ==> !OccursAt(x + y, p, j)
  {
    var s := x + y;
    forall j: nat | |x| <= j ensures !OccursAt(s, p, j) {
      if j + |p| <= |s| {
        assert s[j..j + |p|][0] == y[j - |x|];
      }
    }
  }

  /** A placeholder longer than the tail after a `{`-free head cannot occur. */
  lemma ShortTail(x: String, y: String, p: String)
    requires '{' !in x && p != [] && p[0] == '{' && |y| < |p|
    ensures !Contains(x + y, p)
  {
    var s := x + y;
    forall j: nat ensures !OccursAt(s, p, j) {
      if j + |p| <= |s| {
        assert s[j..j + |p|][0] == x[j];
      }
    }
  }

  lemma StemLiteral()
    ensures "{fileNoExt}" == "{" + "fileNoExt}"
  {
    var y := "{" + "fileNoExt}";
    assert |y| == 11;
    forall i | 0 <= i < 11 ensures "{fileNoExt}"[i] == y[i] {
      if i < 1 { assert y[i] == '{'; } else { assert y[i] == "fileNoExt}"[i - 1]; }
    }
  }

  lemma StemIsNotFile(a: String, c: String)
    requires '{' !in a && '{' !in c
    ensures !Contains(a + "{fileNoExt}" + c, "{file}")
  {
    var t := a + "{fileNoExt}" + c;
    StemLiteral();
    assert t == (a + "{") + ("fileNoExt}" + c);
    StemNotFileHere(a, c);
    BraceFreeTail(a + "{", "fileNoExt}" + c, "{file}");
    forall j: nat ensures !OccursAt(t, "{file}", j) {
      if j < |a| {
        assert t[j..j + 6][0] == a[j];
      } else if j == |a| {
      } else {
        assert |a + "{"| <= j;
      }
    }
  }

  /** Both placeholders in order, as in a compile command that names the
      source and the executable. */
  lemma SubstituteBoth(a: String, b: String, c: String, filePath: String)
    requires '{' !in a && '{' !in b && '{' !in c && '{' !in filePath
    ensures Substitute(a + "{file}" + b + "{fileNoExt}" + c, filePath) ==
      a + Quote(filePath) + b + Quote(FileStem(filePath)) + c
  {
    var rest := b + "{fileNoExt}" + c;
    assert a + "{file}" + b + "{fileNoExt}" + c == a + "{file}" + rest;
    BraceFreePrefix(a, "{file}", rest);
    ReplaceFirstAt(a, "{file}", rest, Quote(filePath));
    var x := a + Quote(filePath) + b;
    BraceFreeConcat(a, Quote(filePath), b);
    assert a + Quote(filePath) + rest == x + "{fileNoExt}" + c;
    BraceFreePrefix(x, "{fileNoExt}", c);
    ReplaceFirstAt(x, "{fileNoExt}", c, Quote(FileStem(filePath)));
  }

  /** Only the first `{file}` is replaced; a second one stays in the
      command. */
  lemma RepeatedPlaceholder(filePath: String)
    requires '{' !in filePath
    ensures Substitute("{file} {file}", filePath) == Quote(filePath) + " {file}"
  {
    assert "{file} {file}" == [] + "{file}" + " {file}";
    ReplaceFirstAt([], "{file}", " {file}", Quote(filePath));
    var s := Quote(filePath) + " {file}";
    assert [] + Quote(filePath) + " {file}" == s;
    BraceFreeConcat("\"", filePath, "\"");
    ShortTail(Quote(filePath), " {file}", "{fileNoExt}");
  }

  /** A template without placeholders is used as it is. */
  lemma SubstituteNone(template: String, filePath: String)
    requires '{' !in template
    ensures Substitute(template, filePath) == template
  {
    BraceFree(template, "{file}");
    BraceFree(template, "{fileNoExt}");
  }
}
