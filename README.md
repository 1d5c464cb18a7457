# CPH LeetCode helper: a verified model of its text logic

This project models the core of a VS Code extension that fetches LeetCode
problems and runs solutions against their example test cases. The model
covers four parts:

- **Fixture extraction** (`src/fetchTestCases.ts`). This covers the
  value splitter `processInput` and `extractValue`. It also covers the
  line-by-line state machine over every `<pre>` block, the span rule of
  the `example-block` layout, and the order in which fixtures are
  collected. The input-type classifier `detectInputTypes` is included too.
- **The test runner** (`src/testRunner.ts`). `normalizeOutput` is the
  output canonicaliser. `runSingleTest` decides how a finished process
  becomes a `TestResult`. Command templates get their placeholders filled
  in. `runTests` chooses the language and compiles, then runs either a
  manual test or every stored `input_*` fixture in file-name order.
- **The report** (`formatTestResults` in `src/extension.ts`). It has a
  pass-count summary and one Markdown section per result.
- **The command checks** (`src/extension.ts`). The manual-test command
  maps the extension to a language and splits the typed input at commas.
  The run-tests command checks the name of the problem directory.

The page, the file system, child processes, the clock and VS Code are
replaced by plain values:

- the text of each `<pre>` block, and each example block's spans with
  their enclosing paragraph;
- the directory listing and a map from file name to contents;
- the compiler as a function from command to `ExecOutcome`;
- each solution run as a function from command and stdin to
  `ProcessOutcome`;
- `toFixed(2)` as a function from time to text.

The loops of the source are methods, each proved equal to a recursive
specification function:

- `ProcessInput`
- `ScanPreBlock`, which keeps the three flags
- `ScanExampleBlock`
- `ExtractTestCases`
- `DetectInputTypes`
- `RunTests`
- `FormatTestResults`, with `AppendSection` as its `forEach` callback

The lemmas state what the code promises about those functions.

Modules, one file each:

| Module | What it holds |
|---|---|
| `Wrappers` | `Option` and `Result` |
| `Strings` | JavaScript's `trim`, `split`, `join`, `indexOf`, `includes`, `replace` with a string pattern, ASCII `toLowerCase` and number printing |
| `Paths` | `path.basename`, `dirname`, `extname` and `parse().name` with Windows separators |
| `Sorting` | `Array.prototype.sort` on strings |
| `Types` | the records of `src/types.ts` |
| `Splitter` | the value splitter |
| `Extraction` | the fixture extraction |
| `TypeInference` | the input-type classifier |
| `Grading` | the output canonicaliser and the result of one run |
| `TestRunner` | the test runner |
| `Report` | the report |
| `Commands` | the command checks |

## Model

| member | source | states |
|---|---|---|
| Splitter.ExtractValue | src/fetchTestCases.ts:498-502 | the value is trimmed; without `=` it is the trimmed line |
| Splitter.ExtractValueNamed | src/fetchTestCases.ts:498-502 | `name = value` with no `=` in the name gives the trimmed value, later `=` signs included |
| Splitter.ProcessInput | src/fetchTestCases.ts:504-531 | the loop with bracket counter, quote toggle and current value returns exactly `SplitValues(input)`: the cleaned pieces between separating commas |
| Splitter.CleanConcat | src/fetchTestCases.ts:516-528 | the values of pieces `a + b` are those of `a` followed by those of `b`, and one piece gives its `extractValue` if it is not blank after trimming and nothing if it is |
| Splitter.RunConcat | src/fetchTestCases.ts:510-524 | scanning `x` then `y` is scanning `x + y` |
| Splitter.SegmentsJoin | src/fetchTestCases.ts:510-524 | joining the raw pieces with commas gives back the input: no character is lost or added |
| Splitter.PiecesCount | src/fetchTestCases.ts:516-520 | one piece is completed per separating comma |
| Splitter.SplitValuesBound | src/fetchTestCases.ts:516-529 | there are separator count + 1 raw pieces, at most that many values, and every value is trimmed |
| Splitter.NoSeparatorOnePiece | src/fetchTestCases.ts:516-523 | text with no separating comma is one piece |
| Splitter.SplitAtTopLevelComma | src/fetchTestCases.ts:512-520 | a comma after balanced text (no open bracket, quote toggle off) splits it: the pieces of `a,b` are those of `a` then those of `b` |
| Splitter.RunPlain | src/fetchTestCases.ts:511-523 | text with no comma, bracket or quote only extends the current piece |
| Splitter.PlainNested | src/fetchTestCases.ts:511-523 | plain text extends the current piece from any state with no surplus closing bracket |
| Splitter.ReadGroup | src/fetchTestCases.ts:512-516 | a bracketed pair `[p,q]` of nested parts is read into the current piece: its comma does not separate |
| Splitter.GroupNested | src/fetchTestCases.ts:512-516 | a bracketed pair of nested parts is itself nested |
| Splitter.PairsOnePiece | src/fetchTestCases.ts:512-516 | `name[[a,b],[c,d]]` with plain parts is one balanced piece |
| Splitter.FlatListNested | src/fetchTestCases.ts:512-516 | a flat list `[w]` with no bracket or quote inside is read into the current piece from any state: its commas do not separate |
| Splitter.FlatListValue | src/fetchTestCases.ts:504-531 | plain text followed by a flat list is one value, the `extractValue` of the whole text |
| Splitter.NamedFlatList | src/fetchTestCases.ts:498-531 | `name = [w]` and `[w]` both give the single value `[w]` |
| Splitter.NestedListExample | src/fetchTestCases.ts:504-531 | `nums = [[1,2],[3,4]], target = 7` yields exactly `["[[1,2],[3,4]]", "7"]` |
| Extraction.PreStep | src/fetchTestCases.ts:545-581 | one line of a `<pre>` block: blank lines are skipped, `explanation:` stops the block, then `input:` before `output:` switches section, and other lines extend the active one (its properties are the lemmas below) |
| Extraction.ScanPreBlock | src/fetchTestCases.ts:536-590 | the loop over the lines of a `<pre>` text with the three flags ends with the inputs and outputs of the state machine `PreRun` over those lines |
| Extraction.PreRunConcat | src/fetchTestCases.ts:545-581 | reading lines `a` then `b` is reading `a + b` |
| Extraction.StepSection | src/fetchTestCases.ts:549-558 | a line ends in the explanation exactly when the scan was already there or the line holds `explanation:` in any case |
| Extraction.ExplanationAbsorbs | src/fetchTestCases.ts:556-558 | once in the explanation, no line changes the state, marker lines included |
| Extraction.ExplanationFreezes | src/fetchTestCases.ts:549-558 | after the first `explanation:` line the block keeps the inputs and outputs read before it |
| Extraction.ExplainedIff | src/fetchTestCases.ts:549-553 | the scan ends in the explanation if and only if some line holds `explanation:` |
| Extraction.BlankLineIgnored | src/fetchTestCases.ts:546-547 | a line that is blank after trimming can be dropped anywhere in a block |
| Extraction.InputMarker | src/fetchTestCases.ts:560-566 | before any explanation, an `input:` line enters the input section and keeps the outputs, even when it also holds `output:`. The inputs become the split remainder, or stay unchanged when nothing follows the marker |
| Extraction.OutputMarker | src/fetchTestCases.ts:567-573 | an `output:` line without `input:` enters the output section and keeps the inputs. The outputs become the split remainder, or stay unchanged when nothing follows the marker |
| Extraction.ContinuationStep | src/fetchTestCases.ts:574-580 | a blank or marker-free line adds its split values to the active section |
| Extraction.ContinuationLines | src/fetchTestCases.ts:574-580 | marker-free lines append their values, in order, to the active section, and change nothing when no section is active |
| Extraction.MarkerPair | src/fetchTestCases.ts:545-581 | an `input:` line then an `output:` line, each with text after its marker, give the fixture of the values after each marker |
| Extraction.LabelledBlock | src/fetchTestCases.ts:536-589 | the block `Input: v` then `Output: w` gives the fixture of the split values of `v` and `w` |
| Extraction.LabelledBlockExample | src/fetchTestCases.ts:536-589 | `Input: nums = [1,2,3]` then `Output: [1,2,3]` gives exactly one fixture with input `[1,2,3]` and output `[1,2,3]` |
| Extraction.SpanValue | src/fetchTestCases.ts:608 | the value of an input span: the trimmed text between the first and second `=`, or the trimmed text when it has no `=` |
| Extraction.Role | src/fetchTestCases.ts:601-613 | a span is skipped without an enclosing paragraph; otherwise the paragraph's `input:`, then `output:`, decides whether it gives an input or an output |
| Extraction.ScanExampleBlock | src/fetchTestCases.ts:599-614 | the span loop returns the inputs and outputs of `ScanSpans`, the per-span rule applied in order |
| Extraction.SpanValueBetweenEquals | src/fetchTestCases.ts:608 | an input span's value is the trimmed text between the first and second `=`, where `extractValue` keeps everything after the first |
| Extraction.ScanSpansConcat | src/fetchTestCases.ts:600-614 | the spans `a + b` give the values of `a` followed by those of `b` |
| Extraction.OrphanSpanSkipped | src/fetchTestCases.ts:602-603 | a span with no enclosing paragraph contributes nothing, wherever it is |
| Extraction.ScanSpansShape | src/fetchTestCases.ts:600-613 | each span gives at most one value and every value is trimmed |
| Extraction.ExtractTestCases | src/fetchTestCases.ts:534-623 | the two loops return the fixtures of all `<pre>` blocks, then those of all example blocks, each in page order (`TestCases`) |
| Extraction.HarvestConcat | src/fetchTestCases.ts:535-590 | the fixtures of blocks `x + y` are those of `x` followed by those of `y` |
| Extraction.HarvestFrom | src/fetchTestCases.ts:583-589 | every fixture collected comes from one of the blocks, and there are at most as many fixtures as blocks |
| Extraction.FixtureWellFormed | src/fetchTestCases.ts:583-589 | a block yields a fixture if and only if it has both inputs and outputs, and the fixture has empty input types |
| Extraction.FixturesWellFormed | src/fetchTestCases.ts:583-589 | every fixture has inputs, outputs and empty types, and no block yields more than one |
| Extraction.TestCasesOrder | src/fetchTestCases.ts:534-623 | every `<pre>` fixture precedes every example-block fixture, and each group follows page order |
| TypeInference.DetectInputTypes | src/fetchTestCases.ts:358-382 | the loop returns one type per input, in order, each the `InputType` of that input |
| TypeInference.InputType | src/fetchTestCases.ts:361-378 | the type of one input by the first matching rule: list shapes, quoted text, a number, then `string` (characterised by `InputTypeRules`) |
| TypeInference.IsNumeric | src/fetchTestCases.ts:374 | the texts `Number()` reads as a number: optional white space around a signed decimal with fraction and exponent, a hex, octal or binary literal, `Infinity`, or blank |
| TypeInference.InputTypeRules | src/fetchTestCases.ts:361-378 | each of the five types is given exactly when its rule is the first that matches, in both directions |
| TypeInference.NestedListTyped | src/fetchTestCases.ts:362-364 | `[[1,2],[3,4]]` is `vector<vector<int>>` |
| TypeInference.IntListTyped | src/fetchTestCases.ts:368-369 | `[1,2,3]` is `vector<int>` |
| TypeInference.OtherListsTyped | src/fetchTestCases.ts:366-369 | a list with a quote is `vector<string>`; `[]` is `vector<int>` |
| TypeInference.DigitsAreNumeric | src/fetchTestCases.ts:374 | a run of digits is a number |
| TypeInference.SignedFractionIsNumeric | src/fetchTestCases.ts:374 | a signed decimal fraction is a number |
| TypeInference.ExponentIsNumeric | src/fetchTestCases.ts:374 | digits with an exponent are a number |
| TypeInference.ScalarExamples | src/fetchTestCases.ts:372-373 | quoted text is `string`, even when it quotes digits |
| TypeInference.NumberExamples | src/fetchTestCases.ts:374-375 | `42` and the empty input are `int` |
| TypeInference.FractionExample | src/fetchTestCases.ts:374-375 | `-3.5` is `int` |
| TypeInference.ExponentExample | src/fetchTestCases.ts:374-375 | `1e5` is `int` |
| TypeInference.WordExample | src/fetchTestCases.ts:376-377 | a word is `string` |
| Grading.StripConcat | src/testRunner.ts:193 | deleting brackets and white space distributes over concatenation |
| Grading.StripTrim | src/testRunner.ts:190 | trimming first makes no difference once white space is deleted |
| Grading.StripJoinCrLf | src/testRunner.ts:191 | turning CR LF into LF makes no difference once white space is deleted |
| Grading.StripCollapse | src/testRunner.ts:192 | collapsing white-space runs makes no difference once white space is deleted |
| Grading.StripClean | src/testRunner.ts:193 | what remains holds no bracket and no white space, and text without them is unchanged |
| Grading.NormalizeOutput | src/testRunner.ts:188-195 | `normalizeOutput` as its chain of `trim`, CR LF to LF, collapsing white space, deleting brackets and white space, and lower-casing (characterised by `NormalizeIsStrip`) |
| Grading.NormalizeIsStrip | src/testRunner.ts:188-195 | `normalizeOutput` is the lower case of the text with every bracket and white-space character deleted |
| Grading.LowerCanonical | src/testRunner.ts:194 | lower-casing keeps text free of brackets and white space and is idempotent |
| Grading.NormalizeCanonical | src/testRunner.ts:188-195 | the normal form holds no bracket and no white space, and normalising is idempotent |
| Grading.NormalizeExamples | src/testRunner.ts:188-195 | `[1,2,3]` and `[1, 2, 3]` both normalise to `1,2,3` |
| Grading.Grade | src/testRunner.ts:150-185 | the `TestResult` of one finished, or thrown, process run (characterised by `GradePassedIff` and `GradeFields`) |
| Grading.GradePassedIff | src/testRunner.ts:150-171 | a test passes if and only if the process exited with code 0 and both texts are equal once brackets, white space and case are ignored |
| Grading.GradeFields | src/testRunner.ts:150-185 | every result carries its number and the trimmed input and expected output. A non-zero exit records no output and stderr as the error. A throw records its message and time 0. A clean exit records the trimmed raw stdout and no error |
| Grading.StripCrLfList | src/testRunner.ts:190-193 | a CR LF ending is deleted like other white space |
| Grading.GradeExample | src/testRunner.ts:160-169 | output `[1, 2, 3]` with CR LF passes against `[1,2,3]` |
| TestRunner.LanguageKey | src/testRunner.ts:22-31 | `py` maps to `python`, `cpp` to `cpp`, anything else to no key |
| TestRunner.EffectiveExt | src/testRunner.ts:20 | the configured extension when one is given and non-empty, else the file's extension without its dot |
| TestRunner.Substitute | src/testRunner.ts:51-53 | the first `{file}` becomes the quoted path, then the first `{fileNoExt}` the quoted stem (see the `Substitute…` lemmas) |
| TestRunner.CompileStep | src/testRunner.ts:49-62 | no step without a non-empty compile command; a failed command, or one writing to stderr, gives a compilation error |
| TestRunner.TestNumberOf | src/testRunner.ts:83 | the number of the first digit run of a file name, 0 when it has none (see `FileNameRoundTrip`) |
| TestRunner.RunTestsSpec | src/testRunner.ts:12-107 | `runTests`: the language gate, the compile step, then manual mode or the sorted fixture files (characterised by the gate and mode lemmas) |
| TestRunner.RunTests | src/testRunner.ts:12-107 | the method returns exactly `RunTestsSpec`: the results, or the error `runTests` throws |
| TestRunner.FailurePersists | src/testRunner.ts:82-101 | once a prefix of the files fails, the whole run fails with that error |
| TestRunner.LanguageGate | src/testRunner.ts:20-40 | only `py` and `cpp` have a language key. Any other extension is refused with it, and a key with no profile is refused |
| TestRunner.CompileGate | src/testRunner.ts:49-62 | without a non-empty compile command the compiler is never consulted. A failing compile step is the result of the whole run |
| TestRunner.CompilerStderrAborts | src/testRunner.ts:55-60 | a compile command that writes to stderr aborts with that text |
| TestRunner.ManualMode | src/testRunner.ts:65-75 | a manual test gives exactly one result, numbered 1: the grade of running the substituted run command on the values joined by newlines against the typed expected output. The stored fixtures are not read |
| TestRunner.InputNames | src/testRunner.ts:80 | the kept names are exactly the listed names starting with `input_` |
| TestRunner.InputFilesSpec | src/testRunner.ts:80 | the input files are sorted and a permutation of the listed `input_` names |
| TestRunner.RunFileResult | src/testRunner.ts:83-95 | a file runs if and only if it and the `output_` file of its number can be read. The result is the grade, under that number, of running the substituted run command on the file's text against the `output_` file's text |
| TestRunner.RunFilesAll | src/testRunner.ts:82-101 | a run succeeds if and only if every file can be read |
| TestRunner.RunFilesResults | src/testRunner.ts:82-97 | a successful run has one result per file, in order |
| TestRunner.RunFilesFirstFailure | src/testRunner.ts:86-101 | a failed run reports the error of the first file that could not be read |
| TestRunner.FileModeRuns | src/testRunner.ts:78-101 | with no manual test the run is the run of the sorted input files. An unreadable directory is an error |
| TestRunner.FileRunResults | src/testRunner.ts:82-97 | result `i` of a file run is the grade of running the substituted command on file `i`, numbered from its name, against the `output_` file of that number |
| TestRunner.FileMode | src/testRunner.ts:78-101 | a successful file-mode run has one result per `input_` file in sorted order, each the grade of running the profile's run command on that file against its `output_` file |
| TestRunner.DigitPrefix | src/testRunner.ts:83 | the leading digits of a name are digits and a prefix of it |
| TestRunner.FirstDigitRun | src/testRunner.ts:83 | a digit run found by `/\d+/` is non-empty and all digits |
| TestRunner.FileNameRoundTrip | src/fetchTestCases.ts:415-422 | the number read back from `input_<n>.txt` is `n`, so fixture `n` is graded against `output_<n>.txt` |
| TestRunner.SubstituteFile | src/testRunner.ts:51-53 | `{file}` becomes the quoted full path |
| TestRunner.StemIsNotFile | src/testRunner.ts:51-53 | `{fileNoExt}` does not hold `{file}` |
| TestRunner.SubstituteStem | src/testRunner.ts:51-53 | `{fileNoExt}` becomes the quoted file name without directory and extension |
| TestRunner.SubstituteBoth | src/testRunner.ts:51-53 | both placeholders in order are each filled in |
| TestRunner.RepeatedPlaceholder | src/testRunner.ts:122-124 | only the first `{file}` is replaced; a second one stays |
| TestRunner.SubstituteNone | src/testRunner.ts:122-124 | a template without placeholders is used as it is |
| Sorting.LeTotal | src/testRunner.ts:80 | any two names are ordered one way or the other |
| Sorting.InsertSorted | src/testRunner.ts:80 | inserting into a sorted list keeps it sorted |
| Sorting.SortSpec | src/testRunner.ts:80 | `sort()` returns a sorted permutation of its input |
| Sorting.TenBeforeTwo | src/testRunner.ts:80 | `input_10.txt` sorts before `input_2.txt` |
| Paths.PathParts | src/testRunner.ts:20 | for `dir\stem.ext` these are recovered: base name, directory, extension with and without its dot, and stem |
| Paths.JoinedParts | src/extension.ts:146 | the base name and directory of `dir\name` are `name` and `dir` |
| Paths.DottedParts | src/extension.ts:89 | the extension of `stem.ext` is `.ext` |
| Strings.TrimSplits | src/fetchTestCases.ts:546 | trimming removes only white space from both ends |
| Strings.TrimIdempotent | src/fetchTestCases.ts:546 | trimming twice is trimming once |
| Strings.TrimEmptyIffAllSpace | src/fetchTestCases.ts:547 | a line trims to nothing if and only if it is all white space |
| Strings.SplitJoin | src/extension.ts:110 | splitting comma-free pieces joined by commas gives them back |
| Strings.JoinSplit | src/fetchTestCases.ts:537 | joining the pieces of a split gives back the text |
| Strings.IndexOf | src/fetchTestCases.ts:563 | `indexOf` finds the first occurrence, or reports none when there is none |
| Strings.ReplaceFirstAt | src/testRunner.ts:51-53 | `replace` with a string pattern replaces only the first occurrence |
| Strings.NatToString | src/testRunner.ts:84 | a number prints as digits without a leading zero that read back as the number |
| Commands.ManualInputs | src/extension.ts:110 | one trimmed piece per comma plus one |
| Commands.ManualInputsNoComma | src/extension.ts:110 | no piece holds a comma, brackets notwithstanding |
| Commands.ManualInputsRoundTrip | src/extension.ts:110 | trimmed comma-free values joined by commas come back as typed |
| Commands.ManualListExample | src/extension.ts:110 | `[1,2,3]` is cut into three pieces |
| Commands.LanguageName | src/extension.ts:89-95 | `.cpp` is `C++`, `.py` is `Python`, any other extension has no language (see `LanguagesAgree`) |
| Commands.ManualTestRequest | src/extension.ts:89-118 | the manual-test command: refuse an unsupported file, cancel on an empty answer, else submit the configuration (see `ManualRequestShape`) |
| Commands.IsSlug | src/extension.ts:148 | a match of `^[a-z0-9-]+$` |
| Commands.RunTestsRequest | src/extension.ts:139-167 | the run-tests command: no configuration outside a problem directory, else the file with its own extension (see `ProblemDirectoryCheck`) |
| Commands.ExtNameDot | src/extension.ts:89 | an extension is empty or its dot followed by the extension `runTests` uses |
| Commands.LanguagesAgree | src/extension.ts:89-95 | `.cpp` maps to `C++` and `.py` to `Python`; the command accepts exactly these two, the files the runner has a language key for |
| Commands.ManualRequestShape | src/extension.ts:89-118 | an unsupported file is refused and an empty answer cancels. Otherwise the runner gets the file, the trimmed comma pieces, the expected output and the language label of the extension, and no extension of its own |
| Commands.ProblemDirectoryCheck | src/extension.ts:144-151 | for `root\slug\file`, the tests run if and only if the directory name matches `^[a-z0-9-]+$` |
| Commands.RunRequestExtension | src/extension.ts:144-167 | the run-tests command hands the runner no manual test and the file's own extension |
| Commands.SlugExamples | src/extension.ts:148 | `two-sum` and `3sum` pass; `Two Sum`, the empty name and `two_sum` do not |
| Report.Header | src/extension.ts:190-195 | the title and the `passed/total` summary line |
| Report.Blocks | src/extension.ts:198-212 | the blocks of one result's section, in the order the source appends them |
| Report.Report | src/extension.ts:189-215 | `formatTestResults`: the header, then every result's section (see `FormatTestResults` and the section lemmas) |
| Report.AppendHead | src/extension.ts:198-203 | the title, status, time, input and expected-output blocks are appended |
| Report.AppendSection | src/extension.ts:197-213 | one callback call appends the rendered blocks of that result's section |
| Report.FormatTestResults | src/extension.ts:189-215 | the loop builds the header, then every section in result order (`Report`) |
| Report.RenderConcat | src/extension.ts:197-213 | the text of two block lists is the two texts one after the other |
| Report.PassedCountBounds | src/extension.ts:192-195 | the pass count is at most the total. It equals the total if and only if all passed, and is 0 if and only if none passed |
| Report.PassedCountConcat | src/extension.ts:193 | the pass count of two runs together is the sum of their counts |
| Report.ReportBlocksConcat | src/extension.ts:197-213 | the sections of two runs' results are those of the first, then those of the second |
| Report.SectionShape | src/extension.ts:198-212 | a section opens with its title, ends with `---` and holds no other title |
| Report.OneSectionPerResult | src/extension.ts:197-213 | the section titles are exactly the results' test numbers, in order |
| Report.ActualShownIffFailed | src/extension.ts:205-206 | the Actual Output block appears only for a failed result and always for one, showing `N/A` for empty output |
| Report.ErrorShownIff | src/extension.ts:207-209 | the Error block appears if and only if the result failed with a non-empty error, and shows that error |
| Report.FailedSectionExample | src/extension.ts:205-209 | a failed result without output shows `N/A`, then its error, then the rule |
| Report.SummaryExample | src/extension.ts:195 | one passed test out of two reads `1/2` |

## Left out

- The browser is not modelled: Puppeteer navigation, selectors, `page.evaluate`, and reading the problem and function names from the page (src/fetchTestCases.ts:460-490). The `<pre>` texts and example-block spans are inputs.
- The file system is not modelled. This covers `ensureDirectoryExists`, the writes of `saveTestCases` and the `.cph` file, and `readdir`/`readFile`. The listing and a file-name-to-contents map are inputs. Only the naming of saved fixtures is modelled (`InputFileName`, `OutputFileName`). A read that fails becomes `UnreadableDirectory` or `UnreadableFile`.
- Child processes are not modelled: `exec`, `spawn` of `powershell.exe`, stdin writes and the `data`/`close` stream callbacks. A finished run is given as its exit code, stdout, stderr and elapsed time. A throw from `spawn` is a `Threw` outcome. Errors raised asynchronously after start are not modelled.
- `process.hrtime` and `toFixed(2)` are not modelled. The elapsed time is a `real` input, and `toFixed(2)` is a function parameter of the report.
- White space and case are ASCII only. White space is space, tab, LF, CR, VT and FF, and lower-casing maps only `A`-`Z`. JavaScript's Unicode white space and case mapping are not modelled. `Sorting.Le` compares Unicode scalar values, while JavaScript's `sort()` compares UTF-16 code units: names with characters above U+FFFF can sort differently against characters in U+E000 to U+FFFF.
- `Number(input)` is modelled as a syntax predicate: decimal with sign, fraction and exponent; hex, octal and binary; `Infinity`; the empty string. Its floating-point value, and therefore overflow to `Infinity` for huge literals, is not computed.
- `TestRunner.TestNumberOf`: `parseInt` is modelled as the exact value of the digits. The precision loss of very long digit runs is not modelled.
- `String.prototype.replace` special `$` patterns in the replacement are not modelled. File paths containing `$&` or `$1` would be expanded by JavaScript.
- `path` functions follow the Windows separators `\` and `/` only. Drive letters, UNC roots and the rule for names starting with dots beyond `.` and `..` are not modelled. `Paths.DirName` differs from Node's `dirname` on a doubled separator (`a\\b` gives `a` where Node gives `a\`) and on a bare root (`\a` gives the empty string where Node gives `\`); the problem-directory check is unaffected, because `BaseName` drops trailing separators.
- `languageMap[fileExt]` also finds inherited object keys such as `constructor`. The model treats the map as holding only `py` and `cpp`.
- `TestResult.testNumber` is a `nat`: a parsed number is never negative.
- `manualTest.language` is stored but, as in the source, never read by the runner.
- The error texts are not modelled: the `Test runner error:` wrapper and the messages shown by the commands. Errors are datatype values.
- The C++ and Python solution templates (src/fetchTestCases.ts:21-356) and `generateCppTemplate`/`generatePythonTemplate` are not modelled.
- VS Code is not modelled: command registration, the active editor and `document.save`, input boxes, progress notifications, configuration defaults and document display. The settings' `languages` object is a map input.
- Grading.NormalizeExamples: states two of the three sample spellings. The third, `" [ 1 , 2 , 3 ] "`, follows from the general lemma `NormalizeIsStrip` but is not stated as a literal example.
- Report.SummaryExample: states the summary line against the named constants of the header rather than as one literal string.
