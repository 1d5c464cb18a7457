/** The records shared by the test runner and the report (src/types.ts). */
module Types {
  import opened Wrappers
  import opened Strings

  /** The outcome of one test case. `error` is absent unless the program
      failed or could not be started. */
  datatype TestResult = TestResult(
    testNumber: nat,
    input: String,
    expectedOutput: String,
    actualOutput: String,
    passed: bool,
    executionTime: real,
    error: Option<String>)

  /** A test typed in by hand: the input values and the expected output. */
  datatype ManualTest = ManualTest(input: seq<String>, expectedOutput: String, language: Option<String>)

  /** What to run: the solution file, and either a manual test or the
      fixtures stored beside it; `fileExt` overrides the file's extension. */
  datatype TestConfig = TestConfig(filePath: String, manualTest: Option<ManualTest>, fileExt: Option<String>)
}
