# CodeContests evaluation driver — Dafny model

This project models the small deterministic core of the CodeContests
evaluation example and its dataset-conversion scripts:

- **Test battery** (`TestBattery`, `execution/solve_example.cc` and the
  verbatim copy in `execution/run_sample_eval.cc`): `GetInputs` and
  `GetOutputs` concatenate a problem's public, private and generated tests
  and force the result to exactly `max_size` entries with
  `std::vector::resize`, which truncates or pads with empty strings.
- **Result reporting** (`Report`): `ReportResults` turns the sandbox's
  `optional<bool>` per test into "did not run" / "passed" / "failed", in
  index order, after a banner that says "succeeded" exactly for
  `kSuccess`. Both printed variants are modelled as text, together with a
  parser for the printed test lines.
- **Problem lookup** (`Lookup`): `FindGregorAndCryptography` scans the
  dataset's records and returns the first one named
  "1549_A. Gregor and Cryptography", or a NotFound status.
- **Corpus records** (`CodeEntries`, `JsonSmall`, `JsonTest`, `JsonItems`):
  the three `generate_json*.py` scripts. Each one flattens a problem's
  `solutions` and `incorrect_solutions` into one labelled list, correct
  ones first.

Shared modules: `Problems` (the `ContestProblem` fields read by the code),
`Wrappers` (`Option`, `Result`) and `Text`. `Text` holds decimal rendering,
`', '.join`, line splitting, and a parser with a round-trip lemma for each.

Inputs that the driver and the scripts read from files or from libraries
become parameters. A dataset file is the sequence of its records. The protobuf
call `Language.Name(...).lower()` is the parameter
`languageName: int -> string`. A sandbox run is a `MultiTestResult` value.
A JSON line is the record it encodes.

`execution/run_sample_eval.cc:62-92` and `:104-114` repeat `GetInputs`,
`GetOutputs` and the test loop of `ReportResults` from
`execution/solve_example.cc` verbatim. Each operation is modelled once, and
rows citing either file hold for both.

## Model

| member | source | states |
|---|---|---|
| TestBattery.Resize | execution/solve_example.cc:141 | `resize(n)` yields exactly n elements: the first n of the input when it is long enough, otherwise all of it followed by the fill value |
| TestBattery.GetInputs | execution/solve_example.cc:129-143 | exactly `max_size` inputs; entry i is input i of public ++ private ++ generated while tests last, then empty strings; public tests take the lowest indices |
| TestBattery.GetOutputs | execution/solve_example.cc:145-159 | the same shape for expected outputs: exactly `max_size` entries, test order, empty-string padding, public tests first |
| TestBattery.GetBattery | execution/run_sample_eval.cc:62-92 | inputs and outputs have the same length, and entry i of both comes from the same test case (or both are padding) |
| Report.Classify | execution/run_sample_eval.cc:104-114 | absent → did not run, true → passed, false → failed; exactly one verdict per outcome, and the outcome can be read back from the verdict |
| Report.ReportTestLines | execution/solve_example.cc:171-181 | one line per test result, numbered 0..n-1 in order, each carrying the verdict of that test's recorded outcome and printing as the corresponding line of the report's test-line text |
| Report.CompilationLine | execution/solve_example.cc:162-166 | the banner reads "Compilation succeeded" iff the status is `kSuccess`, and "Compilation failed" otherwise |
| Report.TestLineRoundTrip | execution/solve_example.cc:173-179 | a printed "Test i …" line reads back as exactly the index and verdict that were printed |
| Report.SolveExampleBannerLine | execution/solve_example.cc:161-167 | the first line of the Gregor example's report is the compilation banner on its own |
| Report.SolveExampleEndsWithTests | execution/solve_example.cc:161-182 | when the compiler's stderr is empty or ends with a line break, the lines of the Gregor example's report end with exactly one line per test result, in order |
| Report.SampleEvalBannerGlued | execution/run_sample_eval.cc:94-115 | as written, with at least one test the first printed line is the banner fused with the first test line "Test 0 …" |
| Report.GluedLineUnreadable | execution/run_sample_eval.cc:95-99 | a banner with text run onto it is neither the banner nor a line that reads back as a test line |
| Report.SampleEvalOutputFixedLines | execution/run_sample_eval.cc:95-99 | with the banner terminated, the output splits into exactly the banner line followed by one line per test |
| Report.TestLinesReadBack | execution/run_sample_eval.cc:104-114 | printed test line k reads back as index k with the verdict of result k, for every k |
| Lookup.FirstNamed | execution/solve_example.cc:121-123 | the index returned holds the name and no earlier record does; nothing is returned iff no record has the name |
| Lookup.FindGregorAndCryptography | execution/solve_example.cc:116-127 | returns the first record named "1549_A. Gregor and Cryptography"; returns NotFound with the source's message iff no record has that name |
| CodeEntries.Entries | generate_json_small.py:19-22 | one entry per solution of a group, in order, with the code verbatim, its language name and the group's label |
| CodeEntries.EntriesRecoverTexts | generate_json_test.py:20-23 | a group's entries give back exactly the group's texts under its own label and nothing under the other |
| CodeEntries.LabelledCodesFaithful | generate_json_small.py:19-22 | the list has `len(solutions) + len(incorrect_solutions)` entries; an entry is labelled correct iff it comes from `solutions`; correct entries precede incorrect ones; splitting by label returns both groups' texts in order |
| JsonSmall.SmallRecords | generate_json_small.py:17-24 | exactly one record per input problem, in input order |
| JsonSmall.SmallRecordFaithful | generate_json_small.py:18-22 | rating and problem text are copied; the tag list can be recovered from the joined `tags`; the codes list is the full labelled list, correct entries first |
| JsonTest.MatchPositions | generate_json_test.py:17-18 | the positions, in increasing order, of exactly the problems named "1549_A. Gregor and Cryptography" |
| JsonTest.TestRecordsAllMatches | generate_json_test.py:17-25 | every problem with the name gets its own record, in input order, and no other problem gets one: record k is built from the k-th match |
| JsonTest.TestRecordsMatchLookup | generate_json_test.py:18-19 | nothing is written iff the C++ lookup finds no such problem; otherwise the first record is built from the problem the lookup returns |
| JsonTest.TestRecordsUnique | generate_json_test.py:17-25 | when exactly one problem has the name, the output is exactly that problem's record |
| JsonItems.NlRoundTrip | generate_json.py:20-23 | the `nl` header reads back as the rating, tags, language, label and statement it was built from; the fourth line is "CORRECT SOLUTION" exactly for correct solutions and "INCORRECT SOLUTION" otherwise |
| JsonItems.SolutionItems | generate_json.py:19-27 | one item per solution of a group, in order, with code verbatim and the group's `nl` header |
| JsonItems.ProblemItemsFaithful | generate_json.py:19-36 | item i of a problem is solution i or incorrect solution i − len(solutions), with its code verbatim and the `nl` header for its language and label; when the tags and language name print unambiguously, that header reads back with the right label |
| JsonItems.WriteSolutions | generate_json.py:28-36 | an inner loop appends one item per solution of the group and raises `count` by the group's size |
| JsonItems.WriteProblem | generate_json.py:19-36 | a problem's correct items are written before its incorrect items, and `count` rises by their total |
| JsonItems.AllItems | generate_json.py:18-36 | the items of all problems, problem after problem; their number is the sum of `len(solutions) + len(incorrect_solutions)` |
| JsonItems.GenerateJson | generate_json.py:15-39 | the final `count` equals the number of items written, which is the sum over problems of `len(solutions) + len(incorrect_solutions)` |
| Text.NatToDecimal | execution/solve_example.cc:174 | the test counter prints as a non-empty string of digits without a leading zero |
| Text.DecimalRoundTrip | execution/solve_example.cc:174 | the printed counter reads back as the counter |
| Text.IntRoundTrip | generate_json.py:20-21 | `str(cf_rating)` reads back as the rating, including negative ratings |
| Text.TagsRoundTrip | generate_json_small.py:18 | `', '.join(cf_tags)` can be split back into the tags when no tag is empty or contains ',' |

## Left out

- Sandboxed execution (`Py3TesterSandboxer::Test` with `num_threads = 4` and `stop_on_first_failure`) is an external service with its own concurrency. Only the shape of its result is modelled.
- `SolveGregorAndCryptography` and `main` in `execution/solve_example.cc` are left out. They only chain the lookup, the two battery calls with `max_size = 10`, three sandbox runs on fixed program texts, and the report, all of which is external service or data.
- `SolveProblem` and `main` in `execution/run_sample_eval.cc` are left out because they have no defined behaviour. They use `sample_solutions`, `inputs` and `outputs`, which are not declared in scope (lines 142-144), and they pass a `std::string` to `printf("%s")` (line 161).
- Reading riegeli record files, protobuf parsing, nlohmann JSON, `json.dumps`, file paths and writes, absl flag parsing and the final `print` of the count are I/O or foreign libraries.
- `execution/test_json_lib.cc` and `print_problem_data.py` only read and print fields.
- TestBattery.GetInputs: `max_size` is a C++ `int`. A negative value converts to a huge `size_t` in `resize` and throws; the model takes a natural number.
- TestBattery.GetOutputs: same restriction on `max_size` as `GetInputs`.
- Report.ReportTestLines: the counter `int i` would overflow past 2^31 − 1 tests; the model's counter is unbounded.
- Report.CompilationLine: program statuses other than `kSuccess` are not enumerated here. They are kept as a named "not succeeded" status, which is all the banner distinguishes.
- Report.SolveExampleEndsWithTests: holds only when the compiler's stderr is empty or ends with a line break. The source prints `stderr` and then "Test 0 …" with no separator, so an unterminated last stderr line runs into the first test line.
- Lookup.FindGregorAndCryptography: a read error that ends the record loop early is indistinguishable from reaching the end of the file. The model reads the whole record sequence.
- JsonItems.ProblemItemsFaithful: the header read-back holds only under the same condition as `NlRoundTrip`; position, code and header text hold for every problem.
- JsonItems.NlRoundTrip: the round trip holds only when every tag is non-empty and contains neither ',' nor a line break, and the language name has no line break. For other values the `nl` text is ambiguous.
- JsonSmall.SmallRecordFaithful: tag recovery needs tags that are non-empty and free of ','. `', '.join` of other tag lists cannot be split back uniquely.
- The `nl` header's first line literally reads "RATINHG: ", as the script spells it. The model keeps that spelling.

## Findings

| source | as written | input that shows it | evidently intended | confidence | as-written member | corrected member |
|---|---|---|---|---|---|---|
| execution/run_sample_eval.cc:95-103 | the banner is printed with no line break; the stdout/stderr lines that ended it are commented out | `kSuccess` with one passed test prints "Compilation succeededTest 0 passed." as one line | the banner on its own line, followed by one line per test | medium, not executed | Report.SampleEvalBannerGlued | Report.SampleEvalOutputFixedLines |
