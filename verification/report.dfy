/** `ReportResults`: what the driver prints about one sandbox run. The
    sandbox itself is not modelled; only the shape of its result is: a
    compilation status with the compiler's stdout and stderr, and one
    optional boolean per test (absent when the test did not run). */
module Report {
  import opened Wrappers
  import Text

  /** Only `kSuccess` is told apart by the driver; every other status is kept by name. */
  datatype ProgramStatus = Succeeded | NotSucceeded(statusName: string)

  datatype CompilationResult = CompilationResult(programStatus: ProgramStatus, stdout: string, stderr: string)

  datatype TestResult = TestResult(passed: Option<bool>)

  datatype MultiTestResult = MultiTestResult(compilationResult: CompilationResult, testResults: seq<TestResult>)

  /** The three things the driver can say about a test. */
  datatype Verdict = DidNotRun | Passed | Failed

  /** What the sandbox must have recorded for a test to earn a verdict. */
  function Recorded(v: Verdict): Option<bool> {
    match v
    case DidNotRun => None
    case Passed => Some(true)
    case Failed => Some(false)
  }

  /** Absent means did not run; otherwise the recorded value decides. Exactly
      one verdict fits each outcome, and the outcome can be read back from it. */
  function Classify(passed: Option<bool>): (v: Verdict)
    ensures v == DidNotRun <==> passed.None?
    ensures v == Passed <==> passed == Some(true)
    ensures v == Failed <==> passed == Some(false)
    ensures Recorded(v) == passed
  {
    match passed
    case None => DidNotRun
    case Some(b) => if b then Passed else Failed
  }

  /** One printed test line: the running counter and the verdict. */
  datatype TestLine = TestLine(index: nat, verdict: Verdict)

  /** The loop over `test_results` with its counter `i`, in index order. */
  method ReportTestLines(results: seq<TestResult>) returns (lines: seq<TestLine>)
    ensures |lines| == |results|
    ensures forall k :: 0 <= k < |lines| ==> lines[k].index == k
    ensures forall k :: 0 <= k < |lines| ==> Recorded(lines[k].verdict) == results[k].passed
    ensures forall k :: 0 <= k < |lines| ==> TestLineText(lines[k]) == TestLinesFor(results)[k]
  {
    lines := [];
    var i := 0;
    while i < |results|
      invariant 0 <= i <= |results|
      invariant |lines| == i
      invariant forall k :: 0 <= k < i ==> lines[k] == TestLine(k, Classify(results[k].passed))
    {
      lines := lines + [TestLine(i, Classify(results[i].passed))];
      i := i + 1;
    }
  }

  /** The compilation banner: "succeeded" exactly for `kSuccess`. */
  function CompilationLine(status: ProgramStatus): (s: string)
    ensures s == "Compilation succeeded" <==> status.Succeeded?
    ensures s == "Compilation failed" <==> !status.Succeeded?
    ensures '\n' !in s
  {
    "Compilation " + (if status.Succeeded? then "succeeded" else "failed")
  }

  function VerdictText(v: Verdict): string {
    match v
    case DidNotRun => "did not run."
    case Passed => "passed."
    case Failed => "failed."
  }

  /** "Test <i> <verdict>." without its line break. */
  function TestLineText(l: TestLine): (s: string)
    ensures '\n' !in s
  {
    "Test " + Text.NatToDecimal(l.index) + " " + VerdictText(l.verdict)
  }

  function ParseVerdict(s: string): Option<Verdict> {
    if s == "did not run." then Some(DidNotRun)
    else if s == "passed." then Some(Passed)
    else if s == "failed." then Some(Failed)
    else None
  }

  /** Reads one printed test line back; anything else is not a test line. */
  function ParseTestLine(s: string): Option<TestLine> {
    if |s| < 5 || s[..5] != "Test " then None
    else
      var rest := s[5..];
      match Text.IndexOf(rest, ' ')
      case None => None
      case Some(k) =>
        if k == 0 || !Text.AllDigits(rest[..k]) then None
        else match ParseVerdict(rest[k + 1..])
          case None => None
          case Some(v) => Some(TestLine(Text.DecimalValue(rest[..k]), v))
  }

  /** Each verdict's wording reads back as that verdict. */
  lemma VerdictRoundTrip(v: Verdict)
    ensures ParseVerdict(VerdictText(v)) == Some(v)
  {
  }

  /** "Test ", a decimal number, a space and a verdict read back as that number and verdict. */
  lemma ParseTestLineOf(digits: string, w: string)
    requires |digits| > 0 && Text.AllDigits(digits) && ParseVerdict(w).Some?
    ensures ParseTestLine("Test " + (digits + [' '] + w)) == Some(TestLine(Text.DecimalValue(digits), ParseVerdict(w).value))
  {
    var rest := digits + [' '] + w;
    var s := "Test " + rest;
    Text.SliceAtSeam("Test ", rest);
    NumberThenWord(digits, w);
    ParseTestLineAt(s, |digits|);
  }

  /** After "Test ": the number ends at the first space and the verdict follows it. */
  lemma NumberThenWord(digits: string, w: string)
    requires Text.AllDigits(digits)
    ensures var rest := digits + [' '] + w;
      Text.IndexOf(rest, ' ') == Some(|digits|) && rest[..|digits|] == digits && rest[|digits| + 1..] == w
  {
    Text.SliceAtSeam(digits, [' '] + w);
    Text.SliceAtSeam(digits + [' '], w);
    Text.NotInDigits(digits, ' ');
    Text.IndexOfAfter(digits, ' ', w);
  }

  /** Unfolds `ParseTestLine` once the space after the number is located. */
  lemma ParseTestLineAt(s: string, k: nat)
    requires |s| >= 5 && s[..5] == "Test "
    requires Text.IndexOf(s[5..], ' ') == Some(k) && k > 0 && Text.AllDigits(s[5..][..k])
    requires ParseVerdict(s[5..][k + 1..]).Some?
    ensures ParseTestLine(s) == Some(TestLine(Text.DecimalValue(s[5..][..k]), ParseVerdict(s[5..][k + 1..]).value))
  {
  }

  /** Test lines are unambiguous: each one reads back as the index and verdict printed. */
  lemma TestLineRoundTrip(l: TestLine)
    ensures ParseTestLine(TestLineText(l)) == Some(l)
  {
    var digits, w := Text.NatToDecimal(l.index), VerdictText(l.verdict);
    VerdictRoundTrip(l.verdict);
    ParseTestLineOf(digits, w);
    Text.Regroup("Test ", digits, [' '], w);
    Text.DecimalRoundTrip(l.index);
  }

  /** The lines the test loop prints for a result list. */
  function TestLinesFor(results: seq<TestResult>): (ls: seq<string>)
    ensures |ls| == |results|
    ensures Text.NoNewlines(ls)
  {
    seq(|results|, k requires 0 <= k < |results| => TestLineText(TestLine(k, Classify(results[k].passed))))
  }

  /** Full text printed by `ReportResults` in the Gregor example: the banner,
      then the compiler's stdout and stderr under headings, then the test lines. */
  function SolveExampleOutput(r: MultiTestResult): string {
    CompilationLine(r.compilationResult.programStatus) + "\n"
      + (CompilerOutput(r.compilationResult) + Text.Unlines(TestLinesFor(r.testResults)))
  }

  /** The compiler's captured streams under their headings, as printed after the banner. */
  function CompilerOutput(c: CompilationResult): string {
    "The stdout output was:\n" + c.stdout + "\nThe stderr output was:\n" + c.stderr
  }

  /** The Gregor example's report opens with the banner on a line of its own. */
  lemma SolveExampleBannerLine(r: MultiTestResult)
    ensures Text.Lines(SolveExampleOutput(r))[0] == CompilationLine(r.compilationResult.programStatus)
  {
    var m := CompilerOutput(r.compilationResult);
    var t := Text.Unlines(TestLinesFor(r.testResults));
    Text.LinesCons(CompilationLine(r.compilationResult.programStatus), m + t);
  }

  /** When the compiler's stderr is empty or ends with a line break, the Gregor
      example's report ends with exactly the test lines, one per result. */
  lemma SolveExampleEndsWithTests(r: MultiTestResult)
    requires Text.WholeLines(r.compilationResult.stderr)
    ensures Text.EndsWith(Text.Lines(SolveExampleOutput(r)), TestLinesFor(r.testResults))
  {
    var c := r.compilationResult;
    var p := CompilationLine(c.programStatus) + "\n";
    var ls := TestLinesFor(r.testResults);
    CompilerOutputWhole(c);
    Text.WholeLinesAfter(CompilationLine(c.programStatus), "\n");
    Text.WholeLinesAfter(p, CompilerOutput(c));
    Text.Regroup3(p, CompilerOutput(c), Text.Unlines(ls));
    Text.LinesAppend(p + CompilerOutput(c), Text.Unlines(ls));
    Text.LinesUnlines(ls);
    Text.EndsWithAppend(Text.Lines(p + CompilerOutput(c)), ls);
  }

  /** The compiler block ends at a line break unless stderr's last line is unterminated. */
  lemma CompilerOutputWhole(c: CompilationResult)
    requires Text.WholeLines(c.stderr)
    ensures Text.WholeLines(CompilerOutput(c))
  {
    var heading := "\nThe stderr output was:\n";
    Text.WholeLinesAfter("The stdout output was:\n" + c.stdout, heading);
    Text.WholeLinesAfter("The stdout output was:\n" + c.stdout + heading, c.stderr);
  }

  /** Text printed by `ReportResults` in the sample evaluator, as written: the
      stdout/stderr block is commented out, and with it the only line break
      after the banner. */
  function SampleEvalOutput(r: MultiTestResult): string {
    CompilationLine(r.compilationResult.programStatus) + Text.Unlines(TestLinesFor(r.testResults))
  }

  /** As written, whenever any test is reported the banner and the first test
      line come out as one line. */
  lemma SampleEvalBannerGlued(r: MultiTestResult)
    requires |r.testResults| > 0
    ensures Text.Lines(SampleEvalOutput(r))[0]
      == CompilationLine(r.compilationResult.programStatus) + TestLinesFor(r.testResults)[0]
  {
    var ls := TestLinesFor(r.testResults);
    Text.GluedFirstLine(CompilationLine(r.compilationResult.programStatus), ls[0], Text.Unlines(ls[1..]));
  }

  /** The banner with anything run onto it is neither the banner nor a test line. */
  lemma GluedLineUnreadable(status: ProgramStatus, t: string)
    requires |t| > 0
    ensures CompilationLine(status) + t != CompilationLine(status)
    ensures ParseTestLine(CompilationLine(status) + t).None?
  {
    var g := CompilationLine(status) + t;
    assert g[..5] == CompilationLine(status)[..5] == "Compi";
  }

  /** The same printout with the banner terminated. */
  function SampleEvalOutputFixed(r: MultiTestResult): string {
    CompilationLine(r.compilationResult.programStatus) + "\n" + Text.Unlines(TestLinesFor(r.testResults))
  }

  /** With the banner terminated, the printout is the banner line followed by
      one line per test. */
  lemma SampleEvalOutputFixedLines(r: MultiTestResult)
    ensures Text.Lines(SampleEvalOutputFixed(r))
      == [CompilationLine(r.compilationResult.programStatus)] + TestLinesFor(r.testResults)
  {
    var banner := CompilationLine(r.compilationResult.programStatus);
    var ls := TestLinesFor(r.testResults);
    assert SampleEvalOutputFixed(r) == Text.Unlines([banner] + ls);
    assert Text.NoNewlines([banner] + ls);
    Text.LinesUnlines([banner] + ls);
  }

  /** Test line k reads back as index k with the verdict of result k. */
  lemma TestLinesReadBack(results: seq<TestResult>)
    ensures forall k :: 0 <= k < |results| ==>
      ParseTestLine(TestLinesFor(results)[k]) == Some(TestLine(k, Classify(results[k].passed)))
  {
    forall k | 0 <= k < |results|
      ensures ParseTestLine(TestLinesFor(results)[k]) == Some(TestLine(k, Classify(results[k].passed)))
    {
      TestLineRoundTrip(TestLine(k, Classify(results[k].passed)));
    }
  }
}
