/** The `ContestProblem` record as the C++ driver and the Python scripts read
    it: only the fields they touch. */
module Problems {

  /** One test: the text fed to the program and the text it must print. */
  datatype TestCase = TestCase(input: string, output: string)

  /** A stored solution: the protobuf `Language` enum value and the source text. */
  datatype Solution = Solution(language: int, solution: string)

  datatype Problem = Problem(
    name: string,
    description: string,
    cfRating: int,
    cfTags: seq<string>,
    publicTests: seq<TestCase>,
    privateTests: seq<TestCase>,
    generatedTests: seq<TestCase>,
    solutions: seq<Solution>,
    incorrectSolutions: seq<Solution>)

  /** The one problem both the C++ example and the test-set script look for. */
  const GregorAndCryptography: string := "1549_A. Gregor and Cryptography"
}
