/** `generate_json.py`: one JSON line per solution, pairing its code with a
    natural-language header built from the problem, and a running count of
    the lines written. The header literally begins "RATINHG: ", as the
    script spells it. The JSON text itself is not modelled. */
module JsonItems {
  import opened Wrappers
  import opened Problems
  import Text

  /** One `{'code', 'nl'}` object. */
  datatype Item = Item(code: string, nl: string)

  function LabelLine(isCorrect: bool): string {
    if isCorrect then "CORRECT SOLUTION" else "INCORRECT SOLUTION"
  }

  /** The `nl` text: rating, tags, language and label lines, then the statement. */
  function Nl(p: Problem, language: string, isCorrect: bool): string {
    Text.Unlines(HeaderLines(p, language, isCorrect)) + p.description
  }

  function HeaderLines(p: Problem, language: string, isCorrect: bool): seq<string> {
    [RatingLine(p), TagsLine(p), LanguageLine(language), LabelLine(isCorrect)]
  }

  function RatingLine(p: Problem): string {
    "RATINHG: " + Text.IntToDecimal(p.cfRating)
  }

  function TagsLine(p: Problem): string {
    "TAGS: " + Text.JoinTags(p.cfTags)
  }

  function LanguageLine(language: string): string {
    "LANGUAGE IS " + language
  }

  /** The fields an `nl` text carries. */
  datatype NlFields = NlFields(rating: int, tags: seq<string>, language: string, isCorrect: bool, description: string)

  /** Reads an `nl` text back: four header lines, then the statement verbatim. */
  function ParseNl(s: string): Option<NlFields> {
    match Text.SplitLines(s, 4)
    case None => None
    case Some((ls, description)) => ParseHeader(ls[0], ls[1], ls[2], ls[3], description)
  }

  /** Reads the four header lines once they are cut apart. */
  function ParseHeader(l1: string, l2: string, l3: string, l4: string, description: string): Option<NlFields> {
    if |l1| >= 9 && l1[..9] == "RATINHG: " && Text.ParseInt(l1[9..]).Some?
      && |l2| >= 6 && l2[..6] == "TAGS: "
      && |l3| >= 12 && l3[..12] == "LANGUAGE IS "
      && (l4 == LabelLine(true) || l4 == LabelLine(false))
    then Some(NlFields(Text.ParseInt(l1[9..]).value, Text.SplitTags(l2[6..]), l3[12..], l4 == LabelLine(true), description))
    else None
  }

  /** No tag of the list holds a line break. */
  predicate OneLineTags(tags: seq<string>) {
    tags == [] || ('\n' !in tags[0] && OneLineTags(tags[1..]))
  }

  /** Tags and language names that fit on one header line and survive joining. */
  predicate HeaderSafe(p: Problem, language: string) {
    Text.PlainTags(p.cfTags) && OneLineTags(p.cfTags) && '\n' !in language
  }

  lemma {:induction false} JoinTagsOneLine(tags: seq<string>)
    requires OneLineTags(tags)
    ensures '\n' !in Text.JoinTags(tags)
    decreases |tags|
  {
    if |tags| > 1 {
      JoinTagsOneLine(tags[1..]);
    }
  }

  lemma DecimalOneLine(i: int)
    ensures '\n' !in Text.IntToDecimal(i)
  {
    var s := Text.IntToDecimal(i);
    forall j | 0 <= j < |s| ensures s[j] != '\n' {
      if i >= 0 {
        assert Text.IsDigit(s[j]);
      } else if j > 0 {
        assert s[j] == Text.NatToDecimal(-i)[j - 1];
        assert Text.IsDigit(s[j]);
      }
    }
  }

  /** The `nl` header is unambiguous: it reads back as the problem's rating,
      tags and statement, the solution's language, and the label it was
      written with. In particular the fourth line is "CORRECT SOLUTION"
      exactly for correct solutions. */
  lemma NlRoundTrip(p: Problem, language: string, isCorrect: bool)
    requires HeaderSafe(p, language)
    ensures ParseNl(Nl(p, language, isCorrect))
      == Some(NlFields(p.cfRating, p.cfTags, language, isCorrect, p.description))
  {
    DecimalOneLine(p.cfRating);
    JoinTagsOneLine(p.cfTags);
    var header := HeaderLines(p, language, isCorrect);
    assert Text.NoNewlines(header);
    Text.SplitLinesUnlines(header, p.description);
    HeaderRoundTrip(p, language, isCorrect);
  }

  lemma HeaderRoundTrip(p: Problem, language: string, isCorrect: bool)
    requires HeaderSafe(p, language)
    ensures ParseHeader(RatingLine(p), TagsLine(p), LanguageLine(language), LabelLine(isCorrect), p.description)
      == Some(NlFields(p.cfRating, p.cfTags, language, isCorrect, p.description))
  {
    var l1, l2, l3 := RatingLine(p), TagsLine(p), LanguageLine(language);
    assert l1[..9] == "RATINHG: " && l1[9..] == Text.IntToDecimal(p.cfRating);
    assert l2[..6] == "TAGS: " && l2[6..] == Text.JoinTags(p.cfTags);
    assert l3[..12] == "LANGUAGE IS " && l3[12..] == language;
    Text.IntRoundTrip(p.cfRating);
    Text.TagsRoundTrip(p.cfTags);
  }

  /** One solution group's loop: an item per solution, in order. */
  function SolutionItems(p: Problem, sols: seq<Solution>, languageName: int -> string, isCorrect: bool): (r: seq<Item>)
    ensures |r| == |sols|
    ensures forall i :: 0 <= i < |sols| ==>
      r[i] == Item(sols[i].solution, Nl(p, languageName(sols[i].language), isCorrect))
  {
    if sols == [] then []
    else
      var last := sols[|sols| - 1];
      SolutionItems(p, sols[..|sols| - 1], languageName, isCorrect)
        + [Item(last.solution, Nl(p, languageName(last.language), isCorrect))]
  }

  /** All items of one problem: its correct solutions, then its incorrect ones. */
  function ProblemItems(p: Problem, languageName: int -> string): seq<Item> {
    SolutionItems(p, p.solutions, languageName, true)
      + SolutionItems(p, p.incorrectSolutions, languageName, false)
  }

  /** Solutions of every kind over a list of problems. */
  function SolutionCount(problems: seq<Problem>): nat {
    if problems == [] then 0
    else
      var last := problems[|problems| - 1];
      SolutionCount(problems[..|problems| - 1]) + |last.solutions| + |last.incorrectSolutions|
  }

  /** The items of every problem, problem after problem. */
  function AllItems(problems: seq<Problem>, languageName: int -> string): (r: seq<Item>)
    ensures |r| == SolutionCount(problems)
  {
    if problems == [] then []
    else
      var last := problems[|problems| - 1];
      AllItems(problems[..|problems| - 1], languageName) + ProblemItems(last, languageName)
  }

  /** One inner loop: writes an item per solution of a group and bumps the count for each. */
  method WriteSolutions(p: Problem, sols: seq<Solution>, languageName: int -> string, isCorrect: bool,
                        items: seq<Item>, count: nat)
    returns (items': seq<Item>, count': nat)
    ensures items' == items + SolutionItems(p, sols, languageName, isCorrect)
    ensures count' == count + |sols|
  {
    items', count' := items, count;
    for j := 0 to |sols|
      invariant items' == items + SolutionItems(p, sols[..j], languageName, isCorrect)
      invariant count' == count + j
    {
      assert sols[..j + 1][..j] == sols[..j];
      items' := items' + [Item(sols[j].solution, Nl(p, languageName(sols[j].language), isCorrect))];
      count' := count' + 1;
    }
    assert sols[..|sols|] == sols;
  }

  /** The body of the outer loop: a problem's correct solutions, then its incorrect ones. */
  method WriteProblem(p: Problem, languageName: int -> string, items: seq<Item>, count: nat)
    returns (items': seq<Item>, count': nat)
    ensures items' == items + ProblemItems(p, languageName)
    ensures count' == count + |p.solutions| + |p.incorrectSolutions|
  {
    var good := SolutionItems(p, p.solutions, languageName, true);
    var bad := SolutionItems(p, p.incorrectSolutions, languageName, false);
    items', count' := WriteSolutions(p, p.solutions, languageName, true, items, count);
    items', count' := WriteSolutions(p, p.incorrectSolutions, languageName, false, items', count');
    assert items' == (items + good) + bad;
    assert (items + good) + bad == items + (good + bad);
  }

  /** The script's outer loop: every problem's solutions, then its incorrect
      solutions; `count` ends as the number of items written. */
  method GenerateJson(problems: seq<Problem>, languageName: int -> string) returns (items: seq<Item>, count: nat)
    ensures count == |items| == SolutionCount(problems)
    ensures items == AllItems(problems, languageName)
  {
    items, count := [], 0;
    for k := 0 to |problems|
      invariant count == |items|
      invariant items == AllItems(problems[..k], languageName)
    {
      items, count := WriteProblem(problems[k], languageName, items, count);
      AllItemsStep(problems, languageName, k);
    }
    assert problems[..|problems|] == problems;
  }

  lemma AllItemsStep(problems: seq<Problem>, languageName: int -> string, k: nat)
    requires k < |problems|
    ensures AllItems(problems[..k + 1], languageName)
      == AllItems(problems[..k], languageName) + ProblemItems(problems[k], languageName)
  {
    assert problems[..k + 1][..k] == problems[..k];
  }

  /** Item i of a problem is solution i, or incorrect solution i - |solutions|,
      with its code verbatim and the header for its language and label; when
      the header fields are printable unambiguously, the header reads back as them. */
  lemma ProblemItemsFaithful(p: Problem, languageName: int -> string, i: nat)
    requires i < |p.solutions| + |p.incorrectSolutions|
    ensures |ProblemItems(p, languageName)| == |p.solutions| + |p.incorrectSolutions|
    ensures ProblemItems(p, languageName)[i]
      == Item(SolutionAt(p, i).solution, Nl(p, languageName(SolutionAt(p, i).language), i < |p.solutions|))
    ensures HeaderSafe(p, languageName(SolutionAt(p, i).language)) ==>
      ParseNl(ProblemItems(p, languageName)[i].nl)
        == Some(NlFields(p.cfRating, p.cfTags, languageName(SolutionAt(p, i).language), i < |p.solutions|, p.description))
  {
    var good := SolutionItems(p, p.solutions, languageName, true);
    var bad := SolutionItems(p, p.incorrectSolutions, languageName, false);
    var sol := SolutionAt(p, i);
    if i < |p.solutions| {
      assert ProblemItems(p, languageName)[i] == good[i];
    } else {
      assert ProblemItems(p, languageName)[i] == bad[i - |p.solutions|];
    }
    assert ProblemItems(p, languageName)[i] == Item(sol.solution, Nl(p, languageName(sol.language), i < |p.solutions|));
    if HeaderSafe(p, languageName(sol.language)) {
      NlRoundTrip(p, languageName(sol.language), i < |p.solutions|);
    }
  }

  /** Position i in the problem's items: a correct solution, then the incorrect ones. */
  function SolutionAt(p: Problem, i: nat): Solution
    requires i < |p.solutions| + |p.incorrectSolutions|
  {
    if i < |p.solutions| then p.solutions[i] else p.incorrectSolutions[i - |p.solutions|]
  }
}
