/** The labelled solution list that `generate_json_small.py` writes as `codes`
    and `generate_json_test.py` writes as `generated_solutions`: every correct
    solution, then every incorrect one, each tagged with its label. */
module CodeEntries {
  import opened Problems

  /** One `{'code', 'language', 'is_correct'}` object. */
  datatype CodeEntry = CodeEntry(code: string, language: string, isCorrect: bool)

  /** The append loop over one solution group; `languageName` stands for
      `Language.Name(...).lower()`, which lives in the protobuf library. */
  function Entries(sols: seq<Solution>, languageName: int -> string, isCorrect: bool): (r: seq<CodeEntry>)
    ensures |r| == |sols|
    ensures forall i :: 0 <= i < |sols| ==> r[i].code == sols[i].solution && r[i].isCorrect == isCorrect
    ensures forall i :: 0 <= i < |sols| ==> r[i].language == languageName(sols[i].language)
  {
    if sols == [] then []
    else
      var last := sols[|sols| - 1];
      Entries(sols[..|sols| - 1], languageName, isCorrect) + [CodeEntry(last.solution, languageName(last.language), isCorrect)]
  }

  /** Both loops of the scripts: correct solutions first, then incorrect ones. */
  function LabelledCodes(p: Problem, languageName: int -> string): seq<CodeEntry> {
    Entries(p.solutions, languageName, true) + Entries(p.incorrectSolutions, languageName, false)
  }

  /** The source texts of a solution group, in order. */
  function Texts(sols: seq<Solution>): (r: seq<string>)
    ensures |r| == |sols|
  {
    seq(|sols|, i requires 0 <= i < |sols| => sols[i].solution)
  }

  /** Reads a list back: the codes carrying label `isCorrect`, in list order. */
  function CodesLabelled(codes: seq<CodeEntry>, isCorrect: bool): seq<string> {
    if codes == [] then []
    else (if codes[0].isCorrect == isCorrect then [codes[0].code] else []) + CodesLabelled(codes[1..], isCorrect)
  }

  lemma {:induction false} CodesLabelledAppend(a: seq<CodeEntry>, b: seq<CodeEntry>, isCorrect: bool)
    ensures CodesLabelled(a + b, isCorrect) == CodesLabelled(a, isCorrect) + CodesLabelled(b, isCorrect)
    decreases |a|
  {
    if a == [] {
      assert a + b == b;
    } else {
      var head := if a[0].isCorrect == isCorrect then [a[0].code] else [];
      assert (a + b)[0] == a[0];
      assert (a + b)[1..] == a[1..] + b;
      assert CodesLabelled(a + b, isCorrect) == head + CodesLabelled(a[1..] + b, isCorrect);
      CodesLabelledAppend(a[1..], b, isCorrect);
      assert CodesLabelled(a, isCorrect) == head + CodesLabelled(a[1..], isCorrect);
    }
  }

  /** A group's entries give back exactly its texts under its own label and nothing under the other. */
  lemma {:induction false} EntriesRecoverTexts(sols: seq<Solution>, languageName: int -> string, isCorrect: bool)
    ensures CodesLabelled(Entries(sols, languageName, isCorrect), isCorrect) == Texts(sols)
    ensures CodesLabelled(Entries(sols, languageName, isCorrect), !isCorrect) == []
    decreases |sols|
  {
    if sols != [] {
      var init := sols[..|sols| - 1];
      var last := sols[|sols| - 1];
      var e := CodeEntry(last.solution, languageName(last.language), isCorrect);
      EntriesRecoverTexts(init, languageName, isCorrect);
      CodesLabelledAppend(Entries(init, languageName, isCorrect), [e], isCorrect);
      CodesLabelledAppend(Entries(init, languageName, isCorrect), [e], !isCorrect);
      assert Texts(sols) == Texts(init) + [last.solution];
    }
  }

  /** The labelled list holds every solution once, correct ones first and in
      order, with the label telling the two groups apart: splitting the list
      by label gives back both groups' texts. */
  lemma LabelledCodesFaithful(p: Problem, languageName: int -> string)
    ensures var codes := LabelledCodes(p, languageName);
      |codes| == |p.solutions| + |p.incorrectSolutions|
      && (forall i :: 0 <= i < |codes| ==> (codes[i].isCorrect <==> i < |p.solutions|))
      && (forall i, j :: 0 <= i < j < |codes| && codes[j].isCorrect ==> codes[i].isCorrect)
      && CodesLabelled(codes, true) == Texts(p.solutions)
      && CodesLabelled(codes, false) == Texts(p.incorrectSolutions)
  {
    var good := Entries(p.solutions, languageName, true);
    var bad := Entries(p.incorrectSolutions, languageName, false);
    CodesLabelledAppend(good, bad, true);
    CodesLabelledAppend(good, bad, false);
    EntriesRecoverTexts(p.solutions, languageName, true);
    EntriesRecoverTexts(p.incorrectSolutions, languageName, false);
  }
}
