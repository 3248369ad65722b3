/** `generate_json_small.py`: one JSON line per problem holding its labelled
    solutions, its rating, its joined tags and its statement. The JSON text
    itself (`json.dumps`) is not modelled; a line is the record it encodes. */
module JsonSmall {
  import opened Problems
  import opened CodeEntries
  import Text

  datatype SmallRecord = SmallRecord(codes: seq<CodeEntry>, rating: int, tags: string, problem: string)

  /** The dictionary built for one problem. */
  function SmallRecordOf(p: Problem, languageName: int -> string): SmallRecord {
    SmallRecord(LabelledCodes(p, languageName), p.cfRating, Text.JoinTags(p.cfTags), p.description)
  }

  /** The loop over all problems: one record each, in input order. */
  function SmallRecords(problems: seq<Problem>, languageName: int -> string): (r: seq<SmallRecord>)
    ensures |r| == |problems|
    ensures forall i :: 0 <= i < |problems| ==> r[i] == SmallRecordOf(problems[i], languageName)
  {
    if problems == [] then []
    else
      var last := problems[|problems| - 1];
      SmallRecords(problems[..|problems| - 1], languageName) + [SmallRecordOf(last, languageName)]
  }

  /** What a record tells about its problem: rating and statement copied, the
      tag list recoverable from the joined tags, and the codes list holding
      every solution once with its label, correct ones first. */
  lemma SmallRecordFaithful(p: Problem, languageName: int -> string)
    requires Text.PlainTags(p.cfTags)
    ensures var r := SmallRecordOf(p, languageName);
      r.rating == p.cfRating && r.problem == p.description
      && Text.SplitTags(r.tags) == p.cfTags
      && |r.codes| == |p.solutions| + |p.incorrectSolutions|
      && CodesLabelled(r.codes, true) == Texts(p.solutions)
      && CodesLabelled(r.codes, false) == Texts(p.incorrectSolutions)
      && (forall i, j :: 0 <= i < j < |r.codes| && r.codes[j].isCorrect ==> r.codes[i].isCorrect)
  {
    Text.TagsRoundTrip(p.cfTags);
    LabelledCodesFaithful(p, languageName);
  }
}
