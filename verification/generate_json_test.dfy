/** `generate_json_test.py`: the same labelled list, written only for the
    problem named "1549_A. Gregor and Cryptography" and keyed by its name. */
module JsonTest {
  import opened Wrappers
  import opened Problems
  import opened CodeEntries
  import Lookup

  datatype TestRecord = TestRecord(problemName: string, generatedSolutions: seq<CodeEntry>)

  function TestRecordOf(p: Problem, languageName: int -> string): TestRecord {
    TestRecord(p.name, LabelledCodes(p, languageName))
  }

  /** The loop over all problems; every problem with another name yields nothing. */
  function TestRecords(problems: seq<Problem>, languageName: int -> string): (r: seq<TestRecord>)
    ensures |r| <= |problems|
    ensures forall i :: 0 <= i < |r| ==> r[i].problemName == GregorAndCryptography
  {
    if problems == [] then []
    else Written(problems[0], languageName) + TestRecords(problems[1..], languageName)
  }

  /** What one iteration writes: the problem's record if it has the name, else nothing. */
  function Written(p: Problem, languageName: int -> string): seq<TestRecord> {
    if p.name == GregorAndCryptography then [TestRecordOf(p, languageName)] else []
  }

  /** Positions of the problems with the Gregor name, in increasing order:
      a reference for which problems the loop writes. */
  function MatchPositions(problems: seq<Problem>): (r: seq<nat>)
    ensures forall k :: 0 <= k < |r| ==> r[k] < |problems| && problems[r[k]].name == GregorAndCryptography
    ensures forall k, l :: 0 <= k < l < |r| ==> r[k] < r[l]
    ensures forall j :: 0 <= j < |problems| && problems[j].name == GregorAndCryptography ==> j in r
  {
    if problems == [] then []
    else
      var n := |problems| - 1;
      MatchPositions(problems[..n]) + (if problems[n].name == GregorAndCryptography then [n] else [])
  }

  /** The loop's output for a list with one more problem at the end. */
  lemma {:induction false} TestRecordsSnoc(problems: seq<Problem>, languageName: int -> string)
    requires problems != []
    ensures TestRecords(problems, languageName)
      == TestRecords(problems[..|problems| - 1], languageName) + Written(problems[|problems| - 1], languageName)
    decreases |problems|
  {
    var n := |problems| - 1;
    if n == 0 {
      assert problems[..n] == [];
      assert problems[1..] == [];
    } else {
      var tail := problems[1..];
      var init := problems[..n];
      TestRecordsSnoc(tail, languageName);
      assert tail[..|tail| - 1] == init[1..];
      assert tail[|tail| - 1] == problems[n];
      assert init[0] == problems[0];
      Regroup(Written(problems[0], languageName), TestRecords(init[1..], languageName), Written(problems[n], languageName));
    }
  }

  lemma Regroup<T>(a: seq<T>, b: seq<T>, c: seq<T>)
    ensures a + (b + c) == (a + b) + c
  {
  }

  /** Every problem with the name gets its own record, in input order, and no
      other problem gets one: record k is built from the k-th match. */
  lemma {:induction false} TestRecordsAllMatches(problems: seq<Problem>, languageName: int -> string)
    ensures var r := TestRecords(problems, languageName);
      var pos := MatchPositions(problems);
      |r| == |pos| && forall k :: 0 <= k < |r| ==> r[k] == TestRecordOf(problems[pos[k]], languageName)
    decreases |problems|
  {
    if problems != [] {
      var n := |problems| - 1;
      var init := problems[..n];
      TestRecordsSnoc(problems, languageName);
      TestRecordsAllMatches(init, languageName);
      var r, pos := TestRecords(problems, languageName), MatchPositions(problems);
      var r0, pos0 := TestRecords(init, languageName), MatchPositions(init);
      assert r == r0 + Written(problems[n], languageName);
      assert pos == pos0 + (if problems[n].name == GregorAndCryptography then [n] else []);
      forall k | 0 <= k < |r|
        ensures r[k] == TestRecordOf(problems[pos[k]], languageName)
      {
        if k < |r0| {
          assert r[k] == r0[k] && pos[k] == pos0[k];
          assert init[pos0[k]] == problems[pos0[k]];
        } else {
          assert r[k] == TestRecordOf(problems[n], languageName) && pos[k] == n;
        }
      }
    }
  }

  /** The script and the C++ lookup see the same problem: nothing is written
      exactly when the lookup reports NotFound, and otherwise the first record
      written is built from the problem the lookup returns. */
  lemma {:induction false} TestRecordsMatchLookup(problems: seq<Problem>, languageName: int -> string)
    ensures TestRecords(problems, languageName) == []
      <==> Lookup.FirstNamed(problems, GregorAndCryptography).None?
    ensures Lookup.FirstNamed(problems, GregorAndCryptography).Some? ==>
      TestRecords(problems, languageName)[0]
        == TestRecordOf(problems[Lookup.FirstNamed(problems, GregorAndCryptography).value], languageName)
    decreases |problems|
  {
    if problems != [] && problems[0].name != GregorAndCryptography {
      TestRecordsMatchLookup(problems[1..], languageName);
      var k := Lookup.FirstNamed(problems[1..], GregorAndCryptography);
      if k.Some? {
        assert Lookup.FirstNamed(problems, GregorAndCryptography) == Some(k.value + 1);
      }
    }
  }

  /** When the name occurs once, exactly one record is written, for that problem. */
  lemma {:induction false} TestRecordsUnique(problems: seq<Problem>, languageName: int -> string, k: nat)
    requires k < |problems| && problems[k].name == GregorAndCryptography
    requires forall j :: 0 <= j < |problems| && j != k ==> problems[j].name != GregorAndCryptography
    ensures TestRecords(problems, languageName) == [TestRecordOf(problems[k], languageName)]
    decreases |problems|
  {
    if k == 0 {
      NoneNamed(problems[1..], languageName);
    } else {
      TestRecordsUnique(problems[1..], languageName, k - 1);
    }
  }

  lemma {:induction false} NoneNamed(problems: seq<Problem>, languageName: int -> string)
    requires forall j :: 0 <= j < |problems| ==> problems[j].name != GregorAndCryptography
    ensures TestRecords(problems, languageName) == []
    decreases |problems|
  {
    if problems != [] {
      NoneNamed(problems[1..], languageName);
    }
  }
}
