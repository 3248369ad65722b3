/** `FindGregorAndCryptography`: a linear scan over the records of a dataset
    file that stops at the first problem with the wanted name. Reading the
    riegeli file is not modelled; the file is the sequence of its records. */
module Lookup {
  import opened Wrappers
  import opened Problems

  /** The error statuses the lookup can return; only NotFound occurs here. */
  datatype Status = NotFound(message: string)

  const NotFoundMessage: string :=
    "Gregor and Cryptography problem not found. Did you pass the validation dataset?"

  /** Index of the first record called `name`, as a reference for the scan. */
  function FirstNamed(records: seq<Problem>, name: string): (r: Option<nat>)
    ensures r.Some? ==> r.value < |records| && records[r.value].name == name
    ensures r.Some? ==> forall j :: 0 <= j < r.value ==> records[j].name != name
    ensures r.None? <==> forall j :: 0 <= j < |records| ==> records[j].name != name
  {
    if |records| == 0 then None
    else if records[0].name == name then Some(0)
    else match FirstNamed(records[1..], name)
      case None => None
      case Some(k) => Some(k + 1)
  }

  /** The first match is unique: an index holding the name with none before it is the one found. */
  lemma FirstNamedAt(records: seq<Problem>, name: string, i: nat)
    requires i < |records| && records[i].name == name
    requires forall j :: 0 <= j < i ==> records[j].name != name
    ensures FirstNamed(records, name) == Some(i)
  {
    var f := FirstNamed(records, name);
    assert f.Some?;
    assert !(f.value < i);
    assert !(f.value > i);
  }

  /** The record loop: return the first problem with the Gregor name, or NotFound. */
  method FindGregorAndCryptography(records: seq<Problem>) returns (r: Result<Problem, Status>)
    ensures r.Failure? <==> FirstNamed(records, GregorAndCryptography).None?
    ensures r.Failure? ==> r.error == NotFound(NotFoundMessage)
    ensures r.Success? ==> (FirstNamed(records, GregorAndCryptography).Some?
                            && r.value == records[FirstNamed(records, GregorAndCryptography).value])
  {
    var i := 0;
    while i < |records|
      invariant 0 <= i <= |records|
      invariant forall j :: 0 <= j < i ==> records[j].name != GregorAndCryptography
    {
      if records[i].name == GregorAndCryptography {
        FirstNamedAt(records, GregorAndCryptography, i);
        return Success(records[i]);
      }
      i := i + 1;
    }
    return Failure(NotFound(NotFoundMessage));
  }
}
