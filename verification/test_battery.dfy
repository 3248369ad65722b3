/** `GetInputs` and `GetOutputs`: the test battery handed to the sandbox. Both
    concatenate public, private and generated tests and then force the vector
    to exactly `max_size` entries with `std::vector::resize`, which drops the
    excess or pads with empty strings. */
module TestBattery {
  import opened Problems

  /** Every test of a problem in battery order: public, then private, then generated. */
  function AllTests(p: Problem): seq<TestCase> {
    p.publicTests + p.privateTests + p.generatedTests
  }

  /** `std::vector::resize(n)`: the first n elements, or all of them followed by `fill`. */
  function Resize<T>(s: seq<T>, n: nat, fill: T): (r: seq<T>)
    ensures |r| == n
    ensures forall i :: 0 <= i < n && i < |s| ==> r[i] == s[i]
    ensures forall i :: |s| <= i < n ==> r[i] == fill
  {
    if n <= |s| then s[..n] else s + seq(n - |s|, _ => fill)
  }

  /** The vector of test inputs, built test group by test group. */
  method GetInputs(p: Problem, maxSize: nat) returns (inputs: seq<string>)
    ensures |inputs| == maxSize
    ensures forall i :: 0 <= i < maxSize && i < |AllTests(p)| ==> inputs[i] == AllTests(p)[i].input
    ensures forall i :: |AllTests(p)| <= i < maxSize ==> inputs[i] == ""
    ensures forall i :: 0 <= i < maxSize && i < |p.publicTests| ==> inputs[i] == p.publicTests[i].input
  {
    var all := [];
    for k := 0 to |p.publicTests|
      invariant |all| == k
      invariant forall i :: 0 <= i < k ==> all[i] == p.publicTests[i].input
    {
      all := all + [p.publicTests[k].input];
    }
    for k := 0 to |p.privateTests|
      invariant |all| == |p.publicTests| + k
      invariant forall i :: 0 <= i < |all| ==> all[i] == AllTests(p)[i].input
    {
      all := all + [p.privateTests[k].input];
    }
    for k := 0 to |p.generatedTests|
      invariant |all| == |p.publicTests| + |p.privateTests| + k
      invariant forall i :: 0 <= i < |all| ==> all[i] == AllTests(p)[i].input
    {
      all := all + [p.generatedTests[k].input];
    }
    inputs := Resize(all, maxSize, "");
  }

  /** The vector of expected outputs, built exactly as `GetInputs` builds the inputs. */
  method GetOutputs(p: Problem, maxSize: nat) returns (outputs: seq<string>)
    ensures |outputs| == maxSize
    ensures forall i :: 0 <= i < maxSize && i < |AllTests(p)| ==> outputs[i] == AllTests(p)[i].output
    ensures forall i :: |AllTests(p)| <= i < maxSize ==> outputs[i] == ""
    ensures forall i :: 0 <= i < maxSize && i < |p.publicTests| ==> outputs[i] == p.publicTests[i].output
  {
    var all := [];
    for k := 0 to |p.publicTests|
      invariant |all| == k
      invariant forall i :: 0 <= i < k ==> all[i] == p.publicTests[i].output
    {
      all := all + [p.publicTests[k].output];
    }
    for k := 0 to |p.privateTests|
      invariant |all| == |p.publicTests| + k
      invariant forall i :: 0 <= i < |all| ==> all[i] == AllTests(p)[i].output
    {
      all := all + [p.privateTests[k].output];
    }
    for k := 0 to |p.generatedTests|
      invariant |all| == |p.publicTests| + |p.privateTests| + k
      invariant forall i :: 0 <= i < |all| ==> all[i] == AllTests(p)[i].output
    {
      all := all + [p.generatedTests[k].output];
    }
    outputs := Resize(all, maxSize, "");
  }

  /** Both vectors as the caller obtains them with the same `max_size`: read
      side by side they are the problem's tests, resized with an empty test
      as padding, so entry i of the inputs and entry i of the outputs always
      belong to the same test case. */
  method GetBattery(p: Problem, maxSize: nat) returns (inputs: seq<string>, outputs: seq<string>)
    ensures |inputs| == |outputs| == maxSize
    ensures forall i :: 0 <= i < maxSize ==>
      TestCase(inputs[i], outputs[i]) == Resize(AllTests(p), maxSize, TestCase("", ""))[i]
  {
    inputs := GetInputs(p, maxSize);
    outputs := GetOutputs(p, maxSize);
  }
}
