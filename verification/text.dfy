/** Plain-text helpers shared by the report printer and the JSON scripts:
    decimal rendering of integers (as `operator<<` and Python's `str.format`
    print them), `', '.join` of tags, and splitting text into lines. Each
    renderer comes with a parser and a round-trip lemma. */
module Text {
  import opened Wrappers

  predicate IsDigit(c: char) {
    '0' <= c <= '9'
  }

  predicate AllDigits(s: string) {
    forall i :: 0 <= i < |s| ==> IsDigit(s[i])
  }

  function DigitChar(d: nat): (c: char)
    requires d < 10
    ensures IsDigit(c)
  {
    ('0' as int + d) as char
  }

  function DigitValue(c: char): (d: nat)
    requires IsDigit(c)
    ensures d < 10
    ensures DigitChar(d) == c
  {
    c as int - '0' as int
  }

  /** Decimal digits of n, most significant first, without leading zeros. */
  function NatToDecimal(n: nat): (s: string)
    ensures |s| > 0 && AllDigits(s)
    ensures |s| > 1 ==> s[0] != '0'
    decreases n
  {
    if n < 10 then [DigitChar(n)] else NatToDecimal(n / 10) + [DigitChar(n % 10)]
  }

  /** The value of a string of decimal digits. */
  function DecimalValue(s: string): nat
    requires AllDigits(s)
  {
    if |s| == 0 then 0 else 10 * DecimalValue(s[..|s| - 1]) + DigitValue(s[|s| - 1])
  }

  lemma {:induction false} DecimalRoundTrip(n: nat)
    ensures DecimalValue(NatToDecimal(n)) == n
  {
    if n >= 10 {
      var s := NatToDecimal(n / 10);
      var t := s + [DigitChar(n % 10)];
      assert t[..|t| - 1] == s;
      DecimalRoundTrip(n / 10);
    }
  }

  /** A signed integer in decimal, with a leading '-' when negative. */
  function IntToDecimal(i: int): string {
    if i < 0 then "-" + NatToDecimal(-i) else NatToDecimal(i)
  }

  /** Reads back what `IntToDecimal` prints; anything else is rejected. */
  function ParseInt(s: string): Option<int> {
    if |s| > 1 && s[0] == '-' && AllDigits(s[1..]) then Some(0 - DecimalValue(s[1..]))
    else if |s| > 0 && AllDigits(s) then Some(DecimalValue(s))
    else None
  }

  lemma IntRoundTrip(i: int)
    ensures ParseInt(IntToDecimal(i)) == Some(i)
  {
    if i < 0 {
      var d := NatToDecimal(-i);
      var s := "-" + d;
      assert s[1..] == d;
      DecimalRoundTrip(-i);
      assert ParseInt(s) == Some(0 - DecimalValue(d));
    } else {
      var d := NatToDecimal(i);
      assert IsDigit(d[0]);
      DecimalRoundTrip(i);
      assert ParseInt(d) == Some(DecimalValue(d));
    }
  }

  /** Position of the first occurrence of c in s. */
  function IndexOf(s: string, c: char): (r: Option<nat>)
    ensures r.Some? ==> r.value < |s| && s[r.value] == c
    ensures r.Some? ==> forall j :: 0 <= j < r.value ==> s[j] != c
    ensures r.None? ==> c !in s
  {
    if |s| == 0 then None
    else if s[0] == c then Some(0)
    else match IndexOf(s[1..], c)
      case None => None
      case Some(k) => Some(k + 1)
  }

  /** The first c in `a + [c] + b` is the one after a, when a holds none. */
  lemma IndexOfAfter(a: string, c: char, b: string)
    requires c !in a
    ensures IndexOf(a + [c] + b, c) == Some(|a|)
  {
    var s := a + [c] + b;
    assert s[|a|] == c;
    assert forall j :: 0 <= j < |a| ==> s[j] == a[j];
  }

  /** `', '.join(tags)`. */
  function JoinTags(tags: seq<string>): string {
    if |tags| == 0 then ""
    else if |tags| == 1 then tags[0]
    else tags[0] + ", " + JoinTags(tags[1..])
  }

  function DropSpace(s: string): (r: string)
    ensures |r| <= |s|
  {
    if |s| > 0 && s[0] == ' ' then s[1..] else s
  }

  /** Cuts s at every ',' and drops the one blank that follows it. */
  function SplitAtCommas(s: string): (r: seq<string>)
    ensures |r| > 0
    decreases |s|
  {
    match IndexOf(s, ',')
    case None => [s]
    case Some(k) => [s[..k]] + SplitAtCommas(DropSpace(s[k + 1..]))
  }

  /** Reads a `', '`-joined tag list back; the empty string has no tags. */
  function SplitTags(s: string): seq<string> {
    if s == "" then [] else SplitAtCommas(s)
  }

  /** A tag that survives joining: non-empty and free of ','. */
  predicate PlainTag(t: string) {
    |t| > 0 && ',' !in t
  }

  /** Every tag of the list is plain. */
  predicate PlainTags(tags: seq<string>) {
    tags == [] || (PlainTag(tags[0]) && PlainTags(tags[1..]))
  }

  lemma {:induction false} SplitAtCommasJoin(tags: seq<string>)
    requires |tags| > 0 && PlainTags(tags)
    ensures SplitAtCommas(JoinTags(tags)) == tags
    decreases |tags|
  {
    if |tags| == 1 {
      assert IndexOf(tags[0], ',').None?;
    } else {
      var t0, rest := tags[0], JoinTags(tags[1..]);
      var s := JoinTags(tags);
      assert s == t0 + [','] + (" " + rest);
      IndexOfAfter(t0, ',', " " + rest);
      assert s[..|t0|] == t0;
      assert s[|t0| + 1..] == " " + rest;
      assert DropSpace(" " + rest) == rest;
      assert SplitAtCommas(s) == [t0] + SplitAtCommas(rest);
      SplitAtCommasJoin(tags[1..]);
      assert tags == [t0] + tags[1..];
    }
  }

  /** `', '.join` loses nothing on plain tags: splitting gives the list back. */
  lemma TagsRoundTrip(tags: seq<string>)
    requires PlainTags(tags)
    ensures SplitTags(JoinTags(tags)) == tags
  {
    if |tags| > 0 {
      SplitAtCommasJoin(tags);
      assert |JoinTags(tags)| >= |tags[0]| > 0;
    }
  }

  /** Splits off the text before the first '\n', if there is one. */
  function SplitFirstLine(s: string): (r: Option<(string, string)>)
    ensures r.Some? ==> |r.value.0| + 1 + |r.value.1| == |s| && '\n' !in r.value.0
    ensures r.None? ==> '\n' !in s
  {
    match IndexOf(s, '\n')
    case None => None
    case Some(k) => Some((s[..k], s[k + 1..]))
  }

  lemma SplitFirstLineOf(a: string, b: string)
    requires '\n' !in a
    ensures SplitFirstLine(a + "\n" + b) == Some((a, b))
  {
    IndexOfAfter(a, '\n', b);
    var s := a + "\n" + b;
    assert s[..|a|] == a;
    assert s[|a| + 1..] == b;
  }

  /** The lines of s; a last line without '\n' is kept, an empty tail is not. */
  function Lines(s: string): seq<string>
    decreases |s|
  {
    if s == "" then []
    else match SplitFirstLine(s)
      case None => [s]
      case Some((line, rest)) => [line] + Lines(rest)
  }

  /** Every string followed by '\n', as a loop of `cout << x << "\n"` prints them. */
  function Unlines(xs: seq<string>): string {
    if xs == [] then "" else xs[0] + "\n" + Unlines(xs[1..])
  }

  predicate NoNewlines(xs: seq<string>) {
    forall i :: 0 <= i < |xs| ==> '\n' !in xs[i]
  }

  /** A line without a break, followed by '\n', is the first of the lines. */
  lemma LinesCons(a: string, b: string)
    requires '\n' !in a
    ensures Lines(a + "\n" + b) == [a] + Lines(b)
  {
    SplitFirstLineOf(a, b);
    assert a + "\n" + b != "";
  }

  /** The first line of a + (b + "\n" + rest) is a and b run together. */
  lemma GluedFirstLine(a: string, b: string, rest: string)
    requires '\n' !in a && '\n' !in b
    ensures Lines(a + (b + "\n" + rest)) == [a + b] + Lines(rest)
  {
    assert a + (b + "\n" + rest) == (a + b) + "\n" + rest;
    assert '\n' !in a + b by {
      assert forall j :: 0 <= j < |a + b| ==> (a + b)[j] == (if j < |a| then a[j] else b[j - |a|]);
    }
    LinesCons(a + b, rest);
  }

  /** t is what s ends with. */
  predicate EndsWith<T(==)>(s: seq<T>, t: seq<T>) {
    |t| <= |s| && s[|s| - |t|..] == t
  }

  /** A sequence ends with whatever was appended last. */
  lemma EndsWithAppend<T>(p: seq<T>, t: seq<T>)
    ensures EndsWith(p + t, t)
  {
    assert (p + t)[|p|..] == t;
  }

  /** Concatenation regrouped, stated over plain strings so callers need not unfold their own. */
  lemma Regroup3(p: string, m: string, t: string)
    ensures p + (m + t) == (p + m) + t
  {
  }

  /** s is empty or ends with '\n': a whole number of lines, with nothing left over. */
  predicate WholeLines(s: string) {
    s == "" || s[|s| - 1] == '\n'
  }

  /** Text that ends with whole lines is whole lines. */
  lemma WholeLinesAfter(p: string, q: string)
    requires (q != "" || WholeLines(p)) && WholeLines(q)
    ensures WholeLines(p + q)
  {
    if q == "" {
      assert p + q == p;
    } else {
      assert (p + q)[|p + q| - 1] == q[|q| - 1];
    }
  }

  /** A split line puts the text back together with its '\n'. */
  lemma SplitFirstLineParts(s: string)
    requires SplitFirstLine(s).Some?
    ensures var (a, b) := SplitFirstLine(s).value; s == a + "\n" + b
  {
    var k := IndexOf(s, '\n').value;
    assert s == s[..k] + "\n" + s[k + 1..];
  }

  /** Appending text leaves the first line where it was. */
  lemma SplitFirstLineAppend(x: string, y: string)
    requires SplitFirstLine(x).Some?
    ensures var (a, b) := SplitFirstLine(x).value; SplitFirstLine(x + y) == Some((a, b + y))
  {
    var (a, b) := SplitFirstLine(x).value;
    SplitFirstLineParts(x);
    Regroup3(a + "\n", b, y);
    SplitFirstLineOf(a, b + y);
  }

  /** Lines of a text with a line break: its first line, then the lines of the rest. */
  lemma LinesUnfold(s: string)
    requires SplitFirstLine(s).Some?
    ensures Lines(s) == [SplitFirstLine(s).value.0] + Lines(SplitFirstLine(s).value.1)
  {
    assert s != "";
  }

  /** What follows the first line of whole lines is whole lines. */
  lemma WholeLinesRest(x: string)
    requires WholeLines(x) && x != ""
    ensures SplitFirstLine(x).Some? && WholeLines(SplitFirstLine(x).value.1)
  {
    assert x[|x| - 1] == '\n';
    var (a, b) := SplitFirstLine(x).value;
    SplitFirstLineParts(x);
    assert b == "" || b[|b| - 1] == x[|x| - 1];
  }

  /** A line put in front of a list of lines that is itself two lists. */
  lemma ConsAppend(a: string, l: seq<string>, m: seq<string>, n: seq<string>)
    requires l == m + n
    ensures [a] + l == ([a] + m) + n
  {
  }

  /** After whole lines, text starts a new line: the lines of x + y are those of x, then those of y. */
  lemma {:induction false} LinesAppend(x: string, y: string)
    requires WholeLines(x)
    ensures Lines(x + y) == Lines(x) + Lines(y)
    decreases |x|
  {
    if x == "" {
      assert x + y == y;
    } else {
      WholeLinesRest(x);
      var (a, b) := SplitFirstLine(x).value;
      SplitFirstLineAppend(x, y);
      LinesUnfold(x);
      LinesUnfold(x + y);
      LinesAppend(b, y);
      ConsAppend(a, Lines(b + y), Lines(b), Lines(y));
    }
  }

  /** The two halves of a concatenation are recovered by slicing at the seam. */
  lemma SliceAtSeam(p: string, q: string)
    ensures (p + q)[..|p|] == p && (p + q)[|p|..] == q
  {
  }

  /** Four-part concatenation regrouped to the right. */
  lemma Regroup(a: string, b: string, c: string, d: string)
    ensures a + b + c + d == a + (b + c + d)
  {
  }

  /** No string of digits holds a character that is not a digit. */
  lemma NotInDigits(s: string, c: char)
    requires AllDigits(s) && !IsDigit(c)
    ensures c !in s
  {
    forall j | 0 <= j < |s| ensures s[j] != c {
      assert IsDigit(s[j]);
    }
  }

  lemma {:induction false} LinesUnlines(xs: seq<string>)
    requires NoNewlines(xs)
    ensures Lines(Unlines(xs)) == xs
    decreases |xs|
  {
    if xs != [] {
      LinesCons(xs[0], Unlines(xs[1..]));
      LinesUnlines(xs[1..]);
      assert xs == [xs[0]] + xs[1..];
    }
  }

  /** Cuts the first n lines off s, returning them and the text after them. */
  function SplitLines(s: string, n: nat): (r: Option<(seq<string>, string)>)
    ensures r.Some? ==> |r.value.0| == n
  {
    if n == 0 then Some(([], s))
    else match SplitFirstLine(s)
      case None => None
      case Some((line, rest)) =>
        match SplitLines(rest, n - 1)
        case None => None
        case Some((ls, tail)) => Some(([line] + ls, tail))
  }

  /** Cutting n + 1 lines off a line and '\n' cuts that line, then n lines off the rest. */
  lemma SplitLinesCons(a: string, b: string, n: nat, ls: seq<string>, t: string)
    requires '\n' !in a && SplitLines(b, n) == Some((ls, t))
    ensures SplitLines(a + "\n" + b, n + 1) == Some(([a] + ls, t))
  {
    SplitFirstLineOf(a, b);
  }

  lemma {:induction false} SplitLinesUnlines(xs: seq<string>, rest: string)
    requires NoNewlines(xs)
    ensures SplitLines(Unlines(xs) + rest, |xs|) == Some((xs, rest))
    decreases |xs|
  {
    if xs == [] {
      assert Unlines(xs) + rest == rest;
    } else {
      var tail := Unlines(xs[1..]) + rest;
      assert Unlines(xs) + rest == xs[0] + "\n" + tail;
      SplitLinesUnlines(xs[1..], rest);
      SplitLinesCons(xs[0], tail, |xs| - 1, xs[1..], rest);
      assert xs == [xs[0]] + xs[1..];
    }
  }
}
