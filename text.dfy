/** The Python string operations the core relies on, for a one-character
    separator: `str.find`, `str.split` and the occurrence count they imply. */
module Text {

  /** Number of occurrences of `c` in `s`. */
  function Count(s: string, c: char): nat {
    if s == [] then 0 else (if s[0] == c then 1 else 0) + Count(s[1..], c)
  }

  /** `s.find(c)`: the index of the first occurrence of `c`, or -1. */
  function Find(s: string, c: char): (r: int)
    ensures -1 <= r < |s|
    ensures r == -1 <==> c !in s
    ensures r >= 0 ==> s[r] == c && c !in s[..r]
  {
    if s == [] then -1
    else if s[0] == c then 0
    else
      var k := Find(s[1..], c);
      if k < 0 then -1 else k + 1
  }

  /** The inverse of `Split`: the parts glued back with `sep` between them. */
  function Join(parts: seq<string>, sep: char): string
    requires |parts| >= 1
  {
    if |parts| == 1 then parts[0] else parts[0] + [sep] + Join(parts[1..], sep)
  }

  /** `s.split(sep)`: the maximal pieces between occurrences of `sep`, empty
      pieces included, so there is always at least one. */
  function Split(s: string, sep: char): (parts: seq<string>)
    ensures |parts| == Count(s, sep) + 1
    ensures forall i :: 0 <= i < |parts| ==> sep !in parts[i]
    ensures Join(parts, sep) == s
    decreases |s|
  {
    var k := Find(s, sep);
    if k < 0 then
      NoOccurrenceCount(s, sep);
      [s]
    else
      CountSplitsAt(s, sep, k);
      [s[..k]] + Split(s[k + 1..], sep)
  }

  lemma {:induction false} NoOccurrenceCount(s: string, c: char)
    requires c !in s
    ensures Count(s, c) == 0
  {
    if s != [] {
      assert s[0] != c;
      assert c !in s[1..];
      NoOccurrenceCount(s[1..], c);
    }
  }

  /** Counting splits at any position: the two sides add up. */
  lemma {:induction false} CountAppend(a: string, b: string, c: char)
    ensures Count(a + b, c) == Count(a, c) + Count(b, c)
  {
    if a == [] {
      assert a + b == b;
    } else {
      assert (a + b)[1..] == a[1..] + b;
      CountAppend(a[1..], b, c);
    }
  }

  lemma CountSplitsAt(s: string, c: char, k: nat)
    requires k < |s| && s[k] == c && c !in s[..k]
    ensures Count(s, c) == Count(s[k + 1..], c) + 1
  {
    assert s == s[..k] + ([s[k]] + s[k + 1..]);
    CountAppend(s[..k], [s[k]] + s[k + 1..], c);
    CountAppend([s[k]], s[k + 1..], c);
    NoOccurrenceCount(s[..k], c);
    assert [s[k]][1..] == [];
  }

  /** `Split` undoes `Join` whenever no part contains the separator. */
  lemma {:induction false} SplitJoin(parts: seq<string>, sep: char)
    requires |parts| >= 1
    requires forall i :: 0 <= i < |parts| ==> sep !in parts[i]
    ensures Split(Join(parts, sep), sep) == parts
  {
    if |parts| > 1 {
      var rest := Join(parts[1..], sep);
      var s := parts[0] + [sep] + rest;
      assert s[..|parts[0]|] == parts[0];
      assert s[|parts[0]|] == sep;
      assert s[|parts[0]| + 1..] == rest;
      assert Find(s, sep) == |parts[0]|;
      SplitJoin(parts[1..], sep);
      assert Split(s, sep) == [parts[0]] + parts[1..];
    } else {
      assert Find(parts[0], sep) == -1;
    }
  }
}
