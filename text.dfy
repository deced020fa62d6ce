/**
 * The Python string built-ins the scripts rely on (`startswith`, `split`,
 * `rstrip`, `lower`, `capitalize`, `replace`, `sorted`), on `string`.
 * Case mapping covers ASCII letters only.
 */
module Text {

  predicate StartsWith(s: string, p: string) {
    |p| <= |s| && s[..|p|] == p
  }

  predicate EndsWith(s: string, p: string) {
    |p| <= |s| && s[|s| - |p|..] == p
  }

  lemma StartsWithAppend(s: string, t: string, p: string)
    requires StartsWith(s, p)
    ensures StartsWith(s + t, p)
  {
    assert (s + t)[..|p|] == s[..|p|];
  }

  lemma StartsWithTransitive(s: string, t: string, p: string)
    requires StartsWith(s, t) && StartsWith(t, p)
    ensures StartsWith(s, p)
  {
    assert s[..|p|] == s[..|t|][..|p|];
  }

  /** `t in s` for two strings. */
  predicate IsSubstring(t: string, s: string) {
    StartsWith(s, t) || (s != [] && IsSubstring(t, s[1..]))
  }

  /** The index of the first occurrence of `c` in `s`. */
  function IndexOf(s: string, c: char): (i: nat)
    requires c in s
    ensures i < |s| && s[i] == c && c !in s[..i]
  {
    if s[0] == c then 0
    else
      var i := 1 + IndexOf(s[1..], c);
      assert s[..i] == [s[0]] + s[1..][..i - 1];
      i
  }

  /** `s.split(c, 1)` when `c` occurs in `s`: what precedes the first `c`, and what follows it. */
  function SplitOnce(s: string, c: char): (r: (string, string))
    requires c in s
    ensures c !in r.0
    ensures s == r.0 + [c] + r.1
  {
    var i := IndexOf(s, c);
    assert s == s[..i] + [s[i]] + s[i + 1..];
    (s[..i], s[i + 1..])
  }

  /** Splitting at the first occurrence of `c`, when its index `i` is known. */
  lemma SplitOnceAt(s: string, c: char, i: nat)
    requires i < |s| && s[i] == c && c !in s[..i]
    ensures SplitOnce(s, c) == (s[..i], s[i + 1..])
  {
  }

  /** `s.split(c)[-1]`: what follows the last `c`, or all of `s` when `c` does not occur. */
  function LastSegment(s: string, c: char): (r: string)
    ensures c !in r
    ensures EndsWith(s, r)
    ensures |r| < |s| ==> s[|s| - |r| - 1] == c
    ensures c !in s ==> r == s
  {
    if s == [] then []
    else if s[|s| - 1] == c then []
    else
      var init := s[..|s| - 1];
      var r := LastSegment(init, c) + [s[|s| - 1]];
      assert s == init + [s[|s| - 1]];
      r
  }

  /** `s.rstrip(chars)`: `s` without its longest suffix made of characters in `cs`. */
  function RStrip(s: string, cs: set<char>): (r: string)
    ensures |r| <= |s| && r == s[..|r|]
    ensures r == [] || r[|r| - 1] !in cs
    ensures forall i :: |r| <= i < |s| ==> s[i] in cs
  {
    if s == [] || s[|s| - 1] !in cs then s else RStrip(s[..|s| - 1], cs)
  }

  function LowerChar(c: char): char {
    if 'A' <= c <= 'Z' then (c as int + 32) as char else c
  }

  function UpperChar(c: char): char {
    if 'a' <= c <= 'z' then (c as int - 32) as char else c
  }

  /** `s.lower()`. */
  function Lower(s: string): (r: string)
    ensures |r| == |s|
    ensures forall i :: 0 <= i < |s| ==> r[i] == LowerChar(s[i])
  {
    seq(|s|, i requires 0 <= i < |s| => LowerChar(s[i]))
  }

  /** `s.capitalize()`: the first character upper-cased, the rest lower-cased. */
  function Capitalize(s: string): (r: string)
    ensures |r| == |s|
    ensures s != [] ==> r[0] == UpperChar(s[0])
    ensures forall i :: 0 < i < |s| ==> r[i] == LowerChar(s[i])
  {
    if s == [] then [] else [UpperChar(s[0])] + Lower(s[1..])
  }

  /** `s.split(c)`: the pieces between the occurrences of `c`. */
  function Split(s: string, c: char): (r: seq<string>)
    ensures |r| >= 1
    ensures forall i :: 0 <= i < |r| ==> c !in r[i]
    decreases |s|
  {
    if c !in s then [s]
    else
      var parts := SplitOnce(s, c);
      [parts.0] + Split(parts.1, c)
  }

  /** `c.join(ss)`. */
  function Join(ss: seq<string>, c: char): string {
    if ss == [] then []
    else if |ss| == 1 then ss[0]
    else ss[0] + [c] + Join(ss[1..], c)
  }

  /** Splitting and joining again on the same separator gives the string back. */
  lemma {:induction false} JoinSplit(s: string, c: char)
    ensures Join(Split(s, c), c) == s
    decreases |s|
  {
    if c in s {
      var parts := SplitOnce(s, c);
      JoinSplit(parts.1, c);
      assert Split(s, c) == [parts.0] + Split(parts.1, c);
    }
  }

  /** `''.join(ss)`. */
  function Concat(ss: seq<string>): string {
    if ss == [] then [] else ss[0] + Concat(ss[1..])
  }

  function CapitalizeAll(ss: seq<string>): (r: seq<string>)
    ensures |r| == |ss|
    ensures forall i :: 0 <= i < |ss| ==> r[i] == Capitalize(ss[i])
  {
    if ss == [] then [] else [Capitalize(ss[0])] + CapitalizeAll(ss[1..])
  }

  /** `''.join(word.capitalize() for word in s.split('_'))`. */
  function TitleWords(s: string): (r: string)
    ensures '_' !in s ==> r == Capitalize(s)
  {
    var words := Split(s, '_');
    assert '_' !in s ==>
      words == [s] && CapitalizeAll(words) == [Capitalize(s)] && Concat([Capitalize(s)]) == Capitalize(s) + Concat([]);
    Concat(CapitalizeAll(words))
  }

  /** `s.replace(a, b)` for single characters. */
  function Replace(s: string, a: char, b: char): (r: string)
    ensures |r| == |s|
    ensures forall i :: 0 <= i < |s| ==> r[i] == if s[i] == a then b else s[i]
  {
    seq(|s|, i requires 0 <= i < |s| => if s[i] == a then b else s[i])
  }

  /** Python's ordering of strings: lexicographic by code point. */
  predicate Le(a: string, b: string) {
    a == [] || (b != [] && (a[0] < b[0] || (a[0] == b[0] && Le(a[1..], b[1..]))))
  }

  lemma {:induction false} LeTotal(a: string, b: string)
    ensures Le(a, b) || Le(b, a)
  {
    if a != [] && b != [] && a[0] == b[0] {
      LeTotal(a[1..], b[1..]);
    }
  }

  lemma {:induction false} LeTransitive(a: string, b: string, c: string)
    requires Le(a, b) && Le(b, c)
    ensures Le(a, c)
  {
    if a != [] && b != [] && c != [] && a[0] == b[0] && b[0] == c[0] {
      LeTransitive(a[1..], b[1..], c[1..]);
    }
  }

  predicate Sorted(ss: seq<string>) {
    forall i, j :: 0 <= i < j < |ss| ==> Le(ss[i], ss[j])
  }

  /** Inserts `x` into a sorted sequence, keeping it sorted. */
  function Insert(x: string, ss: seq<string>): (r: seq<string>)
    requires Sorted(ss)
    ensures Sorted(r)
    ensures multiset(r) == multiset(ss) + multiset{x}
  {
    if ss == [] then [x]
    else if Le(x, ss[0]) then
      assert forall j :: 0 < j < |ss| ==> Le(ss[0], ss[j]);
      forall j | 0 < j < |ss| ensures Le(x, ss[j]) {
        LeTransitive(x, ss[0], ss[j]);
      }
      assert ss == [ss[0]] + ss[1..];
      [x] + ss
    else
      LeTotal(x, ss[0]);
      var rest := Insert(x, ss[1..]);
      assert ss == [ss[0]] + ss[1..];
      forall j | 0 <= j < |rest| ensures Le(ss[0], rest[j]) {
        assert rest[j] in multiset(rest);
        assert rest[j] == x || rest[j] in ss[1..];
      }
      [ss[0]] + rest
  }

  /** `sorted(ss)`: the same strings, in ascending order. */
  function Sort(ss: seq<string>): (r: seq<string>)
    ensures Sorted(r)
    ensures multiset(r) == multiset(ss)
    ensures |r| == |ss|
  {
    if ss == [] then []
    else
      assert ss == [ss[0]] + ss[1..];
      Insert(ss[0], Sort(ss[1..]))
  }
}
