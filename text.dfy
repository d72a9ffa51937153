/**
 * Character classes and the handful of Python string operations the
 * application relies on: `str.strip`, `str.split(sep)` and `sep.join`.
 * Strings are sequences of Unicode scalar values, as Python 3 strings are.
 */
module Text {

  /** Python's `str.isspace()`; also the class `\s` of a `str` regular expression. */
  predicate IsSpace(c: char) {
    || c == ' '
    || '\t' <= c <= '\r'                 // \t \n \v \f \r
    || '\U{1c}' <= c <= '\U{1f}'         // the four information separators
    || c == '\U{85}' || c == '\U{a0}'
    || c == '\U{1680}'
    || '\U{2000}' <= c <= '\U{200a}'
    || c == '\U{2028}' || c == '\U{2029}'
    || c == '\U{202f}' || c == '\U{205f}' || c == '\U{3000}'
  }

  /** The class `[a-zA-Z]`. */
  predicate IsAsciiLetter(c: char) {
    'a' <= c <= 'z' || 'A' <= c <= 'Z'
  }

  /** `re.search(r'[a-zA-Z]', s)` finds a match. */
  predicate HasAsciiLetter(s: string) {
    exists i :: 0 <= i < |s| && IsAsciiLetter(s[i])
  }

  /** Every character of `s` is in the set `p`. */
  predicate AllIn(s: string, p: char -> bool) {
    forall k :: 0 <= k < |s| ==> p(s[k])
  }

  /**
   * Python's `s.strip(chars)`, with the set of characters given as a
   * predicate: the longest infix of `s` that neither starts nor ends with a
   * character of the set; empty when every character is in it.
   */
  function StripBy(s: string, p: char -> bool): (r: string)
    ensures |r| <= |s|
    ensures r == [] <==> AllIn(s, p)
    ensures r != [] ==> !p(r[0]) && !p(r[|r| - 1])
    decreases |s|
  {
    if s == [] then []
    else if p(s[0]) then
      assert AllIn(s, p) <==> AllIn(s[1..], p) by {
        assert forall k :: 0 <= k < |s| - 1 ==> s[1..][k] == s[k + 1];
      }
      StripBy(s[1..], p)
    else if p(s[|s| - 1]) then
      assert !AllIn(s, p);
      StripBy(s[..|s| - 1], p)
    else
      assert !AllIn(s, p);
      s
  }

  /**
   * `StripBy(s, p)` is the infix of `s` that starts at `off`, and every
   * character removed before or after it is in the set; with the ends of
   * `StripBy` this pins the result down.
   */
  lemma {:induction false} StripByInfix(s: string, p: char -> bool) returns (off: nat)
    ensures off + |StripBy(s, p)| <= |s|
    ensures StripBy(s, p) == s[off..off + |StripBy(s, p)|]
    ensures forall k :: 0 <= k < off ==> p(s[k])
    ensures forall k :: off + |StripBy(s, p)| <= k < |s| ==> p(s[k])
    decreases |s|
  {
    var r := StripBy(s, p);
    if s == [] {
      off := 0;
    } else if p(s[0]) {
      var o := StripByInfix(s[1..], p);
      off := o + 1;
      InfixOfTail(s, p, r, o);
    } else if p(s[|s| - 1]) {
      off := StripByInfix(s[..|s| - 1], p);
      InfixOfInit(s, p, s[..|s| - 1], r, off);
    } else {
      off := 0;
    }
  }

  /** The step of StripByInfix when the first character is stripped. */
  lemma InfixOfTail(s: string, p: char -> bool, r: string, o: nat)
    requires s != [] && p(s[0])
    requires o + |r| <= |s| - 1 && r == s[1..][o..o + |r|]
    requires forall k :: 0 <= k < o ==> p(s[1..][k])
    requires forall k :: o + |r| <= k < |s| - 1 ==> p(s[1..][k])
    ensures r == s[o + 1..o + 1 + |r|]
    ensures forall k :: 0 <= k < o + 1 ==> p(s[k])
    ensures forall k :: o + 1 + |r| <= k < |s| ==> p(s[k])
  {
    SliceOfTail(s, o, |r|);
    assert forall k :: 1 <= k < |s| ==> s[k] == s[1..][k - 1];
  }

  /** The step of StripByInfix when the last character is stripped. */
  lemma InfixOfInit(s: string, p: char -> bool, t: string, r: string, o: nat)
    requires s != [] && p(s[|s| - 1]) && t == s[..|s| - 1]
    requires o + |r| <= |t| && r == t[o..o + |r|]
    requires forall k :: 0 <= k < o ==> p(t[k])
    requires forall k :: o + |r| <= k < |t| ==> p(t[k])
    ensures r == s[o..o + |r|]
    ensures forall k :: 0 <= k < o ==> p(s[k])
    ensures forall k :: o + |r| <= k < |s| ==> p(s[k])
  {
    SliceOfInit(s, o, |r|);
    assert forall k :: 0 <= k < |t| ==> s[k] == t[k];
  }

  lemma SliceOfTail(s: string, o: nat, n: nat)
    requires 1 + o + n <= |s|
    ensures s[1..][o..o + n] == s[o + 1..o + 1 + n]
  {
  }

  lemma SliceOfInit(s: string, o: nat, n: nat)
    requires o + n < |s|
    ensures s[..|s| - 1][o..o + n] == s[o..o + n]
  {
  }

  /** Stripping cannot introduce a character. */
  lemma StripByAbsent(s: string, p: char -> bool, c: char)
    requires c !in s
    ensures c !in StripBy(s, p)
  {
    var off := StripByInfix(s, p);
  }

  /** A string that neither starts nor ends with a character of the set is left as it is. */
  lemma StripByStripped(s: string, p: char -> bool)
    requires s != [] && !p(s[0]) && !p(s[|s| - 1])
    ensures StripBy(s, p) == s
  {
  }

  /** Python's `s.strip()`: whitespace removed at both ends. */
  function Trim(s: string): string
  {
    StripBy(s, IsSpace)
  }

  /** Only the last character is stripped when it alone is in the set. */
  lemma StripByDropLast(s: string, p: char -> bool)
    requires |s| >= 2 && !p(s[0]) && !p(s[|s| - 2]) && p(s[|s| - 1])
    ensures StripBy(s, p) == s[..|s| - 1]
  {
    StripByStripped(s[..|s| - 1], p);
  }

  /** The index of the first `c` in `s`, or `|s|` when there is none. */
  function IndexOf(s: string, c: char): (k: nat)
    ensures k <= |s|
    ensures k < |s| ==> s[k] == c
    ensures forall j :: 0 <= j < k ==> s[j] != c
  {
    if s == [] then 0
    else if s[0] == c then 0
    else 1 + IndexOf(s[1..], c)
  }

  /** Python's `s.split(sep)` for a one-character separator. */
  function SplitOn(s: string, sep: char): (r: seq<string>)
    ensures |r| >= 1
    ensures forall i :: 0 <= i < |r| ==> sep !in r[i]
    decreases |s|
  {
    var k := IndexOf(s, sep);
    if k == |s| then [s] else [s[..k]] + SplitOn(s[k + 1..], sep)
  }

  /** Python's `sep.join(parts)` for a one-character separator. */
  function JoinWith(parts: seq<string>, sep: char): string
  {
    if parts == [] then ""
    else if |parts| == 1 then parts[0]
    else parts[0] + [sep] + JoinWith(parts[1..], sep)
  }

  /** Splitting a string and joining the pieces gives the string back. */
  lemma {:induction false} JoinSplit(s: string, sep: char)
    ensures JoinWith(SplitOn(s, sep), sep) == s
    decreases |s|
  {
    var k := IndexOf(s, sep);
    if k < |s| {
      var rest := SplitOn(s[k + 1..], sep);
      JoinSplit(s[k + 1..], sep);
      var parts := [s[..k]] + rest;
      assert SplitOn(s, sep) == parts;
      assert parts[1..] == rest;
      assert JoinWith(parts, sep) == s[..k] + [sep] + JoinWith(rest, sep);
      assert s == s[..k] + [sep] + s[k + 1..];
    }
  }

  lemma IndexOfPrefix(a: string, sep: char, b: string)
    requires sep !in a
    ensures IndexOf(a + [sep] + b, sep) == |a|
  {
    var s := a + [sep] + b;
    var k := IndexOf(s, sep);
    assert s[|a|] == sep;
  }

  /** Splitting at the first separator. */
  lemma SplitOnCons(a: string, sep: char, b: string)
    requires sep !in a
    ensures SplitOn(a + [sep] + b, sep) == [a] + SplitOn(b, sep)
  {
    var s := a + [sep] + b;
    IndexOfPrefix(a, sep, b);
    assert s[..|a|] == a;
    assert s[|a| + 1..] == b;
  }

  /** Joining pieces that do not contain the separator and splitting again gives the pieces back. */
  lemma {:induction false} SplitJoin(parts: seq<string>, sep: char)
    requires |parts| >= 1
    requires forall i :: 0 <= i < |parts| ==> sep !in parts[i]
    ensures SplitOn(JoinWith(parts, sep), sep) == parts
    decreases |parts|
  {
    if |parts| == 1 {
      assert sep !in parts[0];
    } else {
      var tail := JoinWith(parts[1..], sep);
      assert JoinWith(parts, sep) == parts[0] + [sep] + tail;
      SplitOnCons(parts[0], sep, tail);
      SplitJoin(parts[1..], sep);
      assert parts == [parts[0]] + parts[1..];
    }
  }
}
