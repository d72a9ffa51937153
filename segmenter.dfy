/**
 * The segmenter `extract_content_items` (app.py): pasted text becomes an
 * ordered list of study items, deduplicated case-insensitively.
 *
 * The pipeline is stated once as functions (Clean, SplitOn, SplitRuns,
 * StripBy, Collapse, DedupState); `ExtractContentItems` is the loop program
 * of the source, proved to compute `Segment`, and the lemmas below state what
 * every result of `Segment` looks like.
 */
module Segmenter {
  import opened Wrappers
  import opened Text
  import opened Dedup

  /**
   * The two parts of Python's Unicode database the segmenter depends on:
   * membership in the regular-expression class `\w` and `str.lower()`.
   * Both are given by the caller rather than tabulated here.
   */
  datatype UnicodeDb = UnicodeDb(isWord: char -> bool, lower: string -> string)

  /** The characters that `[^\w\s\-\'\.,;:!?()]` does not match (app.py:275). */
  predicate IsKept(u: UnicodeDb, c: char) {
    || u.isWord(c) || IsSpace(c)
    || c == '-' || c == '\'' || c == '.' || c == ',' || c == ';' || c == ':'
    || c == '!' || c == '?' || c == '(' || c == ')'
  }

  /** `[ \t]`, the blanks of the two regular expressions at app.py:287 and app.py:296. */
  predicate IsBlank(c: char) {
    c == ' ' || c == '\t'
  }

  /** The characters `item.strip(' .,;:!?()')` removes (app.py:291). */
  predicate IsTrimChar(c: char) {
    || c == ' ' || c == '.' || c == ',' || c == ';' || c == ':'
    || c == '!' || c == '?' || c == '(' || c == ')'
  }

  predicate NoDoubleBlank(s: string) {
    forall i :: 0 <= i < |s| - 1 ==> !(IsBlank(s[i]) && IsBlank(s[i + 1]))
  }

  predicate NoDoubleSpace(s: string) {
    forall i :: 0 <= i < |s| - 1 ==> !(s[i] == ' ' && s[i + 1] == ' ')
  }

  /** Step 1, `re.sub(r'[^\w\s\-\'\.,;:!?()]', ' ', text)`: each dropped character becomes one space. */
  function Clean(u: UnicodeDb, s: string): (r: string)
    ensures |r| == |s|
    ensures forall i :: 0 <= i < |s| ==> r[i] == if IsKept(u, s[i]) then s[i] else ' '
  {
    if s == [] then []
    else [if IsKept(u, s[0]) then s[0] else ' '] + Clean(u, s[1..])
  }

  /** Where the leftmost match of `[ \t]{2,}` at or after `from` starts, or `|s|`. */
  function FirstDoubleBlank(s: string, from: nat): (k: nat)
    requires from <= |s|
    ensures from <= k <= |s|
    ensures k < |s| ==> k + 1 < |s| && IsBlank(s[k]) && IsBlank(s[k + 1])
    ensures forall m :: from <= m < k && m + 1 < |s| ==> !(IsBlank(s[m]) && IsBlank(s[m + 1]))
    decreases |s| - from
  {
    if from + 1 >= |s| then |s|
    else if IsBlank(s[from]) && IsBlank(s[from + 1]) then from
    else FirstDoubleBlank(s, from + 1)
  }

  /** The end of the run of blanks that starts at `k` (a greedy `[ \t]+`). */
  function BlankRunEnd(s: string, k: nat): (j: nat)
    requires k <= |s|
    ensures k <= j <= |s|
    ensures forall m :: k <= m < j ==> IsBlank(s[m])
    ensures j < |s| ==> !IsBlank(s[j])
    decreases |s| - k
  {
    if k < |s| && IsBlank(s[k]) then BlankRunEnd(s, k + 1) else k
  }

  /** `s` with every blank left out. */
  function NonBlanks(s: string): string
  {
    if s == [] then [] else (if IsBlank(s[0]) then [] else [s[0]]) + NonBlanks(s[1..])
  }

  /**
   * Step 3, `re.split(r'[ \t]{2,}', line)` (app.py:287): the pieces between
   * the maximal runs of two or more blanks. No piece holds two blanks in a
   * row, and a line without such a run is one piece, a phrase.
   */
  function SplitRuns(s: string): (r: seq<string>)
    ensures |r| >= 1
    ensures forall i :: 0 <= i < |r| ==> NoDoubleBlank(r[i])
    ensures '\n' !in s ==> forall i :: 0 <= i < |r| ==> '\n' !in r[i]
    ensures NoDoubleBlank(s) ==> r == [s]
    decreases |s|
  {
    var k := FirstDoubleBlank(s, 0);
    if k == |s| then [s]
    else
      [s[..k]] + SplitRuns(s[BlankRunEnd(s, k)..])
  }

  lemma NoDoubleBlankInfix(s: string, a: nat, b: nat)
    requires a <= b <= |s|
    ensures NoDoubleBlank(s) ==> NoDoubleBlank(s[a..b])
  {
    if NoDoubleBlank(s) {
      forall i | 0 <= i < b - a - 1
        ensures !(IsBlank(s[a..b][i]) && IsBlank(s[a..b][i + 1]))
      {
        assert s[a..b][i] == s[a + i] && s[a..b][i + 1] == s[a + i + 1];
      }
    }
  }

  /** The pieces with the separators between them put back: `parts[0] + seps[0] + parts[1] + ...`. */
  function Interleave(parts: seq<string>, seps: seq<string>): string
    requires |parts| == |seps| + 1
  {
    if seps == [] then parts[0] else parts[0] + seps[0] + Interleave(parts[1..], seps[1..])
  }

  /**
   * `re.split(r'[ \t]{2,}', s)` loses nothing: the pieces and the runs
   * between them rebuild `s`, and each run is two or more blanks.
   */
  lemma {:induction false} SplitRunsRebuild(s: string) returns (seps: seq<string>)
    ensures |SplitRuns(s)| == |seps| + 1
    ensures Interleave(SplitRuns(s), seps) == s
    ensures forall i :: 0 <= i < |seps| ==> |seps[i]| >= 2 && AllIn(seps[i], IsBlank)
    decreases |s|
  {
    var k := FirstDoubleBlank(s, 0);
    if k == |s| {
      seps := [];
    } else {
      var j := BlankRunEnd(s, k);
      var seps' := SplitRunsRebuild(s[j..]);
      seps := [s[k..j]] + seps';
      SplitRunsUnfold(s);
      LeftmostRun(s);
      RebuildStep(s, k, j, SplitRuns(s), SplitRuns(s[j..]), seps');
    }
  }

  /** The step of `SplitRunsRebuild`: the first cut put back in front of the rebuilt rest. */
  lemma RebuildStep(s: string, k: nat, j: nat, parts: seq<string>, ps: seq<string>, seps': seq<string>)
    requires k + 2 <= j <= |s| && AllIn(s[k..j], IsBlank)
    requires parts == [s[..k]] + ps
    requires |ps| == |seps'| + 1 && Interleave(ps, seps') == s[j..]
    requires forall i :: 0 <= i < |seps'| ==> |seps'[i]| >= 2 && AllIn(seps'[i], IsBlank)
    ensures var seps := [s[k..j]] + seps';
            && |parts| == |seps| + 1
            && Interleave(parts, seps) == s
            && forall i :: 0 <= i < |seps| ==> |seps[i]| >= 2 && AllIn(seps[i], IsBlank)
  {
    SplitThree(s, k, j);
    InterleaveStep(s, s[..k], s[k..j], s[j..], ps, seps');
    RunsCons(s[k..j], seps', [s[k..j]] + seps');
  }

  /** One fragment and one separator in front of an interleaving that rebuilds `rest`. */
  lemma InterleaveStep(s: string, p: string, q: string, rest: string, ps: seq<string>, qs: seq<string>)
    requires s == p + q + rest && |ps| == |qs| + 1 && Interleave(ps, qs) == rest
    ensures Interleave([p] + ps, [q] + qs) == s
  {
    InterleaveCons(p, ps, q, qs);
  }

  lemma RunsCons(r: string, rs: seq<string>, all: seq<string>)
    requires all == [r] + rs
    requires |r| >= 2 && AllIn(r, IsBlank)
    requires forall i :: 0 <= i < |rs| ==> |rs[i]| >= 2 && AllIn(rs[i], IsBlank)
    ensures forall i :: 0 <= i < |all| ==> |all[i]| >= 2 && AllIn(all[i], IsBlank)
  {
    assert forall i :: 1 <= i < |all| ==> all[i] == rs[i - 1];
  }

  lemma InterleaveCons(p: string, ps: seq<string>, q: string, qs: seq<string>)
    requires |ps| == |qs| + 1
    ensures Interleave([p] + ps, [q] + qs) == p + q + Interleave(ps, qs)
  {
    assert ([p] + ps)[1..] == ps;
    assert ([q] + qs)[1..] == qs;
  }

  /**
   * The runs `re.split` cuts at are maximal: a piece followed by a run does
   * not end with a blank, and a piece that follows a run does not start with
   * one.
   */
  lemma {:induction false} SplitRunsMaximal(s: string)
    ensures PiecesMaximal(SplitRuns(s))
    decreases |s|
  {
    var k := FirstDoubleBlank(s, 0);
    if k == |s| {
      assert |SplitRuns(s)| == 1;
    } else {
      var j := BlankRunEnd(s, k);
      SplitRunsUnfold(s);
      LeftmostRun(s);
      var rest := s[j..];
      SplitRunsMaximal(rest);
      SplitRunsPrefix(rest);
      FirstPieceNonEmpty(rest);
      MaximalStep(s, k, j, SplitRuns(s), SplitRuns(rest));
    }
  }

  /**
   * No piece but the last ends in a blank, no piece but the first starts with
   * one, and no piece between two runs is empty: two runs never meet, so
   * together with `SplitRunsRebuild` this is the only way to cut the line.
   */
  ghost predicate PiecesMaximal(parts: seq<string>) {
    && (forall i :: 0 <= i < |parts| - 1 ==> parts[i] == [] || !IsBlank(parts[i][|parts[i]| - 1]))
    && (forall i :: 1 <= i < |parts| ==> parts[i] == [] || !IsBlank(parts[i][0]))
    && (forall i :: 0 < i < |parts| - 1 ==> parts[i] != [])
  }

  /** A line that does not start with a blank has a non-empty first piece, unless it is the only one. */
  lemma FirstPieceNonEmpty(t: string)
    requires t == [] || !IsBlank(t[0])
    ensures |SplitRuns(t)| >= 2 ==> SplitRuns(t)[0] != []
  {
    if FirstDoubleBlank(t, 0) < |t| {
      SplitRunsUnfold(t);
      LeftmostRun(t);
      var k := FirstDoubleBlank(t, 0);
      assert t[k..BlankRunEnd(t, k)][0] == t[k];
      assert k > 0;
    } else {
      assert |SplitRuns(t)| == 1;
    }
  }

  /** The step of `SplitRunsMaximal`: the first piece and the pieces of the rest. */
  lemma MaximalStep(s: string, k: nat, j: nat, parts: seq<string>, ps: seq<string>)
    requires k <= j <= |s| && parts == [s[..k]] + ps && |ps| >= 1
    requires k > 0 ==> !IsBlank(s[k - 1])
    requires j < |s| ==> !IsBlank(s[j])
    requires |ps[0]| <= |s| - j && ps[0] == s[j..][..|ps[0]|]
    requires PiecesMaximal(ps)
    requires |ps| >= 2 ==> ps[0] != []
    ensures PiecesMaximal(parts)
  {
    assert forall i :: 1 <= i < |parts| ==> parts[i] == ps[i - 1];
    assert ps[0] == [] || ps[0][0] == s[j];
  }

  /** The first piece is a prefix of the line. */
  lemma SplitRunsPrefix(s: string)
    ensures |SplitRuns(s)[0]| <= |s| && SplitRuns(s)[0] == s[..|SplitRuns(s)[0]|]
  {
    if FirstDoubleBlank(s, 0) < |s| {
      SplitRunsUnfold(s);
    }
  }

  lemma SplitRunsUnfold(s: string)
    requires FirstDoubleBlank(s, 0) < |s|
    ensures SplitRuns(s) == [s[..FirstDoubleBlank(s, 0)]] + SplitRuns(s[BlankRunEnd(s, FirstDoubleBlank(s, 0))..])
  {
  }

  /** The leftmost run of two or more blanks, taken greedily. */
  lemma LeftmostRun(s: string)
    requires FirstDoubleBlank(s, 0) < |s|
    ensures var k := FirstDoubleBlank(s, 0);
            var j := BlankRunEnd(s, k);
            && k + 2 <= j
            && (k > 0 ==> !IsBlank(s[k - 1]))
            && AllIn(s[k..j], IsBlank)
            && (j < |s| ==> !IsBlank(s[j]))
  {
    var k := FirstDoubleBlank(s, 0);
    RunFacts(s, k, BlankRunEnd(s, k));
  }

  /** LeftmostRun from what `FirstDoubleBlank` and `BlankRunEnd` promise. */
  lemma RunFacts(s: string, k: nat, j: nat)
    requires k + 1 < |s| && IsBlank(s[k]) && IsBlank(s[k + 1])
    requires forall m :: 0 <= m < k && m + 1 < |s| ==> !(IsBlank(s[m]) && IsBlank(s[m + 1]))
    requires k <= j <= |s| && (forall m :: k <= m < j ==> IsBlank(s[m])) && (j < |s| ==> !IsBlank(s[j]))
    ensures k + 2 <= j && (k > 0 ==> !IsBlank(s[k - 1])) && AllIn(s[k..j], IsBlank)
  {
    assert forall m :: 0 <= m < |s[k..j]| ==> s[k..j][m] == s[k + m];
  }

  lemma SplitThree<T>(s: seq<T>, k: nat, j: nat)
    requires k <= j <= |s|
    ensures s == s[..k] + s[k..j] + s[j..]
  {
  }

  /** Skipping a run of blanks does not change the non-blank characters. */
  lemma {:induction false} NonBlanksSkip(s: string, j: nat)
    requires j <= |s|
    requires forall m :: 0 <= m < j ==> IsBlank(s[m])
    ensures NonBlanks(s[j..]) == NonBlanks(s)
  {
    if j > 0 {
      assert s[1..][j - 1..] == s[j..];
      NonBlanksSkip(s[1..], j - 1);
    }
  }

  lemma {:induction false} NonBlanksMember(s: string, c: char)
    requires !IsBlank(c)
    ensures c in NonBlanks(s) <==> c in s
  {
    if s != [] {
      NonBlanksMember(s[1..], c);
      assert s == [s[0]] + s[1..];
    }
  }

  /**
   * `re.sub(r'[ \t]+', ' ', item)` (app.py:296): every run of blanks becomes
   * one space. The result has no tab and no two spaces in a row; the lemmas
   * below show that it keeps every other character in order and keeps the
   * length of a string that had no two blanks in a row.
   */
  function Collapse(s: string): (r: string)
    ensures '\t' !in r
    ensures NoDoubleSpace(r)
    ensures r != [] <==> s != []
    ensures r != [] ==> (r[0] == ' ' <==> IsBlank(s[0]))
    decreases |s|
  {
    if s == [] then []
    else if IsBlank(s[0]) then " " + Collapse(s[BlankRunEnd(s, 0)..])
    else [s[0]] + Collapse(s[1..])
  }

  lemma {:induction false} CollapseNonBlanks(s: string)
    ensures NonBlanks(Collapse(s)) == NonBlanks(s)
    decreases |s|
  {
    if s != [] {
      if IsBlank(s[0]) {
        var j := BlankRunEnd(s, 0);
        var rest := Collapse(s[j..]);
        CollapseNonBlanks(s[j..]);
        NonBlanksSkip(s, j);
        assert (" " + rest)[1..] == rest;
      } else {
        var rest := Collapse(s[1..]);
        CollapseNonBlanks(s[1..]);
        assert ([s[0]] + rest)[1..] == rest;
      }
    }
  }

  lemma {:induction false} CollapseLength(s: string)
    requires NoDoubleBlank(s)
    ensures |Collapse(s)| == |s|
    decreases |s|
  {
    if s != [] {
      if IsBlank(s[0]) {
        var j := BlankRunEnd(s, 0);
        assert |s| > 1 ==> !IsBlank(s[1]);
        NoDoubleBlankInfix(s, j, |s|);
        CollapseLength(s[j..]);
      } else {
        NoDoubleBlankInfix(s, 1, |s|);
        CollapseLength(s[1..]);
      }
    }
  }

  /** A run of blanks has the end its two defining conditions give it. */
  lemma BlankRunEndIs(s: string, k: nat, j: nat)
    requires k <= j <= |s|
    requires forall m :: k <= m < j ==> IsBlank(s[m])
    requires j < |s| ==> !IsBlank(s[j])
    ensures BlankRunEnd(s, k) == j
  {
  }

  /** Collapsing works piece by piece across a boundary that follows a non-blank. */
  lemma {:induction false} CollapseAppend(a: string, t: string)
    requires a == [] || !IsBlank(a[|a| - 1])
    ensures Collapse(a + t) == Collapse(a) + Collapse(t)
    decreases |a|
  {
    if a == [] {
      assert a + t == t;
    } else if IsBlank(a[0]) {
      var j := BlankRunEnd(a, 0);
      BlankRunEndInside(a);
      CollapseAppend(a[j..], t);
      CollapseAppendBlank(a, t);
    } else {
      CollapseAppend(a[1..], t);
      CollapseAppendKept(a, t);
    }
  }

  lemma BlankRunEndInside(a: string)
    requires a != [] && IsBlank(a[0]) && !IsBlank(a[|a| - 1])
    ensures 0 < BlankRunEnd(a, 0) < |a|
    ensures !IsBlank(a[BlankRunEnd(a, 0)..][|a| - BlankRunEnd(a, 0) - 1])
  {
  }

  /** The step of `CollapseAppend` for a leading run of blanks. */
  lemma CollapseAppendBlank(a: string, t: string)
    requires a != [] && IsBlank(a[0]) && !IsBlank(a[|a| - 1])
    requires BlankRunEnd(a, 0) < |a|
    requires Collapse(a[BlankRunEnd(a, 0)..] + t) == Collapse(a[BlankRunEnd(a, 0)..]) + Collapse(t)
    ensures Collapse(a + t) == Collapse(a) + Collapse(t)
  {
    var j := BlankRunEnd(a, 0);
    CollapseBlankHead(a, t);
    AppendAssoc(" ", Collapse(a[j..]), Collapse(t));
  }

  /** A leading run of blanks that ends inside `a` is collapsed the same way in `a + t`. */
  lemma CollapseBlankHead(a: string, t: string)
    requires a != [] && IsBlank(a[0]) && !IsBlank(a[|a| - 1])
    ensures BlankRunEnd(a, 0) < |a|
    ensures Collapse(a + t) == " " + Collapse(a[BlankRunEnd(a, 0)..] + t)
    ensures Collapse(a) == " " + Collapse(a[BlankRunEnd(a, 0)..])
  {
    var j := BlankRunEnd(a, 0);
    var s := a + t;
    BlankRunEndIs(s, 0, j);
    assert s[j..] == a[j..] + t;
  }

  /** The step of `CollapseAppend` for a leading non-blank character. */
  lemma CollapseAppendKept(a: string, t: string)
    requires a != [] && !IsBlank(a[0])
    requires Collapse(a[1..] + t) == Collapse(a[1..]) + Collapse(t)
    ensures Collapse(a + t) == Collapse(a) + Collapse(t)
  {
    ConsTail(a, t);
    CollapseKeptHead(a + t);
    CollapseKeptHead(a);
    AppendAssoc([a[0]], Collapse(a[1..]), Collapse(t));
  }

  /** A leading non-blank character is kept as it is. */
  lemma CollapseKeptHead(s: string)
    requires s != [] && !IsBlank(s[0])
    ensures Collapse(s) == [s[0]] + Collapse(s[1..])
  {
  }

  lemma ConsTail<T>(a: seq<T>, t: seq<T>)
    requires a != []
    ensures (a + t)[0] == a[0] && (a + t)[1..] == a[1..] + t
  {
  }

  lemma AppendAssoc<T>(x: seq<T>, y: seq<T>, z: seq<T>)
    ensures x + (y + z) == (x + y) + z
  {
  }

  /** A run of blanks in front becomes one space. */
  lemma CollapseRun(r: string, b: string)
    requires r != [] && AllIn(r, IsBlank)
    requires b == [] || !IsBlank(b[0])
    ensures Collapse(r + b) == " " + Collapse(b)
  {
    BlankRunEndIs(r + b, 0, |r|);
    assert (r + b)[|r|..] == b;
  }

  /**
   * Each maximal run of blanks becomes one space in its place (app.py:296);
   * with `CollapseCons`, which keeps a non-blank character, this fixes
   * `Collapse` on every string.
   */
  lemma CollapseBlankRun(a: string, r: string, b: string)
    requires a == [] || !IsBlank(a[|a| - 1])
    requires r != [] && AllIn(r, IsBlank)
    requires b == [] || !IsBlank(b[0])
    ensures Collapse(a + r + b) == Collapse(a) + " " + Collapse(b)
  {
    var t := r + b;
    AppendAssoc(a, r, b);
    CollapseAppend(a, t);
    CollapseRun(r, b);
    AppendAssoc(Collapse(a), " ", Collapse(b));
  }

  /** What step 4 makes of one fragment (app.py:290-297): an item, or nothing. */
  function FragmentItem(f: string): seq<string>
  {
    var t := StripBy(f, IsTrimChar);
    if t != "" && |t| >= 2 && HasAsciiLetter(t) then [Collapse(t)] else []
  }

  /** The items a line's fragments contribute, in order. */
  function FragmentItems(frags: seq<string>): seq<string>
  {
    if frags == [] then []
    else FragmentItems(frags[..|frags| - 1]) + FragmentItem(frags[|frags| - 1])
  }

  /** The items one line contributes (app.py:282-297); a blank line contributes none. */
  function LineItems(line: string): seq<string>
  {
    var t := Trim(line);
    if t == "" then [] else FragmentItems(SplitRuns(t))
  }

  /** The list `all_items` built from the lines (app.py:279-297). */
  function Candidates(lines: seq<string>): seq<string>
  {
    if lines == [] then []
    else Candidates(lines[..|lines| - 1]) + LineItems(lines[|lines| - 1])
  }

  lemma CandidatesStep(lines: seq<string>, i: nat)
    requires i < |lines|
    ensures Candidates(lines[..i + 1]) == Candidates(lines[..i]) + LineItems(lines[i])
  {
    assert lines[..i + 1][..i] == lines[..i];
  }

  lemma FragmentItemsStep(prefix: seq<string>, frags: seq<string>, j: nat)
    requires j < |frags|
    ensures prefix + FragmentItems(frags[..j]) + FragmentItem(frags[j]) == prefix + FragmentItems(frags[..j + 1])
  {
    assert frags[..j + 1][..j] == frags[..j];
  }

  /** The comparison key `item.lower().strip()` (app.py:303). */
  function Key(u: UnicodeDb, item: string): string
  {
    Trim(u.lower(item))
  }

  /** `Key` as a function value, the form `Dedup` takes it in. */
  function KeyOf(u: UnicodeDb): string -> string
  {
    (item: string) => Key(u, item)
  }

  /** `extract_content_items(text)` (app.py:269-308). */
  function Segment(u: UnicodeDb, text: string): seq<string>
  {
    if text == "" || Trim(text) == "" then []
    else DedupState(KeyOf(u), Candidates(SplitOn(Clean(u, text), '\n'))).0
  }

  /** The loop program of app.py:269-308, proved to compute `Segment`. */
  method ExtractContentItems(u: UnicodeDb, text: string) returns (items: seq<string>)
    ensures items == Segment(u, text)
  {
    if text == "" || Trim(text) == "" {
      return [];
    }
    var cleaned := Clean(u, text);
    var lines := SplitOn(cleaned, '\n');
    var allItems := CollectItems(lines);
    items := Deduplicate(u, allItems);
  }

  /** The loop `for line in lines` (app.py:279-297) that fills `all_items`. */
  method CollectItems(lines: seq<string>) returns (allItems: seq<string>)
    ensures allItems == Candidates(lines)
  {
    allItems := [];
    var i := 0;
    while i < |lines|
      invariant 0 <= i <= |lines|
      invariant allItems == Candidates(lines[..i])
    {
      CandidatesStep(lines, i);
      allItems := AppendLineItems(allItems, lines[i]);
      i := i + 1;
    }
    TakeAll(lines);
  }

  /** One pass of the loop `for line in lines` (app.py:281-297): appends the line's items. */
  method AppendLineItems(allItems: seq<string>, rawLine: string) returns (extended: seq<string>)
    ensures extended == allItems + LineItems(rawLine)
  {
    extended := allItems;
    var line := Trim(rawLine);
    if line == "" {
      return;
    }
    var lineItems := SplitRuns(line);
    extended := AppendFragmentItems(allItems, lineItems);
  }

  /** The loop `for item in line_items` (app.py:290-297) over one line's fragments. */
  method AppendFragmentItems(allItems: seq<string>, lineItems: seq<string>) returns (extended: seq<string>)
    ensures extended == allItems + FragmentItems(lineItems)
  {
    extended := allItems;
    var j := 0;
    while j < |lineItems|
      invariant 0 <= j <= |lineItems|
      invariant extended == allItems + FragmentItems(lineItems[..j])
    {
      FragmentItemsStep(allItems, lineItems, j);
      extended := AppendFragmentItem(extended, lineItems[j]);
      j := j + 1;
    }
    TakeAll(lineItems);
  }

  /** The body of `for item in line_items` (app.py:290-297): strip, filter, collapse, append. */
  method AppendFragmentItem(allItems: seq<string>, fragment: string) returns (extended: seq<string>)
    ensures extended == allItems + FragmentItem(fragment)
  {
    extended := allItems;
    var item := StripBy(fragment, IsTrimChar);
    if item != "" && |item| >= 2 && HasAsciiLetter(item) {
      item := Collapse(item);
      extended := extended + [item];
    } else {
      assert FragmentItem(fragment) == [];
    }
  }

  lemma TakeAll<T>(s: seq<T>)
    ensures s[..|s|] == s
  {
  }

  /** The deduplication loop of app.py:299-306 with its `seen` set. */
  method Deduplicate(u: UnicodeDb, allItems: seq<string>) returns (unique: seq<string>)
    ensures unique == DedupState(KeyOf(u), allItems).0
  {
    var seen: set<string> := {};
    unique := [];
    var k := 0;
    while k < |allItems|
      invariant 0 <= k <= |allItems|
      invariant (unique, seen) == DedupState(KeyOf(u), allItems[..k])
    {
      assert allItems[..k + 1][..k] == allItems[..k];
      var itemLower := Key(u, allItems[k]);
      if itemLower != "" && itemLower !in seen {
        seen := seen + {itemLower};
        unique := unique + [allItems[k]];
      }
      k := k + 1;
    }
    assert allItems[..k] == allItems;
  }

  // ---------------------------------------------------------------------
  // What every item looks like (app.py:271-297)
  // ---------------------------------------------------------------------

  /** The shape every returned item has: at least two characters, an ASCII letter, one line, no tab, single spaces. */
  predicate WellFormedItem(item: string) {
    && |item| >= 2
    && HasAsciiLetter(item)
    && '\n' !in item
    && '\t' !in item
    && NoDoubleSpace(item)
  }

  lemma {:induction false} CollapseKeepsLetter(t: string, i: nat)
    requires i < |t| && IsAsciiLetter(t[i])
    ensures HasAsciiLetter(Collapse(t))
  {
    CollapseNonBlanks(t);
    NonBlanksMember(t, t[i]);
    NonBlanksMember(Collapse(t), t[i]);
    var c := t[i];
    var m :| 0 <= m < |Collapse(t)| && Collapse(t)[m] == c;
  }

  lemma CollapseNoNewline(t: string)
    requires '\n' !in t
    ensures '\n' !in Collapse(t)
  {
    CollapseNonBlanks(t);
    NonBlanksMember(t, '\n');
    NonBlanksMember(Collapse(t), '\n');
  }

  lemma CollapseWellFormed(t: string)
    requires |t| >= 2 && HasAsciiLetter(t) && '\n' !in t && NoDoubleBlank(t)
    ensures WellFormedItem(Collapse(t))
  {
    var i :| 0 <= i < |t| && IsAsciiLetter(t[i]);
    CollapseKeepsLetter(t, i);
    CollapseNoNewline(t);
    CollapseLength(t);
  }

  lemma StripFragmentShape(f: string)
    requires '\n' !in f && NoDoubleBlank(f)
    ensures '\n' !in StripBy(f, IsTrimChar) && NoDoubleBlank(StripBy(f, IsTrimChar))
  {
    var off := StripByInfix(f, IsTrimChar);
    NoDoubleBlankInfix(f, off, off + |StripBy(f, IsTrimChar)|);
    StripByAbsent(f, IsTrimChar, '\n');
  }

  lemma FragmentItemShape(f: string)
    requires '\n' !in f && NoDoubleBlank(f)
    ensures forall m :: 0 <= m < |FragmentItem(f)| ==> WellFormedItem(FragmentItem(f)[m])
  {
    if FragmentItem(f) != [] {
      FragmentItemKept(f);
      StripFragmentShape(f);
      CollapseWellFormed(StripBy(f, IsTrimChar));
    }
  }

  lemma FragmentItemKept(f: string)
    requires FragmentItem(f) != []
    ensures var t := StripBy(f, IsTrimChar);
            |t| >= 2 && HasAsciiLetter(t) && FragmentItem(f) == [Collapse(t)]
  {
  }

  lemma {:induction false} FragmentItemsShape(frags: seq<string>)
    requires forall i :: 0 <= i < |frags| ==> '\n' !in frags[i] && NoDoubleBlank(frags[i])
    ensures forall m :: 0 <= m < |FragmentItems(frags)| ==> WellFormedItem(FragmentItems(frags)[m])
  {
    if frags != [] {
      var init := frags[..|frags| - 1];
      FragmentItemsShape(init);
      FragmentItemShape(frags[|frags| - 1]);
    }
  }

  lemma LineItemsShape(line: string)
    requires '\n' !in line
    ensures forall m :: 0 <= m < |LineItems(line)| ==> WellFormedItem(LineItems(line)[m])
  {
    var t := Trim(line);
    if t != "" {
      StripByAbsent(line, IsSpace, '\n');
      FragmentItemsShape(SplitRuns(t));
    }
  }

  lemma {:induction false} CandidatesShape(lines: seq<string>)
    requires forall i :: 0 <= i < |lines| ==> '\n' !in lines[i]
    ensures forall m :: 0 <= m < |Candidates(lines)| ==> WellFormedItem(Candidates(lines)[m])
  {
    if lines != [] {
      CandidatesShape(lines[..|lines| - 1]);
      LineItemsShape(lines[|lines| - 1]);
    }
  }

  /**
   * Every item `extract_content_items` returns has at least two characters,
   * an ASCII letter, no line break, no tab and no two spaces in a row.
   */
  lemma SegmentItemShape(u: UnicodeDb, text: string)
    ensures forall m :: 0 <= m < |Segment(u, text)| ==> WellFormedItem(Segment(u, text)[m])
  {
    if !(text == "" || Trim(text) == "") {
      var lines := SplitOn(Clean(u, text), '\n');
      var all := Candidates(lines);
      CandidatesShape(lines);
      DedupKeepsInputs(KeyOf(u), all);
    }
  }

  /** Empty or whitespace-only text gives no items (app.py:271-272). */
  lemma SegmentBlankText(u: UnicodeDb, text: string)
    requires forall i :: 0 <= i < |text| ==> IsSpace(text[i])
    ensures Segment(u, text) == []
  {
  }

  // ---------------------------------------------------------------------
  // Deduplication (app.py:299-306)
  // ---------------------------------------------------------------------

  /** No two items `extract_content_items` returns have the same `lower().strip()`. */
  lemma SegmentKeysDistinct(u: UnicodeDb, text: string)
    ensures forall m, n :: 0 <= m < n < |Segment(u, text)| ==>
              Key(u, Segment(u, text)[m]) != Key(u, Segment(u, text)[n])
  {
    if !(text == "" || Trim(text) == "") {
      DedupKeysDistinct(KeyOf(u), Candidates(SplitOn(Clean(u, text), '\n')));
    }
  }

  /** Every candidate with a non-empty key is represented in the result by an item with the same key. */
  lemma SegmentCoversCandidates(u: UnicodeDb, text: string)
    requires !(text == "" || Trim(text) == "")
    ensures var all := Candidates(SplitOn(Clean(u, text), '\n'));
            forall i :: 0 <= i < |all| && Key(u, all[i]) != "" ==> HasKey(KeyOf(u), Segment(u, text), Key(u, all[i]))
  {
    var all := Candidates(SplitOn(Clean(u, text), '\n'));
    DedupSeenInput(KeyOf(u), all);
    DedupSeenOutput(KeyOf(u), all);
    forall i | 0 <= i < |all| && Key(u, all[i]) != "" ensures HasKey(KeyOf(u), all, Key(u, all[i])) {
    }
  }

  // ---------------------------------------------------------------------
  // Worked cases
  // ---------------------------------------------------------------------

  /** Two spaces separate two items on one line (app.py:287). */
  lemma SplitRunsTwoSpaces()
    ensures SplitRuns("ab  cd") == ["ab", "cd"]
  {
    var s := "ab  cd";
    assert FirstDoubleBlank(s, 2) == 2;
    assert FirstDoubleBlank(s, 0) == 2;
    assert BlankRunEnd(s, 4) == 4;
    assert BlankRunEnd(s, 2) == 4;
    assert s[4..] == "cd";
    assert NoDoubleBlank("cd");
    assert s[..2] == "ab";
  }

  lemma CollapseCons(s: string)
    requires s != [] && !IsBlank(s[0])
    ensures Collapse(s) == [s[0]] + Collapse(s[1..])
  {
  }

  lemma CollapseTrailingTab()
    ensures Collapse("abc\t") == "abc "
  {
    assert BlankRunEnd("\t", 0) == 1;
    assert Collapse("\t") == " ";
    CollapseCons("c\t");
    assert "c\t"[1..] == "\t";
    CollapseCons("bc\t");
    assert "bc\t"[1..] == "c\t";
    CollapseCons("abc\t");
    assert "abc\t"[1..] == "bc\t";
  }

  lemma TrimKeepsTab()
    ensures StripBy("abc\t(", IsTrimChar) == "abc\t"
  {
    var f := "abc\t(";
    assert !IsTrimChar(f[0]) && !IsTrimChar(f[3]) && IsTrimChar(f[4]);
    StripByDropLast(f, IsTrimChar);
    assert f[..4] == "abc\t";
  }

  /**
   * The trim of app.py:291 does not remove a tab and runs before the collapse
   * of app.py:296, so a fragment can give an item that ends in a space.
   */
  lemma TrimBeforeCollapse()
    ensures FragmentItem("abc\t(") == ["abc "]
  {
    TrimKeepsTab();
    CollapseTrailingTab();
    assert IsAsciiLetter("abc\t"[0]);
  }

  lemma StripByNoDoubleBlank(s: string, p: char -> bool)
    requires NoDoubleBlank(s)
    ensures NoDoubleBlank(StripBy(s, p))
  {
    var off := StripByInfix(s, p);
    NoDoubleBlankInfix(s, off, off + |StripBy(s, p)|);
  }

  /** A line with no two blanks in a row is one phrase: it gives at most one item, its stripped self (app.py:282-297). */
  lemma SinglySpacedLineIsOnePhrase(line: string)
    requires NoDoubleBlank(line)
    ensures LineItems(line) == FragmentItem(Trim(line))
  {
    var t := Trim(line);
    if t != "" {
      StripByNoDoubleBlank(line, IsSpace);
      SplitRunsPhrase(t);
      FragmentItemsOne(t);
    }
  }

  lemma SplitRunsPhrase(t: string)
    requires NoDoubleBlank(t)
    ensures SplitRuns(t) == [t]
  {
  }

  lemma FragmentItemsOne(f: string)
    ensures FragmentItems([f]) == FragmentItem(f)
  {
    assert [f][..0] == [];
  }

  lemma CandidatesOneLine(line: string)
    ensures Candidates([line]) == LineItems(line)
  {
    assert [line][..0] == [];
  }

  lemma CleanKeepsKept(u: UnicodeDb, s: string)
    requires forall i :: 0 <= i < |s| ==> IsKept(u, s[i])
    ensures Clean(u, s) == s
  {
  }

  lemma CollapseWord()
    ensures Collapse("abc") == "abc"
  {
    assert "abc"[1..] == "bc" && "bc"[1..] == "c" && "c"[1..] == "";
    CollapseCons("abc");
    CollapseCons("bc");
    CollapseCons("c");
  }

  lemma FragmentItemUntrimmed(f: string)
    requires |f| >= 2 && !IsTrimChar(f[0]) && !IsTrimChar(f[|f| - 1]) && IsAsciiLetter(f[0])
    ensures FragmentItem(f) == [Collapse(f)]
  {
    StripByStripped(f, IsTrimChar);
  }

  lemma FragmentItemWord()
    ensures FragmentItem("abc") == ["abc"]
  {
    var f := "abc";
    assert |f| >= 2 && !IsTrimChar(f[0]) && !IsTrimChar(f[|f| - 1]) && IsAsciiLetter(f[0]);
    FragmentItemUntrimmed(f);
    CollapseWord();
  }

  lemma StripTrailingSpace()
    ensures Trim("abc ") == "abc"
  {
    var t := "abc ";
    assert !IsSpace(t[0]) && !IsSpace(t[2]) && IsSpace(t[3]);
    StripByDropLast(t, IsSpace);
    assert t[..3] == "abc";
  }

  lemma SplitOnAbsent(s: string, sep: char)
    requires sep !in s
    ensures SplitOn(s, sep) == [s]
  {
  }

  /** A text that is one singly spaced line of kept characters is segmented as that line's one phrase. */
  lemma SegmentOneLine(u: UnicodeDb, s: string)
    requires forall i :: 0 <= i < |s| ==> IsKept(u, s[i])
    requires '\n' !in s && NoDoubleBlank(s) && Trim(s) != ""
    ensures Segment(u, s) == DedupState(KeyOf(u), FragmentItem(Trim(s))).0
  {
    CleanKeepsKept(u, s);
    SplitOnAbsent(s, '\n');
    CandidatesOneLine(s);
    SinglySpacedLineIsOnePhrase(s);
  }

  lemma TabLineKept(u: UnicodeDb)
    requires u.isWord('a') && u.isWord('b') && u.isWord('c')
    ensures forall i :: 0 <= i < |"abc\t("| ==> IsKept(u, "abc\t("[i])
  {
  }

  lemma TabLineSingle()
    ensures '\n' !in "abc\t(" && NoDoubleBlank("abc\t(")
  {
  }

  lemma SpaceLineFacts(u: UnicodeDb)
    requires u.isWord('a') && u.isWord('b') && u.isWord('c')
    ensures forall i :: 0 <= i < |"abc "| ==> IsKept(u, "abc "[i])
    ensures '\n' !in "abc " && NoDoubleBlank("abc ")
  {
  }

  /** The same, for a line with nothing to strip at either end. */
  lemma SegmentStrippedLine(u: UnicodeDb, s: string)
    requires forall i :: 0 <= i < |s| ==> IsKept(u, s[i])
    requires '\n' !in s && NoDoubleBlank(s)
    requires s != [] && !IsSpace(s[0]) && !IsSpace(s[|s| - 1])
    ensures Segment(u, s) == DedupState(KeyOf(u), FragmentItem(s)).0
  {
    StripByStripped(s, IsSpace);
    SegmentOneLine(u, s);
  }

  lemma KeyTrailingSpace(u: UnicodeDb)
    requires u.lower("abc ") == "abc "
    ensures Key(u, "abc ") == "abc"
  {
    StripTrailingSpace();
  }

  lemma KeyWord(u: UnicodeDb)
    requires u.lower("abc") == "abc"
    ensures Key(u, "abc") == "abc"
  {
    StripByStripped("abc", IsSpace);
  }

  lemma SegmentTabLine(u: UnicodeDb)
    requires u.isWord('a') && u.isWord('b') && u.isWord('c')
    ensures Segment(u, "abc\t(") == DedupState(KeyOf(u), FragmentItem("abc\t(")).0
  {
    TabLineKept(u);
    TabLineSingle();
    SegmentStrippedLine(u, "abc\t(");
  }

  lemma TabLineItems(u: UnicodeDb)
    requires u.lower("abc ") == "abc "
    ensures DedupState(KeyOf(u), FragmentItem("abc\t(")).0 == ["abc "]
  {
    TrimBeforeCollapse();
    KeyTrailingSpace(u);
    DedupOne(KeyOf(u), "abc ");
  }

  /** A tab before a closing bracket survives as a trailing space (app.py:291, app.py:296). */
  lemma SegmentTrailingTab(u: UnicodeDb)
    requires u.isWord('a') && u.isWord('b') && u.isWord('c')
    requires u.lower("abc ") == "abc "
    ensures Segment(u, "abc\t(") == ["abc "]
  {
    SegmentTabLine(u);
    TabLineItems(u);
  }

  lemma SegmentSpaceLine(u: UnicodeDb)
    requires u.isWord('a') && u.isWord('b') && u.isWord('c')
    ensures Segment(u, "abc ") == DedupState(KeyOf(u), FragmentItem("abc")).0
  {
    SpaceLineFacts(u);
    StripTrailingSpace();
    SegmentOneLine(u, "abc ");
  }

  lemma SpaceLineItems(u: UnicodeDb)
    requires u.lower("abc") == "abc"
    ensures DedupState(KeyOf(u), FragmentItem("abc")).0 == ["abc"]
  {
    FragmentItemWord();
    KeyWord(u);
    DedupOne(KeyOf(u), "abc");
  }

  /** The trailing space goes when the item is segmented again: the line is stripped first (app.py:282). */
  lemma SegmentTrailingSpace(u: UnicodeDb)
    requires u.isWord('a') && u.isWord('b') && u.isWord('c')
    requires u.lower("abc") == "abc"
    ensures Segment(u, "abc ") == ["abc"]
  {
    SegmentSpaceLine(u);
    SpaceLineItems(u);
  }

  /**
   * Re-segmenting an item need not give it back: `"abc\t("` gives the
   * single item `"abc "`, and `"abc "` gives `"abc"`. The assumptions on the
   * database are what Python's hold for these letters.
   */
  lemma ResegmentingChangesItems(u: UnicodeDb)
    requires u.isWord('a') && u.isWord('b') && u.isWord('c')
    requires u.lower("abc ") == "abc " && u.lower("abc") == "abc"
    ensures Segment(u, "abc\t(") == ["abc "]
    ensures Segment(u, Segment(u, "abc\t(")[0]) != Segment(u, "abc\t(")
  {
    SegmentTrailingTab(u);
    SegmentTrailingSpace(u);
  }
}
