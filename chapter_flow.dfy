/**
 * The hand-off of confirmed study items between two requests of the chapter
 * workflow: the confirm step strips the submitted items and drops blank ones
 * (app.py:416), joins them with ',' into a query parameter (app.py:435), and
 * the processing step splits that parameter on ',' and strips and filters
 * again (app.py:449).
 */
module ChapterFlow {
  import opened Text

  /** A non-blank string with no whitespace at either end: what `Trim` gives when it gives anything. */
  predicate Trimmed(s: string) {
    s != [] && !IsSpace(s[0]) && !IsSpace(s[|s| - 1])
  }

  /**
   * `[item.strip() for item in xs if item.strip()]`, the comprehension both
   * steps use (app.py:416, app.py:449). Every result is trimmed.
   */
  function StripNonBlank(xs: seq<string>): (r: seq<string>)
    ensures |r| <= |xs|
    ensures forall i :: 0 <= i < |r| ==> Trimmed(r[i])
  {
    if xs == [] then []
    else
      var t := Trim(xs[0]);
      (if t == "" then [] else [t]) + StripNonBlank(xs[1..])
  }

  /**
   * The comprehension keeps exactly the stripped non-blank entries, in
   * order: `idx` lists, strictly increasing, the positions of the entries
   * whose strip is non-empty, result `m` is the strip of entry `idx[m]`,
   * and such an entry `i` is result `rank[i]`.
   */
  lemma {:induction false} StripNonBlankIndices(xs: seq<string>) returns (idx: seq<nat>, rank: seq<nat>)
    ensures |idx| == |StripNonBlank(xs)| && |rank| == |xs|
    ensures forall m :: 0 <= m < |idx| ==>
              idx[m] < |xs| && Trim(xs[idx[m]]) != "" && StripNonBlank(xs)[m] == Trim(xs[idx[m]])
    ensures forall m, n :: 0 <= m < n < |idx| ==> idx[m] < idx[n]
    ensures forall i :: 0 <= i < |xs| && Trim(xs[i]) != "" ==> rank[i] < |idx| && idx[rank[i]] == i
  {
    idx, rank := StripNonBlankIndexed(xs);
  }

  /** StripNonBlankIndices with its conclusion bundled, proved by induction on xs. */
  lemma {:induction false} StripNonBlankIndexed(xs: seq<string>) returns (idx: seq<nat>, rank: seq<nat>)
    ensures Indexes(HasText, Trim, xs, StripNonBlank(xs), idx, rank)
  {
    if xs == [] {
      idx, rank := [], [];
    } else {
      var rest, rank' := StripNonBlankIndexed(xs[1..]);
      var ys, r := xs[1..], StripNonBlank(xs[1..]);
      assert xs == [xs[0]] + ys;
      if !HasText(xs[0]) {
        assert StripNonBlank(xs) == r;
        idx, rank := Shift(rest), [0] + rank';
        IndicesDrop(HasText, Trim, xs[0], ys, r, rest, rank');
      } else {
        assert StripNonBlank(xs) == [Trim(xs[0])] + r;
        idx, rank := [0] + Shift(rest), [0] + Shift(rank');
        IndicesKeep(HasText, Trim, xs[0], ys, r, rest, rank');
      }
    }
  }

  /** An entry the comprehension keeps: something is left after stripping. */
  predicate HasText(s: string) { Trim(s) != "" }

  /**
   * `idx` lists, increasing, the positions of the entries of xs that `keep`
   * accepts, r holds their images under f, and an accepted entry `i` sits at
   * `rank[i]`.
   */
  ghost predicate Indexes<T, U>(keep: T -> bool, f: T -> U, xs: seq<T>, r: seq<U>, idx: seq<nat>, rank: seq<nat>)
  {
    && |idx| == |r| && |rank| == |xs|
    && (forall m :: 0 <= m < |idx| ==> idx[m] < |xs| && keep(xs[idx[m]]) && r[m] == f(xs[idx[m]]))
    && (forall m, n :: 0 <= m < n < |idx| ==> idx[m] < idx[n])
    && (forall i :: 0 <= i < |xs| && keep(xs[i]) ==> rank[i] < |idx| && idx[rank[i]] == i)
  }

  /** One more rejected entry in front: every position moves one on, every rank stays. */
  lemma IndicesDrop<T, U>(keep: T -> bool, f: T -> U, x: T, ys: seq<T>, r: seq<U>, rest: seq<nat>, rank: seq<nat>)
    requires Indexes(keep, f, ys, r, rest, rank) && !keep(x)
    ensures Indexes(keep, f, [x] + ys, r, Shift(rest), [0] + rank)
  {
    DropValues(keep, f, x, ys, r, rest);
    DropOrder(rest);
    DropRanks(keep, x, ys, rest, rank);
  }

  /** The values clause of IndicesDrop. */
  lemma DropValues<T, U>(keep: T -> bool, f: T -> U, x: T, ys: seq<T>, r: seq<U>, rest: seq<nat>)
    requires |rest| == |r|
    requires forall m :: 0 <= m < |rest| ==> rest[m] < |ys| && keep(ys[rest[m]]) && r[m] == f(ys[rest[m]])
    ensures var xs, idx := [x] + ys, Shift(rest);
            forall m :: 0 <= m < |idx| ==> idx[m] < |xs| && keep(xs[idx[m]]) && r[m] == f(xs[idx[m]])
  {
    var xs, idx := [x] + ys, Shift(rest);
    assert forall m :: 0 <= m < |rest| ==> idx[m] == rest[m] + 1 && xs[rest[m] + 1] == ys[rest[m]];
  }

  /** The order clause of IndicesDrop. */
  lemma DropOrder(rest: seq<nat>)
    requires forall m, n :: 0 <= m < n < |rest| ==> rest[m] < rest[n]
    ensures var idx := Shift(rest); forall m, n :: 0 <= m < n < |idx| ==> idx[m] < idx[n]
  {
  }

  /** The rank clause of IndicesDrop. */
  lemma DropRanks<T>(keep: T -> bool, x: T, ys: seq<T>, rest: seq<nat>, rank: seq<nat>)
    requires |rank| == |ys| && !keep(x)
    requires forall i :: 0 <= i < |ys| && keep(ys[i]) ==> rank[i] < |rest| && rest[rank[i]] == i
    ensures var xs, idx, rank' := [x] + ys, Shift(rest), [0] + rank;
            forall i :: 0 <= i < |xs| && keep(xs[i]) ==> rank'[i] < |idx| && idx[rank'[i]] == i
  {
    var xs, idx, rank' := [x] + ys, Shift(rest), [0] + rank;
    assert forall i :: 1 <= i < |xs| ==> xs[i] == ys[i - 1] && rank'[i] == rank[i - 1];
  }

  /** One more accepted entry in front: it is result 0 at position 0, every rank moves one on. */
  lemma IndicesKeep<T, U>(keep: T -> bool, f: T -> U, x: T, ys: seq<T>, r: seq<U>, rest: seq<nat>, rank: seq<nat>)
    requires Indexes(keep, f, ys, r, rest, rank) && keep(x)
    ensures Indexes(keep, f, [x] + ys, [f(x)] + r, [0] + Shift(rest), [0] + Shift(rank))
  {
    KeepValues(keep, f, x, ys, r, rest);
    KeepOrder(rest);
    KeepRanks(keep, x, ys, rest, rank);
  }

  /** The values clause of IndicesKeep. */
  lemma KeepValues<T, U>(keep: T -> bool, f: T -> U, x: T, ys: seq<T>, r: seq<U>, rest: seq<nat>)
    requires |rest| == |r| && keep(x)
    requires forall m :: 0 <= m < |rest| ==> rest[m] < |ys| && keep(ys[rest[m]]) && r[m] == f(ys[rest[m]])
    ensures var xs, idx, r' := [x] + ys, [0] + Shift(rest), [f(x)] + r;
            forall m :: 0 <= m < |idx| ==> idx[m] < |xs| && keep(xs[idx[m]]) && r'[m] == f(xs[idx[m]])
  {
    var xs, idx, r' := [x] + ys, [0] + Shift(rest), [f(x)] + r;
    assert forall m :: 1 <= m < |idx| ==> idx[m] == rest[m - 1] + 1 && r'[m] == r[m - 1];
    assert forall m :: 0 <= m < |rest| ==> xs[rest[m] + 1] == ys[rest[m]];
  }

  /** The order clause of IndicesKeep. */
  lemma KeepOrder(rest: seq<nat>)
    requires forall m, n :: 0 <= m < n < |rest| ==> rest[m] < rest[n]
    ensures var idx := [0] + Shift(rest); forall m, n :: 0 <= m < n < |idx| ==> idx[m] < idx[n]
  {
    var idx := [0] + Shift(rest);
    assert forall m :: 1 <= m < |idx| ==> idx[m] == rest[m - 1] + 1;
  }

  /** The rank clause of IndicesKeep. */
  lemma KeepRanks<T>(keep: T -> bool, x: T, ys: seq<T>, rest: seq<nat>, rank: seq<nat>)
    requires |rank| == |ys| && keep(x)
    requires forall i :: 0 <= i < |ys| && keep(ys[i]) ==> rank[i] < |rest| && rest[rank[i]] == i
    ensures var xs, idx, rank' := [x] + ys, [0] + Shift(rest), [0] + Shift(rank);
            forall i :: 0 <= i < |xs| && keep(xs[i]) ==> rank'[i] < |idx| && idx[rank'[i]] == i
  {
    var xs, idx, rank' := [x] + ys, [0] + Shift(rest), [0] + Shift(rank);
    assert forall i :: 1 <= i < |xs| ==> xs[i] == ys[i - 1] && rank'[i] == rank[i - 1] + 1;
    assert forall m :: 1 <= m < |idx| ==> idx[m] == rest[m - 1] + 1;
  }

  /** Every position one further on. */
  function Shift(idx: seq<nat>): (r: seq<nat>)
    ensures |r| == |idx|
  {
    seq(|idx|, m requires 0 <= m < |idx| => idx[m] + 1)
  }

  /** A character no input holds is in no result. */
  lemma {:induction false} StripNonBlankAbsent(xs: seq<string>, c: char)
    requires forall j :: 0 <= j < |xs| ==> c !in xs[j]
    ensures forall i :: 0 <= i < |StripNonBlank(xs)| ==> c !in StripNonBlank(xs)[i]
  {
    if xs != [] {
      StripByAbsent(xs[0], IsSpace, c);
      StripNonBlankAbsent(xs[1..], c);
    }
  }

  /** The items the confirm step keeps (app.py:416). */
  function ConfirmItems(submitted: seq<string>): seq<string>
  {
    StripNonBlank(submitted)
  }

  /** The query parameter `','.join(confirmed_items)` (app.py:435). */
  function ItemsParam(items: seq<string>): string
  {
    JoinWith(items, ',')
  }

  /** The items the processing step reads back from the parameter (app.py:449). */
  function ProcessItems(param: string): seq<string>
  {
    StripNonBlank(SplitOn(param, ','))
  }

  /** Strings that are already trimmed pass through the comprehension unchanged. */
  lemma {:induction false} StripNonBlankTrimmed(xs: seq<string>)
    requires forall i :: 0 <= i < |xs| ==> Trimmed(xs[i])
    ensures StripNonBlank(xs) == xs
  {
    if xs != [] {
      StripByStripped(xs[0], IsSpace);
      StripNonBlankTrimmed(xs[1..]);
    }
  }

  /** Confirming twice keeps what confirming once kept. */
  lemma ConfirmIdempotent(submitted: seq<string>)
    ensures ConfirmItems(ConfirmItems(submitted)) == ConfirmItems(submitted)
  {
    StripNonBlankTrimmed(ConfirmItems(submitted));
  }

  /** Nothing the processing step reads back contains a ','. */
  lemma ProcessItemsHaveNoComma(param: string)
    ensures forall i :: 0 <= i < |ProcessItems(param)| ==> ',' !in ProcessItems(param)[i]
  {
    StripNonBlankAbsent(SplitOn(param, ','), ',');
  }

  /**
   * The hand-off gives a list back unchanged exactly when every item is
   * trimmed and non-blank and holds no ','.
   */
  lemma HandOffExact(items: seq<string>)
    ensures ProcessItems(ItemsParam(items)) == items <==>
              forall i :: 0 <= i < |items| ==> Trimmed(items[i]) && ',' !in items[i]
  {
    if forall i :: 0 <= i < |items| ==> Trimmed(items[i]) && ',' !in items[i] {
      if items == [] {
        assert SplitOn("", ',') == [""];
      } else {
        SplitJoin(items, ',');
        StripNonBlankTrimmed(items);
      }
    }
    ProcessItemsHaveNoComma(ItemsParam(items));
  }

  /** For confirmed items the hand-off is lossless exactly when no item holds a ','. */
  lemma ConfirmedHandOff(submitted: seq<string>)
    ensures var items := ConfirmItems(submitted);
            ProcessItems(ItemsParam(items)) == items <==> forall i :: 0 <= i < |items| ==> ',' !in items[i]
  {
    HandOffExact(ConfirmItems(submitted));
  }

  /** An item with an inner comma comes back as two items. */
  lemma CommaSplitsItem()
    ensures ProcessItems(ItemsParam(["a,b"])) == ["a", "b"]
  {
    var parts := ["a", "b"];
    assert ItemsParam(["a,b"]) == "a,b";
    assert SplitOn("a,b", ',') == parts by {
      assert JoinWith(parts, ',') == "a,b" by {
        assert parts[1..] == ["b"];
      }
      assert ',' !in parts[0] && ',' !in parts[1];
      SplitJoin(parts, ',');
    }
    assert StripNonBlank(parts) == parts by {
      assert Trimmed(parts[0]) && Trimmed(parts[1]);
      StripNonBlankTrimmed(parts);
    }
  }
}
