/**
 * The deduplication loop of `extract_content_items` (app.py:299-306): an
 * item is kept when its key is non-empty and not yet in the `seen` set. The
 * key function is a parameter; the application's is `item.lower().strip()`.
 */
module Dedup {

  /** `(unique_items, seen)` after the deduplication loop has read `xs` (app.py:300-306). */
  function DedupState(key: string -> string, xs: seq<string>): (seq<string>, set<string>)
  {
    if xs == [] then ([], {})
    else
      var (out, seen) := DedupState(key, xs[..|xs| - 1]);
      var x := xs[|xs| - 1];
      var k := key(x);
      if k != "" && k !in seen then (out + [x], seen + {k}) else (out, seen)
  }

  /** Deduplication only ever keeps items it was given. */
  lemma {:induction false} DedupKeepsInputs(key: string -> string, xs: seq<string>)
    ensures forall m :: 0 <= m < |DedupState(key, xs).0| ==> DedupState(key, xs).0[m] in xs
  {
    if xs != [] {
      var init := xs[..|xs| - 1];
      DedupKeepsInputs(key, init);
      assert forall x :: x in init ==> x in xs;
    }
  }

  /** Some item of `xs` has key `k`. */
  predicate HasKey(key: string -> string, xs: seq<string>, k: string) {
    exists j :: 0 <= j < |xs| && key(xs[j]) == k
  }

  /** Position `i` holds the first item of `xs` with its key, and that key is not empty. */
  predicate FirstOccurrence(key: string -> string, xs: seq<string>, i: nat)
    requires i < |xs|
  {
    key(xs[i]) != "" && !HasKey(key, xs[..i], key(xs[i]))
  }

  lemma HasKeyLast(key: string -> string, xs: seq<string>, k: string)
    requires xs != []
    ensures HasKey(key, xs, k) <==> HasKey(key, xs[..|xs| - 1], k) || key(xs[|xs| - 1]) == k
  {
    HasKeySplit(key, xs, k);
    HasKeyGrow(key, xs, k);
    if key(xs[|xs| - 1]) == k {
      HasKeyAt(key, xs, |xs| - 1, k);
    }
  }

  lemma HasKeySplit(key: string -> string, xs: seq<string>, k: string)
    requires xs != []
    ensures HasKey(key, xs, k) ==> HasKey(key, xs[..|xs| - 1], k) || key(xs[|xs| - 1]) == k
  {
    if HasKey(key, xs, k) {
      var j :| 0 <= j < |xs| && key(xs[j]) == k;
      if j < |xs| - 1 {
        assert xs[..|xs| - 1][j] == xs[j];
        HasKeyAt(key, xs[..|xs| - 1], j, k);
      }
    }
  }

  lemma HasKeyGrow(key: string -> string, xs: seq<string>, k: string)
    requires xs != []
    ensures HasKey(key, xs[..|xs| - 1], k) ==> HasKey(key, xs, k)
  {
    if HasKey(key, xs[..|xs| - 1], k) {
      var init := xs[..|xs| - 1];
      var j :| 0 <= j < |init| && key(init[j]) == k;
      assert xs[j] == init[j];
      HasKeyAt(key, xs, j, k);
    }
  }

  lemma HasKeyAt(key: string -> string, xs: seq<string>, j: nat, k: string)
    requires j < |xs| && key(xs[j]) == k
    ensures HasKey(key, xs, k)
  {
  }

  /** The `seen` set holds exactly the non-empty keys of the input. */
  lemma {:induction false} DedupSeenInput(key: string -> string, xs: seq<string>)
    ensures forall k :: k in DedupState(key, xs).1 <==> k != "" && HasKey(key, xs, k)
  {
    if xs != [] {
      DedupSeenInput(key, xs[..|xs| - 1]);
      forall k ensures k in DedupState(key, xs).1 <==> k != "" && HasKey(key, xs, k) {
        HasKeyLast(key, xs, k);
      }
    }
  }

  /** The `seen` set holds exactly the keys of the deduplicated list. */
  lemma {:induction false} DedupSeenOutput(key: string -> string, xs: seq<string>)
    ensures forall k :: k in DedupState(key, xs).1 <==> HasKey(key, DedupState(key, xs).0, k)
  {
    if xs != [] {
      var init := xs[..|xs| - 1];
      DedupSeenOutput(key, init);
      var out := DedupState(key, init).0;
      var out' := DedupState(key, xs).0;
      if out' != out {
        assert out'[..|out'| - 1] == out;
        forall k ensures k in DedupState(key, xs).1 <==> HasKey(key, out', k) {
          HasKeyLast(key, out', k);
        }
      }
    }
  }

  lemma FirstOccurrencePrefix(key: string -> string, xs: seq<string>, n: nat, i: nat)
    requires i < n <= |xs|
    ensures FirstOccurrence(key, xs[..n], i) <==> FirstOccurrence(key, xs, i)
  {
    assert xs[..n][..i] == xs[..i];
  }

  /** The positions of `xs` that hold a first occurrence, in increasing order. */
  function FirstIndices(key: string -> string, xs: seq<string>): (idx: seq<nat>)
    ensures forall m :: 0 <= m < |idx| ==> idx[m] < |xs|
  {
    if xs == [] then []
    else
      var rest := FirstIndices(key, xs[..|xs| - 1]);
      if FirstOccurrence(key, xs, |xs| - 1) then rest + [|xs| - 1] else rest
  }

  lemma {:induction false} FirstIndicesSorted(key: string -> string, xs: seq<string>)
    ensures forall m, n :: 0 <= m < n < |FirstIndices(key, xs)| ==> FirstIndices(key, xs)[m] < FirstIndices(key, xs)[n]
  {
    if xs != [] {
      FirstIndicesSorted(key, xs[..|xs| - 1]);
    }
  }

  lemma {:induction false} FirstIndicesExact(key: string -> string, xs: seq<string>)
    ensures forall i :: 0 <= i < |xs| ==> (i in FirstIndices(key, xs) <==> FirstOccurrence(key, xs, i))
  {
    if xs != [] {
      var last := |xs| - 1;
      var rest := FirstIndices(key, xs[..last]);
      FirstIndicesExact(key, xs[..last]);
      forall i | 0 <= i < |xs| ensures i in FirstIndices(key, xs) <==> FirstOccurrence(key, xs, i) {
        if i < last {
          FirstOccurrencePrefix(key, xs, last, i);
          assert i in rest <==> FirstOccurrence(key, xs[..last], i);
        }
      }
    }
  }

  /** One step of the deduplication loop keeps an item exactly when it is a first occurrence. */
  lemma DedupStep(key: string -> string, xs: seq<string>)
    requires xs != []
    ensures DedupState(key, xs).0 ==
              if FirstOccurrence(key, xs, |xs| - 1) then DedupState(key, xs[..|xs| - 1]).0 + [xs[|xs| - 1]]
              else DedupState(key, xs[..|xs| - 1]).0
  {
    DedupSeenInput(key, xs[..|xs| - 1]);
  }

  lemma {:induction false} DedupPicksFirstIndices(key: string -> string, xs: seq<string>)
    ensures |FirstIndices(key, xs)| == |DedupState(key, xs).0|
    ensures forall m :: 0 <= m < |FirstIndices(key, xs)| ==> DedupState(key, xs).0[m] == xs[FirstIndices(key, xs)[m]]
  {
    if xs != [] {
      var last := |xs| - 1;
      var init := xs[..last];
      DedupPicksFirstIndices(key, init);
      DedupStep(key, xs);
      var idx0 := FirstIndices(key, init);
      assert forall m :: 0 <= m < |idx0| ==> xs[idx0[m]] == init[idx0[m]];
    }
  }

  /** No two kept items have the same key. */
  lemma {:induction false} DedupKeysDistinct(key: string -> string, xs: seq<string>)
    ensures forall m, n :: 0 <= m < n < |DedupState(key, xs).0| ==>
              key(DedupState(key, xs).0[m]) != key(DedupState(key, xs).0[n])
  {
    if xs != [] {
      var init := xs[..|xs| - 1];
      DedupKeysDistinct(key, init);
      DedupSeenOutput(key, init);
      var out0 := DedupState(key, init).0;
      var out := DedupState(key, xs).0;
      if out != out0 {
        var k := key(xs[|xs| - 1]);
        assert !HasKey(key, out0, k);
        assert forall m :: 0 <= m < |out0| ==> key(out0[m]) != k;
      }
    }
  }

  /**
   * The deduplicated list is the input restricted to the first occurrence of
   * each non-empty key, in input order: `idx` maps each output position to a
   * strictly increasing input position, that position is a first occurrence
   * (so the first spelling is kept), and every first occurrence is listed.
   */
  lemma DedupFirstOccurrences(key: string -> string, xs: seq<string>) returns (idx: seq<nat>)
    ensures |idx| == |DedupState(key, xs).0|
    ensures forall m :: 0 <= m < |idx| ==>
              idx[m] < |xs| && DedupState(key, xs).0[m] == xs[idx[m]] && FirstOccurrence(key, xs, idx[m])
    ensures forall m, n :: 0 <= m < n < |idx| ==> idx[m] < idx[n]
    ensures forall i :: 0 <= i < |xs| && FirstOccurrence(key, xs, i) ==> i in idx
  {
    idx := FirstIndices(key, xs);
    FirstIndicesSorted(key, xs);
    FirstIndicesExact(key, xs);
    DedupPicksFirstIndices(key, xs);
  }

  lemma DedupOne(key: string -> string, x: string)
    requires key(x) != ""
    ensures DedupState(key, [x]).0 == [x]
  {
    assert [x][..0] == [];
  }
}
