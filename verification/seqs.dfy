/**
 * Order-preserving selection over sequences. Both components of the model
 * select from an array in one of two JavaScript forms: `array.filter(test)`,
 * or `array.map(x => test(x) ? element : null)`, whose `null` entries React
 * renders as nothing. Either way what reaches the page is the elements that
 * pass the test, in array order, none dropped; `Filter` is that selection.
 */
module Seqs {

  /** The elements of `s` for which `keep` holds, in their order in `s`. */
  function Filter<T(!new)>(s: seq<T>, keep: T -> bool): (r: seq<T>)
    ensures |r| <= |s|
    ensures forall x :: x in r <==> x in s && keep(x)
  {
    if s == [] then []
    else if keep(s[0]) then [s[0]] + Filter(s[1..], keep)
    else Filter(s[1..], keep)
  }

  /** `idx` lists strictly increasing positions of `s` that spell out `r`. */
  ghost predicate Embedding<T>(r: seq<T>, s: seq<T>, idx: seq<nat>) {
    && |idx| == |r|
    && (forall k :: 0 <= k < |idx| ==> idx[k] < |s| && r[k] == s[idx[k]])
    && (forall j, k :: 0 <= j < k < |idx| ==> idx[j] < idx[k])
  }

  /** `r` is `s` with some elements left out and the rest kept in order. */
  ghost predicate IsSubsequence<T>(r: seq<T>, s: seq<T>) {
    exists idx :: Embedding(r, s, idx)
  }

  /**
   * `r` is made of exactly the elements of `s` at the positions where `keep`
   * holds, in the order of `s`: nothing reordered, nothing truncated.
   */
  ghost predicate Selects<T>(r: seq<T>, s: seq<T>, keep: T -> bool) {
    exists idx :: Embedding(r, s, idx) && forall i :: 0 <= i < |s| ==> (i in idx <==> keep(s[i]))
  }

  /** Every position moved one place to the right. */
  function Shift(idx: seq<nat>): (r: seq<nat>)
    ensures |r| == |idx|
    ensures forall k :: 0 <= k < |idx| ==> r[k] == idx[k] + 1
  {
    seq(|idx|, k requires 0 <= k < |idx| => idx[k] + 1)
  }

  lemma ShiftMember(idx: seq<nat>, i: nat)
    ensures i + 1 in Shift(idx) <==> i in idx
    ensures 0 !in Shift(idx)
  {
    var sh := Shift(idx);
    if i in idx {
      var k :| 0 <= k < |idx| && idx[k] == i;
      assert sh[k] == i + 1;
    }
  }

  /** An embedding survives putting one more element in front of `s`. */
  lemma EmbeddingShift<T>(r: seq<T>, x: T, t: seq<T>, idx: seq<nat>)
    requires Embedding(r, t, idx)
    ensures Embedding(r, [x] + t, Shift(idx))
  {
    var s, sh := [x] + t, Shift(idx);
    forall k | 0 <= k < |sh| ensures sh[k] < |s| && r[k] == s[sh[k]] {
      assert r[k] == t[idx[k]];
      assert s[idx[k] + 1] == t[idx[k]];
    }
  }

  /** ... and putting that element in front of `r` as well. */
  lemma EmbeddingCons<T>(r: seq<T>, x: T, t: seq<T>, idx: seq<nat>)
    requires Embedding(r, t, idx)
    ensures Embedding([x] + r, [x] + t, [0] + Shift(idx))
  {
    EmbeddingShift(r, x, t, idx);
    var s, sh := [x] + t, Shift(idx);
    var r1, idx1 := [x] + r, [0] + sh;
    forall k | 0 < k < |idx1| ensures idx1[k] < |s| && r1[k] == s[idx1[k]] {
      assert idx1[k] == sh[k - 1] && r1[k] == r[k - 1];
    }
    forall j, k | 0 <= j < k < |idx1| ensures idx1[j] < idx1[k] {
      assert idx1[k] == sh[k - 1];
      if j > 0 {
        assert idx1[j] == sh[j - 1];
      }
    }
  }

  /** Which positions of `[x] + t` the shifted index list hits. */
  lemma HitsShift<T>(x: T, t: seq<T>, keep: T -> bool, idx: seq<nat>)
    requires forall i :: 0 <= i < |t| ==> (i in idx <==> keep(t[i]))
    ensures forall i :: 0 <= i < |[x] + t| ==>
      (i in (if keep(x) then [0] + Shift(idx) else Shift(idx)) <==> keep(([x] + t)[i]))
  {
    var s := [x] + t;
    var idx1 := if keep(x) then [0] + Shift(idx) else Shift(idx);
    forall i | 0 <= i < |s| ensures i in idx1 <==> keep(s[i]) {
      ShiftMember(idx, if i == 0 then 0 else i - 1);
      if i > 0 {
        assert s[i] == t[i - 1];
      }
    }
  }

  /** `Filter` is the selection `Selects` describes. */
  lemma {:induction false} FilterSelects<T(!new)>(s: seq<T>, keep: T -> bool)
    ensures Selects(Filter(s, keep), s, keep)
  {
    if s == [] {
      assert Embedding(Filter(s, keep), s, []);
    } else {
      var x, t := s[0], s[1..];
      var r' := Filter(t, keep);
      assert s == [x] + t;
      FilterSelects(t, keep);
      var idx' :| Embedding(r', t, idx') && forall i :: 0 <= i < |t| ==> (i in idx' <==> keep(t[i]));
      HitsShift(x, t, keep, idx');
      if keep(x) {
        assert Filter(s, keep) == [x] + r';
        EmbeddingCons(r', x, t, idx');
        assert Embedding(Filter(s, keep), s, [0] + Shift(idx'));
      } else {
        assert Filter(s, keep) == r';
        EmbeddingShift(r', x, t, idx');
        assert Embedding(Filter(s, keep), s, Shift(idx'));
      }
    }
  }

  /** What `Filter` keeps of a single element: the element or nothing. */
  function Kept<T>(x: T, keep: T -> bool): (r: seq<T>)
    ensures r == [x] || r == []
  {
    if keep(x) then [x] else []
  }

  /** One step of `Filter`, for a sequence written as its head and tail. */
  lemma FilterCons<T(!new)>(x: T, s: seq<T>, keep: T -> bool)
    ensures Filter([x] + s, keep) == Kept(x, keep) + Filter(s, keep)
  {
    assert ([x] + s)[1..] == s;
    if !keep(x) {
      assert [] + Filter(s, keep) == Filter(s, keep);
    }
  }

  /** A selection is in particular a subsequence. */
  lemma FilterIsSubsequence<T(!new)>(s: seq<T>, keep: T -> bool)
    ensures IsSubsequence(Filter(s, keep), s)
  {
    FilterSelects(s, keep);
  }

  /** Nothing is dropped when every element passes. */
  lemma {:induction false} FilterKeepsAll<T(!new)>(s: seq<T>, keep: T -> bool)
    requires forall x :: x in s ==> keep(x)
    ensures Filter(s, keep) == s
  {
    if s != [] {
      FilterKeepsAll(s[1..], keep);
    }
  }

  /** Nothing is left when no element passes. */
  lemma FilterDropsAll<T(!new)>(s: seq<T>, keep: T -> bool)
    requires forall x :: x in s ==> !keep(x)
    ensures Filter(s, keep) == []
  {
  }

  /** Filtering twice with the same test changes nothing the second time. */
  lemma FilterIdempotent<T(!new)>(s: seq<T>, keep: T -> bool)
    ensures Filter(Filter(s, keep), keep) == Filter(s, keep)
  {
    FilterKeepsAll(Filter(s, keep), keep);
  }

  /**
   * A subsequence of a sequence whose elements have pairwise distinct keys
   * has pairwise distinct keys too.
   */
  lemma SubsequenceDistinct<T, K>(r: seq<T>, s: seq<T>, key: T -> K)
    requires IsSubsequence(r, s)
    requires forall i, j :: 0 <= i < |s| && 0 <= j < |s| && key(s[i]) == key(s[j]) ==> i == j
    ensures forall i, j :: 0 <= i < |r| && 0 <= j < |r| && key(r[i]) == key(r[j]) ==> i == j
  {
    var idx :| Embedding(r, s, idx);
    forall i, j | 0 <= i < |r| && 0 <= j < |r| && key(r[i]) == key(r[j]) ensures i == j {
      assert key(s[idx[i]]) == key(s[idx[j]]);
    }
  }
}
