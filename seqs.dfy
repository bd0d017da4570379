/** `Array.prototype.filter` on sequences, and what it keeps. */
module Seqs {

  /** The elements of `s` that satisfy `p`, in their original order. */
  function Filter<T>(s: seq<T>, p: T -> bool): (r: seq<T>)
    ensures |r| <= |s|
    ensures forall j :: 0 <= j < |r| ==> p(r[j])
  {
    if s == [] then []
    else (if p(s[0]) then [s[0]] else []) + Filter(s[1..], p)
  }

  /** Every position moved one place to the right. */
  function Shift(idx: seq<nat>): (r: seq<nat>)
    ensures |r| == |idx| && forall j :: 0 <= j < |idx| ==> r[j] == idx[j] + 1
  {
    seq(|idx|, j requires 0 <= j < |idx| => idx[j] + 1)
  }

  /** The positions of `s` whose element satisfies `p`, in increasing order. */
  ghost function Positions<T>(s: seq<T>, p: T -> bool): seq<nat>
  {
    if s == [] then [] else (if p(s[0]) then [0] else []) + Shift(Positions(s[1..], p))
  }

  /** Strictly increasing positions. */
  ghost predicate Increasing(idx: seq<nat>) {
    forall j, k :: 0 <= j < k < |idx| ==> idx[j] < idx[k]
  }

  /**
   * `r` is the subsequence of `s` picked at the strictly increasing positions
   * `idx`, and those positions are exactly the ones whose element satisfies `p`.
   */
  ghost predicate PicksExactly<T>(r: seq<T>, s: seq<T>, p: T -> bool, idx: seq<nat>) {
    && |idx| == |r|
    && (forall j :: 0 <= j < |idx| ==> idx[j] < |s| && r[j] == s[idx[j]])
    && Increasing(idx)
    && (forall i :: 0 <= i < |s| ==> (p(s[i]) <==> i in idx))
  }

  lemma {:induction false} PositionsLength<T>(s: seq<T>, p: T -> bool)
    ensures |Positions(s, p)| == |Filter(s, p)|
  {
    if s != [] {
      PositionsLength(s[1..], p);
    }
  }

  lemma {:induction false} PositionsPickAt<T>(s: seq<T>, p: T -> bool, j: nat)
    requires j < |Positions(s, p)|
    ensures |Positions(s, p)| == |Filter(s, p)|
    ensures Positions(s, p)[j] < |s| && Filter(s, p)[j] == s[Positions(s, p)[j]]
  {
    PositionsLength(s, p);
    var h := if p(s[0]) then 1 else 0;
    var rest := Positions(s[1..], p);
    var tail := Filter(s[1..], p);
    assert Positions(s, p) == (if p(s[0]) then [0] else []) + Shift(rest);
    assert Filter(s, p) == (if p(s[0]) then [s[0]] else []) + tail;
    if j >= h {
      PositionsPickAt(s[1..], p, j - h);
      assert Positions(s, p)[j] == rest[j - h] + 1;
      assert Filter(s, p)[j] == tail[j - h];
      assert s[1..][rest[j - h]] == s[rest[j - h] + 1];
    }
  }

  lemma {:induction false} PositionsIncreasing<T>(s: seq<T>, p: T -> bool)
    ensures Increasing(Positions(s, p))
    ensures forall j :: 0 <= j < |Positions(s, p)| ==> Positions(s, p)[j] < |s|
  {
    if s != [] {
      PositionsIncreasing(s[1..], p);
      var rest := Positions(s[1..], p);
      var idx := Positions(s, p);
      var h := if p(s[0]) then 1 else 0;
      forall j | 0 <= j < |idx|
        ensures idx[j] < |s| && (j >= h ==> idx[j] == rest[j - h] + 1) && (j < h ==> idx[j] == 0)
      {
      }
    }
  }

  lemma ShiftContains(idx: seq<nat>, i: nat)
    ensures i + 1 in Shift(idx) <==> i in idx
    ensures 0 !in Shift(idx)
  {
    var shifted := Shift(idx);
    if i in idx {
      var j :| 0 <= j < |idx| && idx[j] == i;
      assert shifted[j] == i + 1;
    }
  }

  lemma {:induction false} PositionsExactAt<T>(s: seq<T>, p: T -> bool, i: nat)
    requires i < |s|
    ensures p(s[i]) <==> i in Positions(s, p)
  {
    var rest := Positions(s[1..], p);
    var head: seq<nat> := if p(s[0]) then [0] else [];
    assert Positions(s, p) == head + Shift(rest);
    if i > 0 {
      PositionsExactAt(s[1..], p, i - 1);
      assert s[1..][i - 1] == s[i];
      ShiftContains(rest, i - 1);
      assert i in Positions(s, p) <==> i in Shift(rest);
    } else {
      ShiftContains(rest, 0);
    }
  }

  /** `Filter` keeps every satisfying element, drops every other one, and preserves relative order. */
  lemma FilterPicks<T>(s: seq<T>, p: T -> bool) returns (idx: seq<nat>)
    ensures PicksExactly(Filter(s, p), s, p, idx)
  {
    idx := Positions(s, p);
    PositionsLength(s, p);
    forall j | 0 <= j < |idx|
      ensures idx[j] < |s| && Filter(s, p)[j] == s[idx[j]]
    {
      PositionsPickAt(s, p, j);
    }
    PositionsIncreasing(s, p);
    forall i | 0 <= i < |s|
      ensures p(s[i]) <==> i in idx
    {
      PositionsExactAt(s, p, i);
    }
  }

  /** An element survives `Filter` exactly when it is in `s` and satisfies `p`. */
  lemma FilterContains<T>(s: seq<T>, p: T -> bool, x: T)
    ensures x in Filter(s, p) <==> x in s && p(x)
  {
    var idx := FilterPicks(s, p);
    var r := Filter(s, p);
    if x in r {
      var j :| 0 <= j < |r| && r[j] == x;
      assert s[idx[j]] == x;
    }
    if x in s && p(x) {
      var i :| 0 <= i < |s| && s[i] == x;
      var j :| 0 <= j < |idx| && idx[j] == i;
      assert r[j] == x;
    }
  }

  /** Filtering a concatenation filters each part. */
  lemma {:induction false} FilterAppend<T>(a: seq<T>, b: seq<T>, p: T -> bool)
    ensures Filter(a + b, p) == Filter(a, p) + Filter(b, p)
  {
    if a == [] {
      assert a + b == b;
    } else {
      assert (a + b)[1..] == a[1..] + b;
      FilterAppend(a[1..], b, p);
    }
  }

  /** When every element satisfies `p`, filtering changes nothing. */
  lemma {:induction false} FilterKeepsAll<T>(s: seq<T>, p: T -> bool)
    requires forall i :: 0 <= i < |s| ==> p(s[i])
    ensures Filter(s, p) == s
  {
    if s != [] {
      FilterKeepsAll(s[1..], p);
    }
  }
}
