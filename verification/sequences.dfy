/** Facts about sequences shared by the facet and filter models. */
module Sequences {

  /** No element occurs twice. */
  predicate NoDups<T(==)>(s: seq<T>) {
    forall i, j :: 0 <= i < j < |s| ==> s[i] != s[j]
  }

  /** The index of the first occurrence of `x` in `s`. */
  function First<T(==)>(s: seq<T>, x: T): (k: nat)
    requires x in s
    ensures k < |s| && s[k] == x
    ensures forall j :: 0 <= j < k ==> s[j] != x
  {
    if s[0] == x then 0 else 1 + First(s[1..], x)
  }

  /** The elements of `s` at positions `idx`, in the order of `idx`. */
  function Gather<T>(s: seq<T>, idx: seq<nat>): (r: seq<T>)
    requires forall k :: 0 <= k < |idx| ==> idx[k] < |s|
    ensures |r| == |idx|
  {
    seq(|idx|, k requires 0 <= k < |idx| => s[idx[k]])
  }

  /** In a sequence without duplicates, an element's first occurrence is its
      only one. */
  lemma FirstOfNoDups<T>(s: seq<T>, p: nat)
    requires NoDups(s) && p < |s|
    ensures First(s, s[p]) == p
  {
  }

  /** The first occurrence in a concatenation lies in the left part when the
      element occurs there, and is shifted by the left part's length
      otherwise. */
  lemma {:induction false} FirstConcat<T>(a: seq<T>, b: seq<T>, x: T)
    requires x in a + b
    ensures x in a ==> First(a + b, x) == First(a, x)
    ensures x !in a ==> x in b && First(a + b, x) == |a| + First(b, x)
  {
    if a == [] {
      assert a + b == b;
    } else if a[0] == x {
    } else {
      assert (a + b)[1..] == a[1..] + b;
      FirstConcat(a[1..], b, x);
    }
  }

  /** Every position moved one place to the right. */
  function Shift(idx: seq<nat>): (r: seq<nat>)
    ensures |r| == |idx|
    ensures forall k :: 0 <= k < |r| ==> r[k] == idx[k] + 1
  {
    seq(|idx|, k requires 0 <= k < |idx| => idx[k] + 1)
  }

  /** A position in the tail of a sequence is one more than the same position
      of the tail itself. */
  lemma ShiftMembership(idx: seq<nat>, i: int)
    ensures i in Shift(idx) <==> 1 <= i && i - 1 in idx
  {
    if 1 <= i && i - 1 in idx {
      var k := First(idx, i - 1);
      assert Shift(idx)[k] == i;
    }
  }

  /** Reading `s` at shifted positions is reading its tail at the
      original ones. */
  lemma GatherShift<T>(s: seq<T>, rest: seq<nat>)
    requires |s| > 0 && forall k :: 0 <= k < |rest| ==> rest[k] < |s| - 1
    ensures Gather(s, Shift(rest)) == Gather(s[1..], rest)
  {
  }

  /** Reading position 0 first puts the head in front. */
  lemma GatherCons<T>(s: seq<T>, rest: seq<nat>)
    requires |s| > 0 && forall k :: 0 <= k < |rest| ==> rest[k] < |s| - 1
    ensures Gather(s, [0] + Shift(rest)) == [s[0]] + Gather(s[1..], rest)
  {
    GatherShift(s, rest);
  }
}
