/**
 * Sequence helpers standing for Swift's `filter`, `contains`, `first(where:)`
 * and `firstIndex(where:)` on arrays, with the facts about them that the
 * classification proofs need.
 */
module Sequences {
  import opened Wrappers

  /** The set of entries of `s`. */
  function Elems<T>(s: seq<T>): set<T> {
    set x | x in s
  }

  /** No entry of `s` occurs twice. */
  predicate NoDup<T(==)>(s: seq<T>) {
    forall i, j :: 0 <= i < j < |s| ==> s[i] != s[j]
  }

  /** `s.filter { keep.contains($0) }`: the entries of `s` that are in `keep`, in order, repeats kept. */
  function Filter<T>(s: seq<T>, keep: set<T>): (r: seq<T>)
    ensures |r| <= |s|
    ensures forall i :: 0 <= i < |r| ==> r[i] in keep
  {
    if s == [] then []
    else if s[0] in keep then [s[0]] + Filter(s[1..], keep)
    else Filter(s[1..], keep)
  }

  /** `s.firstIndex(where: { keep.contains($0) })`. */
  function FirstIn<T>(s: seq<T>, keep: set<T>): (r: Option<nat>)
    ensures r.None? <==> forall i :: 0 <= i < |s| ==> s[i] !in keep
    ensures r.Some? ==> r.value < |s| && s[r.value] in keep
    ensures r.Some? ==> forall j :: 0 <= j < r.value ==> s[j] !in keep
  {
    if s == [] then None
    else if s[0] in keep then Some(0)
    else match FirstIn(s[1..], keep)
      case None => None
      case Some(i) => Some(i + 1)
  }

  /** The elements of a prefix one longer add the entry that extends it. */
  lemma PrefixElems<T>(s: seq<T>, k: nat)
    requires 0 < k <= |s|
    ensures Elems(s[..k]) == Elems(s[..k - 1]) + {s[k - 1]}
  {
    assert s[..k] == s[..k - 1] + [s[k - 1]];
  }

  lemma HeadNotInTail<T>(s: seq<T>)
    requires NoDup(s) && s != []
    ensures s[0] !in s[1..] && NoDup(s[1..])
  {
    forall k | 0 <= k < |s| - 1
      ensures s[1..][k] != s[0]
    {
      assert s[1..][k] == s[k + 1];
    }
  }

  /** The filter holds exactly the entries of `s` that are in `keep`. */
  lemma {:induction false} FilterMembers<T>(s: seq<T>, keep: set<T>)
    ensures forall x :: x in Filter(s, keep) <==> x in s && x in keep
  {
    if s != [] {
      FilterMembers(s[1..], keep);
      assert s == [s[0]] + s[1..];
    }
  }

  /** The filter is empty exactly when no entry is kept, and otherwise starts with the first kept entry. */
  lemma {:induction false} FilterHead<T>(s: seq<T>, keep: set<T>)
    ensures Filter(s, keep) != [] <==> FirstIn(s, keep).Some?
    ensures Filter(s, keep) != [] ==> Filter(s, keep)[0] == s[FirstIn(s, keep).value]
  {
    if s != [] && s[0] !in keep {
      FilterHead(s[1..], keep);
    }
  }

  lemma {:induction false} FilterNoDup<T>(s: seq<T>, keep: set<T>)
    requires NoDup(s)
    ensures NoDup(Filter(s, keep))
  {
    if s != [] {
      FilterNoDup(s[1..], keep);
      var rest := Filter(s[1..], keep);
      HeadNotInTail(s);
      FilterMembers(s[1..], keep);
      assert forall i :: 0 <= i < |rest| ==> rest[i] in rest;
    }
  }

  /** With no repeats in `s`, the length of the filter is the size of the intersection. */
  lemma {:induction false} FilterCount<T>(s: seq<T>, keep: set<T>)
    requires NoDup(s)
    ensures |Filter(s, keep)| == |Elems(s) * keep|
  {
    if s == [] {
      assert Elems(s) == {};
    } else {
      FilterCount(s[1..], keep);
      assert Elems(s) == {s[0]} + Elems(s[1..]);
      HeadNotInTail(s);
      if s[0] in keep {
        assert Elems(s) * keep == {s[0]} + Elems(s[1..]) * keep;
      } else {
        assert Elems(s) * keep == Elems(s[1..]) * keep;
      }
    }
  }

  /** A sequence without repeats has as many entries as distinct elements. */
  lemma {:induction false} NoDupCard<T>(s: seq<T>)
    requires NoDup(s)
    ensures |Elems(s)| == |s|
  {
    if s == [] {
      assert Elems(s) == {};
    } else {
      NoDupCard(s[1..]);
      assert Elems(s) == {s[0]} + Elems(s[1..]);
      HeadNotInTail(s);
    }
  }

  /** Filtering a repeat-free `s` keeps at most as many entries as `keep` holds from a repeat-free `t`. */
  lemma FilterBound<T>(s: seq<T>, t: seq<T>)
    requires NoDup(s) && NoDup(t)
    ensures |Filter(s, Elems(t))| <= |t|
  {
    FilterCount(s, Elems(t));
    NoDupCard(t);
    assert Elems(s) * Elems(t) <= Elems(t);
    SubsetCard(Elems(s) * Elems(t), Elems(t));
  }

  lemma SubsetCard<T>(a: set<T>, b: set<T>)
    requires a <= b
    ensures |a| <= |b|
  {
    assert b == a + (b - a);
  }

  /** For two repeat-free sequences, filtering either by the other keeps the same number of entries. */
  lemma FilterSymmetric<T>(s: seq<T>, t: seq<T>)
    requires NoDup(s) && NoDup(t)
    ensures |Filter(s, Elems(t))| == |Filter(t, Elems(s))|
  {
    FilterCount(s, Elems(t));
    FilterCount(t, Elems(s));
    assert Elems(s) * Elems(t) == Elems(t) * Elems(s);
  }
  /** `s.reversed()`: the entries of `s` in the opposite order. */
  function Reverse<T>(s: seq<T>): (r: seq<T>)
    ensures |r| == |s|
    ensures forall i :: 0 <= i < |s| ==> r[i] == s[|s| - 1 - i]
  {
    if s == [] then [] else Reverse(s[1..]) + [s[0]]
  }

  /** Reversing a concatenation reverses the parts and swaps them. */
  lemma ReverseConcat<T>(a: seq<T>, b: seq<T>)
    ensures Reverse(a + b) == Reverse(b) + Reverse(a)
  {
  }
}
