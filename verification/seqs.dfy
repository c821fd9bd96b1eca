/**
 * Generic sequence facts used by the category list: removing duplicates
 * while keeping the first occurrence of each element, which is what
 * `[...new Set(xs)]` does in JavaScript (a Set iterates in insertion order).
 */
module Seqs {

  /** No element occurs twice. */
  predicate NoDuplicates<T(==,!new)>(s: seq<T>) {
    forall i, j :: 0 <= i < j < |s| ==> s[i] != s[j]
  }

  /** The position of the first occurrence of `x` in `s`. */
  function FirstIndex<T(==)>(s: seq<T>, x: T): (i: nat)
    requires x in s
    ensures i < |s| && s[i] == x
    ensures forall j :: 0 <= j < i ==> s[j] != x
  {
    if x in s[..|s| - 1] then FirstIndex(s[..|s| - 1], x) else |s| - 1
  }

  /**
   * The elements of `s`, each kept once, at the place it first appears:
   * the value of `[...new Set(s)]`.
   */
  function Distinct<T(==,!new)>(s: seq<T>): (r: seq<T>)
    ensures NoDuplicates(r)
    ensures forall x :: x in r <==> x in s
    ensures |r| <= |s|
  {
    if s == [] then []
    else
      var init := Distinct(s[..|s| - 1]);
      var x := s[|s| - 1];
      assert forall y :: y in s <==> y in s[..|s| - 1] || y == x by {
        assert s == s[..|s| - 1] + [x];
      }
      if x in init then init else init + [x]
  }

  /** Appending an element keeps the first occurrences of what was there. */
  lemma FirstIndexAppend<T(!new)>(s: seq<T>, y: T, x: T)
    requires x in s
    ensures x in s + [y] && FirstIndex(s + [y], x) == FirstIndex(s, x)
  {
    var i, k := FirstIndex(s + [y], x), FirstIndex(s, x);
    assert (s + [y])[k] == x;
    assert forall j :: 0 <= j < k ==> (s + [y])[j] != x;
  }

  /** `Distinct` lists its elements in the order of their first occurrence in `s`. */
  lemma {:induction false} DistinctFirstOccurrence<T(!new)>(s: seq<T>)
    ensures forall i, j :: 0 <= i < j < |Distinct(s)| ==>
      FirstIndex(s, Distinct(s)[i]) < FirstIndex(s, Distinct(s)[j])
  {
    if s != [] {
      var init, x := s[..|s| - 1], s[|s| - 1];
      assert s == init + [x];
      DistinctFirstOccurrence(init);
      var d, r := Distinct(init), Distinct(s);
      forall y | y in d
        ensures FirstIndex(s, y) == FirstIndex(init, y) < |s| - 1
      {
        FirstIndexAppend(init, x, y);
      }
      forall i, j | 0 <= i < j < |r|
        ensures FirstIndex(s, r[i]) < FirstIndex(s, r[j])
      {
        assert r[i] in d;
        if j < |d| {
          assert r[j] == d[j];
        } else {
          assert r[j] == x && x !in init;
          assert FirstIndex(s, x) == |s| - 1;
        }
      }
    }
  }

  /** Extending a prefix by one element. */
  lemma PrefixSnoc<T>(s: seq<T>, i: nat)
    requires i < |s|
    ensures s[..i + 1] == s[..i] + [s[i]]
  {
  }

  /** A non-empty sequence has a member. */
  lemma HeadIsMember<T>(s: seq<T>)
    ensures s != [] ==> s[0] in s
  {
  }
}
