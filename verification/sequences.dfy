/** Searching and comparing elements of sequences. */
module Sequences {

  function Elems<T>(s: seq<T>): set<T> {
    set x | x in s
  }

  predicate Distinct<T(==)>(s: seq<T>) {
    forall i, j :: 0 <= i < j < |s| ==> s[i] != s[j]
  }

  /** The first position of `x`, or -1. */
  function IndexOf<T(==)>(s: seq<T>, x: T): (i: int)
    ensures -1 <= i < |s|
    ensures i >= 0 ==> s[i] == x && forall j :: 0 <= j < i ==> s[j] != x
    ensures i == -1 <==> x !in s
  {
    IndexFrom(s, x, 0)
  }

  /** The first position of `x` from `start` on, or -1. */
  function IndexFrom<T(==)>(s: seq<T>, x: T, start: nat): (i: int)
    requires start <= |s|
    ensures i == -1 || start <= i < |s|
    ensures i >= 0 ==> s[i] == x && forall j :: start <= j < i ==> s[j] != x
    ensures i == -1 ==> forall j :: start <= j < |s| ==> s[j] != x
    decreases |s| - start
  {
    if start == |s| then -1
    else if s[start] == x then start
    else IndexFrom(s, x, start + 1)
  }

  /** What the first occurrence of `x` cuts `s` into. */
  lemma CutAtFirst<T>(s: seq<T>, x: T)
    requires x in s
    ensures var i := IndexOf(s, x); x !in s[..i] && s == s[..i] + [x] + s[i + 1..]
  {
  }
}
