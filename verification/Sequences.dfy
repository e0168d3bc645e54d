/** Sequences without repetition, and sequences as linked lists. */
module Sequences {
  import opened Results

  function Elements<T(==)>(s: seq<T>): (r: set<T>) {
    set x | x in s
  }

  ghost predicate NoDup<T>(s: seq<T>) {
    forall i, j :: 0 <= i < j < |s| ==> s[i] != s[j]
  }

  function Successor<T>(s: seq<T>, i: nat): (p: Option<T>) {
    if i + 1 < |s| then Some(s[i + 1]) else None
  }

  /** Following `next` from the first element visits exactly `s`. */
  ghost predicate Chain<T>(next: map<T, Option<T>>, s: seq<T>) {
    forall i :: 0 <= i < |s| ==> s[i] in next && next[s[i]] == Successor(s, i)
  }
}
