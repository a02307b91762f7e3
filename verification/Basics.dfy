/** Small value types and sequence facts shared by every module. */
module Basics {

  datatype Option<+T> = None | Some(value: T)

  /** The list stored under `k`, or the empty list when nothing is stored. */
  function ListAt<T>(m: map<nat, seq<T>>, k: nat): seq<T> {
    if k in m then m[k] else []
  }

  /** The set stored under `k`, or the empty set when nothing is stored. */
  function SetAt<T>(m: map<nat, set<T>>, k: nat): set<T> {
    if k in m then m[k] else {}
  }

  ghost predicate NoDup<T>(s: seq<T>) {
    forall i, j :: 0 <= i < j < |s| ==> s[i] != s[j]
  }

  lemma SmallerSet<T>(a: set<T>, b: set<T>)
    requires a <= b
    ensures |a| <= |b|
  {
    assert b == a + (b - a);
  }

  function Elems<T>(s: seq<T>): set<T> {
    set x | x in s
  }
}
