/** Datatypes and small facts shared by every component. */
module Prelude {

  datatype Option<+T> = None | Some(value: T)

  datatype Result<+T, +E> = Ok(value: T) | Err(error: E)

  function Last<T>(s: seq<T>): T
    requires s != []
  {
    s[|s| - 1]
  }

  /** The elements of a sequence, as a set. */
  function Elements<T>(s: seq<T>): set<T> {
    set x | x in s
  }

  predicate Distinct<T(==)>(s: seq<T>) {
    forall i, j :: 0 <= i < j < |s| ==> s[i] != s[j]
  }

  /** A set that has at most one more element than another. */
  lemma OneMoreAmong<T>(some: set<T>, more: set<T>, x: T, added: bool)
    requires x !in some && (x in more <==> added) && forall y :: y != x ==> (y in more <==> y in some)
    ensures |more| == |some| + if added then 1 else 0
  {
    assert more == some + if added then {x} else {};
  }
}
