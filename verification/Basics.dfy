/** Small notions that several modules share. */
module Basics {

  /** No element occurs twice. */
  predicate Distinct<T(==)>(s: seq<T>)
  {
    forall i, j :: 0 <= i < j < |s| ==> s[i] != s[j]
  }

  function Least(a: int, b: int): int
  {
    if a < b then a else b
  }

  function Greatest(a: int, b: int): int
  {
    if a < b then b else a
  }
}
