/** Small notions shared by the models. */
module Sequences {
  ghost predicate Distinct<T(!new)>(s: seq<T>) {
    forall i, j :: 0 <= i < j < |s| ==> s[i] != s[j]
  }

  /** Python's min of two numbers. */
  function Least(a: int, b: int): int {
    if a < b then a else b
  }
}
