/** What several modules need about numbers and sequences. */
module Sequences {

  function Min(a: int, b: int): int {
    if a < b then a else b
  }

  lemma ConcatAssoc<T>(a: seq<T>, b: seq<T>, c: seq<T>)
    ensures a + (b + c) == (a + b) + c
  {
  }
}
