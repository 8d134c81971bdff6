/**
 What several modules share: an optional value, and the one law of concatenation that a proof has to name.
 */
module Wrappers {

  datatype Option<T> = None | Some(value: T)

  lemma AppendAssociative<T>(a: seq<T>, b: seq<T>, c: seq<T>)
    ensures a + (b + c) == (a + b) + c
  {
  }
}
