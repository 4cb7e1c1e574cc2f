/** Option and Result, the failure-carrying values the model uses for Go's
    (value, error) returns and nil-able errors, and one sequence fact. */
module Wrappers {

  datatype Option<+T> = None | Some(value: T)

  datatype Result<+T, +E> = Ok(value: T) | Err(error: E)

  /** Regrouping a concatenation, stated once so that proofs can cite it
      instead of re-deriving it inside a large context. */
  lemma SeqAssoc<T>(a: seq<T>, b: seq<T>, c: seq<T>)
    ensures a + b + c == a + (b + c)
  {
  }
}
