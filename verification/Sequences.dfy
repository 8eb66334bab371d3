/** Regrouping concatenations, which the solver does not do by itself. */
module Sequences {
  lemma Associates<T>(a: seq<T>, b: seq<T>, c: seq<T>, d: seq<T>)
    ensures a + b + c + d == a + (b + (c + d)) == a + (b + c + d)
  {
  }
}
