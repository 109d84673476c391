/** Facts about sequence concatenation, stated once so that proofs over
    long event and count sequences can cite them instead of re-deriving
    extensional equality in a large context. */
module Sequences {
  lemma AppendAssoc<T>(a: seq<T>, b: seq<T>, c: seq<T>)
    ensures (a + b) + c == a + (b + c)
  {
  }

  lemma AppendEmpty<T>(a: seq<T>)
    ensures a + [] == a && [] + a == a
  {
  }
}
