/** Two facts about sequence concatenation that the trace and output proofs
    use throughout. */
module Seqs {

  lemma Associative<T>(a: seq<T>, b: seq<T>, c: seq<T>)
    ensures (a + b) + c == a + (b + c)
  {
  }

  lemma EndsWith<T>(a: seq<T>, b: seq<T>)
    ensures (a + b)[|a|..] == b
  {
  }
}
