/** Concatenation of sequences is associative, with the empty sequence as its unit, in the forms the proofs need. */
module Seqs {
  lemma EmptyFirst<T>(a: seq<T>)
    ensures [] + a == a
  {
  }

  lemma Assoc<T>(a: seq<T>, b: seq<T>, c: seq<T>)
    ensures (a + b) + c == a + (b + c)
  {
  }

  lemma AssocFour<T>(a: seq<T>, b: seq<T>, c: seq<T>, d: seq<T>)
    ensures a + (b + c) + d == a + b + (c + d)
    ensures a + b + c + d == a + b + (c + d)
  {
  }
}
