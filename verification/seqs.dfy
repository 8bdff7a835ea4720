/** Regrouping of concatenations, stated once for any element type so that
    proofs about particular sequences need not re-derive them. */
module Seqs {
  lemma Regroup3<T>(a: seq<T>, b: seq<T>, c: seq<T>)
    ensures (a + b) + c == a + (b + c)
  {
  }

  lemma Regroup<T>(a: seq<T>, b: seq<T>, c: seq<T>, e: seq<T>, f: seq<T>)
    ensures (a + b + c) + e + f == a + (b + (c + e + f))
  {
  }

  /** A middle part between two single elements, with and without empty
      sequences at the ends. */
  lemma Around<T>(o: T, t: seq<T>, c: T)
    ensures [o] + t + [c] == [] + [o] + (t + [c])
    ensures t + [c] == t + [c] + []
    ensures [] + [o] + (t + [c] + []) == [o] + t + [c]
  {
  }

  lemma Four<T>(a: T, b: T, c: T, d: T)
    ensures [a] + [b, c] + [d] == [a, b, c, d]
  {
  }

  lemma Two<T>(a: T, b: T)
    ensures [a, b] == [] + [a] + [b]
    ensures [b] == [] + [b] + []
    ensures [] + [a] + ([] + [b] + []) == [a, b]
  {
  }
}
