/** Facts about sequence concatenation that the proofs call on explicitly. */
module SeqFacts {

  lemma AppendAssoc<T>(x: seq<T>, y: seq<T>, z: seq<T>)
    ensures (x + y) + z == x + (y + z)
  {
  }

  /** Splitting the last element off the right operand of a concatenation. */
  lemma SnocSplit<T>(a: seq<T>, post: seq<T>)
    requires post != []
    ensures a + post == (a + post[..|post| - 1]) + [post[|post| - 1]]
  {
    assert post == post[..|post| - 1] + [post[|post| - 1]];
  }
}
