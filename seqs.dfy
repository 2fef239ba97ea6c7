/** Small facts about sequences that the proofs about passes over the VM
    list use as rewriting steps. */
module Seqs {

  /** Dropping the last element of `a + b` drops it from `b`. */
  lemma DropLastOfAppend<T>(a: seq<T>, b: seq<T>)
    requires b != []
    ensures (a + b)[..|a + b| - 1] == a + b[..|b| - 1]
    ensures (a + b)[|a + b| - 1] == b[|b| - 1]
  {
  }

  /** A prefix and the matching suffix make up the whole sequence. */
  lemma TakeDropAppend<T>(s: seq<T>, i: nat)
    requires i <= |s|
    ensures s[..i] + s[i..] == s
  {
  }

  /** The prefix of length `i + 1` is the prefix of length `i` followed by
      element `i`. */
  lemma PrefixStep<T>(s: seq<T>, i: nat)
    requires i < |s|
    ensures |s[..i + 1]| - 1 == i && s[..i + 1][..i] == s[..i] && s[..i + 1][i] == s[i]
  {
  }

  /** A non-empty sequence is its head followed by its tail. */
  lemma HeadTailAppend<T>(s: seq<T>)
    requires s != []
    ensures [s[0]] + s[1..] == s
  {
  }

  lemma AppendAssoc<T>(x: seq<T>, y: seq<T>, z: seq<T>)
    ensures (x + y) + z == x + (y + z)
  {
  }
}
