/** Fork choice (core/forkchoice.go): most accumulated work, ties to the smaller hash. */
module ForkChoice {
  import opened Transition

  /** A header's hash as a number; the order on hashes is the order on their bytes. */
  type Digest = Header -> nat

  ghost predicate Injective(digest: Digest) {
    forall a, b :: digest(a) == digest(b) ==> a == b
  }

  datatype Tip = Tip(header: Header, work: nat)

  predicate Better(digest: Digest, candidate: Tip, current: Tip) {
    if candidate.work != current.work then candidate.work > current.work
    else digest(candidate.header) < digest(current.header)
  }

  /** A strict total order on blocks: total, so no tie is ever left open, and never both ways. */
  lemma StrictTotalOrder(digest: Digest, a: Tip, b: Tip, d: Tip)
    requires Injective(digest)
    ensures !(Better(digest, a, b) && Better(digest, b, a))
    ensures a.header != b.header ==> Better(digest, a, b) || Better(digest, b, a)
    ensures Better(digest, a, b) && Better(digest, b, d) ==> Better(digest, a, d)
  {
    if a.work == b.work && digest(a.header) == digest(b.header) {
      assert a.header == b.header;
    }
  }
}
