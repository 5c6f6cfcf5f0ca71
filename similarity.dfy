/** Similarity scores as the retrieval loop sees them.

    The cosine similarity of the query embedding with a context embedding is a
    JavaScript number. Its computation (tensor arithmetic, norms, a division that
    yields NaN for a zero-magnitude vector) is not modelled; only the value matters
    here, and the one thing the loop does with it: compare it with `>` against the
    best score seen so far, which is always an ordinary number.
 */
module Similarity {

  /** A finite number, or NaN (what 0/0 produces for a zero-magnitude embedding). */
  datatype Score = Num(value: real) | NaN

  /** JavaScript `s > bound` for a number `bound`: NaN compares false with everything. */
  predicate Exceeds(s: Score, bound: real) {
    s.Num? && s.value > bound
  }

  /** JavaScript `s >= bound` for a number `bound`; again false for NaN. */
  predicate Reaches(s: Score, bound: real) {
    s.Num? && s.value >= bound
  }

  /** A NaN score neither exceeds nor reaches any bound. */
  lemma NaNExceedsNothing(bound: real)
    ensures !Exceeds(NaN, bound) && !Reaches(NaN, bound)
  {
  }
}
