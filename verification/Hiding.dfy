/** A definition behind a quantifier is unfolded only where somebody asks for it: the verifier carries the
    defined predicate around as a name, and one lemma beside it opens it. */
module Hiding {
  predicate Asked(k: int) { true }
}
