/** A definition written under Open stays folded in a proof until the proof asserts Open: the solver then instantiates
    the quantifier around it. It keeps large definitions out of proofs that only pass them on. */
module Folding {
  predicate Open(k: nat) { true }
}
