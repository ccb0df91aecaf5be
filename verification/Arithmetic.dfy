/** Order facts about products, kept apart so that their proofs stay small. */
module Arithmetic {

  lemma MulMonotone(j: int, k: int, p: nat)
    requires j <= k
    ensures j * p <= k * p
  {
  }

  lemma Scale(c: real, a: real, b: real)
    requires c >= 0.0 && a <= b
    ensures c * a <= c * b
  {
  }
}
