/**
 Facts about multiplication that the solver does not find on its own, shared
 by the risk thresholds and the approval-rate rounding.
 */
module Arithmetic {

  /** Multiplying by a positive factor keeps a strict order. */
  lemma MultiplyLt(x: real, y: real, c: real)
    requires x < y && c > 0.0
    ensures x * c < y * c
  {
  }

  /** Multiplying by a positive factor keeps a weak order. */
  lemma MultiplyLe(x: real, y: real, c: real)
    requires x <= y && c > 0.0
    ensures x * c <= y * c
  {
  }

  /** Multiplying by a natural number keeps a weak order on integers. */
  lemma MultiplyNat(c: nat, m: int, n: int)
    requires m <= n
    ensures c * m <= c * n
  {
  }

  /** Converting to a real commutes with multiplication. */
  lemma CastProduct(m: int, n: int)
    ensures (m * n) as real == (m as real) * (n as real)
  {
  }
}
