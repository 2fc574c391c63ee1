/** Arithmetic the presentation components share. */
module Arithmetic {

  function Min(a: nat, b: nat): nat { if a < b then a else b }

  lemma Cancel(n: nat, p: int, q: int)
    requires n * p < n * q
    ensures p < q
  {
  }
}
