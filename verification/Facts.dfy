/** Small helpers. */
module Facts {

  /** A fact as one condition; the verifier does not take it apart into its conjuncts. */
  predicate Known(fact: bool) { fact }

  function Min(a: nat, b: nat): nat { if a < b then a else b }
}
