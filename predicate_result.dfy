/** TargetingPredicateResult: the three-valued outcome of a targeting predicate. */
module PredicateResults {

  datatype TargetingPredicateResult = TRUE | FALSE | INDETERMINATE

  /** isTrue: the flag each constant is declared with; only TRUE carries true. */
  function IsTrue(r: TargetingPredicateResult): bool
  {
    match r
    case TRUE => true
    case FALSE => false
    case INDETERMINATE => false
  }

  /** invert: the result of the negated predicate. */
  function Invert(r: TargetingPredicateResult): (inverted: TargetingPredicateResult)
    ensures IsTrue(inverted) <==> r == FALSE
    ensures inverted == FALSE <==> r == TRUE
    ensures inverted == INDETERMINATE <==> r == INDETERMINATE
  {
    match r
    case TRUE => FALSE
    case FALSE => TRUE
    case INDETERMINATE => INDETERMINATE
  }

  /** Only TRUE is true: FALSE and INDETERMINATE both fail `isTrue`. */
  lemma OnlyTrueIsTrue(r: TargetingPredicateResult)
    ensures IsTrue(r) <==> r == TRUE
  {
  }

  /** Inverting twice gives the original result back. */
  lemma InvertInvolution(r: TargetingPredicateResult)
    ensures Invert(Invert(r)) == r
  {
  }
}
