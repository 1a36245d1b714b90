/**
 * AtaAssertions: a substring assertion and the two `assertClose` forms, which
 * compare decimals within a margin. BigDecimal subtraction, multiplication,
 * `abs` and `compareTo` are exact, so the decimals are modelled as reals.
 */
module AtaAssertions {
  import opened Java
  import opened Introspection

  /** assertContains: `content.contains(expectedString)`; a null argument throws NullPointerException. */
  function AssertContains(content: Option<string>, expectedString: Option<string>): (r: Result<Verdict>)
    ensures r.Err? <==> content.None? || expectedString.None?
    ensures r.Err? ==> r.error == NullPointer
    ensures r == Ok(Passed) <==> content.Some? && expectedString.Some? && Contains(content.value, expectedString.value)
  {
    if content.None? || expectedString.None? then Err(NullPointer)
    else if Contains(content.value, expectedString.value) then Ok(Passed)
    else Ok(Failed)
  }

  /** Every string contains itself and the empty string. */
  lemma ContainsItselfAndEmpty(content: string)
    ensures AssertContains(Some(content), Some(content)) == Ok(Passed)
    ensures AssertContains(Some(content), Some("")) == Ok(Passed)
  {
    assert OccursAt(content, content, 0);
    assert OccursAt(content, "", 0);
  }

  function Abs(x: real): (r: real)
    ensures r >= 0.0 && (r == x || r == -x)
  {
    if x < 0.0 then -x else x
  }

  /**
   * The four-argument assertClose: IllegalArgumentException for a null expected,
   * actual or margin, in that order, or for a negative margin; otherwise it
   * passes exactly when |expected - actual| <= margin.
   */
  function AssertCloseWithin(expected: Option<real>, actual: Option<real>, margin: Option<real>): (r: Result<Verdict>)
    ensures r.Err? <==> expected.None? || actual.None? || margin.None? || margin.value < 0.0
    ensures r.Err? ==> r.error == IllegalArgument
    ensures r.Ok? ==> (r.value == Passed <==> -margin.value <= expected.value - actual.value <= margin.value)
  {
    if expected.None? then Err(IllegalArgument)
    else if actual.None? then Err(IllegalArgument)
    else if margin.None? then Err(IllegalArgument)
    else if margin.value < 0.0 then Err(IllegalArgument)
    else if Abs(expected.value - actual.value) <= margin.value then Ok(Passed)
    else Ok(Failed)
  }

  /**
   * The three-argument assertClose: a null expected is refused before the margin
   * is computed; the margin is one percent of |expected|.
   */
  function AssertClose(expected: Option<real>, actual: Option<real>): (r: Result<Verdict>)
    ensures expected.None? ==> r == Err(IllegalArgument)
    ensures r.Err? <==> expected.None? || actual.None?
    ensures r.Ok? ==> (r.value == Passed <==> Abs(expected.value - actual.value) <= Abs(expected.value) / 100.0)
  {
    if expected.None? then Err(IllegalArgument)
    else AssertCloseWithin(expected, actual, Some(Abs(expected.value * 0.01)))
  }

  /** The four-argument form does not care which value is the expected one. */
  lemma AssertCloseWithinIsSymmetric(a: Option<real>, b: Option<real>, margin: Option<real>)
    ensures AssertCloseWithin(a, b, margin).Ok? ==> AssertCloseWithin(a, b, margin) == AssertCloseWithin(b, a, margin)
    ensures AssertCloseWithin(a, b, margin).Err? <==> AssertCloseWithin(b, a, margin).Err?
  {
  }

  /** Equal values pass for every non-negative margin, and under the one-percent margin. */
  lemma EqualValuesAreClose(x: real, margin: real)
    requires margin >= 0.0
    ensures AssertCloseWithin(Some(x), Some(x), Some(margin)) == Ok(Passed)
    ensures AssertClose(Some(x), Some(x)) == Ok(Passed)
  {
  }

  /** A wider margin never turns a pass into a failure. */
  lemma WiderMarginStillPasses(expected: real, actual: real, m1: real, m2: real)
    requires 0.0 <= m1 <= m2
    requires AssertCloseWithin(Some(expected), Some(actual), Some(m1)) == Ok(Passed)
    ensures AssertCloseWithin(Some(expected), Some(actual), Some(m2)) == Ok(Passed)
  {
  }
}
