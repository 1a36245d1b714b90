/**
 * The targeting predicates: the abstract TargetingPredicate (routing to the
 * recognized or unrecognized rule, then applying the inverse flag) and its six
 * concrete kinds. The DAOs the predicates consult become the functions of a
 * `CustomerData` value.
 */
module TargetingPredicates {
  import opened Java
  import opened PredicateResults
  import opened Comparisons
  import opened RequestContexts
  import opened CustomerService

  /** The concrete predicate classes and the fields each holds; `None` fields are null (no-arg constructors). */
  datatype PredicateKind =
    | Age(targetedAgeRange: Option<string>)
    | CategorySpendFrequency(targetedCategory: Option<string>, comparison: Option<Comparison>, targetedNumberOfPurchases: Int32)
    | CategorySpendValue(targetedCategory: Option<string>, comparison: Option<Comparison>, targetedValue: Int32)
    | PrimeBenefit(benefitToHave: Option<string>)
    | Parent
    | Recognized

  /** A predicate of some kind, with the inherited `inverse` flag. */
  datatype TargetingPredicate = TargetingPredicate(kind: PredicateKind, inverse: bool)

  /**
   * What the injected DAOs answer: the profile stored for a customer id (null when
   * there is none), the customer's spend per category, and the names of the
   * customer's Prime benefits.
   */
  datatype CustomerData = CustomerData(
    profiles: Option<string> -> Option<CustomerProfile>,
    spend: RequestContext -> map<string, Spend>,
    benefits: RequestContext -> seq<string>)

  /** ZERO_SPEND, the default for a category the customer has no spend in. */
  const ZERO_SPEND: Spend := Spend(0, 0)

  // ---- constructors (`Validate.notNull` throws NullPointerException) ----

  /** AgeTargetingPredicate(targetedAgeRange, inverse). */
  function NewAge(targetedAgeRange: Option<string>, inverse: bool): (r: Result<TargetingPredicate>)
    ensures r.Err? <==> targetedAgeRange.None?
    ensures r.Err? ==> r.error == NullPointer
    ensures r.Ok? ==> r.value.kind.Age? && r.value.kind.targetedAgeRange == targetedAgeRange && r.value.inverse == inverse
  {
    if targetedAgeRange.None? then Err(NullPointer) else Ok(TargetingPredicate(Age(targetedAgeRange), inverse))
  }

  /** CategorySpendFrequencyTargetingPredicate(category, comparison, number, inverse); the category is checked first. */
  function NewCategorySpendFrequency(category: Option<string>, comparison: Option<Comparison>, purchases: Int32, inverse: bool)
    : (r: Result<TargetingPredicate>)
    ensures r.Err? <==> category.None? || comparison.None?
    ensures r.Err? ==> r.error == NullPointer
    ensures r.Ok? ==> r.value == TargetingPredicate(CategorySpendFrequency(category, comparison, purchases), inverse)
  {
    if category.None? then Err(NullPointer)
    else if comparison.None? then Err(NullPointer)
    else Ok(TargetingPredicate(CategorySpendFrequency(category, comparison, purchases), inverse))
  }

  /** CategorySpendValueTargetingPredicate(category, comparison, value, inverse); the category is checked first. */
  function NewCategorySpendValue(category: Option<string>, comparison: Option<Comparison>, value: Int32, inverse: bool)
    : (r: Result<TargetingPredicate>)
    ensures r.Err? <==> category.None? || comparison.None?
    ensures r.Err? ==> r.error == NullPointer
    ensures r.Ok? ==> r.value == TargetingPredicate(CategorySpendValue(category, comparison, value), inverse)
  {
    if category.None? then Err(NullPointer)
    else if comparison.None? then Err(NullPointer)
    else Ok(TargetingPredicate(CategorySpendValue(category, comparison, value), inverse))
  }

  /** PrimeBenefitTargetingPredicate(benefitToHave, inverse). */
  function NewPrimeBenefit(benefitToHave: Option<string>, inverse: bool): (r: Result<TargetingPredicate>)
    ensures r.Err? <==> benefitToHave.None?
    ensures r.Err? ==> r.error == NullPointer
    ensures r.Ok? ==> r.value == TargetingPredicate(PrimeBenefit(benefitToHave), inverse)
  {
    if benefitToHave.None? then Err(NullPointer) else Ok(TargetingPredicate(PrimeBenefit(benefitToHave), inverse))
  }

  /** setInverse: only the flag changes. */
  function SetInverse(p: TargetingPredicate, inverse: bool): (q: TargetingPredicate)
    ensures q.inverse == inverse && q.kind == p.kind
  {
    p.(inverse := inverse)
  }

  // ---- evaluation ----

  /** `getOrDefault(category, ZERO_SPEND)` on the customer's spend map. */
  function SpendIn(spends: map<string, Spend>, category: string): Spend
  {
    if category in spends then spends[category] else ZERO_SPEND
  }

  function AsResult(b: bool): TargetingPredicateResult
  {
    if b then TRUE else FALSE
  }

  /** evaluateRecognizedCustomer of each concrete predicate class. */
  function EvaluateRecognized(kind: PredicateKind, ctx: RequestContext, data: CustomerData): Result<TargetingPredicateResult>
  {
    match kind
    case Age(targetedAgeRange) =>
      if targetedAgeRange.None? then Err(NullPointer)
      else
        var profile := data.profiles(ctx.customerId);
        if profile.None? then Err(NullPointer)
        else Ok(AsResult(EqualsIgnoreCase(targetedAgeRange.value, profile.value.ageRange)))
    case CategorySpendFrequency(category, comparison, purchases) =>
      if category.None? || comparison.None? then Err(NullPointer)
      else
        var spend := SpendIn(data.spend(ctx), category.value);
        Ok(AsResult(Compare(comparison.value, spend.numberOfPurchases, purchases)))
    case CategorySpendValue(category, comparison, value) =>
      if category.None? || comparison.None? then Err(NullPointer)
      else
        var spend := SpendIn(data.spend(ctx), category.value);
        Ok(AsResult(Compare(comparison.value, spend.usdSpent, value)))
    case PrimeBenefit(benefitToHave) =>
      if benefitToHave.None? then Err(NullPointer)
      else Ok(AsResult(benefitToHave.value in data.benefits(ctx)))
    case Parent =>
      var profile := data.profiles(ctx.customerId);
      if profile.None? then Err(NullPointer)
      else
        (match profile.value.parent
         case None => Ok(INDETERMINATE)
         case Some(isParent) => Ok(AsResult(isParent)))
    case Recognized =>
      Ok(TRUE)
  }

  /** evaluateUnrecognizedCustomer: INDETERMINATE by default, FALSE for the recognized-customer predicate. */
  function EvaluateUnrecognized(kind: PredicateKind): TargetingPredicateResult
  {
    if kind.Recognized? then FALSE else INDETERMINATE
  }

  /** evaluateWithoutInverse: the recognized rule exactly when the context's customer is recognized. */
  function EvaluateWithoutInverse(p: TargetingPredicate, ctx: RequestContext, data: CustomerData): Result<TargetingPredicateResult>
  {
    if ctx.recognizedCustomer then EvaluateRecognized(p.kind, ctx, data) else Ok(EvaluateUnrecognized(p.kind))
  }

  /** evaluate: the raw result, inverted when the inverse flag is set. */
  function Evaluate(p: TargetingPredicate, ctx: RequestContext, data: CustomerData): (r: Result<TargetingPredicateResult>)
    ensures r.Ok? <==> EvaluateWithoutInverse(p, ctx, data).Ok?
    ensures r.Ok? && !p.inverse ==> r.value == EvaluateWithoutInverse(p, ctx, data).value
    ensures r.Ok? && p.inverse ==> r.value == Invert(EvaluateWithoutInverse(p, ctx, data).value)
  {
    match EvaluateWithoutInverse(p, ctx, data)
    case Err(e) => Err(e)
    case Ok(raw) => Ok(if p.inverse then Invert(raw) else raw)
  }

  // ---- properties of the abstract predicate ----

  /** Flipping the inverse flag inverts the result for the same context and data. */
  lemma FlippingInverseInverts(p: TargetingPredicate, ctx: RequestContext, data: CustomerData)
    ensures Evaluate(SetInverse(p, !p.inverse), ctx, data).Ok? <==> Evaluate(p, ctx, data).Ok?
    ensures Evaluate(p, ctx, data).Ok? ==>
      Evaluate(SetInverse(p, !p.inverse), ctx, data).value == Invert(Evaluate(p, ctx, data).value)
  {
    if Evaluate(p, ctx, data).Ok? {
      InvertInvolution(EvaluateWithoutInverse(p, ctx, data).value);
    }
  }

  /** Every predicate other than the recognized one is INDETERMINATE for an unrecognized customer, inverse or not. */
  lemma UnrecognizedIsIndeterminate(p: TargetingPredicate, ctx: RequestContext, data: CustomerData)
    requires !ctx.recognizedCustomer && !p.kind.Recognized?
    ensures Evaluate(p, ctx, data) == Ok(INDETERMINATE)
  {
  }

  /** The recognized-customer predicate: TRUE for a recognized customer and FALSE otherwise, never INDETERMINATE; swapped by inverse. */
  lemma RecognizedPredicateResult(inverse: bool, ctx: RequestContext, data: CustomerData)
    ensures Evaluate(TargetingPredicate(Recognized, inverse), ctx, data)
      == Ok(if ctx.recognizedCustomer != inverse then TRUE else FALSE)
  {
  }

  // ---- properties of the concrete predicates, for a recognized customer ----

  /** Age: TRUE iff the targeted range equals the profile's range ignoring case; a null profile range gives FALSE. */
  lemma AgeResult(range: string, inverse: bool, ctx: RequestContext, data: CustomerData)
    requires ctx.recognizedCustomer && data.profiles(ctx.customerId).Some?
    ensures var profile := data.profiles(ctx.customerId).value;
      Evaluate(TargetingPredicate(Age(Some(range)), inverse), ctx, data)
        == Ok(if EqualsIgnoreCase(range, profile.ageRange) != inverse then TRUE else FALSE)
    ensures data.profiles(ctx.customerId).value.ageRange.None? ==>
      Evaluate(TargetingPredicate(Age(Some(range)), false), ctx, data) == Ok(FALSE)
  {
  }

  /** Spend frequency: TRUE iff the purchases in the category (0 when absent) compare as asked against the target. */
  lemma SpendFrequencyResult(category: string, comparison: Comparison, purchases: Int32, inverse: bool,
                             ctx: RequestContext, data: CustomerData)
    requires ctx.recognizedCustomer
    ensures var bought := if category in data.spend(ctx) then data.spend(ctx)[category].numberOfPurchases else 0;
      Evaluate(TargetingPredicate(CategorySpendFrequency(Some(category), Some(comparison), purchases), inverse), ctx, data)
        == Ok(if Compare(comparison, bought, purchases) != inverse then TRUE else FALSE)
  {
  }

  /** Spend value: TRUE iff the dollars spent in the category (0 when absent) compare as asked against the target. */
  lemma SpendValueResult(category: string, comparison: Comparison, value: Int32, inverse: bool,
                         ctx: RequestContext, data: CustomerData)
    requires ctx.recognizedCustomer
    ensures var spent := if category in data.spend(ctx) then data.spend(ctx)[category].usdSpent else 0;
      Evaluate(TargetingPredicate(CategorySpendValue(Some(category), Some(comparison), value), inverse), ctx, data)
        == Ok(if Compare(comparison, spent, value) != inverse then TRUE else FALSE)
  {
  }

  /** The frequency predicate never looks at dollars spent, and the value predicate never at the number of purchases. */
  lemma SpendPredicatesReadOneField(p: TargetingPredicate, ctx: RequestContext, d1: CustomerData, d2: CustomerData)
    requires (p.kind.CategorySpendFrequency? || p.kind.CategorySpendValue?) && p.kind.targetedCategory.Some?
    requires d1.profiles == d2.profiles && d1.benefits == d2.benefits
    requires p.kind.CategorySpendFrequency? ==>
      SpendIn(d1.spend(ctx), p.kind.targetedCategory.value).numberOfPurchases
        == SpendIn(d2.spend(ctx), p.kind.targetedCategory.value).numberOfPurchases
    requires p.kind.CategorySpendValue? ==>
      SpendIn(d1.spend(ctx), p.kind.targetedCategory.value).usdSpent
        == SpendIn(d2.spend(ctx), p.kind.targetedCategory.value).usdSpent
    ensures Evaluate(p, ctx, d1) == Evaluate(p, ctx, d2)
  {
  }

  /** A predicate left with a null field by its no-arg constructor throws when a recognized customer is evaluated. */
  lemma NullFieldsFailValidation(p: TargetingPredicate, ctx: RequestContext, data: CustomerData)
    requires ctx.recognizedCustomer
    requires match p.kind
      case Age(r) => r.None?
      case CategorySpendFrequency(c, cmp, _) => c.None? || cmp.None?
      case CategorySpendValue(c, cmp, _) => c.None? || cmp.None?
      case PrimeBenefit(b) => b.None?
      case _ => false
    ensures Evaluate(p, ctx, data) == Err(NullPointer)
  {
  }

  /** Prime benefit: TRUE iff the benefit is in the customer's list, so only which names occur matters. */
  lemma PrimeBenefitResult(benefit: string, inverse: bool, ctx: RequestContext, d1: CustomerData, d2: CustomerData)
    requires ctx.recognizedCustomer
    requires forall b :: b in d1.benefits(ctx) <==> b in d2.benefits(ctx)
    ensures Evaluate(TargetingPredicate(PrimeBenefit(Some(benefit)), inverse), ctx, d1)
      == Ok(if (benefit in d1.benefits(ctx)) != inverse then TRUE else FALSE)
    ensures Evaluate(TargetingPredicate(PrimeBenefit(Some(benefit)), inverse), ctx, d1)
      == Evaluate(TargetingPredicate(PrimeBenefit(Some(benefit)), inverse), ctx, d2)
    ensures d1.benefits(ctx) == [] ==>
      Evaluate(TargetingPredicate(PrimeBenefit(Some(benefit)), inverse), ctx, d1) == Ok(if inverse then TRUE else FALSE)
  {
  }

  /** Parent: a null flag is INDETERMINATE with or without inverse; true and false give TRUE and FALSE, swapped by inverse. */
  lemma ParentResult(inverse: bool, ctx: RequestContext, data: CustomerData)
    requires ctx.recognizedCustomer && data.profiles(ctx.customerId).Some?
    ensures var flag := data.profiles(ctx.customerId).value.parent;
      Evaluate(TargetingPredicate(Parent, inverse), ctx, data)
        == Ok(if flag.None? then INDETERMINATE else if flag.value != inverse then TRUE else FALSE)
  {
  }
}
