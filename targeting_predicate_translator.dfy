/**
 * TargetingPredicateTranslator: between the wire shape of a targeting predicate
 * (a type, a negate flag and a map of string attributes) and the internal
 * predicates. Reading validates each attribute against its fixed table of
 * values; writing puts exactly the attributes that reading takes back.
 */
module PredicateTranslation {
  import opened Java
  import opened Comparisons
  import opened CustomerService
  import opened JavaInteger
  import opened TargetingPredicates

  /** The wire-format TargetingPredicateType. */
  datatype TargetingPredicateType = AGE | CATEGORY_SPEND_FREQUENCY | CATEGORY_SPEND_VALUE | PARENT | PRIME_BENEFIT | RECOGNIZED

  /** The wire-format TargetingPredicate; the type, the map and each value in it may be null. */
  datatype CoralPredicate = CoralPredicate(
    targetingPredicateType: Option<TargetingPredicateType>,
    negate: bool,
    attributes: Option<map<string, Option<string>>>)

  const AGE_KEY: string := "AgeRange"
  const PURCHASE_NUMBER_KEY: string := "NumberOfPurchases"
  const VALUE_KEY: string := "Value"
  const BENEFIT_KEY: string := "Benefit"
  const CATEGORY_KEY: string := "Category"
  const COMPARISON_KEY: string := "Comparison"

  /** `Map.get`: the value stored under the key, null when absent. */
  function Get(attributes: map<string, Option<string>>, key: string): Option<string>
  {
    if key in attributes then attributes[key] else None
  }

  /** `Arrays.asList(values).contains(value)`; never true for null. */
  predicate OneOf(value: Option<string>, values: seq<string>)
  {
    value.Some? && value.value in values
  }

  // ---- fromCoral ----

  /** toCategory: the category attribute, which must be one of Category.values(). */
  function ToCategory(attributes: map<string, Option<string>>): (r: Result<string>)
    ensures r.Ok? <==> OneOf(Get(attributes, CATEGORY_KEY), CATEGORY_VALUES)
    ensures r.Ok? ==> Some(r.value) == Get(attributes, CATEGORY_KEY)
    ensures r.Err? ==> r.error == AdvertisementClient(CATEGORY_KEY)
  {
    var category := Get(attributes, CATEGORY_KEY);
    if !OneOf(category, CATEGORY_VALUES) then Err(AdvertisementClient(CATEGORY_KEY)) else Ok(category.value)
  }

  /** toComparison: the comparison attribute, which must be exactly the name of a Comparison. */
  function ToComparison(attributes: map<string, Option<string>>): (r: Result<Comparison>)
    ensures r.Ok? <==> OneOf(Get(attributes, COMPARISON_KEY), ["LT", "GT", "EQ"])
    ensures r.Ok? ==> Get(attributes, COMPARISON_KEY) == Some(Name(r.value))
    ensures r.Err? ==> r.error == AdvertisementClient(COMPARISON_KEY)
  {
    match Named(Get(attributes, COMPARISON_KEY))
    case None => Err(AdvertisementClient(COMPARISON_KEY))
    case Some(comparison) => Ok(comparison)
  }

  /** toInt: the attribute under `key` through Integer.parseInt; a NumberFormatException becomes a client exception. */
  function ToInt(attributes: map<string, Option<string>>, key: string): (r: Result<Int32>)
    ensures r.Ok? <==> ParseInt(Get(attributes, key)).Some?
    ensures r.Ok? ==> r.value == ParseInt(Get(attributes, key)).value
    ensures r.Err? ==> r.error == AdvertisementClient(key)
  {
    match ParseInt(Get(attributes, key))
    case None => Err(AdvertisementClient(key))
    case Some(n) => Ok(n)
  }

  /** The type written for each kind of predicate (toType). */
  function ToType(kind: PredicateKind): TargetingPredicateType
  {
    match kind
    case Age(_) => AGE
    case CategorySpendFrequency(_, _, _) => CATEGORY_SPEND_FREQUENCY
    case CategorySpendValue(_, _, _) => CATEGORY_SPEND_VALUE
    case PrimeBenefit(_) => PRIME_BENEFIT
    case Parent => PARENT
    case Recognized => RECOGNIZED
  }

  /**
   * fromCoral, with `benefitValues` standing for Benefit.values(). The switch on a
   * null type and `getAttributes().get` on a null map throw NullPointerException;
   * a rejected attribute throws a client exception naming its key, the category
   * being checked before the comparison and the comparison before the number.
   */
  function FromCoral(coral: CoralPredicate, benefitValues: seq<string>): (r: Result<TargetingPredicate>)
    ensures coral.targetingPredicateType.None? ==> r == Err(NullPointer)
    ensures r.Ok? ==> r.value.inverse == coral.negate
    ensures r.Ok? ==> coral.targetingPredicateType == Some(ToType(r.value.kind))
  {
    match coral.targetingPredicateType
    case None => Err(NullPointer)
    case Some(PARENT) => Ok(TargetingPredicate(Parent, coral.negate))
    case Some(RECOGNIZED) => Ok(TargetingPredicate(Recognized, coral.negate))
    case Some(t) =>
      if coral.attributes.None? then Err(NullPointer)
      else
        var attributes := coral.attributes.value;
        match t
        case AGE =>
          var range := Get(attributes, AGE_KEY);
          if !OneOf(range, AGE_RANGE_VALUES) then Err(AdvertisementClient(AGE_KEY)) else NewAge(range, coral.negate)
        case PRIME_BENEFIT =>
          var benefit := Get(attributes, BENEFIT_KEY);
          if !OneOf(benefit, benefitValues) then Err(AdvertisementClient(BENEFIT_KEY)) else NewPrimeBenefit(benefit, coral.negate)
        case CATEGORY_SPEND_FREQUENCY =>
          FromSpendAttributes(attributes, PURCHASE_NUMBER_KEY, coral.negate, true)
        case CATEGORY_SPEND_VALUE =>
          FromSpendAttributes(attributes, VALUE_KEY, coral.negate, false)
  }

  /** The two spend predicates: category, comparison, then the number under `numberKey`. */
  function FromSpendAttributes(attributes: map<string, Option<string>>, numberKey: string, negate: bool, frequency: bool)
    : (r: Result<TargetingPredicate>)
    ensures r.Ok? ==> r.value.inverse == negate
    ensures r.Ok? ==> if frequency then r.value.kind.CategorySpendFrequency? else r.value.kind.CategorySpendValue?
  {
    match ToCategory(attributes)
    case Err(e) => Err(e)
    case Ok(category) =>
      match ToComparison(attributes)
      case Err(e) => Err(e)
      case Ok(comparison) =>
        match ToInt(attributes, numberKey)
        case Err(e) => Err(e)
        case Ok(n) =>
          if frequency then NewCategorySpendFrequency(Some(category), Some(comparison), n, negate)
          else NewCategorySpendValue(Some(category), Some(comparison), n, negate)
  }

  // ---- toCoral ----

  /** The attribute keys fromCoral reads for each type. */
  function KeysRead(t: TargetingPredicateType): set<string>
  {
    match t
    case AGE => {AGE_KEY}
    case CATEGORY_SPEND_FREQUENCY => {CATEGORY_KEY, COMPARISON_KEY, PURCHASE_NUMBER_KEY}
    case CATEGORY_SPEND_VALUE => {CATEGORY_KEY, COMPARISON_KEY, VALUE_KEY}
    case PRIME_BENEFIT => {BENEFIT_KEY}
    case PARENT => {}
    case RECOGNIZED => {}
  }

  /**
   * The attribute map toAttributes builds. `getComparison().toString()` throws
   * NullPointerException for a spend predicate without a comparison; a null
   * category, age range or benefit is stored as a null value.
   */
  function Attributes(kind: PredicateKind): (r: Result<map<string, Option<string>>>)
    ensures r.Ok? ==> r.value.Keys == KeysRead(ToType(kind))
    ensures r.Err? <==> (kind.CategorySpendFrequency? || kind.CategorySpendValue?) && kind.comparison.None?
  {
    match kind
    case Age(range) => Ok(map[AGE_KEY := range])
    case CategorySpendFrequency(category, comparison, purchases) =>
      if comparison.None? then Err(NullPointer)
      else Ok(map[CATEGORY_KEY := category, COMPARISON_KEY := Some(Name(comparison.value)),
                  PURCHASE_NUMBER_KEY := Some(IntToString(purchases))])
    case CategorySpendValue(category, comparison, value) =>
      if comparison.None? then Err(NullPointer)
      else Ok(map[CATEGORY_KEY := category, COMPARISON_KEY := Some(Name(comparison.value)),
                  VALUE_KEY := Some(IntToString(value))])
    case PrimeBenefit(benefit) => Ok(map[BENEFIT_KEY := benefit])
    case Parent => Ok(map[])
    case Recognized => Ok(map[])
  }

  /** toAttributes: a fresh HashMap filled by successive puts. */
  method ToAttributes(kind: PredicateKind) returns (r: Result<map<string, Option<string>>>)
    ensures r == Attributes(kind)
  {
    var attributes: map<string, Option<string>> := map[];
    match kind {
      case Age(range) =>
        attributes := attributes[AGE_KEY := range];
      case CategorySpendFrequency(category, comparison, purchases) =>
        attributes := attributes[CATEGORY_KEY := category];
        if comparison.None? {
          return Err(NullPointer);
        }
        attributes := attributes[COMPARISON_KEY := Some(Name(comparison.value))];
        attributes := attributes[PURCHASE_NUMBER_KEY := Some(IntToString(purchases))];
      case CategorySpendValue(category, comparison, value) =>
        attributes := attributes[CATEGORY_KEY := category];
        if comparison.None? {
          return Err(NullPointer);
        }
        attributes := attributes[COMPARISON_KEY := Some(Name(comparison.value))];
        attributes := attributes[VALUE_KEY := Some(IntToString(value))];
      case PrimeBenefit(benefit) =>
        attributes := attributes[BENEFIT_KEY := benefit];
      case Parent =>
      case Recognized =>
    }
    return Ok(attributes);
  }

  /** toCoral: negate from the inverse flag, the type of the predicate's class, and its attributes. */
  function ToCoral(p: TargetingPredicate): (r: Result<CoralPredicate>)
    ensures r.Ok? ==> r.value.negate == p.inverse && r.value.targetingPredicateType == Some(ToType(p.kind))
    ensures r.Ok? ==> r.value.attributes.Some? && r.value.attributes.value.Keys == KeysRead(ToType(p.kind))
  {
    match Attributes(p.kind)
    case Err(e) => Err(e)
    case Ok(attributes) => Ok(CoralPredicate(Some(ToType(p.kind)), p.inverse, Some(attributes)))
  }

  // ---- properties ----

  /** A predicate whose fields are values of their tables: what fromCoral can produce. */
  predicate Valid(p: TargetingPredicate, benefitValues: seq<string>)
  {
    match p.kind
    case Age(range) => OneOf(range, AGE_RANGE_VALUES)
    case CategorySpendFrequency(category, comparison, _) => OneOf(category, CATEGORY_VALUES) && comparison.Some?
    case CategorySpendValue(category, comparison, _) => OneOf(category, CATEGORY_VALUES) && comparison.Some?
    case PrimeBenefit(benefit) => OneOf(benefit, benefitValues)
    case Parent => true
    case Recognized => true
  }

  /** Whatever fromCoral accepts is valid. */
  lemma FromCoralIsValid(coral: CoralPredicate, benefitValues: seq<string>)
    requires FromCoral(coral, benefitValues).Ok?
    ensures Valid(FromCoral(coral, benefitValues).value, benefitValues)
  {
  }

  /** Round trip: a valid predicate comes back unchanged from its wire shape. */
  lemma FromCoralOfToCoral(p: TargetingPredicate, benefitValues: seq<string>)
    requires Valid(p, benefitValues)
    ensures ToCoral(p).Ok?
    ensures FromCoral(ToCoral(p).value, benefitValues) == Ok(p)
  {
    match p.kind
    case CategorySpendFrequency(category, comparison, purchases) =>
      SpendRoundTrip(category.value, comparison.value, purchases, PURCHASE_NUMBER_KEY, p.inverse, true);
    case CategorySpendValue(category, comparison, value) =>
      SpendRoundTrip(category.value, comparison.value, value, VALUE_KEY, p.inverse, false);
    case _ =>
  }

  /** The spend attributes toAttributes writes are read back as the fields they came from. */
  lemma SpendRoundTrip(category: string, comparison: Comparison, n: Int32, numberKey: string, negate: bool, frequency: bool)
    requires category in CATEGORY_VALUES
    requires numberKey == PURCHASE_NUMBER_KEY || numberKey == VALUE_KEY
    ensures var attributes := map[CATEGORY_KEY := Some(category), COMPARISON_KEY := Some(Name(comparison)),
                                  numberKey := Some(IntToString(n))];
      FromSpendAttributes(attributes, numberKey, negate, frequency)
        == Ok(TargetingPredicate(if frequency then CategorySpendFrequency(Some(category), Some(comparison), n)
                                 else CategorySpendValue(Some(category), Some(comparison), n), negate))
  {
    var attributes := map[CATEGORY_KEY := Some(category), COMPARISON_KEY := Some(Name(comparison)),
                           numberKey := Some(IntToString(n))];
    assert Get(attributes, CATEGORY_KEY) == Some(category);
    assert Get(attributes, COMPARISON_KEY) == Some(Name(comparison));
    assert Named(Some(Name(comparison))) == Some(comparison);
    assert Get(attributes, numberKey) == Some(IntToString(n));
    ParseIntOfIntToString(n);
  }

  /**
   * The other way round: a wire shape fromCoral accepts is written back with the
   * same type and flag, the same table values, and the same number whenever that
   * number was spelled as Integer.toString spells it.
   */
  lemma ToCoralOfFromCoral(coral: CoralPredicate, benefitValues: seq<string>)
    requires FromCoral(coral, benefitValues).Ok?
    ensures ToCoral(FromCoral(coral, benefitValues).value).Ok?
    ensures var back := ToCoral(FromCoral(coral, benefitValues).value).value;
      back.targetingPredicateType == coral.targetingPredicateType && back.negate == coral.negate
      && back.attributes.Some?
      && forall key | key in KeysRead(coral.targetingPredicateType.value) ::
           key != PURCHASE_NUMBER_KEY && key != VALUE_KEY ==> Get(back.attributes.value, key) == Get(coral.attributes.value, key)
    ensures var back := ToCoral(FromCoral(coral, benefitValues).value).value;
      forall key | key in KeysRead(coral.targetingPredicateType.value) && (key == PURCHASE_NUMBER_KEY || key == VALUE_KEY) ::
        Canonical(Get(coral.attributes.value, key).value) ==> Get(back.attributes.value, key) == Get(coral.attributes.value, key)
  {
    var attributes := coral.attributes;
    match coral.targetingPredicateType.value
    case CATEGORY_SPEND_FREQUENCY =>
      SpendReadBack(attributes.value, PURCHASE_NUMBER_KEY, coral.negate, true);
    case CATEGORY_SPEND_VALUE =>
      SpendReadBack(attributes.value, VALUE_KEY, coral.negate, false);
    case _ =>
  }

  /** The spend attributes fromCoral accepts are written back alike, the number when it is canonically spelled. */
  lemma SpendReadBack(attributes: map<string, Option<string>>, numberKey: string, negate: bool, frequency: bool)
    requires FromSpendAttributes(attributes, numberKey, negate, frequency).Ok?
    requires numberKey == if frequency then PURCHASE_NUMBER_KEY else VALUE_KEY
    ensures Get(attributes, numberKey).Some?
    ensures var back := Attributes(FromSpendAttributes(attributes, numberKey, negate, frequency).value.kind);
      back.Ok?
      && Get(back.value, CATEGORY_KEY) == Get(attributes, CATEGORY_KEY)
      && Get(back.value, COMPARISON_KEY) == Get(attributes, COMPARISON_KEY)
      && (Canonical(Get(attributes, numberKey).value) ==> Get(back.value, numberKey) == Get(attributes, numberKey))
  {
    var text := Get(attributes, numberKey).value;
    var category := ToCategory(attributes).value;
    var comparison := ToComparison(attributes).value;
    var n := ToInt(attributes, numberKey).value;
    var kind := if frequency then CategorySpendFrequency(Some(category), Some(comparison), n)
                else CategorySpendValue(Some(category), Some(comparison), n);
    assert FromSpendAttributes(attributes, numberKey, negate, frequency).value.kind == kind;
    var written := map[CATEGORY_KEY := Some(category), COMPARISON_KEY := Some(Name(comparison)),
                       numberKey := Some(IntToString(n))];
    assert Attributes(kind) == Ok(written);
    if Canonical(text) {
      IntToStringOfParseInt(text);
      assert Get(written, numberKey) == Some(text);
    }
  }

  /** fromCoral reads nothing but the keys of its type: wire shapes that agree there translate alike. */
  lemma FromCoralReadsOnlyItsKeys(c1: CoralPredicate, c2: CoralPredicate, benefitValues: seq<string>)
    requires c1.targetingPredicateType == c2.targetingPredicateType && c1.negate == c2.negate
    requires c1.attributes.Some? == c2.attributes.Some?
    requires c1.targetingPredicateType.Some? && c1.attributes.Some? ==>
      forall key | key in KeysRead(c1.targetingPredicateType.value) :: Get(c1.attributes.value, key) == Get(c2.attributes.value, key)
    ensures FromCoral(c1, benefitValues) == FromCoral(c2, benefitValues)
  {
    if c1.targetingPredicateType.Some? && c1.attributes.Some? {
      var keys := KeysRead(c1.targetingPredicateType.value);
      match c1.targetingPredicateType.value
      case CATEGORY_SPEND_FREQUENCY =>
        assert CATEGORY_KEY in keys && COMPARISON_KEY in keys && PURCHASE_NUMBER_KEY in keys;
      case CATEGORY_SPEND_VALUE =>
        assert CATEGORY_KEY in keys && COMPARISON_KEY in keys && VALUE_KEY in keys;
      case AGE =>
        assert AGE_KEY in keys;
      case PRIME_BENEFIT =>
        assert BENEFIT_KEY in keys;
      case _ =>
    }
  }

  /** PARENT and RECOGNIZED never look at the attribute map, even a null one. */
  lemma ParentAndRecognizedIgnoreAttributes(coral: CoralPredicate, benefitValues: seq<string>)
    requires coral.targetingPredicateType == Some(PARENT) || coral.targetingPredicateType == Some(RECOGNIZED)
    ensures FromCoral(coral, benefitValues).Ok?
    ensures FromCoral(coral, benefitValues) == FromCoral(coral.(attributes := None), benefitValues)
  {
  }

  /** AGE accepts exactly the eight age ranges; anything else, a missing key included, is a client error. */
  lemma AgeAcceptsExactlyTheTable(coral: CoralPredicate, benefitValues: seq<string>)
    requires coral.targetingPredicateType == Some(AGE) && coral.attributes.Some?
    ensures FromCoral(coral, benefitValues).Ok? <==> OneOf(Get(coral.attributes.value, AGE_KEY), AGE_RANGE_VALUES)
    ensures FromCoral(coral, benefitValues).Err? ==> FromCoral(coral, benefitValues).error == AdvertisementClient(AGE_KEY)
  {
  }

  /** A spend predicate is accepted exactly when its category, comparison and number all are, checked in that order. */
  lemma SpendAttributesChecked(coral: CoralPredicate, benefitValues: seq<string>)
    requires coral.targetingPredicateType == Some(CATEGORY_SPEND_FREQUENCY) || coral.targetingPredicateType == Some(CATEGORY_SPEND_VALUE)
    requires coral.attributes.Some?
    ensures var attributes := coral.attributes.value;
      var numberKey := if coral.targetingPredicateType == Some(CATEGORY_SPEND_FREQUENCY) then PURCHASE_NUMBER_KEY else VALUE_KEY;
      var r := FromCoral(coral, benefitValues);
      var categoryOk := OneOf(Get(attributes, CATEGORY_KEY), CATEGORY_VALUES);
      var comparisonOk := OneOf(Get(attributes, COMPARISON_KEY), ["LT", "GT", "EQ"]);
      (!categoryOk ==> r == Err(AdvertisementClient(CATEGORY_KEY)))
      && (categoryOk && !comparisonOk ==> r == Err(AdvertisementClient(COMPARISON_KEY)))
      && (categoryOk && comparisonOk ==> (r.Ok? <==> ParseInt(Get(attributes, numberKey)).Some?))
  {
  }
}
