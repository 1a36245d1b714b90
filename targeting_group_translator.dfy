/**
 * TargetingGroupTranslator: writes an internal targeting group in its wire
 * shape, translating each of its predicates in list order.
 */
module GroupTranslation {
  import opened Java
  import opened TargetingPredicates
  import opened TargetingEvaluation
  import opened PredicateTranslation

  /** The wire-format TargetingGroup. */
  datatype CoralGroup = CoralGroup(
    targetingGroupId: Option<string>,
    contentId: Option<string>,
    clickThroughRate: real,
    targetingPredicates: seq<CoralPredicate>)

  /**
   * `stream().map(TargetingPredicateTranslator::toCoral).collect(toList())`: the
   * translations in the same order; the first predicate that cannot be written
   * makes the whole list fail with its exception.
   */
  function PredicatesToCoral(predicates: seq<TargetingPredicate>): (r: Result<seq<CoralPredicate>>)
    ensures r.Ok? <==> forall i | 0 <= i < |predicates| :: ToCoral(predicates[i]).Ok?
    ensures r.Ok? ==> |r.value| == |predicates| && forall i | 0 <= i < |predicates| :: ToCoral(predicates[i]) == Ok(r.value[i])
    ensures r.Err? ==> exists i | 0 <= i < |predicates| ::
                         ToCoral(predicates[i]) == Err(r.error) && forall j | 0 <= j < i :: ToCoral(predicates[j]).Ok?
  {
    if predicates == [] then Ok([])
    else
      match ToCoral(predicates[0])
      case Err(e) => Err(e)
      case Ok(first) =>
        match PredicatesToCoral(predicates[1..])
        case Err(e) =>
          ghost var i :| 0 <= i < |predicates[1..]| && ToCoral(predicates[1..][i]) == Err(e)
            && forall j | 0 <= j < i :: ToCoral(predicates[1..][j]).Ok?;
          assert ToCoral(predicates[i + 1]) == Err(e);
          assert forall j | 0 <= j < i + 1 :: ToCoral(predicates[j]).Ok? by {
            forall j | 0 <= j < i + 1
              ensures ToCoral(predicates[j]).Ok?
            {
              if j > 0 {
                assert predicates[j] == predicates[1..][j - 1];
              }
            }
          }
          Err(e)
        case Ok(rest) =>
          assert forall i | 0 <= i < |predicates| :: ToCoral(predicates[i]) == Ok(([first] + rest)[i]) by {
            forall i | 0 <= i < |predicates|
              ensures ToCoral(predicates[i]) == Ok(([first] + rest)[i])
            {
              if i > 0 {
                assert predicates[i] == predicates[1..][i - 1];
              }
            }
          }
          Ok([first] + rest)
  }

  /** toCoral(group): the identifiers and the click-through rate copied, the predicates translated. */
  function GroupToCoral(group: TargetingGroup): (r: Result<CoralGroup>)
    ensures r.Ok? <==> PredicatesToCoral(group.targetingPredicates).Ok?
    ensures r.Ok? ==> r.value.targetingGroupId == group.targetingGroupId && r.value.contentId == group.contentId
    ensures r.Ok? ==> r.value.clickThroughRate == group.clickThroughRate
    ensures r.Ok? ==> r.value.targetingPredicates == PredicatesToCoral(group.targetingPredicates).value
  {
    match PredicatesToCoral(group.targetingPredicates)
    case Err(e) => Err(e)
    case Ok(predicates) => Ok(CoralGroup(group.targetingGroupId, group.contentId, group.clickThroughRate, predicates))
  }

  /** Reading the written predicates back one by one gives the group's own predicates, when each is valid. */
  lemma GroupPredicatesReadBack(group: TargetingGroup, benefitValues: seq<string>)
    requires forall i | 0 <= i < |group.targetingPredicates| :: Valid(group.targetingPredicates[i], benefitValues)
    ensures GroupToCoral(group).Ok?
    ensures var written := GroupToCoral(group).value.targetingPredicates;
      |written| == |group.targetingPredicates|
      && forall i | 0 <= i < |written| :: FromCoral(written[i], benefitValues) == Ok(group.targetingPredicates[i])
  {
    var predicates := group.targetingPredicates;
    forall i | 0 <= i < |predicates|
      ensures ToCoral(predicates[i]).Ok? && FromCoral(ToCoral(predicates[i]).value, benefitValues) == Ok(predicates[i])
    {
      FromCoralOfToCoral(predicates[i], benefitValues);
    }
  }

  /** A group fails to be written exactly when one of its spend predicates lacks a comparison. */
  lemma GroupFailsOnMissingComparison(group: TargetingGroup)
    ensures GroupToCoral(group).Err? <==>
      exists i | 0 <= i < |group.targetingPredicates| ::
        var kind := group.targetingPredicates[i].kind;
        (kind.CategorySpendFrequency? || kind.CategorySpendValue?) && kind.comparison.None?
  {
    if GroupToCoral(group).Err? {
      var i :| 0 <= i < |group.targetingPredicates| && ToCoral(group.targetingPredicates[i]).Err?;
      assert Attributes(group.targetingPredicates[i].kind).Err?;
    } else {
      forall i | 0 <= i < |group.targetingPredicates|
        ensures Attributes(group.targetingPredicates[i].kind).Ok?
      {
        assert ToCoral(group.targetingPredicates[i]).Ok?;
      }
    }
  }
}
