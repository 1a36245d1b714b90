/**
 * TargetingEvaluator: a targeting group is TRUE when every one of its
 * predicates evaluates TRUE for the request's context.
 */
module TargetingEvaluation {
  import opened Java
  import opened PredicateResults
  import opened RequestContexts
  import opened TargetingPredicates

  /** TargetingGroup: one targeting rule of a content, with its click-through rate. */
  datatype TargetingGroup = TargetingGroup(
    targetingGroupId: Option<string>,
    contentId: Option<string>,
    clickThroughRate: real,
    targetingPredicates: seq<TargetingPredicate>)

  /**
   * `allMatch(isTrue)` over the predicates' results in list order: it stops at the
   * first result that is not TRUE, and a predicate that throws before that point
   * makes the whole evaluation throw.
   */
  function AllTrue(predicates: seq<TargetingPredicate>, ctx: RequestContext, data: CustomerData): (r: Result<TargetingPredicateResult>)
    ensures r.Ok? ==> r.value != INDETERMINATE
  {
    if predicates == [] then Ok(TRUE)
    else
      match Evaluate(predicates[0], ctx, data)
      case Err(e) => Err(e)
      case Ok(first) => if !IsTrue(first) then Ok(FALSE) else AllTrue(predicates[1..], ctx, data)
  }

  /** evaluate(targetingGroup), every predicate evaluated against the evaluator's one context. */
  function EvaluateGroup(group: TargetingGroup, ctx: RequestContext, data: CustomerData): Result<TargetingPredicateResult>
  {
    AllTrue(group.targetingPredicates, ctx, data)
  }

  /** The group is TRUE exactly when every predicate evaluates TRUE. */
  lemma {:induction false} TrueIffEveryPredicateTrue(predicates: seq<TargetingPredicate>, ctx: RequestContext, data: CustomerData)
    ensures AllTrue(predicates, ctx, data) == Ok(TRUE)
      <==> forall i | 0 <= i < |predicates| :: Evaluate(predicates[i], ctx, data) == Ok(TRUE)
  {
    if predicates != [] {
      TrueIffEveryPredicateTrue(predicates[1..], ctx, data);
      assert forall i | 1 <= i < |predicates| :: predicates[i] == predicates[1..][i - 1];
    }
  }

  /** When no predicate throws, the group is FALSE exactly when some predicate is FALSE or INDETERMINATE. */
  lemma {:induction false} FalseIffSomePredicateNotTrue(predicates: seq<TargetingPredicate>, ctx: RequestContext, data: CustomerData)
    requires forall i | 0 <= i < |predicates| :: Evaluate(predicates[i], ctx, data).Ok?
    ensures AllTrue(predicates, ctx, data) == Ok(FALSE)
      <==> exists i | 0 <= i < |predicates| :: Evaluate(predicates[i], ctx, data).value != TRUE
  {
    if predicates != [] {
      assert forall i | 1 <= i < |predicates| :: predicates[i] == predicates[1..][i - 1];
      FalseIffSomePredicateNotTrue(predicates[1..], ctx, data);
      if exists i | 0 <= i < |predicates| :: Evaluate(predicates[i], ctx, data).value != TRUE {
        var i :| 0 <= i < |predicates| && Evaluate(predicates[i], ctx, data).value != TRUE;
        if i > 0 {
          assert Evaluate(predicates[1..][i - 1], ctx, data).value != TRUE;
        }
      }
    }
  }

  /** When no predicate throws, reordering the predicates does not change the group's result. */
  lemma OrderIrrelevant(p1: seq<TargetingPredicate>, p2: seq<TargetingPredicate>, ctx: RequestContext, data: CustomerData)
    requires multiset(p1) == multiset(p2)
    requires forall i | 0 <= i < |p1| :: Evaluate(p1[i], ctx, data).Ok?
    ensures AllTrue(p1, ctx, data) == AllTrue(p2, ctx, data)
  {
    forall j | 0 <= j < |p2| ensures Evaluate(p2[j], ctx, data).Ok? {
      assert p2[j] in multiset(p1);
    }
    TrueIffEveryPredicateTrue(p1, ctx, data);
    TrueIffEveryPredicateTrue(p2, ctx, data);
    FalseIffSomePredicateNotTrue(p1, ctx, data);
    FalseIffSomePredicateNotTrue(p2, ctx, data);
    if AllTrue(p1, ctx, data) == Ok(TRUE) {
      forall j | 0 <= j < |p2| ensures Evaluate(p2[j], ctx, data) == Ok(TRUE) {
        assert p2[j] in multiset(p1);
      }
    } else if AllTrue(p2, ctx, data) == Ok(TRUE) {
      forall i | 0 <= i < |p1| ensures Evaluate(p1[i], ctx, data) == Ok(TRUE) {
        assert p1[i] in multiset(p2);
      }
    }
  }

  /** A group without predicates is TRUE. */
  lemma EmptyGroupIsTrue(group: TargetingGroup, ctx: RequestContext, data: CustomerData)
    requires group.targetingPredicates == []
    ensures EvaluateGroup(group, ctx, data) == Ok(TRUE)
  {
  }
}
