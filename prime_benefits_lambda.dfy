/**
 * GetPrimeBenefitsActivity: a mock Prime service that picks one of ten fixed
 * benefit lists from the customer id's character codes; an empty list means
 * the customer is not a Prime member.
 */
module PrimeBenefitsLambda {
  import opened Java

  /** A Prime benefit, by its benefit type; its metadata is not part of this model. */
  datatype PrimeBenefit = PrimeBenefit(benefitType: string)

  const FREE_SHIPPING := PrimeBenefit("FREE_EXPEDITED_SHIPPING")
  const MOM := PrimeBenefit("MOM_DISCOUNT")
  const DIM_SUM := PrimeBenefit("DIM_SUM")
  const KIDS := PrimeBenefit("AMZN4KIDS")

  /** The BENEFITS table, keyed 0 to 9. */
  const BENEFITS: map<int, seq<PrimeBenefit>> := map[
    0 := [], 1 := [], 2 := [],
    3 := [FREE_SHIPPING], 4 := [FREE_SHIPPING], 5 := [FREE_SHIPPING],
    6 := [FREE_SHIPPING, MOM], 7 := [FREE_SHIPPING, DIM_SUM],
    8 := [FREE_SHIPPING, MOM, DIM_SUM, KIDS], 9 := [MOM, KIDS]]

  /** `Map.get`: null for a missing key. */
  function Lookup(id: int): (r: Option<seq<PrimeBenefit>>)
    ensures r.Some? <==> 0 <= id <= 9
  {
    if id in BENEFITS then Some(BENEFITS[id]) else None
  }

  /** The benefits id as written: the wrapping `chars().sum()` of the customer id, `% 10`. */
  function BenefitsIdAsWritten(customerId: string): (r: int)
    ensures -9 <= r <= 9
  {
    Rem(CharSum(customerId), 10)
  }

  /** handleRequest as written: a null customer id, then a null marketplace id, is rejected; the marketplace id is not otherwise read. */
  function HandleRequestAsWritten(customerId: Option<string>, marketplaceId: Option<string>): (r: Result<Option<seq<PrimeBenefit>>>)
    ensures r.Err? <==> customerId.None? || marketplaceId.None?
    ensures r.Err? ==> r.error == InvalidParameter
  {
    if customerId.None? then Err(InvalidParameter)
    else if marketplaceId.None? then Err(InvalidParameter)
    else Ok(Lookup(BenefitsIdAsWritten(customerId.value)))
  }

  /** The customer id of 32769 copies of U+FFFF wraps to benefits id -1, and the response carries a null list. */
  lemma OverflowingIdHasNullBenefits()
    ensures BenefitsIdAsWritten(OverflowingString()) == -1
    ensures HandleRequestAsWritten(Some(OverflowingString()), Some("")) == Ok(None)
  {
    OverflowingStringSum();
    assert Rem(-2147450881, 10) == -1 by {
      assert 2147450881 % 10 == 1;
    }
    assert BenefitsIdAsWritten(OverflowingString()) == -1;
  }

  /** The benefits id as intended: the character codes added without overflow, modulo 10. */
  function BenefitsId(customerId: string): (r: int)
    ensures 0 <= r <= 9
  {
    WeightSum(customerId) % 10
  }

  /** handleRequest with the intended id: a request with both ids always gets a list of the table. */
  function HandleRequest(customerId: Option<string>, marketplaceId: Option<string>): (r: Result<seq<PrimeBenefit>>)
    ensures r.Err? <==> customerId.None? || marketplaceId.None?
    ensures r.Err? ==> r.error == InvalidParameter
    ensures r.Ok? ==> r.value in BENEFITS.Values
  {
    if customerId.None? then Err(InvalidParameter)
    else if marketplaceId.None? then Err(InvalidParameter)
    else
      var benefitsId := BenefitsId(customerId.value);
      assert benefitsId in BENEFITS;
      Ok(BENEFITS[benefitsId])
  }

  /** As long as the codes add up inside `int`, the code as written and the intended one agree. */
  lemma AsWrittenAgreesWithoutOverflow(customerId: string, marketplaceId: string)
    requires WeightSum(customerId) <= INT_MAX
    ensures HandleRequestAsWritten(Some(customerId), Some(marketplaceId)) == Ok(Some(HandleRequest(Some(customerId), Some(marketplaceId)).value))
  {
    WeightSumNonNegative(customerId);
    CharSumIsWrappedWeightSum(customerId);
    assert CharSum(customerId) == WeightSum(customerId);
  }

  /** The marketplace id only has to be present: any two give the same response. */
  lemma MarketplaceIdIsOnlyChecked(customerId: Option<string>, m1: string, m2: string)
    ensures HandleRequestAsWritten(customerId, Some(m1)) == HandleRequestAsWritten(customerId, Some(m2))
    ensures HandleRequest(customerId, Some(m1)) == HandleRequest(customerId, Some(m2))
  {
  }

  /** Reordering the characters of the customer id gives the same response, as written and as intended. */
  lemma ReorderingCharactersChangesNothing(c1: string, c2: string, marketplaceId: Option<string>)
    requires multiset(c1) == multiset(c2)
    ensures HandleRequestAsWritten(Some(c1), marketplaceId) == HandleRequestAsWritten(Some(c2), marketplaceId)
    ensures HandleRequest(Some(c1), marketplaceId) == HandleRequest(Some(c2), marketplaceId)
  {
    WeightSumPermutation(c1, c2);
    CharSumIsWrappedWeightSum(c1);
    CharSumIsWrappedWeightSum(c2);
  }

  /**
   * Ids 0 to 2 give the empty list of a non-member; ids 3 to 8 all include free
   * shipping; id 9 is the mom discount and the kids benefit only.
   */
  lemma BenefitTiers(benefitsId: int)
    requires 0 <= benefitsId <= 9
    ensures Lookup(benefitsId) == Some([]) <==> benefitsId <= 2
    ensures 3 <= benefitsId <= 8 <==> FREE_SHIPPING in Lookup(benefitsId).value
    ensures benefitsId == 9 <==> Lookup(benefitsId) == Some([MOM, KIDS])
  {
  }
}
