/**
 * GetCustomerSpendCategoriesActivity: a mock spend service that picks one of
 * seven fixed category-to-spend maps from the character codes of the customer
 * and marketplace ids.
 */
module CustomerSpendLambda {
  import opened Java
  import opened CustomerService

  const COMPUTERS: map<string, Spend> := map["COMPUTERS" := Spend(1, 1000)]
  const SMALL_SPEND_COMPUTERS: map<string, Spend> := map["COMPUTERS" := Spend(5, 25)]
  const PRIME_VIDEO_SPEND: map<string, Spend> := map["AMAZON_MUSIC" := Spend(48, 132), "PRIME_VIDEO" := Spend(28, 97)]
  const TECHNICAL_BOOKS_COMPUTERS: map<string, Spend> := map[
    "TECHNICAL_BOOKS" := Spend(3, 60), "COMPUTERS" := Spend(1, 200),
    "ELECTRONICS" := Spend(13, 92), "FRESH" := Spend(1, 73)]
  const VIDEO_GAMES: map<string, Spend> := map["VIDEO_GAMES" := Spend(5, 100)]
  /** The empty spend map. */
  const EMPTY: map<string, Spend> := map[]

  /** The SPEND table, keyed 0 to 6. */
  const SPEND: map<int, map<string, Spend>> := map[
    0 := COMPUTERS, 1 := SMALL_SPEND_COMPUTERS, 2 := PRIME_VIDEO_SPEND, 3 := EMPTY,
    4 := EMPTY, 5 := TECHNICAL_BOOKS_COMPUTERS, 6 := VIDEO_GAMES]

  /** `Map.get`: null for a missing key. */
  function Lookup(id: int): (r: Option<map<string, Spend>>)
    ensures r.Some? <==> 0 <= id <= 6
  {
    if id in SPEND then Some(SPEND[id]) else None
  }

  /** The spend id as written: the two wrapping `chars().sum()` added in `int` and taken `% 7`. */
  function SpendIdAsWritten(customerId: string, marketplaceId: string): (r: int)
    ensures -6 <= r <= 6
  {
    Rem(Wrap32(CharSum(customerId) + CharSum(marketplaceId)), 7)
  }

  /** handleRequest as written: a null customer id, then a null marketplace id, is rejected. */
  function HandleRequestAsWritten(customerId: Option<string>, marketplaceId: Option<string>): (r: Result<Option<map<string, Spend>>>)
    ensures r.Err? <==> customerId.None? || marketplaceId.None?
    ensures r.Err? ==> r.error == InvalidParameter
  {
    if customerId.None? then Err(InvalidParameter)
    else if marketplaceId.None? then Err(InvalidParameter)
    else Ok(Lookup(SpendIdAsWritten(customerId.value, marketplaceId.value)))
  }

  /** A customer id of 32769 copies of U+FFFF and an empty marketplace id wrap to spend id -2: no spend map. */
  lemma OverflowingIdHasNoSpend()
    ensures SpendIdAsWritten(OverflowingString(), "") == -2
    ensures HandleRequestAsWritten(Some(OverflowingString()), Some("")) == Ok(None)
  {
    OverflowingStringSum();
    var s := OverflowingString();
    assert CharSum("") == 0;
    assert Wrap32(CharSum(s) + CharSum("")) == -2147450881;
    assert Rem(-2147450881, 7) == -2 by {
      assert 2147450881 % 7 == 2;
    }
    assert SpendIdAsWritten(s, "") == -2;
  }

  /** The spend id as intended: all character codes added without overflow, modulo 7. */
  function SpendId(customerId: string, marketplaceId: string): (r: int)
    ensures 0 <= r <= 6
  {
    (WeightSum(customerId) + WeightSum(marketplaceId)) % 7
  }

  /** handleRequest with the intended id: a request with both ids finds a map of the table. */
  function HandleRequest(customerId: Option<string>, marketplaceId: Option<string>): (r: Result<map<string, Spend>>)
    ensures r.Err? <==> customerId.None? || marketplaceId.None?
    ensures r.Err? ==> r.error == InvalidParameter
    ensures r.Ok? ==> r.value in SPEND.Values
  {
    if customerId.None? then Err(InvalidParameter)
    else if marketplaceId.None? then Err(InvalidParameter)
    else
      var spendId := SpendId(customerId.value, marketplaceId.value);
      assert spendId in SPEND;
      Ok(SPEND[spendId])
  }

  /** As long as the codes add up inside `int`, the code as written and the intended one agree. */
  lemma AsWrittenAgreesWithoutOverflow(customerId: string, marketplaceId: string)
    requires WeightSum(customerId) + WeightSum(marketplaceId) <= INT_MAX
    ensures HandleRequestAsWritten(Some(customerId), Some(marketplaceId)) == Ok(Some(HandleRequest(Some(customerId), Some(marketplaceId)).value))
  {
    var a, b := WeightSum(customerId), WeightSum(marketplaceId);
    WeightSumNonNegative(customerId);
    WeightSumNonNegative(marketplaceId);
    CharSumIsWrappedWeightSum(customerId);
    CharSumIsWrappedWeightSum(marketplaceId);
    assert CharSum(customerId) == a && CharSum(marketplaceId) == b;
    assert SpendIdAsWritten(customerId, marketplaceId) == Rem(a + b, 7) == SpendId(customerId, marketplaceId);
  }

  /** Swapping the customer and marketplace ids gives the same response, as written and as intended. */
  lemma SwappingIdsChangesNothing(customerId: string, marketplaceId: string)
    ensures HandleRequestAsWritten(Some(customerId), Some(marketplaceId)) == HandleRequestAsWritten(Some(marketplaceId), Some(customerId))
    ensures HandleRequest(Some(customerId), Some(marketplaceId)) == HandleRequest(Some(marketplaceId), Some(customerId))
  {
  }

  /** Reordering the characters within either id gives the same response, as written and as intended. */
  lemma ReorderingCharactersChangesNothing(c1: string, c2: string, m1: string, m2: string)
    requires multiset(c1) == multiset(c2) && multiset(m1) == multiset(m2)
    ensures HandleRequestAsWritten(Some(c1), Some(m1)) == HandleRequestAsWritten(Some(c2), Some(m2))
    ensures HandleRequest(Some(c1), Some(m1)) == HandleRequest(Some(c2), Some(m2))
  {
    WeightSumPermutation(c1, c2);
    WeightSumPermutation(m1, m2);
    CharSumIsWrappedWeightSum(c1);
    CharSumIsWrappedWeightSum(c2);
    CharSumIsWrappedWeightSum(m1);
    CharSumIsWrappedWeightSum(m2);
    assert CharSum(c1) == CharSum(c2) && CharSum(m1) == CharSum(m2);
    assert SpendIdAsWritten(c1, m1) == SpendIdAsWritten(c2, m2);
    assert SpendId(c1, m1) == SpendId(c2, m2);
  }

  /** Spend ids 3 and 4 carry the empty map; every other id a non-empty one. */
  lemma EmptySpendIds(spendId: int)
    requires 0 <= spendId <= 6
    ensures Lookup(spendId) == Some(EMPTY) <==> spendId == 3 || spendId == 4
  {
    assert "COMPUTERS" in COMPUTERS && "COMPUTERS" in SMALL_SPEND_COMPUTERS && "PRIME_VIDEO" in PRIME_VIDEO_SPEND;
    assert "FRESH" in TECHNICAL_BOOKS_COMPUTERS && "VIDEO_GAMES" in VIDEO_GAMES;
  }
}
