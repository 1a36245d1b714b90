/**
 * GetCustomerProfileActivity: a mock customer-profile service that picks one
 * of ten fixed profiles from the customer id's character codes.
 */
module CustomerProfileLambda {
  import opened Java
  import opened CustomerService

  const UNDER_18 := CustomerProfile(Some("WA"), Some("UNDER_18"), Some(false))
  const PARENT := CustomerProfile(Some("WA"), Some("AGE_36_TO_45"), Some(true))
  const OVER_60 := CustomerProfile(Some("WA"), Some("OVER_60"), Some(true))
  const UNDER_46 := CustomerProfile(Some("GA"), Some("AGE_26_TO_30"), Some(false))
  const THIRTY_ONE := CustomerProfile(Some("AK"), Some("AGE_31_TO_35"), Some(false))
  /** A profile built with no field set. */
  const EMPTY := CustomerProfile(None, None, None)

  /** The PROFILES table, keyed 0 to 9. */
  const PROFILES: map<int, CustomerProfile> := map[
    0 := UNDER_18, 1 := PARENT, 2 := EMPTY, 3 := OVER_60, 4 := UNDER_46,
    5 := THIRTY_ONE, 6 := EMPTY, 7 := EMPTY, 8 := EMPTY, 9 := EMPTY]

  /** `Map.get`: null for a missing key. */
  function Lookup(id: int): (r: Option<CustomerProfile>)
    ensures r.Some? <==> 0 <= id <= 9
  {
    if id in PROFILES then Some(PROFILES[id]) else None
  }

  /**
   * The profile id as written: `(chars().sum() + charAt(0)) % 10` in `int`
   * arithmetic, where both the sum and the addition wrap and `%` keeps the sign
   * of a negative dividend; `charAt(0)` throws on an empty id.
   */
  function ProfileIdAsWritten(customerId: string): (r: Result<int>)
    ensures r.Ok? <==> customerId != []
    ensures r.Ok? ==> -9 <= r.value <= 9
  {
    match FirstChar(customerId)
    case Err(e) => Err(e)
    case Ok(first) => Ok(Rem(Wrap32(CharSum(customerId) + first), 10))
  }

  /** handleRequest as written: a null id is rejected, then the table entry under the id is returned. */
  function HandleRequestAsWritten(customerId: Option<string>): (r: Result<Option<CustomerProfile>>)
    ensures customerId.None? ==> r == Err(InvalidParameter)
    ensures customerId == Some([]) ==> r == Err(StringIndexOutOfBounds)
  {
    match customerId
    case None => Err(InvalidParameter)
    case Some(id) =>
      match ProfileIdAsWritten(id)
      case Err(e) => Err(e)
      case Ok(profileId) => Ok(Lookup(profileId))
  }

  /** The long id of 32769 copies of U+FFFF wraps to profile id -6, and the response carries no profile. */
  lemma OverflowingIdHasNoProfile()
    ensures ProfileIdAsWritten(OverflowingString()) == Ok(-6)
    ensures HandleRequestAsWritten(Some(OverflowingString())) == Ok(None)
  {
    OverflowingStringSum();
    var s := OverflowingString();
    assert Wrap32(CharSum(s) + 0xFFFF) == -2147385346;
    assert Rem(-2147385346, 10) == -6 by {
      assert 2147385346 % 10 == 6;
    }
    assert ProfileIdAsWritten(s) == Ok(-6);
  }

  /** The profile id as intended: the character codes added without overflow, taken modulo 10. */
  function ProfileId(customerId: string): (r: Result<int>)
    ensures r.Ok? <==> customerId != []
    ensures r.Ok? ==> 0 <= r.value <= 9
  {
    match FirstChar(customerId)
    case Err(e) => Err(e)
    case Ok(first) => Ok((WeightSum(customerId) + first) % 10)
  }

  /** handleRequest with the intended id: every non-empty id finds a profile of the table. */
  function HandleRequest(customerId: Option<string>): (r: Result<CustomerProfile>)
    ensures customerId.None? ==> r == Err(InvalidParameter)
    ensures customerId == Some([]) ==> r == Err(StringIndexOutOfBounds)
    ensures r.Ok? <==> customerId.Some? && customerId.value != []
    ensures r.Ok? ==> r.value in PROFILES.Values
  {
    match customerId
    case None => Err(InvalidParameter)
    case Some(id) =>
      match ProfileId(id)
      case Err(e) => Err(e)
      case Ok(profileId) => assert profileId in PROFILES; Ok(PROFILES[profileId])
  }

  /** As long as the codes add up inside `int`, the code as written and the intended one agree. */
  lemma AsWrittenAgreesWithoutOverflow(customerId: Option<string>)
    requires customerId.Some? && customerId.value != [] ==> WeightSum(customerId.value) + Chars(customerId.value)[0] <= INT_MAX
    ensures HandleRequestAsWritten(customerId).Ok? <==> HandleRequest(customerId).Ok?
    ensures HandleRequest(customerId).Ok? ==> HandleRequestAsWritten(customerId) == Ok(Some(HandleRequest(customerId).value))
    ensures HandleRequest(customerId).Err? ==> HandleRequestAsWritten(customerId).error == HandleRequest(customerId).error
  {
    if customerId.Some? && customerId.value != [] {
      var id := customerId.value;
      CharSumIsWrappedWeightSum(id);
      SumOfChars(id);
      SumNonNegative(Chars(id));
    }
  }

  /** Ids 2, 6, 7, 8 and 9 carry the empty profile; the other five carry five different profiles. */
  lemma EmptyProfileIds(profileId: int)
    requires 0 <= profileId <= 9
    ensures Lookup(profileId) == Some(EMPTY) <==> profileId in {2, 6, 7, 8, 9}
  {
  }

  /** The worked examples: "de" has profile id 1, the parent, and "db" has profile id 8, the empty profile. */
  lemma WorkedExamples()
    ensures HandleRequest(Some("de")) == Ok(PARENT)
    ensures HandleRequest(Some("db")) == Ok(EMPTY)
  {
    assert WeightSum("de") == 201 by {
      assert "de"[1..] == "e";
      assert "e"[1..] == [];
      assert Weight('d') == 100 by { assert CodeUnits('d') == [100]; assert [100][..0] == []; }
      assert Weight('e') == 101 by { assert CodeUnits('e') == [101]; assert [101][..0] == []; }
    }
    assert WeightSum("db") == 198 by {
      assert "db"[1..] == "b";
      assert "b"[1..] == [];
      assert Weight('d') == 100 by { assert CodeUnits('d') == [100]; assert [100][..0] == []; }
      assert Weight('b') == 98 by { assert CodeUnits('b') == [98]; assert [98][..0] == []; }
    }
  }
}
