/**
 * RequestContext: the customer and marketplace an advertisement is requested
 * for, and whether the customer counts as recognized.
 */
module RequestContexts {
  import opened Java

  datatype RequestContext = RequestContext(customerId: Option<string>, marketplaceId: Option<string>, recognizedCustomer: bool)

  /**
   * The constructor: a blank customer id (null, empty or whitespace only) makes an
   * unrecognized customer and is stored as null; any other id is stored as given.
   */
  function NewRequestContext(customerId: Option<string>, marketplaceId: Option<string>): (ctx: RequestContext)
    ensures ctx.recognizedCustomer <==> customerId.Some? && exists k | 0 <= k < |customerId.value| :: !IsWhitespace(customerId.value[k])
    ensures ctx.recognizedCustomer <==> ctx.customerId.Some?
    ensures ctx.recognizedCustomer ==> ctx.customerId == customerId
    ensures ctx.marketplaceId == marketplaceId
  {
    if IsBlank(customerId) then RequestContext(None, marketplaceId, false)
    else RequestContext(customerId, marketplaceId, true)
  }

  /** equals: same customer id and same marketplace id; the recognized flag is not compared. */
  predicate Equals(a: RequestContext, b: RequestContext)
  {
    a.customerId == b.customerId && a.marketplaceId == b.marketplaceId
  }

  /** hashCode: `Objects.hash(customerId, marketplaceId)`. */
  function HashCode(ctx: RequestContext): Int32
  {
    ObjectsHash([ctx.customerId, ctx.marketplaceId])
  }

  /** Two blank customer ids give equal contexts for the same marketplace. */
  lemma BlankCustomersAreEqual(id1: Option<string>, id2: Option<string>, marketplaceId: Option<string>)
    requires IsBlank(id1) && IsBlank(id2)
    ensures Equals(NewRequestContext(id1, marketplaceId), NewRequestContext(id2, marketplaceId))
  {
  }

  /** Equal contexts have equal hash codes. */
  lemma EqualContextsHashAlike(a: RequestContext, b: RequestContext)
    requires Equals(a, b)
    ensures HashCode(a) == HashCode(b)
  {
  }

  /** Every context the constructor builds satisfies `recognized <==> customerId != null`, so equal ones agree on recognition. */
  lemma EqualConstructedContextsAgree(id1: Option<string>, id2: Option<string>, m1: Option<string>, m2: Option<string>)
    requires Equals(NewRequestContext(id1, m1), NewRequestContext(id2, m2))
    ensures NewRequestContext(id1, m1) == NewRequestContext(id2, m2)
  {
  }
}
