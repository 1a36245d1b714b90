/**
 * AdvertisementContent: the content record of an advertisement, a mutable
 * object with setters, a fluent builder, and equality and hash code that look
 * at the content id alone.
 */
module Contents {
  import opened Java

  /** The three fields of a content, as a value. */
  datatype ContentFields = ContentFields(
    contentId: Option<string>,
    renderableContent: Option<string>,
    marketplaceId: Option<string>)

  class AdvertisementContent {
    var contentId: Option<string>
    var renderableContent: Option<string>
    var marketplaceId: Option<string>

    /** The protected all-fields constructor. */
    constructor (contentId: Option<string>, renderableContent: Option<string>, marketplaceId: Option<string>)
      ensures Fields() == ContentFields(contentId, renderableContent, marketplaceId)
    {
      this.contentId := contentId;
      this.renderableContent := renderableContent;
      this.marketplaceId := marketplaceId;
    }

    /** The empty constructor: every field null. */
    constructor Empty()
      ensures Fields() == ContentFields(None, None, None)
    {
      contentId := None;
      renderableContent := None;
      marketplaceId := None;
    }

    function Fields(): ContentFields
      reads this
    {
      ContentFields(contentId, renderableContent, marketplaceId)
    }

    method SetRenderableContent(renderableContent: Option<string>)
      modifies this
      ensures Fields() == old(Fields()).(renderableContent := renderableContent)
    {
      this.renderableContent := renderableContent;
    }

    method SetContentId(contentId: Option<string>)
      modifies this
      ensures Fields() == old(Fields()).(contentId := contentId)
    {
      this.contentId := contentId;
    }

    method SetMarketplaceId(marketplaceId: Option<string>)
      modifies this
      ensures Fields() == old(Fields()).(marketplaceId := marketplaceId)
    {
      this.marketplaceId := marketplaceId;
    }

    /** hashCode: `Objects.hash(contentId)`. */
    function HashCode(): Int32
      reads this
    {
      ObjectsHash([contentId])
    }

    /**
     * equals: false for null or a non-content; true for this very object; otherwise
     * `this.contentId.equals(other.contentId)`, which throws NullPointerException
     * when this content id is null.
     */
    function Equals(other: object?): (r: Result<bool>)
      reads this, other
      ensures other == null || !(other is AdvertisementContent) ==> r == Ok(false)
      ensures other == this ==> r == Ok(true)
      ensures r == Ok(true) ==> other is AdvertisementContent
      ensures r.Err? ==> other != this && contentId.None?
      ensures other != this && other is AdvertisementContent && contentId.Some? ==>
        r == Ok(contentId == (other as AdvertisementContent).contentId)
    {
      if other == null || !(other is AdvertisementContent) then Ok(false)
      else if other == this then Ok(true)
      else
        var that := other as AdvertisementContent;
        if contentId.None? then Err(NullPointer) else Ok(Some(contentId.value) == that.contentId)
    }
  }

  /** Equal contents hash alike: equality looks at the content id alone, and so does the hash. */
  lemma EqualContentsHashAlike(a: AdvertisementContent, b: AdvertisementContent)
    requires a.Equals(b) == Ok(true)
    ensures a.HashCode() == b.HashCode()
  {
  }

  /** Two distinct contents with the same non-null id are equal both ways, whatever their other fields. */
  lemma SameIdMeansEqual(a: AdvertisementContent, b: AdvertisementContent)
    requires a != b && a.contentId.Some? && a.contentId == b.contentId
    ensures a.Equals(b) == Ok(true) && b.Equals(a) == Ok(true)
  {
  }

  /** Two distinct contents whose ids differ, the first non-null, are unequal: equality is decided by the id alone. */
  lemma DifferentIdsAreUnequal(a: AdvertisementContent, b: AdvertisementContent)
    requires a != b && a.contentId.Some? && a.contentId != b.contentId
    ensures a.Equals(b) == Ok(false)
  {
  }

  /** Between distinct contents, a true answer means the ids are equal and non-null. */
  lemma EqualMeansSameId(a: AdvertisementContent, b: AdvertisementContent)
    requires a != b && a.Equals(b) == Ok(true)
    ensures a.contentId.Some? && a.contentId == b.contentId
  {
  }

  /**
   * With a null id on one side only, equality is not symmetric: the content with
   * the null id throws, the other answers false.
   */
  lemma NullIdIsAsymmetric(a: AdvertisementContent, b: AdvertisementContent)
    requires a != b && a.contentId.None? && b.contentId.Some?
    ensures a.Equals(b) == Err(NullPointer)
    ensures b.Equals(a) == Ok(false)
  {
  }

  /** The fluent builder: each `with` sets one field and returns the same builder. */
  class Builder {
    var contentId: Option<string>
    var renderableContent: Option<string>
    var marketplaceId: Option<string>

    /** `AdvertisementContent.builder()`: a builder with every field null. */
    constructor ()
      ensures Fields() == ContentFields(None, None, None)
    {
      contentId := None;
      renderableContent := None;
      marketplaceId := None;
    }

    function Fields(): ContentFields
      reads this
    {
      ContentFields(contentId, renderableContent, marketplaceId)
    }

    method WithContentId(id: Option<string>) returns (b: Builder)
      modifies this
      ensures b == this && Fields() == old(Fields()).(contentId := id)
    {
      contentId := id;
      b := this;
    }

    method WithRenderableContent(content: Option<string>) returns (b: Builder)
      modifies this
      ensures b == this && Fields() == old(Fields()).(renderableContent := content)
    {
      renderableContent := content;
      b := this;
    }

    method WithMarketplaceId(marketplaceIdToUse: Option<string>) returns (b: Builder)
      modifies this
      ensures b == this && Fields() == old(Fields()).(marketplaceId := marketplaceIdToUse)
    {
      marketplaceId := marketplaceIdToUse;
      b := this;
    }

    /** build: a new content holding the builder's fields; the builder is left as it was. */
    method Build() returns (content: AdvertisementContent)
      ensures fresh(content) && content.Fields() == Fields()
    {
      content := new AdvertisementContent(contentId, renderableContent, marketplaceId);
    }
  }
}
