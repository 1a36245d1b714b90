/**
 * AdvertisementContentTranslator: between the internal content and the wire
 * AdvertisingContent, which carries the marketplace id given by the caller.
 */
module ContentTranslation {
  import opened Java
  import opened Contents

  /** The wire-format AdvertisingContent. */
  datatype AdvertisingContent = AdvertisingContent(
    id: Option<string>,
    marketplaceId: Option<string>,
    content: Option<string>)

  /** toCoral: the id and the renderable content, with the marketplace id supplied by the caller. */
  function ToCoral(content: AdvertisementContent, marketplaceId: Option<string>): (r: AdvertisingContent)
    reads content
    ensures r.id == content.contentId && r.content == content.renderableContent
    ensures r.marketplaceId == marketplaceId
  {
    CoralOf(content.Fields(), marketplaceId)
  }

  /** The wire shape of a content's fields; its own marketplace id is not written. */
  function CoralOf(fields: ContentFields, marketplaceId: Option<string>): AdvertisingContent
  {
    AdvertisingContent(fields.contentId, marketplaceId, fields.renderableContent)
  }

  /** The fields fromCoral builds: the wire marketplace id is not read back. */
  function FieldsOf(coral: AdvertisingContent): ContentFields
  {
    ContentFields(coral.id, coral.content, None)
  }

  /** fromCoral: a content built from the wire id and content, its marketplace id left null. */
  method FromCoral(coral: AdvertisingContent) returns (content: AdvertisementContent)
    ensures fresh(content) && content.Fields() == FieldsOf(coral)
    ensures ToCoral(content, coral.marketplaceId) == coral
  {
    var builder := new Builder();
    builder := builder.WithContentId(coral.id);
    builder := builder.WithRenderableContent(coral.content);
    content := builder.Build();
    WireRoundTrip(coral);
  }

  /** Writing back what was read, with the same marketplace id, gives the wire shape back. */
  lemma WireRoundTrip(coral: AdvertisingContent)
    ensures CoralOf(FieldsOf(coral), coral.marketplaceId) == coral
  {
  }

  /** Reading back what was written keeps the id and the content and loses the marketplace id. */
  lemma ContentRoundTrip(fields: ContentFields, marketplaceId: Option<string>)
    ensures FieldsOf(CoralOf(fields, marketplaceId)) == fields.(marketplaceId := None)
    ensures FieldsOf(CoralOf(fields, marketplaceId)) == fields <==> fields.marketplaceId.None?
  {
  }
}
