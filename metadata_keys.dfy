/**
 * The `MetadataKeys` enumeration of Storage/PageMetadata.swift: the names of
 * the entries of a page-metadata dictionary, each case backed by a `String`
 * raw value.
 */
module MetadataKeys {
  import opened Optional

  datatype MetadataKey =
    | ImageURL
    | ImageDataURI
    | PageURL
    | Title
    | Description
    | Type
    | Provider
    | Favicon
    | Keywords

  /** The raw value of a case: the dictionary key it stands for. */
  function RawValue(k: MetadataKey): (r: string)
    ensures r != []
  {
    match k
    case ImageURL => "image"
    case ImageDataURI => "image_data_uri"
    case PageURL => "url"
    case Title => "title"
    case Description => "description"
    case Type => "type"
    case Provider => "provider"
    case Favicon => "icon"
    case Keywords => "keywords"
  }

  /**
   * The failable `init?(rawValue:)` that Swift gives every enumeration with
   * raw values: the case whose raw value is `s`, or `nil` when there is none.
   */
  function FromRawValue(s: string): (r: Option<MetadataKey>)
    ensures r.Some? ==> RawValue(r.value) == s
  {
    if s == "image" then Some(ImageURL)
    else if s == "image_data_uri" then Some(ImageDataURI)
    else if s == "url" then Some(PageURL)
    else if s == "title" then Some(Title)
    else if s == "description" then Some(Description)
    else if s == "type" then Some(Type)
    else if s == "provider" then Some(Provider)
    else if s == "icon" then Some(Favicon)
    else if s == "keywords" then Some(Keywords)
    else None
  }

  /** Every case is recovered from its raw value, so no two cases share a key. */
  lemma FromRawValueRoundTrip(k: MetadataKey)
    ensures FromRawValue(RawValue(k)) == Some(k)
  {
  }

  /** Distinct cases name distinct dictionary entries. */
  lemma RawValueInjective(k1: MetadataKey, k2: MetadataKey)
    requires k1 != k2
    ensures RawValue(k1) != RawValue(k2)
  {
    // Follows by unfolding RawValue on both cases.
  }
}
