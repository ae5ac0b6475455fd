/**
 * The value-level part of `PageMetadata` in Storage/PageMetadata.swift: an
 * immutable record of what was extracted from a web page, the `keywords`
 * view of its comma-separated keyword string, and `fromDictionary`, which
 * builds a record from a loosely typed dictionary.
 */
module Metadata {
  import opened Optional
  import opened MetadataKeys
  import opened Tokenizer

  /**
   * A dictionary value of Swift type `Any`: either a string or anything
   * else (a number, an array, ...), which `as? String` turns into `nil`.
   */
  datatype Value = Str(s: string) | Other

  type Dictionary = map<string, Value>

  /** `dict[key] as? String`: the string under `key`, or `nil` when it is absent or not a string. */
  function StringAt(d: Dictionary, key: string): (r: Option<string>)
    ensures r.Some? <==> key in d && d[key].Str?
    ensures r.Some? ==> d[key] == Str(r.value)
  {
    if key in d && d[key].Str? then Some(d[key].s) else None
  }

  /** The record. The Swift field `type` is `pageType` here (`type` is a Dafny keyword). */
  datatype PageMetadata = PageMetadata(
    id: Option<int>,
    siteURL: string,
    mediaURL: Option<string>,
    title: Option<string>,
    description: Option<string>,
    pageType: Option<string>,
    providerName: Option<string>,
    faviconURL: Option<string>,
    keywordsString: Option<string>)
  {
    /**
     * The computed `keywords` property: the set of non-empty pieces of
     * `keywordsString` between commas, or the empty set when there is no
     * keyword string.
     */
    function Keywords(): (r: set<string>)
      ensures keywordsString.None? ==> r == {}
      ensures forall p :: p in r ==> p != [] && CommaFree(p)
    {
      match keywordsString
      case None => {}
      case Some(s) => set p | p in Split(s)
    }

    /**
     * The initializer. It stores each argument in the like-named field;
     * `mediaDataURI` and `cacheImages` only steer the image-caching side
     * effect, which is not part of this model, and are not stored.
     */
    static function Init(
      id: Option<int>,
      siteURL: string,
      mediaURL: Option<string>,
      title: Option<string>,
      description: Option<string>,
      pageType: Option<string>,
      providerName: Option<string>,
      mediaDataURI: Option<string>,
      faviconURL: Option<string> := None,
      keywords: Option<string> := None,
      cacheImages: bool := true): (m: PageMetadata)
      ensures m.id == id && m.siteURL == siteURL && m.mediaURL == mediaURL
      ensures m.title == title && m.description == description && m.pageType == pageType
      ensures m.providerName == providerName && m.faviconURL == faviconURL
      ensures m.keywordsString == keywords
    {
      PageMetadata(id, siteURL, mediaURL, title, description, pageType, providerName, faviconURL, keywords)
    }

    /**
     * `fromDictionary`: `nil` unless the `"url"` entry is a string; otherwise
     * a record without an `id` whose every other field is the string under
     * its key, or `nil` when that entry is absent or not a string.
     */
    static function FromDictionary(d: Dictionary): (r: Option<PageMetadata>)
      ensures r.None? <==> "url" !in d || !d["url"].Str?
      ensures r.Some? ==> r.value.id == None && d["url"] == Str(r.value.siteURL)
      ensures r.Some? ==> r.value.mediaURL == StringAt(d, "image")
      ensures r.Some? ==> r.value.title == StringAt(d, "title")
      ensures r.Some? ==> r.value.description == StringAt(d, "description")
      ensures r.Some? ==> r.value.pageType == StringAt(d, "type")
      ensures r.Some? ==> r.value.providerName == StringAt(d, "provider")
      ensures r.Some? ==> r.value.faviconURL == StringAt(d, "icon")
      ensures r.Some? ==> r.value.keywordsString == StringAt(d, "keywords")
    {
      match StringAt(d, RawValue(PageURL))
      case None => None
      case Some(siteURL) =>
        Some(Init(
          id := None,
          siteURL := siteURL,
          mediaURL := StringAt(d, RawValue(ImageURL)),
          title := StringAt(d, RawValue(Title)),
          description := StringAt(d, RawValue(Description)),
          pageType := StringAt(d, RawValue(Type)),
          providerName := StringAt(d, RawValue(Provider)),
          mediaDataURI := StringAt(d, RawValue(ImageDataURI)),
          faviconURL := StringAt(d, RawValue(Favicon)),
          keywords := StringAt(d, RawValue(MetadataKey.Keywords))))
    }
  }

  /** The keys whose entries end up in a record's fields. */
  const StoredKeys: set<string> :=
    {"url", "image", "title", "description", "type", "provider", "icon", "keywords"}

  /** The field of `m` that the entry under `key` is decoded into, or `nil` for other keys. */
  function StoredValue(m: PageMetadata, key: string): (r: Option<string>)
  {
    if key == "url" then Some(m.siteURL)
    else if key == "image" then m.mediaURL
    else if key == "title" then m.title
    else if key == "description" then m.description
    else if key == "type" then m.pageType
    else if key == "provider" then m.providerName
    else if key == "icon" then m.faviconURL
    else if key == "keywords" then m.keywordsString
    else None
  }

  /**
   * The dictionary a record is decoded from: the inverse of `FromDictionary`,
   * holding a string entry under the key of every field that is set.
   */
  function ToDictionary(m: PageMetadata): (r: Dictionary)
    ensures r.Keys <= StoredKeys
    ensures forall k :: k in r ==> r[k].Str?
    ensures forall k :: k in StoredKeys ==> StringAt(r, k) == StoredValue(m, k)
  {
    map k | k in StoredKeys && StoredValue(m, k).Some? :: Str(StoredValue(m, k).value)
  }

  /** The string entries of `d` under the keys a record stores. */
  function StoredEntries(d: Dictionary): (r: Dictionary)
  {
    map k | k in d && k in StoredKeys && d[k].Str? :: d[k]
  }

  /**
   * Two dictionaries that agree on the string entries under the stored keys
   * decode to the same result.
   */
  lemma FromDictionaryAgrees(d1: Dictionary, d2: Dictionary)
    requires forall key :: key in StoredKeys ==> StringAt(d1, key) == StringAt(d2, key)
    ensures PageMetadata.FromDictionary(d1) == PageMetadata.FromDictionary(d2)
  {
    // Both sides unfold to the same eight lookups.
  }

  /** Only the string entries under stored keys matter to `FromDictionary`. */
  lemma FromDictionaryStoredEntries(d: Dictionary)
    ensures PageMetadata.FromDictionary(d) == PageMetadata.FromDictionary(StoredEntries(d))
  {
    FromDictionaryAgrees(d, StoredEntries(d));
  }

  /** An entry under a key that no field is read from changes nothing. */
  lemma FromDictionaryIgnoresUnstoredKey(d: Dictionary, k: string, v: Value)
    requires k !in StoredKeys
    ensures PageMetadata.FromDictionary(d[k := v]) == PageMetadata.FromDictionary(d)
  {
    FromDictionaryAgrees(d[k := v], d);
  }

  /** The `"image_data_uri"` entry, whatever it holds, influences no field of the record. */
  lemma FromDictionaryIgnoresImageData(d: Dictionary, v: Value)
    ensures PageMetadata.FromDictionary(d["image_data_uri" := v]) == PageMetadata.FromDictionary(d)
    ensures PageMetadata.FromDictionary(d - {"image_data_uri"}) == PageMetadata.FromDictionary(d)
  {
    FromDictionaryIgnoresUnstoredKey(d, "image_data_uri", v);
    FromDictionaryAgrees(d - {"image_data_uri"}, d);
  }

  /** An entry that is not a string reads as an absent one. */
  lemma FromDictionaryNonStringIsAbsent(d: Dictionary, k: string)
    ensures PageMetadata.FromDictionary(d[k := Other]) == PageMetadata.FromDictionary(d - {k})
  {
    FromDictionaryAgrees(d[k := Other], d - {k});
  }

  /** Decoding the dictionary of a record without an `id` gives the record back. */
  lemma FromToDictionary(m: PageMetadata)
    requires m.id == None
    ensures PageMetadata.FromDictionary(ToDictionary(m)) == Some(m)
  {
    // Follows by unfolding FromDictionary and ToDictionary at each stored key.
  }

  /**
   * Encoding a decoded record gives back exactly the string entries of the
   * dictionary under the stored keys.
   */
  lemma ToFromDictionary(d: Dictionary)
    requires PageMetadata.FromDictionary(d).Some?
    ensures ToDictionary(PageMetadata.FromDictionary(d).value) == StoredEntries(d)
  {
    var m := PageMetadata.FromDictionary(d).value;
    var r := ToDictionary(m);
    var e := StoredEntries(d);
    forall k | k in StoredKeys
      ensures StringAt(r, k) == StringAt(e, k)
    {
      DecodedStoredValue(d, k);
    }
    assert r.Keys == e.Keys;
  }

  /** Each stored field of a decoded record holds the string entry under its key. */
  lemma DecodedStoredValue(d: Dictionary, k: string)
    requires PageMetadata.FromDictionary(d).Some? && k in StoredKeys
    ensures StoredValue(PageMetadata.FromDictionary(d).value, k) == StringAt(d, k)
  {
    // Follows by unfolding StoredValue at each of the stored keys.
  }

  /** `mediaDataURI` and `cacheImages` do not influence the record `init` builds. */
  lemma InitIgnoresCaching(
    id: Option<int>, siteURL: string, mediaURL: Option<string>, title: Option<string>,
    description: Option<string>, pageType: Option<string>, providerName: Option<string>,
    faviconURL: Option<string>, keywords: Option<string>,
    mediaDataURI1: Option<string>, mediaDataURI2: Option<string>, cacheImages1: bool, cacheImages2: bool)
    ensures PageMetadata.Init(id, siteURL, mediaURL, title, description, pageType, providerName,
                              mediaDataURI1, faviconURL, keywords, cacheImages1)
         == PageMetadata.Init(id, siteURL, mediaURL, title, description, pageType, providerName,
                              mediaDataURI2, faviconURL, keywords, cacheImages2)
  {
  }

  /** Without a `faviconURL` or `keywords` argument, `init` leaves those fields `nil`. */
  lemma InitDefaults(
    id: Option<int>, siteURL: string, mediaURL: Option<string>, title: Option<string>,
    description: Option<string>, pageType: Option<string>, providerName: Option<string>,
    mediaDataURI: Option<string>)
    ensures var m := PageMetadata.Init(id, siteURL, mediaURL, title, description, pageType,
                                       providerName, mediaDataURI);
      m.faviconURL == None && m.keywordsString == None && m.Keywords() == {}
  {
  }

  /** The keywords of a record are exactly the comma-delimited fields of its keyword string. */
  lemma KeywordsAreFields(m: PageMetadata, p: string)
    requires m.keywordsString.Some?
    ensures p in m.Keywords() <==> IsField(m.keywordsString.value, p)
  {
    SplitIsFields(m.keywordsString.value, p);
  }

  /**
   * A keyword string made by joining comma-free pieces with commas yields
   * the set of its non-empty pieces: repeated pieces, empty pieces and
   * extra leading, trailing or doubled commas make no difference.
   */
  lemma KeywordsOfJoin(m: PageMetadata, ps: seq<string>)
    requires m.keywordsString == Some(Join(ps))
    requires forall p :: p in ps ==> CommaFree(p)
    ensures m.Keywords() == set p | p in ps && p != []
  {
    SplitJoin(ps);
  }
}
