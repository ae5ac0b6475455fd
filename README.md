# PageMetadata, modelled in Dafny

A model of the value-level part of `PageMetadata` from the Firefox for iOS
storage layer (`Storage/PageMetadata.swift`): the record of what was
extracted from a web page (its URL, image URL, title, description, type,
provider, favicon and keywords), the `keywords` view that tokenizes the
comma-separated keyword string, the `MetadataKeys` names of the entries of
a metadata dictionary, and `fromDictionary`, which builds a record from a
loosely typed `[String: Any]` dictionary.

Files:

- `optional.dfy` — module `Optional`: Swift's `Optional` as `Option<T>`.
- `metadata_keys.dfy` — module `MetadataKeys`: the enumeration, its raw
  values, and Swift's synthesized `init?(rawValue:)`.
- `tokenizer.dfy` — module `Tokenizer`: `split(separator: ",",
  omittingEmptySubsequences: true)` as a recursive scan over a `seq<char>`
  (`SplitFrom`, `Split`), its partner `Join` (`joined(separator: ",")`, not in the source: the
  inverse used to state the round trip),
  and the proofs that the pieces are exactly the comma-delimited fields and
  that splitting undoes joining.
- `page_metadata.dfy` — module `Metadata`: the dictionary value type
  (`Value = Str(s) | Other`, where `Other` stands for any non-string `Any`),
  `dict[key] as? String` (`StringAt`), the `PageMetadata` record with its
  `Keywords()` property, the initializer `Init` (default arguments as in the
  source: `faviconURL` and `keywords` default to `nil`, `cacheImages` to
  `true`) and `FromDictionary`. `ToDictionary` is not in the source: it is
  the inverse used to state the round trips of `FromDictionary`.

The Swift field `type` is called `pageType` in the model because `type` is
a Dafny keyword. Swift's `id: Int?` is an `Option<int>`; it is only stored,
so the 64-bit width of `Int` plays no role.

## Model

| member | source | states |
|---|---|---|
| `MetadataKeys.RawValue` | Storage/PageMetadata.swift:10-18 | each case's raw value is the source's key string, and none is empty |
| `MetadataKeys.RawValueInjective` | Storage/PageMetadata.swift:9-19 | distinct enumeration cases name distinct dictionary keys |
| `MetadataKeys.FromRawValue` | Storage/PageMetadata.swift:9-19 | the case recovered from a string has that string as its raw value |
| `MetadataKeys.FromRawValueRoundTrip` | Storage/PageMetadata.swift:9-19 | every case is recovered from its raw value |
| `Tokenizer.SeparatorIndex` | Storage/PageMetadata.swift:39 | the scan for the next `","` stops at the first comma at or after the start, or at the end when there is none |
| `Tokenizer.SplitFrom` | Storage/PageMetadata.swift:39 | every piece of the split is non-empty and holds no comma |
| `Tokenizer.Split` | Storage/PageMetadata.swift:39 | every piece of `split(separator: ",", omittingEmptySubsequences: true)` is non-empty and comma-free |
| `Tokenizer.SplitFromSound` | Storage/PageMetadata.swift:39 | every piece is a contiguous, maximal comma-free run of the input, and the lemma names where it lies |
| `Tokenizer.SplitFromComplete` | Storage/PageMetadata.swift:39 | every maximal non-empty comma-free run of the input is among the pieces |
| `Tokenizer.SplitIsFields` | Storage/PageMetadata.swift:39 | a string is a piece of the split if and only if it is a non-empty field of the input between commas or the ends |
| `Tokenizer.SplitJoin` | Storage/PageMetadata.swift:39 | splitting the comma-join of comma-free pieces gives those pieces, in order, with the empty ones dropped (extra, leading and trailing commas vanish) |
| `Tokenizer.SplitJoinRoundTrip` | Storage/PageMetadata.swift:39 | splitting the comma-join of non-empty comma-free pieces gives exactly those pieces back |
| `Tokenizer.SplitJoinSplit` | Storage/PageMetadata.swift:39 | re-joining the pieces of a string and splitting again gives the same pieces |
| `Metadata.StringAt` | Storage/PageMetadata.swift:60 | `dict[key] as? String` is a string exactly when the entry is present and holds a string, and then it is that string |
| `Metadata.PageMetadata.Keywords` | Storage/PageMetadata.swift:34-41 | `keywords` is empty when `keywordsString` is nil, and no keyword is empty or contains a comma |
| `Metadata.KeywordsAreFields` | Storage/PageMetadata.swift:34-41 | when `keywordsString` is set, the keywords are exactly its non-empty fields between commas |
| `Metadata.KeywordsOfJoin` | Storage/PageMetadata.swift:39-40 | a keyword string that comma-joins comma-free pieces yields the set of its non-empty pieces; duplicates and extra commas change nothing |
| `Metadata.PageMetadata.Init` | Storage/PageMetadata.swift:43-53 | the initializer stores each argument unchanged in the like-named field |
| `Metadata.InitIgnoresCaching` | Storage/PageMetadata.swift:43-57 | `mediaDataURI` and `cacheImages` have no effect on the fields of the record |
| `Metadata.InitDefaults` | Storage/PageMetadata.swift:43 | without `faviconURL` and `keywords` arguments both fields are nil and the keyword set is empty |
| `Metadata.PageMetadata.FromDictionary` | Storage/PageMetadata.swift:59-67 | nil exactly when `"url"` is absent or not a string; otherwise `id` is nil, `siteURL` is the `"url"` string and each optional field is the string under its key (`"image"`, `"title"`, `"description"`, `"type"`, `"provider"`, `"icon"`, `"keywords"`), or nil when that entry is absent or not a string |
| `Metadata.FromDictionaryAgrees` | Storage/PageMetadata.swift:59-67 | two dictionaries with the same string entries under the stored keys decode alike |
| `Metadata.FromDictionaryStoredEntries` | Storage/PageMetadata.swift:59-67 | decoding depends only on the string entries under the stored keys |
| `Metadata.FromDictionaryIgnoresUnstoredKey` | Storage/PageMetadata.swift:59-67 | an entry under any other key changes nothing |
| `Metadata.FromDictionaryIgnoresImageData` | Storage/PageMetadata.swift:64-66 | the `"image_data_uri"` entry, whatever it holds, present or not, influences no field |
| `Metadata.FromDictionaryNonStringIsAbsent` | Storage/PageMetadata.swift:60-66 | an entry holding a non-string decodes as if it were absent |
| `Metadata.DecodedStoredValue` | Storage/PageMetadata.swift:64-66 | each field of a decoded record holds the string entry under its key |
| `Metadata.FromToDictionary` | Storage/PageMetadata.swift:59-67 | decoding the dictionary of a record without an `id` gives the record back |
| `Metadata.ToFromDictionary` | Storage/PageMetadata.swift:59-67 | re-encoding a decoded record gives exactly the string entries of the dictionary under the stored keys |

## Left out

- `cacheImage`, `downloadAndCache` and `cache` (Storage/PageMetadata.swift:54-56, 69-105): asynchronous calls into the SDWebImage cache and downloader, a synchronous `Data(contentsOf:)` fetch and `UIImage` decoding. They write only to an external image cache, never to the record, so the model treats construction as if caching had no observable effect.
- `URL(string:)` validity (Storage/PageMetadata.swift:54, 80): Foundation's URL parser is not part of this model, and it only decides whether the caching side effect runs.
- ClientTests/UIImageViewExtensionsTests.swift: GUI-level tests of `UIImageView.setIcon` that fetch favicons over the network, wait on dispatch delays and compare PNG bytes; `FaviconFetcher` is not part of this model.
- Swift `String` semantics: strings are sequences of characters, `","` is one element, and there is no grapheme clustering or Unicode canonical equivalence (in Swift a comma followed by a combining mark is a single `Character` that is not `","`, and equal `String`s may differ in code points).
- The `[String: Any]` dictionary is a `map<string, Value>`; only the distinction between a string and any other value is modelled, since `as? String` is the only way the source reads an entry.
