# Bundle manifest codec and builders

A Dafny model of the core of `atari-bundle`: the `bundle.ini` manifest that
describes how a packaged application is identified and launched.

- `wrappers.dfy`: `Option` and `Result`.
- `decode_errors.dfy` (module `DecodeErrors`): the errors a decode reports, from a malformed scalar up to an unknown, repeated or missing key or section.
- `scalar_codecs.dfy` (module `ScalarCodecs`) holds the three scalar codecs:
  - `BundleType`, printed as its variant name and parsed by exact match;
  - booleans, written as the words `true` and `false`, since the INI serializer has no booleans of its own;
  - string lists, written as one `;`-separated value and read back by splitting on `;`, with an empty last segment dropped.
- `bundle_manifest.dfy` (module `BundleManifest`) holds the `Bundle` record, its encoder and decoder, and the `BundleConfig` layer.
  - A `[Bundle]` section is modelled as the ordered `key=value` entries the INI parser yields. A file is modelled as an ordered sequence of sections.
  - `Encode` writes the fields in declaration order under their PascalCase keys, with the renames `Type`, `StoreID`, `HomebrewID` and `PreferXBoxMode`. It skips `None` options, `false` flags and empty tag lists.
  - `Decode` takes the entries in order. An undeclared key fails with `UnknownField`, a repeated key with `DuplicateField`, and a malformed `Type`, `Background` or `PreferXBoxMode` value with its parse error, in that order for each entry. After the last entry, a missing `Name` and then a missing `Type` fail with `MissingField`. Absent optional fields take their defaults.
  - `DecodeConfig` skips sections other than `Bundle`, rejects a second `Bundle` section and reports a missing one.
- `builders.dfy` (module `Builders`) holds the three builders as classes whose setters update their fields in place.
  - `BundleConfigBuilder` carries the name and type, then hands over to a homebrew-id builder or a store-id builder.
  - `Build` pins the fields the chosen mode does not use.
  - `State()` is a snapshot of a builder's fields. Every setter states its effect as an update of that snapshot.
- `manifest_examples.dfy` (module `ManifestExamples`) holds the encrypted-image test manifest, generalised over its field values.

A record from either builder might be expected to survive writing and
reading back unchanged. A store record need not: the `;` list codec does not
escape, so a tag holding `;` is split in two and an empty last tag is dropped.
`Builders.StoreBuildRoundTrip` states that the round trip holds exactly when
the tag list is one the codec carries (`ScalarCodecs.ListRoundTrips`). Homebrew
records carry no tags and always round-trip (`Builders.HomebrewBuildRoundTrip`).
These round trips, like every property here, hold at the level of key/value
entries grouped into sections; the INI text layer is not modelled.

## Model

| member | source | states |
|---|---|---|
| ScalarCodecs.BundleTypeName | src/lib.rs:34-39 | The printed name of a variant; no contract of its own, its inverse is stated by `ScalarCodecs.BundleTypeRoundTrip` |
| ScalarCodecs.IsFalse | src/lib.rs:16-18 | The omission test of the flags; no contract of its own, its effect is stated by `BundleManifest.EncodeOmitsDefaults` |
| ScalarCodecs.EncodeBool | src/lib.rs:93-98 | Writes `true` or `false`; no contract of its own, its inverse is stated by `ScalarCodecs.BoolRoundTrip` |
| ScalarCodecs.EncodeList | src/lib.rs:128-138 | Joins the elements with one `;` between neighbours; no contract of its own, its inverse is stated by `ScalarCodecs.ListRoundTrip` and `ScalarCodecs.SplitEncodeList` |
| ScalarCodecs.ParseBundleType | src/lib.rs:34-39 | Accepts exactly the three variant names, case-sensitive, and returns the variant whose name is the text; any other text is `InvalidBundleType` naming it |
| ScalarCodecs.BundleTypeRoundTrip | src/lib.rs:34-39 | Parsing the printed name of every bundle type gives that type back |
| ScalarCodecs.DecodeBool | src/lib.rs:100-126 | Succeeds exactly on `true` and `false`, and the value re-encodes to the same text; any other text is `InvalidBoolean` |
| ScalarCodecs.BoolRoundTrip | src/lib.rs:93-126 | Decoding an encoded boolean gives it back |
| ScalarCodecs.Split | src/lib.rs:163 | There is at least one segment, no segment holds `;`, and joining the segments with `;` restores the text |
| ScalarCodecs.DecodeList | src/lib.rs:159-174 | No element holds `;`, re-joining the elements gives the text back without one trailing `;`, and the result is empty exactly for the empty text |
| ScalarCodecs.SplitEncodeList | src/lib.rs:128-138 | Splitting the join of a non-empty list of `;`-free elements gives the list back |
| ScalarCodecs.ListRoundTrip | src/lib.rs:128-174 | Decoding an encoded list gives it back if and only if no element holds `;` and the last element is not empty |
| ScalarCodecs.TrailingSeparatorAbsorbed | src/lib.rs:163-168 | One trailing `;` after a non-empty last segment changes nothing in the decoded list |
| ScalarCodecs.DecodeListEmpty | src/lib.rs:514-530 | An empty `LauncherTags` value decodes to no tags |
| ScalarCodecs.DecodeListLoneSeparator | src/lib.rs:163-168 | `;` decodes to one empty element: of its two empty segments only the last is popped |
| ScalarCodecs.DecodeListTrailing | src/lib.rs:163-168 | `A;B;` decodes to `[A, B]`: the trailing empty segment is popped |
| ScalarCodecs.DecodeListInteriorEmpty | src/lib.rs:163-168 | `A;;B` keeps its interior empty element |
| ScalarCodecs.DecodeListFourTags | src/lib.rs:491-511 | `Tag1;Tag2;Tag3;Tag4` decodes to the four tags |
| BundleManifest.KeyOf | src/lib.rs:42-83 | The key of each field; no contract of its own, stated by `BundleManifest.KeyOfInjective` and `BundleManifest.FieldOfIff` |
| BundleManifest.FieldText | src/lib.rs:47-83 | The text a field writes, or nothing for a default; no contract of its own, stated by `BundleManifest.EncodeHasKey` and `BundleManifest.EncodedMap` |
| BundleManifest.EncodeFields | src/lib.rs:41-84 | Writes the listed fields in order; no contract of its own, stated by `BundleManifest.EncodeFieldsHasKey` and `BundleManifest.EncodeFieldsAppend` |
| BundleManifest.Collect | src/lib.rs:41-84 | Takes the entries in order and keeps only well-typed texts; its success and result are stated by `BundleManifest.CollectSpec` |
| BundleManifest.Finish | src/lib.rs:41-84 | Builds the record, `Name` then `Type` required; no contract of its own, stated by `BundleManifest.DecodeMissingRequired` and `BundleManifest.DecodeDefaults` |
| BundleManifest.Decode | src/lib.rs:41-84 | Decodes a section; no contract of its own, stated by `BundleManifest.DecodeAccepts`, `BundleManifest.DecodeFirstBadEntry` and `BundleManifest.RoundTrip` |
| BundleManifest.EncodeConfig | src/lib.rs:86-90 | Writes the record as the one `Bundle` section; no contract of its own, stated by `BundleManifest.ConfigRoundTrip` |
| BundleManifest.CollectSections | src/lib.rs:86-90 | Takes the sections in order; no contract of its own, stated by `BundleManifest.CollectSectionsSkips` and `BundleManifest.CollectSectionsFound` |
| BundleManifest.DecodeConfig | src/lib.rs:86-90 | Decodes a file; no contract of its own, stated by `BundleManifest.DecodeConfigOneSection`, `BundleManifest.DecodeConfigMissing` and `BundleManifest.DecodeConfigDuplicate` |
| BundleManifest.FieldAmong | src/lib.rs:41-84 | A field found for a key among a list carries that key and is in the list; no field found means no field of the list has that key |
| BundleManifest.FieldOfIff | src/lib.rs:42-83 | A key names a field exactly when it is that field's PascalCase or renamed key |
| BundleManifest.KeyOfInjective | src/lib.rs:42-83 | No two fields share a key |
| BundleManifest.Encode | src/lib.rs:43-46 | The written section starts with `Name` and then `Type`, with the name and the printed type |
| BundleManifest.EncodeWellFormed | src/lib.rs:41-84 | Every written key is a declared key, and no key is written twice |
| BundleManifest.EncodeFieldsHasKey | src/lib.rs:47-83 | Writing a list of fields emits a field's key exactly when the field is in the list and does not hold its default |
| BundleManifest.EncodeHasKey | src/lib.rs:47-83 | A field's key is written exactly when the field does not hold its default |
| BundleManifest.EncodeOmitsDefaults | src/lib.rs:47-83 | `Name` and `Type` are always written; each optional key is written exactly when its option is `Some`, its flag is true or its tag list is non-empty |
| BundleManifest.EncodeFieldsAppend | src/lib.rs:41-84 | Writing two field lists one after the other writes the concatenation of their entries |
| BundleManifest.Absorb | src/lib.rs:41-42 | One entry is accepted exactly when its key is declared, not yet seen and its value parses; the accepted entry is recorded under its field |
| BundleManifest.CollectSpec | src/lib.rs:41-84 | Reading entries after some seen fields succeeds exactly when the entries are acceptable and name no seen field, and then yields the seen fields plus the entries' dictionary |
| BundleManifest.DecodeAccepts | src/lib.rs:41-84 | A section decodes exactly when every key is declared and given once, every value parses, and both `Name` and `Type` are present |
| BundleManifest.DecodeIsFinishOfMap | src/lib.rs:41-84 | A decoded section is the record built from its key-to-text dictionary |
| BundleManifest.FieldMapKeys | src/lib.rs:41-84 | A field is in a section's dictionary exactly when the section has its key |
| BundleManifest.FieldMapValue | src/lib.rs:41-84 | With no key repeated, the dictionary holds each entry's text under its field |
| BundleManifest.DecodeFields | src/lib.rs:41-84 | Every key of a decoded section is declared, and every entry's text is reflected in the field its key names |
| BundleManifest.DecodeDefaults | src/lib.rs:57-81 | An absent flag decodes to false, absent tags to the empty list, an absent optional string to `None` |
| BundleManifest.DecodeMissingRequired | src/lib.rs:43-46 | With every entry acceptable, a missing `Name` is `MissingField(Name)`; with `Name` present, a missing `Type` is `MissingField(Type)` |
| BundleManifest.CollectPrefix | src/lib.rs:41-84 | Reading a section reads a prefix first and continues from the fields it collected |
| BundleManifest.DecodeFirstBadEntry | src/lib.rs:41-42 | The first entry that fails decides the error: an undeclared key is `UnknownField`, a repeated key `DuplicateField`, otherwise the value's parse error |
| BundleManifest.ReorderKeepsMap | src/lib.rs:41-84 | Permuting an acceptable section keeps it acceptable and keeps its dictionary |
| BundleManifest.DecodeOrderIrrelevant | src/lib.rs:41-84 | A decodable section decodes to the same record in any order of its entries |
| BundleManifest.EncodedMap | src/lib.rs:41-84 | The dictionary of a written section holds exactly the texts of the fields that are written |
| BundleManifest.EncodeAcceptable | src/lib.rs:41-84 | Every section the encoder writes is accepted entry by entry by the decoder |
| BundleManifest.FinishWritten | src/lib.rs:41-84 | Building a record from the texts the encoder writes gives back the record, with its tags passed through the list codec |
| BundleManifest.EncodeThenDecode | src/lib.rs:41-84 | Decoding an encoded record gives the record back, except that its tags are passed through the list codec |
| BundleManifest.RoundTrip | src/lib.rs:41-84 | Decoding an encoded record gives it back exactly when its tag list is one the list codec carries |
| BundleManifest.CollectSectionsSkips | src/lib.rs:86-90 | Sections other than `Bundle` are ignored |
| BundleManifest.CollectSectionsSkipsPrefix | src/lib.rs:86-90 | Sections before the first `Bundle` section are passed over |
| BundleManifest.CollectSectionsFound | src/lib.rs:86-90 | Once a record is found, the next `Bundle` section is `DuplicateField(Bundle)` |
| BundleManifest.DecodeConfigOneSection | src/lib.rs:86-90 | A file with one `Bundle` section decodes to that section's record, or fails with its error, whatever other sections surround it |
| BundleManifest.DecodeConfigMissing | src/lib.rs:86-90 | A file without a `Bundle` section is `MissingField(Bundle)` |
| BundleManifest.DecodeConfigDuplicate | src/lib.rs:86-90 | A second `Bundle` section after one that decodes is `DuplicateField(Bundle)` |
| BundleManifest.ConfigRoundTrip | src/lib.rs:86-90 | A whole manifest survives writing and reading exactly when its tag list is one the list codec carries |
| Builders.HomebrewBuilt | src/lib.rs:271-288 | The record of a homebrew state; no contract of its own, stated by `Builders.HomebrewBundleConfigBuilder.Build` and `Builders.HomebrewBuildRoundTrip` |
| Builders.StoreBuilt | src/lib.rs:377-394 | The record of a store state; no contract of its own, stated by `Builders.StoreBundleConfigBuilder.Build` and `Builders.StoreBuildRoundTrip` |
| Builders.BundleConfigBuilder.constructor | src/lib.rs:185-188 | The builder holds the given name and type |
| Builders.BundleConfigBuilder.HomebrewId | src/lib.rs:190-200 | A new homebrew builder with the name, the type and the id, every optional field unset |
| Builders.BundleConfigBuilder.StoreId | src/lib.rs:202-216 | A new store builder with the name, the type and the id, every optional field unset and the tags empty |
| Builders.HomebrewBundleConfigBuilder.constructor | src/lib.rs:191-199 | The starting homebrew state |
| Builders.HomebrewBundleConfigBuilder.Version | src/lib.rs:231-234 | Sets the version and changes no other field |
| Builders.HomebrewBundleConfigBuilder.PreferXBoxMode | src/lib.rs:236-239 | Sets the flag and changes no other field |
| Builders.HomebrewBundleConfigBuilder.RequiresLauncher | src/lib.rs:241-244 | Sets the required launcher and changes no other field |
| Builders.HomebrewBundleConfigBuilder.Exec | src/lib.rs:246-249 | Sets the executable and changes no other field |
| Builders.HomebrewBundleConfigBuilder.SetVersion | src/lib.rs:251-254 | Replaces the version, `None` included, and changes no other field |
| Builders.HomebrewBundleConfigBuilder.SetPreferXBoxMode | src/lib.rs:256-259 | An absent flag resets the field to false; no other field changes |
| Builders.HomebrewBundleConfigBuilder.SetRequiresLauncher | src/lib.rs:261-264 | Replaces the required launcher and changes no other field |
| Builders.HomebrewBundleConfigBuilder.SetExec | src/lib.rs:266-269 | Replaces the executable and changes no other field |
| Builders.HomebrewBundleConfigBuilder.Build | src/lib.rs:271-288 | The record carries the homebrew id and the builder's fields; store id, background, tags, launcher executable and encrypted image are pinned to their defaults |
| Builders.StoreBundleConfigBuilder.constructor | src/lib.rs:203-215 | The starting store state |
| Builders.StoreBundleConfigBuilder.Version | src/lib.rs:307-310 | Sets the version and changes no other field |
| Builders.StoreBundleConfigBuilder.Background | src/lib.rs:312-315 | Sets the background flag and changes no other field |
| Builders.StoreBundleConfigBuilder.PreferXBoxMode | src/lib.rs:317-320 | Sets the flag and changes no other field |
| Builders.StoreBundleConfigBuilder.RequiresLauncher | src/lib.rs:322-325 | Sets the required launcher and changes no other field |
| Builders.StoreBundleConfigBuilder.ProvidesLauncher | src/lib.rs:327-331 | Sets the launcher executable and the tags together and changes no other field |
| Builders.StoreBundleConfigBuilder.Exec | src/lib.rs:333-336 | Sets the executable and changes no other field |
| Builders.StoreBundleConfigBuilder.EncryptedImage | src/lib.rs:338-342 | Sets the encrypted image and changes no other field |
| Builders.StoreBundleConfigBuilder.SetVersion | src/lib.rs:344-347 | Replaces the version and changes no other field |
| Builders.StoreBundleConfigBuilder.SetBackground | src/lib.rs:349-352 | An absent flag resets the field to false; no other field changes |
| Builders.StoreBundleConfigBuilder.SetPreferXBoxMode | src/lib.rs:354-357 | An absent flag resets the field to false; no other field changes |
| Builders.StoreBundleConfigBuilder.SetRequiresLauncher | src/lib.rs:359-362 | Replaces the required launcher and changes no other field |
| Builders.StoreBundleConfigBuilder.SetProvidesLauncher | src/lib.rs:364-370 | With an executable, sets it and the tags together; without one, changes nothing, the tags included |
| Builders.StoreBundleConfigBuilder.SetExec | src/lib.rs:372-375 | Replaces the executable and changes no other field |
| Builders.StoreBundleConfigBuilder.Build | src/lib.rs:377-394 | The record carries the store id and no homebrew id; every other field is copied from the builder |
| Builders.HomebrewBuildRoundTrip | src/lib.rs:271-288 | Every homebrew record survives writing and reading back unchanged |
| Builders.StoreBuildRoundTrip | src/lib.rs:377-394 | A store record survives writing and reading back exactly when no tag holds `;` and the last tag is not empty |
| Builders.EncodeLeadingFields | src/lib.rs:43-50 | A written section is what the first four fields write followed by what the rest write |
| Builders.LeadingFieldsWritten | src/lib.rs:43-50 | The first four fields write `Name`, `Type`, then `StoreID` and `HomebrewID` only when set |
| Builders.HomebrewStartWritesIdOnly | src/lib.rs:190-200 | A fresh homebrew builder's record writes exactly `Name`, `Type` and `HomebrewID` |
| Builders.StoreStartWritesIdOnly | src/lib.rs:202-216 | A fresh store builder's record writes exactly `Name`, `Type` and `StoreID` |
| ManifestExamples.ImageBundleLeading | src/lib.rs:41-56 | An image record's first seven fields write `Name`, `Type`, `StoreID`, `EncryptedImage`, `Version`, in that order |
| ManifestExamples.ImageBundleWritten | src/lib.rs:41-84 | An image record writes exactly `Name`, `Type`, `StoreID`, `EncryptedImage`, `Version` |
| ManifestExamples.ImageBundleDecodes | src/lib.rs:550-575 | The test's section, with any name, type, store id, version and image, decodes to the image record with empty tags, and so does the re-encoded record |

## Left out

- Reading and writing the zip archive and its `bundle.ini` entry (`from_zipfile`, `from_archive`, `to_archive`) is file I/O and is not modelled.
- The INI text grammar behind `from_read` and `to_write` is not modelled. That covers lines, `[section]` headers, `=`, comments and whitespace. The model starts from the ordered key/value entries the INI parser produces, grouped into named sections.
- The human-readable messages of `BundleError` are not modelled. Its `Zip`, `Io` and `Ser` variants come only from I/O. The decoder's errors are modelled as `DecodeError`, with the offending key or text.
- `BundleConfig::builder` is `BundleConfigBuilder::new` under another name and is modelled by `Builders.BundleConfigBuilder.constructor`.
- `DecodeList` is specialised to `String` elements. The list decoder is generic over `FromStr`, and parsing a `String` never fails, so the model has no per-element error path.
- The serde visitor plumbing is not modelled: `expecting` messages and the `deserialize_str` dispatch. A present optional key is modelled as `Some` of its text.
- The consuming setters (`version`, `exec`, … taking `self`) are modelled as in-place updates of the same builder object, like the `&mut self` setters. Ownership transfer and the builder returned for chaining are not modelled.
- `Builders.BundleConfigBuilder.HomebrewId` and `Builders.BundleConfigBuilder.StoreId` leave the original builder usable. In the source it is consumed.
- The unit tests' literal inputs are proved for all values of their fields rather than for the literal strings: the full store, full homebrew, tags, no tags and missing tags manifests. `DecodeAccepts`, `DecodeFields` and `DecodeDefaults` cover those sections. `ImageBundleDecodes` covers the encrypted-image test.
