# Fragments: a verified model of the Fragment entity

This project models the `Fragment` class of the *fragments* microservice
(`src/model/fragment.js`). A fragment is a piece of user data with an owner,
an id, two timestamps, a Content-Type and a size, kept in two stores:
metadata under `(ownerId, id)`, and the raw bytes under the same key.

The model has these modules:

- `Wrappers`: `Option` (JavaScript `undefined`) and `Result` (a value, or the error the code throws).
- `FragmentErrors`: the errors the constructor and `byId` throw, with their messages.
- `ContentType`: the part of the `content-type` package's `parse` the fragment relies on. It takes the text before the first `;`, trims whitespace, checks `token/token` and lower-cases the result.
- `FragmentType`: the supported-type allowlist, `isSupportedType`, and the `mimeType`, `isText` and `formats` getters. These are pure functions of the Content-Type value.
- `FragmentData`: the storage the model delegates to (`./data`). `Store` is a class with two maps that its methods reassign: `meta` and `data`.
- `Fragments`: the constructor's checks (`Construct`) and the class `Fragment`. Its `updated` and `size` fields change in place, through `save` and `setData`. It also holds the static `byId`, `byUser` and `delete`.
- `FragmentScenarios`: client runs of create, save, setData, byId, delete and byUser. Each holds for every valid owner, type and payload.

External inputs are parameters:

- the clock reading (`now: Timestamp`, a non-empty string);
- the generated id (`freshId: FreshId`, a non-empty string).

The one other source of nondeterminism is the order of a listing. `Store.ListFragments` picks the owner's keys in an unspecified order. Its contract fixes only which entries appear, each exactly once.

## Model

| member | source | states |
|---|---|---|
| ContentType.TrimStartSpec | src/model/fragment.js:136 | trimming the front removes exactly a run of whitespace, and the result does not start with whitespace |
| ContentType.TrimEndSpec | src/model/fragment.js:136 | trimming the back removes exactly a run of whitespace, and the result does not end with whitespace |
| ContentType.IndexOfSpec | src/model/fragment.js:136 | the index search finds nothing iff the character is absent; otherwise it finds the first occurrence |
| ContentType.ParseSpec | src/model/fragment.js:135-137 | a parsed type is a `token/token` media type, lower-case, with no parameters left in it |
| ContentType.ParseBase | src/model/fragment.js:135-137 | a bare media type parses to its lower-cased self |
| ContentType.ParseStripsParameters | src/model/fragment.js:130-137 | `type;params` parses to the same type as `type`, whatever the parameters: "text/html; charset=utf-8" gives "text/html" |
| ContentType.ParseIdempotent | src/model/fragment.js:135-137 | parsing the result of a parse gives it back unchanged |
| ContentType.Parse | src/model/fragment.js:136 | the base type of a Content-Type value, or none when it is not a media type; its contract is stated by ParseSpec, ParseBase, ParseStripsParameters and ParseIdempotent |
| FragmentType.IsSupportedType | src/model/fragment.js:178-192 | whether the parsed base type is on the allowlist, or the parser's error; its contract is stated by SupportedTypesAccepted, UnlistedIsUnsupported and MimeTypeIsSupported |
| FragmentType.IsText | src/model/fragment.js:144-147 | whether a base type starts with `text/`; TextTypesAreTheTextOnes states which supported types these are |
| Fragments.Fragment.IsText | src/model/fragment.js:144-147 | the fragment's `isText` getter: FragmentType.IsText of its mime type |
| FragmentType.MimeType | src/model/fragment.js:135-137 | the mime type of a supported value is on the allowlist and carries no `;` parameters |
| FragmentType.Formats | src/model/fragment.js:153-171 | the formats list starts with the base type itself and has no duplicates |
| FragmentType.SupportedTypesAccepted | src/model/fragment.js:178-192 | each of the six allowlisted types is supported, with or without parameters, and is its own mime type |
| FragmentType.UnlistedIsUnsupported | src/model/fragment.js:178-192 | a well-formed lower-case type outside the allowlist yields `false`, not an error |
| FragmentType.MimeTypeIsSupported | src/model/fragment.js:135-137 | the mime type of a supported value is supported and is its own mime type |
| FragmentType.TextTypesAreTheTextOnes | src/model/fragment.js:144-147 | among supported types, `isText` holds exactly for text/plain, text/html and text/markdown |
| FragmentType.TextFormatsAreLowerTextTypes | src/model/fragment.js:156-161 | markdown converts to html and plain, html to plain, and plain only to itself; text never converts to non-text |
| FragmentType.ImageFormats | src/model/fragment.js:164-167 | jpeg and png each convert to themselves, then to the other, then to webp |
| FragmentType.FormatsClosed | src/model/fragment.js:153-171 | for supported types, conversions compose: a format of a format is a format. A format is supported or is image/webp, and keeps text-ness |
| FragmentErrors.NotFoundMessage | src/model/fragment.js:76 | the message thrown for a missing id contains "not found" |
| Fragments.Construct | src/model/fragment.js:18-36 | the constructor's checks and fields; its contract is stated by ConstructChecks, ConstructedFields, ConstructedIsStable and ReconstructIsIdentity |
| Fragments.CheckedSize | src/model/fragment.js:18-28 | an omitted size is 0; a size is accepted iff it is a non-negative integral number; a non-number is rejected |
| Fragments.ConstructChecks | src/model/fragment.js:18-28 | construction succeeds iff there is an owner, the type is supported and the size valid. Checks run in source order, each with its own error: no owner gives MissingOwner; a missing or unlisted type gives UnsupportedType; an unparsable type gives the parser's InvalidMediaType; an invalid size gives InvalidSize |
| Fragments.ConstructedFields | src/model/fragment.js:30-35 | owner and type are kept verbatim; a missing id is the generated one, missing timestamps are the clock's; the size is the given number, or 0 |
| Fragments.ConstructedIsStable | src/model/fragment.js:18-36 | every constructed fragment has an owner, an id, both timestamps and a supported type |
| Fragments.ReconstructIsIdentity | src/model/fragment.js:78 | passing a stored stable record back through the constructor gives the same record, whatever id and clock are offered |
| Fragments.ExpandListing | src/model/fragment.js:44-63 | an absent listing is `[]` and an unexpanded one is returned as is. An expanded one succeeds iff the constructor accepts every entry; entry i is then the constructor's result on entry i, and is stable |
| Fragments.Rebuild | src/model/fragment.js:56-62 | the map succeeds iff the constructor accepts every entry; entry i of the result is then the constructor's result on entry i, and the length is kept |
| Fragments.RebuildIsStable | src/model/fragment.js:56-62 | every fragment a successful map yields is stable |
| Fragments.RebuildFailsAtFirst | src/model/fragment.js:56-62 | the map fails with the error of the first entry the constructor rejects |
| Fragments.ExpandedListingConstructs | src/model/fragment.js:56-62 | an expanded listing maps without error iff every one of the owner's stored records passes the constructor |
| Fragments.ExpandedListing | src/model/fragment.js:52-62 | on an expanded listing of the store, byUser succeeds iff each of the owner's records constructs, keeps one entry per record, and returns a listing of stable records unchanged |
| Fragments.RebuildStable | src/model/fragment.js:56-62 | rebuilding a listing of stable records gives the same listing back |
| Fragments.Fragment.constructor | src/model/fragment.js:18-36 | the new fragment's fields are the constructed record, and it is valid |
| Fragments.Fragment.Create | src/model/fragment.js:18-36 | `new Fragment(args)` returns a fresh valid fragment iff the checks pass; otherwise it returns the error they name |
| Fragments.Fragment.MimeType | src/model/fragment.js:135-138 | a fragment's mime type is one of the six supported types |
| Fragments.Fragment.Formats | src/model/fragment.js:153-171 | a fragment's formats start with its own mime type |
| Fragments.Fragment.Save | src/model/fragment.js:96-100 | sets `updated` to the clock and writes the record under its key, changing no other record. A consistent store stays consistent when the stored data matches the size |
| Fragments.Fragment.GetData | src/model/fragment.js:106-109 | returns the bytes under the fragment's key, or none when absent |
| Fragments.Fragment.SetData | src/model/fragment.js:116-128 | size becomes the data's length and `updated` the clock. Data and metadata under the key are both replaced, so metadata and data match and a consistent store stays consistent |
| Fragments.Fragment.ById | src/model/fragment.js:71-79 | a missing key is `NotFound(id)`. A stored record is passed through the constructor: the result is a fresh valid fragment with the constructor's record, or the constructor's error. A stable record comes back exactly as stored |
| Fragments.Fragment.ByUser | src/model/fragment.js:44-63 | without expand: each of the owner's ids exactly once. With expand: the result is the map of the constructor over a listing of the owner's records, each record once, so entry i is the constructor's result and a failure is the first rejected record's error. It succeeds iff every one of the owner's records passes the constructor. When every stored record is stable: each of the owner's records exactly once, unchanged |
| Fragments.Fragment.Delete | src/model/fragment.js:87-90 | removes the key from both stores, nothing else; a consistent store stays consistent |
| FragmentData.Store.constructor | src/model/fragment.js:8-15 | a new store is empty in both keyspaces |
| FragmentData.Store.WriteFragment | src/model/fragment.js:10 | stores the record under its own key, replacing what was there |
| FragmentData.Store.ReadFragment | tests/unit/memory.test.js:26-39 | returns the stored record, or none for a missing key |
| FragmentData.Store.WriteFragmentData | src/model/fragment.js:12 | stores the bytes under the key, replacing what was there |
| FragmentData.Store.ReadFragmentData | tests/unit/memory.test.js:41-51 | returns the stored bytes, or none for a missing key |
| FragmentData.Store.DeleteFragment | src/model/fragment.js:14 | removes the key from both keyspaces; an absent key is no error |
| FragmentData.Store.ListFragments | src/model/fragment.js:13 | lists each of the owner's keys exactly once, as an id or as the full record, and nothing else |
| FragmentScenarios.CreateSaveSetRead | tests/unit/info-fragments.test.js:31-51 | after create, save and setData, byId finds the fragment with size equal to the data's length, and getData returns that data |
| FragmentScenarios.RejectType | tests/unit/post-fragment.test.js:54-70 | an unsupported or unparsable type fails construction with a type error |
| FragmentScenarios.XmlIsUnsupported | tests/unit/post-fragment.test.js:54-61 | application/xml parses but is not supported |
| FragmentScenarios.DeleteThenLookup | src/routes/api/delete.js:18-25 | after delete, byId fails with a "not found" message and there is no data |
| FragmentScenarios.EmptyOwnerLists | src/model/fragment.js:44-63 | an owner with no fragments lists as empty, expanded or not |

## Left out

- ContentType.Parse: the media-type parameters after `;` are not validated. The `content-type` package rejects malformed parameters; this model accepts any text after the first `;`. Only ASCII whitespace is trimmed.
- FragmentType.IsSupportedType: follows the code, not the documentation. The doc comment says it returns whether the type is supported, but `contentType.parse` throws on an unparsable value. The model returns `Err(InvalidMediaType(value))` there, and the constructor propagates that error.
- Fragments.CheckedSize: sizes are reals, and `NaN` and `Infinity` are not modelled. Any value that is not a number is one case. The size is not rendered into the error message.
- Fragments.Fragment.SetData: the clock is read once per operation. `setData` reads it twice (its own stamp, then `save`'s), and the model collapses the two readings into one `now`.
- Fragments.Construct: the constructor reads the clock separately for a missing `created` and a missing `updated`. The model stamps both with the one `now`, so two readings that differ by a tick are not modelled.
- Fragments.Fragment.SetData: the `Buffer.isBuffer` check is not modelled, because the data parameter is already a byte sequence.
- Fragments.Fragment.ByUser: `JSON.parse` of string entries is not modelled. Stored records are structured values, and an id where a record was expected yields `MalformedEntry`. The store's listing is never absent here, so the `[]` branch for a missing listing is shown only in `ExpandListing`. The method requires the store invariant that every record sits under its own key, which `WriteFragment` keeps.
- Fragments.Fragment.Save: only the new `updated` value is stated. That it is later than the previous one is not modelled, because the clock is a parameter.
- `randomUUID()`: the id format is not modelled, and neither is uniqueness across calls. The generated id is a non-empty parameter.
- Asynchrony and partial failure: promises, interleaving and failures between the two writes of `setData` are not modelled.
- Route handlers, authentication, logging and HTTP status codes are not part of this model. The `./data` backend's internals are not part of this model either; they appear only through the `Store` contract.
