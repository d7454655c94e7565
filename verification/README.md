# passkit-generator core in Dafny

This project models two pure parts of passkit-generator, a library that builds
Apple Wallet passes.

**The schema catalogue** (`src/schema.ts`) holds eleven Joi descriptors. They
describe what a pass document, its fields, beacons, locations, barcodes, NFC
payload, personalization request, certificates and override options must look
like. Two entry points look a descriptor up by name and check a document:

- `isValid` answers yes or no, and any undeclared key is an error.
- `getValidated` returns the validated value, or `null`. It drops undeclared
  keys and fills in defaults.

The model turns the descriptors into data:

- `Rules` defines a small constraint language, `Rule`, and one checker,
  `Validate(rule, v, strip)`, over JSON-like `Values.Value`s.
- `Schema` states the catalogue in that language.
- `Validator` holds the two entry points.

Every descriptor is also restated as a plain predicate over the document:
`Dictionaries`, `OverrideOptions`, `SemanticTags` and `PassFields`. Each
predicate is proved to be exactly what `isValid` answers under that name. So
the predicate is the independent reference definition and the checker is its
partner. `Examples` pins down single answers on concrete documents.

**The bundle utilities** (`src/utils.ts`):

- `isValidRGB` is a prefix parser (`Rgb`). A scanner is proved to find exactly
  the decompositions the regular expression describes.
- `padMeTwo` and the `padStart` it uses are in `Padding`.
- `removeHidden`, `getAllFilesWithName`, `hasFilesWithName` and
  `deletePersonalization` are in `FileNames`. They are modelled as
  order-preserving filters over sequences and a deletion over maps.
- `generateStringFile` is in `StringsFile`. A reader for `.strings` lines is
  its partner, and round trips are proved.
- `splitBufferBundle` is in `Bundles`. It is a left fold over the bundle's
  entries, and every route is proved to hold the buffer of the last entry
  routed there.

Host constants are parameters:

- `path.sep` is a `char` (`sep`).
- `os.EOL` is a `string` (`eol`).

An object's entries come as a sequence of pairs, in the order
`Object.entries`/`Object.keys` lists them.

Where the code and the documentation disagree, the model follows the code:

- Every "enumeration" in the catalogue except the personalization fields is an
  unanchored regular expression. So a string passes when it **contains** one
  allowed literal, not when it equals one. For example, `"PKEventTypeSportsX"`
  passes.
- The `webServiceURL` expression is unanchored too. It holds exactly when some
  position starts `http://` or `https://` followed by one of `[a-z0-9]`.
- `Joi.string()` refuses the empty string unless `.allow("")` is given.
- String `min` and `max` count JavaScript's UTF-16 code units, so a character outside the Basic Multilingual Plane counts twice.
- `Joi.number()` refuses numbers beyond `Number.MAX_SAFE_INTEGER` in magnitude, as no descriptor says `.unsafe()`.
- `Joi.object()` accepts any non-array object, dates and buffers included. A key descriptor sees a date as an object without keys, so a date passes the descriptors that require nothing.
- An auxiliary field's `row` is any number in `[0, 1]`, not an integer.
- The semantic key is spelled `passengetName`, as in the catalogue.
- A localized key's language is the **first** `sep` component, `.lproj`
  included. The trigger is `.lproj` anywhere in the key.

## Model

| member | source | states |
|---|---|---|
| `Rules.Validate` | src/schema.ts:583 | a validated value has the input's JavaScript type and a type the rule admits, where `Joi.object()` admits dates and buffers; a plain object comes back with declared keys only; a key descriptor lets a date or a byte-less buffer through as itself, and when stripping any buffer as a byte-less one, only if it requires and fills in nothing |
| `Strings.Utf16Length` | src/schema.ts:510 | the length `min`/`max` compare is JavaScript's: between the number of characters and twice it, equal to it iff no character is astral and to twice it iff every one is |
| `Documents.AnyNumberIff` | src/schema.ts:246 | a value passes `Joi.number()` iff it is a number of magnitude at most `Number.MAX_SAFE_INTEGER` |
| `Rules.StrictThenStrip` | src/schema.ts:583-614 | for a well-formed descriptor, a document the strict check accepts passes the stripping check too, with the same result |
| `Rules.StripFixpoint` | src/schema.ts:614-623 | the value the stripping check returns passes the strict check unchanged |
| `Rules.StripIdempotent` | src/schema.ts:614-623 | stripping a stripped value returns it unchanged |
| `Rules.ObjectByKeys` | src/schema.ts:100-124 | an object passes a descriptor iff every key is declared and passes its rule, the required keys are present, and the sibling conditions hold |
| `Rules.FlatObjectValidated` | src/schema.ts:614 | for a descriptor of leaf keys, stripping keeps exactly the declared keys with their values, adds the defaults, and fails iff a required key is missing or a declared key is bad |
| `Rules.ArrayConforms` | src/schema.ts:247 | an array passes `array().items(r)` iff every element passes `r` |
| `Schema.DescriptorWellFormed` | src/schema.ts:545-557 | every descriptor of the table accepts disjoint kinds in its alternatives and has valid defaults |
| `Documents.ContainingIff` | src/schema.ts:500-502 | an unanchored alternation of non-empty literals accepts exactly the strings that contain one of them, never `""` |
| `Validator.ResolveSchemaName` | src/schema.ts:562-564 | a name resolves iff it is one of the eleven registered names, and then to that entry |
| `Validator.ResolvesOwnName` | src/schema.ts:545-557 | every registered name resolves to its own descriptor |
| `Validator.IsValid` | src/schema.ts:573-592 | an unknown name gives false |
| `Validator.GetValidated` | src/schema.ts:601-624 | an unknown name gives null; a result has the input's type and, for an object descriptor, only declared keys |
| `Validator.ValidIsValidated` | src/schema.ts:573-624 | what `isValid` accepts, `getValidated` accepts with the same value |
| `Validator.GetValidatedIdempotent` | src/schema.ts:601-624 | what `getValidated` returns is valid under `isValid`, and validating it again returns it unchanged |
| `Validator.InheritedNameThrows` | src/schema.ts:562-564 | `"toString"` is no descriptor, yet the entry points as written throw on it instead of answering false and null |
| `Validator.AsWrittenAgreesElsewhere` | src/schema.ts:562-564 | away from inherited names, the lookup as written and the corrected lookup answer alike |
| `Dictionaries.BeaconIff` | src/schema.ts:446-455 | a beacon is valid iff it has only its four keys, a UUID, integer `minor` in 0..65535 and `major` in 1..65535, and `major > minor` when both are given |
| `Dictionaries.LocationIff` | src/schema.ts:464-469 | a location is valid iff latitude and longitude are numbers within the safe-integer range, altitude is such a number and the text is non-empty when given, and no other key occurs; a date or buffer is refused, as coordinates are required |
| `Dictionaries.NfcIff` | src/schema.ts:509-512 | an NFC payload is valid iff its message is non-empty and at most 64 UTF-16 code units long, with an optional key and nothing else |
| `Dictionaries.NfcValidated` | src/schema.ts:509-512 | `getValidated` returns the declared NFC keys unchanged and drops the others, or null when the message is missing, longer than 64 UTF-16 code units or otherwise bad, or the payload is no plain object |
| `Dictionaries.PersonalizationIff` | src/schema.ts:530-541 | a personalization request is valid iff the field list holds only the four exact literals and a description is given |
| `Dictionaries.BarcodeIff` | src/schema.ts:359-369 | a barcode is valid iff its format contains one of the four format literals and a message is given |
| `Dictionaries.BarcodeValidated` | src/schema.ts:359-369 | `getValidated` drops undeclared keys and sets `messageEncoding` to `iso-8859-1` when it is missing |
| `Dictionaries.TransitTypeIff` | src/schema.ts:500-502 | a transit type is valid iff it is a string containing one of the five transit literals |
| `Dictionaries.CertificatesIff` | src/schema.ts:54-71 | certificates are valid iff `wwdr`, `signerCert` and `signerKey` are all present as buffers or non-empty strings; the key may also be a key file (a buffer or non-empty string) with a non-empty passphrase |
| `Dictionaries.InstanceIff` | src/schema.ts:73-77 | a factory instance is valid iff a model (an object, date or buffer, or a non-empty string) is given and the certificates and overrides, when given, are objects, dates or buffers |
| `OverrideOptions.OptionsIff` | src/schema.ts:100-124 | the overrides are valid iff every key is declared and well typed: the URL contains an http(s) URL, the token has at least 16 UTF-16 code units, colours 10 to 16, store identifiers and `maxDistance` are safe-range numbers and `maxDistance` is positive, and a URL needs a token; as nothing is required, a date or a byte-less buffer passes too |
| `SemanticTags.SeatConforms` | src/schema.ts:157-164 | a seat holds only the six seat keys, each a non-empty string; a date or a byte-less buffer, having no own keys, passes too |
| `SemanticTags.PersonNameConforms` | src/schema.ts:143-146 | a name holds both required components and nothing else |
| `SemanticTags.AmountConforms` | src/schema.ts:133-136 | an amount holds a currency code and an amount and nothing else |
| `SemanticTags.CoordinatesConform` | src/schema.ts:166-169 | a place holds a latitude and a longitude within the safe-integer range and nothing else |
| `SemanticTags.SemanticsConforms` | src/schema.ts:242-313 | a semantics object passes iff every key is a semantic key whose value has its declared shape (numbers in the safe-integer range, the event type by containment), or it is a date or a byte-less buffer |
| `PassFields.FieldCrossIff` | src/schema.ts:425-436 | a currency code or number style is allowed only when `value` passes `Joi.number()` |
| `PassFields.FieldConforms` | src/schema.ts:388-437 | a field passes iff key and value are present, every key is declared and well typed (a number value in the safe-integer range, semantics possibly a date), and the number-only keys sit next to a number; an auxiliary field may add a row in `[0, 1]`; a date or buffer is no field |
| `PassFields.FieldIff` | src/schema.ts:388-437 | `isValid(v, "field")` is the field predicate |
| `PassFields.PassDictIff` | src/schema.ts:479-491 | field lists are valid iff each of the five optional lists holds fields (auxiliary ones with a row) and nothing else is present, or the document is a date or a byte-less buffer |
| `Examples.BeaconOrderMatters` | src/schema.ts:446-455 | major 10 over minor 5 passes; the swapped beacon fails |
| `Examples.WebServiceNeedsToken` | src/schema.ts:124 | a web service URL alone fails, and the same URL with a 16-character token passes |
| `Examples.ShortTokenRefused` | src/schema.ts:114 | a five-character token fails |
| `Examples.UrlShapes` | src/schema.ts:111-113 | `"see http://a"` holds a URL; a bare scheme and an `ftp` scheme do not |
| `Examples.UndeclaredKeyDropped` | src/schema.ts:614 | the strict check refuses an undeclared key, and the stripping check drops it |
| `Examples.BarcodeEncodingFilled` | src/schema.ts:361 | a barcode without an encoding comes back with `iso-8859-1` |
| `Examples.TransitTypeAnswers` | src/schema.ts:500-502 | containment passes a literal inside longer text; the empty string and a number fail |
| `Examples.AstralMessageTooLong` | src/schema.ts:510 | forty emoji, forty characters but eighty code units, are too long for an NFC message |
| `Examples.UnsafeCoordinateRefused` | src/schema.ts:466-467 | a latitude of 2^53 - 1 passes and one of 2^53 fails |
| `Examples.DateAsObject` | src/schema.ts:464-491 | a date passes `passDict`, which requires nothing, and fails `locationsDict`, which requires coordinates |
| `Examples.BufferAsObject` | src/schema.ts:100-124 | an empty buffer passes `supportedOptions`, a one-byte buffer does not |
| `Rgb.IsValidRgb` | src/utils.ts:13-16 | an absent or empty value is not a colour |
| `Rgb.ParseSound` | src/utils.ts:18-20 | the channels the scanner finds form an `rgb(` prefix of the kind the regular expression describes |
| `Rgb.ParseComplete` | src/utils.ts:18-20 | every such prefix decomposition is the one the scanner finds |
| `Rgb.IsValidRgbIff` | src/utils.ts:13-27 | a string is a colour iff it starts with such a prefix whose three channels are each at most 255 |
| `Rgb.TrailingTextIgnored` | src/utils.ts:18-20 | text after the closing parenthesis changes neither the parse nor the answer |
| `Rgb.WrittenTriple` | src/utils.ts:18-26 | `rgb(r,g,b)` followed by anything parses to its channels, and is a colour iff each is at most 255 |
| `Rgb.FourChannelsRefused` | src/utils.ts:18-20 | a fourth channel where `)` belongs is refused |
| `Padding.PadStart` | src/utils.ts:75 | padding reaches the width, keeps the string as its suffix, and fills only in front |
| `Padding.PadMeTwo` | src/utils.ts:74-76 | the result is all digits |
| `Padding.PadMeTwoLaws` | src/utils.ts:74-76 | the padded text reads back as the number; below ten it is `0` and one digit, from ten on the plain notation |
| `FileNames.Filter` | src/utils.ts:87 | filtering keeps only elements the test accepts, and keeps every one it accepts |
| `FileNames.FilterAppend` | src/utils.ts:87 | filtering a concatenation filters each part in order |
| `FileNames.FilterIdempotent` | src/utils.ts:87 | filtering twice is filtering once |
| `FileNames.SomeIffFilter` | src/utils.ts:177-179 | `some` is true iff `filter` keeps something |
| `FileNames.RemoveHidden` | src/utils.ts:86-88 | exactly the names not starting with `.` are kept; the empty name is kept |
| `FileNames.RemoveHiddenLaws` | src/utils.ts:86-88 | a list with no hidden name is unchanged, removal works piece by piece, and applying it twice is applying it once |
| `FileNames.GetAllFilesWithName` | src/utils.ts:160-169 | a file is returned iff it is in the source and, lower-cased when asked, includes, starts or ends with the name |
| `FileNames.HasFilesIff` | src/utils.ts:171-180 | `hasFilesWithName` is true iff `getAllFilesWithName` finds something, with the same defaults |
| `FileNames.SearchDefaults` | src/utils.ts:163-164 | the defaults search anywhere in the file name, case as given |
| `FileNames.UpperNameFindsNothing` | src/utils.ts:167 | only the file is lower-cased: a name with an upper-case letter finds nothing in a lower-cased search |
| `FileNames.DeleteEach` | src/utils.ts:186-188 | deleting each file removes exactly those keys and keeps the other buffers |
| `FileNames.DeletePersonalization` | src/utils.ts:182-189 | no logo and no `personalization.json` remains, and every other entry is unchanged |
| `FileNames.DeletePersonalizationLaws` | src/utils.ts:182-189 | deleting twice is deleting once, and absent names leave the bundle unchanged |
| `StringsFile.GenerateStringFile` | src/utils.ts:99-102 | the output is empty iff the table is |
| `StringsFile.ReplaceIsIdentity` | src/utils.ts:108 | the quote replacement leaves every value unchanged |
| `StringsFile.EscapedRoundTrip` | src/utils.ts:104-111 | the corrected generator's lines read back to the table, for any line ending |
| `StringsFile.PlainRoundTrip` | src/utils.ts:107-111 | without quotes or backslashes, the generator as written equals the corrected one and reads back to the table |
| `StringsFile.QuoteBreaksLine` | src/utils.ts:107-108 | a quote in a value ends the value early in the output as written, so the line does not read back; the corrected output does |
| `Bundles.SplitBufferBundle` | src/utils.ts:125-132 | a missing bundle gives two empty halves; no language table is empty and no root key contains `.lproj` |
| `Bundles.SplitEntries` | src/utils.ts:134-155 | the fold keeps every language table non-empty and every root key free of `.lproj` |
| `Bundles.PlaceShaped` | src/utils.ts:135-152 | one reduction step keeps that shape |
| `Bundles.SplitLookup` | src/utils.ts:134-155 | every route holds the buffer of the last entry routed there, and holds nothing when no entry is |
| `Bundles.RootEntryKept` | src/utils.ts:136-143 | a key without `.lproj` is in the root half with its own buffer |
| `Bundles.RootFrom` | src/utils.ts:136-143 | the root half holds only input keys without `.lproj`, with their buffers |
| `Bundles.LocalizedFrom` | src/utils.ts:146-150 | the localized half holds only files of `.lproj` keys, under the key's own language and file |
| `Bundles.NoSeparatorRoute` | src/utils.ts:146-148 | without a separator, the whole key is the language and the file is empty |
| `Bundles.SlashRoute` | src/utils.ts:146-148 | with `/` as separator and a `/` in the key, `lang + "/" + file` is the key |
| `Bundles.SlashCollision` | src/utils.ts:146-150 | with `/`, two keys share a route only when one is the other plus a trailing `/` |
| `Bundles.Lossless` | src/utils.ts:134-155 | when no two entries share a route, every entry's buffer is found at its route |
| `Bundles.CollisionOverwrites` | src/utils.ts:150 | `x.lproj` and `x.lproj/` collide, and the later buffer wins |

## Left out

- Joi's type coercion is not modelled. Joi turns numeric strings into numbers and parses `Joi.date().iso()` strings. The model has a separate `Date` kind, and strings are never numbers.
- Joi's error messages and abort-early behaviour are not modelled. An error is `None`.
- Numbers are exact reals. `NaN` and the infinities, which `Joi.number()` refuses, are not values of the model, and double rounding is not modelled. The safe-integer bound is.
- Dictionaries.CertificatesIff: the model never converts values, so `Joi.alternatives(Joi.binary(), Joi.string())` accepts buffers and non-empty strings only. Joi tries `Joi.binary()` first and, with conversion on, turns every string into a Buffer, so the program accepts an empty `wwdr`, `signerCert`, `signerKey` or `keyFile` string that the model refuses, and `getValidated` would hand back a Buffer where the model keeps the string. Modelling the conversion would make validation change a value's type and the two alternatives overlap, which the descriptor-wide laws rely on not happening.
- Rules.Validate: a key descriptor that requires nothing but fills in a default would, in Joi, accept a date or a buffer and add the default to its copy; the model refuses them. No descriptor of the catalogue is of that kind: the barcode, the only one with a default, requires a message.
- Rules.Validate: Joi validates a copy of a date or buffer made with `Object.create` on the same prototype. The model hands back the date itself, and for a stripped buffer a byte-less buffer; the copy's missing internal date value is not modelled. A buffer's index keys are taken as undeclared, which holds for every descriptor of the catalogue.
- Dictionaries.BeaconIff: it requires `major > minor` only when both are present. The `Joi.ref("minor")` behaviour when `minor` is absent is library semantics that the catalogue does not show.
- The top-level `.required()` on `certificatesSchema` only matters for an `undefined` document. The model's values have no `undefined`.
- The `schemaDebug` logging calls are diagnostics and are left out.
- The TypeScript interfaces are left out. They declare types and have no behaviour beyond the descriptors.
- Loading and signing of certificate material are not modelled. The model only checks that it is present.
- `dateToW3CString` is left out because it depends on the clock, the local timezone and `Date` parsing. Only `padMeTwo` is modelled.
- Padding.PadMeTwo: it takes a natural number. The source also accepts any string and any number, and those are left out. From `1e21` on, `String(n)` switches to exponent notation (`"1e+21"`), which the model's plain decimal notation does not follow; the callers in `dateToW3CString` pass date parts below 60.
- Padding.PadMeTwoLaws: for the same reason, the read-back law is stated for the plain decimal notation, which `String(n)` uses only below `1e21`.
- Rgb.IsValidRgb: it takes an `Option<string>`. The `typeof value !== "string"` guard against non-string arguments is outside the model's types.
- `Math.abs(Number(v))` on a channel is modelled as its decimal value. The regular expression admits only digits, so the two agree.
- Lower-casing in `getAllFilesWithName` is ASCII only. Unicode case mapping is left out.
- Buffers and UTF-8 encoding are left out. `generateStringFile` produces a character sequence, and bundle buffers are opaque byte sequences.
- FileNames.DeletePersonalization: it returns the bundle without the deleted keys. The source mutates its argument in place and returns nothing.
- `splitBufferBundle` writes `l10n[lang] || ...` on a plain object. A language named like an `Object.prototype` member (`constructor`, `__proto__`) would reach the inherited member, and that case is left out.
- The order of `Object.entries` and `Object.keys` is taken as given: it is the order of the input sequence.
- `path.sep` and `os.EOL` are parameters, not host lookups.

## Findings

| source | as written | input that shows it | evidently intended | confidence | as-written member | corrected member |
|---|---|---|---|---|---|---|
| src/schema.ts:562-564 | `schemas[name] \|\| undefined` also finds members inherited from `Object.prototype`; `isValid`/`getValidated` then call `.validate` on a function that lacks it and throw | `isValid({}, "toString")` | an unknown name gives `false` and `null` without an exception | not executed | `Validator.InheritedNameThrows` | `Validator.ResolveSchemaName` |
| src/utils.ts:107-108 | `replace(/"/g, '"')` replaces each quote with a quote, so a value's quote is copied verbatim and ends the quoted value early | `generateStringFile({ k: 'a"b' })` gives `"k" = "a"b";` | quotes in values escaped as `\"` so each line reads back | not executed | `StringsFile.QuoteBreaksLine` | `StringsFile.EscapedRoundTrip` |
