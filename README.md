# Offer signing for VARM — a Dafny model

This project models the signing logic of the VARM offer-signing service. A
customer opens an offer by its slug, reads the PDF and signs it. The
offer lives in an Airtable table, and signing must happen at most once.
The model covers:

- **Record mapping.** The back end maps an Airtable record to an offer in
  `transformAirtableRecord`. For each offer field it takes the value under
  the first present name of a priority list of alternative names, then
  applies the defaults, the coercion of the signed flag and the coercion of
  the amount. The web client has its own simpler mapping, which reads the
  exact camelCase keys only.
- **Reading and signing through Airtable.** Looking up an offer by slug,
  with the full-scan alternative behind an HTTP 422. The loop of
  `findRecordId` over the slug field names. The order of the early exits in
  both services' `signOffer`: 409, 422, and the fallback PATCH. Every HTTP
  exchange is a given response value.
- **Retry-guarded signing** (`signOfferWithConcurrencyControl`). At most
  three attempts. Each one re-reads the offer and signs it, and a retry
  follows only a 409 or 412 from the sign. There is also the generic
  `retryWithBackoff` loop, the conflict classifier `isConcurrencyError`,
  and the capped, jittered backoff. The collaborators are scripted
  sequences of responses. Jitter is a parameter. Sleeps become the list of
  delays the loop would have waited.
- **gs:// rewriting.** A Firebase Storage `gs://bucket/path` reference
  becomes an HTTPS download URL, on the back end (a regular expression) and
  on the client (a URL parser). `encodeURIComponent` and `new URL` are
  uninterpreted function parameters.
- **The development endpoints.** An in-memory store of three offers, kept
  as the class `MockApi.OfferStore`. Its `signOffer` mutates the store in
  place and can only move an offer from unsigned to signed. `getOffer`
  reads the store. The `api` router forwards `offer/<slug>` paths to them.

JavaScript field values are the datatype `JsValues.Value`:
`Bool | Num | Str | Null | Other`. An absent key of a `fields` map stands
for `undefined`. Truthiness follows `Boolean(v)`.

Modules, one file each:

- `js_values.dfy`: values and truthiness.
- `text.dfy`: string helpers with their algebra, such as split/join round
  trips and ASCII lower-casing.
- `download_urls.dfy`: the shared download-URL format.
- `storage_utils.dfy` and `firebase_storage.dfy`: the two rewriters.
- `api_types.dfy`: responses, configuration and Airtable records.
- `airtable_fields.dfy`: the field lookup and the amount coercion.
- `functions_airtable.dfy` and `client_airtable.dfy`: the two Airtable
  services.
- `concurrency_utils.dfy` and `concurrency_service.dfy`: the retry loops.
- `mock_api.dfy`: the development endpoints.

Where the code and its documentation differ, the model follows the code:

- The retry loop of `signOfferWithConcurrencyControl` decides on the status
  alone (409 or 412). It does not call `isConcurrencyError`.
  `ConcurrencyService.RetriedButNotClassified` exhibits a 409 that the loop
  retries but the classifier rejects.
- The back end's `processPdfUrl` is not "unchanged exactly when the input is
  not gs://". A gs:// reference without an object path is also returned
  unchanged (`StorageUtils.GsUrlWithoutPathUnchanged`). The client's
  version is stated precisely by
  `FirebaseStorage.ProcessPdfUrlUnchangedExactly`: a non-empty string comes
  back unchanged exactly when it is not gs:// or its conversion falls back.
- The client's and the back end's rewriters do not always agree, although
  both build the same URL format. The client encodes the pathname that
  `new URL` reports, and `new URL` has already percent-encoded it. The back
  end encodes the path as written. So a space in the path becomes "%2520" on
  the client (the expectation in src/test/firebaseStorage.test.ts:38-41) and
  "%20" on the back end (functions/src/utils/storageUtils.ts:22-31).
  `FirebaseStorage.VariantsDifferOnPercentEncodedPath` states the
  disagreement, and `FirebaseStorage.VariantsAgreeOnWellFormedGsUrls`
  states agreement only where the parser leaves the path unencoded.
- The mixed-case and signed-flag unit tests (src/test/schemaValidation.test.ts)
  call `__test__.transformAirtableRecord` on the client module, which has
  no such export. The only `__test__.transformAirtableRecord` in the
  repository is the copy of the back end's mapping in
  src/test/mocks/airtableService.mock.ts:33-104, exposed at line 111, which
  the tests were written against. That copy uses
  the same lists of names but does not rewrite the URL. On the tests'
  inputs (no URL, or an https URL) it agrees with the back end's mapping,
  so `FunctionsAirtable.MixedCaseKeysGiveDefaults` and
  `FunctionsAirtable.SignedFlagExamples` state the tests' expectations
  against the back end's mapping. The client's own mapping reads only the
  camelCase keys. On the string "false" the two disagree
  (`ClientAirtable.VariantsDisagreeOnFalseString`).

## Model

| member | source | states |
|---|---|---|
| StorageUtils.ProcessPdfUrl | functions/src/utils/storageUtils.ts:10-41 | "" gives ""; http(s) and non-gs input is returned unchanged; any changed result came from a gs:// input and has the download prefix and the `?alt=media` suffix |
| StorageUtils.MatchAt | functions/src/utils/storageUtils.ts:22-27 | a match at an index starts with gs://, has a non-empty bucket free of '/' followed by '/', and a non-empty one-line path, both taken from the text at that index |
| StorageUtils.FirstMatch | functions/src/utils/storageUtils.ts:22-23 | no result means the pattern matches at no index from the start on |
| StorageUtils.FirstMatchIsLeftmost | functions/src/utils/storageUtils.ts:22-23 | a result is the match at some index, with no match at any earlier index |
| StorageUtils.ConvertsGsUrl | functions/src/utils/storageUtils.ts:19-35 | gs://bucket/path, with a bucket free of '/' and a one-line path, becomes the download URL of exactly that bucket and path (the regular expression modelled as a leftmost greedy match) |
| StorageUtils.GsUrlWithoutPathUnchanged | functions/src/utils/storageUtils.ts:19-40 | a gs:// reference with no object path after the bucket ("gs://b", "gs://b/", "gs://") does not match and is returned unchanged |
| DownloadUrls.EncodeSingleSegment | functions/src/utils/storageUtils.ts:31 | a path with no '/' is encoded as one segment |
| DownloadUrls.EncodeAtFirstSlash | functions/src/utils/storageUtils.ts:31 | each '/' becomes exactly one "%2F" between the encodings of the text before and after it |
| DownloadUrls.PathSegments | functions/src/utils/storageUtils.ts:31 | the path splits into one more segment than it has '/', no segment holds a '/', and joining the segments with '/' gives the path back |
| DownloadUrls.DownloadUrlShape | functions/src/utils/storageUtils.ts:32 | every download URL starts with `https://firebasestorage.googleapis.com/v0/b/<bucket>/o/` and ends with `?alt=media` |
| DownloadUrls.DownloadUrlIsNotGs | src/utils/firebaseStorage.ts:42 | a download URL never starts with gs://, so a conversion never returns its own input |
| FirebaseStorage.ConvertGsUrlToDownloadUrl | src/utils/firebaseStorage.ts:13-52 | http(s) and non-gs input is returned unchanged; a parse failure or blank bucket returns the input; otherwise the download URL of the parsed host and the pathname without its leading '/' |
| FirebaseStorage.IsFirebaseStorageGsUrl | src/utils/firebaseStorage.ts:59-61 | a gs:// reference is a string starting with "gs://" |
| FirebaseStorage.ProcessPdfUrl | src/utils/firebaseStorage.ts:69-81 | falsy or non-string input gives ""; a gs:// string is converted; any other string is returned as it is |
| FirebaseStorage.ProcessPdfUrlUnchangedExactly | src/utils/firebaseStorage.ts:69-81 | a non-empty string comes back unchanged if and only if it is not gs:// or its conversion falls back |
| FirebaseStorage.GsRecognitionExamples | src/utils/firebaseStorage.ts:59-61 | `isFirebaseStorageGsUrl` accepts the gs:// strings of the unit tests |
| FirebaseStorage.NonGsRecognitionExamples | src/utils/firebaseStorage.ts:59-61 | `isFirebaseStorageGsUrl` rejects the http(s) URLs, the plain file name, "", null and the number of the unit tests |
| FirebaseStorage.BareSchemeUnchanged | src/utils/firebaseStorage.ts:28-36 | "gs://" maps to itself, whether the parser throws or reports an empty host |
| FirebaseStorage.ConvertsParsedPathname | src/utils/firebaseStorage.ts:28-44 | gs://bucket/path becomes the download URL of the bucket and of the pathname the parser reports, less its leading "/", when the parser reports the bucket as host |
| FirebaseStorage.VariantsAgreeOnWellFormedGsUrls | src/utils/firebaseStorage.ts:41-42 | on a well-formed gs:// reference the client and the back-end rewriters produce the same URL whenever the URL parser reports the bucket as host and "/<path>", unencoded, as pathname |
| FirebaseStorage.VariantsDifferOnPercentEncodedPath | src/utils/firebaseStorage.ts:41-42 | when the parser reports the path percent-encoded (a space as "%20") and encoding tells the two forms apart, the client and the back-end rewriters produce different URLs |
| AirtableFields.GetFieldValue | functions/src/services/airtableService.ts:42-49 | the loop returns the lookup's value: the value under the first present name, null if none is present |
| AirtableFields.FirstDefined | functions/src/services/airtableService.ts:42-49 | the value under the first name whose key is present, null if none is (its properties are the two lemmas below) |
| AirtableFields.FirstDefinedPicksFirstPresent | functions/src/services/airtableService.ts:42-49 | earlier names win: when name i is the first present one, its value is returned, whatever later names hold |
| AirtableFields.FirstDefinedAbsent | functions/src/services/airtableService.ts:42-49 | with no name present the lookup gives null |
| AirtableFields.OfferAmount | functions/src/services/airtableService.ts:52-61 | a number is kept; a string is parsed, with 0 when parsing fails; anything else, an absent value included, gives 0 |
| FunctionsAirtable.OfferFrom | functions/src/services/airtableService.ts:63-106 | throws exactly when the URL value is truthy and not a string; otherwise a truthy slug, customer name, email, address or notes value is kept and a falsy one gives record-<id>, "Unnamed Customer" or ""; the URL is the `processPdfUrl` rewrite of a truthy value, else "", and documentURL equals it; signedAt is absent exactly for null and otherwise is the looked-up value; isSigned and offerAmount are the coerced values |
| FunctionsAirtable.TransformAirtableRecord | functions/src/services/airtableService.ts:34-107 | the same facts, each field stated through the value under the first present name of its list: kept when truthy, else its default; the URL rewritten by `processPdfUrl` |
| FunctionsAirtable.TransformReadsOnlyKnownFields | functions/src/services/airtableService.ts:42-49 | keys are matched exactly: records that agree on the id and on every known field name map to the same offer |
| FunctionsAirtable.UnknownFieldsGiveDefaults | functions/src/services/airtableService.ts:63-106 | a record with none of the known names maps to the default offer (record-<id>, "Unnamed Customer", 0, "", unsigned) |
| FunctionsAirtable.MixedCaseKeysUnknown | src/test/schemaValidation.test.ts:156-185 | the mixed-case record of the unit test maps entirely to defaults |
| FunctionsAirtable.MixedCaseKeysGiveDefaults | src/test/schemaValidation.test.ts:156-185 | that record with id rec-mixed maps to slug "record-rec-mixed" and every other default |
| FunctionsAirtable.FallbackSlugOfMixedRecord | functions/src/services/airtableService.ts:64 | the fallback slug of id rec-mixed is "record-rec-mixed" |
| FunctionsAirtable.SignedFlagIgnoresCase | functions/src/services/airtableService.ts:79-84 | a string signed flag is judged by its lower-case form |
| FunctionsAirtable.CoerceSigned | functions/src/services/airtableService.ts:79-84 | a boolean flag as it is, a string by its lower-case spelling being true, yes or signed, anything else by truthiness |
| FunctionsAirtable.SignedFlagExamples | src/test/schemaValidation.test.ts:67-100 | booleans are kept; "true"/"yes"/"signed" in any case are signed, other strings are not; numbers and null follow truthiness; an absent flag is unsigned |
| FunctionsAirtable.FilterBySlug | functions/src/services/airtableService.ts:215-226 | the filtered records are exactly the records carrying the slug under one of the slug field names |
| FunctionsAirtable.MatchesSlug | functions/src/services/airtableService.ts:215-226 | a record matches when one of the slug field names holds exactly the slug |
| FunctionsAirtable.FirstMatchingIndex | functions/src/services/airtableService.ts:465-476 | the index found carries the slug and no earlier record does; none found means no record carries it |
| FunctionsAirtable.FilterHeadIsFirstMatch | functions/src/services/airtableService.ts:215-235 | the filter is non-empty exactly when the search finds a record, and its head is that record |
| FunctionsAirtable.GetOfferAlternative | functions/src/services/airtableService.ts:186-250 | data is returned only with status 200 and is the mapping of the first record carrying the slug; a failed fetch keeps its status; an empty table gives 404 "No offers found"; no match gives 404 "Offer not found"; a thrown fetch gives the 500 fetch error; a match gives the first matching record's offer with 200, or the 500 fetch error when its mapping throws |
| FunctionsAirtable.GetOffer | functions/src/services/airtableService.ts:116-183 | invalid configuration gives 500; the test slug gives 404 without a query; a 404 gives "Offer not found"; a 422 falls back to the full scan; any other failure or a failed fetch gives the 500 fetch error; no records gives the long 404 message; otherwise the first record's offer with 200, or the 500 fetch error when its mapping throws |
| FunctionsAirtable.ScanForRecordId | functions/src/services/airtableService.ts:443-484 | an id found by the scan belongs to a record carrying the slug in a successful fetch |
| FunctionsAirtable.FindRecordId | functions/src/services/airtableService.ts:412-489 | 1 to 5 filtered queries in the order of the slug names, each before the last without a hit; the first hit's first record gives the id; otherwise all five were tried and the full scan decides |
| FunctionsAirtable.ScanFindsMatchingRecord | functions/src/services/airtableService.ts:465-480 | the scan returns the id of the first record carrying the slug |
| FunctionsAirtable.SignOffer | functions/src/services/airtableService.ts:253-407 | early exits in order (config 500, failed read unchanged, signed 409, no id 422) with no PATCH; otherwise the full PATCH first and the date-less PATCH only after a 422 naming "Signed At" or UNKNOWN_FIELD_NAME; data with 200 exactly when an accepted PATCH answered; otherwise "Failed to sign offer: N" with the first status, or 500 |
| FunctionsAirtable.RetriesWithoutDate | functions/src/services/airtableService.ts:349 | a date-less retry follows exactly a 422 whose text names "Signed At" or UNKNOWN_FIELD_NAME |
| FunctionsAirtable.PatchedRecordReadsSigned | functions/src/services/airtableService.ts:308-314 | a record returned with the full patch applied maps to a signed offer dated as sent |
| ClientAirtable.TransformAirtableRecord | src/api/airtableService.ts:25-61 | slug and customer name are always truthy; a truthy slug, customerName or pdfUrl is kept; a falsy slug falls back to record-<id> or record-unknown, a falsy name to "Unnamed Customer" and a falsy URL to ""; isSigned is the truthiness of `isSigned`; signedAt is the `signedAt` value, present exactly when the key is; the amount is coerced |
| ClientAirtable.VariantsAgreeOnCamelCaseRecord | src/api/airtableService.ts:53-55 | a record with the camelCase slug, customerName and offerAmount keys and none of the back end's earlier names gets the same slug, customer name and amount from the client and the back end |
| ClientAirtable.ReadsOnlyCamelCaseKeys | src/api/airtableService.ts:25-61 | records that agree on the id and on the six camelCase keys map to the same offer |
| ClientAirtable.VariantsDisagreeOnFalseString | src/api/airtableService.ts:57 | the string "false" is signed for the client but unsigned for the back end |
| ClientAirtable.ConfigError | src/api/airtableService.ts:63-70 | no error exactly when base id and key are both set; the base id is checked first |
| ClientAirtable.GetOffer | src/api/airtableService.ts:79-124 | configuration errors give 500 with their message; data exactly for a valid configuration and a non-empty answer, mapped from its first record; 404 or no records gives "Offer not found"; other statuses give "Airtable API error: N" with 500; a thrown error gives 500 with its message |
| ClientAirtable.SignOffer | src/api/airtableService.ts:128-204 | a failed read is returned unchanged and a signed offer gives 409, both before any lookup or PATCH; the PATCH is sent exactly when the lookup found a record; find and update failures give 500 with their status in the message; a thrown lookup or PATCH gives 500 with its message |
| ClientAirtable.PatchedRecordReadsSigned | src/api/airtableService.ts:170-176 | a record with the client's patch applied reads as signed at the time sent, on both the client and the back end |
| ConcurrencyUtils.BackoffBaseBounds | functions/src/services/concurrencyUtils.ts:23-27 | the base delay is positive, at most 1000, and at least 200 from the first attempt on |
| ConcurrencyUtils.BackoffBase | functions/src/services/concurrencyUtils.ts:23-27 | the delay before jitter, min(1000, 200 · 1.5^(attempt-1)) (its properties are the lemmas around it) |
| ConcurrencyUtils.BackoffBaseMonotone | functions/src/services/concurrencyUtils.ts:23-27 | the base delay never decreases with the attempt number |
| ConcurrencyUtils.BackoffBaseSchedule | functions/src/services/concurrencyUtils.ts:23-27 | bases 200, 300, 450, 675, then the cap of 1000 from attempt 5 on |
| ConcurrencyUtils.Round | functions/src/services/concurrencyUtils.ts:31 | the result lies within half a unit of its argument |
| ConcurrencyUtils.Jitter | functions/src/services/concurrencyUtils.ts:29-30 | the jitter drawn from a random value in [0, 1) is non-negative and below 30% of the delay it is added to |
| ConcurrencyUtils.CalculateBackoff | functions/src/services/concurrencyUtils.ts:23-32 | the delay is the base plus up to 30% jitter, rounded: between base-0.5 and 1.3·base+0.5, hence from 0 to 1300, and at least 200 from attempt 1 on |
| ConcurrencyUtils.RetryWithBackoff | functions/src/services/concurrencyUtils.ts:41-64 | 1 to 3 calls; the last call's outcome is returned, a rejection included; every earlier call succeeded with a result to be retried; fewer than 3 calls and a result means it was not to be retried; one backoff delay between consecutive calls |
| ConcurrencyUtils.NoErrorIsNoConflict | functions/src/services/concurrencyUtils.ts:74 | an absent or empty error is never a conflict, whatever the status |
| ConcurrencyUtils.ConflictIgnoresCase | functions/src/services/concurrencyUtils.ts:76 | the classification of a text equals that of its lower-case form |
| ConcurrencyUtils.ConflictStatusRules | functions/src/services/concurrencyUtils.ts:77-83 | 412 with any non-empty error is a conflict; 409 is one if and only if the text names a conflict phrase or "already" |
| ConcurrencyUtils.IsConcurrencyError | functions/src/services/concurrencyUtils.ts:71-84 | a present error whose lower-case text names a conflict phrase, or a 409 saying "already", or any 412 (its properties are the lemmas around it) |
| ConcurrencyUtils.ConflictPhrases | functions/src/services/concurrencyUtils.ts:77-80 | a text containing "record modified", "conflict" or "concurrent" is a conflict under any status |
| ConcurrencyService.SignBaseDelay | functions/src/services/concurrencyService.ts:76-79 | the base delay lies between 200 and 1000 |
| ConcurrencyService.SignDelay | functions/src/services/concurrencyService.ts:76-81 | the delay lies between the base and 1.3 times the base |
| ConcurrencyService.SignDelaySchedule | functions/src/services/concurrencyService.ts:75-85 | the two possible sleeps are based on 200 and 400, so they lie in [200, 260] and [400, 520] |
| ConcurrencyService.SignOfferWithConcurrencyControl | functions/src/services/concurrencyService.ts:27-93 | 1 to 3 reads, each attempt before the last conflicted; a failed read is returned unchanged, with no sign in that attempt; a signed offer gives 409 with no sign; a non-conflict sign is returned as is; three conflicts give the exhausted 409; one delay after each attempt but the last |
| ConcurrencyService.RetriedButNotClassified | functions/src/services/concurrencyService.ts:64-66 | a 409 whose text names no conflict is retried by the loop, yet `isConcurrencyError` rejects it |
| ConcurrencyService.SignsAtFirstAttempt | functions/tests/concurrencyService.test.ts:18-46 | an unsigned offer signed at once: one read, one sign, 200 |
| ConcurrencyService.RefusesSignedOffer | functions/tests/concurrencyService.test.ts:48-66 | an offer read as signed: 409 "This offer has already been signed", one read, no sign |
| ConcurrencyService.RetriesAfterConflict | functions/tests/concurrencyService.test.ts:68-110 | a conflict and then success: two reads, two signs, 200 |
| ConcurrencyService.GivesUpAfterThreeConflicts | functions/tests/concurrencyService.test.ts:112-135 | conflicts every time: three reads, three signs, the exhausted 409 |
| MockApi.InitialOffersConsistent | functions/src/index.ts:31-54 | every seeded offer is stored under its own slug and has a signing time exactly when signed |
| MockApi.GetOffer | functions/src/index.ts:59-103 | a missing or empty slug gives 400; a stored slug gives 200 with its offer; any other slug gives 404 |
| MockApi.SignRequest | functions/src/index.ts:108-179 | a method other than POST gives 405 and a missing slug 400, both leaving the store as it was; a POST with a slug signs as `SignSlugIn` does for that slug |
| MockApi.SignSlugIn | functions/src/index.ts:136-169 | an absent slug gives 404 and a signed offer 409, with the store unchanged; otherwise only that entry changes, to a copy with isSigned true and signedAt the time given, and the response carries it with 200 |
| MockApi.NonPostIgnoresStore | functions/src/index.ts:111-117 | any method other than POST gets the same answer from every store and changes nothing |
| MockApi.SignKeepsConsistent | functions/src/index.ts:157-163 | signing keeps every offer under its own slug and keeps "signed exactly when dated" |
| MockApi.SignIsMonotone | functions/src/index.ts:147-163 | no offer appears or disappears; a signed offer stays exactly as it was; every offer either stays as it was or is signed afterwards |
| MockApi.SignTwiceConflicts | functions/src/index.ts:147-163 | signing a stored slug a second time gives 409 and changes nothing |
| MockApi.Router | functions/src/index.ts:198-222 | POST on offer/…/sign goes to sign and GET on offer/… goes to get, both with `api/offer/<path.split('/')[1]>`; everything else is a 404 naming the path |
| MockApi.RouteSlugOfOfferPath | functions/src/index.ts:206-211 | the router's slug is the text between "offer/" and the next '/' |
| MockApi.RouteSlug | functions/src/index.ts:206-211 | the router's slug never holds a '/', and is empty for a path without one |
| MockApi.GetSlug | functions/src/index.ts:62 | a parameter is present exactly when a slug is; a parameter starting with api/offer/ gives the rest of it |
| MockApi.SignSlug | functions/src/index.ts:119-120 | a slug is found exactly when the parameter has at least two '/', and it holds no '/' |
| MockApi.ForwardedSlugsRoundTrip | functions/src/index.ts:207-212 | the rewritten parameters give both handlers back the router's slug |
| MockApi.OfferStore.constructor | functions/src/index.ts:31-54 | the store starts with the three seeded offers |
| MockApi.OfferStore.SignOffer | functions/src/index.ts:108-179 | the response and the new store contents are those of `SignRequest`, and the store stays consistent |
| MockApi.OfferStore.Api | functions/src/index.ts:198-222 | routes as `Router` says, then answers as `SignRequest` (changing the store as it does) or as `GetOffer`/404 (leaving the store unchanged) |
| MockApi.RoutedSignReachesSlug | functions/src/index.ts:204-208 | POST offer/<slug>/sign through the router signs the offer stored under that slug |
| MockApi.RoutedGetReachesSlug | functions/src/index.ts:209-213 | GET offer/<slug> through the router answers with the offer stored under that slug, or 404 |
| MockApi.SignThenGetShowsSigned | functions/src/index.ts:157-163 | after a successful signature a read of the same slug shows the offer signed at the time given |

## Left out

- Network I/O is not modelled. `fetch`, the Airtable REST URLs and headers,
  JSON parsing of bodies, CORS handling and the logger are replaced by given
  response values or dropped.
- Sleeps and the simulated network delays are not modelled. The retry loops
  return the delays they would sleep instead.
- `Math.random`, `parseFloat`, `encodeURIComponent`, `new URL` and the
  clock (`new Date()`) are parameters. Dates are given strings.
- Floating point is not modelled: numbers are reals. NaN is not a value; a
  failed `parseFloat` is `None`.
- Case folding: `toLowerCase` is modelled on ASCII letters only.
- Time: `ConcurrencyService.SignOfferWithConcurrencyControl`,
  `ConcurrencyUtils.RetryWithBackoff` and `FunctionsAirtable.FindRecordId`
  model the sequential control flow against scripted answers. Real
  concurrent writers and atomicity are Airtable's.
- The `details` field of error responses is not modelled (it carries
  diagnostics only).
- The throw of `transformAirtableRecord` on a null record is not modelled:
  records are always values here.
- `getAllOffers` and `createOffer` are not modelled. They are pass-through
  list and create calls with no decisions beyond those of the modelled
  operations.
- The `ping` endpoint is not modelled (it returns a time stamp).
- The catch-all 500 "Internal server error" of the development endpoints is
  not modelled. Nothing in the modelled handlers can throw.
- MockApi.GetOffer: a slug naming an inherited property of a JavaScript
  object (such as "constructor") is found by `mockOffers[slug]`. The store
  here is a map and holds such a key only if it was stored.
- Strings are sequences of Unicode scalar values here, while JavaScript
  strings are sequences of UTF-16 code units. For text with characters
  outside the Basic Multilingual Plane the indices of `substring(1)`, of
  the regular expression and of `split` differ from JavaScript's.
- The validity filter of the offers page, the React UI, the auth middleware
  and the Express handlers are not part of this model.
