# Insurance affiliates: a verified model

This project models the core of the insurance-affiliates application. The application
registers affiliates: people enrolled in an insurance plan. For each one it stores the age
and an annual fee tier, both derived at registration, and it serves a paginated listing.
The model covers both sides of the application.

**API (NestJS + Mongoose):**
- `AffiliateSchema`: the affiliate schema, with its validators, the unique index on `dni`
  and the `fullName` virtual.
- `AffiliatesHelpers`: the pure rules, which are the age of a birth date, the fee tier of an
  age and the listing projection. A birth date that is not a valid date gives age 0, not
  an error.
- `AffiliatesService`: the service, with `findAll` for pagination and `create` for
  registration.

**Web client (React):**
- `ApiErrors`: the response classifier `handleApiResponse` and the `ApiError` it throws.
- `ApiClient`: the query string that `getAffiliates` builds.
- `AffiliatesTable`: the table component, which covers the page count, the page-link window
  with its ellipsis markers, the Previous/Next guards and the DNI search box.
- `UseGetAffiliates` and `UseRegisterAffiliate`: the two hooks, as state machines.

Three support modules model the ECMAScript and date-library behaviour the core depends on:
- `JsText`: `String.prototype.trim`, `includes`, and the decimal form of an integer.
- `Calendar`: calendar dates, whole-year differences and `toISOString`.
- `Wrappers`: `Option`.

The code states its operations in the following forms:
- **Pure code** becomes functions, and lemmas about them.
- **Stateful code** becomes classes whose methods are proved against those functions:
  - the service's collection;
  - the search box;
  - the two hooks.
- **Loops** become methods with loop invariants: the three `for` loops of `getPageNumbers`
  are loops with invariants in `GetPageNumbers`. The successive `params.set` calls in
  `getAffiliates` become successive `SetParam` assignments in `GetAffiliatesParams`.
- **The clock** is a parameter: the current instant `now` is passed in.
- **Network calls** are parameters too: the outcome of a fetch is passed in, as a settled
  promise.

The model follows the code wherever it differs from what the repository's tests expect:
- **Duplicate `dni`.** The controller tests (apps/api/tests/affiliates/affiliates.controller.spec.ts,
  lines 187-252) expect a duplicate-key error to become a conflict. The code has no such
  classifier, so the model shows a duplicate `dni` as the raw unique-index rejection from
  `save()`.
- **Listing filter.** The service tests (apps/api/tests/affiliates/affiliates.service.spec.ts,
  lines 124-154) call a `findMany` with a DNI filter. The API's `findAll` has no DNI filter.
- **Hook extras.** The hook tests use `setFilter` on the listing hook
  (apps/web/tests/hooks/useGetAffiliates.test.ts, lines 170-210) and `validationErrors` on
  the registration hook (apps/web/tests/hooks/useRegisterAffiliate.test.ts, lines 46-163).
  Neither hook has them.

## Model

| member | source | states |
|---|---|---|
| AffiliatesHelpers.CalculateUsdAnnualFee | apps/api/src/modules/affiliates/affiliates.helpers.ts:20-26 | the fee is always one of 15, 20, 25, 30 |
| AffiliatesHelpers.FeeTiers | apps/api/src/modules/affiliates/affiliates.helpers.ts:20-26 | each fee holds exactly on its age band: 15 for 0..50, 20 for 51..70, 25 for 71..90, and 30 for negative ages or 91 and over (both directions) |
| AffiliatesHelpers.FeeMonotone | apps/api/src/modules/affiliates/affiliates.helpers.ts:20-26 | over non-negative ages an older affiliate never pays a lower fee |
| AffiliatesHelpers.FeeBoundaries | apps/api/src/modules/affiliates/affiliates.helpers.ts:21-25 | the fee changes between 50 and 51, 70 and 71, 90 and 91, and -1 pays 30 |
| AffiliatesHelpers.AgeFromBornDate | apps/api/src/modules/affiliates/affiliates.helpers.ts:12-18 | an invalid birth date has age 0; for a birth date not after now, the age is non-negative, its anniversary is not after now and the next one is; for a later birth date, the age is not positive and counts the whole years back from the birth date to now, truncated toward zero |
| AffiliatesHelpers.AgeOfInvalidDate | apps/api/src/modules/affiliates/affiliates.helpers.ts:12-14 | a birth date that is not a calendar date has age 0 |
| AffiliatesHelpers.AgeIsCompletedYears | apps/api/src/modules/affiliates/affiliates.helpers.ts:12-18 | for a birth date not after now, the age is the unique number of anniversaries passed: the age-th is not after now and the next one is |
| AffiliatesHelpers.NegativeAgeIff | apps/api/src/modules/affiliates/affiliates.helpers.ts:16-17 | the year difference, truncated toward zero, is negative exactly when the birth date is at least a year after now |
| AffiliatesHelpers.ListingProjection | apps/api/src/modules/affiliates/affiliates.helpers.ts:3-10 | a listed document has exactly `_id` plus firstName, lastName, fullName, dni, age and usdAnnualFee (no phone, gender or birth date), with the stored values |
| Calendar.WholeYearsIsAnniversaryCount | apps/api/src/modules/affiliates/affiliates.helpers.ts:16-17 | the whole-year difference from one date to a later one is non-negative, and it is the only count whose anniversary is not after the later date while the next anniversary is |
| AffiliateSchema.FullNameOf | apps/api/src/modules/affiliates/schemas/affiliate.schema.ts:38-40 | fullName is the first name, then one space, then the last name, and nothing else |
| AffiliateSchema.FullNameRoundTrip | apps/api/src/modules/affiliates/schemas/affiliate.schema.ts:38-40 | fullName is first name, a space, last name; when the first name has no space, splitting at the first space gives the two names back |
| AffiliateSchema.Project | apps/api/src/modules/affiliates/schemas/affiliate.schema.ts:10-40 | a projection holds exactly the requested paths plus `_id`, which an inclusion projection always returns, each with the document's value, fullName as the virtual |
| AffiliateSchema.FailingPaths | apps/api/src/modules/affiliates/schemas/affiliate.schema.ts:10-34 | a path is reported exactly when its validator fails; fullName is never validated |
| AffiliateSchema.SchemaValidMeans | apps/api/src/modules/affiliates/schemas/affiliate.schema.ts:10-34 | a document validates exactly when the four required strings are non-empty, gender is M or F, age and fee are null or at least 0, and the birth date is a calendar date |
| AffiliatesService.SaveOutcome | apps/api/src/modules/affiliates/schemas/affiliate.schema.ts:10-34 | a document is stored exactly when it validates and neither its `_id` nor its dni is taken; a validation error lists exactly the failing paths; a duplicate-key error only follows validation, and names `_id` or dni exactly when that index is hit first |
| AffiliatesService.SaveKeepsStoreInvariant | apps/api/src/modules/affiliates/schemas/affiliate.schema.ts:21-22 | appending a document that save accepts keeps `_id` and dni unique and every document valid |
| AffiliatesService.Registered | apps/api/src/modules/affiliates/affiliates.service.ts:52-57 | the document built from the request keeps its names, dni, phone, gender and birth date, gets the given `_id`, the age of its birth date at now, and the fee of that age |
| AffiliatesService.Listed | apps/api/src/modules/affiliates/affiliates.service.ts:25-30 | the listing holds one projected document per stored document, in collection order |
| AffiliatesService.FetchPage | apps/api/src/modules/affiliates/affiliates.service.ts:25-30 | skip then limit: no documents past the end, otherwise min(limit, remaining), and entry i is stored document skip + i, projected |
| AffiliatesService.SkipNumber | apps/api/src/modules/affiliates/affiliates.service.ts:23 | the documents skipped before a page plus one page's worth equal page times limit |
| AffiliatesService.FindAllPage | apps/api/src/modules/affiliates/affiliates.service.ts:19-49 | page, limit and the total are echoed; the items are the page's slice, never more than limit; hasPrev exactly when the page is after the first; hasNext exactly when documents remain after this page (page times limit is below the total) |
| AffiliatesService.SecondPageOfThree | apps/api/src/modules/affiliates/affiliates.service.ts:19-49 | page 2 at limit 5 over 15 documents holds 5 documents and has both a previous and a next page |
| AffiliatesService.PagesFromCover | apps/api/src/modules/affiliates/affiliates.service.ts:23-30 | reading consecutive pages from an offset returns every document from that offset on, once, in order |
| AffiliatesService.PagesPartitionStore | apps/api/src/modules/affiliates/affiliates.service.ts:19-49 | paging from page 1 to the end returns the whole collection exactly once, in order |
| AffiliatesService.CreateSucceedsIff | apps/api/src/modules/affiliates/affiliates.service.ts:51-61 | with a fresh `_id`, a registration is stored exactly when the required fields are non-empty, gender is M or F, the birth date is a calendar date less than a year in the future (the age is then not negative) and the dni is free |
| AffiliatesService.DuplicateDniRejected | apps/api/src/modules/affiliates/schemas/affiliate.schema.ts:21-22 | a valid registration with a fresh `_id` whose dni is already stored is refused by the unique dni index |
| AffiliatesService.RegistrationExample | apps/api/src/modules/affiliates/affiliates.service.ts:51-61 | Juan Pérez, born 1975-10-06 and registered on 2025-10-06, is stored with age 50, fee 15 and full name "Juan Pérez" |
| AffiliatesService.AffiliatesService.constructor | apps/api/src/modules/affiliates/affiliates.service.ts:14-17 | the service starts over an empty collection with its default page size |
| AffiliatesService.AffiliatesService.Save | apps/api/src/modules/affiliates/schemas/affiliate.schema.ts:8-40 | save runs the validators, then the unique `_id` index, then the unique dni index; only a document that passes all three is appended; the collection keeps unique `_id`s, unique dnis and valid documents |
| AffiliatesService.AffiliatesService.Create | apps/api/src/modules/affiliates/affiliates.service.ts:51-61 | create saves once the request with its derived age and fee under a fresh `_id`, which the `_id` index never refuses; a stored document's fee is the fee of its age, a refused one changes nothing, and "every fee matches its age" is preserved |
| AffiliatesService.AffiliatesService.FindAll | apps/api/src/modules/affiliates/affiliates.service.ts:19-49 | with page 1 and the default limit for omitted arguments, the result is the page FindAllPage describes over the current collection |
| ApiErrors.NewApiError | apps/web/src/lib/api/error.ts:6-16 | an ApiError carries the given message, status and validation errors, and is named "ApiError" |
| ApiErrors.HandleApiResponse | apps/web/src/lib/api/error.ts:18-46 | a body is returned exactly for a 2xx response whose body parses, and it is that body; parsing throws exactly when a body that must be read (2xx, or declared JSON) does not parse; an ApiError is thrown only for a non-2xx response, with its status |
| ApiErrors.ErrorMessage | apps/web/src/hooks/useGetAffiliates.ts:27 | the text a hook records is the message of an Error, or the string form of any other thrown value |
| ApiErrors.OkReturnsBody | apps/web/src/lib/api/error.ts:18-46 | a 2xx response with a JSON body yields that body |
| ApiErrors.NotOkThrowsApiError | apps/web/src/lib/api/error.ts:18-43 | a non-2xx response never yields a body; it throws an ApiError with its status exactly when its body is not declared JSON or parses |
| ApiErrors.BadRequestCarriesValidationErrors | apps/web/src/lib/api/error.ts:27-36 | a 400 with a truthy JSON message throws that message with the body's errors, or an empty list |
| ApiErrors.ValidationErrorsOnlyForBadRequest | apps/web/src/lib/api/error.ts:27-42 | validation errors are attached only to a 400 whose JSON body has a truthy message, and then the message is the body's |
| ApiErrors.OtherFailureMessage | apps/web/src/lib/api/error.ts:38-42 | every other failure throws the body's truthy message, or "Request failed with status N", with no validation errors |
| ApiErrors.BodyIgnoredWithoutJsonContentType | apps/web/src/lib/api/error.ts:20-25 | a failed response not declaring JSON is classified the same whatever its body |
| ApiErrors.NotFoundExample | apps/web/src/lib/api/error.ts:38-42 | a 404 with an HTML body throws "Request failed with status 404" |
| ApiErrors.CaughtMessage | apps/web/src/lib/api/error.ts:18-43 | a caller awaiting a readable failed response catches the body's truthy message or "Request failed with status N"; the "Validation error" fallback can never be reached |
| ApiErrors.FulfilledIffOk | apps/web/src/lib/api/error.ts:18-46 | the awaited call fulfils exactly for a 2xx response with a parsable body, and with that body |
| JsText.Trim | apps/web/src/lib/api/index.ts:15-16 | trim removes leading and trailing whitespace only: the result is empty exactly for an all-whitespace text, and otherwise starts and ends with a non-whitespace character |
| JsText.TrimIsInfix | apps/web/src/lib/api/index.ts:15-16 | the trimmed text is a contiguous part of the original, with only whitespace cut on either side |
| JsText.TrimIdempotent | apps/web/src/lib/api/index.ts:15-16 | trimming twice is trimming once |
| JsText.IncludesIffOccurs | apps/web/src/lib/api/error.ts:23 | includes holds exactly when the substring occurs at some position |
| JsText.NatToString | apps/web/src/lib/api/index.ts:12-13 | the decimal text of a number is non-empty and all digits, has one digit exactly below 10, and starts with 0 only for 0 itself |
| JsText.NatToStringRoundTrip | apps/web/src/lib/api/index.ts:12-13 | the decimal text of a number is all digits and reads back as the number |
| ApiClient.SetParam | apps/web/src/lib/api/index.ts:12-16 | after set, the key reads the new value and every other key reads as before |
| ApiClient.SetParamAppends | apps/web/src/lib/api/index.ts:12-16 | setting a name not yet present appends the pair at the end |
| ApiClient.GetAffiliatesParams | apps/web/src/lib/api/index.ts:6-17 | the successive set calls produce exactly the query: page, limit, then the filter when it is sent |
| ApiClient.HasDniFilterIffNotBlank | apps/web/src/lib/api/index.ts:15 | the filter is sent exactly when it is present and not all whitespace |
| ApiClient.PageAndLimitAlwaysSent | apps/web/src/lib/api/index.ts:6-13 | page and limit are always sent, as 1 and 20 when omitted |
| ApiClient.DniFilterSentTrimmed | apps/web/src/lib/api/index.ts:15-17 | filterByDni is sent exactly for a non-blank filter, and then as the trimmed text, non-empty with no whitespace at either end |
| ApiClient.NoOtherParams | apps/web/src/lib/api/index.ts:11-17 | no parameter other than page, limit and filterByDni is ever sent |
| ApiClient.QueryParamsOrder | apps/web/src/lib/api/index.ts:11-17 | the parameters come in the order page, limit, filterByDni, and there are 3 exactly when the filter is sent |
| AffiliatesTable.TotalPages | apps/web/src/components/affiliates/AffiliatesTable.tsx:47 | the number of pages is the ceiling: the pages hold every item and the last page is not empty |
| AffiliatesTable.TotalPagesExamples | apps/web/src/components/affiliates/AffiliatesTable.tsx:47 | 10 items at 5 per page fill 2 pages, 11 need 3, none need 0 |
| AffiliatesTable.GetPageNumbers | apps/web/src/components/affiliates/AffiliatesTable.tsx:72-110 | the pushed entries are exactly the page window for the page count and current page |
| AffiliatesTable.WindowShape | apps/web/src/components/affiliates/AffiliatesTable.tsx:72-110 | at most 7 entries, each a page between 1 and the page count or a marker -1/-2; at most 5 entries only when there are at most 5 pages |
| AffiliatesTable.WindowOrdered | apps/web/src/components/affiliates/AffiliatesTable.tsx:72-110 | page numbers strictly increase along the bar, so the page links' keys (`key={pageNum}`) are distinct, and the two ellipsis markers are distinct values |
| AffiliatesTable.EllipsisMarksGaps | apps/web/src/components/affiliates/AffiliatesTable.tsx:83-106 | adjacent page numbers are consecutive, and a marker always sits between two pages at least two apart |
| AffiliatesTable.WindowShowsEndsAndCurrent | apps/web/src/components/affiliates/AffiliatesTable.tsx:72-110 | with at least one page, the bar starts at page 1, ends at the last page, and shows the current page |
| AffiliatesTable.MiddleWindowExample | apps/web/src/components/affiliates/AffiliatesTable.tsx:97-106 | page 5 of 10 shows 1, ellipsis, 4, 5, 6, ellipsis, 10 |
| AffiliatesTable.PaginationShownIff | apps/web/src/components/affiliates/AffiliatesTable.tsx:168 | with a positive limit, the pagination bar is shown exactly when the items do not fit on one page |
| AffiliatesTable.PrevClick | apps/web/src/components/affiliates/AffiliatesTable.tsx:173 | Previous asks for a page exactly when there is a previous page, and then for the page before the current one |
| AffiliatesTable.NextClick | apps/web/src/components/affiliates/AffiliatesTable.tsx:202 | Next asks for a page exactly when there is a next page, and then for the page after the current one |
| AffiliatesTable.GuardsStayWithinListing | apps/web/src/components/affiliates/AffiliatesTable.tsx:172-204 | Previous moves exactly when the page is after the first and Next exactly when it is before the last; Previous never offers a page below 1 and Next never one past the page count; while the current page is within the listing, both offer a page between 1 and the page count (a page past the end makes Previous offer a page past the end too) |
| AffiliatesTable.SearchBox.constructor | apps/web/src/components/affiliates/AffiliatesTable.tsx:45 | the search text starts empty |
| AffiliatesTable.SearchBox.Type | apps/web/src/components/affiliates/AffiliatesTable.tsx:122 | typing replaces the search text |
| AffiliatesTable.SearchBox.HandleSearch | apps/web/src/components/affiliates/AffiliatesTable.tsx:50-54 | searching emits the text as typed, untrimmed, when a handler is given, and nothing otherwise |
| AffiliatesTable.SearchBox.HandleKeyPress | apps/web/src/components/affiliates/AffiliatesTable.tsx:65-69 | Enter searches (even while the button is disabled); any other key emits nothing |
| AffiliatesTable.SearchBox.HandleClearFilter | apps/web/src/components/affiliates/AffiliatesTable.tsx:57-62 | clearing empties the text, emits the empty filter when a handler is given, and leaves Search disabled |
| AffiliatesTable.SearchDisabledIffBlank | apps/web/src/components/affiliates/AffiliatesTable.tsx:130 | the Search button is disabled exactly when the text is all whitespace |
| UseGetAffiliates.EmptyListing | apps/web/src/hooks/useGetAffiliates.ts:6-13 | the initial listing has no rows, total 0, both flags false, and echoes the initial page and limit |
| UseGetAffiliates.ListingRequest | apps/web/src/hooks/useGetAffiliates.ts:23 | the hook's request sends exactly page and limit, never a DNI filter |
| UseGetAffiliates.AffiliatesListing.constructor | apps/web/src/hooks/useGetAffiliates.ts:5-17 | initial page 1 and limit 5 by default; empty listing, no error, not loading, stored page and limit are the initial ones, no request yet |
| UseGetAffiliates.AffiliatesListing.FetchAffiliates | apps/web/src/hooks/useGetAffiliates.ts:19-23 | starting a fetch sets loading, clears the error, keeps the data and sends page and limit (the initial ones when omitted) |
| UseGetAffiliates.AffiliatesListing.Complete | apps/web/src/hooks/useGetAffiliates.ts:22-30 | a success replaces the data with the response's data; a failure records its message and keeps the data; loading ends either way |
| UseGetAffiliates.AffiliatesListing.Fetch | apps/web/src/hooks/useGetAffiliates.ts:19-31 | an uninterrupted fetch ends not loading, with the new data and no error on success, or the old data and the message on failure |
| UseGetAffiliates.AffiliatesListing.Mount | apps/web/src/hooks/useGetAffiliates.ts:33-35 | mounting fetches the stored page and limit |
| UseGetAffiliates.AffiliatesListing.Refetch | apps/web/src/hooks/useGetAffiliates.ts:37-41 | supplied arguments overwrite the stored page and limit, omitted ones keep the last stored values, and that pair is fetched |
| UseGetAffiliates.AffiliatesListing.SetPage | apps/web/src/hooks/useGetAffiliates.ts:43-45 | setting a page fetches it with the last stored limit |
| UseRegisterAffiliate.RequestBodyOf | apps/web/src/hooks/useRegisterAffiliate.ts:16-19 | building the body throws "Invalid time value" exactly for a Date holding no valid time; otherwise the body equals the input in every field but the birth date |
| UseRegisterAffiliate.BodyKeepsInput | apps/web/src/hooks/useRegisterAffiliate.ts:16-19 | the body is the input with a string birth date: a string passes through, a valid Date becomes its ISO string, and only an invalid Date throws "Invalid time value" |
| UseRegisterAffiliate.BodyBirthDateRoundTrip | apps/web/src/hooks/useRegisterAffiliate.ts:18 | a Date in years 0..9999 is sent as a 24-character ISO string that reads back as the same date |
| UseRegisterAffiliate.Registration.constructor | apps/web/src/hooks/useRegisterAffiliate.ts:6-9 | not loading, no error, no data, no success |
| UseRegisterAffiliate.Registration.Begin | apps/web/src/hooks/useRegisterAffiliate.ts:12-14 | an attempt starts loading, with the error cleared and success reset, and the data kept |
| UseRegisterAffiliate.Registration.Finish | apps/web/src/hooks/useRegisterAffiliate.ts:21-32 | a success stores the response and sets success; a failure records its message, clears success, keeps the data and rethrows the same reason; loading ends either way |
| UseRegisterAffiliate.Registration.Register | apps/web/src/hooks/useRegisterAffiliate.ts:11-33 | register settles like the request (or with the RangeError, sending nothing); a success leaves data, success and no error, even after an earlier failure; a failure leaves the message, no success and the old data |

## Left out

- I/O: the HTTP transport (`fetch`, the base URL, `JSON.stringify`, `URLSearchParams` percent-encoding) is not modelled. Each call's outcome is a parameter of the method that awaits it.
- Mongo I/O: the model stores the collection as an in-memory sequence in insertion order.
- The `timestamps` option is not modelled.
- `lean({ virtuals: true })` is modelled only by its effect, which is that the projection includes `fullName`.
- apps/api/src/constants is not part of this model. `PAGINATE_DEFAULT_LIMIT` becomes the service constructor's `defaultLimit`.
- AffiliatesService.AffiliatesService.FindAll: requires a page and a limit of at least 1. A page below 1 (a negative skip) and a limit of 0 or below are not modelled. The controller calls `findAll()` without arguments, so only the defaults are ever used.
- `Promise.all` of the count and the page: the model reads both from the same collection state. A concurrent write between the two queries is not modelled.
- AffiliatesHelpers.AgeFromBornDate: dates are calendar dates in one time zone, with no time of day. The model does not capture dayjs's month-length clamping when a 29 February anniversary falls in a non-leap year.
- The current instant is a parameter (`now`), not a clock read.
- AffiliatesTable.TotalPages: takes a positive limit. Floating-point division, and `Math.ceil` for a limit of 0, are not modelled.
- Numbers are integers throughout; JavaScript's floating-point numbers, `NaN` and fractions are not modelled.
- Rendering is not modelled: the table rows, class names, the active-page highlight and the keys of the pagination items.
- The hooks' `console.error` logging is not modelled.
- React scheduling and out-of-order responses: a fetch is an atomic start step and an atomic completion step. Completions of overlapping fetches may be applied in any order, and nothing guards against a stale one. The model therefore states what each step does, not which response wins.
- UseGetAffiliates.AffiliatesListing.Complete: assumes that a fulfilled body carries its page under `data`. A body without `data` (which would store `undefined`) is not modelled.
- UseRegisterAffiliate.RequestBodyOf: a `Date` is a calendar date at midnight UTC. The JavaScript time-value range (±275760 years) is not modelled.
- The registration form (zod schema, react-hook-form) is not modelled, and neither is the phone input.
- The request DTO's class-validator decorators are not modelled.
- The controller only forwards to the service, so it is not modelled.
- AffiliatesService.AffiliatesService.Create: the service imports the age helper as `ageFromBirthDate` (apps/api/src/modules/affiliates/affiliates.service.ts:7), but the helpers file exports only `ageFromBornDate` (apps/api/src/modules/affiliates/affiliates.helpers.ts:12). As written the import does not resolve: the build fails type checking, and without it `create` throws a `TypeError`. The model departs from the code here and calls `AgeFromBornDate`, the evidently intended helper.
- AffiliateSchema.Project: requires a non-empty set of paths. An empty projection `{}`, which returns the whole document, is not modelled; the only projection the service uses is the listing's.
- The DNI listing filter, a duplicate-key conflict error, a `setFilter` on the listing hook and `validationErrors` on the registration hook do not exist in the code, so they are not modelled.
- The `_id` ObjectId is modelled as a natural number that grows with each document `create` builds, whether or not it is stored. Its 12-byte hexadecimal form and timestamp are not modelled, and neither is its JSON string form, which the web client's `AffiliateRow.id` receives.
- AffiliatesService.SaveOutcome: when a document breaks both unique indexes, the model reports the `_id` index. Which index MongoDB reports first is not modelled.
- AffiliatesService.AffiliatesService.Save: requires a document whose `_id` the service has handed out, as every document built by `create` is. Saving a document with an arbitrary client-chosen `_id` is not modelled.
