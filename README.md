# qa-test-result-service, modelled in Dafny

The service records automated test results. Each result is one document
(`TestMethodResult`). It is keyed by a store id and belongs to a run (`runId`)
of a tenant (`iata`). This project models the core of the service:

- **Run index.** `GetDistinctRunIdsByIataPaged` is the MongoDB aggregation
  `$match iata` → `$group runId` → `$sort _id desc` → `$skip page*size` →
  `$limit size` → `$project`. It is written as a pure function built from one
  function per stage (module `Aggregation`). After `$group`, the sort key `_id`
  is the runId itself. So the order is descending runId order: strings compared
  by code point, which is MongoDB's UTF-8 byte order, with a null runId last
  (module `BsonOrder`). The pipeline reads `docs`, the collection in store
  order. `DocumentOrderIsIrrelevant` proves that this order does not affect the
  result, and `RunIndexOfStore` ties `docs` to the service's stored documents.
- **Repository and service.** The collection is a `map<string, TestMethodResult>`
  (module `Repository`). The six derived finders are set comprehensions over it.
  The lookups are functions of the map (module `Service`): the three unfiltered
  ones fail with `NotFound` on an empty match, and the three status-filtered
  ones pass empty results through. Create, update and delete are methods of the
  class `Service.TestMethodResultService`, which holds the map.
- **Controller.** Module `Controller` models the `status` query parameter:
  null or blank means no filter; otherwise trim, upper-case, and accept only
  PASS, FAIL or SKIP, with `BadRequest` for anything else. It also models the
  dispatch of the three query endpoints, the run-id endpoint (page clamped at
  0, size fixed at 10) and creation.
- **Mapper.** Module `ControllerMapper` holds the field-for-field copies between
  request/response bodies (module `Dto`) and the entity (module `Model`), with
  null preserved.

Nullable Java references are `Option` values (module `Wrappers`). The two
exceptions are values of `Errors.Error`: `NotFound` is the 404 response of
`ResourceNotFoundException`, and `BadRequest` is the 400 response of
`IllegalArgumentException`.

One might expect the run index to be newest first by store id. The code sorts
on the group key (`TestMethodResultService.java:114-115`), which is the runId,
and the model follows the code. `Service.ExampleOrderFollowsRunId` shows runs
created as R2, R10, R1 listed as R2, R10, R1.

The source files `model/FailureDetail.java` and `dto/TestMethodResultResponse.java`
are not part of this model. Their fields are taken from the builder calls in
`ControllerMapper.java`.

## Model

| member | source | states |
|---|---|---|
| BsonOrder.StrLessIsLexicographic | src/main/java/aero/airfi/qa/service/TestMethodResultService.java:115 | the runId order `StrLess` is lexicographic: a proper prefix, or smaller at the first differing character |
| BsonOrder.KeyLess | src/main/java/aero/airfi/qa/service/TestMethodResultService.java:115 | nothing sorts below a null runId, null sorts below every string, and two strings compare by `StrLess` |
| BsonOrder.StrLessIrreflexive | src/main/java/aero/airfi/qa/service/TestMethodResultService.java:115 | no runId sorts before itself |
| BsonOrder.StrLessTransitive | src/main/java/aero/airfi/qa/service/TestMethodResultService.java:115 | the string order on runIds is transitive |
| BsonOrder.StrLessTotal | src/main/java/aero/airfi/qa/service/TestMethodResultService.java:115 | any two different runIds are ordered one way or the other |
| BsonOrder.KeyLessIrreflexive | src/main/java/aero/airfi/qa/service/TestMethodResultService.java:115 | the group-key order (null below every string) is irreflexive |
| BsonOrder.KeyLessTransitive | src/main/java/aero/airfi/qa/service/TestMethodResultService.java:115 | the group-key order is transitive |
| BsonOrder.KeyLessTotal | src/main/java/aero/airfi/qa/service/TestMethodResultService.java:115 | the group-key order is total |
| Aggregation.Match | src/main/java/aero/airfi/qa/service/TestMethodResultService.java:113 | `$match` keeps exactly the documents whose iata equals the argument |
| Aggregation.Group | src/main/java/aero/airfi/qa/service/TestMethodResultService.java:114 | `$group` yields each runId of its input exactly once and nothing else |
| Aggregation.InsertDesc | src/main/java/aero/airfi/qa/service/TestMethodResultService.java:115 | inserting a key into a strictly descending list keeps it strictly descending and adds exactly that key |
| Aggregation.SortDesc | src/main/java/aero/airfi/qa/service/TestMethodResultService.java:115 | `$sort` descending yields a strictly descending list of the same keys |
| Aggregation.DescendingUnique | src/main/java/aero/airfi/qa/service/TestMethodResultService.java:115 | a set of keys has only one strictly descending arrangement, so the sorted output is determined by the keys alone |
| Aggregation.DescendingIsDistinct | src/main/java/aero/airfi/qa/service/TestMethodResultService.java:114-115 | a strictly descending list has no repeated key |
| Aggregation.SkipDropsPrefix | src/main/java/aero/airfi/qa/service/TestMethodResultService.java:116 | `$skip n` (`Skip`) leaves the last max(N-n, 0) entries of its input |
| Aggregation.LimitKeepsPrefix | src/main/java/aero/airfi/qa/service/TestMethodResultService.java:117 | `$limit n` (`Limit`) is the prefix of length min(N, n) |
| Aggregation.PageIndexing | src/main/java/aero/airfi/qa/service/TestMethodResultService.java:116-117 | a page (`Page`), i.e. `$skip index*size` then `$limit size`, is the slice starting at index*size, at most size long, and empty when the skip passes the end |
| Aggregation.PageOfDescending | src/main/java/aero/airfi/qa/service/TestMethodResultService.java:115-117 | a page of a descending list is descending, at most size long, and drawn from the list |
| Aggregation.PagesArePrefix | src/main/java/aero/airfi/qa/service/TestMethodResultService.java:116-117 | pages 0..k-1 concatenated are the first k*size entries |
| Aggregation.PageEmptyExactlyBeyondLast | src/main/java/aero/airfi/qa/service/TestMethodResultService.java:116-117 | a page is empty exactly when its index is at least ceil(N/size) |
| Aggregation.AllPagesAreWhole | src/main/java/aero/airfi/qa/service/TestMethodResultService.java:116-117 | the first ceil(N/size) pages concatenated are the whole list |
| Aggregation.DistinctPagesDisjoint | src/main/java/aero/airfi/qa/service/TestMethodResultService.java:116-117 | two different pages of a repetition-free list share no entry |
| Repository.FindByRunIdAndIata | src/main/java/aero/airfi/qa/repository/TestMethodResultRepository.java:11 | answers stored documents only; a stored document is in it exactly when its runId and iata match |
| Repository.FindByRunIdAndSuiteTypeAndIata | src/main/java/aero/airfi/qa/repository/TestMethodResultRepository.java:12 | answers stored documents only; a stored document is in it exactly when its runId, suiteType and iata match |
| Repository.FindByRunIdAndFeatureNameAndIata | src/main/java/aero/airfi/qa/repository/TestMethodResultRepository.java:13 | answers stored documents only; a stored document is in it exactly when its runId, featureName and iata match |
| Repository.FindByRunIdAndStatusAndIata | src/main/java/aero/airfi/qa/repository/TestMethodResultRepository.java:14 | answers stored documents only; a stored document is in it exactly when its runId, status and iata match |
| Repository.FindByRunIdAndSuiteTypeAndStatusAndIata | src/main/java/aero/airfi/qa/repository/TestMethodResultRepository.java:15 | answers stored documents only; a stored document is in it exactly when its runId, suiteType, status and iata match |
| Repository.FindByRunIdAndFeatureNameAndStatusAndIata | src/main/java/aero/airfi/qa/repository/TestMethodResultRepository.java:16 | answers stored documents only; a stored document is in it exactly when its runId, featureName, status and iata match |
| Repository.FindersStayInTenantAndRun | src/main/java/aero/airfi/qa/repository/TestMethodResultRepository.java:11-16 | every finder returns only stored documents with the requested runId and iata |
| Repository.StatusFiltersNarrow | src/main/java/aero/airfi/qa/repository/TestMethodResultRepository.java:11-16 | each of the three status finders returns a subset of its counterpart without the status filter, every document with that status |
| Repository.CombinedFindersAreIntersections | src/main/java/aero/airfi/qa/repository/TestMethodResultRepository.java:12-16 | suite+status and feature+status are the intersections of the single-filter finders |
| Repository.FindAfterDelete | src/main/java/aero/airfi/qa/repository/TestMethodResultRepository.java:11 | deleting a key removes exactly that key's document from a finder's answer |
| Repository.FindAfterSave | src/main/java/aero/airfi/qa/repository/TestMethodResultRepository.java:11-16 | a saved document is in the answer of each of the six finders whose filters it matches |
| Service.GetAllTestResults | src/main/java/aero/airfi/qa/service/TestMethodResultService.java:40-42 | returns every stored document and only those |
| Service.GetTestResultById | src/main/java/aero/airfi/qa/service/TestMethodResultService.java:44-46 | present exactly when the id is stored, and then that document |
| Service.GetTestResultsByRunId | src/main/java/aero/airfi/qa/service/TestMethodResultService.java:48-55 | NotFound with the run/iata message exactly when no stored document matches; otherwise exactly the matches |
| Service.GetTestResultsByRunIdAndSuiteType | src/main/java/aero/airfi/qa/service/TestMethodResultService.java:57-64 | NotFound exactly when no document matches run, suite and iata; otherwise exactly the matches |
| Service.GetTestResultsByRunIdAndSuiteTypeAndStatus | src/main/java/aero/airfi/qa/service/TestMethodResultService.java:66-70 | never fails; the suite matches that have the status, possibly none |
| Service.GetTestResultsByRunIdAndFeatureName | src/main/java/aero/airfi/qa/service/TestMethodResultService.java:72-79 | NotFound exactly when no document matches run, feature and iata; otherwise exactly the matches |
| Service.GetTestResultsByRunIdAndFeatureNameAndStatus | src/main/java/aero/airfi/qa/service/TestMethodResultService.java:81-85 | never fails; the feature matches that have the status, possibly none |
| Service.GetTestResultsByRunIdAndStatus | src/main/java/aero/airfi/qa/service/TestMethodResultService.java:87-90 | never fails; the run matches that have the status, possibly none |
| Service.GetDistinctRunIdsByIataPaged | src/main/java/aero/airfi/qa/service/TestMethodResultService.java:109-124 | at most max(size,1) runIds, strictly descending, no repeats, each the runId of some document of the tenant |
| Service.ListingIsTenantRunIds | src/main/java/aero/airfi/qa/service/TestMethodResultService.java:113-115 | the unpaged listing (`RunIdListing`, `$match`, `$group`, `$sort`) holds each of the tenant's runIds once, strictly descending |
| Service.PagedIsPageOfListing | src/main/java/aero/airfi/qa/service/TestMethodResultService.java:110-118 | each result is page max(page,0) of the listing with size max(size,1) |
| Service.ArgumentsAreClamped | src/main/java/aero/airfi/qa/service/TestMethodResultService.java:110-111 | a negative page behaves as page 0, a size below 1 as size 1 |
| Service.RunIndexOfStore | src/main/java/aero/airfi/qa/service/TestMethodResultService.java:109-120 | over any enumeration of the service's stored documents, the index lists the runIds of the tenant's stored documents, and every enumeration gives the same page |
| Service.DocumentOrderIsIrrelevant | src/main/java/aero/airfi/qa/service/TestMethodResultService.java:112-120 | the listing and every page depend only on which documents are stored, not their order |
| Service.PagesAreDisjoint | src/main/java/aero/airfi/qa/service/TestMethodResultService.java:116-118 | two different non-negative pages share no runId |
| Service.ConsecutivePagesArePages | src/main/java/aero/airfi/qa/service/TestMethodResultService.java:116-118 | fetching pages 0..k-1 one by one gives the pages of the listing |
| Service.ConsecutivePagesArePrefix | src/main/java/aero/airfi/qa/service/TestMethodResultService.java:116-118 | pages 0..k-1 concatenated are the first k*max(size,1) runIds of the listing |
| Service.PagesEnumerateEveryRunId | src/main/java/aero/airfi/qa/service/TestMethodResultService.java:116-118 | pages 0..ceil(N/size)-1 concatenated are the whole descending listing; a page is empty exactly from index ceil(N/size) on |
| Service.TenantWithoutRunsHasNoPages | src/main/java/aero/airfi/qa/service/TestMethodResultService.java:113 | a tenant without documents gets an empty page for every page and size |
| Service.ExampleListing | src/main/java/aero/airfi/qa/service/TestMethodResultService.java:113-115 | runs R1, R2, R3 of tenant AA (next to one of BB) are listed R3, R2, R1 |
| Service.ExamplePages | src/main/java/aero/airfi/qa/service/TestMethodResultService.java:109-119 | with size 2 those runs come as [R3, R2], [R1], [] |
| Service.ExampleOrderFollowsRunId | src/main/java/aero/airfi/qa/service/TestMethodResultService.java:114-115 | runs created as R2, R10, R1 plus a null runId are listed R2, R10, R1, null: runId order, not creation order |
| Service.TestMethodResultService.constructor | src/main/java/aero/airfi/qa/service/TestMethodResultService.java:26-29 | the service starts over a given, well-keyed collection |
| Service.TestMethodResultService.CreateTestResult | src/main/java/aero/airfi/qa/service/TestMethodResultService.java:31-38 | save: the document gets its own id or a fresh generated one and is stored under it; nothing else changes |
| Service.TestMethodResultService.UpdateTestResult | src/main/java/aero/airfi/qa/service/TestMethodResultService.java:92-99 | present id: stores the document with its id set to that id and returns it; absent id: NotFound and the store unchanged; other keys untouched |
| Service.TestMethodResultService.DeleteTestResult | src/main/java/aero/airfi/qa/service/TestMethodResultService.java:101-107 | present id: removes only that key; absent id: NotFound and the store unchanged |
| Service.CreatedResultIsFound | src/main/java/aero/airfi/qa/service/TestMethodResultService.java:31-55 | after a save, the run lookup of the document's run and tenant succeeds and contains it |
| Service.DeletedResultIsGone | src/main/java/aero/airfi/qa/service/TestMethodResultService.java:101-107 | after a delete the id is not found, and the run lookup fails exactly when the deleted document was its only match |
| Controller.IsWhitespace | src/main/java/aero/airfi/qa/controller/TestMethodResultController.java:67 | every ASCII whitespace character is at or below U+0020; the no-break spaces U+00A0, U+2007 and U+202F are not whitespace |
| Controller.IsBlank | src/main/java/aero/airfi/qa/controller/TestMethodResultController.java:67 | a blank ASCII value trims to the empty string |
| Controller.TrimStart | src/main/java/aero/airfi/qa/controller/TestMethodResultController.java:68 | drops exactly the leading characters at or below U+0020 |
| Controller.TrimEnd | src/main/java/aero/airfi/qa/controller/TestMethodResultController.java:68 | drops exactly the trailing characters at or below U+0020 |
| Controller.Trim | src/main/java/aero/airfi/qa/controller/TestMethodResultController.java:68 | a trimmed value is empty or starts and ends above U+0020 |
| Controller.UpperChar | src/main/java/aero/airfi/qa/controller/TestMethodResultController.java:68 | never yields a lower-case ASCII letter; maps a-z onto A-Z in order and leaves every other character alone |
| Controller.ToUpper | src/main/java/aero/airfi/qa/controller/TestMethodResultController.java:68 | same length, each character upper-cased, no lower-case ASCII letter left |
| Controller.Normalize | src/main/java/aero/airfi/qa/controller/TestMethodResultController.java:68 | the normalized value has no surrounding characters at or below U+0020 and no lower-case ASCII letter |
| Controller.AllowedStatusesAreAccepted | src/main/java/aero/airfi/qa/controller/TestMethodResultController.java:69 | each of the allowed values PASS, FAIL and SKIP is already normalized and is accepted unchanged |
| Controller.InvalidStatusMessage | src/main/java/aero/airfi/qa/controller/TestMethodResultController.java:70 | the message quotes the value exactly as sent, before trimming and upper-casing |
| Controller.TrimKeepsTrimmed | src/main/java/aero/airfi/qa/controller/TestMethodResultController.java:68 | trimming an already trimmed value changes nothing |
| Controller.UpperCharProperties | src/main/java/aero/airfi/qa/controller/TestMethodResultController.java:68 | upper-casing a character is idempotent and does not change whether it is trimmed |
| Controller.ToUpperIdempotent | src/main/java/aero/airfi/qa/controller/TestMethodResultController.java:68 | upper-casing twice is upper-casing once |
| Controller.NormalizedStatus | src/main/java/aero/airfi/qa/controller/TestMethodResultController.java:66-72 | no filter exactly for null or blank; otherwise the trimmed upper-cased value if it is PASS, FAIL or SKIP; BadRequest with the source's message exactly for the other non-blank values |
| Controller.NormalizeIdempotent | src/main/java/aero/airfi/qa/controller/TestMethodResultController.java:68 | normalizing twice (trim, then upper-case) is normalizing once |
| Controller.AcceptedStatusIsStable | src/main/java/aero/airfi/qa/controller/TestMethodResultController.java:68-69 | an accepted value, sent again, is accepted unchanged |
| Controller.StatusExamplesAccepted | src/main/java/aero/airfi/qa/controller/TestMethodResultController.java:68-69 | "pass", " Pass " and "PASS" all select PASS |
| Controller.StatusExamplesNotAccepted | src/main/java/aero/airfi/qa/controller/TestMethodResultController.java:66-71 | whitespace only selects no filter; "passed" and U+0000 (not blank, but trimmed away) are rejected |
| Controller.GetAllTestResults | src/main/java/aero/airfi/qa/controller/TestMethodResultController.java:60-86 | BadRequest exactly when the status is invalid; no filter calls the NotFound-on-empty run lookup; a valid status calls the status lookup, which never fails; every response has the path's iata and runId, and the chosen status |
| Controller.GetBySuiteType | src/main/java/aero/airfi/qa/controller/TestMethodResultController.java:88-115 | the same rule for the suite lookups; every response has the iata, runId and suite, and the chosen status |
| Controller.GetByFeatureName | src/main/java/aero/airfi/qa/controller/TestMethodResultController.java:117-144 | the same rule for the feature lookups; every response has the iata, runId and feature, and the chosen status |
| Controller.SameStatusRuleOnEveryEndpoint | src/main/java/aero/airfi/qa/controller/TestMethodResultController.java:66-130 | the three query endpoints reject exactly the same status values |
| Controller.GetRunIds | src/main/java/aero/airfi/qa/controller/TestMethodResultController.java:146-166 | payload page is 0 when the parameter is missing and max(page,0) otherwise, and size 10; its runIds are that page of the descending listing, at most 10 |
| Controller.CreateTestResult | src/main/java/aero/airfi/qa/controller/TestMethodResultController.java:39-58 | stores the mapped request under the generated id and answers with that id; nothing else changes |
| Controller.CreateThenGetRoundTrip | src/main/java/aero/airfi/qa/controller/TestMethodResultController.java:39-77 | after a create, the run endpoint lists a response that echoes every request field, with the path's iata and the new id |
| ControllerMapper.ToEntity | src/main/java/aero/airfi/qa/controller/ControllerMapper.java:18-37 | the entity's iata is the path value and its id is unset |
| ControllerMapper.ToResponse | src/main/java/aero/airfi/qa/controller/ControllerMapper.java:39-59 | the response carries the entity's id and iata |
| ControllerMapper.ToEnvironment | src/main/java/aero/airfi/qa/controller/ControllerMapper.java:61-70 | null exactly for a null environment; otherwise all five fields copied unchanged |
| ControllerMapper.ToEnvironmentDto | src/main/java/aero/airfi/qa/controller/ControllerMapper.java:72-81 | null exactly for a null environment; otherwise all five fields copied unchanged |
| ControllerMapper.ToFailures | src/main/java/aero/airfi/qa/controller/ControllerMapper.java:83-93 | null exactly for a null list; otherwise the same length |
| ControllerMapper.ToFailureDtos | src/main/java/aero/airfi/qa/controller/ControllerMapper.java:95-105 | null exactly for a null list; otherwise the same length |
| ControllerMapper.EnvironmentRoundTrip | src/main/java/aero/airfi/qa/controller/ControllerMapper.java:61-81 | environment translation is inverted by the opposite translation, in both directions, null included |
| ControllerMapper.FailuresRoundTrip | src/main/java/aero/airfi/qa/controller/ControllerMapper.java:83-105 | failure-list translation is inverted by the opposite translation (same length, order and fields), in both directions, null included |
| ControllerMapper.FailuresCopiedFieldwise | src/main/java/aero/airfi/qa/controller/ControllerMapper.java:85-92 | each translated failure carries its source's four fields |
| ControllerMapper.ResponseKeepsEveryField | src/main/java/aero/airfi/qa/controller/ControllerMapper.java:39-59 | the entity can be read back from its response: every field, id and iata included, is copied unchanged |
| ControllerMapper.ToResponseInjective | src/main/java/aero/airfi/qa/controller/ControllerMapper.java:39-59 | different entities have different responses |
| ControllerMapper.CreateEchoesRequest | src/main/java/aero/airfi/qa/controller/ControllerMapper.java:18-59 | the response of the entity built from a request has every request field unchanged, iata equal to the path value, and no id |

## Left out

- MongoDB connection-pool settings and timeouts (`config/MongoConfig.java`).
  They tune I/O resources and hold no logic.
- OpenAPI metadata (`config/OpenApiConfig.java`). It is static description only.
- The client library (`client-lib`). It does HTTP and JSON (de)serialization.
  Its URLs also lack the `{iata}` segment the server routes on.
- The response envelope (`ApiResponse`). Timestamps from `Instant.now()`,
  request paths, `Location` headers and logging are I/O. The handlers return
  only the data. Errors are values, not ProblemDetail bodies
  (`exception/GlobalExceptionHandler.java`). `MethodNotAllowed` (405) comes from
  routing and is not modelled.
- Store id generation. `ObjectId` creation is outside the code. It is the
  `generatedId` parameter, which must be a key not yet in use.
- Store-native result order. Finders return sets, so list order and duplicate
  list entries are not modelled. The run index reads the collection as any
  sequence and is proved order-independent.
- Aliasing and in-place mutation of entity objects. `updateTestResult` calls
  `setId` on the caller's object; the model builds a new value. Lists are
  shared between DTO and entity in Java; here they are values.
- Null parameters at the service level. Every caller passes non-null run,
  suite, feature, status and iata values, so parameters are `string`.
- The `results == null` checks in the service. The repository never returns
  null.
- `Controller.NormalizedStatus`: upper-casing is modelled for the ASCII letters
  a–z only. Java's locale-dependent `toUpperCase` also maps some non-ASCII
  letters: U+017F becomes S and U+0131 becomes I, so "ſkip" is accepted by
  Java and rejected here; under a Turkish locale "skip" becomes "SKİP" and is
  rejected by Java.
- Integer widths. `page` and `size` are Java `int`s. The skip is computed as
  `(long) pageIndex * pageSize`, which cannot overflow, so unbounded integers
  give the same result. `durationMs` is only copied.
- String order. MongoDB compares strings by their UTF-8 bytes, and the model
  compares characters. A Dafny `char` is a Unicode scalar value, and UTF-8 byte
  order is code-point order, so the two orders are the same for every string.
  Only non-default collations, which the repository does not configure, would
  differ.
- Null elements inside lists. A request or stored document whose `failures`
  list holds a null element makes `toFailures`/`toFailureDtos` throw a
  NullPointerException (`ControllerMapper.java:87` and `:99`). The model's lists
  cannot hold null, so that error path is not modelled. Null strings inside
  `jiraTestCases`, `logs` and `screenshotUrls` are not modelled either; Java
  copies them through unchanged.
- Controller.CreateThenGetRoundTrip: the store model returns every `Instant`
  exactly. MongoDB stores an `Instant` as a BSON date with millisecond
  precision (`MongoConfig.java:64` keeps the default converter). So a
  `startTime` or `endTime` with sub-millisecond digits is read back truncated,
  and "every request field unchanged" holds only for millisecond-precision
  times.
- Service.CreatedResultIsFound: for the same reason, the document found after a
  save equals the saved one only when its times have millisecond precision.
