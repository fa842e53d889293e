# Kudos: a verified model of the request contract and the code around it

Kudos is a small web application in which one user thanks another with a
short message and one of three categories ("Great Job", "Thank You",
"Teamwork"). A shared library defines the record type and the validation
schemas. The backend validates requests against those schemas and stores
kudos in an SQLite table, and the frontend shows a feed of the newest
twenty. This Dafny project models the logic of that exchange and proves
properties of it:

- `kudos_types.dfy` (`KudosTypes`): the closed category tuple, the
  `KudosCategory` type and the six-field `Kudos` record.
- `kudos_schema.dfy` (`KudosSchema`): the four schemas as decisions over
  raw input. The sender header, the create body and the list query each
  have a parse function. A parse returns the normalised value (the message
  trimmed, the limit and offset defaulted) or the names of the fields that
  failed. The DTO schema is a predicate, `IsKudosDto`, with its datetime
  check `IsIsoDateTime`.
- `kudos_service.dfy` (`KudosService`): the two request handlers. The
  repository is injected as two functions whose result is a value or a
  thrown error. Each handler returns its status and body together with the
  repository calls it made.
- `db_schema.dfy` (`DbSchema`): the `kudos` table's rows, the SQL category
  list, the category check constraint, the primary key and the integrity
  invariant of the table.
- `kudos_repository.dfy` (`KudosRepository`): `mapRowToKudosDto`. The
  table is modelled as a class holding its rows in insertion order. It has
  the insert, `createKudos` (an append) and `listKudos` (newest first, then
  `OFFSET`, then `LIMIT`). The order that SQLite picks among rows with equal
  timestamps is a parameter: it must be a newest-first arrangement of the
  rows.
- `kudos_api.dfy` (`KudosApi`): the client's constants and the error it
  throws for a non-ok response. Also the fallback chain that picks that
  error's message, the ok/non-ok branching of both requests, and how each
  handler's answer reaches the client.
- `create_kudos_mutation.dfy` (`CreateKudosMutation`): the provisional
  kudos and the `setQueryData` updater. A class models the query cache
  entry of the feed. Its methods `OnMutate`, `OnError` and `OnSettled`
  follow the mutation's lifecycle.
- `js_strings.dfy` (`JsStrings`) and `js_date.dfy` (`JsDate`): the parts of
  the JavaScript runtime the code relies on. These are:
  - `String.prototype.trim`;
  - string length in UTF-16 code units;
  - `Number()` on decimal strings;
  - `Date.prototype.toISOString` and reading its result back.

  `wrappers.dfy` holds `Option` and `Result`.

The nondeterministic inputs are parameters:
- `crypto.randomUUID()` and `unixepoch()` for a new row;
- `Date.now()` and `new Date()` for the provisional kudos;
- the engine's tie order for `ORDER BY`.

## Model

| member | source | states |
|---|---|---|
| `KudosTypes.CategoriesInOrder` | libs/shared/src/types/kudos.ts:1 | there are exactly three categories: 'Great Job', 'Thank You', 'Teamwork', in that order |
| `KudosTypes.CategoriesDistinct` | libs/shared/src/types/kudos.ts:1 | no category is listed twice |
| `KudosTypes.CategoryMembership` | libs/shared/src/types/kudos.ts:3 | a string is a `KudosCategory` exactly when it is one of the three labels |
| `JsStrings.Trim` | libs/shared/src/schemas/kudos.schema.ts:10 | `trim()` yields a string with no JS whitespace at either end, never longer than its input |
| `JsStrings.TrimIsInfix` | libs/shared/src/schemas/kudos.schema.ts:10 | `trim()` only removes whitespace: the result is a contiguous piece of the input, with whitespace alone before and after it |
| `JsStrings.TrimmedIsFixed` | libs/shared/src/schemas/kudos.schema.ts:10 | a string with no whitespace at either end is left unchanged by `trim()` |
| `JsStrings.TrimIdempotent` | libs/shared/src/schemas/kudos.schema.ts:10 | trimming twice gives the same result as trimming once |
| `JsStrings.TrimEmptyIffAllWhitespace` | libs/shared/src/schemas/kudos.schema.ts:10 | `trim()` gives the empty string exactly when the input is all whitespace (both directions) |
| `JsStrings.Utf16LengthBounds` | libs/shared/src/schemas/kudos.schema.ts:10 | the `.length` that `min`/`max` measure is at least the number of characters and at most twice it |
| `JsStrings.Utf16LengthOfBmp` | libs/shared/src/schemas/kudos.schema.ts:10 | for characters of the basic multilingual plane `.length` is the number of characters |
| `JsStrings.DecimalStringRoundTrip` | libs/shared/src/schemas/kudos.schema.ts:14-17 | the canonical decimal rendering of a natural number reads back as that number |
| `JsStrings.PadRoundTrip` | apps/backend/src/db/kudos.repository.ts:15 | a zero-padded field of `toISOString` reads back as the number it renders |
| `JsStrings.SignedDecimal` | libs/shared/src/schemas/kudos.schema.ts:14-17 | a number is read exactly from digits with an optional sign, and from nothing else |
| `JsStrings.NumberFromString` | libs/shared/src/schemas/kudos.schema.ts:14-17 | `Number(s)` of an empty or all-whitespace string is 0 |
| `JsStrings.NumberIgnoresSurroundingWhitespace` | libs/shared/src/schemas/kudos.schema.ts:14-17 | `Number` ignores surrounding whitespace: every string coerces to what its trim coerces to |
| `JsStrings.NumberOfTrimmed` | libs/shared/src/schemas/kudos.schema.ts:14-17 | on a trimmed non-empty string `Number` is the signed decimal reading, or no integer |
| `JsStrings.NumberOfDecimalString` | libs/shared/src/schemas/kudos.schema.ts:14-17 | `Number` of the decimal rendering of n is n |
| `JsStrings.NumberOfNegatedDecimalString` | libs/shared/src/schemas/kudos.schema.ts:16 | `Number` of '-' followed by the decimal rendering of n is -n |
| `JsDate.CivilFromDays` | apps/backend/src/db/kudos.repository.ts:15 | the calendar date of a day count is a valid Gregorian date that maps back to the same day count, with a four-digit year inside the range |
| `JsDate.FieldsOf` | apps/backend/src/db/kudos.repository.ts:15 | the UTC fields of an instant are in range and give back the instant |
| `JsDate.RenderIso` | apps/backend/src/db/kudos.repository.ts:15 | `toISOString` lays the fields out as `YYYY-MM-DDTHH:mm:ss.sssZ` in 24 characters, each zero-padded |
| `JsDate.IsoString` | apps/backend/src/db/kudos.repository.ts:15 | `toISOString` of an instant in range is 24 characters long |
| `JsDate.ParseRenderIso` | apps/backend/src/db/kudos.repository.ts:15 | reading back a rendered timestamp gives the instant of its fields |
| `JsDate.IsoStringRoundTrip` | apps/backend/src/db/kudos.repository.ts:15 | `new Date(d.toISOString())` is `d`: rendering an instant and reading it back is the identity |
| `KudosSchema.ParseSenderIdHeader` | libs/shared/src/schemas/kudos.schema.ts:4-6 | the header is accepted exactly when present and a UUID, and is then returned unchanged; an absent header fails on `senderId` |
| `KudosSchema.UuidFixtures` | apps/backend/tests/main.unit.spec.ts:40-58 | the ids the tests use are UUIDs and 'not-a-uuid' is not |
| `KudosSchema.ParseUuidField` | libs/shared/src/schemas/kudos.schema.ts:9 | `receiverId` is accepted exactly when it is a UUID string, unchanged |
| `KudosSchema.ParseMessage` | libs/shared/src/schemas/kudos.schema.ts:10 | the message is trimmed before the bounds apply: accepted exactly when the trimmed length is in [1, 500], and the parsed value is the trimmed string |
| `KudosSchema.ParseCategory` | libs/shared/src/schemas/kudos.schema.ts:11 | the category is accepted exactly when it is one of the three labels |
| `KudosSchema.ParseCreateKudosBody` | libs/shared/src/schemas/kudos.schema.ts:8-12 | a body is accepted exactly when it is an object whose three fields all pass; an accepted body has a UUID receiver and a trimmed 1-500 message |
| `KudosSchema.BodyIssuesNameFailedFields` | libs/shared/src/schemas/kudos.schema.ts:8-12 | a rejected body's issues name exactly the fields that failed, or the whole value when it is not an object |
| `KudosSchema.ReparseAcceptedBody` | libs/shared/src/schemas/kudos.schema.ts:8-12 | an accepted body, sent again as JSON, parses to itself |
| `KudosSchema.ParseIsIdempotent` | libs/shared/src/schemas/kudos.schema.ts:8-12 | parsing the result of a successful parse gives that same result |
| `KudosSchema.MessageRejections` | libs/shared/src/schemas/kudos.schema.ts:10 | an empty or all-whitespace message is rejected, and so is one longer than 500 once trimmed |
| `KudosSchema.RepeatedLetterMessage` | libs/shared/src/schemas/kudos.schema.ts:10 | n letters 'a' are accepted exactly when 1 <= n <= 500, so '' and 501 letters are rejected |
| `KudosSchema.ParseLimit` | libs/shared/src/schemas/kudos.schema.ts:15 | an absent limit is 20; otherwise it is accepted exactly when it coerces to an integer in [1, 100], which is then the value |
| `KudosSchema.ParseOffset` | libs/shared/src/schemas/kudos.schema.ts:16 | an absent offset is 0; otherwise it is accepted exactly when it coerces to a safe integer of at least 0, which is then the value |
| `KudosSchema.ParseListKudosQuery` | libs/shared/src/schemas/kudos.schema.ts:14-17 | a query is accepted exactly when both fields are; then 1 <= limit <= 100 and offset >= 0; issues name exactly the failing fields |
| `KudosSchema.DecimalLimit` | libs/shared/src/schemas/kudos.schema.ts:15 | a decimal limit n is accepted, as n, exactly when 1 <= n <= 100 |
| `KudosSchema.DecimalOffset` | libs/shared/src/schemas/kudos.schema.ts:16 | a decimal offset n is accepted, as n, exactly when it is a safe integer |
| `KudosSchema.DecimalQueryAccepted` | libs/shared/src/schemas/kudos.schema.ts:14-17 | a decimal query is accepted exactly when both its numbers are, and then it carries those numbers |
| `KudosSchema.NegativeOffsetRejected` | libs/shared/src/schemas/kudos.schema.ts:16 | a negative decimal offset is rejected, whatever the limit |
| `KudosSchema.EmptyQueryDefaults` | libs/shared/src/schemas/kudos.schema.ts:14-17 | an empty query parses to limit 20 and offset 0 |
| `KudosSchema.LimitFixtures` | libs/shared/src/schemas/kudos.schema.ts:15 | '0' and '101' are rejected as limits, while '1' and '100' are accepted |
| `KudosSchema.OffsetFixtures` | libs/shared/src/schemas/kudos.schema.ts:16 | '-1' is rejected as an offset, while '0' and '2' are accepted |
| `KudosSchema.IsIsoDateTime` | libs/shared/src/schemas/kudos.schema.ts:25 | an accepted timestamp has the date and time separated by `T` and ends in the UTC zone `Z` |
| `KudosSchema.IsKudosDto` | libs/shared/src/schemas/kudos.schema.ts:19-26 | an accepted DTO has three 36-character UUID ids and a `Z`-terminated ISO timestamp; message and category are unconstrained beyond their types |
| `KudosSchema.IsoStringIsIsoDateTime` | libs/shared/src/schemas/kudos.schema.ts:25 | every string `toISOString` produces passes the DTO's datetime check |
| `DbSchema.Quote` | apps/backend/src/db/schema/kudos.ts:8 | a label is wrapped in exactly one single quote on each side |
| `DbSchema.CategoryListSqlText` | apps/backend/src/db/schema/kudos.ts:8 | the SQL list is `'Great Job', 'Thank You', 'Teamwork'` |
| `DbSchema.QuotedLabels` | apps/backend/src/db/schema/kudos.ts:8 | one SQL literal per label, in the labels' order |
| `DbSchema.CategoryCheckIffCategory` | apps/backend/src/db/schema/kudos.ts:24-29 | the check constraint admits a row exactly when its category is one of the labels |
| `DbSchema.AppendKeepsInvariant` | apps/backend/src/db/schema/kudos.ts:13-15 | appending a valid row with a new id keeps ids unique and adds exactly that id |
| `KudosRepository.MapRowToKudosDto` | apps/backend/src/db/kudos.repository.ts:9-16 | the five columns are copied unchanged, and `createdAt` is an ISO datetime that reads back as the stored instant |
| `KudosRepository.CreatedAtIsStable` | apps/backend/src/db/kudos.repository.ts:15 | a DTO's `createdAt` survives being parsed and rendered again |
| `KudosRepository.MappedRowConforms` | apps/backend/src/db/kudos.repository.ts:9-16 | a row with UUID ids maps to a DTO that the DTO schema accepts |
| `KudosRepository.SortNewestFirst` | apps/backend/src/db/kudos.repository.ts:37 | every table has a newest-first arrangement: a permutation of its rows with non-increasing `createdAt` |
| `KudosRepository.OrderKeysDetermined` | apps/backend/src/db/kudos.repository.ts:37 | any two newest-first arrangements of the same rows have the same timestamp at every position |
| `KudosRepository.DistinctTimesFixOrder` | apps/backend/src/db/kudos.repository.ts:37 | when no two timestamps are equal, the newest-first arrangement is unique |
| `KudosRepository.Window` | apps/backend/src/db/kudos.repository.ts:38-39 | the page skips `offset` rows and keeps `min(limit, max(0, n - offset))`; a negative limit means no limit |
| `KudosRepository.WindowsTile` | apps/backend/src/db/kudos.repository.ts:38-39 | two consecutive windows make up the window of their combined size |
| `KudosRepository.Page` | apps/backend/src/db/kudos.repository.ts:32-40 | a page holds the DTOs of the ordered rows from `offset` on, at most `limit` of them, with instants that never increase |
| `KudosRepository.KudosTable.constructor` | apps/backend/src/db/schema/kudos.ts:10-30 | a new table is empty and satisfies the integrity invariant |
| `KudosRepository.KudosTable.Insert` | apps/backend/src/db/schema/kudos.ts:13-29 | an insert appends exactly the row when its id is new and its category passes the check, and otherwise fails with the table unchanged; integrity is kept |
| `KudosRepository.KudosTable.CreateKudos` | apps/backend/src/db/kudos.repository.ts:18-30 | `createKudos` appends exactly one row, built from the four input fields with the generated UUID and time, and returns its DTO, whose id is a UUID and which the DTO schema accepts when sender and receiver are UUIDs; existing rows are unchanged |
| `KudosRepository.KudosTable.ListKudos` | apps/backend/src/db/kudos.repository.ts:32-40 | `listKudos` does not change the table; for whatever newest-first arrangement of the rows the engine reads, it returns that arrangement's `Page`, as many DTOs as the window of the table holds, newest first |
| `KudosRepository.EmptyTableListsNothing` | apps/backend/src/db/kudos.repository.ts:32-40 | an empty table lists an empty page, never an error |
| `KudosRepository.PagesTile` | apps/backend/src/db/kudos.repository.ts:32-40 | consecutive pages of one engine order partition that order: neither skipping nor repeating a row (two calls that read ties in different orders are not covered) |
| `KudosRepository.SeededTableValid` | apps/backend/tests/kudos.int.spec.ts:186-200 | the three seeded rows form a valid table: each passes the category check and has a storable time, and their ids are distinct |
| `KudosRepository.SeededOrder` | apps/backend/tests/kudos.int.spec.ts:186-200 | over rows old, middle and new, the only newest-first order is new, middle, old |
| `KudosRepository.SeededPages` | apps/backend/tests/kudos.int.spec.ts:186-200 | whatever order the engine picks, page (2, 0) is [new, middle] and page (2, 2) is [old] |
| `KudosService.HandleCreateKudos` | apps/backend/src/kudos.service.ts:37-81 | a bad header gives 400 'Invalid x-user-id header.'; otherwise a bad body gives 400 'Invalid request body.'; neither calls the repository; otherwise one call with the trimmed body and the sender, then 201 with its DTO or 500 'Failed to create kudos.' |
| `KudosService.HandleListKudos` | apps/backend/src/kudos.service.ts:83-120 | a bad query gives 400 'Invalid query params.' without a call; otherwise one call with the parsed limit and offset, then 200 with the items and `{limit, offset, count}`, or 500 'Failed to fetch kudos.' |
| `KudosService.CreateResultShape` | apps/backend/src/kudos.service.ts:37-81 | a create answer carries a kudos with 201, validation issues with 400 and an error message with 500, and nothing else |
| `KudosService.CreateStatuses` | apps/backend/src/kudos.service.ts:37-81 | the create status is 400, 201 or 500; it is 400 exactly when the input is invalid, and exactly when no call was made |
| `KudosService.HeaderCheckedFirst` | apps/backend/src/kudos.service.ts:41-63 | with a missing or malformed header the answer is the header error, whatever the body |
| `KudosService.ValidInputCallsOnce` | apps/backend/src/kudos.service.ts:65-69 | valid input makes exactly one repository call: the parsed body plus the header's sender |
| `KudosService.AcceptedBodyReachesRepository` | apps/backend/src/kudos.service.ts:54-69 | an accepted body sent with a UUID sender reaches the repository unchanged |
| `KudosService.StoredMessageIsTrimmed` | apps/backend/src/kudos.service.ts:65-69 | any message handed to the repository is trimmed and 1 to 500 long |
| `KudosService.CreateRejectsLongMessageAndUnknownCategory` | apps/backend/tests/main.unit.spec.ts:80-115 | 501 letters, or an unknown category, give 400 'Invalid request body.' and no call |
| `KudosService.ListResultShape` | apps/backend/src/kudos.service.ts:83-120 | a list answer carries a page with 200, validation issues with 400 and an error message with 500, and nothing else |
| `KudosService.ListStatuses` | apps/backend/src/kudos.service.ts:83-120 | the list status is 400, 200 or 500; it is 400 exactly when the query is invalid, and exactly when no call was made |
| `KudosService.EmptyQueryUsesDefaults` | apps/backend/src/kudos.service.ts:98-112 | an empty query calls the repository with limit 20 and offset 0 |
| `KudosService.ListServedByRepository` | apps/backend/src/kudos.service.ts:98-112 | served by the repository, a 200 answer holds at most `limit` items, counts them, and lists them newest first |
| `KudosService.ListQueryScenarios` | apps/backend/tests/main.unit.spec.ts:174-282 | limit 0, limit 101 and offset -1 give 400; limit 1 with offset 2 calls the repository with exactly (1, 2) |
| `KudosApi.ApiError.constructor` | apps/frontend/src/app/kudos.api.ts:30 | a new error has the message and no status |
| `KudosApi.CreateApiError` | apps/frontend/src/app/kudos.api.ts:29-33 | the error is fresh and keeps the message, with the HTTP status unchanged |
| `KudosApi.ParseErrorMessage` | apps/frontend/src/app/kudos.api.ts:35-43 | a parsed body's non-null `message` wins (even ''); otherwise a non-empty status text; otherwise 'Request failed.' |
| `KudosApi.ErrorMessageNonEmpty` | apps/frontend/src/app/kudos.api.ts:35-43 | the message is non-empty unless the server itself sent an empty one |
| `KudosApi.ReadResponse` | apps/frontend/src/app/kudos.api.ts:45-54 | only a non-ok status throws an API error (carrying the status and the chosen message); an ok body is returned as parsed, without validation |
| `KudosApi.FeedQueryMatchesKey` | apps/frontend/src/app/kudos.api.ts:45-48 | the feed request parses on the server to exactly the limit 20 and offset 0 of `kudosQueryKey` |
| `KudosApi.DemoSenderAccepted` | apps/frontend/src/app/kudos.api.ts:14 | the server accepts `DEMO_SENDER_ID` as the sender header |
| `KudosApi.AcceptedPayloadReachesRepository` | apps/frontend/src/app/kudos.api.ts:56-66 | an accepted payload sent by the client reaches the repository unchanged, with the demo sender |
| `KudosApi.ErrorAnswerAsClientSeesIt` | apps/frontend/src/app/kudos.api.ts:28-51 | a non-ok answer with an error body becomes an `ApiError` with the server's status and message, whatever the status text |
| `KudosApi.OkAnswerAsClientSeesIt` | apps/frontend/src/app/kudos.api.ts:49-53 | an ok answer resolves with exactly the body the server sent |
| `KudosApi.CreateAnswerAsClientSeesIt` | apps/frontend/src/app/kudos.api.ts:56-73 | a 400 or 500 from the create handler becomes an error with the server's message and status; a 201 resolves with the handler's body itself, unchanged |
| `KudosApi.ListAnswerAsClientSeesIt` | apps/frontend/src/app/kudos.api.ts:45-54 | a 400 or 500 from the list handler becomes an error with the server's message and status; a 200 resolves with the handler's body itself, unchanged |
| `CreateKudosMutation.AddOptimisticKudos` | apps/frontend/src/app/hooks/use-create-kudos-mutation.ts:10-17 | the provisional kudos comes from `DEMO_SENDER_ID`, copies receiver and category, carries the trimmed message, has an id beginning 'optimistic-' and a timestamp that reads back as the current instant |
| `CreateKudosMutation.OptimisticIdIsNotUuid` | apps/frontend/src/app/hooks/use-create-kudos-mutation.ts:11 | the provisional id is never a UUID, so it never equals a server id, and the provisional kudos is not a valid DTO |
| `CreateKudosMutation.OptimisticFeed` | apps/frontend/src/app/hooks/use-create-kudos-mutation.ts:30-45 | the new feed is the provisional kudos followed by the old items shifted by one, cut to 20, with pagination {20, 0, count = number of items} |
| `CreateKudosMutation.EmptyCacheGivesSingleItem` | apps/frontend/src/app/hooks/use-create-kudos-mutation.ts:31-44 | with nothing cached the feed is the provisional kudos alone with count 1 |
| `CreateKudosMutation.OptimisticFeedFits` | apps/frontend/src/app/hooks/use-create-kudos-mutation.ts:30-45 | the optimistic feed never exceeds 20 items and its count is its number of items |
| `CreateKudosMutation.OptimisticFeedKeepsOrder` | apps/frontend/src/app/hooks/use-create-kudos-mutation.ts:31-34 | the old items that stay keep their relative order: the feed is the provisional kudos then a prefix of the old items |
| `CreateKudosMutation.FeedCache.OnMutate` | apps/frontend/src/app/hooks/use-create-kudos-mutation.ts:24-48 | cancels the in-flight fetch, returns the previous feed (or none) as the snapshot, and caches the optimistic feed, within 20 items |
| `CreateKudosMutation.FeedCache.OnError` | apps/frontend/src/app/hooks/use-create-kudos-mutation.ts:49-53 | restores the snapshot exactly when there is one; otherwise leaves the cache as it is |
| `CreateKudosMutation.FeedCache.OnSettled` | apps/frontend/src/app/hooks/use-create-kudos-mutation.ts:54-56 | invalidates the feed and starts its refetch, keeping the cached value meanwhile |
| `CreateKudosMutation.FeedCache.RunMutation` | apps/frontend/src/app/hooks/use-create-kudos-mutation.ts:22-57 | over a whole mutation: success keeps the optimistic feed; failure restores a previous feed, or leaves the provisional kudos alone on an empty cache; the feed is invalidated and refetched either way |

## Left out

- `KudosSchema.ParseSenderIdHeader` accepts every string in the 8-4-4-4-12 hexadecimal layout of section 4 of RFC 9562. It does not apply the extra checks on the version and variant digits that the schema library's `uuid()` makes, so it is weaker than the source. The test ids satisfy those checks anyway.
- `KudosSchema.ParseUuidField`: weaker than the source in the same way as the header.
- `KudosSchema.ParseLimit`: reads a string through `Number()` only for decimal integers with an optional sign and surrounding whitespace. Other forms that `Number()` reads (hexadecimal, exponents, fractions such as '1.0', 'Infinity'), arrays and booleans are rejected by the model.
- `KudosSchema.ParseOffset`: coerces values with the same restriction as the limit.
- `KudosSchema.IsKudosDto`: the datetime check follows the layout of the schema library's `iso.datetime()` default: `Z` zone, optional seconds and fraction, calendar-valid date. The library's exact pattern is not reproduced.
- The content of `error.flatten()` is modelled only as which fields failed and whether the value as a whole failed. The library's message strings are not modelled.
- `KudosRepository.MapRowToKudosDto` requires a timestamp from 1970 up to the end of 9999. `toISOString` renders such timestamps in its 24-character form. Earlier and six-digit-year instants are not modelled.
- `KudosRepository.KudosTable.CreateKudos`: requires a timestamp in the same range as `MapRowToKudosDto`.
- `CreateKudosMutation.AddOptimisticKudos`: requires the current instant to be in the same range as `MapRowToKudosDto`.
- Every row has all six columns (all are NOT NULL). The column defaults (`randomUUID()`, `unixepoch()`) are the `freshId` and `now` parameters of `CreateKudos`. The id is required to have the UUID layout `randomUUID()` produces; its randomness is not modelled, so the model does not assume it is new: a collision is the primary-key error path.
- The order among rows with equal `created_at` is left to SQLite. The model takes it as a parameter, proves only sortedness and permutation, and picks no tie-break.
- Not modelled:
  - the Express server (CORS, OPTIONS, JSON parsing, listening);
  - the SQLite connection and migrations;
  - `console.error`;
  - the React components;
  - locale date formatting;
  - the badge lookup.
- `fetch`, the base URL and the transport are not modelled. A response is its status, its status text and its body, either unparseable or parsed together with what its `message` property reads as. A `message` that is neither a string nor `null` is not modelled.
- The query cache library is not modelled: async timing, cancellation races and the internals of `invalidateQueries`. The cache entry of the feed is a value with two flags, and the mutation's callbacks run one after another.
- The user schemas and types are not part of this model: no code shown uses them.
- The client returns an ok response's body without checking it against the DTO schemas. The model follows that code rather than a description of response validation.
- After a failure, `onError` restores the snapshot only when one existed. On an empty cache the provisional kudos stays until the refetch answers. The model follows that code.
