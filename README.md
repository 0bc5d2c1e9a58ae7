# hub-server core, modelled in Dafny

hub-server is an Express + Supabase backend for property listings. This
project models its core:

- the listing controller's handlers over the `listings`, `comments`, `users`
  and `listing_types` tables, including the offset/limit pagination of the
  two list handlers and the owner-or-admin check of `deleteListing`;
- the response envelopes (`sendSuccess`, `sendError`, `sendPaginatedSuccess`)
  and their JSON form;
- the zod request schemas for creating and updating a listing (both the
  refined schema and the `innerType()` the update route mounts) and for
  creating a comment, with the issues and messages a failed parse reports;
- the validation middleware that turns those issues into a 400 message and
  forwards the body unchanged on success;
- registration and login over the users table.

Modules: `Wrappers` (Option), `Json` (JSON values, table rows, JavaScript
truthiness), `Envelope`, `Pagination`, `Zod` (the part of the schema
library the schemas use), `ListingSchemas`, `CommentSchemas`, `Validation`,
`Auth` and `Listings`. The listings and comments tables are sequences of
rows, so `.eq('id', id)`, `.single()`, `.update()` and `.delete()` keep their
filter semantics: nothing assumes their id column is unique. The users table
is a map from email to row (for registration and login) and a map from user
id to role (for the delete check), so those keys are unique. The listing handlers that change a table are
methods of the class `Listings.ListingStore`; registration changes the
`users` field of the class `Auth.AuthService`.

Behaviour worth knowing, as the code has it:

- `deleteListing` reads the listing with `.single()` and throws on its error,
  so a missing listing gets 500 with the client's single-row error (taken to
  read "JSON object requested, multiple (or no) rows returned"); the 404 branch right after it is
  unreachable (`Listings.ListingStore.DeleteListing`).
- The update route validates with `updateListingSchema.innerType()`, so an
  empty body passes the middleware although the refined schema rejects it
  (`Validation.UpdateRouteAcceptsEmptyBody`, `Validation.RefinedSchemaRejectsEmptyBody`).
- The middleware discards the parsed value: the comment schema's default
  ranking of 0 never reaches the handler, whose own `|| 0` restores it
  (`Validation.CommentDefaultNotForwarded`, `Listings.StoredRankingMatchesSchema`).
- Login answers with the whole selected row, password hash and role
  included, and a failing user lookup gets the same 401 as a wrong password.
- A body `id` overrides the generated uuid in `createListing`, while
  `created_at` is always the server's (`Listings.NewListingRow`).

## Model

| member | source | states |
|---|---|---|
| Json.Truthy | src/controllers/listingController.ts:210 | a defined value is truthy exactly when it is not one of null, false, 0 and "" |
| Json.OrElse | src/controllers/listingController.ts:210 | `v \|\| fallback` is the value when it is present and truthy, and the fallback otherwise |
| Envelope.SendSuccess | src/utils/responseUtils.ts:6-19 | success envelope with the given data and message, no pagination, code 200 unless one is given |
| Envelope.SendError | src/utils/responseUtils.ts:21-32 | error envelope carrying only the message, code 500 unless one is given |
| Envelope.TotalPages | src/utils/responseUtils.ts:42 | `Math.ceil(total / limit)`: the least n with total <= n*limit for a positive limit, and the matching bound for a negative one |
| Envelope.SendPaginatedSuccess | src/utils/responseUtils.ts:34-57 | always 200, echoes total, page and limit, and totalPages is `Math.ceil(total / limit)` for either sign of limit (the least covering page count for a positive one) |
| Envelope.TotalPagesNonNegative | src/utils/responseUtils.ts:42 | for a non-negative total and positive limit totalPages is non-negative, zero exactly when total is zero, and the page count that covers total |
| Envelope.TotalPagesExamples | src/utils/responseUtils.ts:42 | 15 rows at 10 per page is 2 pages; 0 is 0; 20 is 2; 21 is 3 |
| Envelope.Encode | src/utils/responseUtils.ts:12-18 | the JSON body has `status` and exactly those of data, message and pagination that are defined |
| Envelope.DecodeEncode | src/utils/responseUtils.ts:12-18 | the JSON form of every envelope decodes back to the same envelope |
| Envelope.ErrorWire | src/utils/responseUtils.ts:26-31 | an error body on the wire has exactly the keys status and message |
| Pagination.OrDefault | src/controllers/listingController.ts:13-14 | `parseInt(x) \|\| d`: a missing, unparsable or zero value gives the default, any other value is kept, and the result is never 0 |
| Pagination.ReadQuery | src/controllers/listingController.ts:13-14 | page defaults to 1 and limit to 10, both are nonzero |
| Pagination.Start | src/controllers/listingController.ts:15 | `(page - 1) * limit` is never negative for a page and limit of at least 1, and the first page starts at row 0 |
| Pagination.End | src/controllers/listingController.ts:28 | the inclusive range end makes the window exactly limit rows wide |
| Pagination.NextPageAdjacent | src/controllers/listingController.ts:15-28 | page p+1 starts right after page p ends, and no row position lies on both |
| Pagination.PageOfPosition | src/controllers/listingController.ts:15-28 | every row position i lies on page i/limit+1 and on no other page |
| Pagination.LaterPageStartsAfter | src/controllers/listingController.ts:15-28 | every later page starts after an earlier one ends |
| Pagination.Window | src/controllers/listingController.ts:28 | `.range(from, to)`: the rows from `from` through `to`, cut at the table's end |
| Pagination.PageRows | src/controllers/listingController.ts:25-29 | the rows of a page are at most limit many and are the slice starting at the page's offset |
| Pagination.AppendPage | src/controllers/listingController.ts:15-28 | the rows before page k followed by page k are the rows before page k+1 |
| Pagination.PagedIsPrefix | src/controllers/listingController.ts:15-28 | pages 1..k concatenated are the rows before page k+1's offset, the first k*limit rows |
| Pagination.PagesCoverRows | src/utils/responseUtils.ts:42 | pages 1..totalPages concatenated are exactly the table: every row is on some page, none twice, in order |
| Pagination.SecondPageOfFifteen | src/controllers/listingController.ts:13-29 | 15 rows, page 2, limit 10: the last 5 rows, and totalPages is 2 |
| Zod.NotAnObject | src/middleware/validationMiddleware.ts:10 | a body that is not an object gets one issue at the empty path |
| Zod.StringField | src/schemas/listingSchemas.ts:7-8 | a string field passes iff it is a string or an allowed absence, reports the required error when missing, and aborts the object on a wrong type |
| Zod.CheckIssues | src/schemas/listingSchemas.ts:9 | no issue iff every bound passes; each failing bound reports its own message at the field's path, and every issue reported is the message of a bound that failed |
| Zod.NumberField | src/schemas/listingSchemas.ts:9-10 | a number field passes iff it is a number meeting every bound or an allowed absence; a failed bound does not abort the object |
| ListingSchemas.ParseCreateListing | src/schemas/listingSchemas.ts:6-12 | accepts exactly the bodies with string title and description, positive price and absent-or-positive area, and yields those values |
| ListingSchemas.UpdateFields | src/schemas/listingSchemas.ts:14-18 | the four optional fields report no issue iff each is absent or of the right type and bound |
| ListingSchemas.ParseUpdateFields | src/routes/listingRoutes.ts:28 | the inner schema accepts exactly the bodies whose present fields are valid, and yields them |
| ListingSchemas.ParseUpdateListing | src/schemas/listingSchemas.ts:14-21 | the refined schema accepts exactly the valid bodies that carry at least one of its four fields |
| ListingSchemas.CreateNeedsTitle | src/schemas/listingSchemas.ts:7 | a body without title fails with "Title is required" at path title |
| ListingSchemas.CreateNeedsPositivePrice | src/schemas/listingSchemas.ts:9 | a price that is not above 0 fails with "Number must be greater than 0" |
| ListingSchemas.RefinedUpdateRejectsEmpty | src/schemas/listingSchemas.ts:19-21 | the empty body fails with exactly the refine's message at the empty path |
| ListingSchemas.UpdateFieldsAcceptEmpty | src/schemas/listingSchemas.ts:14-18 | the inner schema accepts the empty body with every field absent |
| ListingSchemas.UpdateValidatorsDiffer | src/schemas/listingSchemas.ts:14-21 | some body passes the inner schema but not the refined one |
| ListingSchemas.UnknownKeysIgnored | src/schemas/listingSchemas.ts:14-21 | a key outside the shape changes neither the inner schema's result nor the refined schema's verdict |
| CommentSchemas.ParseCreateComment | src/schemas/commentSchemas.ts:4-7 | accepts exactly a string content with an absent ranking or one in [0, 5]; an absent ranking parses as 0 |
| CommentSchemas.ContentRequired | src/schemas/commentSchemas.ts:5 | a body without content fails with "Content is required" |
| CommentSchemas.RankingBounds | src/schemas/commentSchemas.ts:6 | a numeric ranking passes iff 0 <= r <= 5, and each side fails with its bound's message |
| CommentSchemas.RankingExamples | src/schemas/commentSchemas.ts:6 | 6 and -1 are rejected; 2.5, 0 and 5 accepted |
| CommentSchemas.RankingDefaults | src/schemas/commentSchemas.ts:6 | content alone parses with ranking 0 |
| Validation.Join | src/middleware/validationMiddleware.ts:14-16 | `join` of no parts is "", of one part is that part, and otherwise starts with the first part |
| Validation.RenderIssue | src/middleware/validationMiddleware.ts:15 | an issue renders as its dotted path followed by ": " and its message |
| Validation.RenderAll | src/middleware/validationMiddleware.ts:14-16 | one rendered entry per issue, in order |
| Validation.ErrorMessage | src/middleware/validationMiddleware.ts:14-18 | the message starts with "Validation error: ", is just that for no issues, and continues with the first issue's rendering |
| Validation.Validate | src/middleware/validationMiddleware.ts:7-24 | the request goes on iff the schema parses, with the body unchanged; otherwise 400 with the joined issues, or "Invalid request data" for a non-schema error |
| Validation.JoinAppend | src/middleware/validationMiddleware.ts:14-16 | joining two lists is joining each and putting the separator between |
| Validation.ErrorMessageAppend | src/middleware/validationMiddleware.ts:14-18 | more issues extend the message after ", " |
| Validation.EmptyPathRendering | src/middleware/validationMiddleware.ts:14-18 | an issue at the empty path renders as ": message" |
| Validation.SingleKeyRendering | src/middleware/validationMiddleware.ts:14-18 | an issue at one key renders as "key: message" after the prefix |
| Validation.SplitNoSeparator | src/middleware/validationMiddleware.ts:15 | a segment without a dot splits to itself |
| Validation.SplitAtSeparator | src/middleware/validationMiddleware.ts:15 | splitting at the first dot peels off one segment |
| Validation.PathRoundTrip | src/middleware/validationMiddleware.ts:15 | a path whose segments have no dot is recovered from its dotted rendering |
| Validation.UpdateRouteAcceptsEmptyBody | src/routes/listingRoutes.ts:28 | the mounted update validator forwards the empty body |
| Validation.RefinedSchemaRejectsEmptyBody | src/schemas/listingSchemas.ts:19-21 | the refined schema would answer the empty body with 400 and the refine's message |
| Validation.CommentDefaultNotForwarded | src/middleware/validationMiddleware.ts:10-11 | a comment without ranking reaches the handler without one |
| Validation.CommentRankingSixRejected | src/schemas/commentSchemas.ts:6 | ranking 6 is answered 400 "Validation error: ranking: Number must be less than or equal to 5" |
| Auth.Present | src/controllers/authController.ts:13 | a body field passes the `!field` test exactly when it is defined and truthy as a JavaScript string |
| Auth.Sign | src/controllers/authController.ts:51-53 | the token carries userId and email and a one-hour lifetime |
| Auth.AuthService.Register | src/controllers/authController.ts:9-59 | 400 on a missing field, 500 with the database's message on a lookup or insert failure, 400 on a known email; registers (201) exactly when every check and the insert pass, adding one row with the hashed password; otherwise the table is unchanged |
| Auth.AuthService.Login | src/controllers/authController.ts:62-101 | 400 on a missing field; succeeds (200) iff the email is known and the password's hash matches, answering with the whole row and a token whose email is the one submitted; every other case is the same 401 |
| Auth.RegisterThenLogin | src/controllers/authController.ts:9-101 | after registering, login with the same credentials succeeds with the same token, and a password whose hash differs gets 401 |
| Listings.Matching | src/controllers/listingController.ts:51-55 | `.eq('id', id)` keeps exactly the rows with that id |
| Listings.Single | src/controllers/listingController.ts:51-55 | `.single()` succeeds iff exactly one row matched, else the client's zero-or-several error |
| Listings.FaultText | src/controllers/listingController.ts:42 | the caught error's message when it has one, else the handler's fallback, so a non-empty fallback always yields a non-empty message |
| Listings.MayDelete | src/controllers/listingController.ts:173 | an admin may always delete; anyone else exactly when the listing's user_id is their userId |
| Listings.NoRowsErrorRecognised | src/controllers/listingController.ts:59 | the client's single-row error contains the phrase the handler tests for |
| Listings.WithoutId | src/controllers/listingController.ts:178-181 | the delete removes exactly the rows with the id and keeps all others |
| Listings.DeletedIdGone | src/controllers/listingController.ts:178-181 | after the delete no row has the id |
| Listings.PatchId | src/controllers/listingController.ts:113-119 | the update gives the matching rows the body's keys, keeps their other keys and leaves every other row alone |
| Listings.ListPage | src/controllers/listingController.ts:11-44 | a failing count or page query is 500 with its message or the fallback; otherwise 200 with the fetched rows, the count (0 when null) and totalPages for the parsed page and limit |
| Listings.GetAllListings | src/controllers/listingController.ts:11-44 | answers 200 with pagination or 500, with its own messages |
| Listings.GetListingComments | src/controllers/listingController.ts:231-267 | answers 200 with pagination or 500, with its own messages |
| Listings.ListPageOverTable | src/controllers/listingController.ts:25-40 | over an ordered table the answer holds exactly that page's rows and the table's count and page count |
| Listings.MissingCountIsZero | src/controllers/listingController.ts:36 | a null count is reported as 0 rows and 0 pages |
| Listings.GetListingTypes | src/controllers/listingController.ts:270-282 | the rows with code 200, or 500 with the error's message or "Failed to retrieve listing types" |
| Listings.NewListingRow | src/controllers/listingController.ts:85-91 | the inserted row has the body's keys plus id and created_at; a body id wins over the uuid, created_at is always the server's |
| Listings.CommentRowAsWritten | src/controllers/listingController.ts:200-214 | the row as written has exactly id, listing_id, ranking, created_at, updated_at and content when given, and no user_id |
| Listings.CommentRow | src/controllers/listingController.ts:204-214 | the inserted comment is owned by the requester, belongs to the listing, keeps content when given and stores `ranking \|\| 0` |
| Listings.CommentOwnerLost | src/controllers/listingController.ts:200 | the row as written has no user_id for any requester, while the corrected row has one |
| Listings.StoredRankingMatchesSchema | src/controllers/listingController.ts:210 | for every body the schema accepts, the stored ranking equals the parsed ranking |
| Listings.ListingStore.GetListingById | src/controllers/listingController.ts:47-76 | 200 with the row iff exactly one row has the id; zero-or-several is 404 "Listing not found"; any other database error is 500 with its message |
| Listings.ListingStore.CreateListing | src/controllers/listingController.ts:79-105 | appends the new row and answers 201 with it, or changes nothing and answers 500 |
| Listings.ListingStore.UpdateListing | src/controllers/listingController.ts:108-136 | patches every row with the id and answers with the first, 404 when none had it, 500 on a database error |
| Listings.ListingStore.DeleteListing | src/controllers/listingController.ts:139-193 | 500 with the error's message (or "Failed to delete listing") when the role or listing read fails, and the single-row error when the requester or the listing is not exactly one row; 403 exactly when the requester neither owns the listing nor is admin; removes the rows with the id only when allowed and the delete succeeds |
| Listings.DeleteThenGet | src/controllers/listingController.ts:139-193 | after a successful delete a read of the same id answers 404; after a refused (403) delete it still answers 200 |
| Listings.ListingStore.AddComment | src/controllers/listingController.ts:196-228 | appends the corrected comment row (owned by the requester's userId, unlike the handler as written) and answers 201 with it, or changes nothing and answers 500 |

## Left out

- Database outages and refused statements are parameters (`fault`, `lookupFault`, `insertFault`, `roleFault`, `listingFault`, the count and page replies); column constraints, triggers and defaults the database adds to an inserted or updated row are not modelled, so a handler answers with the row as it sent it.
- The database's ordering by `created_at` is not modelled: the page handlers take the already ordered `.range()` reply as a parameter (`Listings.TableRange` builds it from an ordered table).
- `uuidv4()`, `new Date().toISOString()` and the id the users table assigns are parameters; `addComment`'s two clock reads are taken as one instant.
- `parseInt` is modelled by its outcome (`None` for NaN, else the integer); parsing of the query string itself is not.
- Numbers are unbounded integers and exact reals: JavaScript floating point, NaN and Infinity in bodies are not modelled.
- bcrypt is an uninterpreted hash function fixed per `Auth.AuthService` (comparison is equality of hashes), and a JWT is an opaque value of which only the claim and the lifetime are modelled; the secret, the cookie and token verification are not.
- `Auth.AuthService.Register`: the body's fields are strings or absent; non-string values and the catch-all 500 for thrown exceptions are not modelled, for login as well.
- The authentication middleware and the routers are context: the handlers take the decoded claim directly, and route matching is not modelled.
- The users table's default role for a new row is taken to be "user"; `deleteListing` reads roles from `Listings.ListingStore.roles`.
- The 404 branch of `deleteListing` after the `.single()` read cannot be reached, so the model has none.
- Auth.AuthService.Register: the users table is keyed by email, so emails are unique, and roles are keyed by user id; the source only checks for an existing email before a separate insert, so two concurrent registrations can both pass and leave duplicate emails, of which login's `.limit(1)` would pick one. Each handler is one atomic step here: that lookup-then-insert race and deleteListing's separate role read, listing read and delete are not modelled.
- Listings.ListingStore.AddComment: stores the corrected row `Listings.CommentRow`, owned by the requester's userId; the handler as written stores no `user_id` (see Findings, `Listings.CommentRowAsWritten`).
- Listings.NoRowsError: the text of the database client's error for `.single()` on zero or several rows ("JSON object requested, multiple (or no) rows returned") is an assumption about that external client, which is not part of this model; the 404 of `Listings.ListingStore.GetListingById` and the message of the 500 from `Listings.ListingStore.DeleteListing` rest on it.
- `Listings.GetListingComments`, `Listings.GetAllListings`: the listing filter of the comment queries lives in the count and page replies passed in.

## Findings

| source | as written | input that shows it | evidently intended | confidence | as-written member | corrected member |
|---|---|---|---|---|---|---|
| src/controllers/listingController.ts:200 | the comment's owner is read from `req.user.id`, but the decoded claim has only `userId` and `email`, so the inserted row has no `user_id` | any authenticated comment, e.g. claim `{ userId: "u1", email: "a@b.c" }` | `user_id` is the requester's `userId` | high, not executed | Listings.CommentOwnerLost | Listings.CommentRow |
