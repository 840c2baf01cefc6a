# Business directory: store, routes and form helpers

This project models the server of a small business-directory application and proves properties of that model. The server stores businesses, the document hand-offs (transactions) recorded for each business, and admin users. It has three parts:

- **The store (`DatabaseStorage`).** It keeps three tables, each a sequence of rows in insertion order, and `serial` counters for the ids. It enforces the schema's constraints:
  - the primary keys;
  - unique tax IDs and usernames;
  - the 20-character limit on `taxId` and `phone`;
  - the foreign key from a transaction to its business, with cascading delete.

  Reads are functions of the tables:
  - `getBusinessById`;
  - the paged, newest-first listing;
  - the 13-tag search, with exact match or `LIKE '%v%'`;
  - transactions by business;
  - `authenticateAdmin` and `getAdminByUsername`.

  Each write is a function that computes its outcome from the tables, plus a method of the class `DatabaseStorage` that applies that outcome. Every method keeps the invariant `Valid()`.
- **The request validators** (zod schemas) turn a decoded JSON body into a request record or reject it.
- **The routes** are one function per HTTP handler. Each maps the request and the tables to a status code and a payload. The routes cover:
  - the `page`/`limit` defaults;
  - rejection of a non-numeric path id;
  - the static delete password `"0102"`;
  - the mapping of duplicate keys to 400;
  - the order of checks (token before id, password before delete);
  - the `Authorization: Bearer` token extraction.

  The class `Server` holds the store and the `authTokens` map. Login adds to that map and logout removes from it. Its methods run each write route against the store.

The business form's custom-field editor (add, remove, set value, rename a key) and its submit step are pure functions on `map<string, string>`.

Files:
- `wrappers.dfy`: `Option` and `Result`.
- `seqs.dfy`: filter, find, stable descending sort, paging.
- `strings.dfy`: the subset of JavaScript `parseInt` the routes use, decimal rendering, `String.prototype.replace` with a string pattern, and SQL `LIKE`.
- `schema.dfy`: the tables, the JSON values and the validators.
- `storage.dfy`: the store.
- `routes.dfy`: the routes and `Server`.
- `business_form.dfy`: the form helpers.

The model follows the code as written:
- `transactionType` is a plain `text` column and free text at the validator, although the comment beside it in shared/schema.ts:29 names only "giao" and "nhận".
- An update that gives a business another business's tax ID is answered 500, not 400.
- A `page` or `limit` of 0 falls back to the default, like a missing one.
- An empty `transactionDate` means "now", like a missing one.

## Model

| member | source | states |
|---|---|---|
| `Seqs.Filter` | server/storage.ts:99-163 | A `WHERE` result is no longer than the table, and a row is in it exactly when it is in the table and satisfies the condition. |
| `Seqs.FilterSubMultiset` | server/storage.ts:99-163 | A `WHERE` result never repeats a row: each row occurs in it at most as often as in the table. |
| `Seqs.FilterCount` | server/storage.ts:88-93 | A delete removes nothing exactly when no row matches, so the reported row count is 0 exactly then. |
| `Seqs.FilterKeepsDistinct` | shared/schema.ts:7-9 | Deleting rows never creates a duplicate primary key or tax ID. |
| `Seqs.Find` | server/storage.ts:49-55 | A lookup by key finds a row exactly when some row has that key, and the row found has that key. |
| `Seqs.FindDistinct` | server/storage.ts:49-55 | Under a unique key, the lookup of a row's key returns that very row. |
| `Seqs.FindAppended` | server/storage.ts:41-55 | After inserting a row with a fresh key, a lookup finds it under its key and finds what it found before under any other key. |
| `Seqs.SortDesc` | server/storage.ts:64 | `ORDER BY ... DESC` gives a permutation of the rows with keys never increasing. |
| `Seqs.Page` | server/storage.ts:65-66 | `LIMIT l OFFSET o` gives at most `l` rows, exactly `min(l, n - o)` of them, the row at position `i` being row `o + i`. |
| `Seqs.PageOfSorted` | server/storage.ts:61-66 | A page of a sorted table is sorted and holds only rows of the table. |
| `Seqs.FirstPagesArePrefix` | server/storage.ts:58 | With offset `(k - 1) * limit`, pages 1..k together are exactly the first `k * limit` rows. |
| `Strings.ParseIntOfDecimal` | server/routes.ts:21-22 | `parseInt` reads back the decimal rendering of every non-negative integer. |
| `Strings.ParseIntOfNegativeDecimal` | server/routes.ts:21-22 | `parseInt` reads back `"-"` followed by a decimal rendering as the negative number. |
| `Strings.ParseIntWithoutDigits` | server/routes.ts:35-38 | A string with no decimal digit (e.g. `"abc"`, `""`, `"-"`) is `NaN`. |
| `Strings.ParseIntIgnoresSuffix` | server/routes.ts:35 | `parseInt` stops at the first non-digit: a number followed by other text reads as the number. |
| `Strings.ParseIntSkipsWhiteSpace` | server/routes.ts:35 | Leading white space (ECMAScript's `WhiteSpace` and `LineTerminator` characters, which `parseInt` trims) before a decimal is skipped. |
| `Strings.NatToDecimal` | client/src/components/business-form.tsx:90 | The rendering of a number is non-empty, all decimal digits, and has no leading zero unless the number is 0. |
| `Strings.DecimalInjective` | client/src/components/business-form.tsx:90 | Different numbers render as different strings. |
| `Strings.ReplaceFirstAtStart` | server/routes.ts:195 | `replace` with a string pattern that starts the input replaces that occurrence. |
| `Strings.ReplaceFirstAt` | server/routes.ts:195 | `replace` with a string pattern whose first occurrence is at position `k` gives the text before it, then the replacement, then the text after it. |
| `Strings.ReplaceFirstWithoutOccurrence` | server/routes.ts:195 | `replace` returns its input unchanged when the pattern does not occur in it. |
| `Strings.LikeAnything` | server/storage.ts:108 | The pattern `%` matches every string. |
| `Strings.LikeContainsPattern` | server/storage.ts:108 | For a value without `%`, `_` or a backslash, `s LIKE '%value%'` holds exactly when `s` contains the value. |
| `Schema.StringKey` | shared/schema.ts:8-9 | A required string key is accepted exactly when present, a string, and within the length bounds; the value is the body's. |
| `Schema.NullableStringKey` | shared/schema.ts:10-21 | A nullable column is accepted exactly when left out, `null`, or a string within the bound. Left out and `null` both give SQL NULL; a string gives the body's string. |
| `Schema.OptionalStringKey` | shared/schema.ts:48 | In a partial schema, a key is accepted exactly when absent or a string within the bound. It is "not given" exactly when absent; a given value is the body's string. |
| `Schema.OptionalNullableKey` | shared/schema.ts:48 | In a partial schema, a nullable key is accepted exactly when absent, `null`, or a string within the bound. It is not given exactly when absent and given as NULL exactly when `null`; a given string is the body's. |
| `Schema.CustomFieldsKey` | shared/schema.ts:20 | `customFields` is accepted exactly when absent, `null` or an object of strings. It is "not given" (so the column default applies) exactly when absent and NULL exactly when `null`; a given map is the body's. |
| `Schema.NumberKey` | shared/schema.ts:49 | `z.number()` accepts exactly a number under the key, and returns it. |
| `Schema.ParseBusinessPatch` | shared/schema.ts:48 | The partial schema accepts a body exactly when each of the 14 column keys is absent or acceptable, and each field of the result is the body's value, or not given exactly when the key is absent. |
| `Schema.ParseInsertBusiness` | shared/schema.ts:43-46 | An insert body is accepted exactly when `name` and `taxId` are present and every column key has its column's type (`InsertKeysAcceptable`: the update schema's conditions plus the two required keys). Each field of the accepted record comes from its key (`InsertFromBody`). `name` and `taxId` are the body's strings. A nullable column is NULL exactly when its key is absent or `null`, and otherwise the body's string. `customFields` is left out, NULL or the body's map as the key is absent, `null` or a map. The tax ID and phone are at most 20 characters. |
| `Schema.ParseUpdateBusiness` | shared/schema.ts:48-50 | An update is accepted exactly when `id` is a number and every other schema key is absent or acceptable. It carries the body's `id`, and each field is not given exactly when its key is absent and otherwise holds the body's value. |
| `Schema.ParseSearch` | shared/schema.ts:52-55 | A search is valid exactly when `field` is one of the 13 tags and `value` is a non-empty string; the record holds both. |
| `Schema.ParseDeleteBusiness` | shared/schema.ts:57-60 | A delete request is valid exactly when `id` is a number and `password` a string (possibly empty). |
| `Schema.OptionalNonNullString` | shared/schema.ts:67 | `z.string().optional()` accepts exactly an absent key or a string (`null` is rejected). It is missing exactly when absent; otherwise it is the body's string. |
| `Schema.ParseInsertDocumentTransaction` | shared/schema.ts:62-68 | A document insert is accepted exactly when `businessId` is a number, `documentType`, `transactionType` and `handledBy` are strings, `notes` is absent, `null` or a string, and `transactionDate` is absent or a string. The record holds the body's values; notes are NULL exactly when absent or `null`, and the date is missing exactly when absent. |
| `Schema.InsertDocumentAcceptsAnyText` | shared/schema.ts:28-30 | Any strings are accepted for `documentType`, `transactionType` and `handledBy`; the type is not limited to "giao"/"nhận". |
| `Schema.ParseLogin` | shared/schema.ts:75-78 | A login is valid exactly when `username` and `password` are non-empty strings. |
| `Schema.ParseChangePassword` | shared/schema.ts:80-83 | A password change is valid exactly when `currentPassword` and `newPassword` are non-empty strings. |
| `Schema.InsertBusinessRoundTrip` | shared/schema.ts:43-46 | Every insert record within the length limits, sent as JSON, is accepted as exactly that record. |
| `Schema.InsertRejectsLongTaxId` | shared/schema.ts:9 | A tax ID longer than 20 characters is rejected by the validator. |
| `Schema.InsertReadsOnlySchemaKeys` | shared/schema.ts:43-46 | Two bodies that agree on the schema's keys validate alike; other keys are dropped. |
| `Schema.InsertIgnoresIdAndCreatedAt` | shared/schema.ts:43-46 | Whatever a body holds under `id` or `createdAt` does not change what the insert validator returns. |
| `Schema.UpdateFieldsAllOptional` | shared/schema.ts:48-50 | A body with only a numeric `id` is a valid update that gives no field. |
| `Schema.UpdateNeedsNumericId` | shared/schema.ts:48-50 | An update body without a numeric `id` is rejected. |
| `Storage.GetBusinessById` | server/storage.ts:49-55 | `getBusinessById` finds a row exactly when some stored row has the id; the row found is stored and has that id. Otherwise it returns `undefined`, never an error. |
| `Storage.CheckBusinessRow` | shared/schema.ts:9-11 | The database accepts a row exactly when its lengths fit and no other row holds its tax ID. |
| `Storage.CreateBusinessIn` | server/storage.ts:41-47 | An insert fails with a too-long value exactly when a length bound is broken, and with a duplicate key exactly when the lengths fit and another row holds the tax ID. Otherwise it succeeds with the new id, the current time and the submitted tax ID. |
| `Storage.CreatedBusinessFields` | server/storage.ts:41-47 | A created business has the new id, the creation time and every submitted field; `customFields` defaults to `{}` when left out. |
| `Storage.CreateDuplicateIff` | shared/schema.ts:9 | For an insert within the lengths, creation fails with a duplicate key exactly when some row holds the tax ID. |
| `Storage.CreateKeepsValid` | shared/schema.ts:7-11 | Storing a created business keeps ids and tax IDs unique and the column lengths, and advances the id counter. |
| `Storage.CreateThenGet` | server/storage.ts:41-55 | After a create, `getBusinessById` of the new id returns the created row; every other id finds what it found before. |
| `Storage.SecondCreateWithSameTaxIdFails` | server/storage.ts:41-47 | A second create with a tax ID already stored fails. |
| `Storage.ListBusinesses` | server/storage.ts:57-76 | The listing succeeds exactly when LIMIT and OFFSET are not negative; then `total` is the row count and at most `limit` rows are returned. |
| `Storage.ListingSortedAndStored` | server/storage.ts:57-76 | A listed page is newest first and holds only stored businesses. |
| `Storage.ListingIsPage` | server/storage.ts:57-66 | Page `p` of the listing is the newest-first order after skipping `(p - 1) * limit` rows. |
| `Storage.ListedPagesArePrefix` | server/storage.ts:57-76 | Pages 1..k of the listing together are the first `k * limit` businesses, newest first: every business is on exactly one page. |
| `Storage.SearchColumnCoversTags` | server/storage.ts:98-166 | The search switch has a case for exactly the 13 tags the search validator admits. |
| `Storage.PartialTags` | server/storage.ts:104-118 | Only `namePartial` (on `name`) and `addressPartial` (on `address`) compare with `LIKE`. |
| `Storage.SearchBusinesses` | server/storage.ts:95-167 | A search returns only stored rows, none twice. |
| `Storage.SearchExact` | server/storage.ts:99-163 | An exact search returns exactly the stored rows whose column equals the value; a NULL column never matches. |
| `Storage.SearchPartial` | server/storage.ts:104-118 | A partial search returns exactly the rows whose column matches `%value%`. Without wildcards in the value, these are the rows whose column contains it. |
| `Storage.SearchUnknownTag` | server/storage.ts:164-165 | A tag the switch does not know returns `[]`. |
| `Storage.PatchChangesOnlyGiven` | server/storage.ts:78-86 | An update sets each given column (the 12 text columns, `password`, `notes` and `customFields`) to the given value and keeps every other column; `id` and `createdAt` never change. |
| `Storage.PatchIdempotent` | server/storage.ts:78-86 | Applying the same update twice is the same as applying it once. |
| `Storage.ReplaceRow` | server/storage.ts:80-84 | `UPDATE ... WHERE id = ...` replaces the row with that id and keeps every other row in place. |
| `Storage.UpdateIn` | server/storage.ts:78-86 | An update with no field fails with "no values to set". Otherwise a missing id gives `undefined`. A found row is patched, and the update succeeds exactly when the patched row fits the lengths and no other row holds its tax ID; it then returns the patched row. |
| `Storage.UpdateMissingId` | server/storage.ts:78-86 | Updating an id no row has returns `undefined`, or the "no values to set" error when the update gives no field. |
| `Storage.UpdateKeepsValid` | server/storage.ts:78-86 | A successful update returns the row with the same id and creation time, keeps the constraints, and the new row is what `getBusinessById` then returns. |
| `Storage.ReplaceRowKeepsValid` | shared/schema.ts:7-11 | Replacing a stored row with one that passes the length and uniqueness checks keeps the table's constraints. |
| `Storage.DeleteRemoves` | server/storage.ts:88-93 | `deleteBusiness` reports a removal exactly when a row had the id, and afterwards no row has it. |
| `Storage.DeleteKeepsOthers` | server/storage.ts:88-93 | Deleting keeps every row with another id. |
| `Storage.DeleteIdempotent` | server/storage.ts:88-93 | A repeated delete changes nothing and finds nothing to remove, so it reports `false`. |
| `Storage.DeleteKeepsValid` | shared/schema.ts:7-11 | Deleting a business keeps the business table's constraints. |
| `Storage.TransactionDate` | server/storage.ts:171-176 | A transaction date that is left out or empty becomes the current time; any other string is parsed as a date. |
| `Storage.CreateTransactionIn` | server/storage.ts:170-183 | A created transaction has the new id, an existing business, the submitted business id, document type, transaction type, handler and notes, the creation time, and the given or default date. |
| `Storage.CreateTransactionIff` | shared/schema.ts:27 | A transaction is stored exactly when its date is valid and its business exists. |
| `Storage.CreateTransactionKeepsValid` | shared/schema.ts:26-27 | Storing a transaction keeps transaction ids unique and every transaction's business existing. |
| `Storage.TransactionsOf` | server/storage.ts:185-191 | The transactions of a business are listed latest date first, and are a permutation of its rows in the table. |
| `Storage.TransactionsOfHas` | server/storage.ts:185-191 | A transaction is listed for a business exactly when it is stored with that business id. |
| `Storage.DeleteTransactionRemoves` | server/storage.ts:193-198 | `deleteDocumentTransaction` reports a removal exactly when a transaction had the id, and afterwards none has it. |
| `Storage.FilterTransactionsKeepsValid` | shared/schema.ts:26-27 | Removing transactions keeps the transaction table's constraints. |
| `Storage.CascadeLeavesNoOrphans` | shared/schema.ts:27 | After a business and its transactions are deleted, every remaining transaction still refers to an existing business. |
| `Storage.DeleteCascadeKeepsValid` | server/storage.ts:88-93 | Deleting a business with its transactions keeps the constraints of both tables. |
| `Storage.TransactionsValidAfterBusinessWrite` | shared/schema.ts:27 | A business write that keeps every existing id keeps every transaction's business existing. |
| `Storage.UpdateKeepsTablesValid` | shared/schema.ts:7-38 | A successful update keeps the constraints of all three tables. |
| `Storage.CreateAdminIn` | server/storage.ts:201-207 | Creating an admin fails exactly when the username is taken; otherwise the row holds the given username and password. |
| `Storage.CreateAdminKeepsValid` | shared/schema.ts:36-38 | Storing a created admin keeps ids and usernames unique. |
| `Storage.GetAdminByUsername` | server/storage.ts:239-245 | `getAdminByUsername` finds an admin exactly when some admin has the username; the admin found is stored and has it. |
| `Storage.AuthenticateAdmin` | server/storage.ts:209-219 | An authenticated admin is stored, with the login's username and password; an unknown username authenticates no one. |
| `Storage.AuthenticateIff` | server/storage.ts:209-219 | `authenticateAdmin` succeeds exactly when some admin has the username and that password, and returns that admin. |
| `Storage.SetPassword` | server/storage.ts:231-234 | The password update changes the password of the rows with that username and nothing else. |
| `Storage.ChangePasswordIn` | server/storage.ts:221-237 | The change succeeds only when an admin has the username and the current password; an unknown username fails. |
| `Storage.ChangePasswordEffect` | server/storage.ts:221-237 | After a password change, the new password authenticates, the old one no longer does (unless they are equal), and the constraints hold. |
| `Storage.DatabaseStorage.constructor` | shared/schema.ts:6-41 | A fresh store has empty tables and id counters at 1. |
| `Storage.DatabaseStorage.CreateBusiness` | server/storage.ts:41-47 | Appends the created row and advances the counter on success; changes nothing on a database error. |
| `Storage.DatabaseStorage.UpdateBusiness` | server/storage.ts:78-86 | Replaces the row with the patched row on success; changes nothing otherwise. |
| `Storage.DatabaseStorage.DeleteBusiness` | server/storage.ts:88-93 | Removes the business and, by cascade, its transactions; returns whether a row was removed. |
| `Storage.DatabaseStorage.CreateDocumentTransaction` | server/storage.ts:170-183 | Appends the transaction on success and advances the counter; changes nothing on an error. |
| `Storage.DatabaseStorage.DeleteDocumentTransaction` | server/storage.ts:193-198 | Removes the transaction with the id; returns whether one was removed. |
| `Storage.DatabaseStorage.CreateAdminUser` | server/storage.ts:201-207 | Appends the admin on success and advances the counter; changes nothing for a taken username. |
| `Storage.DatabaseStorage.ChangeAdminPassword` | server/storage.ts:221-237 | Returns `false` and changes nothing unless the current password matches; otherwise stores the new password. |
| `Routes.QueryNumber` | server/routes.ts:21-22 | `parseInt(p) \|\| d` is never 0 when the default is not. |
| `Routes.QueryNumberOfDecimal` | server/routes.ts:21-22 | A positive decimal `page` or `limit` is used as given. |
| `Routes.QueryNumberFallback` | server/routes.ts:21-22 | A `page`/`limit` that is missing, has no digit at all, or is exactly `"0"` falls back to the default. |
| `Routes.ExtractToken` | server/routes.ts:195-196 | An extracted token is never empty: an empty result counts as no token. |
| `Routes.ExtractBearer` | server/routes.ts:203-204 | `Authorization: Bearer <token>` yields the token. |
| `Routes.ExtractFirstBearer` | server/routes.ts:195-196 | With the first "Bearer " at position `k` of the header, the token is the header with that occurrence removed, wherever it is. |
| `Routes.ExtractWithoutBearer` | server/routes.ts:203-204 | A header without "Bearer " is itself the token; "Bearer " alone is no token. |
| `Routes.Session` | server/routes.ts:203-204 | A request has a session exactly when its header yields a token that is in `authTokens`, and the session is that token's entry. |
| `Routes.ListRoute` | server/routes.ts:19-30 | With `p` and `l` the page and limit after the defaults, the listing route answers 500 exactly when `l < 0` or `(p - 1) * l < 0`, and 200 otherwise. A 200 carries the page of the newest-first order that starts at `(p - 1) * l` and holds at most `l` rows, with the row count. |
| `Routes.ListRouteDefaults` | server/routes.ts:21-24 | Without parameters the route lists the ten newest businesses with the total count. |
| `Routes.ListRouteNegativeLimit` | server/routes.ts:22-28 | A negative `limit` reaches the database and is answered 500. |
| `Routes.GetBusinessRoute` | server/routes.ts:33-50 | 400 exactly for a non-numeric id; 500 exactly for a numeric id outside `integer`; 404 exactly when no stored row has an id within range; 200 otherwise, with a stored row having that id. |
| `Routes.GetBusinessRouteById` | server/routes.ts:33-50 | A stored business asked for by its id is returned with 200; an id no row has is 404. |
| `Routes.SearchRoute` | server/routes.ts:105-121 | The search route answers 400 exactly when the search body is invalid, and otherwise 200 with `SearchBusinesses` of the parsed search, a sub-multiset of the stored rows; only 200 and 400 occur. |
| `Routes.GetDocumentsRoute` | server/routes.ts:274-287 | 400 exactly for a non-numeric business id and 500 exactly for one outside `integer`. A 200 lists, latest date first, exactly the stored transactions of that business. |
| `Routes.MeRoute` | server/routes.ts:202-213 | `/me` always answers 200. It reports a session exactly when the header yields a token in `authTokens`, and then reports that token's entry. |
| `Routes.CreateBusinessRoute` | server/routes.ts:53-73 | An invalid body is answered 400. For a valid body the answer is 400 exactly when another row holds its tax ID, and otherwise 201 with `NewBusiness` of the parsed record, the next id and the current time. Only 201 and 400 occur: the 500 branch is kept, but the validator's length limits rule out the store's only other error. |
| `Routes.CreateBusinessRouteStores` | server/routes.ts:53-57 | A client's insert body with a new tax ID is answered 201 with the row built from exactly that record. |
| `Routes.CreateBusinessRouteDuplicate` | server/routes.ts:66-68 | Any valid create body whose tax ID is already stored is answered 400, when every stored id is below the counter. |
| `Routes.UpdateUsesPathId` | server/routes.ts:83 | The update that is validated carries the path id, whatever `id` the body holds. |
| `Routes.UpdateBusinessRoute` | server/routes.ts:76-102 | The update route answers 400 for a non-numeric id before anything else, and 400 for a body the update schema refuses (with the path id in place of the body's). For a valid body and an `integer` id: an empty patch is 500; otherwise the answer is 404 exactly when no row has the id, and a 200 returns that row with the patch applied. An id outside `integer` gives 400 or 500, and only 200, 400, 404 or 500 occur. |
| `Routes.UpdateDuplicateIs500` | server/routes.ts:91-101 | An update that would duplicate a tax ID is answered 500: update has no duplicate-key case. |
| `Routes.DeleteBusinessCheck` | server/routes.ts:124-143 | 400 for a non-numeric id or a body without a string password; 403 for any other password than "0102"; the delete goes ahead exactly with a numeric id within `integer` and that password, and only under the path id. |
| `Routes.WrongDeletePasswordIs403` | server/routes.ts:133-135 | A numeric id with any other password than "0102" is answered 403 before anything is deleted. |
| `Routes.DeletePasswordAdmits` | server/routes.ts:131-137 | With the password "0102" the business with the path id (within `integer`) is the one deleted. |
| `Routes.DeleteBusinessRoute` | server/routes.ts:124-154 | A refused request gets `DeleteBusinessCheck`'s answer. Once the checks pass the answer is 200 exactly when a stored business had the id, and 404 otherwise. |
| `Routes.LoginRoute` | server/routes.ts:164-180 | Login answers 400 exactly for an invalid body. A 200 carries the new token and the id and username of a stored admin whose username and password are the submitted ones. Only 200, 400 or 401 occur. |
| `Routes.LoginIff` | server/routes.ts:166-171 | Any body the login schema accepts is answered 200 exactly when some admin has its username and password. |
| `Routes.LogoutTokens` | server/routes.ts:194-200 | Logout removes the header's token, if any, and adds none; without a token the map is unchanged. |
| `Routes.LoginThenMe` | server/routes.ts:164-213 | After login stores a token, `/me` with `Bearer <token>` reports that admin's id and username. |
| `Routes.LogoutThenMe` | server/routes.ts:194-213 | After logout, `/me` with the same header reports no session. |
| `Routes.LogoutKeepsOthers` | server/routes.ts:195-198 | A logout removes at most its own token; every other session stays. |
| `Routes.ChangePasswordRoute` | server/routes.ts:216-244 | Without a session the answer is 401, before the body is read. With a session it is 200 or 400: 400 for an invalid body, and for a valid body 200 exactly when `ChangePasswordIn` accepts the session admin's change, otherwise 400. |
| `Routes.ChangePasswordRouteIff` | server/routes.ts:225-232 | With a session and any body the schema accepts, the answer is 200 exactly when the session's admin has the body's current password. |
| `Routes.CreateDocumentRoute` | server/routes.ts:247-272 | Creating a transaction answers 400 for a non-numeric business id and 400 or 500 for one outside `integer`. For an id within `integer`, a body the document schema refuses (with the path id as `businessId`) is 400. For a valid body the answer is 201 with `CreateTransactionIn`'s transaction exactly when the store accepts it, which is exactly when the date is valid and a business has the id, and 500 otherwise. Only 201, 400 or 500 occur. |
| `Routes.CreateDocumentUsesPathId` | server/routes.ts:254-257 | A created transaction belongs to the business in the path, whatever the body says. |
| `Routes.DeleteDocumentCheck` | server/routes.ts:289-309 | Without a session the answer is 401 before the id is read; then 400 for a non-numeric id and 500 for one outside `integer`; the deletion goes ahead exactly with a session and an id within range. |
| `Routes.DeleteDocumentRoute` | server/routes.ts:289-313 | A refused request gets `DeleteDocumentCheck`'s answer. Otherwise the answer is 200 exactly when a stored transaction had the id, and 404 otherwise. |
| `Routes.Server.constructor` | server/routes.ts:157 | The server starts with no sessions. |
| `Routes.Server.CreateBusiness` | server/routes.ts:53-73 | Answers as the create route says; stores the business exactly when it answers 201. |
| `Routes.Server.UpdateBusiness` | server/routes.ts:76-102 | Answers as the update route says; replaces the row exactly when it answers 200; does not touch the sessions. |
| `Routes.Server.DeleteBusiness` | server/routes.ts:124-154 | Answers as the delete route says; deletes (with cascade) only after the id and password checks pass. |
| `Routes.Server.Login` | server/routes.ts:164-192 | On 200, maps the new token to the admin (the session `/me` then reports); for any other answer, leaves the sessions as they were. |
| `Routes.Server.Logout` | server/routes.ts:194-200 | Always answers 200 and removes the header's token, if any; the header then has no session. |
| `Routes.Server.ChangePassword` | server/routes.ts:216-244 | Answers as the route says; stores the new password exactly when it answers 200. |
| `Routes.Server.CreateDocument` | server/routes.ts:247-272 | Answers as the route says; stores the transaction exactly when it answers 201. |
| `Routes.Server.DeleteDocument` | server/routes.ts:289-313 | Answers as the route says; deletes only with a session and a numeric id within `integer`. |
| `BusinessForm.NewFieldNameInjective` | client/src/components/business-form.tsx:90 | Fields added at different times get different names. |
| `BusinessForm.AddCustomField` | client/src/components/business-form.tsx:89-92 | Adds the new field with value `""` and leaves every other entry unchanged. |
| `BusinessForm.RemoveCustomField` | client/src/components/business-form.tsx:94-100 | Removes exactly that field and keeps every other entry unchanged. |
| `BusinessForm.UpdateCustomField` | client/src/components/business-form.tsx:102-104 | Sets that field's value and leaves every other entry unchanged. |
| `BusinessForm.UpdateCustomFieldName` | client/src/components/business-form.tsx:106-114 | Identity when the names are equal. Otherwise the new name gets the old name's value (overwriting), the old name goes, and every other entry stays. |
| `BusinessForm.RemoveUndoesAdd` | client/src/components/business-form.tsx:89-100 | Removing a field just added under an unused name gives back the map as it was. |
| `BusinessForm.TwoAddsKeepBoth` | client/src/components/business-form.tsx:89-92 | Two adds at different times keep both new fields and every old one. |
| `BusinessForm.RenameRoundTrip` | client/src/components/business-form.tsx:106-114 | Renaming a field to an unused name and back gives back the map as it was. |
| `BusinessForm.RenameKeepsValues` | client/src/components/business-form.tsx:106-114 | Renaming a field to an unused name keeps the set of values. |
| `BusinessForm.OnSubmit` | client/src/components/business-form.tsx:116-123 | The submitted record is the form's record with the custom-field map in place of `customFields`. It goes to update (with the business's id) exactly when a business is being edited. |
| `BusinessForm.SubmittedCustomFieldsAreStored` | client/src/components/business-form.tsx:116-123 | A new business submitted with a new tax ID is created (201) with exactly the form's custom-field map. |

## Left out

- Postgres and drizzle internals. Tables are sequences and ids come from counters. A Postgres sequence also advances on a failed insert; the model only advances on success. Either way ids are fresh.
- Time. `CURRENT_TIMESTAMP`, `new Date()` and `Date.now()` are the parameter `now`. The database clock and the server clock are taken to be the same.
- Date parsing. `new Date(s)` is the parameter `dateOf`; `None` stands for an invalid date, which makes the insert fail.
- Concurrency. The two queries of `getAllBusinesses` (run with `Promise.all`) are one atomic read. The select-then-update of `changeAdminPassword` is one step.
- `Storage.ChangePasswordIn`: returns `true` whenever the existing password matches. The source returns `rowCount > 0`, which could only differ under a concurrent delete.
- `total` comes back from `count(*)` as a plain row count. The source's driver may return it as a string.
- Integer widths. Ids and `businessId` are PostgreSQL `integer` (4 bytes). A numeric path id outside that range is refused by the database and answered 500; this is modelled, with nothing written. The store's `serial` counters are unbounded here, while PostgreSQL's would run out after 2^31 - 1 rows. `LIMIT`/`OFFSET` beyond the 8-byte `bigint` range are not modelled.
- Tie order. Rows with equal `createdAt` (or `transactionDate`) keep table order. Postgres does not specify an order for them.
- String lengths count characters (`seq<char>` elements). JavaScript counts UTF-16 code units and Postgres counts characters, so the two can differ for characters outside the Basic Multilingual Plane.
- `LIKE` collation and case rules belong to the database. The model compares characters exactly, with backslash as the escape character.
- `parseInt`: only the base-10 and `0x` forms, after trimming ECMAScript's `WhiteSpace` and `LineTerminator` characters. Numbers beyond 2^53 and fractional parts are not modelled; a JSON number is an integer here, and other JSON values are `JOther`.
- `Schema.CustomFieldsKey`: accepts only `null` or an object of strings, while the generated schema accepts any JSON value for the `jsonb` column.
- `Schema.ParseInsertBusiness`, `Schema.ParseUpdateBusiness`: the 20-character limits on `taxId` and `phone` come from the `varchar(20)` columns. The validator generated from them is taken to enforce the same limit.
- An update that gives no field is taken to raise drizzle's "No values to set" error (answered 500). This is the library's behaviour, not code of this repository.
- `BusinessForm.UpdateCustomFieldName`: when the old name is not a field, the source stores `undefined` under the new name. The model removes the new name, which is how the JSON body drops it. The form only renames fields it shows, so this case does not arise from the UI.
- `generateToken` (`Math.random`, `Date.now`) becomes the `token` parameter of `Server.Login`, and that token must be non-empty. A token equal to a live one overwrites it, like `Map.set`.
- `insertAdminUserSchema` is not used by any route, so `createAdminUser` takes its record without a validator.
- The update request that the form's submit sends for an edit is not checked against the update validator key by key. Only the create path is proved end to end (`SubmittedCustomFieldsAreStored`).
- HTTP and UI. Express routing, `console.error`, the message texts and the `errors` list are not modelled; a `Message` payload stands for all of them. Other exceptions that would lead to a 500 (a lost connection, for instance) are not modelled. The same goes for React rendering, react-query, toasts, `fetch`, `localStorage` and every other client file.
