# Snippets website: a Dafny model of its request rules and client storage

The snippets website lets people sign up, sign in with a bearer token, and keep short code
snippets. Each snippet belongs to one author and is served as plain text at
`/api/snippets/<username>/<snippet name>`. Administrators manage account types and may delete
anyone's snippets and any account but their own. The browser client keeps its credential, the signed-in account, the
editor's unsaved work and the editor preferences in Web Storage.

This project models two parts of the system and proves properties of each.

**The server's request handling.**
- `Models` holds the three tables in one class, `Models.Store`:
  - accounts, account types and snippets, each a map from the auto-increment id to the row;
  - the class invariant `Store.Valid` is the set of constraints the Sequelize models declare. These are: unique and non-empty email and username, a non-empty password, an existing account type, unique (author, name) and (author, body) for snippets, and an existing author;
  - insert, update and delete are methods whose `ensures` give the new tables exactly. This includes the cascade from an account to its snippets and the refused delete of a type an account still has.
- The controllers are handler methods over the store (`SnippetController`, `AccountController`, `AccountTypeController`, `AuthController`). Beside each handler sit the pure decisions it takes: body parsing, the permission gates, the `where` a request addresses, and the find-query options.
- `ServerUtils` reads the credential out of the `Authorization` header.
- A decoded credential is an abstract value: `Verified(account)`, `Expired(message)` or `Invalid`.

**The client.**
- `ClientUtils` builds the pagination window.
- `ClientAuth`, `ClientAccount`, `EditorSession` and `EditorSettings` work against `WebStorage.Storage`, a class holding a `map<string, string>` that the methods update through `SetItem` and `RemoveItem`.
- Every state change is stated as a function of the old map. Round trips (save then read back) and "no other key changes" are proved about those functions.

**Shared helpers.** `JsText` models the JavaScript built-ins the code relies on:
- `String.prototype.split` on one character;
- `parseInt` without a radix, with `None` for NaN;
- the decimal numeral `String(n)` of an integer.

It proves `parseInt(String(n)) === n`, which every numeric round trip in the client rests on.

**Where the model departs from the text.**
- `AccountTypeController.create` (server/controllers/AccountTypeController.js:122-126) sends its 400 without returning. The corrected handler, `AccountTypeController.Create`, is the handler whose contract states the intended behaviour; `CreateAsWritten` shows the discrepancy.
- `AccountTypeController.update` (lines 221-227) has the same missing `return`. After the 400 it runs an empty update, which changes no modelled column (Sequelize may still refresh `updatedAt`, which the model does not hold), so the model keeps the as-written behaviour: the reply is the 400 and the type table is unchanged.
- The tab-size setter (app/src/modules/EditorSettings.js:167-183) documents that it accepts any size of at least 1, but the code refuses 1. The model follows the code, and `EditorSettings.TabSizeOneIsRefused` records the difference.

## Model

| member | source | states |
|---|---|---|
| Common.Text | server/config/strings.js:29-83 | exactly the library-made messages (token error, database error, null dereference) have no entry in the string table |
| Common.AuthFailure | server/controllers/AccountTypeController.js:204-213 | an unusable credential is always 401: with the library's message when it expired, "Unauthorized" otherwise |
| JsText.CodeUnitLength | server/controllers/AccountController.js:327-328 | `length` counts UTF-16 code units: between one and two per character, and one per character when none is outside the Basic Multilingual Plane |
| JsText.CodeUnitLengthAppend | server/controllers/SnippetController.js:150-152 | the length of a concatenation is the sum of the lengths |
| JsText.EmojiIsTwoCodeUnits | server/controllers/SnippetController.js:230 | an emoji is one character but two code units |
| ServerUtils.GetToken | server/modules/Utils.js:38-49 | a missing or empty header gives "not found"; the header is accepted iff it holds exactly one space; the credential is the part after that space (no spaces, a proper suffix) |
| ServerUtils.GetTokenRoundTrip | server/modules/Utils.js:43-48 | for a scheme and a token without spaces, reading `scheme + " " + token` gives back the token |
| ServerUtils.DoubleSpaceIsMalformed | server/modules/Utils.js:43-47 | two consecutive spaces make the header malformed, whatever surrounds them |
| ServerUtils.Credentials | server/controllers/AccountController.js:50-53 | a missing header decodes as invalid; any other outcome comes from verifying the token the header carries |
| Models.ApplyAccountChanges | server/controllers/AccountController.js:426-454 | an account update never changes the username |
| Models.ApplySnippetChanges | server/controllers/SnippetController.js:221-238 | a snippet update never changes the author |
| Models.WithoutAuthor | server/models/Snippet.js:45-50 | the cascade keeps exactly the snippets of other authors, unchanged |
| Models.DifferentAuthorsMayShare | server/models/Snippet.js:53-62 | the unique indexes are per author: two authors may hold snippets with the same name and the same body |
| Models.CascadeKeepsSnippetsValid | server/models/Snippet.js:45-62 | deleting an account together with its snippets keeps every remaining snippet's author in the table and keeps both indexes |
| Models.Store.constructor | server/models/Account.js:28-33 | an empty database satisfies every constraint |
| Models.Store.InsertAccount | server/models/Account.js:34-66 | an empty email, username or password is refused (EmptyField) first, then a duplicate email or username (UniqueViolation), then a missing account type (ForeignKeyViolation), each exactly when the earlier checks pass; exactly when all pass, the row is added under a fresh id and nothing else changes |
| Models.Store.UpdateAccount | server/models/Account.js:34-66 | an absent id changes 0 rows; otherwise the changed row is stored (count 1) iff it keeps a non-empty email and password, clashes with no other account and names an existing type; an empty field is EmptyField and otherwise a clash is UniqueViolation; a refusal changes nothing |
| Models.Store.DestroyAccount | server/models/Snippet.js:45-50 | counts 1 iff the account existed, removes it and, by the cascade, exactly its snippets |
| Models.Store.FindOrCreateType | server/controllers/AccountTypeController.js:127-131 | the result is a type with that name; it is created iff no type had the name, and otherwise nothing changes |
| Models.Store.UpdateType | server/controllers/AccountTypeController.js:228-235 | an absent type, or one named Admin or User, matches 0 rows; renaming to a taken name is a unique violation; otherwise 1 row gets the new name |
| Models.Store.DestroyType | server/models/Account.js:61-66 | an absent or protected type matches 0 rows; a type some account has is refused (restrict) and kept; otherwise exactly that type is removed |
| Models.Store.InsertSnippet | server/models/Snippet.js:34-62 | a missing author is refused; the row is added under a fresh id iff the author has no snippet with that name or that body |
| Models.Store.UpdateSnippet | server/controllers/SnippetController.js:237-241 | only a row the `where` matches changes, and only when the result keeps the author's indexes; otherwise 0 rows and nothing changes |
| Models.Store.DestroySnippet | server/controllers/SnippetController.js:314-322 | deletes the snippet iff the `where` matches it, counting 1, else 0 |
| SnippetController.ParseCreateRequest | server/controllers/SnippetController.js:140-157 | fails on the first of: missing name, missing body, name outside the pattern (4..24 of `[a-zA-Z0-9_-]`), body over 10000 UTF-16 code units; succeeds iff none applies, with exactly the name and the body |
| SnippetController.CreateDecision | server/controllers/SnippetController.js:91-110 | an unusable credential gives 401 before any validation, a rejected body gives 400, and otherwise the row's author is the credential's account, whatever the body says |
| SnippetController.BuildUpdate | server/controllers/SnippetController.js:221-235 | a bad name gives 400 first and then an over-long body; on success the record holds only the given name and body |
| SnippetController.UpdateWhere | server/controllers/SnippetController.js:237 | the update matches the snippet iff the actor wrote it, administrators included, and never another id |
| SnippetController.RemoveWhere | server/controllers/SnippetController.js:314-318 | the delete matches the snippet iff the actor is an administrator or wrote it, and never another id |
| SnippetController.AdminDeletesWhatItCannotUpdate | server/controllers/SnippetController.js:314-318 | an administrator may delete, but not update, a snippet of another author |
| SnippetController.Create | server/controllers/SnippetController.js:91-126 | a refused decision changes nothing; otherwise the snippet is stored, under a fresh id, iff its author exists and has no snippet with that name or body; a failed insert is 422 and changes nothing |
| SnippetController.Update | server/controllers/SnippetController.js:208-256 | 401, then 400 for the name, then for the body, changing nothing; an absent snippet or one of another author is 404 and unchanged; for the owner, the update succeeds iff the changed snippet keeps the author's names and bodies unique, and otherwise it is 422 with a unique violation and changes nothing; success changes only that snippet, by the given fields, and replies with them and the id |
| SnippetController.Remove | server/controllers/SnippetController.js:300-337 | 401 without a usable credential; for the owner or an administrator exactly that snippet is deleted with 200, otherwise 404 and nothing is deleted |
| SnippetController.FindUserSnippet | server/controllers/SnippetController.js:515-546 | the reply is a body iff some account of that username has a snippet of that name, and then it is that snippet's body; otherwise 404 |
| AccountTypeController.AdminGate | server/controllers/AccountTypeController.js:107-120 | a request passes iff the credential is usable and names an administrator; otherwise 401 (with the expiry message when expired) or 403 |
| AccountTypeController.CheckNewName | server/controllers/AccountTypeController.js:122-126 | a missing name and a name outside 4..24 ASCII letters are refused with their own messages; a name is accepted iff it matches |
| AccountTypeController.CreateAsWritten | server/controllers/AccountTypeController.js:106-142 | as written: after a 400 for a malformed but non-empty name, a type of that name still exists afterwards |
| AccountTypeController.MalformedNameIsStillCreated | server/controllers/AccountTypeController.js:122-131 | an administrator creating "abc" on an empty table gets 400, and "abc" is in the type table afterwards |
| AccountTypeController.Create | server/controllers/AccountTypeController.js:106-142 | corrected: the gate and the name check reply without touching the table; a valid name yields that type, created only when no type has the name |
| AccountTypeController.Update | server/controllers/AccountTypeController.js:202-251 | gate first; a malformed name is 400 and renames nothing; an absent type or one named Admin or User is 404 and unchanged; for a present unprotected type, a name another type has is 422 with a unique violation, and otherwise the update succeeds; success renames only that type and replies with the name (if given) and the id |
| AccountTypeController.Remove | server/controllers/AccountTypeController.js:308-348 | gate first; an absent or protected type is 404; a type an account has is 422 and kept; otherwise exactly that type is removed with 200 |
| AccountTypeController.ParseFindQuery | server/controllers/AccountTypeController.js:399-418 | the name filter is the given name; a limit is set iff it parses to an integer, capped at 25; an offset is set iff it parses |
| AccountController.ParseCreateRequest | server/controllers/AccountController.js:306-336 | fails on the first of: missing email, missing username, missing password, invalid email, username outside 1..16 of `[a-zA-Z0-9_-]`, password length outside 4..24 UTF-16 code units; succeeds iff none applies, with exactly the three fields |
| AccountController.ReservedUsernameMatchesPattern | server/controllers/AccountController.js:92-95 | "count" passes the username pattern, so only the explicit guard keeps it out |
| AccountController.NotFoundMeansNoClash | server/controllers/AccountController.js:345-350 | a body whose email and username the existence check did not find clashes with no account |
| AccountController.FindsAccount | server/controllers/AccountController.js:345-350 | an account sharing the body's email, or its username, is found; a body with neither field finds nothing |
| AccountController.FindTypeByName | server/controllers/AccountController.js:279 | finds a type with that name iff one exists |
| AccountController.CreateAccount | server/controllers/AccountController.js:273-290 | a rejected body changes nothing; a missing type is a null dereference and changes nothing; success adds exactly the row with the hashed password and that type under a fresh id |
| AccountController.CreateUser | server/controllers/AccountController.js:91-148 | "count" is refused before anything else, then an existing email or username, then the parse, all with 422 and no change; success adds exactly the new "User" account and replies with its id, username, email and type |
| AccountController.CreateAdmin | server/controllers/AccountController.js:215-262 | "count" is refused before the credential is read; then 401, 403 for a non-administrator, 422 for an existing account, 422 with the parse error, and 422 with the null dereference when no "Admin" type exists, changing nothing; success adds exactly the row of the body's email and username, the hashed password and the "Admin" type under a fresh id; a valid request with an "Admin" type always succeeds |
| AccountController.UpdateDecision | server/controllers/AccountController.js:420-454 | a non-administrator updating someone else gets 403; then an invalid email is 400 (iff); then an administrator naming a type for their own account gets 403; then a bad password is 400 (iff); the request proceeds iff none applies, with a record holding only email, type and password, and a type only for an administrator updating another account |
| AccountController.PlanUpdate | server/controllers/AccountController.js:420-454 | the checks run one after the other give exactly `UpdateDecision` |
| AccountController.Update | server/controllers/AccountController.js:406-470 | 401 first; a refusal of `UpdateDecision` is sent as it is, with no change; an accepted request on an absent id replies with nothing; on a present id it succeeds iff the changed row keeps a non-empty email and password, clashes with no other account and names an existing type, a clash being 422 with a unique violation; success applies exactly the plan, with the password hashed, to that account alone; a non-administrator's account type never changes |
| AccountController.MayRemove | server/controllers/AccountController.js:569-576 | an administrator may delete exactly the accounts other than their own, anyone else exactly their own |
| AccountController.Remove | server/controllers/AccountController.js:556-598 | 401; 403 for a non-administrator deleting another account and for an administrator deleting their own; otherwise 200 iff the account existed, else 404, and the cascade removes its snippets |
| AccountController.LowerCase | server/controllers/AccountController.js:625-630 | same length, each ASCII capital replaced by its small letter and every other character kept |
| AccountController.IncludesOf | server/controllers/AccountController.js:621-637 | at most one join per piece of the `include` list, and every join comes from a piece that names it |
| AccountController.CollectIncludes | server/controllers/AccountController.js:621-637 | the loop over the pieces collects the joins they name, in order |
| AccountController.NamedIncludesAppear | server/controllers/AccountController.js:624-636 | every piece naming a join, in any letter case, contributes that join to the options |
| AccountController.LimitOf | server/controllers/AccountController.js:639-644 | the limit never exceeds 25; it is 25 unless the query's limit parses, and then it is that limit, capped at 25 |
| AccountController.CreateFindOptions | server/controllers/AccountController.js:607-675 | limit as by `LimitOf`; offset the parsed offset, else 0; joins from the comma-separated `include`; equality filters for the given fields, with `authorId` overriding `id` |
| AuthController.LoginKey | server/controllers/AuthController.js:86-102 | 400 iff the password is missing or both email and username are; the email is the lookup key when given, the username otherwise |
| AuthController.KeyMatchesAtMostOne | server/models/Account.js:34-49 | a lookup key matches at most one account |
| AuthController.Lookup | server/controllers/AuthController.js:93-106 | finds an account iff one matches the key, and returns its id, email, username and type without the password |
| AuthController.AuthAccountAsWritten | server/controllers/AuthController.js:85-139 | as written: an unknown email or username ends in 422 with the null-dereference message |
| AuthController.AuthAccount | server/controllers/AuthController.js:85-139 | corrected: 400 from `LoginKey`; 200 iff an account matches and the password compares equal, replying with that account's id, email, username and type and never the password; every other case is 401 |
| AuthController.RefreshToken | server/controllers/AuthController.js:173-185 | a renewal is issued iff the credential is usable, for the account it names; an expired one gets its own message, anything else "Unauthorized" |
| AuthController.RefreshWithoutHeader | server/controllers/AuthController.js:173-185 | a request without the header is refused as unauthorized |
| AuthController.RefreshWithDoubleSpace | server/modules/Utils.js:43-47 | a header with two consecutive spaces is refused as unauthorized, whatever the verifier would say |
| ClientUtils.Range | app/src/modules/Utils.js:65-86 | the consecutive integers from `lo` up to, not including, `hi` |
| ClientUtils.InnerCount | app/src/modules/Utils.js:56 | the number of inner pages is the smaller of the window and the page count, less the two ends |
| ClientUtils.InnerPages | app/src/modules/Utils.js:58-87 | in every case the inner pages are consecutive |
| ClientUtils.Pagination | app/src/modules/Utils.js:50-54 | no pages for `numPages <= 0`, the single page 1 for one page |
| ClientUtils.PushRun | app/src/modules/Utils.js:65-86 | one inner `for` loop appends consecutive pages from its start |
| ClientUtils.PushInner | app/src/modules/Utils.js:58-87 | the five cases append exactly the inner pages of the window |
| ClientUtils.CreatePaginationArray | app/src/modules/Utils.js:42-90 | the loops produce exactly the window `Pagination` describes |
| ClientUtils.EndsAreFirstAndLast | app/src/modules/Utils.js:55-88 | with two pages or more, page 1 comes first and the last page last |
| ClientUtils.StrictlyIncreasingWithinBounds | app/src/modules/Utils.js:55-89 | every page shown lies in [1, numPages] and the pages strictly increase |
| ClientUtils.InnerPagesWithin | app/src/modules/Utils.js:56-87 | the inner pages are consecutive and lie strictly between the first and the last |
| ClientUtils.InnerLength | app/src/modules/Utils.js:56-87 | there are as many inner pages as the window leaves room for |
| ClientUtils.LengthIsWindowOrAll | app/src/modules/Utils.js:50-89 | with room for the two ends, the bar shows `min(numPages, maxVisiblePages)` pages |
| ClientUtils.AllPagesWhenTheyFit | app/src/modules/Utils.js:62-67 | when every page fits, the bar shows pages 1..numPages in order |
| ClientUtils.InnerStartsAtTwo | app/src/modules/Utils.js:62-73 | a full run of inner pages starts at page 2 |
| ClientUtils.InnerIsConsecutive | app/src/modules/Utils.js:65-86 | each inner page is the first one plus its position |
| ClientUtils.CurrentPageIsShown | app/src/modules/Utils.js:58-88 | with room for three pages, the current page is always shown |
| ClientUtils.DefaultWindow | app/src/modules/Utils.js:42 | with the default window of 5, every caller's bar shows `min(numPages, 5)` pages, the current page among them, and all pages in order when there are at most 5 |
| ClientAuth.IsAuthenticated | app/src/modules/Auth.js:73-75 | a user counts as authenticated iff a token is stored, as after `setToken` and never after `deauthenticateUser` |
| ClientAuth.IssueTime | app/src/modules/Auth.js:168-170 | the issue time is NaN when nothing is stored, and otherwise the stored value as `parseInt` reads it |
| ClientAuth.WithToken | app/src/modules/Auth.js:62-75 | after `setToken` the token is stored, the issue time reads back as `now`, the user counts as authenticated, and no other key changes |
| ClientAuth.WithoutToken | app/src/modules/Auth.js:73-84 | after `deauthenticateUser` the token and its time are gone, the user is no longer authenticated, and no other key changes |
| ClientAuth.TokenAge | app/src/modules/Auth.js:138 | the age is `now` minus the issue time, and NaN exactly when the issue time is |
| ClientAuth.Step | app/src/modules/Auth.js:139-158 | an age up to half of the 86400000 ms lifespan uses the stored token; above half and up to the whole lifespan renews it; beyond the lifespan drops it; a NaN age uses the stored token |
| ClientAuth.StepIsMonotone | app/src/modules/Auth.js:141-158 | an older token never takes an earlier step |
| ClientAuth.StepOfIssueTime | app/src/modules/Auth.js:138-158 | for a stored issue time, the age is `now` minus it, and the step follows the half-lifespan and lifespan thresholds |
| ClientAuth.StepOfTokenSetAt | app/src/modules/Auth.js:133-160 | a token set at `issued` is used for half a day, renewed during the next half day, then dropped |
| ClientAuth.WithoutTokenUsesNothing | app/src/modules/Auth.js:133-160 | once signed out, `getToken` resolves with no token |
| ClientAuth.SetToken | app/src/modules/Auth.js:62-66 | the storage becomes `WithToken` of the old storage |
| ClientAuth.DeauthenticateUser | app/src/modules/Auth.js:80-84 | the storage becomes `WithoutToken` of the old storage |
| ClientAuth.GetTokenAsWritten | app/src/modules/Auth.js:133-160 | as written: a fresh token resolves and changes nothing; an expired one is dropped and never settles; a token due for renewal is rejected with "jwt expired" and the storage is unchanged even when the server renews it |
| ClientAuth.HalfDayOldTokenIsRenewed | app/src/modules/Auth.js:141-147 | a token set just over half a day ago takes the renewal path |
| ClientAuth.GetToken | app/src/modules/Auth.js:133-160 | corrected: as above, except that a successful renewal stores the new token with the time `now` and resolves with it, and a failed one rejects with "jwt expired" and changes nothing |
| ClientAuth.RenewedTokenIsFresh | app/src/modules/Auth.js:141-157 | a token just stored is used as it is |
| EditorSession.SaveCheck | app/src/modules/EditorSession.js:72-83 | a negative cursor row is refused first, then a negative column; a state is accepted iff both are non-negative |
| EditorSession.Saved | app/src/modules/EditorSession.js:84-88 | the four keys hold the title, the content and the numerals of the row and column, and no other key changes |
| EditorSession.TextOrEmpty | app/src/modules/EditorSession.js:99-100 | a stored string reads as itself and a missing one as "" |
| EditorSession.NumberOrZero | app/src/modules/EditorSession.js:101-102 | a readable number reads as itself; a missing or unreadable entry reads as 0 |
| EditorSession.Restored | app/src/modules/EditorSession.js:96-104 | the title and the content read as stored, or "" when missing; a missing cursor row or column reads as 0 |
| EditorSession.RestoreAfterSave | app/src/modules/EditorSession.js:84-103 | restoring what a save stored gives back the saved state |
| EditorSession.RestoreOfNothing | app/src/modules/EditorSession.js:96-104 | with nothing saved, the state is empty with the cursor at (0, 0) |
| EditorSession.SaveEditorSession | app/src/modules/EditorSession.js:72-89 | a refused state leaves the storage alone; an accepted one leaves it as `Saved` describes |
| EditorSession.RestoreEditorSession | app/src/modules/EditorSession.js:96-104 | the state read is `Restored` of the storage |
| ClientAccount.SaveCheck | app/src/modules/Account.js:89-93 | a null account type is refused first, then a type without a string name; the account is accepted iff neither applies |
| ClientAccount.Saved | app/src/modules/Account.js:94-98 | the four keys hold the id's numeral, the username, the email and the type name, and no other key changes |
| ClientAccount.AccountId | app/src/modules/Account.js:120-126 | the id is NaN when nothing is stored, and otherwise the stored value as `parseInt` reads it |
| ClientAccount.StoredAccountOf | app/src/modules/Account.js:106-153 | each field of the account read is the stored value, `None` when missing, with the id read by `parseInt` |
| ClientAccount.Removed | app/src/modules/Account.js:156-162 | the four keys are gone and no other key changes |
| ClientAccount.GetAfterSave | app/src/modules/Account.js:94-126 | after a save, `getAccount` gives back the saved id, username, email and type name |
| ClientAccount.GetAfterRemove | app/src/modules/Account.js:106-162 | after a removal every field of `getAccount` is missing |
| ClientAccount.AccountAndTokenAreIndependent | app/src/modules/Account.js:59-66 | signing the credential out keeps the saved account, and removing the account keeps the credential |
| ClientAccount.SaveAccount | app/src/modules/Account.js:80-99 | a refused account leaves the storage alone; an accepted one leaves it as `Saved` describes |
| ClientAccount.GetAccountId | app/src/modules/Account.js:120-126 | the id read is `AccountId` of the storage |
| ClientAccount.GetAccount | app/src/modules/Account.js:106-153 | the account read is the four stored fields |
| ClientAccount.RemoveAccount | app/src/modules/Account.js:156-162 | the storage becomes `Removed` of the old storage |
| EditorSettings.ReadFlag | app/src/modules/EditorSettings.js:59-68 | a missing switch reads as its default, which is written back; a stored one reads as `value !== 'false'` and changes nothing |
| EditorSettings.FlagRoundTrip | app/src/modules/EditorSettings.js:59-83 | setting a switch and reading it back gives the value set |
| EditorSettings.ReadFlagIsIdempotent | app/src/modules/EditorSettings.js:59-68 | a second read of a switch gives the same value and changes nothing |
| EditorSettings.ReadTabSize | app/src/modules/EditorSettings.js:155-165 | a missing tab size reads as 4, which is written back; a stored one is read by `parseInt` |
| EditorSettings.TabSizeRoundTrip | app/src/modules/EditorSettings.js:155-183 | setting a size above 1 and reading it back gives that size |
| EditorSettings.DefaultTabSizeReadsBack | app/src/modules/EditorSettings.js:158-160 | the default 4 is a size the setter accepts, and once written back it reads as 4 |
| EditorSettings.TabSizeOneIsRefused | app/src/modules/EditorSettings.js:170-179 | the setter refuses 1, although its documentation allows it |
| EditorSettings.ReadEditorMode | app/src/modules/EditorSettings.js:190-198 | corrected: a missing mode reads as plain text, which is written back; a stored one reads as itself |
| EditorSettings.ReadEditorModeAsWritten | app/src/modules/EditorSettings.js:190-198 | as written: a missing mode throws; a stored one reads as in `ReadEditorMode` |
| EditorSettings.FirstVisitModeThrows | app/src/modules/EditorSettings.js:193-195 | with nothing stored, the getter as written throws where the corrected one gives plain text |
| EditorSettings.ModeRoundTrip | app/src/modules/EditorSettings.js:190-208 | setting a mode and reading it back gives the mode set |
| EditorSettings.EditorModesList | app/src/modules/EditorSettings.js:222-353 | the list has 32 entries |
| EditorSettings.ModesAreDistinct | app/src/modules/EditorSettings.js:222-353 | no mode is listed twice, and plain text, the default, is listed |
| EditorSettings.GetWordWrapSetting | app/src/modules/EditorSettings.js:59-68 | reads word wrap as `ReadFlag` with default false |
| EditorSettings.SetWordWrapSetting | app/src/modules/EditorSettings.js:77-83 | stores the switch as "true" or "false" |
| EditorSettings.GetShowInvisiblesSetting | app/src/modules/EditorSettings.js:90-99 | reads show-invisibles as `ReadFlag` with default false |
| EditorSettings.SetShowInvisiblesSetting | app/src/modules/EditorSettings.js:109-115 | stores the switch as "true" or "false" |
| EditorSettings.GetSoftTabsSetting | app/src/modules/EditorSettings.js:122-132 | reads soft tabs as `ReadFlag` with default true |
| EditorSettings.SetSoftTabsSetting | app/src/modules/EditorSettings.js:142-148 | stores the switch as "true" or "false" |
| EditorSettings.SetTabSizeSetting | app/src/modules/EditorSettings.js:175-183 | refuses a size of 1 or less and leaves the storage alone; stores any other size as its numeral |
| EditorSettings.GetTabSizeSetting | app/src/modules/EditorSettings.js:155-165 | reads the tab size as `ReadTabSize` |
| EditorSettings.GetEditorModeSettingAsWritten | app/src/modules/EditorSettings.js:190-198 | as written: gives the stored mode iff one is stored, and writes nothing |
| EditorSettings.GetEditorModeSetting | app/src/modules/EditorSettings.js:190-198 | corrected: reads the mode as `ReadEditorMode` |
| EditorSettings.SetEditorModeSetting | app/src/modules/EditorSettings.js:205-208 | stores the mode as given |

## Left out

- JWT signing and verification are left out. A decoded credential is the abstract `Decoded` value, and a token the server issues is not modelled beyond the account it carries.
- bcrypt is left out: hashing and comparing are the function parameters `hash` and `compare`.
- The email pattern is the parameter `isEmail`. The `isEmail` validation of the account model is left out, because the controller's own check runs first.
- Promise chains, Express plumbing, logging and the `errors` array of a 422 reply are left out. A reply is `Fail(status, message)` or `Done(payload)`.
- The two-send behaviour of the missing `return`s is left out. The reply modelled is the first one sent.
- Seeders and migrations are left out. The types "Admin" and "User" are found by name, and their absence is modelled as the null dereference the code would hit.
- The `find`, `findOne` and `count` handlers of the three controllers are left out. So are the snippet controller's own find-query builder and the database reads behind every find request. The account find options and `parseFindQuery` are modelled as the records they build.
- The `!query` branch of the account `createFindPromise` is left out, because Express always provides a query object.
- Route parameters are taken as integers; a non-numeric id is not modelled. Body fields are strings or absent, except `accountTypeId`, which is an integer or absent and is read by its truthiness (`GivenId`: present and non-zero).
- `AccountController.FindsAccount`: a field that is absent from the body matches no row. This is how the model reads Sequelize's handling of an `undefined` value in `$or`.
- Signup in production (the verification email branch) is left out, as are the verification code, the `isVerified` flag and the send date.
- `AccountController.LowerCase` maps ASCII letters only, which is enough to compare with "snippets" and "accounttype".
- `ClientAuth.GetToken` and `ClientAuth.GetTokenAsWritten`: the clock is the parameter `now`, and the server's renewal reply is the parameter `renew`. The as-written rejection assumes jQuery 3 semantics, where an exception in a `then` handler rejects the chained promise that `fail` is attached to.
- Values of other JavaScript types given to the setters are left out. This covers booleans that are not booleans, non-integer tab sizes, non-number cursor positions and fractional numbers. The types of the model exclude them, and with them the `TypeError`s they raise.
- `Utils.formatDate`, `Auth.getNewToken`'s ajax call and all React pages and components are left out.
- Web Storage quotas and storage events are left out.
- Number precision is not modelled: `JsText.ParseInt` gives an exact integer, where a JavaScript Number loses precision above 2^53. Only a find limit or offset that large, or a stored time or setting that large, could show the difference.
- AccountTypeController.CreateAsWritten: for a missing or empty name the as-written handler still calls `findOrCreate` with an undefined name (server/controllers/AccountTypeController.js:127-129). What Sequelize does with that is not modelled, so the model skips the call and leaves the table unchanged in that case.

## Findings

| source | as written | input that shows it | evidently intended | confidence | as-written member | corrected member |
|---|---|---|---|---|---|---|
| server/controllers/AccountTypeController.js:122-126 | the 400 for a missing or malformed name is sent without `return`, and `findOrCreate` then runs with that name | an administrator creating the type "abc" | reply 400 and leave the type table unchanged | high; not executed | AccountTypeController.CreateAsWritten | AccountTypeController.Create |
| server/controllers/AuthController.js:108-116 | the account's fields are read before the check for a missing account, so a null account throws and the handler replies 422 | a login with an email no account has | reply 401 "Could not authenticate user", like a wrong password | high; not executed | AuthController.AuthAccountAsWritten | AuthController.AuthAccount |
| app/src/modules/Auth.js:147 | the renewal handler calls `authenticateUser`, which `Auth` does not define (`setToken` at line 62 took its place), so the new token is never stored | a token set just over half a day ago, with the server renewing it | store the new token with `setToken` and resolve with it | high; not executed | ClientAuth.GetTokenAsWritten | ClientAuth.GetToken |
| app/src/modules/EditorSettings.js:195 | with no mode stored the getter calls `setEditorMode`, which the class does not define, and throws | a first visit, with an empty storage | write plain text back with `setEditorModeSetting` (line 205) and return it | high; not executed | EditorSettings.ReadEditorModeAsWritten | EditorSettings.ReadEditorMode |
