# Back-office authentication and role registry — a Dafny model

This project models the account and role core of a small Express/Mongoose
back-office server:

- **Account creation** (`createUser`): a fixed-order validation chain,
  normalisation of the role reference, the schema defaults, hashing of the
  password on save, and the token pair issued to the new account.
- **Two-phase login**: `login` checks the password and stores a six-digit
  one-time passcode with a ten-minute expiry. `verifyLoginOTP` tells an
  expired or absent passcode from a wrong one, clears the passcode on
  success, and issues the access/refresh token pair. `refreshToken` mints a
  new access token from a refresh token.
- **Role registry**: `createRole`, the filtered, sorted and paged
  `getUserRoleList` with its filter-based total, the partial-update
  `editRole`, and `deleteRole`.
- **Schemas**: the permission entry (three scopes, each with three boolean
  actions), the account defaults, the pre-save rehash, `comparePassword`, and
  the role's `authorized`/`status` enums with their defaults.

Every controller is a pure function from a store and a request to a
`Result`. Success carries the new store and the response; an error carries
only an error tag, so the store is left unchanged (given configured token secrets; see `Tokens.GenerateTokens` under "## Left out"). Time (`now`, in
milliseconds), the `Math.random()` draw, the bcrypt hash function and its
salt are parameters. JWTs are abstract records `Token(userId, kind,
issuedAt, expiresAt)`, with times in whole seconds as the token library keeps
them. The `kind` of a token stands for the secret that signed it.

Modules (one file each): `Wrappers` (Option, Result), `Js` (truthiness,
`parseInt`, `String(n)`), `Permissions`, `Credentials`, `Tokens`, `Users`,
`LoginFlow` (lemmas that relate successive login calls), `Roles`, `RoleList`.

Behaviour of the code that a reader might not expect, modelled as written:
- A refresh token that is invalid, expired or malformed makes `jwt.verify`
  throw. The catch block answers 500, not 401 (`TokenRejected`).
- An expired passcode is not cleared; it just keeps failing.
- The role/custom-access conflict is checked before uniqueness.
- `editRole` checks name and description before it looks up the id.
- No permission-resolution or access-check function exists in the code, so
  none is modelled.

## Model

| member | source | states |
|---|---|---|
| `Js.ParseInt` | controllers/newUser.controller.js:245 | `parseInt` without a radix: it skips leading white space, reads an optional sign and an optional `0x` prefix, then the longest run of digits; no digit at all is NaN (`None`). Its meaning is stated by the lemmas below. |
| `Js.ToDecimal` | controllers/newUser.controller.js:245 | `String(n)` of the stored code: a non-empty run of decimal digits, with a leading zero only for 0. |
| `Js.ParseDecimal` | controllers/newUser.controller.js:245 | `parseInt` of the decimal text of a stored code returns that code. So the passcode comparison is exactly `parseInt(input) == code`. |
| `Js.ParseDecimalPadded` | controllers/newUser.controller.js:245 | The comparison tolerates leading white space and trailing text that starts with neither a digit nor a letter. |
| `Js.ParseNoDigits` | controllers/newUser.controller.js:245 | Text whose first non-blank character is not a digit or a sign parses to NaN (`None`). This covers `""` and `"undefined"`, so such input never matches a code. |
| `Js.ReadsDigits` | controllers/newUser.controller.js:245 | Once leading blanks are trimmed, text that starts with a decimal digit (and no `0x`) is read as the value of its longest run of decimal digits. |
| `Js.ParseIntSign` | controllers/newUser.controller.js:245 | Blank text is NaN, and a negative number comes only from text whose first non-blank character is `-`. |
| `Permissions.WithAccountDefaults` | models/newUser.model.js:5-23 | Every one of the nine action flags of a stored account entry is present. An absent flag becomes `false`; a supplied flag is kept. Module and sub-module are unchanged. |
| `Permissions.AccountDefaultsComplete` | models/newUser.model.js:5-23 | Applying the defaults completes an entry, keeps every flag the request set, and is idempotent. |
| `Permissions.UnsetDefaultsToFalse` | models/newUser.model.js:5-23 | An entry whose request set no action holds `false` for view, edit and delete in all three scopes. |
| `Credentials.PreSave` | models/newUser.model.js:51-61 | The pre-save hook keeps an unmodified password hash as it is. It hashes a newly assigned password with the fresh salt, and `comparePassword` accepts that password against the result. |
| `Credentials.ComparePassword` | models/newUser.model.js:64-66 | A candidate is accepted iff hashing it with the stored salt gives the stored digest. Its meaning after a save is stated by `Credentials.PreSave` and `Credentials.CompareAfterSave`. |
| `Credentials.CompareAfterSave` | models/newUser.model.js:64-66 | For an injective hash, `comparePassword` after a save accepts exactly the saved password. |
| `Tokens.GenerateTokens` | controllers/newUser.controller.js:37-41 | Issues one access token and one refresh token, both carrying exactly the account id. They are signed with different secrets and live 900 s and 604800 s. |
| `Tokens.Sign` | controllers/newUser.controller.js:38-39 | A signed token carries exactly the account id and the secret's kind. It is issued at the clock in whole seconds (rounded down) and expires the lifetime later. |
| `Tokens.Accepts` | controllers/newUser.controller.js:205 | `jwt.verify` accepts a token iff it was signed with the expected secret and the clock in whole seconds is before `exp`. Its timing is stated by `Tokens.TokenLifetime`. |
| `Tokens.Verify` | controllers/newUser.controller.js:205 | A presented token is accepted iff it carries the expected secret and the clock in seconds is before its expiry. On acceptance it yields the token's account id. |
| `Tokens.RefreshAccess` | controllers/newUser.controller.js:197-220 | With no cookie the result is its own error. Otherwise it succeeds iff the cookie is a valid, unexpired refresh token, and it returns only a new access token with the decoded id. |
| `Tokens.TokenLifetime` | controllers/newUser.controller.js:38-39 | A token signed at `t` is accepted `d` ms later iff `t % 1000 + d` is below its lifetime. So it is always accepted one second before the lifetime ends and always refused after it. |
| `Tokens.SecretsSeparate` | controllers/newUser.controller.js:205-206 | An access token never verifies as a refresh token, nor the reverse. A refresh attempt with an access token is rejected. |
| `Tokens.RefreshReusable` | controllers/newUser.controller.js:205-206 | Refresh tokens are not rotated. One refresh token mints an access token for the same account at any instant of its seven days. |
| `Users.FindByEmail` | controllers/newUser.controller.js:156 | Returns the first account with the given email, or none when no account has it. |
| `Users.SaveAt` | controllers/newUser.controller.js:169-171 | Saving one account replaces it and keeps every other account, the count and the next id. |
| `Users.Check` | controllers/newUser.controller.js:79-102 | Runs the validation chain; the first failing check decides. The order is: missing required field (designation not checked), then password mismatch, then role conflict, then uniqueness. Uniqueness fails iff some account matches the email, the username or the phone. The chain passes iff all four checks pass. |
| `Users.NormalisedRole` | controllers/newUser.controller.js:105 | The stored role is absent exactly for an absent, `""` or `"null"` input; otherwise it is the input. |
| `Users.NewUser` | controllers/newUser.controller.js:105-120 | The new account carries the given id and the request's first name, last name, designation, username, email and phone. It is created and updated at `now`. It stores a hash that accepts the given password, and the normalised role. `enableCustomAccess` defaults to false. Custom permissions are kept, with defaults applied, only when custom access is enabled; otherwise they are `[]`. The account is not verified and has no passcode. A falsy image is stored as null. |
| `Users.CreateWith` | controllers/newUser.controller.js:79-124 | Check errors come first. A falsy designation then fails the schema's required validator (500). Otherwise the account is appended with the next id and tokens are issued for it. |
| `Users.CreateUser` | controllers/newUser.controller.js:61-149 | The corrected `createUser` (first finding). Missing fields and password mismatch are reported first. The role conflict is reported iff custom access is on and the normalised role is present. It succeeds iff the seven required fields are present, the passwords match, there is no conflict, no account shares the email, username or phone, and a designation is given. On success the account, with the requested email, username and phone, is appended, and the tokens carry its id. |
| `Users.CreateUserAsWritten` | controllers/newUser.controller.js:89-91 | As written, the conflict is reported iff custom access is on and the raw role value is truthy. |
| `Users.NullRoleConflict` | controllers/newUser.controller.js:89-105 | With custom access and role `"null"`, the code as written rejects the request. The corrected test accepts it and stores custom access with no role. |
| `Users.CreateUserPreservesValid` | models/newUser.model.js:31-47 | Creation keeps the store valid: ids, emails, usernames and phones stay distinct. An account never holds both custom access and a role, and holds no custom permissions without custom access. All stored permission flags are present. |
| `Users.OtpFromDraw` | controllers/newUser.controller.js:168 | `floor(100000 + r * 900000)` for `r` in [0, 1) is a six-digit code in [100000, 999999]. |
| `Users.LoginWith` | controllers/newUser.controller.js:153-181 | Shared by both login variants, given the outcome for a missing password. An unknown email and a wrong password give the same error. Success comes iff the email is known and the password matches. Only that account changes: its code is in [100000, 999999], its expiry is `now + 600000`, and the code is handed to the mail sender for the request's email. |
| `Users.LoginAsWritten` | controllers/newUser.controller.js:160-163 | As written, a known email with a missing (non-string) password makes the hash comparison throw, which gives 500, while an unknown email gives 400. With a password present, it behaves as `Users.Login`. |
| `Users.Login` | controllers/newUser.controller.js:153-181 | The corrected `login` (third finding), used by the rest of the model. Every error is "invalid email or password", a missing password included. Success comes iff the email is known and the password matches. It stores a six-digit code that expires at `now + 600000` and keeps the password hash. |
| `Users.MissingPasswordRevealsAccount` | controllers/newUser.controller.js:156-163 | Without a password, the code as written answers 500 for a registered email and 400 for an unknown one. The corrected login answers both alike. |
| `Users.LoginPreservesValid` | controllers/newUser.controller.js:168-171 | Issuing a passcode keeps the store valid. |
| `Users.OtpUnusable` | controllers/newUser.controller.js:241 | The stored code is unusable iff it is missing or zero (falsy), or an expiry is set and lies before `now`. A missing expiry never counts as past. |
| `Users.SameCode` | controllers/newUser.controller.js:245 | The passcode comparison holds iff `parseInt` of the presented text is exactly the stored code. |
| `Users.VerifyLoginOtp` | controllers/newUser.controller.js:232-266 | The corrected `verifyLoginOTP` (second finding). An unknown email is an error. A missing or zero code, or `otpExpiry < now`, is "expired" before any comparison, so expiry equal to `now` is still valid. Otherwise a mismatch of the parsed codes is "invalid". Success clears the code and its expiry on that account only and issues tokens for its id. Its response reports the account's role (`Users.Summary`), which the code as written does not. |
| `Users.VerifyLoginOtpAsWritten` | controllers/newUser.controller.js:257-266 | As written: the same outcome, store and tokens as `Users.VerifyLoginOtp`, but the response's role is always absent. |
| `Users.VerifyPreservesValid` | controllers/newUser.controller.js:250-252 | Clearing the passcode keeps the store valid. |
| `Users.SummaryAsWritten` | controllers/newUser.controller.js:257-266 | As written, the login response's `role` is always absent. |
| `Users.Summary` | controllers/newUser.controller.js:257-266 | The corrected response reports the account's stored role reference. |
| `Users.RoleDroppedFromSummary` | controllers/newUser.controller.js:264 | For an account with a role, the response as written omits it and the corrected one reports it. |
| `Users.VerifyDropsRole` | controllers/newUser.controller.js:264 | For a successful passcode step of an account with a role, the response as written has no role, while the corrected one reports it. |
| `LoginFlow.FindBySameEmails` | controllers/newUser.controller.js:235 | Saves that keep every email also keep which account the passcode step finds. |
| `LoginFlow.LoginKeepsLookup` | controllers/newUser.controller.js:169-171 | The passcode step finds the same account that the password step wrote. |
| `LoginFlow.RepeatedLoginKeepsHash` | controllers/newUser.controller.js:163-171 | Login saves the account without modifying its password. The model leaves the password field untouched, which is what the pre-save hook does with an unmodified password (`Credentials.PreSave` on a loaded hash; models/newUser.model.js, lines 51-61). After a successful login the same password logs in again, and the store keeps every password hash. |
| `LoginFlow.NoAccountEnumeration` | controllers/newUser.controller.js:156-165 | For any store, an unknown email and a wrong or missing password for a known email give identical results. A missing password is covered only by the corrected login; see `Users.MissingPasswordRevealsAccount` for the code as written. |
| `LoginFlow.LoginThenVerify` | controllers/newUser.controller.js:241-254 | Correct password, then the mailed code within ten minutes (the expiry instant included): the login succeeds. Tokens are issued for the account, its passcode fields are cleared, and its hash is unchanged. |
| `LoginFlow.SingleUse` | controllers/newUser.controller.js:241-252 | After one successful check, any second check reports "expired", whatever the code and the time. |
| `LoginFlow.ExpiredRegardlessOfCode` | controllers/newUser.controller.js:241-243 | More than ten minutes after the password step, every code reports "expired". |
| `LoginFlow.WrongCodeKeepsOtp` | controllers/newUser.controller.js:245-247 | A wrong code gets "invalid" and does not consume the passcode: the right code still succeeds within the window. |
| `Roles.ParseAuthorization` | models/userRole.model.js:32-36 | `authorized` accepts exactly `Approved`, `Pending` and `Rejected`, and it inverts the name function. |
| `Roles.ParseActivation` | models/userRole.model.js:37-41 | `status` accepts exactly `Active` and `Inactive`, and it inverts the name function. |
| `Roles.FindById` | controllers/userRole.controller.js:130 | Returns the position of a role with the id, or none iff no role has it. |
| `Roles.CreateRole` | controllers/userRole.controller.js:8-20 | Fails iff name or description is falsy. Otherwise it appends a role with the next id and the given name, description, permissions (empty if absent) and creator. The role is `Pending` and `Inactive`, with no updater or approver, created and updated at `now`. |
| `Roles.CreatePreservesValid` | models/userRole.model.js:25 | Creation keeps ids distinct and every role named. |
| `Roles.ApplyEdit` | controllers/userRole.controller.js:133-141 | The role after the edit's assignments: name, description and update time are always set; permissions, updater, approver and approval time only when supplied; the approval state and status as already parsed. |
| `Roles.EditRole` | controllers/userRole.controller.js:126-143 | A missing name or description fails before the lookup, and exactly then. An unknown id is not-found. An `authorized` or `status` outside its enum, or an `authorizedAt` that does not cast to a date (such as `"not-a-date"`), fails the save with 500. The edit succeeds iff name and description are given, the id resolves, every supplied enum name is valid, and a supplied `authorizedAt` is a date. Then only that role changes. Name, description and update time are always written. Permissions, updater, approval state, approver, approval time and status change only when supplied. Id, creation time and creator are kept. |
| `Roles.EditPreservesValid` | controllers/userRole.controller.js:130-143 | An edit keeps the store valid and leaves every other role untouched. |
| `Roles.StatusIndependentOfApproval` | models/userRole.model.js:32-41 | An edit that supplies only a status sets it and keeps the approval state. |
| `Roles.RemoveAt` | controllers/userRole.controller.js:159 | Removing one position keeps the roles before it and shifts the ones after it down by one. |
| `Roles.DeleteRole` | controllers/userRole.controller.js:152-165 | Not-found iff no role has the id. Otherwise exactly one role is removed and no new role appears. |
| `Roles.DeleteExactly` | controllers/userRole.controller.js:156-159 | With distinct ids, a delete removes the role with that id, keeps every other role, and keeps the store valid. |
| `RoleList.BuildFilter` | controllers/userRole.controller.js:53-81 | One clause per supplied parameter or date range, at most eight. What the filter accepts is stated by `RoleList.FilterMeansMatches`. |
| `RoleList.FilterMeansMatches` | controllers/userRole.controller.js:53-81 | The filter built from the truthy parameters accepts a role iff every supplied constraint holds. Those are inclusive date bounds on createdAt, authorizedAt and updatedAt (a missing date fails a supplied bound), and equality on creator, approver, updater, approval state and status. |
| `RoleList.Matches` | controllers/userRole.controller.js:53-81 | The declarative reading of the query: each supplied parameter constrains the role independently, and an absent one constrains nothing. It is the independent partner of `RoleList.BuildFilter`. |
| `RoleList.SatisfiesAppend` | controllers/userRole.controller.js:53-81 | A filter made of two parts accepts a role iff both parts do. |
| `RoleList.RangeClauseMeans` | controllers/userRole.controller.js:55-59 | A date-range clause, present iff some bound is supplied, accepts a role iff its date lies within the supplied bounds. |
| `RoleList.EqualsClauseMeans` | controllers/userRole.controller.js:61 | An equality clause, present iff the parameter is truthy, accepts a role iff the stored value equals it. |
| `RoleList.CreationClausesMean` | controllers/userRole.controller.js:55-69 | The creation and approval clauses accept a role iff its creation date and approval date lie within the supplied bounds and its creator and approver equal the supplied values. |
| `RoleList.UpdateClausesMean` | controllers/userRole.controller.js:71-81 | The update and state clauses accept a role iff its update date lies within the supplied bounds and its updater, approval state and status equal the supplied values. |
| `RoleList.Select` | controllers/userRole.controller.js:83 | Keeps exactly the stored roles that satisfy the filter. |
| `RoleList.SelectCount` | controllers/userRole.controller.js:104 | The number of selected roles equals the number of roles that match the query. |
| `RoleList.Insert` | controllers/userRole.controller.js:86 | Inserting into a newest-first list keeps it newest-first and adds exactly the one role. |
| `RoleList.SortNewestFirst` | controllers/userRole.controller.js:86 | The sort by `createdAt` descending returns a newest-first permutation of its input. |
| `RoleList.Paginate` | controllers/userRole.controller.js:84-85 | Skip then limit gives a contiguous window of the sorted list. Its length is `min(remaining, abs(limit))`, or all that remain when the limit is 0. |
| `RoleList.ListRoles` | controllers/userRole.controller.js:35-111 | Page and limit default to 1 and 10. A negative skip `(page-1)*limit` is refused. `total` is the number of matching roles, whatever the page. When the limit is non-zero there are at most `abs(limit)` entries (a zero limit means no limit). Each entry is the summary of a stored matching role, newest first. |
| `RoleList.ListRolesShows` | controllers/userRole.controller.js:83-102 | The entries are the summaries of the window taken from the ordered matching roles. |
| `RoleList.PageFacts` | controllers/userRole.controller.js:83-102 | When the limit is non-zero, a page has at most `abs(limit)` entries (a zero limit means no limit). Each entry is the summary of a stored role that matches the query, and the entries are newest first. |
| `RoleList.OrderedFacts` | controllers/userRole.controller.js:83-86 | The ordered list holds only matching stored roles, newest first, as many as match. |
| `RoleList.PaginateFacts` | controllers/userRole.controller.js:84-85 | A page of a newest-first list is newest-first and holds only elements of that list. |
| `RoleList.PageWindow` | controllers/userRole.controller.js:83-86 | With a positive limit `l`, the `k`-th matching role (newest first) is entry `k % l` of page `k / l + 1`, and that page's total is the number of matches. |
| `RoleList.TotalIgnoresPaging` | controllers/userRole.controller.js:104 | Two listings of the same query report the same total, whatever their page and limit. |
| `RoleList.SummarizeAll` | controllers/userRole.controller.js:89-102 | There is one entry per role of the page, in order, each that role's summary. |
| `RoleList.Summarize` | controllers/userRole.controller.js:89-102 | A listing entry: the role's id, name, description, creation, approval and update fields, and its enum states, with `count` the number of its permission entries. |
| `RoleList.SummaryCount` | controllers/userRole.controller.js:93 | An entry's `count` is the length of its role's permission list, and its id is the role's id. |

## Left out

- Email delivery (`sendOTP`) is network I/O whose errors are logged and swallowed. The model returns the passcode as a `Dispatch` value that never affects the result.
- Cookies, `setCookies`, `logout` and `getProfile` are transport only. HTTP status codes appear only as comments on the error tags.
- JWT signing and verification, and bcrypt, are foreign libraries. Tokens are abstract records whose `kind` stands for the signing secret. The hash is an arbitrary function parameter. "Modified" for the pre-save hook means the password field holds a freshly assigned plaintext.
- `Math.random()` is an exact real in [0, 1). Floating-point rounding is not modelled.
- MongoDB query evaluation is modelled as predicates, a stable newest-first sort and sequence slicing. Ties on `createdAt` keep store order, which the database does not promise. For the limit, 0 means none and a negative value counts as its magnitude, as the driver does.
- Casts the database layer performs on ids and role references (an ill-formed ObjectId makes the request fail with 500) are not modelled. Ids are natural numbers and role references are strings.
- Query parameters are modelled as already-parsed integers and strings. Non-numeric dates, pages and limits (NaN) are not modelled, nor are repeated parameters that arrive as arrays.
- JSON values of unexpected types are not modelled: `enableCustomAccess` is a boolean or absent, and the login email is a string. A missing or non-string password in `login` is modelled as `None`, with the 500 it causes in `Users.LoginAsWritten`.
- Tokens.RefreshAccess: an absent and an empty `refreshToken` cookie are both falsy, and both are `None` (401). `Garbage` is a non-empty string that is no token signed by this server.
- Tokens.GenerateTokens: assumes both token secrets (`ACCESS_TOKEN_SECRET`, `REFRESH_TOKEN_SECRET`) are configured. If either is unset, `jwt.sign` throws after the save. `createUser` then answers 500 with the account already stored (controllers/newUser.controller.js, lines 122-124). `verifyLoginOTP` answers 500 with the passcode already consumed (lines 250-254).
- Tokens.SecretsSeparate: assumes the access and refresh secrets differ. Both come from the environment; if they were equal, an access token would verify as a refresh token.
- Credentials.CompareAfterSave: holds for an injective hash. bcrypt reads only the first 72 bytes of a password, so for bcrypt it holds only for passwords that differ within their first 72 bytes.
- Roles.DeleteRole: assumes a Mongoose version where `Document#remove` exists (before version 7). From version 7 on, the call at line 159 throws, so every delete of an existing role would answer 500 and delete nothing. The media controller deletes with `deleteOne()` instead.
- `parseInt` uses exact integers; precision loss beyond 2^53 is not modelled.
- Concurrency is not modelled: the race between the uniqueness lookup and the save, and the unique-index error it can cause.
- Creation and update timestamps follow `now`. The account's `updatedAt` is refreshed on every save that changes a field.
- Permission resolution and access checks do not exist in the code and are not modelled. Only the entry shape and its defaults are.
- The media controller, the image-host clients, the media model, the routes and the server wiring are outside the account and role core.

## Findings

| source | as written | input that shows it | evidently intended | confidence | as-written member | corrected member |
|---|---|---|---|---|---|---|
| controllers/newUser.controller.js:89 | The conflict test reads the raw `userRole`, so the `"null"` text that line 105 treats as "no role" counts as a role. | A valid `createUser` request with `enableCustomAccess: true` and `userRole: "null"` gets "Cannot enable both custom access and assign a role". | Test the normalised role value (line 105): the request is accepted with custom access and no role. | medium; not executed | `Users.CreateUserAsWritten` (shown by `Users.NullRoleConflict`) | `Users.CreateUser` |
| controllers/newUser.controller.js:264 | The login response reads `user.role`. The account schema has no such path, so the response never carries the role. | Any account with a role that passes the passcode step gets a response without `role`. | `user.userRole`, as the `createUser` response does at line 138. | high; not executed | `Users.VerifyLoginOtpAsWritten` with `Users.SummaryAsWritten` (shown by `Users.VerifyDropsRole` and `Users.RoleDroppedFromSummary`) | `Users.VerifyLoginOtp` with `Users.Summary` |
| controllers/newUser.controller.js:162 | A missing password reaches `comparePassword`. bcrypt rejects a non-string argument, and the catch answers 500. An unknown email is answered 400 before that point. | `login` with a registered email and no password gets 500; with an unregistered email and no password it gets 400. The status tells whether an account exists. | Refuse a missing password with the same 400 "Invalid email or password" as a wrong one. | medium; not executed | `Users.LoginAsWritten` (shown by `Users.MissingPasswordRevealsAccount`) | `Users.Login` (with `LoginFlow.NoAccountEnumeration`) |
