# Technorely back office — verified model of the service core

This project is a Dafny model of the rules at the heart of a NestJS back
office for users, the companies they own, and an audit log of company
changes. It covers:

- **Resource services.**
  - Company ownership and the five company mutations. Each mutation is one
    database transaction that writes the company row and exactly one audit
    record.
  - The user service: duplicate email, the rule that an Admin may only touch
    plain users, the self-delete ban, and avatar handling.
  - The authentication service: credential check, registration, login
    payload, and the password-reset token.
- **Transactions as event traces.** A query runner opens a transaction. The
  steps write into a pending copy of the database. Commit keeps that copy;
  rollback drops it; release always ends the trace. Uploads to and destroys
  on the media host are events in the same trace, so the contracts can say
  when a clean-up destroy is issued and that it comes before the rollback.
- **Pure string logic.**
  - Media public-id extraction (`getPublicIdFromUrl`).
  - Username derivation in the user entity's constructor.
  - `parseInt` as the profile guard uses it.
  - The email, password and username regular expressions, as predicates
    with decision procedures proved to agree with them.
- **Query building and error shaping.**
  - The `getCompanies` and `getLogs` filters and their defaults.
  - The two exception filters, as functions from a thrown value to a reply.

**Parameters.** Hashing (`bcrypt`), JWT signing, `randomBytes`, the clock
and the media host are parameters. The `Env` datatype carries each call's
upload answer, destroy outcome, database write and log-insert outcomes,
time stamp, and `clouds.url`.

**The store.** `Entities.Db` holds one map per table, the next id of each
sequence, and the set of soft-deleted user rows. `Entities.Valid` states the
table constraints: keys match ids, emails are unique, and every company has
an existing owner. Every mutation preserves it. The user entity has no
delete-date column and no operation soft-deletes a row, so in the program
this set is always empty and `withDeleted` makes no difference. The model
keeps the set so that the contracts say which lookups would see such rows.

**Modules.** One per source concern:

| module | source concern |
|---|---|
| `Companies` | company service |
| `Users` | user service |
| `UsersController` | user controller |
| `Auth` | auth service |
| `ActionLogs` | audit log service |
| `Cloudinary` | media host client |
| `ExceptionFilters` | the two exception filters |
| `ProfileGuard` | profile guard |
| `Validators` | constants module |
| `Entities` | entities and store |
| `Transaction` | transaction shape |

Helper modules hold the JavaScript semantics the rules rely on:
`Strings` (split, join, slice), `Numbers` (`parseInt`, `toString`),
`Hex` (`toString("hex")`), `Chars` (regular-expression classes),
`Paging` (truthiness and page defaults), and `Errors`, `Wrappers`.

**Behaviour of the code worth knowing before reading the contracts.**
- A duplicate email is refused with Forbidden (403). See
  src/modules/auth/auth.service.ts:80 and src/modules/users/users.service.ts:77.
- The media-host client wraps only synchronous throws in
  ServiceUnavailable (src/modules/cloudinary/cloudinary.service.ts:29-56).
  A rejected upload or destroy reaches the filters unwrapped and is answered
  with 500.
- In the company catch blocks (src/modules/companies/companies.service.ts:144-147
  and 187-190) the clean-up destroy runs before the rollback. When the
  destroy rejects, its error replaces the original and the rollback line is
  skipped; `finally` still releases the runner.
- Only the company mutations clean up an uploaded asset. The user service
  uploads avatars without any clean-up
  (src/modules/users/users.service.ts:117-120 and 143-144).
- The validation pipe returns its input unchanged
  (src/common/pipes/validation/validation.pipe.ts:16-23). A request body may
  therefore lack a field its type declares. TypeORM drops an undefined
  `where` value, so such a lookup has no condition at all.

## Model

| member | source | states |
|---|---|---|
| Companies.FindCompany | src/modules/companies/companies.service.ts:55-66 | A missing id is NotFound for every caller, and is decided before ownership. A plain user who does not own the row is Forbidden. Success happens exactly when the row exists and the caller may touch it, and returns that row. |
| Companies.GetCompany | src/modules/companies/companies.service.ts:267-278 | The same lookup outside a transaction. Its errors are only NotFound or Forbidden. Admins and SuperAdmins are never refused on ownership. A plain user only ever gets a company it owns. |
| Companies.ParseData | src/modules/companies/companies.service.ts:121 | The merge copies exactly the supplied name, service and capital. Absent fields keep their stored value, and every other column is untouched. |
| Companies.SaveAndLog | src/modules/companies/companies.service.ts:129-150 | Save, log and commit succeed exactly when both writes succeed. Exactly one record is added, inside the transaction. On failure, the uploaded asset is destroyed if there is one. A failed clean-up replaces the original error. |
| Companies.CreateCompany | src/modules/companies/companies.service.ts:68-104 | An unknown or soft-deleted creator is Unauthorized. On success the new row gets the next company id and is owned by the creator. Exactly one CREATE record is committed with it. A failure leaves the database unchanged. |
| Companies.InsertAndLog | src/modules/companies/companies.service.ts:79-95 | The insert and its CREATE record commit together or not at all. No media request is made. |
| Companies.Subject | src/modules/companies/companies.service.ts:180 | The logo mutations' reason text is the company name followed by " logo"; the other mutations use the name alone. |
| Companies.UploadAndSave | src/modules/companies/companies.service.ts:123-150 | The row gets the delivery URL of the uploaded asset. The asset is destroyed again exactly when the upload succeeded, returned a non-empty public id, and a later step failed. That destroy targets the reported public id. |
| Companies.UpdateCompany | src/modules/companies/companies.service.ts:106-151 | NotFound and Forbidden come from the ownership rule. On success the stored row is the merged row, with the new logo URL only when a file was sent, and one UPDATE record is committed. The clean-up destroy is issued exactly when a sent file was uploaded and a later step failed. |
| Companies.AddOrChangeCompanyLogo | src/modules/companies/companies.service.ts:153-194 | The same rule with a mandatory file. The only changes are the logo and the time stamp, and the record reads "<name> logo". |
| Companies.DeleteCompanyLogo | src/modules/companies/companies.service.ts:196-233 | Corrected behaviour (see "## Findings"): a company with no logo is refused with BadRequest, and nothing is destroyed, saved or logged. Otherwise the asset of the stored URL is destroyed before the save. On success the logo is null and one DELETE record is committed. |
| Companies.DeleteCompanyLogoAsWritten | src/modules/companies/companies.service.ts:196-233 | As written: for a company with no logo, the guard reads `errorMessages.logo.deleted` of an undefined group. The call fails with a non-HTTP TypeError (status 500), with nothing destroyed or logged. Every other case states what the corrected member states: NotFound, Forbidden for a plain non-owner, the destroy of the stored URL's asset, success exactly when destroy, save and log succeed, and then a null logo with one DELETE record. |
| Companies.DestroyLogoAndSave | src/modules/companies/companies.service.ts:203-226 | Once the row is found: with no logo, the guard's error and nothing else. Otherwise destroy, then clear, save and log. The call succeeds exactly when all three external steps do. |
| Companies.DeleteLogoTail | src/modules/companies/companies.service.ts:208-224 | After the destroy, the cleared row and its DELETE record commit together. The destroy stays in the trace. |
| Companies.DeleteCompany | src/modules/companies/companies.service.ts:235-265 | Ownership as above. The logo asset, when present, is destroyed before the row is deleted. On success the row is gone, users are untouched, and one DELETE record is committed. A failed destroy rolls back with the row in place. |
| Companies.DestroyLogoAndRemove | src/modules/companies/companies.service.ts:241-258 | Once the row is found: destroy the logo if truthy, then delete and log. The call succeeds exactly when every step it attempts succeeds. |
| Companies.RemoveAndLog | src/modules/companies/companies.service.ts:246-258 | The row deletion and its DELETE record commit together. Everything already in the trace stays in it. |
| Companies.CleanupTargetsUploadedAsset | src/modules/companies/companies.service.ts:25-29 | The public id of a logo uploaded as `technorely/companies/<id>` is its own delete target. The clean-up in the catch blocks therefore destroys exactly the uploaded asset. |
| Companies.CompaniesFindOptions | src/modules/companies/companies.service.ts:280-306 | Defaults are name ASC, service ASC, offset 0 and limit 10; given values are used as they are. The capital filter carries the query string and is present exactly when that string is truthy (non-empty). The day filter is present exactly when createdAt is truthy, and the owner filter exactly when a non-zero id is passed. |
| Companies.ZeroCapitalStillFilters | src/modules/companies/companies.service.ts:289-291 | `?capital=0` arrives as the string "0", which is truthy, so the capital filter is present. |
| Companies.CompaniesMeta | src/modules/companies/companies.service.ts:307 | `meta` echoes the total and the offset and limit actually used. |
| Companies.OwnListIsOwn | src/modules/companies/companies.service.ts:299 | On the caller's own list, every selected company is owned by the caller. |
| Companies.SelectsExactlyTruthyFilters | src/modules/companies/companies.service.ts:289-299 | A row is listed exactly when it meets each filter whose query parameter is truthy. Capital is compared by the database's test of the column against the query string. |
| Users.FindUserById | src/modules/users/users.service.ts:52-59 | A visible row is returned; anything else is NotFound. |
| Users.GetUser | src/modules/users/users.service.ts:61-65 | An unknown or soft-deleted id is NotFound. Otherwise the reply is the stored row with the excluded password and reset token left out. |
| Users.NewRow | src/modules/users/users.service.ts:83-85 | The new row has the hashed password, never the plain one, and the username derived from the email. Its role is the given role, or User when none is given. It has no avatar and no reset token. |
| Users.AddUser | src/modules/users/users.service.ts:67-96 | The duplicate check finds a row with the email, soft-deleted rows included. For a body without an email it finds any row. A found row gives Forbidden with the "email exists" message, with no transaction and nothing written. An email-less body on an empty table fails in the entity constructor (a TypeError) and rolls back. Otherwise the call succeeds exactly when the write does, and adds exactly that row. |
| Users.UploadThenSave | src/modules/users/users.service.ts:115-126 | An optional upload, then the save. It never issues a destroy. An upload failure is a media error and a write failure a database error; either leaves the database unchanged. |
| Users.UpdateUser | src/modules/users/users.service.ts:98-133 | An invisible id is NotFound. The result is Forbidden exactly when the caller's role is Admin and the target is not a plain user. On success the stored username changes only when given, the avatar only when a file is sent, and nothing else changes. The reply echoes the username the body carried, absent when it carried none. |
| Users.AddOrChangeAvatar | src/modules/users/users.service.ts:135-156 | The call succeeds exactly when the row is visible and the upload and write succeed. The avatar becomes the new delivery URL. |
| Users.DeleteAvatar | src/modules/users/users.service.ts:158-182 | Corrected behaviour (see "## Findings"): a user without an avatar is refused with BadRequest, and nothing is destroyed. Otherwise the asset of the stored URL is destroyed before the save. On success the avatar is null. |
| Users.DeleteAvatarAsWritten | src/modules/users/users.service.ts:158-182 | As written: for a user without an avatar, the guard reads `errorMessages.avatar.deleted` of an undefined group. The call fails with a non-HTTP TypeError (status 500), with nothing destroyed. Every other case states what the corrected member states: NotFound, the destroy of the stored URL's asset, success exactly when destroy and save succeed, and then a null avatar in the stored row and the reply. |
| Users.ClearAvatar | src/modules/users/users.service.ts:165-175 | Once the row is found: with no avatar, the guard's error and nothing else. Otherwise destroy, then clear and save. The call succeeds exactly when both steps do. |
| Users.DeleteUser | src/modules/users/users.service.ts:184-210 | Deleting oneself is Forbidden before any transaction or lookup. An Admin deleting a non-User is Forbidden. The avatar destroy comes first, and when it fails the row is still there. On success the row and the companies it owned are gone, and nothing else changes: the other companies, the logs and the id sequences stay as they were. |
| Users.RemoveAccount | src/modules/users/users.service.ts:198-203 | Destroy the avatar if truthy, then delete. The call succeeds exactly when both steps do, and the user's companies go with the row. On success nothing else in the database changes. |
| UsersController.DeclaredRoles | src/modules/users/users.controller.ts:92-128 | Every route that declares roles admits Admin and SuperAdmin and never User. |
| UsersController.PlainUserReachesOnlyOwnAccount | src/modules/users/users.controller.ts:42-128 | A plain user passes the role guard exactly on the four `/users/me` routes. Admins and SuperAdmins pass on all of them. |
| UsersController.CreateUserCall | src/modules/users/users.controller.ts:92-101 | An Admin asking for any role but User, an omitted role included, gets BadRequest before the service runs, with nothing written. A SuperAdmin may create any role, and the created user has the requested role. |
| UsersController.UpdateMeCall | src/modules/users/users.controller.ts:54-70 | The self-update passes no role, so the Admin rule never refuses it. |
| UsersController.UpdateByAdminCall | src/modules/users/users.controller.ts:103-121 | The admin route forwards the caller's role. An Admin is refused on non-User targets; a SuperAdmin never is. |
| Auth.CheckPass | src/modules/auth/auth.service.ts:38-44 | Only a comparison that resolves to a match counts. A mismatch and a thrown comparison are both false. |
| Auth.WithoutPasswordHidesPassword | src/modules/auth/auth.service.ts:66-69 | The user handed to the session is the same whatever the stored password hash is, so the hash cannot reach it. |
| Auth.ValidateUser | src/modules/auth/auth.service.ts:55-70 | The result is non-null exactly when a visible row has the email and the password compares as a match. It is then that row without its password. |
| Auth.Register | src/modules/auth/auth.service.ts:72-85 | The duplicate check finds a row with the email, soft-deleted rows included. For a body without an email it finds any row. A found row gives Forbidden and writes nothing. An email-less body on an empty table fails with a TypeError in the entity constructor. Otherwise the call adds one row with the hashed password, the default role User and the derived username. |
| Auth.RegisteredUserValidates | src/modules/auth/auth.service.ts:72-85 | A registered account then passes `validateUser` with its own password. |
| Auth.LoginSignsValidatedAccount | src/modules/auth/auth.service.ts:55-90 | Suppose a visible account has the email and accepts the password. Then `validateUser` returns that account, and `login` signs both tokens over its email, its id and its stored role. |
| Auth.ResetPassword | src/modules/auth/auth.service.ts:92-99 | Corrected behaviour (see "## Findings"): a body without an email, and an unknown email, are Unauthorized. Otherwise the 40-character lower-case hex form of the 20 random bytes is stored on that row and returned, and it decodes back to those bytes. Only the users table changes. |
| Auth.IssueToken | src/modules/auth/auth.service.ts:94-98 | With no row found: Unauthorized. Otherwise the row gets the hex token and the time stamp, and the token is returned. Nothing else in the database changes. |
| Auth.ResetPasswordAsWritten | src/modules/auth/auth.service.ts:92-99 | As written, a body without an email puts no condition on the lookup. Some visible row then gets a fresh token, and the token is returned to the caller. Unauthorized happens only when no row is visible. |
| Auth.MissingEmailHandsOutAToken | src/modules/auth/auth.service.ts:92-108 | Take a database where nobody has asked for a reset. A body without an email receives a token, and `setPassword` with that token replaces the password of an account that never asked. The corrected call refuses the body. |
| Auth.SetPassword | src/modules/auth/auth.service.ts:101-108 | Corrected behaviour (see "## Findings"): an absent token is refused. Unauthorized happens exactly when no visible row holds the token. Otherwise that row gets the hashed password and a null token, and nothing else in the database changes. |
| Auth.ResetThenSetPassword | src/modules/auth/auth.service.ts:92-108 | Take a token `resetPassword` issued for a visible account, held by no other account. With it, `setPassword` succeeds on that same account, gives it the new hash and clears the token. Afterwards no account holds the token. |
| Auth.TokenWorksOnce | src/modules/auth/auth.service.ts:101-108 | After one successful reset, the same token is Unauthorized. |
| Auth.SetPasswordAsWritten | src/modules/auth/auth.service.ts:101-108 | As written, an absent token puts no condition on the lookup. Some visible user then has its password replaced. Unauthorized happens only when no row is visible. |
| Auth.MissingTokenTakesOverAnAccount | src/modules/auth/auth.service.ts:102 | Take a database where nobody has asked for a reset. Without a token, the as-written call still replaces the password of a visible account that never asked. The corrected call refuses the same input. |
| ActionLogs.RecordKeepsAllButEntityId | src/modules/actionLogs/actionLogs.service.ts:38-41 | Two parameter sets give the same record exactly when they agree on everything except `entityId`, which has no column in the entity. |
| ActionLogs.Log | src/modules/actionLogs/actionLogs.service.ts:33-48 | With a query runner, the record goes into that transaction's pending copy and the database is untouched. Without one, it is appended to the database at once. Users and companies are unchanged either way. |
| ActionLogs.LogsFindOptions | src/modules/actionLogs/actionLogs.service.ts:50-77 | Defaults are offset 0, limit 10 and id order ASC, and the order is the requested one when given. The action, entityName and day filters are each present exactly when their parameter is truthy. |
| ActionLogs.LogsMeta | src/modules/actionLogs/actionLogs.service.ts:78 | `meta` echoes the total and the offset and limit actually used. |
| ActionLogs.SelectsExactlyTruthyFilters | src/modules/actionLogs/actionLogs.service.ts:60-68 | A log row is returned exactly when it meets each filter whose parameter is truthy. |
| Transaction.Closed | src/modules/companies/companies.service.ts:95-103 | Closing an open transaction with a tail that ends in `release` yields one Begin and one final Release. Every destroy still precedes every rollback. |
| Transaction.Finish | src/modules/companies/companies.service.ts:95-97 | Commit is reached and the pending copy becomes the database. The trace is bracketed and the last step precedes the commit. |
| Transaction.Abort | src/modules/companies/companies.service.ts:98-103 | Rollback is reached, the error is rethrown, and the database is unchanged. Release still closes the trace. |
| Transaction.AbortAfterUpload | src/modules/companies/companies.service.ts:144-150 | The destroy is issued exactly when the public id is truthy, and always before any rollback. When it fails, its error replaces the original and the rollback line is skipped. The database is unchanged either way. |
| Transaction.WriteCommit | src/modules/users/users.service.ts:87-95 | A single write commits exactly when it succeeds, with the pending copy kept. Otherwise the error is a database error and nothing changes. |
| Transaction.FailWrite | src/modules/companies/companies.service.ts:144-147 | After a failed write, the uploaded asset (if any) is destroyed and the call rolls back. The error is the media error when that destroy fails, else the database error. |
| Transaction.StepLogCommit | src/modules/companies/companies.service.ts:129-150 | The shared tail: save, log through the same runner, commit. It succeeds exactly when both writes do, with exactly one record logged before the commit. A failure logs nothing and cleans up the upload. |
| Cloudinary.PublicIdFromUrl | src/modules/cloudinary/cloudinary.service.ts:20-27 | The public id never contains '.' or '?'. |
| Cloudinary.DeleteTarget | src/modules/cloudinary/cloudinary.service.ts:43-48 | `delete` uses slice -3 unless told otherwise. With the default, the target is a bare id (no '.' or '?') of at most three segments that is its own target, so passing a public id to `delete` destroys that asset. |
| Cloudinary.Edit | src/modules/cloudinary/cloudinary.service.ts:58-65 | `edit` builds the delivery URL from the public id taken with slice -4. That id is bare, has at most four segments, and is its own public id. |
| Cloudinary.PublicIdIsSubstring | src/modules/cloudinary/cloudinary.service.ts:21-26 | The public id is a prefix of a suffix of the URL. |
| Cloudinary.SegmentBound | src/modules/cloudinary/cloudinary.service.ts:21-24 | With slice -k the public id has at most k '/'-separated segments. A URL with no more than k segments keeps them all, so only the '.' and '?' cuts apply. |
| Cloudinary.BareIdIsFixed | src/modules/cloudinary/cloudinary.service.ts:20-27 | A bare id with at most k segments and no '.' or '?' maps to itself. |
| Cloudinary.PublicIdIdempotent | src/modules/cloudinary/cloudinary.service.ts:20-27 | For a fixed non-positive slice, taking the public id twice is the same as once. |
| Cloudinary.AssetUrlIds | src/modules/cloudinary/cloudinary.service.ts:20-65 | Take an asset URL ending in `<version>/<folder>/<sub>/<id>.<ext>`. `delete` destroys `<folder>/<sub>/<id>`. `edit` builds its delivery URL from `<version>/<folder>/<sub>/<id>`. |
| ExceptionFilters.Issues | src/common/exceptions/catchEverythingFilter/catchEverythingFilter.exception.ts:41-47 | `cause` is taken exactly when the exception's cause is an object holding "issues", and then equals that value. |
| ExceptionFilters.WithHttpFields | src/common/exceptions/catchEverythingFilter/catchEverythingFilter.exception.ts:37-47 | An HttpException adds `message` and `error` (= `getResponse()`), plus `cause` when issues exist. No other key changes. |
| ExceptionFilters.CatchEverything | src/common/exceptions/catchEverythingFilter/catchEverythingFilter.exception.ts:21-57 | The status is the exception's own, or 500, and the reply carries that same status. `statusCode`, `timestamp` and `path` are always present. An HttpException adds `message` and `error`. Another object with a `message` adds only that; anything else gets the three base fields. |
| ExceptionFilters.HttpFilter | src/common/exceptions/httpExceptionFilter/httpExceptionFilter.exception.ts:16-40 | The status comes from the exception. The body has exactly `statusCode`, `timestamp`, `path` (the request URL), `message` and `error`, plus `cause` only when issues exist. |
| ExceptionFilters.FiltersAgree | src/common/exceptions/httpExceptionFilter/httpExceptionFilter.exception.ts:20-37 | On an HttpException both filters send the same reply, given the same path. |
| ExceptionFilters.ThrownOf | src/common/exceptions/catchEverythingFilter/catchEverythingFilter.exception.ts:26-29 | A service failure reaches the filter as an HttpException with its 4xx status, or as a plain error object. |
| ExceptionFilters.FailureStatus | src/common/exceptions/catchEverythingFilter/catchEverythingFilter.exception.ts:26-54 | Every modelled failure is answered with its 4xx status when it is an HttpException, otherwise 500. The message is kept either way. |
| ProfileGuard.SomeParamIs | src/common/guards/profile/profile.guard.ts:17 | The result is true exactly when some parameter value parses to the user id. |
| ProfileGuard.CanActivate | src/common/guards/profile/profile.guard.ts:8-18 | A missing or zero user id is refused, and so is a route with no parameters. Otherwise the guard passes exactly when some parameter parses to the id. |
| ProfileGuard.OwnProfileAdmitted | src/common/guards/profile/profile.guard.ts:17 | A route naming the user's own id in decimal admits the user. |
| ProfileGuard.OtherProfileRefused | src/common/guards/profile/profile.guard.ts:17 | A route naming another id refuses the user. |
| ProfileGuard.NaNParamIgnored | src/common/guards/profile/profile.guard.ts:17 | A parameter that reads as NaN never changes the verdict. |
| ProfileGuard.TrailingJunkAdmitted | src/common/guards/profile/profile.guard.ts:17 | A parameter made of the user's id in decimal followed by any text that does not start with a digit admits the user. |
| ProfileGuard.HexParamAdmitted | src/common/guards/profile/profile.guard.ts:17 | Without a radix argument, "0x" or "0X" followed by hex digits (and any non-hex text) admits the user whose id is that hex value. |
| Numbers.ParseIntOfIntToString | src/common/guards/profile/profile.guard.ts:17 | `parseInt` reads back any integer rendered by `toString`. |
| Numbers.DigitsValueOfNatToString | src/modules/users/users.service.ts:43 | The decimal rendering of an id has the id as its value. |
| Numbers.TrailingJunkIgnored | src/common/guards/profile/profile.guard.ts:17 | For every decimal digit string `d` and text `j` that does not start with a digit, `parseInt(d + j)` is the value of `d` (unless the two spell a "0x" prefix). |
| Numbers.HexPrefixRead | src/common/guards/profile/profile.guard.ts:17 | With no radix argument, `parseInt` of "0x" or "0X", then hex digits `h`, then text not starting with a hex digit, is the base-16 value of `h`. |
| Numbers.NoLeadingDigitIsNaN | src/common/guards/profile/profile.guard.ts:17 | A string with no leading digit, sign or whitespace is NaN. |
| Numbers.NatToString | src/modules/users/users.service.ts:43 | `id.toString()` is a non-empty run of decimal digits with no leading zero. |
| Hex.ToHex | src/modules/auth/auth.service.ts:95 | The hex form has two lower-case hex digits per byte. |
| Hex.FromHexToHex | src/modules/auth/auth.service.ts:95 | Decoding the hex form gives back the bytes, so distinct random bytes give distinct tokens. |
| Entities.PublicHidesSecrets | src/modules/users/user.entity.ts:18-30 | The public view is the same whatever the password and reset token are, so neither can reach it. |
| Entities.CapitalizeFirst | src/modules/users/user.entity.ts:47 | Only the first character can change, and only a `\w` character is upper-cased. The length is kept. |
| Entities.UsernameFromEmail | src/modules/users/user.entity.ts:45-47 | The username is the part of the email before the first '@', first character capitalised. It has the same length as that part and contains no '@'. |
| Entities.CapitalizeIdempotent | src/modules/users/user.entity.ts:47 | Capitalising twice is the same as once. |
| Entities.NewUserEntity | src/modules/users/user.entity.ts:42-51 | With an argument: the email is kept unchanged, the username derived, and both time stamps set. Without one, no field is set. |
| Entities.Materialize | src/modules/users/user.entity.ts:22-30 | On insert the role defaults to User, and avatar and reset token to null. An unset NOT NULL column makes the insert fail. |
| Entities.FindByEmail | src/modules/users/users.service.ts:72-75 | A row is found exactly when one with the email exists among the rows the lookup may see. With `withDeleted` that includes soft-deleted rows. |
| Entities.FindByOptionalEmail | src/modules/users/users.service.ts:72-75 | With an email, the email lookup. Without one, the condition is dropped: a row is found exactly when the lookup may see any row, and that row is one it may see. |
| Entities.FindUserWhere | src/modules/auth/auth.service.ts:102 | `findOneBy` on a non-key column returns some row meeting the condition, and nothing exactly when no row does. |
| Entities.RemoveUser | src/modules/companies/company.entity.ts:38-43 | Deleting a user removes exactly the companies it owned (the foreign key cascades) and keeps the table constraints. |
| Errors.BadRequestAsWritten | src/modules/users/users.service.ts:165-167 | `new BadRequestException(errorMessages.<group>.deleted)` is a 400 only when the group exists. Otherwise evaluating the argument throws a non-HTTP error. |
| Validators.IsValidEmail | src/utils/constants/index.ts:30-31 | Looking only at the first '@' and the last '.' decides the email expression exactly. |
| Validators.EmailPartsAreForced | src/utils/constants/index.ts:31 | The only way to read an accepted email as `local@domain.tld` uses the first '@' and the last '.'. |
| Validators.AcceptedEmailShape | src/utils/constants/index.ts:30-31 | An accepted email has 6 to 320 characters, no whitespace and exactly one '@'. Its local part is non-empty and drawn from `[A-Za-z0-9._%+-]`. It ends with '.' and two or more ASCII letters. |
| Validators.CheckPassword | src/utils/constants/index.ts:27-28 | One pass decides the password expression exactly. |
| Validators.AcceptedPasswordShape | src/utils/constants/index.ts:27-28 | An accepted password has an A-Z letter, a digit and a listed special character. It has no whitespace, none of `" ' = ; -`, and no listed Cyrillic letter. |
| Validators.HasSpecialRun | src/utils/constants/index.ts:33-34 | The scan finds two adjacent special characters exactly when some exist. |
| Validators.IsValidUsername | src/utils/constants/index.ts:33-34 | The decision procedure accepts exactly the strings of 4 to 20 allowed characters with no two adjacent specials. |
| Strings.JoinSplit | src/modules/cloudinary/cloudinary.service.ts:21-23 | Joining the parts of a split on the same separator gives back the string. |
| Strings.SplitJoin | src/modules/cloudinary/cloudinary.service.ts:21-23 | Splitting a join of separator-free parts gives back the parts. |
| Strings.SplitLength | src/modules/cloudinary/cloudinary.service.ts:21 | A split has one more part than there are separators. |
## Left out

**Calls the model does not follow**
- Entities.FindUser: stands in for `getUsers` and `checkUser`. `getUsers` calls
  into a service method that is not part of this model. `checkUser` is a
  plain `findOneBy({ id })`, the same lookup.
- Companies.ParseData: the body of `parseData` is not part of this model. It
  is taken as a merge of the fields supplied.
- Users.AddUser: `createPassword` is not defined in the user service. It is
  modelled as the same `hash` parameter the auth service uses.
- ActionLogs.Log: the socket `emitLog` after a log insert is fire-and-forget,
  with no effect on the result or the database, and is not modelled.

**Parameters and failure models**
- Auth.Login, Auth.IssueToken, Auth.SetPassword: hashing, comparison, JWT
  signing, `randomBytes` and time stamps are parameters (`hash`, `compare`,
  `sign`, `random`, `now`), not implementations.
- Cloudinary.Edit, Cloudinary.DeleteTarget: the media host's `upload`,
  `destroy` and `url` are parameters of `Env`, not implementations.
- Companies.UploadAndSave, Users.UploadThenSave: a rejected upload or destroy
  reaches the filters unwrapped. It is modelled as a non-HTTP `MediaError`
  (status 500), not as ServiceUnavailable.
- Companies.SaveAndLog, Users.UploadThenSave: `commitTransaction` is assumed
  to succeed; only saves, deletes, log inserts and media calls fail.
  Transactions do not interleave; each call runs alone on the database it is
  given.
- Auth.Register, Users.AddUser: the password is taken as a string. A body
  without one makes the hash call reject; the `hash` parameter does not
  model that.

**Database**
- Entities.Valid: the ORM's constraints beyond the ones stated are not
  modelled. The log entity (src/modules/actionLogs/actionLog.entity.ts:21-42)
  declares relations from `userId` to users and from `companyId` to
  companies, neither with an `onDelete` rule. Whether their foreign keys
  exist depends on a schema configuration that is not part of this model.
  The model has no such keys; the two lines below say what changes where
  they exist.
- Companies.DeleteCompany: with the `companyId` foreign key in place, the
  delete at src/modules/companies/companies.service.ts:246 is refused for
  any company that has a log record, and every company gets its CREATE
  record when it is created. The DELETE record at lines 248-257 also names
  the id just deleted. Such a call therefore never commits, and a truthy
  logo has already been destroyed at line 243 when it fails. The model
  promises the call as it would run without that key.
- Users.DeleteUser, Users.RemoveAccount: with the `userId` foreign key in
  place, deleting a user who ever wrote a log record is refused. The same
  holds for the owner of a company with a log record, because the cascade
  to companies meets the `companyId` key. The avatar has already been
  destroyed at src/modules/users/users.service.ts:198-200 when it fails.
  The model promises the call as it would run without those keys.
- Entities.FindUser, Entities.FindByEmail, Users.GetUser,
  Companies.CompaniesFindOptions, ActionLogs.LogsFindOptions: the base class
  src/common/services/instance/instance.service.ts is commented out in its
  entirety. So `findOne`, `findOneBy`, `findAllAndCount`, `save` and
  `parseData` have no definition in the files at hand. The model reads them
  as the TypeORM repository calls of the same names, and `findAllAndCount`
  as `findAndCount` with the full options (`where`, `order`, `skip`,
  `take`, `relations`). The commented-out template maps it to
  `findAndCountBy(where)`, which would instead treat the whole options
  object as a where clause.
- Entities.FindUserWhere: `findOneBy` fixes no order, so which of several
  matching rows it returns is not known. The model's scan takes the smallest
  id so that it is a function; no contract relies on that choice, and every
  contract about it speaks of "some" matching row.
- Companies.SelectsExactlyTruthyFilters, ActionLogs.SelectsExactlyTruthyFilters:
  the day-range filters (`Between(startOfDay, endOfDay)`) and the database's
  comparison of the capital column with the query string are predicate
  parameters (`RowTests`), not implementations.

**Numbers**
- Numbers.NatToString, Numbers.IntToString: integers are unbounded. The
  engine writes numbers of 1e21 and above in exponent form, so the decimal
  form here differs from `String(n)` there.
- Numbers.ParseInt: the value is exact. The engine rounds values above 2^53
  to the nearest double, so very long digit strings read differently there.
  The ids that reach these functions are 4-byte serial keys, far below
  either bound.
- Companies.CompaniesFindOptions, Companies.CompaniesMeta,
  ActionLogs.LogsFindOptions, ActionLogs.LogsMeta: `offset` and `limit` are
  taken as natural numbers. In the program they are query strings passed to
  `skip`/`take` and echoed in `meta` as they arrived; their conversion by
  the ORM is not modelled.
- Companies.CompaniesFindOptions, ActionLogs.LogsFindOptions: `name`,
  `service` and `sort` are taken as `SortOrder` (ASC or DESC). In the
  program they are raw query strings, because the validation pipe passes
  its input through. The "ASC" defaults apply only when a value is absent
  (src/modules/companies/companies.service.ts:282-283 and
  src/modules/actionLogs/actionLogs.service.ts:55). So `?name=` or
  `?sort=desc` reach the ORM's `order` unchanged, and how the ORM reads
  them is not modelled.

**Fields**
- Companies.CreateCompany: `new CompanyEntity(dto)`
  (src/modules/companies/company.entity.ts:45-50) copies every key of the
  body, then sets `createdAt` and `updatedAt` from the clock. The model
  takes name, service and capital from the body and both time stamps from
  the clock. Three things are not modelled:
  - a body carrying `id`, `logo` or `user`. An `id` there would turn the
    insert into an update of that row.
  - the body's `price`. The constructor copies it, and `instanceToPlain`
    echoes it in the reply.
  - the body's `capital`. The schema declares a string
    (src/common/dto/company/company.dto.ts:12-14), and the reply echoes that
    string. The model's result carries an integer, like the column.
- Companies.ParseData, Companies.UpdateCompany: the same holds for an
  update. The body's `price` and string `capital` are not modelled;
  `capital` is taken as an integer, like its column.
- ActionLogs.Record: the `metadata.reason` text `${role} <verb> <subject>` is
  kept structured as `Reason(role, verb, subject)`, not as a concatenated
  string.

**Behaviour not carried by a contract**
- Users.UploadThenSave: nothing destroys an uploaded avatar when the save
  fails, because the user service has no such step. The asset stays on the
  media host.
- Users.DeleteUser: the user service's mutations write no audit record,
  because the source writes none.
- Controllers and wiring: the companies controller, auth controller,
  decorators, the response interceptor, multer storage, configuration and
  the DTO schemas are not modelled. The validation pipe returns its input
  unchanged, so requests reach the services unvalidated. The profile
  guard's wiring to routes is also out.
- Validators.IsValidEmail, Validators.MatchesPasswordRegex: the predicates model the three patterns only.
  They are written for strings of Unicode scalar values, without UTF-16
  surrogate halves.

## Findings

| source | as written | input that shows it | evidently intended | confidence | as-written member | corrected member |
|---|---|---|---|---|---|---|
| src/modules/users/users.service.ts:165-167 and src/modules/companies/companies.service.ts:203-205 | `errorMessages.avatar.deleted` and `errorMessages.logo.deleted` read groups that src/utils/constants/index.ts:7-25 does not define. Evaluating the argument throws a TypeError, answered 500. | `deleteAvatar` for a user whose avatar is null; `deleteCompanyLogo` for a company whose logo is null | a 400 BadRequest with an "already deleted" message | high, not executed | Errors.BadRequestAsWritten, Users.DeleteAvatarAsWritten, Companies.DeleteCompanyLogoAsWritten | Users.DeleteAvatar, Companies.DeleteCompanyLogo |
| src/modules/auth/auth.service.ts:101-108 | `findOneBy({ passwordResetToken })` with the token absent has no condition, so it returns some visible user. The validation pipe passes bodies through unchanged, so nothing rejects a body without a token. | `setPassword({ password: "x" })` on a non-empty database where no user has requested a reset | Unauthorized unless some user holds the given token | medium, not executed | Auth.SetPasswordAsWritten, Auth.MissingTokenTakesOverAnAccount | Auth.SetPassword, Auth.TokenWorksOnce |
| src/modules/auth/auth.service.ts:92-99 | `findOneBy({ email })` with the email absent has no condition. Some visible user gets a fresh reset token, and the token is returned to the caller. | `resetPassword({})` on a non-empty database | Unauthorized when no user has the given email | medium, not executed | Auth.ResetPasswordAsWritten, Auth.MissingEmailHandsOutAToken | Auth.ResetPassword, Auth.ResetThenSetPassword |
