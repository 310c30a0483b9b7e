# Authentication core of pcterp-api, modelled in Dafny

This project models the credential lifecycle and the access gates of the
pcterp-api employee service (`controllers/authController.js` and
`models/employeeModel.js`). It covers these parts:

- bearer-token extraction and the `protect` gate: token, verification,
  account still present, token not stale, then the account is attached;
- the `restrickTo` role gate and the `login` decision;
- `signup`, `forgotBadgeId`, `resetBadgeId` and `updateBadgeId` as methods
  over an in-memory Employee collection (`Workflows.Store`);
- the Employee document (`Employee.Account`): its setters (trim, lowercase),
  its validators, the pre-save hashing hook, `changedBadgeIdAfter` and
  `createBadgeIdResetToken`.

Files and modules:

| file | module | what it holds |
|---|---|---|
| `wrappers.dfy` | `Wrappers` | `Option`, `Result`, `Outcome` |
| `crypto.dfy` | `Crypto` | stand-ins for SHA-256, bcrypt and the JWT claims; hex encoding |
| `text.dfy` | `Text` | `trim`, `toLowerCase`, `startsWith`, `split(' ')` |
| `employee.dfy` | `Employee` | the account record, validators, hook, staleness, the `Account` document class |
| `auth.dfy` | `Auth` | token extraction, the gate, the role gate, `login`, `createSendToken`, the collection lookup |
| `workflows.dfy` | `Workflows` | the `Store` and `Request` classes and the handlers that write |
| `as_written.dfy` | `AsWritten` | the lines whose path or method names do not match the schema, modelled literally |

## How the source is read

- The persisted state is a sequence of `AccountRecord`s. Its order is the
  order in which `findOne` returns documents. A handler loads one record into
  an `Account` object, assigns its paths and calls `Store.Save`. `Save`
  validates unless validation is skipped, then runs the pre-save hook, then
  writes the record back.
- Time is a parameter `now` in milliseconds. A JWT's `iat` is `now / 1000`.
- The 32 random bytes of a reset token are a parameter `entropy`.
- The notifier's outcome is the parameter `delivered`.
- `jwt.verify` under the process secret is a parameter
  `verify: string -> Result<Claims, TokenError>`.
- `H` is SHA-256 (FIPS 180-4) and `BHash`/`BCompare` are bcrypt. Each of
  these stand-ins is a deterministic, injective tagging of its input.
  `Claims` holds the custom `id` claim the service signs (controllers/authController.js:15)
  and reads back (:109), and the registered `iat` claim (RFC 7519, section 4.1.6).
- The schema is in strict mode. The controller assigns paths the schema does
  not declare (`badgeId`, `badgeIdConfirm`, `badgeIdResetToken`,
  `badgeIdResetExpires`). Those assignments are not kept, and reading such a
  path gives `undefined`. The handlers in `Workflows` use the schema's own
  paths (`password`, `passwordConfirm`, `passwordResetToken`,
  `passwordResetExpires`, `passwordChangedAt`). `AsWritten` shows what the
  mismatched names do; see "## Findings".
- The controller uses `User`, which is never imported
  (authController.js:109, 137, 177, 202). It is read as the Employee
  collection.
- Query filters are read with Mongoose's `strictQuery` off, so a filter on
  an undeclared path is sent as written and matches no document. This is
  Mongoose 5's default. The connection options at server.js:18-23
  (`useCreateIndex`, `useFindAndModify`) are accepted only by Mongoose 5.
  An absent filter value (`undefined`) is sent as `null` and matches every
  document that lacks the path. `AsWritten` also models a hypothetical
  configuration with `strictQuery` on, where such a filter is dropped: the
  reset lookup at controllers/authController.js:177 then has an empty
  filter and returns the first document.
- `signup` passes the whole request body to `Employee.create`
  (controllers/authController.js:48). Every schema path the body carries is
  kept, including `passwordChangedAt`, `passwordResetToken` and
  `passwordResetExpires` (models/employeeModel.js:48-50). `Employee.NewRecord`
  and `Employee.Account.Create` model that. `Workflows.Store.Signup` clears
  those three paths; see "## Findings".
- `resetBadgeId` has an empty step 3 where the change time should be set
  (authController.js:189). The handlers in `Workflows` set it to `now`.

## Model

| member | source | states |
|---|---|---|
| `Crypto.HexEncode` | models/employeeModel.js:138 | the plain reset token holds, for each random byte in order, the lower-case hex digit of its high nibble and then of its low nibble (64 characters for 32 bytes) |
| `Crypto.HexEncodeInjective` | models/employeeModel.js:138 | two tokens are equal exactly when they were made from the same bytes, so the token carries all of its random bytes |
| `Crypto.HInjective` | models/employeeModel.js:141 | equal digests come only from equal tokens (collision freedom of the stand-in), so a stored hash identifies one plain token |
| `Crypto.BCompareExactly` | models/employeeModel.js:124-126 | the stand-in's hash accepts its own password and no other (real bcrypt reads only the first 72 bytes of the password) |
| `Crypto.IssuedAt` | controllers/authController.js:14-18 | a token signed at `now` ms carries `iat` = the whole second containing `now` |
| `Text.TrimSpec` | models/employeeModel.js:23-30 | `trim` keeps the slice between the leading and trailing white space and leaves none on either side |
| `Text.TrimIdempotent` | models/employeeModel.js:31-36 | trimming an already trimmed value changes nothing |
| `Text.JoinSplit` | controllers/authController.js:94 | joining the pieces of `split(' ')` with single spaces gives back the header |
| `Text.SplitJoin` | controllers/authController.js:94 | splitting space-free pieces joined by single spaces gives back the pieces |
| `Employee.NormalizeEmailSpec` | models/employeeModel.js:23-30 | a stored email has no surrounding white space and no upper-case letter, and normalising it again changes nothing |
| `Employee.GenderOrDefault` | models/employeeModel.js:89-93 | an absent gender becomes `male`; a given one is kept, to be checked by the enum |
| `Employee.NewRecord` | controllers/authController.js:48 | the document built from a signup body has the given id and no role; its email is trimmed and lowercased and its password trimmed; the confirmation, change time and reset pair are kept as sent; an absent gender becomes `male` |
| `Employee.Account.Create` | controllers/authController.js:48 | a created document holds exactly `NewRecord` of the body and its password is marked modified, so the hook will hash it |
| `Employee.Violations` | models/employeeModel.js:31-47 | validation accepts a document exactly when a password of at least 8 characters is set, the confirmation equals it, the email is present and the gender is `male` or `female` |
| `Employee.Hashed` | models/employeeModel.js:108-118 | after the hook the stored password is a hash that accepts the old plaintext, the confirmation is gone and no other path changed |
| `Employee.StaleExactly` | models/employeeModel.js:128-135 | with no change time no token is stale; otherwise a token is stale exactly when the change happened in a later whole second than `iat` |
| `Employee.StaleBySecond` | models/employeeModel.js:130-131 | stale exactly when `iat` is below the change time in seconds, so a token of the same second is not stale |
| `Employee.Account.SetPassword` | models/employeeModel.js:31-36 | assigning a password stores it trimmed, marks it modified and changes nothing else |
| `Employee.Account.CreateResetToken` | models/employeeModel.js:137-147 | returns the hex token; stores its hash and an expiry of `now + 600000` together; changes nothing else |
| `Employee.Account.PreSave` | models/employeeModel.js:108-118 | an unmodified password leaves the document as it is; a modified one is hashed and the confirmation cleared |
| `Auth.FindFirst` | controllers/authController.js:68 | `findOne` returns the first matching document, and nothing when none matches |
| `Auth.FindByIdFinds` | controllers/authController.js:109 | with unique ids, `findById` of an account's id finds that account |
| `Auth.HeaderWinsOverCookie` | controllers/authController.js:93-97 | when the header starts with "Bearer", the cookie never affects the token |
| `Auth.CookieOnlyWithoutBearer` | controllers/authController.js:95-96 | without a bearer header, the token is the `jwt` cookie when truthy and nothing otherwise |
| `Auth.BearerTokenIffSpace` | controllers/authController.js:93-94 | a bearer header gives a token exactly when it contains a space; without one there is no token, even when a cookie is present |
| `Auth.BearerTokenIsSecondWord` | controllers/authController.js:94 | a token taken from the header is the run of non-space characters right after its first space |
| `Auth.GateGrantsExactly` | controllers/authController.js:88-122 | the gate admits exactly when a token is found, it verifies, the account named by its `id` claim exists and the token is not stale; it returns that account; every refusal is a 401 or a verification error |
| `Auth.RestrictTo` | controllers/authController.js:125-133 | passes exactly when the user's role is in the list, and otherwise fails with 403 |
| `Auth.SendToken` | controllers/authController.js:20-44 | the response carries a token for the user issued in the current second and the document without its password hash |
| `Auth.LoginDecision` | controllers/authController.js:58-86 | missing credentials give 400; a token is issued exactly when an account has that email and a hash of that password; every other outcome is the same 401 error |
| `Workflows.ChangeRetiresOlderTokens` | controllers/authController.js:115-117 | after a password change, tokens from earlier seconds are refused as stale and the token issued with the change is admitted |
| `Workflows.ResetLookupExactly` | controllers/authController.js:175-177 | a stored reset pair matches exactly the generated token, and only strictly before its expiry |
| `Workflows.ResetIsSingleUse` | controllers/authController.js:183-187 | after a reset the account matches no reset lookup again, and its reset fields stay paired |
| `Workflows.Store.Save` | controllers/authController.js:187 | a failed validation writes nothing; otherwise the hook's result replaces the stored record with the same id |
| `Workflows.Store.Signup` | controllers/authController.js:47-55 | the body's change time and reset pair are cleared; then an invalid body or a taken email writes nothing; otherwise the hashed document is appended and returned with status 201, without its hash; the store invariant is kept |
| `Workflows.RestrictToRefusesSignedUp` | controllers/authController.js:125-133 | signup never sets a role, so the role gate refuses every account signup creates with a 403 |
| `Workflows.Store.Protect` | controllers/authController.js:88-122 | returns the gate's verdict and attaches the account only on success; on failure `req.user` is unchanged |
| `Workflows.Store.ForgotPassword` | controllers/authController.js:135-171 | an unknown email is a 404 with nothing written; otherwise the hash of the mailed token and its expiry are stored, or, when delivery fails, both are cleared and the result is a 500 |
| `Workflows.Store.ResetPassword` | controllers/authController.js:173-198 | an unmatched or expired token is a 400 with nothing written; otherwise the new password is hashed, the reset pair cleared and the change time set, provided validation passes |
| `Workflows.Store.UpdatePassword` | controllers/authController.js:200-216 | a wrong current password is a 401 with nothing written; otherwise the new password is hashed and the change time set, provided validation passes |
| `AsWritten.StaleCheckAsWrittenNeverFires` | models/employeeModel.js:128-135 | the check reads `badgeIdChangedAt`, which is never set, so it never reports a token as stale |
| `AsWritten.ResetLookupAsWrittenNeverFinds` | controllers/authController.js:177 | the lookup on `badgeIdReset*` finds no account, even when the schema's reset fields match the presented token |
| `AsWritten.ForgotLookupAsWrittenMissesGivenId` | controllers/authController.js:137-140 | a lookup on the undeclared `userId` with a given value finds no account, so the forgot request is a 404 even when an account has the posted email |
| `AsWritten.ForgotLookupAsWrittenTakesFirst` | controllers/authController.js:137-140 | without a `userId` the lookup returns the first account, whatever email was posted, where the lookup by email would not |
| `AsWritten.ResetLookupStrictQueryTakesFirst` | controllers/authController.js:177 | with `strictQuery` on (hypothetical), the lookup returns the first account for any token, even one the schema's reset fields would never match |
| `AsWritten.RollbackAsWrittenKeepsToken` | controllers/authController.js:163-168 | the rollback clears `badgeIdReset*`, so the pending reset hash and expiry stay set |
| `AsWritten.UpdateAsWrittenNeverSucceeds` | controllers/authController.js:200-207 | `correctPassword` does not exist, so an update fails even with the right current password |
| `AsWritten.SendTokenAsWrittenLeaksHash` | controllers/authController.js:34-35 | stripping `badgeId` leaves the stored password hash in the response |
| `AsWritten.SignupAsWrittenKeepsClientPaths` | controllers/authController.js:48 | validation ignores the change time and reset pair; a body with a reset hash and no expiry is stored with an unpaired reset pair; a planted future change time is never read by the written staleness check, but would make earlier tokens stale once the check reads `passwordChangedAt`; the cleared signup record is well formed and has no change time |

The `Workflows.Store` methods keep one invariant, `Auth.StoreInvariant`:
- ids are unique and emails are unique;
- every stored account has a password set and no confirmation;
- every stored account has its reset hash and expiry both set or both clear.

## Findings

| source | as written | input that shows it | evidently intended | confidence | as-written member | corrected member |
|---|---|---|---|---|---|---|
| models/employeeModel.js:129 | reads `badgeIdChangedAt`, which the schema does not declare; nothing sets a change time (controllers/authController.js:189 is empty) | an account with `passwordChangedAt` = 2000 ms and a token with `iat` = 1 | the token is refused as stale | high (not executed) | `AsWritten.StaleCheckAsWrittenNeverFires` | `Workflows.ChangeRetiresOlderTokens` |
| controllers/authController.js:177 | looks up `badgeIdResetToken` / `badgeIdResetExpires`, but the model writes `passwordResetToken` / `passwordResetExpires` (models/employeeModel.js:141-144) | the token mailed by `forgotBadgeId`, presented within ten minutes | the account is found and reset | high (not executed; assumes `strictQuery` off) | `AsWritten.ResetLookupAsWrittenNeverFinds` | `Workflows.ResetLookupExactly` |
| controllers/authController.js:177 | the same filter, with both undeclared paths dropped by `strictQuery` | any token string, against a collection that is not empty | only the account whose pending reset token was presented is found | low (not executed; a hypothetical `strictQuery`-on configuration the source does not make) | `AsWritten.ResetLookupStrictQueryTakesFirst` | `Workflows.ResetLookupExactly` |
| controllers/authController.js:164-165 | the rollback clears `badgeIdResetToken` / `badgeIdResetExpires` | a forgot-password request whose email delivery fails | the reset hash and expiry are cleared | high (not executed) | `AsWritten.RollbackAsWrittenKeepsToken` | `Workflows.Store.ForgotPassword` |
| controllers/authController.js:137 | filters on `userId`, which the schema does not declare | a forgot request whose body carries a `userId` and the email of an existing account | the account with the posted email is found and mailed a token | high (not executed) | `AsWritten.ForgotLookupAsWrittenMissesGivenId` | `Workflows.Store.ForgotPassword` |
| controllers/authController.js:137 | an absent `userId` is sent as `null`, which every document matches | a forgot request with only an email, against a collection whose first account has another email | the account with the posted email is found, or a 404 | medium (not executed) | `AsWritten.ForgotLookupAsWrittenTakesFirst` | `Workflows.Store.ForgotPassword` |
| controllers/authController.js:205 | calls `user.correctPassword`; the model defines `correctBadgeId` (models/employeeModel.js:124) | an existing account and its right current password | the comparison passes and the password is changed | high (not executed) | `AsWritten.UpdateAsWrittenNeverSucceeds` | `Workflows.Store.UpdatePassword` |
| controllers/authController.js:35 | sets `user.badgeId = undefined`; the password hash stays in the document | a login with the right password | the response omits the hash | high (not executed) | `AsWritten.SendTokenAsWrittenLeaksHash` | `Auth.SendToken` |
| controllers/authController.js:48 | `Employee.create(req.body)` keeps the body's `passwordChangedAt`, `passwordResetToken` and `passwordResetExpires` | a signup body with `passwordResetToken` = "x" and no `passwordResetExpires` | those paths are written only by the password change and reset flows | medium (not executed) | `AsWritten.SignupAsWrittenKeepsClientPaths` | `Workflows.Store.Signup` |

## Left out

- JWT signing and verification are not modelled, including the secret, `JWT_EXPIRES_IN` and the `Expired`/`Invalid` decision. `jwt.verify` is the parameter `verify`, and a signed token is represented by the claims it carries.
- bcrypt's salt and cost and SHA-256's digest are stand-ins: injective taggings, not the real functions.
- `crypto.randomBytes` is the `entropy` parameter.
- `sendEmail` and the message and URL text (including the stray `}` at controllers/authController.js:147) are left out; delivery is the `delivered` flag.
- Cookie options and the `NODE_ENV` secure flag (controllers/authController.js:23-32), the JSON envelope and console logging are left out.
- The global error handler is not part of this model. `TokenRejected`, `ValidationFailed`, `DuplicateEmail` and `Crashed` are error kinds without a status code.
- `Employee.Violations`: does not check the `firstName` required validator or the `isEmail` validator from the validator library; other profile fields are not modelled.
- `Text.Lower`: lowercases ASCII letters only, not the full Unicode case mapping of `toLowerCase`.
- `Employee.Violations`: counts the password length in Unicode scalar values, not UTF-16 code units.
- `Auth.FindFirst`: compares filter values as given. Mongoose's casting of query values, such as applying setters to them, is not modelled.
- `Workflows.Store.ForgotPassword`: looks the account up by the posted email, as the step's comment and its 404 message intend. As written, the filter is on the undeclared `userId` (controllers/authController.js:137). A given `userId` then finds no account, so the reset lifecycle never starts, and an absent one picks the first account. See "## Findings".
- `Auth.RestrictTo`: reads `role`, but the schema declares no `role` path. Every account created by `signup` has no role, so the role gate refuses it (`Workflows.RestrictToRefusesSignedUp`).
- Concurrency between requests is not modelled; each handler runs alone against the store.
- Dates before 1970 are not modelled; time is a natural number of milliseconds.
- The signup welcome URL (controllers/authController.js:50) is not modelled; it is unused.
- The route table is not modelled. `protect` and the reset flows are not wired to any route (routes/employeeRoutes.js:8-9).
- The CRUD handlers (controllers/employeeController.js), `server.js` and `app.js` are outside the core and not modelled.
