# mern-login authentication core, modelled in Dafny

This project models the session lifecycle of the mern-login server: the
`User` record of `models/UserSchema.js`, the `/register` validation chain of
`routes/auth.js`, and the four handlers of `controllers/auth.js`
(`registerUser`, `loginUser`, `handleRefreshToken`, `logoutUser`) acting on
the `users` collection. Each handler reads the collection, may change one
record (a new account, or one account's `refreshToken`), and ends in one
response: a status, a body and what happens to the `jwt` cookie.

The model follows the code as written:

- On a duplicate e-mail, registration sends 409 but does not return. It
  still hashes the password and calls `create`, which the unique index
  refuses. The client keeps the 409.
- An unknown e-mail at login makes `user.password` throw inside the `try`.
  The answer is 400 `{message: "Hello"}`, not 401, so it can be told apart
  from a wrong password.
- The refresh token is signed with `ACCESS_TOKEN_SECRET` but checked with
  `REFRESH_TOKEN_SECRET`. With two different secrets, a token handed out
  by login is always refused by refresh (`LoginThenRefresh`).
- Past all its checks, refresh builds the new access token from an
  undefined `roles` and throws. The model calls this outcome `Crash`, and
  refresh never answers 200 (`RefreshNeverSucceeds`).
- Failures of `hash` and `create` are answered with the raw `err.message`.

Layout, one module per file:

- `wrappers.dfy` (`Wrappers`): `Option` and `Result`.
- `user_schema.dfy` (`UserSchema`): the record, JavaScript's `trim`, the
  `roles.User` default, the `required` and `minLength` validators, and
  `NewUser`, which builds a document.
- `auth_routes.dfy` (`AuthRoutes`): the routes, the checks in front of
  each one, and the error list they produce.
- `store.dfy` (`Store`): the collection as a value. It gives first-match
  `findOne`, `create` (schema validation, then the unique `email` index),
  `save` of a changed refresh token, and the invariant `Valid`.
- `crypto.dfy` (`Crypto`): bcrypt and jsonwebtoken as values of function
  type passed to the handlers, with the payloads that get signed.
  `BcryptSound` and `JwtSound` state the only facts some lemmas assume.
- `session.dfy` (`Session`): each handler as a function from the
  collection and the request to a response and a new collection, plus the
  role derivation.
- `session_properties.dfy` (`SessionProperties`): the properties of those
  functions.
- `controller.dfy` (`Controller`): class `UserStore`. It holds the
  collection and has the handlers as imperative methods. Each method keeps
  `Valid()` and is proved equal to its function in `Session`.

Inputs that are not known in advance are parameters:

- the random salt (`entropy`);
- a failure of `genSalt`/`hash` (`hashFault`), of `create` (`createFault`)
  and of `save` at login (`saveFault`);
- the library functions themselves.

## Model

| member | source | states |
|---|---|---|
| `UserSchema.WithDefaults` | models/UserSchema.js:16-23 | `roles.User` becomes 2001 when absent and keeps a given value; `Editor` and `Admin` stay as given (absent unless supplied) |
| `UserSchema.TrimSpec` | models/UserSchema.js:5-13 | the `trim` setter keeps the slice of the value left after dropping white space at both ends; everything dropped is white space, and the result has none at either end |
| `UserSchema.TrimStartSpec` | models/UserSchema.js:8 | dropping leading white space keeps a suffix, drops only white space, and leaves no white space in front |
| `UserSchema.TrimEndSpec` | models/UserSchema.js:12 | dropping trailing white space keeps a prefix, drops only white space, and leaves no white space at the end |
| `UserSchema.TrimmedIsFixed` | models/UserSchema.js:27 | trimming a value with no white space at either end leaves it unchanged |
| `UserSchema.TrimIdempotent` | models/UserSchema.js:27 | trimming twice equals trimming once |
| `UserSchema.NewUser` | models/UserSchema.js:3-33 | a document is rejected exactly when a required path is missing or empty after trimming, or the trimmed password is shorter than 8, and the rejection lists those violations; otherwise the record has the trimmed name, e-mail and password, the defaulted roles, and no refresh token |
| `UserSchema.NewUserWellFormed` | models/UserSchema.js:5-29 | every record `NewUser` accepts has non-empty trimmed name and e-mail, a trimmed password of at least 8 characters, and a `User` role |
| `UserSchema.MissingFieldRejected` | models/UserSchema.js:5-26 | a document missing `name`, `email` or `password` cannot be created |
| `UserSchema.PasswordLengthChecked` | models/UserSchema.js:24-29 | with name and e-mail present, a document is accepted exactly when the trimmed stored password value has length at least 8 |
| `AuthRoutes.Errors` | routes/auth.js:13-20 | the error list is never longer than the check list; it is empty exactly when every check passes, and its first message belongs to the first failing check |
| `AuthRoutes.ErrorsCount` | routes/auth.js:13-20 | the error list has one entry per failing check |
| `AuthRoutes.ErrorsInOrder` | routes/auth.js:13-20 | a failing check's message sits at the position given by the number of failing checks declared before it; with `ErrorsCount` this fixes the whole list as the failing checks' messages in declaration order |
| `AuthRoutes.ErrorsFromFailing` | routes/auth.js:13-20 | a message is in the error list exactly when some failing check carries it |
| `AuthRoutes.Validators` | routes/auth.js:13-24 | only `/register` has checks; the list itself (name at least 3, e-mail, pwd at least 8, in that order) is stated by `RegisterValid` and `RegisterFirstError` |
| `AuthRoutes.RegisterValid` | routes/auth.js:15-19 | `/register` has no error exactly when the name has at least 3 characters, the e-mail passes the e-mail predicate, and the password has at least 8 characters (a missing field counts as empty) |
| `AuthRoutes.RegisterFirstError` | routes/auth.js:15-20 | the first `/register` error is the name message if the name is short, else the e-mail message if the e-mail is invalid, else the password message if the password is short |
| `AuthRoutes.UncheckedRoutes` | routes/auth.js:22-24 | `/login`, `/refresh` and `/logout` reach their handlers with no validation error for any body |
| `AuthRoutes.ValidRegisterHasFields` | routes/auth.js:15-19 | a `/register` body that passes validation has all three fields, with the lengths and e-mail predicate checked |
| `Store.Valid` | models/UserSchema.js:3-33 | a predicate with no contract: every record passed the schema, e-mails are unique, ids are ascending and below the next id; `CreateValid`, `SetRefreshTokenValid` and the `KeepsValid` lemmas show each change keeps it |
| `Store.CreateErrorMessage` | controllers/auth.js:40-41 | a function with no contract giving `err.message` of a failed `create`; `SessionProperties.RegisterCreateFailure` states that registration answers with it |
| `Store.FindOne` | controllers/auth.js:20 | `findOne` returns the index of the first matching record, and returns nothing exactly when no record matches |
| `Store.Create` | controllers/auth.js:33-37 | `create` succeeds exactly when the document validates, the database does not fail, and no record holds the trimmed e-mail; on success the record is appended under the next id, and on failure nothing changes |
| `Store.CreateValid` | models/UserSchema.js:3-33 | `create` keeps the collection valid: every record passes the schema, e-mails are unique, and ids are distinct |
| `Store.CreateExistingRefused` | models/UserSchema.js:10-15 | `create` with an e-mail that a record already holds always fails, because stored e-mails are trimmed |
| `Store.CountEmailUnique` | models/UserSchema.js:14 | under the unique index an e-mail is held by at most one record, and by exactly one when `findOne` finds it |
| `Store.SetRefreshToken` | controllers/auth.js:93-94 | saving a new refresh token changes that record's token and none of its other fields, and no other record; the collection keeps its length and next id |
| `Store.SetRefreshTokenValid` | controllers/auth.js:145-146 | changing a refresh token keeps the collection valid |
| `Crypto.TopLevelEmail` | controllers/auth.js:118 | `decoded.email` exists only for the refresh payload `{ email }`, not for the access payload `{ UserInfo }`, and it is the e-mail that was signed |
| `Session.KeepTruthy` | controllers/auth.js:67 | `filter(Boolean)` keeps exactly the present, non-zero role values and never lengthens the list |
| `Session.RolesOf` | controllers/auth.js:67 | the login role list has at most three entries, and a value is in it exactly when it is non-zero and is the `User`, `Editor` or `Admin` role |
| `Session.RolesOrder` | controllers/auth.js:67 | the role list keeps the order `User`, `Editor`, `Admin` |
| `Session.FirstSent` | controllers/auth.js:21-42 | a function with no contract: only the first response Express sends reaches the client; `SessionProperties.RegisterExistingEmail` states its effect (the 409 survives whatever follows) |
| `Session.RegisterStep` | controllers/auth.js:8-43 | registration always answers with a response, never sets a cookie, and answers 200, 400 or 409; its other properties are the `SessionProperties.Register*` rows |
| `Session.RegisterChecked` | controllers/auth.js:17-42 | past validation, the answer is 200, 400 or 409 with no cookie, and it is 409 exactly when `findOne` finds the e-mail |
| `Session.LoginStep` | controllers/auth.js:45-107 | login answers 200, 400 or 401; any answer but 200 leaves the collection unchanged and sets no cookie; the collection keeps its length and next id; its other properties are the `SessionProperties.Login*` rows |
| `Session.RefreshOutcome` | controllers/auth.js:109-132 | refresh either answers 401 or 403 with a bare status and no cookie change, or throws on the undefined `roles`; see `SessionProperties.RefreshNeverSucceeds` for when each happens |
| `Session.LogoutStep` | controllers/auth.js:134-151 | logout always answers 204 with a bare status, clearing the cookie exactly when it was non-empty; the collection keeps its length and next id |
| `SessionProperties.RegisterRejectsInvalid` | controllers/auth.js:10-15 | a non-empty validation result answers 400 `{error}` with the first message and leaves the collection unchanged |
| `SessionProperties.RegisterPastChecks` | controllers/auth.js:17 | past validation, registration runs on the three body fields, which are all present |
| `SessionProperties.NotStoredUntrimmed` | controllers/auth.js:20 | if no record holds the trimmed e-mail, the untrimmed lookup finds none either |
| `SessionProperties.RegisterFreshEmail` | controllers/auth.js:27-39 | a new e-mail appends exactly one record: trimmed name and e-mail, password `hash(pwd, genSalt(10))` (not `pwd`), role `User` 2001, no refresh token; the answer is 200 naming the new id |
| `SessionProperties.RegisterExistingEmail` | controllers/auth.js:20-25 | an e-mail already stored answers 409 `{error: "User already exist"}` whatever the hash and `create` do; the collection is unchanged and holds that e-mail once |
| `SessionProperties.RegisterHashFault` | controllers/auth.js:27-42 | a failed hash, for a new e-mail, answers 400 with the error message and changes nothing |
| `SessionProperties.RegisterCreateFailure` | controllers/auth.js:33-42 | a failed `create`, for a new e-mail, answers 400 with the error message and changes nothing |
| `SessionProperties.RegisterAllOrNothing` | controllers/auth.js:8-43 | registration answers 200, 400 or 409 and never sets a cookie; it answers 200 exactly when one record is appended, the others stay as they were, and any other answer leaves the collection unchanged |
| `SessionProperties.RegisterKeepsValid` | controllers/auth.js:8-43 | registration keeps the collection valid |
| `SessionProperties.RegisterThenLogin` | controllers/auth.js:29-61 | after a successful registration, login with the stored e-mail and the same password answers 200, when bcrypt verifies its own hashes |
| `SessionProperties.LoginMissingFields` | controllers/auth.js:49-53 | a missing or empty e-mail or password answers 400 "Email and password are required." and changes nothing |
| `SessionProperties.LoginUnknownEmail` | controllers/auth.js:56-60 | an unknown e-mail answers 400 `{message: "Hello"}`, not 401, and changes nothing |
| `SessionProperties.LoginWrongPassword` | controllers/auth.js:60-65 | a password that does not match answers 401 `{errors: "Invalid email or password"}` and changes nothing |
| `SessionProperties.LoginCorrectPassword` | controllers/auth.js:67-106 | a matching password overwrites only that account's refresh token with `sign({email}, ACCESS_TOKEN_SECRET, "1d")`, sets cookie `jwt` to it with maxAge 86,400,000 ms, and answers 200 with the roles and `sign({UserInfo}, ACCESS_TOKEN_SECRET, "5m")`; a failed save answers 400 "Hello" with no cookie and changes nothing |
| `SessionProperties.LoginKeepsValid` | controllers/auth.js:93-94 | login keeps the collection valid |
| `SessionProperties.StaleTokenRejected` | controllers/auth.js:93-115 | after a login that issued a different token, refresh with the account's old token answers 403, unless another account holds it |
| `SessionProperties.RefreshNeverSucceeds` | controllers/auth.js:109-131 | refresh answers only 401 (exactly when the cookie is missing or empty) or 403, and throws on `roles` exactly when a record holds the token, it verifies with `REFRESH_TOKEN_SECRET`, and its `email` is that record's |
| `SessionProperties.LoginThenRefresh` | controllers/auth.js:85-118 | the token a login puts in the cookie is refused (401/403) by refresh when the two secrets differ; when they are equal and no other account holds it, refresh reaches the `roles` crash |
| `SessionProperties.LogoutEffects` | controllers/auth.js:134-151 | logout always answers 204. With no cookie, the cookie is kept and nothing changes. With a cookie no record holds, the cookie is cleared and nothing changes. Otherwise the cookie is cleared and only the first holder's token becomes "" |
| `SessionProperties.LogoutIdempotent` | controllers/auth.js:139-146 | a second logout with the same cookie gives the same answer and changes nothing more, when at most one record held a non-empty cookie's token |
| `SessionProperties.LogoutThenRefresh` | controllers/auth.js:134-151 | after logout, refresh with the same cookie answers 403 (401 without a cookie) |
| `SessionProperties.LogoutKeepsValid` | controllers/auth.js:145-146 | logout keeps the collection valid |
| `Controller.UserStore.CreateUser` | controllers/auth.js:33-37 | the collection's `create` keeps `Valid()` and returns and stores what `Store.Create` gives |
| `Controller.UserStore.SaveRefreshToken` | controllers/auth.js:93-94 | assigning and saving a refresh token keeps `Valid()`; it changes only that record, and only when the save does not fail |
| `Controller.UserStore.RegisterUser` | controllers/auth.js:8-43 | the imperative handler keeps `Valid()`; its answer and new collection are those of `Session.RegisterStep` |
| `Controller.UserStore.LoginUser` | controllers/auth.js:45-107 | the imperative handler keeps `Valid()`; its answer and new collection are those of `Session.LoginStep` |
| `Controller.UserStore.HandleRefreshToken` | controllers/auth.js:109-132 | the handler changes nothing, and its answer is that of `Session.RefreshOutcome` |
| `Controller.UserStore.LogoutUser` | controllers/auth.js:134-151 | the imperative handler keeps `Valid()`; its answer and new collection are those of `Session.LogoutStep` |

## Left out

- `server.js` is not part of this model. It holds the Express setup, the middleware, the database connection and `listen`.
- `routes/users.js` is not part of this model, and neither is the role-based gate it mounts. The code of `verifyRoles`, `ROLES_LIST`, `verifyJWT` and `usersController` is not available.
- bcrypt and JWT internals (salt generation, hashing, HMAC signing, `exp` claims and the clock) are not modelled. They are parameters of function type, and expiry is hidden inside `verify`. The constants "5m" and "1d" appear only as arguments to `sign`. The "10s" expiry at refresh is never reached, because the code throws before it.
- LoginStep: a `jwt.sign` that throws is not modelled. `sign` always returns a token, so the secrets are taken to be set and non-empty. In the code, a throw from either `sign` at controllers/auth.js:70-91 (for example, an unset `ACCESS_TOKEN_SECRET`) lands in the `catch` and answers 400 `{message: "Hello"}` with no change to the collection.
- A failing `findOne` is not modelled; lookups are assumed to succeed. In register and login, such a failure would reach Express's error handler. In refresh and logout, it would be an unhandled rejection.
- A failing `save` at logout is not modelled. It would be an unhandled rejection, and the model assumes it succeeds.
- The `ERR_HTTP_HEADERS_SENT` error that follows the 409 fall-through is not modelled. The model keeps the first response sent (`FirstSent`).
- Cookie attributes (`httpOnly`, `secure`, `sameSite`), CORS and `console.log` are not modelled. The options object `{ timestamp: true }` is not modelled either; it is not a Mongoose option, so it has no effect.
- Mongoose does not trim query filters in this model. `findOne` compares the raw request value with the stored, trimmed one.
- express-validator's character counting is left out: lengths are sequence lengths.
- `check(field)` also looks in cookies, headers, route parameters and the query string. The model reads the field from the request body only.
- `isEmail` is a parameter. Handlers require `!isEmail("")`, which holds for validator.js's predicate, so that a missing e-mail fails validation.
- Request fields that are not strings (numbers, objects) are not modelled.
- Error texts are simplified. The E11000 message leaves out the database name, a validation message lists the violations in schema order, and `_id` is a natural number shown in decimal rather than an ObjectId.
- Concurrency and async timing are not modelled. Each handler runs as one atomic step.
- LogoutIdempotent: requires that at most one record holds a non-empty cookie's token, because the code does not make refresh tokens unique. An empty or missing cookie needs no condition.
- LogoutThenRefresh: requires the same at-most-one-holder condition as LogoutIdempotent.
- StaleTokenRejected: requires that no other account holds the stale token, because a token shared with another record still finds that record.
- RegisterThenLogin: logs in with the stored (trimmed) e-mail, because lookups are not trimmed.
- RegisterFreshEmail: assumes `BcryptSound`, so that the stored password equals the hash; without it, the stored value is the trimmed hash.
