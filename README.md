# sharefood backend: accounts and authentication, in Dafny

This project models the account and authentication logic of the sharefood
backend, an Express server written in TypeScript. It covers:

- **The user store and its accessors.** These are `userQueries`, `userMutations` and
  `userUtils`. The older `backend/src/utils/users.ts` has the same function bodies,
  so the same members model it.
- **The access-token service** in `utils/auth.ts`.
- **The credential check** (`authenticateUser`).
- **The validation schemas** of users and login bodies.
- **The request-authentication middleware.**
- **The route handlers** of `/users` and `/login`, with their authorisation guards.

Modelling choices:

- **JavaScript objects.** A record or request body is an ordered list of entries (`Js.Obj`). The order
  matters because `Object.keys` order decides the wording of an update's error message.
  A missing key reads as `Undefined`, and `Js.Truthy` is JavaScript truthiness.
- **The database.** Prisma's table becomes a `map` from id to `Store.User`, kept in a
  `Store.Database` object that the mutations update in place. Its invariant `Consistent`
  says that every record sits under its own id and that usernames are unique.
  Prisma's `create`, `update` and `delete` become pure functions on the map that fail with
  a symbolic `DbError`, because the numeric error codes are not part of this model.
- **Libraries.** JSON Web Tokens (RFC 7519) and bcrypt are foreign libraries.
  - A `Jwt` is a pair of functions `sign` and `verify`.
  - A bcrypt `Hasher` is a pair of functions `hash` and `compare`.
  - What the libraries promise is stated as a hypothesis on those functions.
    `AuthUtils.WellBehaved` says a signed token verifies to its payload.
    `Bcrypt.Sound` says a password matches its own hash.
    The lemmas that need these promises take them as preconditions.
- **Inputs from outside.** The environment variables `JWT_PRIVATE_KEY` and
  `BCRYPT_SALT_ROUNDS` are `Option<string>` parameters. The clock is a parameter.
  `Math.random` is an oracle sequence of decimal strings, `draws`.
- **Outcomes.** A route handler returns either the body it sends, with the cookie it
  sets, or the error it passes to `next`.

Behaviours of the code that the model keeps as written:

- `authOptional` discards every error `authenticate` throws, whether it is about the token
  or not, because its `catch` is empty (backend/src/middleware/auth.ts:39-46).
- Some names are imported from places that do not define them, and the members that
  actually exist are used instead.
  - `UserAuth.signToken`/`verifyToken` are the functions of backend/src/utils/auth.ts:7-24.
  - `IMMUTABLE_USER_FIELDS` is `['id', 'createdAt']` from backend/src/utils/constants.ts:5.
- The routes pass `COOKIE_AGE` to `maxAge` unchanged, so `Responses.AccessCookie` is the
  cookie as the code builds it; see "## Findings".

Request fields of the wrong type follow the order of the source's checks.

- **POST `/users`.** The salt-rounds check runs first. Then bcrypt rejects a password
  that is not a string, and then the store rejects a username that is not a string.
- **POST `/login`.** The store rejects a non-string username. A non-string password is
  rejected by bcrypt.compare only once a record was found. Otherwise the request gets the
  ordinary credentials error.

## Model

| member | source | states |
|---|---|---|
| Js.Keys | backend/src/utils/users/userMutations.ts:52-53 | `Object.keys` lists the entries' keys in order |
| Js.Get | backend/src/utils/users/userMutations.ts:63 | a key that is absent reads as `undefined`; a key that is present reads as a value stored under it |
| Js.Set | backend/src/utils/users/userMutations.ts:64 | after assigning a property, it reads back as the new value and every other key reads as before; the key list keeps its order, with the key appended only when it is new |
| Js.Filter | backend/src/utils/users/userMutations.ts:52-53 | `filter` keeps exactly the elements that satisfy the test and never lengthens the list |
| Js.FilterCount | backend/src/utils/users/userMutations.ts:52-53 | `filter` keeps each element as many times as it occurs, or drops every occurrence |
| Js.FilterAppend | backend/src/utils/users/userMutations.ts:52-54 | `filter` keeps the order of what it keeps: filtering two lists one after the other gives the two filtered lists one after the other |
| Js.Join | backend/src/utils/users/userMutations.ts:58 | `join` of a single string is that string, and a join always starts with its first string |
| Js.JoinShape | backend/src/utils/users/userMutations.ts:58 | after the first string come the separator and the join of the rest, and the length is the strings' lengths plus one separator per neighbouring pair |
| Store.ToObject | backend/src/utils/users/userMutations.ts:20-28 | a stored record has the keys id, username, password, createdAt, isAdmin, and its password is the stored string |
| Store.FindByUsername | backend/src/utils/users/userQueries.ts:14 | the lookup by username finds nothing exactly when no record has that username; otherwise it finds the record stored under its own id |
| Store.Create | backend/src/utils/users/userMutations.ts:20-28 | inserting fails with a unique violation exactly when the id or the username is already used; otherwise it adds exactly one record, changes no other record, and keeps the table consistent |
| Store.Delete | backend/src/utils/users/userMutations.ts:40 | deleting fails with record-not-found exactly when the id is absent; otherwise it removes that id, leaves the other records as they were, and keeps the table consistent |
| Store.BadField | backend/src/utils/users/userMutations.ts:68 | an update's data is rejected exactly when some defined value does not fit its column, and the key reported is one of the data's keys |
| Store.Apply | backend/src/utils/users/userMutations.ts:68 | an update writes the username, password and isAdmin the data gives, keeps every column the data does not name, and never changes a record's id or createdAt |
| Store.Update | backend/src/utils/users/userMutations.ts:68 | validation runs before the lookup; an absent id gives record-not-found; the update succeeds exactly when the data fits the columns, the id is stored and no other record holds the resulting username, and a clash gives a unique violation; on success only that record changes, to the data applied to it, and the table stays consistent; a consistent table always accepts valid data that keeps the username |
| Store.BadFieldGet | backend/src/utils/users/userMutations.ts:68 | data that passes validation holds, under each key, either nothing or a value that fits that column |
| Store.SetKeepsWritable | backend/src/utils/users/userMutations.ts:63-65 | replacing a value of valid data with another value that fits the column keeps the data valid |
| UserUtils.ExcludeProperties | backend/src/utils/users/userUtils.ts:14-21 | the result has at most the input's entries |
| UserUtils.ExcludeEntries | backend/src/utils/users/userUtils.ts:18-20 | an entry is in the result exactly when it is in the input and its key is not excluded, so no entry is added |
| UserUtils.ExcludeGet | backend/src/utils/users/userUtils.ts:19 | an excluded key reads as `undefined` in the result; every other key keeps its original value |
| UserUtils.ExcludeNothing | backend/src/utils/users/userUtils.ts:14-21 | excluding no keys gives back the object unchanged |
| UserUtils.ExcludeIdempotent | backend/src/utils/users/userUtils.ts:18-20 | excluding the same keys twice gives the same result as excluding them once |
| UserUtils.ExcludeKeepsOrder | backend/src/utils/users/userUtils.ts:18-20 | the result's keys are the input's keys that are not excluded, in their original order |
| UserUtils.WithoutPassword | backend/src/utils/users/userQueries.ts:24 | a record without its password has exactly the entries id, username, createdAt and isAdmin, in that order with their stored values; password reads as `undefined` and id as the record's id |
| UserUtils.Candidate | backend/src/utils/users/userUtils.ts:6 | a candidate id has at most USER_ID_LENGTH (10) characters, and is characters 2 to 11 of the random number's text when that text is long enough |
| UserUtils.GenerateUserId | backend/src/utils/users/userUtils.ts:5-12 | the id returned is a candidate for which `getUserById` returned nothing; every earlier candidate was taken; one lookup is made per candidate drawn |
| UserQueries.IsAdmin | backend/src/utils/users/userQueries.ts:6-11 | an absent id fails with UserNotFoundError; a present id gives exactly that record's isAdmin flag |
| UserQueries.GetUserByUsername | backend/src/utils/users/userQueries.ts:13-18 | null exactly for an unknown username; otherwise the record with that username, with its password only when `withPassword` is set |
| UserQueries.GetUserById | backend/src/utils/users/userQueries.ts:20-25 | null exactly for an absent id; otherwise the record without its password |
| AuthUtils.SignToken | backend/src/utils/auth.ts:7-10 | signing fails with a configuration error exactly when JWT_PRIVATE_KEY is unset or empty; under the library's promise, the token verifies back to the user id |
| AuthUtils.VerifyToken | backend/src/utils/auth.ts:12-24 | the key is checked first, with a configuration error that is not InvalidAccessTokenError; absent cookies or a falsy token give 'Access token is missing'; any verification failure gives 'Invalid access token'; success gives the verified payload |
| AuthUtils.SignThenVerify | backend/src/utils/auth.ts:7-24 | a cookie holding a token signed for a user id verifies to that id |
| UserAuth.AuthenticateUser | backend/src/utils/users/userAuth.ts:7-17 | every failure is UnauthorizedError('Invalid username or password.'); success happens exactly when a record has that username and its hash matches, and gives that record without its password |
| UserAuth.UnknownUserLikeWrongPassword | backend/src/utils/users/userAuth.ts:8-14 | an unknown username and a wrong password give the identical error and message |
| UserAuth.UnknownUserSkipsCompare | backend/src/utils/users/userAuth.ts:11-13 | for an unknown username the outcome does not depend on bcrypt.compare, which is therefore not consulted |
| UserAuth.HashedPasswordAuthenticates | backend/src/utils/users/userAuth.ts:13-16 | a record whose hash was made from a password authenticates with that password and comes back without the hash |
| UserSchema.UsernameIssues | backend/src/utils/users/userSchema.ts:6-8 | a username is accepted exactly when it is a string of 3 to 20 characters; a non-string gives 'Username is required.'; too short and too long give the MIN and MAX messages |
| UserSchema.PasswordIssues | backend/src/utils/users/userSchema.ts:9-11 | a password is accepted exactly when it is a string of 8 to 30 characters; a non-string gives 'Password is required.'; too short and too long give the MIN and MAX messages |
| UserSchema.IsAdminIssues | backend/src/utils/users/userSchema.ts:12 | isAdmin is accepted exactly when it is a boolean |
| UserSchema.ParseUser | backend/src/utils/users/userSchema.ts:5-13 | the full schema accepts exactly when all three fields are valid, and the parsed values are those given |
| UserSchema.LongestUsernameAccepted | backend/src/utils/users/userErrorMessages.ts:7 | a 20-character username is accepted despite the "less than 20" wording; one more character gives the MAX message |
| LoginUtils.ExtraKeys | backend/src/utils/login/loginUtils.ts:7 | the keys that the picked schema does not declare are exactly the keys other than username and password |
| LoginUtils.ValidateLoginInput | backend/src/utils/login/loginUtils.ts:4-9 | a login body is accepted exactly when username and password are valid and no other key is present; the result is exactly `{username, password}` as supplied |
| LoginUtils.IsAdminRejected | backend/src/utils/login/loginUtils.ts:7 | a login body carrying isAdmin is rejected, and the rejection names the unrecognised keys |
| UserMutations.ImmutableProps | backend/src/utils/users/userMutations.ts:52 | the immutable keys of the data are exactly those of its keys listed in IMMUTABLE_USER_FIELDS |
| UserMutations.UnknownProps | backend/src/utils/users/userMutations.ts:53 | the unknown keys of the data are exactly those of its keys not listed in ALLOWED_USER_FIELDS |
| UserMutations.InvalidProps | backend/src/utils/users/userMutations.ts:52-54 | a key is reported exactly when it is immutable or not allowed; nothing is reported exactly when every key is allowed |
| UserMutations.InvalidPropsOrder | backend/src/utils/users/userMutations.ts:52-54 | the report lists the immutable keys first, in the order of the data, then the unknown keys |
| UserMutations.InvalidPropsMessage | backend/src/utils/users/userMutations.ts:57-58 | the message starts with 'Invalid property: ' exactly when one key is reported, and is then that prefix followed by the key; otherwise it is 'Invalid properties: ' followed by the reported keys joined with ', ' |
| UserMutations.ReportCount | backend/src/utils/users/userMutations.ts:52-54 | an immutable key is reported twice per occurrence, an unknown key once per occurrence, an allowed key never |
| UserMutations.IdReportedTwice | backend/src/utils/users.ts:84-91 | an update of `{id}` is refused with 'Invalid properties: id, id' |
| UserMutations.SingleUnknownKey | backend/src/utils/users/userMutations.ts:56-59 | a single unknown key among allowed ones is reported alone, with the singular wording 'Invalid property: ' |
| UserMutations.ImmutableReportedFirst | backend/src/utils/users/userMutations.ts:52-58 | an update of `{foo, id}` is refused with 'Invalid properties: id, foo, id': the immutable key comes first even though it was given last |
| UserMutations.SingularWording | backend/src/utils/users/userMutations.ts:52-58 | exactly one key is reported exactly when the data holds one unknown key once and every other key is allowed; a data holding id or createdAt always gets the plural wording |
| UserMutations.CreateError | backend/src/utils/users/userMutations.ts:31-36 | a unique violation of the store becomes UsernameAlreadyTakenError, and no other failure does; every other failure is rethrown as it is |
| UserMutations.CreateUser | backend/src/utils/users/userMutations.ts:12-37 | an unset salt-rounds variable fails before the store is touched; a taken username gives UsernameAlreadyTakenError; on success exactly one record is added, under the first free candidate id, with the hashed password and isAdmin false, and it is returned without the password |
| UserMutations.DeleteUser | backend/src/utils/users/userMutations.ts:38-48 | the record is removed and true is returned; an absent id fails with UserNotFoundError and the store is unchanged |
| UserMutations.StoreError | backend/src/utils/users/userMutations.ts:70-75 | a record-not-found failure of the store becomes UserNotFoundError, and no other failure does; every other failure is rethrown as it is |
| UserMutations.UpdateOutcome | backend/src/utils/users/userMutations.ts:49-76 | the salt-rounds check comes first; invalid keys give BadRequestError with the message built from them and leave the store and the data unchanged; a truthy password is replaced by its hash in the caller's object, and one that is not a string is refused by bcrypt; the update succeeds exactly when those checks pass and the store accepts the data; on success only that record changes, to the written data applied to it, and it is returned without its password; on failure the store is unchanged; the table stays consistent |
| UserMutations.ValidUpdateSucceeds | backend/src/utils/users/userMutations.ts:49-76 | with salt rounds configured, an update of a stored record with allowed, well-typed keys that leave the username alone succeeds, and sets isAdmin to the boolean given or keeps it |
| UserMutations.UpdateStoresFields | backend/src/utils/users/userMutations.ts:63-68 | after a successful update the stored record holds the hash of a truthy password, an empty-string password as it was given, and the username and isAdmin the data gives; a column the data does not name keeps its value, and id and createdAt never change |
| UserMutations.FalsyIsAdminNeverGrants | backend/src/utils/users/userMutations.ts:49-76 | an update whose isAdmin is falsy never turns a non-admin record into an admin |
| UserMutations.UpdateUser | backend/src/utils/users/userMutations.ts:49-76 | the store and the caller's object end up exactly as UpdateOutcome says, and the result is the one it gives; the table stays consistent |
| AuthMiddleware.Raised | backend/src/middleware/auth.ts:7-13 | nothing is thrown exactly when the token and the admin lookup both succeed; the token's error comes before the lookup's |
| AuthMiddleware.Decide | backend/src/middleware/auth.ts:6-27 | the locals are written exactly when nothing was thrown; an InvalidAccessTokenError is swallowed exactly in optional mode; every other error is rethrown |
| AuthMiddleware.Authenticate | backend/src/middleware/auth.ts:6-27 | on success the locals hold the verified id and that user's flag; otherwise they are unchanged, and the error is rethrown or swallowed as Decide says |
| AuthMiddleware.Auth | backend/src/middleware/auth.ts:29-37 | `next` gets nothing when authentication succeeds and the error otherwise |
| AuthMiddleware.AuthOptional | backend/src/middleware/auth.ts:39-46 | `next` gets nothing in every case |
| AuthMiddleware.TokenErrorsDependOnMode | backend/src/middleware/auth.ts:15-21 | a missing or invalid token is rethrown in required mode and swallowed in optional mode |
| AuthMiddleware.OtherErrorsRethrown | backend/src/middleware/auth.ts:15-17 | an error that is not about the token is rethrown in both modes |
| AuthMiddleware.IssuedTokenAuthenticates | backend/src/middleware/auth.ts:8-12 | a token issued for a stored user authenticates as that user with that user's flag; for an id no longer stored, UserNotFoundError is rethrown |
| Responses.LifetimeSeconds | backend/src/utils/constants.ts:2 | a cookie's lifetime in whole seconds is its maxAge in milliseconds, rounded down |
| Responses.CookieAgeAsWrittenLastsMinutes | backend/src/utils/constants.ts:2 | the cookie the routes set, with COOKIE_AGE as its maxAge, lives 2419 seconds, under an hour |
| Responses.CookieLastsFourWeeks | backend/src/utils/constants.ts:2 | the cookie with COOKIE_AGE converted to milliseconds lives four weeks |
| Responses.AccessCookie | backend/src/controllers/users.ts:54-56 | the cookie is named accessToken, holds the token, and has COOKIE_AGE as its maxAge |
| Responses.IntendedAccessCookie | backend/src/utils/constants.ts:2 | the cookie the comment on COOKIE_AGE intends: named accessToken, holding the token, with COOKIE_AGE in milliseconds as its maxAge |
| UsersController.MayActOn | backend/src/controllers/users.ts:71 | a caller may act on a user exactly when it is that user or an admin |
| UsersController.Escalates | backend/src/controllers/users.ts:94 | a body is refused exactly when the caller is not an admin and its isAdmin is none of the falsy values undefined, null, false, 0 and the empty string |
| UsersController.NonAdminLimits | backend/src/controllers/users.ts:86-96 | a non-admin cannot act on another user, cannot set isAdmin to true even on their own record, and passes the escalation guard with a falsy isAdmin |
| UsersController.GetUser | backend/src/controllers/users.ts:30-39 | GET /:id needs no authentication; it sends null exactly for an absent id, and otherwise the record without its password |
| UsersController.CreateUserRoute | backend/src/controllers/users.ts:41-65 | 'Username is missing.' is checked first and 'Password is missing.' second, and a falsy argument leaves the store unchanged; truthy arguments that are not both strings are refused in the order of the checks, creating nothing; two truthy strings give exactly the registration outcome of Register |
| UsersController.RegistrationCookieAuthenticates | backend/src/controllers/users.ts:53-61 | the cookie set on registration authenticates as the new user, who is not an admin |
| UsersController.RegistrationOutcome | backend/src/controllers/users.ts:47-64 | once the new record is stored, the route sends the user with a token for its id, also set as the cookie, exactly when the key is configured, and forwards the configuration error otherwise; the store has grown by one in both cases |
| UsersController.Register | backend/src/controllers/users.ts:47-64 | an unset salt-rounds variable and a taken username are forwarded with the store unchanged; otherwise the store grows by one even if signing the token fails, and the route succeeds exactly when the key is configured, sending the new user, who is not an admin, with a token for its id that is also set as the cookie |
| UsersController.DeleteUserHandler | backend/src/controllers/users.ts:67-80 | a caller who is neither the user nor an admin gets UnauthorizedError and nothing is deleted; for an allowed caller, a stored record is removed and `{}` is sent, and an absent id forwards UserNotFoundError with the store unchanged |
| UsersController.NonAdminKeepsRole | backend/src/controllers/users.ts:86-103 | a PATCH by a caller who is not an admin that is answered with a user never makes that record an admin |
| UsersController.AdminGrantsAdmin | backend/src/controllers/users.ts:83-104 | an admin's PATCH `{ isAdmin: true }` of a stored record, with salt rounds configured, succeeds and makes the record an admin with its username unchanged |
| UsersController.UpdateUserHandler | backend/src/controllers/users.ts:83-104 | the self-or-admin guard, then the escalation guard, both before the body or the store is touched; past them, the store, the body and the reply are exactly what updateUser gives; a caller who is not an admin never makes the record an admin |
| UsersController.DeleteUserRoute | backend/src/controllers/users.ts:67-80 | an unauthenticated request is refused with the middleware's error and deletes nothing; for an authenticated caller the locals hold its id and role and the outcome is exactly that of the handler for them |
| UsersController.UpdateUserRoute | backend/src/controllers/users.ts:83-104 | an unauthenticated request is refused with the middleware's error and changes neither the store nor the body; for an authenticated caller the locals hold its id and role and the outcome is exactly that of the handler for them |
| UsersController.GetMeRoute | backend/src/controllers/users.ts:19-28 | after authentication, the caller's own record without its password is sent; otherwise the middleware's error is forwarded |
| LoginController.Login | backend/src/controllers/login.ts:8-26 | 'Username is required.' is checked first and 'Password is required.' second; success happens exactly when the credentials match and the key is configured, and sends the user without its password with a cookie holding the token for its id; bad credentials are forwarded with no cookie |
| LoginController.LoginCookieAuthenticates | backend/src/controllers/login.ts:14-22 | credentials that match a stored user log in as that user, and the cookie the login sets authenticates as that user with that user's flag |

## Left out

- The frontend, GET `/users` (it returns raw records), Express routing and the HTTP status that `errorHandler` gives each error are not part of this model.
- Asynchrony is not modelled: each request runs to completion before the next one starts.
- Logging is not modelled.
- Salting and hashing are not modelled. bcrypt's `hash` is a function of the password and the rounds text. The real one draws a random salt, so two hashes of one password differ. Parsing the rounds with `parseInt` is folded into that function.
- JWT payloads are not modelled beyond the user id. A token whose payload has no `userId` is not modelled: in the source, the admin lookup for an `undefined` id throws, with an error that is not an `InvalidAccessTokenError`, before the locals are written (backend/src/middleware/auth.ts:9).
- Js.Keys: JavaScript lists integer-like keys first and the other keys in insertion order; the model keeps the entries in the order given and does not reorder integer-like keys. No key the routes or the schemas name is integer-like.
- Js.JsValue: nested objects, arrays and numbers that are not integers (fractions, NaN, the infinities) are not represented. In every check this core makes (truthiness, `typeof`, the zod types, the column types) each behaves like a value that is: an object or an array is truthy and fails every string and boolean check, as `Num(1)` does; a fraction or an infinity behaves as a non-zero `Num`, and NaN as `Num(0)`. No operation here reads inside them.
- Js.Obj: the type admits a key that occurs twice, which no JavaScript object has; `Js.Get` reads the first entry for a key, and no request body or record built here repeats a key.
- The exact texts of library errors are left out. This covers bcrypt's argument errors and the messages of Prisma and zod.
- zod's default message for a non-boolean `isAdmin` is left out; the model records only which field failed.
- Lengths count characters. JavaScript counts UTF-16 code units, so the two differ for text outside the Basic Multilingual Plane.
- The store validates only the columns an update may write, and only by type. Prisma's full validation of unknown columns is reached only through keys that `updateUser` already refuses.
- UserUtils.GenerateUserId: the source retries without bound. The model requires that some draw in the oracle sequence is free, so termination is assumed rather than shown.
- UserMutations.CreateUser: the returned id is a candidate of the oracle. The number of lookups `generateUserId` made is not passed on.
- The Prisma error codes are left out: `PRISMA_ERROR_CODES` values are not part of this model, and store failures are the symbolic `Store.DbError`.

## Findings

| source | as written | input that shows it | evidently intended | confidence | as-written member | corrected member |
|---|---|---|---|---|---|---|
| backend/src/utils/constants.ts:2 | `COOKIE_AGE = 60 * 60 * 24 * 7 * 4` counts seconds. The routes pass it as the cookie's `maxAge` (`Responses.AccessCookie`), which Express reads in milliseconds. | Any login or registration: the access cookie expires after 2419 seconds, about forty minutes. | The four weeks ("1 month") the comment names: `COOKIE_AGE * 1000` milliseconds (`Responses.IntendedAccessCookie`). | high; not executed | Responses.CookieAgeAsWrittenLastsMinutes | Responses.CookieLastsFourWeeks |
