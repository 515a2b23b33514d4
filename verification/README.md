# Identity slice of the MLDA e-learning backend, in Dafny

This project models the identity part of the backend: account registration and
login (`registerUser`, `loginUser`), the HTTP handlers that turn their outcomes
into status codes and JSON bodies (`register`, `login`, `logout`), and the
request-validation middleware (`validate`) that runs an endpoint's schema over
the request and reports every schema issue with a dotted field path.

The external libraries are collaborators with no interpretation:

- The user table is a `map<string, User>` keyed by email (`Users.Store`).
- `bcrypt.hash`, `bcrypt.compare` and `jwt.sign` are the three function-valued fields of `Users.Crypto`. They are passed in by the caller.
- The only property assumed of them is `Users.CompareAcceptsHash`: a digest verifies the plaintext it was made from. It appears only as a hypothesis of the register-then-login lemmas.
- `process.env.JWT_SECRET` is an `Option<string>` argument. Both absence and `""` are falsy (`AuthService.Configured`).
- The id the store assigns and the default the store applies to an omitted role are arguments of `Register`.
- A schema is a function from the `{body, query, params}` envelope to `Parsed | SchemaError(issues) | OtherError(detail)`.

Service operations return, next to their result, the sequence of collaborator
calls they made (`AuthService.Call`). This makes the order of the checks part of
the contracts, and which checks stop the operation. Login takes the store and
returns none, so it cannot change it.

Modules: `Wrappers` (Option, Result), `Strings` (`includes`, `join`/`split`,
integer printing), `Json` (bodies and `Response`), `Users` (records, stripping,
collaborators, store invariants), `AuthService`, `AuthController`, `Validation`.

Two behaviours of the code worth noting:

- The code does not turn a uniqueness violation raised by `create` into the duplicate-account error. A concurrent duplicate registration would reach the controller with whatever message the store raises. The model is sequential, so this case does not arise in it.
- The code exposes the configuration error text to the client, in the `error` field of the 500 login body (`AuthController.MissingSecretIsServerError`). The text itself is generic.

## Model

| member | source | states |
|---|---|---|
| AuthService.Register | src/api/services/auth.service.ts:7-31 | A taken email fails with "User with this email already exists", leaves the store as it was, and makes only the lookup call. A fresh email adds exactly one record under that email and changes no other entry. The new record holds the hash of the submitted password, the submitted fields and the store-assigned id. The calls are lookup, hash, then create with the digest in place of the plaintext. The result is the stored record minus its password. |
| AuthService.Login | src/api/services/auth.service.ts:34-68 | An unknown email fails after the lookup only, and a wrong password fails after lookup and compare. Both fail with "Invalid email or password". Valid credentials with a missing or empty secret fail with "Authentication configuration error." after reading the secret. Login succeeds exactly when all three checks pass. It then returns the record minus its password and a token signed with the secret over `{userId, role}`. Any failure carries one of the two messages. |
| AuthService.RegisterPreservesStoreInvariant | src/api/services/auth.service.ts:9-26 | Registration keeps every record under its own email. It keeps ids distinct when the assigned id is new. |
| AuthService.RegisterTwiceConflicts | src/api/services/auth.service.ts:9-15 | A second registration of the same email fails with the duplicate message. It leaves the store as the first registration left it. |
| AuthService.CredentialFailuresAgree | src/api/services/auth.service.ts:36-49 | An unknown email and a wrong password give the same failure, whatever the secret. |
| AuthService.CredentialCheckPrecedesSecret | src/api/services/auth.service.ts:36-57 | With bad credentials the secret is never read and has no effect on the outcome. |
| AuthService.RegisterThenLogin | src/api/services/auth.service.ts:17-67 | Assuming only that a digest verifies its own plaintext: after a fresh registration, a login with the same email and password and a configured secret succeeds. It returns the registered account and a token over the assigned id and role. |
| Users.WithoutPassword | src/api/services/auth.service.ts:29-30 | The stripped account keeps id, email, names and role of the record. Its type has no password field. |
| Users.StripLosesOnlyPassword | src/api/services/auth.service.ts:66-67 | Restoring the digest gives the record back. Two records strip to the same account exactly when they differ at most in the password. |
| Users.UserJson | src/api/controllers/auth.controller.ts:8 | The JSON form of an account is an object with members `id`, `email`, `firstName`, `lastName` and `role` carrying the account's values (the role spelled as stored), and no `password` key at any depth. |
| Users.UserJsonInjective | src/api/controllers/auth.controller.ts:8 | Two accounts with the same JSON form are the same account. |
| AuthController.RegisterReply | src/api/controllers/auth.controller.ts:5-18 | Success answers 201 with `{user, message: 'User created successfully'}`. A failure answers 409 with `{message}` exactly when its message contains "already exists". Any other failure answers 500 with a generic message and the raw error text. No body has a `password` key. |
| AuthController.LoginReply | src/api/controllers/auth.controller.ts:21-35 | Success answers 200 with `{user, token, message: 'Login successful'}`. A failure answers 401 with `{message}` exactly when its message contains "Invalid". Any other failure answers 500 with a generic message and the raw error text. No body has a `password` key. |
| AuthController.RegisterEndpoint | src/api/controllers/auth.controller.ts:5-8 | The store after the request is the one the service left. The status is 201, 409 or 500. |
| AuthController.LoginEndpoint | src/api/controllers/auth.controller.ts:21-25 | The status is 200, 401 or 500. It is 200 exactly when the service, given only the email and password from the body, succeeds. |
| AuthController.Logout | src/api/controllers/auth.controller.ts:38-42 | Always 200 with `{message: 'Successfully logged out'}`; the store is untouched. |
| AuthController.DuplicateMessageIsConflict | src/api/controllers/auth.controller.ts:12 | The duplicate-account message contains "already exists". |
| AuthController.InvalidMessageIsUnauthorized | src/api/controllers/auth.controller.ts:29 | The bad-credentials message contains "Invalid". |
| AuthController.ConfigurationMessageIsNotUnauthorized | src/api/controllers/auth.controller.ts:29 | "Authentication configuration error." does not contain "Invalid". |
| AuthController.DuplicateRegistrationConflicts | src/api/controllers/auth.controller.ts:12-13 | Registering a taken email answers 409 with the service's message and leaves the store unchanged. |
| AuthController.FreshRegistrationCreated | src/api/controllers/auth.controller.ts:7-8 | Registering a fresh email answers 201 with the stored record minus its password. |
| AuthController.UnknownEmailAndWrongPasswordAgree | src/api/controllers/auth.controller.ts:29-31 | An unknown email and a wrong password get identical responses, whatever the secret: 401 with "Invalid email or password". |
| AuthController.MissingSecretIsServerError | src/api/controllers/auth.controller.ts:29-33 | Valid credentials without a usable secret answer 500, not 401, with the configuration message in `error`. |
| AuthController.LoginIgnoresOtherFields | src/api/controllers/auth.controller.ts:23-24 | Fields of the login body other than email and password do not affect the response. |
| AuthController.RegisterThenLoginEndpoint | src/api/controllers/auth.controller.ts:21-25 | Assuming only that a digest verifies its own plaintext: after a fresh registration, logging in with the same credentials and a configured secret answers 200. The body holds the registered account and the token over its id and role. |
| Strings.Includes | src/api/controllers/auth.controller.ts:12 | `includes` is true exactly when some position starts an occurrence of the phrase. |
| Strings.SplitJoin | src/api/middlewares/validation.middleware.ts:17 | Splitting a join at the separator gives the parts back, when there is at least one part and no part holds the separator. |
| Strings.JoinSplit | src/api/middlewares/validation.middleware.ts:17 | Joining the pieces of a split gives the string back. |
| Strings.JoinEnds | src/api/middlewares/validation.middleware.ts:17 | A join begins with its first part and ends with its last. |
| Strings.JoinEmptyEnds | src/api/middlewares/validation.middleware.ts:17 | With two or more parts, an empty first part makes the join start with the separator and an empty last part makes it end with it. |
| Strings.IntToString | src/api/middlewares/validation.middleware.ts:17 | A numeric segment prints in canonical decimal: digits with a leading minus when negative, no leading zero except for "0" itself, and the digits read back as the number's magnitude. |
| Strings.ParseNatToString | src/api/middlewares/validation.middleware.ts:17 | Reading back the decimal digits of a number gives the number. |
| Strings.NatToStringInjective | src/api/middlewares/validation.middleware.ts:17 | Distinct indices print differently. |
| Validation.PathTextSplits | src/api/middlewares/validation.middleware.ts:17 | An empty path prints as "". A single segment prints as itself. The printed path has no leading dot when the first segment's text is non-empty and does not start with a dot, and no trailing dot when the last segment's text is non-empty and does not end with one. With two or more segments, an empty first (last) key makes the path start (end) with a dot. When no key holds a dot, splitting the printed path at the dots recovers every segment's text. |
| Validation.PathTextEnds | src/api/middlewares/validation.middleware.ts:17 | The printed path begins with the first character of the first segment's text and ends with the last character of the last segment's text, whenever those texts are non-empty. With two or more segments, an empty first or last text puts a dot at that end. |
| Validation.IssueList | src/api/middlewares/validation.middleware.ts:16-19 | One entry per issue, in order. Each entry has the issue's dotted path and its message verbatim. |
| Validation.Validate | src/api/middlewares/validation.middleware.ts:4-24 | The verdict is "next" exactly when the schema accepts the envelope. A schema error answers 400 with "Validation error" and every issue listed. Any other failure answers 500 with `{message: 'Internal server error'}` only. Exactly one of the two happens. |
| Validation.ValidateSeesOnlyEnvelope | src/api/middlewares/validation.middleware.ts:6-10 | Requests that agree on body, query and params get the same verdict. |
| Validation.OtherErrorsLeakNothing | src/api/middlewares/validation.middleware.ts:23 | Unexpected failures give the same answer whatever their detail. |

## Left out

- Prisma's client is not modelled. The model does not cover its unique-constraint violation on `create`, nor the race between two concurrent registrations of one email. The code does not handle that race.
- Creation and update timestamps (`createdAt`, `updatedAt`) of a user record are not modelled. They are store-assigned, and the password strip copies them into the returned user, so the `user` member of every 201 and 200 body carries them. `Users.UserJson` omits them.
- Request bodies are taken as well-typed, with exactly the modelled fields. The code passes the registration body whole to `create`, and validation discards the parsed value. So unvalidated keys (a client-chosen `id`, nested relations, unknown keys) and a missing or non-string `email` or `password` are not modelled. Rejections raised by `findUnique`, `create`, `bcrypt.hash` or `bcrypt.compare` are not modelled either. In the model, registration fails only on a duplicate email, so its 500 answer arises only from `RegisterReply` applied to other messages.
- The store's column default for an omitted role is an argument of `Register`. The database schema is not part of this model.
- Salting, the cost factor 10 passed to `bcrypt.hash`, and JWT encoding are not modelled. The libraries are uninterpreted functions.
- `bcrypt.compare` rejecting a malformed digest is not modelled. The comparison is a total function. Such a rejection reaches `LoginReply` with the library's message. It is answered 401 with that message when the message contains "Invalid", and 500 otherwise.
- Express request/response objects, `async`/`await`, and the `console.error` call on a missing secret are not modelled. A response is a `(status, body)` value.
- Zod's internals are not modelled. A schema is an arbitrary function of the envelope. A numeric path segment is an integer: Zod uses array indices there. Fractional numbers in paths are not modelled.
- The OpenAPI description (`src/config/swagger.config.ts`) and the seeding script (`prisma/seed.ts`) hold no logic of the identity slice.
- Strings.IntToString: prints every integer in plain decimal. JavaScript prints integers of magnitude 10^21 or more in exponent form (`1e+21`), so numeric path segments that large are not modelled faithfully. Zod path indices are array positions, far below that bound.
