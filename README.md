# Local-credential authentication with refresh-token rotation

A Dafny model of the authentication core of a NestJS service. It covers sign-up,
sign-in, logout and refresh-token rotation (`AuthService`). It also covers the HTTP
handlers that wrap them (`AuthController`) and the refresh-token strategy. That
strategy recovers the raw refresh token from the `Authorization` header
(`RtStrategy.validate`).

Each user row holds an email, an argon2 password hash and `hashRT`. `hashRT` is
either null (no session) or the hash of the most recently issued refresh token
(active session). The service is a class holding the user table as a
`map<UserId, User>`. Its methods update that table the way the Prisma calls do:

- `create`: a new row. A duplicate email is rejected with Prisma's `P2002`, by the
  unique index on `email` that the model assumes (see "## Left out").
- `update`: replaces `hashRT`.
- `updateMany`: clears `hashRT` only where it is set.

The class invariant is that ids are below the next fresh id and that no two users
share an email.

Modules:

- `Wrappers` (wrappers.dfy): `Option` and `Result`.
- `Argon`, `Jwt` (crypto.dfy): the two foreign libraries, kept abstract.
  - argon2 is an ideal salted hash. `Verify(h, s)` holds exactly when `h` was made
    from `s`. `hashData` draws its salt nondeterministically, so callers learn only
    `Verify`.
  - JWT signing is a signer function injected into the service:
    `(claims, secret, ttl, issuedAt) -> token`. Nothing is assumed about it. In
    particular, two signings of the same claims in the same second may yield the same
    token. The access TTL is 900 s and the refresh TTL is 604800 s.
- `Auth` (auth_service.dfy): the user table, the predicates that describe the session
  state machine (`RefreshAccepted`, `RtRotated`, `SignedUp`, `LoggedOut`), lemmas
  about them, and the `AuthService` class.
- `Controller` (auth_controller.dfy): how a handler turns the service's outcome into
  a reply. `Call` tells a rejected promise apart from a synchronous throw, because
  `signUpLocal` awaits inside its `try` and `signInLocal` does not. The
  `AuthController` class delegates to the service.
- `RtStrategy` (rt_strategy.dfy): ECMAScript `trim` and first-occurrence `replace`
  on strings, token extraction and `validate`.

The wall clock (the second at which tokens are signed) is a parameter `now` of every
operation that issues tokens. The signer and the two secrets are constructor
parameters of the service.

Two behaviours the model makes explicit:

- **Sign-in errors are not mapped.** `AuthController.signInLocal` returns the
  service's promise without awaiting it. Its catch block is therefore never entered:
  whatever the service rejects with reaches the framework as it is.
  `Controller.SignInReply` and `Controller.SignInVersusSignUpErrors` state this. For
  invalid credentials the client still gets 403.
- **The scheme match is case-sensitive.** Token extraction removes only a
  case-sensitive `"Bearer"`. A header sent with a lower-case `bearer` scheme keeps
  its scheme in the extracted token (`RtStrategy.LowerCaseSchemeKept`), and that
  token then cannot verify against the stored hash.

## Model

| member | source | states |
|---|---|---|
| `Argon.VerifyIffProduced` | src/auth/auth.service.ts:47 | `argon.verify(h, s)` holds exactly when `h` is the hash of `s` under `h`'s own salt |
| `Argon.VerifyUnique` | src/auth/auth.service.ts:84 | a stored hash verifies at most one plaintext, so at most one refresh token matches `hashRT` |
| `Argon.Hash` | src/auth/auth.service.ts:96-98 | a hash verifies the plaintext it was made from and no other |
| `Auth.AuthService.HashData` | src/auth/auth.service.ts:96-98 | the salted hash of `data` verifies `data`; the salt is chosen nondeterministically |
| `Auth.AuthService.GenerateAuthTokens` | src/auth/auth.service.ts:100-128 | both tokens carry `{sub: userId, email}`; the access token is signed with the access secret for 900 s and the refresh token with the refresh secret for 604800 s; the `[rt, at]` destructuring does not swap the fields |
| `Auth.AuthService.FindByEmail` | src/auth/auth.service.ts:37-41 | finds a user exactly when one has the email, and that user is the unique owner of the email |
| `Auth.AuthService.UpdateRtHash` | src/auth/auth.service.ts:130-141 | for an existing id, only that user's `hashRT` changes, to a hash verifying `rt`; email, password hash and all other users are unchanged; a missing id changes nothing |
| `Auth.AuthService.SignUpLocal` | src/auth/auth.service.ts:21-34 | fails with `P2002` exactly when the email is taken, leaving the table unchanged; otherwise adds exactly one user with a fresh id, that email, a hash verifying the password and `hashRT` verifying the returned refresh token; returns the tokens issued for the new id; keeps email uniqueness |
| `Auth.AuthService.SignInLocal` | src/auth/auth.service.ts:36-56 | fails with Forbidden("Invalid credentials") exactly when no user has the email or the password does not verify, leaving the table unchanged; otherwise returns the owner's tokens and only that user's `hashRT` changes, to verify the new refresh token |
| `Auth.AuthService.Logout` | src/auth/auth.service.ts:58-70 | the table becomes `LoggedOut(old table, id)`; no error in any case |
| `Auth.AuthService.RefreshTokens` | src/auth/auth.service.ts:72-94 | fails with Forbidden("Access denied") exactly when the user is missing, has no session or the token does not verify, leaving the table unchanged; otherwise returns the tokens for the stored email and rotates that user's `hashRT` to the new refresh token |
| `Auth.AuthService.constructor` | src/auth/auth.service.ts:15-19 | starts with an empty table and the injected signer and secrets |
| `Auth.LoggedOut` | src/auth/auth.service.ts:58-70 | the same ids; the target user's `hashRT` is null and its email and password hash are kept; every other user is unchanged |
| `Auth.LogoutIdempotent` | src/auth/auth.service.ts:58-70 | logging out twice equals logging out once |
| `Auth.LogoutRevokes` | src/auth/auth.service.ts:58-70 | after logout no refresh token of that user is accepted |
| `Auth.RotationAcceptsOnlyIssued` | src/auth/auth.service.ts:84-93 | after a rotation a refresh by that user is accepted for exactly the newly issued token |
| `Auth.ReplayRejected` | src/auth/auth.service.ts:84-93 | a token accepted before a rotation is rejected after it unless it equals the newly issued token |
| `Auth.RotationKeepsOthers` | src/auth/auth.service.ts:133-140 | a rotation for one user does not change which tokens any other user's refresh accepts |
| `Auth.RotationKeepsEmailsUnique` | src/auth/auth.service.ts:130-141 | rewriting `hashRT` keeps the ids and the unique-email invariant |
| `Auth.SignUpOpensSession` | src/auth/auth.service.ts:31-32 | right after sign-up, a refresh by the new user is accepted for exactly the returned refresh token |
| `Auth.SignedUpCanSignIn` | src/auth/auth.service.ts:24-29 | after sign-up, sign-in with the same email and password passes its checks |
| `Controller.MapError` | src/auth/auth.controller.ts:33-43 | a Prisma known-request error with code `P2002` becomes Forbidden("Credentials incorrect"); every other error becomes InternalServerError with the generic message |
| `Controller.StatusOf` | src/auth/auth.controller.ts:36-42 | a Forbidden error answers 403; InternalServerError, and any error that is not an HTTP exception (the framework's default), answers 500 |
| `Controller.DelegateReply` | src/auth/auth.controller.ts:65-80 | the service's value is returned with status 200 and its rejection passes through unchanged |
| `Controller.SignUpReply` | src/auth/auth.controller.ts:29-44 | success, and only success, answers 201 with the service's tokens unchanged; a rejection or a synchronous throw is a `P2002` known-request error exactly when the reply is Forbidden("Credentials incorrect") with 403, and otherwise the reply is the generic InternalServerError with 500 |
| `Controller.SignInReply` | src/auth/auth.controller.ts:48-63 | for a returned promise the reply is exactly the plain delegation: 200 with the tokens, or the rejection unmapped; only a synchronous throw goes through the catch block's mapping |
| `Controller.SignInVersusSignUpErrors` | src/auth/auth.controller.ts:29-63 | for every error a rejected service promise carries, sign-in raises it unchanged; its status is 403 for Forbidden, so Forbidden("Invalid credentials") answers 403, and 500 otherwise; sign-up turns every error other than `P2002`, a Forbidden included, into the generic 500 |
| `Controller.AuthController.constructor` | src/auth/auth.controller.ts:25 | the controller holds the given service |
| `Controller.AuthController.SignUpLocal` | src/auth/auth.controller.ts:27-44 | 201 with the new user's tokens exactly when the email was free; otherwise Forbidden("Credentials incorrect") with the table unchanged |
| `Controller.AuthController.SignInLocal` | src/auth/auth.controller.ts:46-63 | 200 with the owner's tokens exactly when the credentials match; otherwise the service's Forbidden("Invalid credentials") unmapped, with the table unchanged |
| `Controller.AuthController.Logout` | src/auth/auth.controller.ts:65-69 | always 200; the table is the service's logout of the given user id |
| `Controller.AuthController.RefreshTokens` | src/auth/auth.controller.ts:71-80 | passes the user id and the raw refresh token to the service; 200 with the rotated tokens exactly when the refresh is accepted, otherwise Forbidden("Access denied") unchanged |
| `RtStrategy.TrimStart` | src/auth/strategies/rt.strategy.ts:19 | the result is a suffix of the input; what it drops is all whitespace; it does not start with whitespace |
| `RtStrategy.TrimEnd` | src/auth/strategies/rt.strategy.ts:19 | the result is a prefix of the input; what it drops is all whitespace; it does not end with whitespace |
| `RtStrategy.Trim` | src/auth/strategies/rt.strategy.ts:19 | the result is a slice of the input with whitespace on both sides removed and neither end whitespace |
| `RtStrategy.TrimStartSkipsWhite` | src/auth/strategies/rt.strategy.ts:19 | leading whitespace does not change what TrimStart returns |
| `RtStrategy.TrimOfTrimmed` | src/auth/strategies/rt.strategy.ts:19 | trimming a string whose ends are not whitespace returns it unchanged |
| `RtStrategy.TrimIdempotent` | src/auth/strategies/rt.strategy.ts:19 | trimming twice equals trimming once |
| `RtStrategy.IndexOfFrom` | src/auth/strategies/rt.strategy.ts:19 | returns an occurrence of the pattern at or after `from` with none between `from` and it; when it returns none, no occurrence exists at or after `from` |
| `RtStrategy.ReplaceFirst` | src/auth/strategies/rt.strategy.ts:19 | without an occurrence the string is unchanged; otherwise only the first occurrence is replaced |
| `RtStrategy.ExtractRefreshToken` | src/auth/strategies/rt.strategy.ts:19 | the extracted token has no leading or trailing whitespace |
| `RtStrategy.Validate` | src/auth/strategies/rt.strategy.ts:18-24 | the result has every payload field plus `refreshToken`; `refreshToken` is the extracted token, overwriting any value in the payload; every other field is kept |
| `RtStrategy.BearerRoundTrip` | src/auth/strategies/rt.strategy.ts:19 | `"Bearer"`, then any whitespace, then a token with no whitespace at either end extracts to exactly that token |
| `RtStrategy.BearerSpaceRoundTrip` | src/auth/strategies/rt.strategy.ts:19 | `"Bearer " + t` extracts to `t` when `t` has no leading or trailing whitespace |
| `RtStrategy.NoSchemeOnlyTrimmed` | src/auth/strategies/rt.strategy.ts:19 | a header without `"Bearer"` is only trimmed |
| `RtStrategy.LowerCaseSchemeKept` | src/auth/strategies/rt.strategy.ts:19 | `"bearer " + t` is returned whole: the match is case-sensitive |

## Left out

- argon2 internals: the memory-hard computation is not modelled. A hash is modelled as its salt and preimage, verified by exactly one plaintext.
- JWT encoding, signature cryptography, verification and expiry: the signer is an arbitrary injected function, so the sign/verify round trip and expiry are not modelled. The passport guards that verify tokens before a handler runs are not modelled either.
- Prisma query execution: connection failures and other rejected queries are left out. So in the model the service never fails with a storage error, and the controller's 500 branch is reached only through `Controller.MapError` and the reply functions, not through `AuthController`.
- The unique index on `email` is assumed. The Prisma schema is not part of this model, and the service never checks for a duplicate itself. The index is what makes `create` reject a duplicate with `P2002`, and so what makes the controller's `P2002` branch reachable.
- Prisma's id generation is not shown. Ids are natural numbers drawn from a counter that the class invariant keeps above every used id.
- `Auth.AuthService.UpdateRtHash`: Prisma's `update` rejects a missing id with `P2025`. The model returns `found == false` and leaves the table unchanged instead. All callers pass an id they have just created or read.
- `Promise.all` in `generateAuthTokens`: the two signings run one after the other. Both use the same second `now`.
- Concurrency: concurrent refreshes that race on the same token are not modelled. Every operation is one atomic step on the table.
- `console.log` calls: logging only.
- Module wiring and configuration loading (src/app.module.ts, src/auth/auth.module.ts): the secrets are constructor parameters.
- The `GetCurrentUser` and `GetCurrentUserId` parameter decorators, the `@Public` bypass and the guard dispatch: framework machinery. The controller's methods take the authenticated user's id and raw refresh token as explicit parameters. src/decorators/get-user-id.decorator.ts is not part of this model.
- `RtStrategy.Validate`: the header is taken to be present. The refresh guard rejects a request without a bearer token before `validate` runs; with no header at all, `req.get` would return undefined and `replace` would throw.
- JavaScript strings are UTF-16. Here they are sequences of Unicode scalar values, with the ECMAScript whitespace set as `trim` defines it.
