# Refresh-token sessions of the MyBlog authentication service, in Dafny

This project models the authentication core of the MyBlog service: the `AuthService`
operations `signup`, `login`, `refreshToken` and `logout`, and the `JwtUtil` token codec
they use. The service issues a short-lived access token (15 minutes) and a long-lived
refresh token (7 days). It keeps the one live refresh token per identity in a key/value
store with time-to-live (Redis), under the key `"refresh_token:" + name`.

- `Wrappers.dfy`: `Option` (Java's null and `Optional`) and `Result` (a thrown exception is an `Err`).
- `Jwt.dfy`: the codec. A token is its claims (`sub`, `roles`, `iat`, `exp`) plus a flag
  `authentic` that stands for "the HS256 signature verifies". The parser checks the
  signature first and then the expiry. The two lifetimes are computed with Java `int`
  multiplication, wrap-around included, and proved not to overflow. `extractRoles` turns an
  absent roles claim into the empty set. `validateToken` collapses every parser error into `false`.
- `SessionStore.dfy`: the store as a map from key to value and expiry instant, with `Get`,
  `Set` (an unconditional overwrite) and `Delete` (which reports whether a live record existed).
- `Auth.dfy`: the user directory (username → password hash, email, roles, OAuth provider),
  the four operations as ghost step functions from state to new state and outcome, and the
  class `AuthService`. Its fields are the directory and the store. Its methods change them
  step by step as the service does and are proved equal to the step functions.
- `AuthLemmas.dfy`: what the operations guarantee. This covers the rejection order of
  `refreshToken`, which token a login supersedes, what `logout` deletes, and an invariant of
  the store kept by every sequence of requests: each record under a username key is a
  refresh token issued to that user, with the token's own expiry.

Clock readings are parameters (`now`, in milliseconds). `refreshToken` takes two of them.
`now` is when the token is parsed and the store is read. `later` is when the token is
validated again and the new access token is issued. With a single reading the
"invalid" branch cannot be reached (`RefreshInvalidNeedsClockAdvance`).

The model keeps the source's asymmetry between `login` and `logout`. `login` always writes
the username key. `logout` of an identity with an OAuth provider deletes the email key, so
a username session of such an identity survives the logout (`OAuthLogoutKeepsUsernameSession`).
The refresh token is not rotated on refresh.

Two behaviours are kept as the code has them:
- `refreshToken` parses the token (`extractUsername`) before reading the store. A token that
  is forged or expired therefore fails with the parser's error before "absent" and
  "mismatch" are considered, not after them.
- `logout` fails with a distinct outcome when several accounts share the email.

## Model

| member | source | states |
|---|---|---|
| Jwt.JavaIntMul | src/main/java/com/example/myblog/config/JwtUtil.java:15-16 | Java `int` multiplication: the result lies in the 32-bit range and equals the exact product whenever that fits |
| Jwt.LifetimeConstants | src/main/java/com/example/myblog/config/JwtUtil.java:15-16 | the access lifetime is 900000 ms and the refresh lifetime 604800000 ms, both computed without overflow, and refresh > access |
| Jwt.RefreshTokenExpiration | src/main/java/com/example/myblog/config/JwtUtil.java:84-86 | returns exactly the seven-day refresh lifetime in milliseconds |
| Jwt.Parse | src/main/java/com/example/myblog/config/JwtUtil.java:46-49 | the library parser: a signature that does not verify is rejected first, then a token whose `exp` lies before the current time (at the instant `exp` it still parses); otherwise its claims; its consequences are stated by `ExtractUsername`, `ValidateToken` and `ForgedTokenRejected` |
| Jwt.GenerateAccessToken | src/main/java/com/example/myblog/config/JwtUtil.java:24-32 | an authentic token with subject `username`, roles claim `roles`, issued at `now` and expiring at `now` + 900000 ms; `AccessTokenRoundTrip` proves that the subject and the exact role set come back out up to that instant and that it is expired after it |
| Jwt.GenerateRefreshToken | src/main/java/com/example/myblog/config/JwtUtil.java:35-42 | an authentic token with subject `username`, no roles claim, issued at `now` and expiring at `now` + 604800000 ms; `RefreshTokenRoundTrip` proves the subject and the empty role set come back out up to that instant |
| Jwt.ExtractUsername | src/main/java/com/example/myblog/config/JwtUtil.java:45-52 | succeeds exactly when the token is authentic and the current time is not after its `exp`, and then gives its subject; a bad signature is reported as such, before expiry is considered |
| Jwt.ExtractRoles | src/main/java/com/example/myblog/config/JwtUtil.java:55-69 | fails exactly when `extractUsername` fails, with the same error; a present roles claim yields exactly that set and an absent one the empty set |
| Jwt.ValidateToken | src/main/java/com/example/myblog/config/JwtUtil.java:72-79 | true exactly when `extractUsername` succeeds, that is when the token is authentic and unexpired; false on every parser error |
| Jwt.AccessTokenRoundTrip | src/main/java/com/example/myblog/config/JwtUtil.java:24-69 | an access token returns its subject and its exact role set while it lives; it is valid exactly up to and including issue time + 900000 ms and reports expiry afterwards |
| Jwt.RefreshTokenRoundTrip | src/main/java/com/example/myblog/config/JwtUtil.java:35-69 | a refresh token has no roles claim, returns its subject and the empty role set, and is valid exactly up to and including issue time + 604800000 ms |
| Jwt.ForgedTokenRejected | src/main/java/com/example/myblog/config/JwtUtil.java:45-79 | a token whose signature does not verify is rejected by all three readers, whatever its claims |
| Jwt.AccessAndRefreshDiffer | src/main/java/com/example/myblog/config/JwtUtil.java:24-41 | no access token equals a refresh token |
| Jwt.RefreshTokensDifferByIssueTime | src/main/java/com/example/myblog/config/JwtUtil.java:35-41 | two refresh tokens for one user are equal exactly when issued at the same instant |
| SessionStore.Get | src/main/java/com/example/myblog/service/AuthService.java:105 | the read of a key at `now`: a value exactly while a record exists and the current time is not past its expiry instant (set time + TTL, which still reads, as in Redis); what it reads after writes and deletes is stated by `GetAfterSet`, `ExpiredReadsAsDeleted`, `OtherKeysUntouched` and `DeleteIdempotent` |
| SessionStore.Set | src/main/java/com/example/myblog/service/AuthService.java:92 | the write with TTL: an unconditional overwrite whose record expires at `now` + TTL; its effect on reads is stated by `GetAfterSet`, `ExpiredReadsAsDeleted` and `OtherKeysUntouched` |
| SessionStore.ExpiredReadsAsDeleted | src/main/java/com/example/myblog/service/AuthService.java:92-105 | once the current time is past set time + TTL, a written record reads exactly as if it had been deleted: absent |
| SessionStore.Delete | src/main/java/com/example/myblog/service/AuthService.java:143 | the key is gone afterwards; the flag is true exactly when a live record existed |
| SessionStore.GetAfterSet | src/main/java/com/example/myblog/service/AuthService.java:92 | last write wins: after a set, the key reads the written value up to and including set time + TTL, and as absent after it |
| SessionStore.OtherKeysUntouched | src/main/java/com/example/myblog/service/AuthService.java:91-92 | set and delete leave every other key's reading unchanged |
| SessionStore.DeleteIdempotent | src/main/java/com/example/myblog/service/AuthService.java:143-149 | after a delete the key reads as absent, and a second delete changes nothing and reports false |
| Auth.FindByEmail | src/main/java/com/example/myblog/service/AuthService.java:134-135 | a match is the only user with that email; no match exactly when no user has that email; ambiguous exactly when two different users have it |
| Auth.ResolveIdentifier | src/main/java/com/example/myblog/service/AuthService.java:133-135 | an existing username resolves to itself; only when the identifier is no username is it looked up by email; a match is an existing account |
| Auth.SessionKey | src/main/java/com/example/myblog/service/AuthService.java:90 | the store key `"refresh_token:" + name`, built the same way at lines 90, 104 and 140; `SessionKeyInjective` proves distinct names never share a key |
| Auth.UserSessionKey | src/main/java/com/example/myblog/service/AuthService.java:140 | the key logout deletes, the email key for an OAuth identity and the username key otherwise; stated by `UserSessionKeyRule` |
| Auth.SignupRoles | src/main/java/com/example/myblog/service/AuthService.java:59-62 | the requested roles, or exactly {"ROLE_USER"} when they are null or empty; stated by `SignupStoresUser` |
| Auth.SignupStep | src/main/java/com/example/myblog/service/AuthService.java:47-67 | the new state and outcome of signup; `SignupRejectsDuplicate` and `SignupStoresUser` state its results |
| Auth.LoginStep | src/main/java/com/example/myblog/service/AuthService.java:75-95 | the new state and outcome of login; `LoginFailureChangesNothing` and `LoginStoresRefreshToken` state its results |
| Auth.RefreshStep | src/main/java/com/example/myblog/service/AuthService.java:102-123 | the outcome of refresh, which changes no state; `RefreshSucceedsExactly` and `RefreshRejectionOrder` state its results |
| Auth.LogoutStep | src/main/java/com/example/myblog/service/AuthService.java:129-150 | the new state and outcome of logout; `LogoutDeletesSessionKey` states its results |
| Auth.AuthService.constructor | src/main/java/com/example/myblog/service/AuthService.java:34-39 | the service starts from the injected encoder, directory and store |
| Auth.AuthService.Signup | src/main/java/com/example/myblog/service/AuthService.java:47-67 | the new directory and the outcome are those of `SignupStep` on the old state |
| Auth.AuthService.Login | src/main/java/com/example/myblog/service/AuthService.java:75-95 | the delete followed by the set on the store, and the outcome, equal `LoginStep`'s single overwrite on the old state |
| Auth.AuthService.RefreshToken | src/main/java/com/example/myblog/service/AuthService.java:102-123 | changes neither directory nor store, so the refresh token is not rotated; the outcome is `RefreshStep`'s |
| Auth.AuthService.Logout | src/main/java/com/example/myblog/service/AuthService.java:129-150 | the new store and the outcome, including the single-result email query, are those of `LogoutStep` |
| AuthLemmas.SessionKeyInjective | src/main/java/com/example/myblog/service/AuthService.java:90 | two names have the same session key exactly when they are equal |
| AuthLemmas.SignupRejectsDuplicate | src/main/java/com/example/myblog/service/AuthService.java:48-50 | a taken username fails with the duplicate error and the state is unchanged |
| AuthLemmas.SignupStoresUser | src/main/java/com/example/myblog/service/AuthService.java:53-65 | a new username is added with `encode(password)`, the email, no OAuth provider, and the given roles, or exactly {"ROLE_USER"} when they are null or empty; nothing else changes |
| AuthLemmas.LoginFailureChangesNothing | src/main/java/com/example/myblog/service/AuthService.java:77-83 | unknown user and wrong password give their errors, and a failed login changes neither directory nor store |
| AuthLemmas.LoginStoresRefreshToken | src/main/java/com/example/myblog/service/AuthService.java:86-94 | a successful login returns the generated pair, maps the user's key to exactly the returned refresh token with the refresh TTL, and changes no other key and no account |
| AuthLemmas.SignupThenLogin | src/main/java/com/example/myblog/service/AuthService.java:55-81 | with a sound encoder, the account signup creates logs in with its password |
| AuthLemmas.RefreshSucceedsExactly | src/main/java/com/example/myblog/service/AuthService.java:102-123 | refresh succeeds exactly when the token is authentic, not past its `exp` at either reading, equal to the live stored token of its subject, and the subject exists; the result is an access token for that subject with its current roles |
| AuthLemmas.RefreshRejectionOrder | src/main/java/com/example/myblog/service/AuthService.java:103-120 | rejections come in order: a parser error first, independent of the state; then absent, mismatch, invalid and user not found |
| AuthLemmas.RefreshInvalidNeedsClockAdvance | src/main/java/com/example/myblog/service/AuthService.java:103-117 | with one clock reading the "invalid" rejection never occurs |
| AuthLemmas.LoginThenRefresh | src/main/java/com/example/myblog/service/AuthService.java:86-122 | the refresh token a login returns is accepted during its lifetime and yields an access token for the same user |
| AuthLemmas.SupersededTokenRejected | src/main/java/com/example/myblog/service/AuthService.java:90-113 | after two logins issuing R1 ≠ R2, R1 fails with mismatch and R2 succeeds |
| AuthLemmas.LogoutDeletesSessionKey | src/main/java/com/example/myblog/service/AuthService.java:133-149 | username lookup first, email only if it fails; with no match or an ambiguous email nothing is deleted and it fails; otherwise exactly the user's session key is removed and it succeeds |
| AuthLemmas.UserSessionKeyRule | src/main/java/com/example/myblog/service/AuthService.java:140 | the deleted key is `"refresh_token:" + email` for an OAuth identity (`"refresh_token:null"` without email), else `"refresh_token:" + username` |
| AuthLemmas.LogoutThenRefreshAbsent | src/main/java/com/example/myblog/service/AuthService.java:104-143 | after a non-OAuth user logs out, whether the identifier resolved as username or by email, every token of theirs that parses is refused as absent |
| AuthLemmas.OAuthLogoutKeepsUsernameSession | src/main/java/com/example/myblog/service/AuthService.java:90-140 | logout of an OAuth identity whose email differs from its username leaves the username session as it was |
| AuthLemmas.ApplyPreservesConsistency | src/main/java/com/example/myblog/service/AuthService.java:90-143 | each request keeps every username-key record equal to a refresh token issued to that user, stored with the token's expiry |
| AuthLemmas.RunPreservesConsistency | src/main/java/com/example/myblog/service/AuthService.java:90-143 | the same invariant holds after any sequence of requests |
| AuthLemmas.AccessTokenNeverRefreshes | src/main/java/com/example/myblog/service/AuthService.java:104-113 | in a consistent state an access token is never accepted by refresh |
| AuthLemmas.StoredTokenRefreshes | src/main/java/com/example/myblog/service/AuthService.java:102-122 | in a consistent state, the live token stored for an existing user is accepted while it lives and yields that user's access token |
| AuthLemmas.AcceptedTokensWereIssued | src/main/java/com/example/myblog/service/AuthService.java:102-122 | after any sequence of requests, a token that refresh accepts is a refresh token issued to its subject, and it is the token stored under its subject's key |

## Left out

- HMAC-SHA256, base64url and JSON inside the JWT library: a verifying signature is the flag `authentic`. A token signed with another key, or not signed, is a token with `authentic == false`.
- Null or empty token strings, which make the parser throw an exception that `validateToken` does not catch: a token is always a value of the datatype.
- Second granularity of the `iat` and `exp` claims, and the parser's clock-skew setting: expiry is compared in milliseconds, and a token is valid while the current time is not after `exp`, as the parser decides with no skew allowed.
- Jwt.RefreshTokensDifferByIssueTime: token identity is at millisecond resolution, but the library writes `iat` and `exp` as whole seconds. So two refresh tokens for one user issued within the same second are one string in the service and two tokens here. For `SupersededTokenRejected` this means the premise R1 ≠ R2 holds in the service only when the two logins fall in different seconds. Two logins within one second issue the same token, and that token stays accepted.
- `Instant` and `long` overflow in issue time + lifetime: times are unbounded integers.
- Jwt.ExtractRoles: a roles claim that is present but not a collection cannot be expressed, because only the service's own generators produce authentic tokens and they write a set or nothing. Turning elements into strings is the identity on a set of strings.
- Loading the secret and decoding the key (`getSigningKey`, `EnvConfig`): file and environment I/O.
- Password hashing: the encoder is a pair of functions. Its randomised salt is not modelled, so `encode` is deterministic. The property `matches(p, encode(p))` is assumed only where it is used (`SignupThenLogin`).
- The Redis transport and its failures: the store is a map with expiry instants, and nothing models an unreachable store. Redis's own clock is the `now` passed to each operation.
- Concurrent logins, refreshes and logouts: the requests run one after another, and the last write wins.
- Logging, Spring wiring, and the HTTP status of each exception: each exception is an error variant. The success message of `signup` is the unit value.
- The `User` entity, `UserRepository` and `SignupRequest` are not part of this model. Only the fields the service reads are kept, and the requested roles are taken to be a set. `findByEmail` is taken to be a single-result query that fails when several accounts share the email.
- The request and response DTOs are plain datatypes.
- The clock is read once per login: the access token and the refresh token of one login share their issue time.
