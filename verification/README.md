# Session-token lifecycle of UserAuthentication-ASPNET, in Dafny

This project models the authentication core of an ASP.NET user-authentication service
and proves properties of that model. The core issues, validates, rotates and revokes
signed session tokens against a store of `User` and `Token` rows:

- `AuthService` (register, login, logout, refresh with a ten-minute rotation rule, prune,
  forgot-password, reset-password) becomes pure transitions of an immutable `Store`
  (`auth_service.dfy`). Each call is one atomic step with an explicit clock `now`, in
  whole seconds.
- `TokenUtil` (minting and validating JWTs of kind ACCESS, REFRESH and RESET) becomes a
  symbolic token codec (`security_tokens.dfy`, `token_util.dfy`). The HMAC-SHA256
  signature is a term recording the key and the signed content, so a token validates
  under a key exactly when it was signed with that key over the same claims.
- The `User`, `Token` and `BaseEntity` rows and the schema's unique indexes, keys and
  foreign key become datatypes plus the store invariant `Entities.Valid`
  (`entities.dfy`).
- `DataContext.SaveChangesAsync` and its timestamp stamping (`data_context.dfy`).
- `RateLimitUtil.IsRateLimitExceeded`, a per-key counter in an expiring cache
  (`rate_limit.dfy`).
- `ControllerUtil.GetActionResultFromError`, the error-kind to HTTP-status mapping
  (`controller_util.dfy`).
- `EmailQueue` and one iteration of `EmailBackgroundService.ExecuteAsync`
  (`email_queue.dfy`, `email_background.dfy`), over the outcomes of the mail transport
  `EmailService.SendEmailAsync` (`email_service.dfy`).

`auth_properties.dfy` proves that every store transition preserves `Entities.Valid` and
never changes a row's owner, refresh string or expiration. `auth_scenarios.dfy` proves
what a later call sees after an earlier one.

Inputs the code draws from the environment are parameters:

- `now` stands for `DateTime.UtcNow`.
- `Guids`/`jti` stand for `Guid.NewGuid()`. Freshness (`Entities.JtiFresh`) is a
  precondition only of the lemmas that need it, never of an operation.
- `storeFails` stands for an exception caught by a `try` block.
- `EmailService.SendOutcome` stands for what one awaited `SendEmailAsync` call does: answer true, answer false, throw an `OperationCanceledException`, or throw anything else. Forgot-password takes one; the email loop takes one per iteration.
- The rate-limit cache is passed in and returned, instead of living in a static field.

The code behaves as follows, which its names may not suggest; the model follows the code:

- Forgot-password persists no reset row. It sends the mail directly rather than through
  the queue. It answers an unknown email differently from a known one, and returns the
  reset token itself in the success payload.
- Reset-password never looks for a persisted row for the reset token. It checks
  `purpose == "password-reset"`, while reset tokens are minted with `"reset-password"`
  (see Findings).
- On refresh away from expiry, the code does not return the presented refresh token. It
  returns a newly minted one that is never stored.
- A duplicate email on registration is a `ValidationError`; there is no `Conflict` kind.
- Prune deletes rows with `Expiration < now`, not `<=`. A row expiring exactly at `now`
  survives, is still accepted by logout and refresh, and is not revoked by a reset, whose
  guard is `Expiration > now`.
- The refresh JWT lives `RefreshTokenExpiry` hours. Its stored row lives
  `RefreshTokenExpiry` days.
- Refresh rotation and login run without a transaction or a `try` block. The model
  treats them as atomic steps with no failure path.
- The email consumer re-queues a job whose send answers false, with no retry cap. A
  send that throws loses the dequeued job; an exception other than a cancellation also
  ends the consumer.
- The repository's `EmailQueue` class has no `TryDequeue`; the model gives it the dequeue
  of the `ConcurrentQueue` it wraps.

## Model

| member | source | states |
|---|---|---|
| Passwords.HashPassword | Services/Utils/PasswordUtil.cs:3-6 | a digest verifies the password it was computed from |
| Passwords.KeyStream | Services/Utils/PasswordUtil.cs:3-11 | the 72 key bytes BCrypt reads: the password, then a NUL, then the same again from the start; a password of 72 or more characters gives its first 72 |
| Passwords.Cycle | Services/Utils/PasswordUtil.cs:3-11 | reading a key cyclically: the result starts with the key and repeats with the key's length as its period |
| Passwords.CycleTwice | Services/Utils/PasswordUtil.cs:3-11 | a key written out twice is read exactly like the key itself |
| Passwords.KeyStreamInjective | Services/Utils/PasswordUtil.cs:3-11 | NUL-free passwords of at most 72 characters have equal key bytes if and only if they are equal |
| Passwords.VerifyHashIff | Services/Utils/PasswordUtil.cs:3-11 | a hash verifies exactly the passwords with the same 72 key bytes as its own; for NUL-free passwords of at most 72 characters, its own password and no other |
| Passwords.LongPasswordsCollide | Services/Utils/PasswordUtil.cs:8-11 | passwords sharing their first 72 characters verify against each other's hash, whatever follows |
| Passwords.NulRepeatCollides | Services/Utils/PasswordUtil.cs:8-11 | a password repeated behind a NUL ("abcdefgh\0abcdefgh") verifies against the hash of the password itself |
| Entities.FindUserByEmail | Services/Auth/AuthService.cs:73 | the first user with the email (no earlier user has it), and `None` exactly when no user has it |
| Entities.FindUserById | Services/Auth/AuthService.cs:243-245 | the first user with the key (no earlier user has it), and `None` exactly when no user has it |
| Entities.FindTokenByRefresh | Services/Auth/AuthService.cs:100-101 | the first row holding the token (no earlier row holds it), and `None` exactly when no row holds it |
| Entities.TokensOf | Models/Entities/User.cs:14 | the `Tokens` navigation holds exactly the rows whose `UserId` is the user's key |
| Entities.NewUserOwnsNoTokens | Models/Entities/User.cs:14 | under the foreign key, no row belongs to a key not yet issued, so a new user's `Tokens` is empty |
| Entities.FindTokenByRefreshUnique | Models/Entities/Token.cs:6 | with the unique `Refresh` index, a token finds exactly its own row |
| Entities.FindUserByEmailUnique | Models/Entities/User.cs:4 | with the unique `Email` index, an email finds exactly its own user |
| DataContext.StampEntity | Data/DataContext.cs:24-32 | Added gets created and updated time `now`; Modified keeps its creation time and gets updated time `now`; other states are untouched; the key never changes |
| DataContext.Inserted | Data/DataContext.cs:26-31 | a row inserted at `now` has both timestamps equal to `now` |
| DataContext.Touched | Data/DataContext.cs:31 | a modified row keeps key and creation time, and its update time becomes `now` |
| DataContext.UpdateTimeStamps | Data/DataContext.cs:18-33 | per entry: state and key kept, Added and Modified stamped as above, every other entry unchanged |
| DataContext.SaveChanges | Data/DataContext.cs:12-16 | the rows written or kept are exactly the stamped versions of the entries that persist |
| DataContext.SaveChangesStampsFirst | Data/DataContext.cs:12-16 | every added or modified entry is written already stamped with the save time |
| TokenUtil.GenerateToken | Services/Utils/TokenUtil.cs:19-64 | every kind carries `sub` = user id, the given `jti` and `iat` = now, signed with the configured key, issuer and audience; REFRESH expires after `RefreshTokenExpiry` hours with no extra claims; ACCESS expires after `AccessTokenExpiry` hours with email and name identifier; RESET expires after 10 minutes with purpose "reset-password" and email |
| TokenUtil.GenerateTokens | Services/Utils/TokenUtil.cs:66-73 | both tokens are signed with the configured key for the configured issuer and audience; `Access` carries the ACCESS claims (`sub`, the access GUID as `jti`, `iat`, expiry after `AccessTokenExpiry` hours, email, name identifier) and `Refresh` the REFRESH claims (`sub`, the refresh GUID as `jti`, `iat`, expiry after `RefreshTokenExpiry` hours, nothing else) |
| TokenUtil.ValidateToken | Services/Utils/TokenUtil.cs:75-99 | returns claims, never an error, exactly for a token signed with the configured key over its own issuer, audience and claims, whose issuer and audience are the configured ones and whose `exp` has not passed |
| TokenUtil.GeneratedTokenValidates | Services/Utils/TokenUtil.cs:75-99 | round trip: a minted token of any kind validates, with exactly its minted claims, until its expiry and not after |
| TokenUtil.ForeignTokenRejected | Services/Utils/TokenUtil.cs:82-89 | a token minted under another key, issuer or audience is rejected |
| TokenUtil.TamperedTokenRejected | Services/Utils/TokenUtil.cs:84-85 | changing any claim of a valid token without re-signing it makes it invalid |
| TokenUtil.ValidateIgnoresKind | Services/Utils/TokenUtil.cs:82-91 | validation does not look at the kind: with equal lifetimes an access token and a refresh token are accepted alike |
| ControllerUtil.GetActionResultFromError | Controllers/Utils/ControllerUtil.cs:9-22 | NotFound gives 404, Unauthorized 401, InternalServerError a bare 500, everything else including success 400 (each an if-and-only-if); every non-500 result carries the response as body |
| ControllerUtil.StatusesAreClientOrServerErrors | Controllers/Utils/ControllerUtil.cs:13-21 | the mapping is total and lands on one of 400, 401, 404, 500 |
| ControllerUtil.ValidationAndBadRequestShareStatus | Controllers/Utils/ControllerUtil.cs:16-18 | a validation error and a bad request both become 400 with their body |
| RateLimitUtil.Lookup | Services/Utils/RateLimitUtil.cs:13 | an entry is visible, with its count, exactly while its expiry is still ahead |
| RateLimitUtil.Hit | Services/Utils/RateLimitUtil.cs:13-27 | no live entry: count 1 for a minute, not exceeded; count at least 3: exceeded and cache unchanged; count below 3: count plus one for a fresh minute, not exceeded; other keys untouched |
| RateLimitUtil.IsRateLimitExceeded | Services/Utils/RateLimitUtil.cs:9-28 | exceeded exactly when the live count for `ip:endpoint` has reached 3; other keys untouched |
| RateLimitUtil.KeyCollides | Services/Utils/RateLimitUtil.cs:11 | the key is not injective: ("::1", "login") and (":", "1:login") share one counter |
| RateLimitUtil.RunFromCount | Services/Utils/RateLimitUtil.cs:9-28 | after n counted calls in a window, the i-th further call in that window is refused exactly when n + i reaches 3 |
| RateLimitUtil.FirstThreePass | Services/Utils/RateLimitUtil.cs:9-28 | with no expiry in between, exactly the first three calls for a key pass and every later one is refused |
| EmailQueue.QueueEmail | Services/Emails/EmailQueue.cs:8-11 | the job, stored verbatim, goes to the tail; earlier jobs keep their order; the length grows by one |
| EmailQueue.TryDequeue | Services/Emails/EmailBackgroundService.cs:17 | nothing exactly on an empty queue, otherwise the head and the rest, which together rebuild the queue |
| EmailQueue.QueueThenDequeue | Services/Emails/EmailQueue.cs:6-11 | first in, first out: a queued job comes out first only from an empty queue, and otherwise waits at the tail behind the old jobs |
| EmailBackgroundService.ExecuteOnce | Services/Emails/EmailBackgroundService.cs:15-36 | on an empty queue no send and no change; otherwise the head is attempted; success removes it and keeps the rest in order; an answer of false re-appends it at the tail; a send that throws loses it, and ends the loop unless the exception is a cancellation; jobs are conserved as a multiset counting the lost one |
| EmailBackgroundService.ExecuteConservesJobs | Services/Emails/EmailBackgroundService.cs:13-38 | over any run of the loop every job is still queued, delivered, or lost to a throwing send, exactly once |
| EmailBackgroundService.AnsweringTransportLosesNothing | Services/Emails/EmailBackgroundService.cs:17-29 | while every send answers true or false, no job is lost and the loop keeps running, so a job leaves the queue only through a successful send |
| EmailBackgroundService.FailingTransportDropsNothing | Services/Emails/EmailBackgroundService.cs:26-29 | with a transport that always answers false, nothing is delivered or lost and the queue keeps every job |
| EmailBackgroundService.RetryUntilDelivered | Services/Emails/EmailBackgroundService.cs:13-38 | a job whose send fails three times and then succeeds is delivered exactly once and the queue ends empty |
| EmailBackgroundService.FaultLosesJobAndStops | Services/Emails/EmailBackgroundService.cs:15-36 | a send throwing anything but a cancellation loses the head job and ends the consumer, leaving the rest queued and never attempted |
| EmailBackgroundService.CancelLosesJobAndContinues | Services/Emails/EmailBackgroundService.cs:34-37 | a send throwing a cancellation loses the head job, and the loop goes on to deliver the next one |
| AuthService.Revoke | Services/Auth/AuthService.cs:103-107 | a revoked row keeps key, owner, token and expiration and is stamped as modified |
| AuthService.Register | Services/Auth/AuthService.cs:23-66 | a taken email gives the "email" validation error and no change; a store failure gives InternalServerError and no change; otherwise exactly one user is appended with the request's fields and hashed password, and exactly one unrevoked row for the returned refresh token, expiring `RefreshTokenExpiry` days from now |
| AuthService.Login | Services/Auth/AuthService.cs:69-96 | unknown email or wrong password give the same Unauthorized "user" error and no change; otherwise users are unchanged and exactly one unrevoked row for the returned refresh token is appended |
| AuthService.Logout | Services/Auth/AuthService.cs:98-110 | false and no change unless the token's row exists, is unrevoked and has not `Expiration < now`; otherwise true and only that row is revoked |
| AuthService.RefreshUserTokens | Services/Auth/AuthService.cs:112-167 | an invalid token gives "token" Unauthorized and no change; a missing, revoked or expired row gives "Token" Unauthorized and no change; near expiry (missing `exp` or `exp` < now + 10 min) the row is revoked and one row for the new refresh token is appended, all others unchanged; otherwise the store is unchanged and a new access and refresh token are returned |
| AuthService.RemoveRevokedTokens | Services/Auth/AuthService.cs:168-179 | every kept row came from the table and is neither revoked nor `Expiration < now`; every such row is kept; users and counters are unchanged |
| AuthService.ForgotPassword | Services/Auth/AuthService.cs:181-211 | the store is never written; an unknown email gives success with no data and no mail; a known email mails a RESET token to that address and answers with that token when the send answers true, with the "email" BadRequest when it answers false, and throws, exactly then, when the send throws |
| AuthService.RevokeActive | Services/Auth/AuthService.cs:262-266 | exactly the user's rows that are unrevoked with `Expiration > now` are revoked; every other row is unchanged |
| AuthService.ResetPasswordExpecting | Services/Auth/AuthService.cs:213-289 | an invalid token or a wrong purpose or missing `sub` gives "token" Unauthorized and no change; an unknown user gives "user" Unauthorized and no change; a store failure gives InternalServerError and no change; otherwise only that user's password changes to the new one, their active rows are revoked and nothing else changes |
| AuthService.ResetPassword | Services/Auth/AuthService.cs:229 | as written: succeeds only for a token whose purpose is "password-reset" |
| AuthService.ResetPasswordIntended | Services/Auth/AuthService.cs:229-232 | corrected: succeeds only for a token whose purpose is "reset-password", the value reset tokens are minted with |
| AuthProperties.AddSessionValid | Models/Entities/Token.cs:6-13 | appending a session row for an existing user with a fresh token keeps the unique indexes, keys and foreign key |
| AuthProperties.RegisterPreservesValid | Services/Auth/AuthService.cs:37-57 | registration keeps the store invariant and never changes an existing row's owner, token or expiration |
| AuthProperties.LoginPreservesValid | Services/Auth/AuthService.cs:82-93 | login keeps the store invariant and the existing rows' init-only fields |
| AuthProperties.LogoutPreservesValid | Services/Auth/AuthService.cs:103-107 | logout keeps the store invariant and the existing rows' init-only fields |
| AuthProperties.RefreshPreservesValid | Services/Auth/AuthService.cs:141-155 | refresh keeps the store invariant and the existing rows' init-only fields |
| AuthProperties.PrunePreservesValid | Services/Auth/AuthService.cs:170-177 | pruning keeps the store invariant and the surviving rows' init-only fields |
| AuthProperties.ResetPreservesValid | Services/Auth/AuthService.cs:262-270 | reset keeps the store invariant and the existing rows' init-only fields |
| AuthScenarios.ResetRejectsMintedTokens | Services/Auth/AuthService.cs:229-240 | no token the service mints, of any kind, is accepted by reset-password; the answer is always "token" Unauthorized with no change |
| AuthScenarios.IntendedResetAcceptsResetToken | Services/Utils/TokenUtil.cs:42-46 | with the corrected check, a reset token used within its 10 minutes changes its user's password and revokes that user's active rows |
| AuthScenarios.RegisteredRefreshExpiresBeforeItsRow | Services/Utils/TokenUtil.cs:33 | between `RefreshTokenExpiry` hours and days after registration, the refresh token can still log out but no longer refreshes |
| AuthScenarios.SlidingRefreshIsNotPersisted | Services/Auth/AuthService.cs:160-166 | away from expiry the returned refresh token is in no row, and presenting it later fails without changing the store |
| AuthScenarios.RotatedTokenIsSpent | Services/Auth/AuthService.cs:141-155 | a rotated refresh token never refreshes again |
| AuthScenarios.SecondLogoutFails | Services/Auth/AuthService.cs:98-110 | a second logout of the same token, no earlier than the first, returns false and changes nothing |
| AuthScenarios.ExpiringNowBoundary | Services/Auth/AuthService.cs:262 | a row expiring exactly now is accepted by logout, survives the prune, and is not revoked by reset, whose guard is strict |
| AuthScenarios.RegisterThenLogin | Services/Auth/AuthService.cs:69-96 | after registering, logging in with the same credentials succeeds and returns a refresh token that validates |
| AuthScenarios.DuplicateRegistrationRejected | Services/Auth/AuthService.cs:30-35 | registering an email a second time gives the "email" validation error and leaves the store as the first registration left it |
| AuthScenarios.LoginFailuresIndistinguishable | Services/Auth/AuthService.cs:75-80 | an unknown email and a wrong password get identical answers and no change |
| AuthScenarios.ForgotPasswordRevealsAccounts | Services/Auth/AuthService.cs:184-210 | forgot-password answers a registered email with data and an unknown one without, so the answers differ |
| AuthScenarios.ResetEndsSessions | Services/Auth/AuthService.cs:262-268 | after a successful reset none of the user's previously active tokens can log out, and the user's credentials match exactly the passwords with the same 72 key bytes as the new one |

## Left out

- JWT encoding, Base64 and the HMAC-SHA256 computation: the signature is a symbolic term, so forging a signature is impossible by construction.
- TokenUtil.ValidateToken: does not model the library's five-minute clock skew, `nbf` or the other lifetime rules of `System.IdentityModel.Tokens.Jwt`; a token is accepted exactly while `now <= exp`.
- Passwords.HashPassword: BCrypt's salt and cost factor are left out; the hash is an idealised digest of the 72 key bytes BCrypt reads.
- Passwords.VerifyHashIff: its "no other password" half holds only for NUL-free passwords of at most 72 characters, since BCrypt's appended NUL and cyclic key make "abcdefgh" and "abcdefgh\0abcdefgh" equivalent. BCrypt also counts UTF-8 bytes where the model counts characters, which agree for ASCII passwords but not for passwords with multi-byte characters.
- AuthScenarios.ResetEndsSessions: the new credentials are the passwords with the new password's key bytes, not the new password alone; NUL-extended repeats and shared 72-character prefixes also match, and characters stand for UTF-8 bytes as for `Passwords.VerifyHashIff`.
- Entities.FindUserByEmail: emails and refresh tokens are matched by exact, case-sensitive equality, and the unique indexes compare the same way. In the program these lookups and indexes run in the database, whose column collation decides; SQL Server's default collation ignores case, so there "A@x.com" and "a@x.com" would count as the same email.
- AuthService.ResetPasswordExpecting: reads `sub` as issued. The token handler's default inbound claim mapping may rename `sub` to the name-identifier claim type, in which case the lookup at Services/Auth/AuthService.cs:230 finds nothing and reset fails even with a matching purpose; that mapping is not modelled.
- EF Core change tracking, async calls and transactions: each service call is one atomic step; a caught store exception is the `storeFails` flag, and the store is then unchanged, as after the rollback.
- Sub-second `DateTime` precision and fractional `Convert.ToDouble` configuration values: times and lifetimes are whole seconds, hours and days.
- The human-readable message strings of `Success` and `Error`, some of which are not defined anywhere in the repository: responses carry their error kind and field-keyed messages only.
- The reset-link URL: the mail carries the reset token the link embeds.
- Controllers, routing, model-state validation and DTO attributes: the service receives already-validated requests.
- The stale second revision of the service under `Services/AuthService/`: it calls helpers that do not exist anywhere in the repository.
- `EmailService` (SMTP through MailKit with a Polly retry using floating-point backoff): both forgot-password and the email loop see only the `EmailService.SendOutcome` of each send.
- AuthService.ForgotPassword: a send that throws ends in `Threw`; the controller's catch that turns it into a 500 problem response (Controllers/AuthController.cs:241-244) is not modelled.
- The midnight trigger of `AuthBackgroundService`: prune is modelled as a call at an arbitrary `now`.
- `EmailTemplate` and `ValidationUtil`: a fixed HTML text and a wrapper over framework validation.
- Concurrency, cancellation of the loop itself and its one-second delay: the email loop is a sequence of iterations, one per transport outcome. What happens to the hosting process when an exception ends the consumer is not modelled.
- RateLimitUtil.IsRateLimitExceeded: `MemoryCache` eviction under memory pressure and compaction are left out; an entry lives exactly until its absolute expiry.
- RateLimitUtil.Run: only states its length; what it computes is stated by `RateLimitUtil.RunFromCount` and `RateLimitUtil.FirstThreePass`.
- EmailBackgroundService.Execute: has no contract of its own; `EmailBackgroundService.ExecuteConservesJobs`, `EmailBackgroundService.AnsweringTransportLosesNothing` and the other lemmas about it state what it does.

## Findings

| source | as written | input that shows it | evidently intended | confidence | as-written member | corrected member |
|---|---|---|---|---|---|---|
| Services/Auth/AuthService.cs:229 | reset-password accepts only a token whose `purpose` is "password-reset", but reset tokens are minted with "reset-password" (Services/Utils/TokenUtil.cs:44), so no minted token ever resets a password | a RESET token from forgot-password for an existing user, presented within its 10 minutes | the check compares against the value tokens are minted with, so a fresh reset token changes the password and revokes the user's active sessions | high, not executed | AuthService.ResetPassword, AuthScenarios.ResetRejectsMintedTokens | AuthService.ResetPasswordIntended, AuthScenarios.IntendedResetAcceptsResetToken |
