# kde-auth: a verified model

kde-auth is an OAuth 2.0 / OpenID Connect issuer: accounts with up to two e-mail
addresses, sign-up by ticket or invite, sessions, authorization codes with PKCE,
rotating refresh tokens, and an administrator's console, over one PostgreSQL database.
This project models what its use cases and repositories do to that database and proves
properties of every run of the service, of concurrent transactions inside one operation,
and of the parsers and encoders written as loops.

## How it is organised

- `Domain`, `Text`, `Scopes`, `RedirectUris`, `Argon2`, `Jwk`, `RateLimit`,
  `RateLimitBound`: entities, value rules, parsers, printers, encoders
  and the sliding-window limiter.
- `Database`, `Service`, `Serving`: the repositories and use cases in the form the code
  has, a class whose fields are the tables and methods that run statement by statement
  and return at the first error. Each method is proved equal to a function in `Tables`
  or `UseCases`, and `Serving.Serve` turns a sequence of requests into a run of `Machine`.
  The table below lists of these only `Serve` and the repository operations with work to do.
- `Tables`, `UseCases`, `Machine`: the same operations as functions on one value `Db`, and
  the runs they generate from an empty database.
- `AccountEmails`, `AccountRuns`, `AddressHistory`, `SignIn`: the account e-mail state machine.
- `AddressChanges`, `Admissions`, `Authorizations`, `PasswordChanges`, `Administration`,
  `ClientRegistry`: for each request, exactly when it succeeds in a run, with every condition
  written out on the tables, and the whole state it leaves.
- `Answers`: no internal errors while the infrastructure works, and refusals give true reasons.
- `SessionHistory`, `GrantHistory`: which sessions, codes and refresh tokens are good in a state,
  exactly, in terms of the requests that came before.
- `Laws`, `SessionLaws`, `GrantLaws`: what one step can do to one row of each table.
- `GrantChains`, `Exchanges`, `Delivery`: codes, refresh chains, what an exchange proves and
  when a code reaches its client.
- `Revocation`, `SessionPasswords`, `Suspension`: what credential changes, revocations and
  suspensions end.
- `InviteOnly`, `Invites`, `Provenance`: how users get into applications and how passwords get
  replaced.
- `References`, `Keys`, `AccessLog`, `EndToEnd`: rows belong to existing users, keys are new
  once, what the access rows record, and a whole visit that succeeds.
- `SampleRuns`, `Counterexamples`: concrete runs for what fails without its condition.
- `DeleteVerifiedRace`, `SurvivorLock`, `TokenRace`, `InviteRace`: interleaved
  transactions, one SQL statement a move.
- `SplitUseCases`, `LoginRace`, `GrantRace`: logins and token requests split between their
  transactions, interleaved with each other and with whole use cases.

`dafny verify dfyconfig.toml` checks everything.

## Assumptions

- `crypto.RandomToken` and generated ids are fresh and `crypto.HashToken` is injective: a
  token is identified with its hash and drawn from a counter. The empty token is 0.
- The clock does not run backwards from one request to the next, nor inside one request.
- `url.Parse`, `domain.ParseEmail`, SHA-256 with base64url, and password verification are
  deterministic functions given by `Env`. For the Argon2 string, base64 is invertible and never
  emits `$`, and the key derivation returns as many bytes as it is asked for.
- A use case is one step of a run, except in the modules about races. It need not be
  complete: `cut` says after how many operations the infrastructure fails, and the writes
  made until then stay, as in the code, which has no transaction across repositories. What
  counts are the writes and, at the token endpoint, the user read and the signature that
  follow the consumption. A read that fails before the first write, or a random source that
  fails before a later one, answers like that write failing.
- The maps `mailTo`, `lineage` and `loginHash` are history: which address a token was
  mailed to, what a refresh token was issued for, which hash a login verified. No use
  case reads them.
- Reads in a race see committed rows and the transaction's own writes (READ COMMITTED); a
  row lock is held until commit or rollback; any statement may fail and roll back.

## Results that differ from what one might expect

- *A session can outlive the password it was opened with.* The new hash is stored before
  the sessions are revoked, without a common transaction, so a failure in between leaves
  them alive. `SessionPasswords.SessionsFitIffNeverStranded` says exactly when the property
  holds and `Counterexamples` gives a run in which it does not. `LoginRace` does the same for
  a password change that completes between the check and the insert of a login. The design note
  `docs/sdd/spec-refresh-revoke-on-credential-change.md` promises the revocation for a
  successful change, which is `Revocation.RevokedSessionsNeverResolve`.
- *Outstanding codes survive a revocation.* A chain authorized before it can be alive
  afterwards, but only through a code redeemed within five minutes
  (`Revocation.ChainsAliveAfterRevocation`), and every such code works
  (`Revocation.CodesOutliveRevocation`, with a run in `Counterexamples`).
- *So can a token request under way.* What was presented is consumed and the replacement stored
  in separate transactions, so a revocation that completes in between misses the replacement.
  `GrantRace.TokensFitIffNeverLate` says exactly when that happens and
  `GrantRace.ReplacementOutlivesTheChange` is a run.
- *A sign-up verification lifts a suspension*: the status becomes active whatever it was.
  `Suspension.SignUpVerificationLiftsSuspension` says exactly when, `Counterexamples` gives a
  run, and `Suspension.OnlyAdministratorsReinstateVerifiedUsers` shows that it only happens to
  a user who was never verified.
- *One invite can admit two users.* The grant is written before the invite is consumed. The
  access still goes back to an invite that was usable when loaded, which is what `InviteOnly`
  states. `Invites.AdmissionSpendsIff` says exactly when an admission uses its invite up,
  `Invites.OneAdmissionPerInvite` that nobody else is admitted then, and `Counterexamples`
  has the run in which a second user is.
- *A code can be stored and not delivered.* `buildRedirect` runs after the code is stored, so a
  registered URI that does not parse answers an error although the code exists.
  `Delivery.UndeliveredIff` says exactly when, `Delivery.UndeliveredOnlyAfterSeeding` that only
  a URI configured at start-up can be the cause, `Delivery.CheckedSeedsDeliver` that URIs which
  parse there are enough, and `Counterexamples.CodeIsStoredAndNotDelivered` is a run.
- *The survivor's row lock is necessary.* `SurvivorLock` loses both addresses without it.

## Model

| member | source | states |
|---|---|---|
| AccountRuns.AgreesAlways | internal/adapter/postgres/user_email_repo.go:75-195 | the agreement of users, user_emails and email_verification_tokens (one primary row a user, which is users.email with the same verification time; at most one secondary row; outstanding sign-up tokens only for unverified users; a proof of ownership for every verified row) holds in every state of every run, half-done use cases included |
| AccountRuns.AddressTablesAgree | internal/adapter/postgres/user_repo.go:23-111 | spelled out: in every reachable state each user has exactly one primary row, equal to users.email and users.email_verified_at, at most one secondary row, and a secondary row only beside a verified primary one; every row has its user |
| AccountRuns.OutstandingTokens | internal/usecase/register.go:241-318 | an unused sign-up token implies an unverified user without a secondary address; a token that carries an address implies a verified user |
| AccountRuns.VerifiedOnlyThroughMail | internal/usecase/account_emails.go:120-139 | whoever owned the address before, a verified address was mailed a token of its present user, used at the recorded instant and before its expiry |
| AddressHistory.VerifiedByPresentingItsToken | internal/usecase/register.go:296-318 | that use was an earlier step of the run which presented the token, at exactly the recorded verification time |
| AddressHistory.VerifyTokenLaw | internal/adapter/postgres/token_repo.go:142-190 | across any step a verification token keeps user, address and expiry and is used at most once, only by presenting it, at the clock reading of that step and before expiry |
| AddressHistory.KeepsAVerifiedAddress | internal/adapter/postgres/user_email_repo.go:144-192 | from its first verified address until it is deleted a user has a verified address in every later state, namely its primary one |
| AddressHistory.MovingToANewAddress | internal/usecase/account_emails.go:78-175 | in any run, after a successful add, the first presentation of its token in time and the deletion of the old address, with any other steps in between except cancelling or deleting an address of the user or the user itself, the deletion succeeds and leaves the new address as the user's only one: primary, verified, and users.email |
| AddressChanges.AddEmailSucceedsIff | internal/usecase/account_emails.go:78-140 | in any run an add succeeds if and only if the user exists, is not suspended, is verified and has no secondary address, the address is valid and nobody's, and captcha, writes and mail go through; it stores exactly one pending row and one token of 24 hours mailed to that address, and a refused add changes nothing |
| AddressChanges.CancelEmailSucceedsIff | internal/usecase/account_emails.go:142-153 | cancelling succeeds if and only if the user has a pending address; exactly that row goes, otherwise nothing changes |
| AddressChanges.DeleteEmailSucceedsIff | internal/usecase/account_emails.go:160-175 | deleting succeeds if and only if the address is a verified one of the user and the user has another verified one; exactly that row goes, and if it was the primary one the other one becomes primary and users.email; otherwise nothing changes |
| AddressChanges.VerifyEmailSucceedsIff | internal/usecase/register.go:296-318 | presenting a token succeeds if and only if it is unused, in time, and a sign-up token or one whose address is still pending; it is spent even if that address is gone, a success verifies exactly that address, and only a sign-up token makes its user active |
| AccountRuns.ByEmailFindsVerifiedRows | internal/adapter/postgres/user_repo.go:61-71 | ByEmail(e) finds u if and only if e is a verified address of u, so at most one user |
| AddressHistory.CancelUndoesAdd | internal/usecase/account_emails.go:142-153 | cancelling right after adding succeeds, restores both address tables, and the token already mailed is refused and verifies nothing |
| AccountEmails.CreateUserKeeps | internal/adapter/postgres/user_repo.go:23-59 | Create keeps the agreement and the new user owns no token |
| AccountEmails.InsertPendingKeeps | internal/adapter/postgres/user_email_repo.go:75-91 | InsertPendingSecondary keeps the agreement, given a verified user |
| AccountEmails.MarkVerifiedKeeps | internal/adapter/postgres/user_email_repo.go:93-106 | consuming a token that carries an address and marking that address keeps the agreement |
| AccountEmails.MarkEmailVerifiedKeeps | internal/adapter/postgres/user_repo.go:83-111 | consuming a sign-up token and marking the primary address keeps the agreement |
| AccountEmails.DeletePendingKeeps | internal/adapter/postgres/user_email_repo.go:108-120 | cancelling keeps the agreement |
| AccountEmails.DeleteVerifiedKeeps | internal/adapter/postgres/user_email_repo.go:124-195 | deletion with promotion keeps the agreement |
| SignIn.LoginSucceedsIff | internal/usecase/login.go:53-98 | a login opens a session if and only if the captcha passes, the address is a verified address of a user who is not suspended and the password verifies; with captcha and write in order every other answer is InvalidCredentials, and the Forbidden answer for an unverified user is unreachable |
| SignIn.AccessTokensNameThePrimaryAddress | internal/usecase/oauth.go:292-305 | every access token is made out to the asking client, names its subject's role and primary address, which is verified, and expires after fifteen minutes |
| DeleteVerifiedRace.CommitsAreAtomic | internal/adapter/postgres/user_email_repo.go:124-195 | statement by statement, with row locks and READ COMMITTED reads, for any number of concurrent transactions: every commit equals one atomic DeleteVerified on the tables at that moment, and no other statement of a transaction changes the committed tables |
| DeleteVerifiedRace.AlwaysAVerifiedPrimary | internal/adapter/postgres/user_email_repo.go:133-137 | in every interleaving the committed state keeps, for a verified user, exactly one primary row, verified and equal to users.email |
| DeleteVerifiedRace.InvAlways | internal/adapter/postgres/user_email_repo.go:169-174 | the tables agree, no row has two holders, and what a transaction read under lock stays so until it ends |
| DeleteVerifiedRace.SurvivorGoneRollsBack | internal/adapter/postgres/user_email_repo.go:168-177 | in every interleaving: once another transaction has committed the deletion of the survivor a transaction waits for, and while no other operation adds that address again, the waiting one never commits; its next statement rolls it back and leaves the tables as they are |
| DeleteVerifiedRace.NoDeadlock | internal/adapter/postgres/user_email_repo.go:124-195 | while a transaction is unfinished some transaction's next statement is not blocked |
| SurvivorLock.PlainReadLosesBothAddresses | internal/adapter/postgres/user_email_repo.go:169-174 | were the survivor read without FOR UPDATE, then for every user with two verified addresses an interleaving of two deletions leaves that user with none |
| TokenRace.AtMostOneSuccess | internal/adapter/postgres/token_repo.go:35-75 | for any number of concurrent consumers of one hash, revocations and cascades included, at most one ever succeeds, and none at or after expires_at (section 4.1.2 of RFC 6749) |
| TokenRace.SuccessIsAtomic | internal/adapter/postgres/token_repo.go:92-126 | a success is one atomic stamping of a row that was live; no other statement of a consumer changes the row, and a peek never does |
| TokenRace.NoDeadlock | internal/adapter/postgres/registration_ticket_repo.go:39-75 | a consumer or peek waits only for a transaction that can go on to commit |
| TokenRace.OperationsAreStampings | internal/adapter/postgres/token_repo.go:154-234 | relates the table model to the race model, not to the SQL statements: there codes, refresh, verification and reset tokens and tickets are consumed by exactly that stamping, and a ticket peek succeeds exactly when a consumption would |
| InviteRace.UsedOrRevokedOnce | internal/adapter/postgres/invite_repo.go:62-90 | with the guarded updates interleaved, an invite is never both used and revoked, at most one update of either kind succeeds, and none consumes at or after the expiry |
| InviteRace.SuccessIsAtomic | internal/adapter/postgres/invite_repo.go:62-90 | a committed guarded update is one atomic Consume or Revoke on the row at that moment |
| GrantChains.LinearAlways | internal/usecase/oauth.go:205-333 | what a refresh token was issued for is spent, had the same user, client and scope, and was exchanged for that token only; every stored scope includes offline_access; a code has a challenge if and only if its method is S256: in every state of every run |
| GrantChains.RefreshTokensFormChains | internal/usecase/oauth.go:245-333 | every refresh token ends a chain from one used code; each element was issued for its predecessor, all but the last are revoked, and all have the code's user, client and scope |
| GrantChains.ChainsFromOneCodeAgree | internal/adapter/postgres/token_repo.go:84-126 | of two tokens from one code, one chain is a prefix of the other: chains do not branch |
| GrantChains.OneLiveTokenPerCode | internal/adapter/postgres/token_repo.go:84-126 | in every state at most one refresh token of a code is unrevoked |
| GrantChains.RefreshContinuesTheChain | internal/usecase/oauth.go:245-272 | a successful refresh revokes the presented token, returns a replacement with the same scope, and the replacement's chain is the old chain plus itself (section 6 of RFC 6749) |
| GrantChains.RefreshSucceedsIff | internal/usecase/oauth.go:245-290 | a refresh succeeds if and only if the client has no secret and sends none or sends the one whose hash is stored, the token is unrevoked, unexpired and that client's, its user may authorize, and the writes, the user read and the signature go through |
| GrantHistory.RefreshTokenGoodIff | internal/adapter/postgres/token_repo.go:84-140 | in any run a refresh token is stored unrevoked with a given row if and only if an earlier step answered with it for that row, its user exists, and since then no proven client presented it in time and no step got as far as revoking the refresh tokens of its own user |
| GrantHistory.RefreshedIff | internal/usecase/oauth.go:245-290 | a refresh in terms of the past: it succeeds if and only if the token was handed out to this client, which proves to be the client, is still good in that sense and in time, and its user may authorize |
| GrantHistory.CodeGoodIff | internal/adapter/postgres/token_repo.go:23-75 | in any run a code is stored unused with a given row if and only if an earlier authorization granted it for that row, its user exists, and since then no proven client presented it in time |
| GrantHistory.ExchangedIff | internal/usecase/oauth.go:205-243 | an exchange in terms of the past: it succeeds if and only if the code was granted to this client for this redirect URI and is still good in that sense and in time, the client proves to be the client, the challenge is answered (without one the client has a secret), and the user may authorize |
| GrantChains.ChallengeIffS256 | internal/adapter/postgres/token_repo.go:77-82 | a stored code has a challenge if and only if its method is S256, so the method-mismatch branch of the exchange is dead |
| SignIn.RefreshTokenIffOfflineAccess | internal/usecase/oauth.go:312-333 | a code exchange returns and stores a refresh token exactly when the granted scope includes offline_access, for thirty days, with that scope |
| Exchanges.ExchangeMatchesAuthorization | internal/usecase/oauth.go:54-134 | every successful exchange matches one earlier authorization: same client, identical redirect URI registered then, less than five minutes old, user able to authorize at both steps (and with access, were the client invite-only), client authenticated, verifier of 43 to 128 characters hashing to any challenge, and a challenge if the client was or is public |
| Exchanges.ExchangeSucceedsIff | internal/usecase/oauth.go:205-243 | an exchange succeeds if and only if its code is unused, the authorization that stored the code entitles to it in that sense, and the writes, the user read and the signature go through |
| Exchanges.OneAttemptPerCode | internal/adapter/postgres/token_repo.go:35-75 | once an authenticated client has presented a stored code, successful or not, no later exchange of it succeeds |
| Exchanges.OneSuccessPerCode | internal/usecase/oauth.go:205-243 | two successful exchanges of one code are the same step |
| Exchanges.InvalidClientIff | internal/usecase/oauth.go:274-290 | a code exchange or refresh answers InvalidClient, and changes nothing, if and only if the client is not stored, or has no secret and one is sent, or has one and the secret sent is empty or does not verify against the stored hash |
| Authorizations.AuthorizeSucceedsIff | internal/usecase/oauth.go:54-134 | with every condition written out (response type, scope, state, client, redirect URI, challenge and method, session, invite-only access): an authorization answers with a code if and only if they hold and the redirect URI parses; the stored code and the recorded visit are spelled out, and otherwise nothing changes |
| Authorizations.StoredScopesAreGrantable | internal/domain/token.go:50-68 | in every state each stored code has a scope with openid and nothing but the three known scopes |
| Authorizations.RefreshScopesAreGrantable | internal/domain/token.go:50-68 | so has each stored refresh token |
| Delivery.UndeliveredIff | internal/usecase/oauth.go:54-134 | in any run, an authorization stores a code and does not answer with it if and only if the request, the session, the access and the write are in order and the requested URI does not parse |
| Delivery.UndeliveredOnlyAfterSeeding | internal/adapter/postgres/seed.go:26-39 | then an earlier start-up configured that very URI for that client: no URI an administrator enters can cause it |
| Delivery.CheckedSeedsDeliver | internal/adapter/postgres/seed.go:26-39 | while every URI configured for a client at start-up parses, an authorization for it stores a code if and only if it answers with it |
| Counterexamples.CodeIsStoredAndNotDelivered | internal/usecase/oauth.go:113-134 | a run, from an empty database, in which a client is configured with a URI that does not parse, and an authorization answers InvalidRedirectURI with the code stored and unused |
| GrantLaws.CodeLaw | internal/adapter/postgres/token_repo.go:23-75 | across any step a code changes only by being used once, by the exchange presenting it before expiry, and a new code is one an authorization of a resolved session just issued |
| GrantLaws.RefreshLaw | internal/adapter/postgres/token_repo.go:84-140 | across any step a refresh token changes only by being revoked, for good, and a new one comes from a live code or refresh token of the same user and client |
| Revocation.RevokedSessionsNeverResolve | internal/usecase/change_password.go:65-76 | no session that exists when a password change, reset, suspension or admin revocation completes resolves in any later state, whatever happens to the account |
| Revocation.RevokedRefreshTokensNeverRefresh | internal/usecase/password_reset.go:121-135 | no refresh token that exists then is accepted by any later refresh |
| Revocation.LoggedOutSessionsNeverResolve | internal/usecase/login.go:109-114 | a session that was logged out never resolves again |
| Revocation.ChainsAliveAfterRevocation | internal/usecase/oauth.go:113-123 | a chain authorized before such a step at time T is alive later only if its code was unused at T and was redeemed in [T, T + 5 minutes) |
| Revocation.CodesOutliveRevocation | internal/usecase/change_password.go:65-76 | the converse: a code of the user that is unused at such a step and that no authenticated client presents until the exchange succeeds there if and only if its authorization entitles to the exchange, and its refresh token is then live and descends from it |
| Revocation.CredentialStepsKeepCodes | internal/usecase/admin.go:84-144 | no credential step but the deletion of a user changes an authorization code |
| Counterexamples.CodeOutlivesAPasswordChange | internal/usecase/change_password.go:65-76 | a run in which a code issued before a completed password change is exchanged after it for a live refresh token |
| Revocation.FailedRefreshEndsTheChain | internal/usecase/oauth.go:245-272 | when an authenticated client presents a live token and the refresh fails, no token of that chain is live afterwards |
| Revocation.ChainDeadStays | internal/adapter/postgres/token_repo.go:92-140 | a used code none of whose tokens is live never gets a live one again |
| SessionPasswords.SessionsFitIffNeverStranded | internal/usecase/change_password.go:65-76 | that every unrevoked session was opened with the password its user still has holds throughout a run if and only if no step is cut off after storing a different hash and before revoking the live sessions |
| SessionPasswords.StepFitsIff | internal/usecase/password_reset.go:121-135 | one step keeps that fact for one session if and only if it is not such a cut-off change or reset for the session's user |
| SessionPasswords.LiveSessionVerifiedTheStoredHash | internal/usecase/login.go:53-98 | without such a step every unrevoked session goes back to a login that verified the hash its user still has |
| SessionPasswords.SessionWasOpened | internal/usecase/login.go:77-98 | every stored session was opened by an earlier login by a verified address of a user who could authorize, with the session lifetime from that instant |
| Counterexamples.SessionOutlivesItsPassword | internal/usecase/change_password.go:65-76 | a run, from an empty database, after which a session opened with the old password still resolves |
| LoginRace.SessionsFitIffNeverLate | internal/usecase/login.go:64-98 | with a login's check and insert as separate moves among any other use cases, every live session has the password its user still has, in every state, if and only if no insert comes after the checked hash was replaced and no password change is cut off after its first write |
| LoginRace.LateOnlyAfterReplacement | internal/usecase/login.go:64-98 | a hash differs from the checked one only if in between a step replaced the password with proof of the old one or a reset token |
| SplitUseCases.UninterruptedLogin | internal/usecase/login.go:53-98 | with nothing in between, the check and the insert are the login of the machine |
| SplitUseCases.UninterruptedExchange | internal/usecase/oauth.go:205-243 | with nothing in between, presentation, user read and insert are the code exchange of the machine |
| SplitUseCases.UninterruptedRefresh | internal/usecase/oauth.go:245-272 | with nothing in between, presentation, user read and insert are the refresh of the machine |
| GrantRace.TokensFitIffNeverLate | internal/usecase/oauth.go:205-333 | with the consumption, the user read and the insert of token requests as separate moves among any logins and use cases: every live refresh token was issued for something presented after the last completed revocation of its user's tokens, in every state, if and only if no replacement is stored after a revocation that completed since its presentation |
| GrantRace.LateMeansRevokedInBetween | internal/usecase/oauth.go:245-272 | a replacement is late only if a step that completely revokes the user's tokens lies strictly between the presentation of what it was issued for and its insert |
| GrantRace.LiveTokensWerePresentedSince | internal/usecase/password_reset.go:121-135 | while no insert is late: the code or token a live refresh token was issued for was presented after every completed revocation of its user's tokens |
| GrantRace.ReplacementOutlivesTheChange | internal/usecase/oauth.go:312-333 | an interleaving in which a password change completes between presentation and insert, and the replacement is live afterwards |
| LoginRace.SessionOpensAfterTheChange | internal/usecase/login.go:77-94 | an interleaving in which a password change completes between check and insert, and the session opened with the old password resolves |
| SessionHistory.ResolvesIff | internal/usecase/login.go:126-140 | in any run a session resolves to a user at an instant if and only if the user exists, is not suspended and is verified, an earlier login with a verified address of that user was answered with it less than a session lifetime before, and since then no step logged it out or got as far as revoking that user's sessions: other users' revocations do not touch it |
| SessionLaws.SessionLaw | internal/adapter/postgres/session_repo.go:23-58 | across any step a session changes only by being revoked, for good, and a new one is opened by a login that verified the stored hash |
| Suspension.NoSessionResolves | internal/usecase/admin.go:84-107 | after a suspension, until a step sets another status, no session resolves to the user |
| Suspension.AccessTokensEndSoon | internal/usecase/oauth.go:234-302 | no later code or refresh grant succeeds for the user, and every access token of the user expires within fifteen minutes of the suspension |
| Suspension.NoCodeForSuspendedUsers | internal/usecase/oauth.go:90-123 | no authorization code is issued to the user either |
| Suspension.OnlyAdministratorsReinstateVerifiedUsers | internal/usecase/register.go:296-318 | a user with a verified address when suspended can be reinstated only by an administrator: it has no live sign-up token |
| Suspension.SignUpVerificationLiftsSuspension | internal/adapter/postgres/user_repo.go:83-111 | presenting a token to /verify-email ends a suspension if and only if it is an unused, unexpired sign-up token of the suspended user and both writes go through |
| Suspension.StepEndsSuspensionIff | internal/usecase/admin.go:84-107 | any step ends the suspension of a user it does not delete if and only if an administrator sets another status or such a token is presented |
| Suspension.SuspensionHoldsIff | internal/usecase/admin.go:84-107 | between two states of a run a suspension holds throughout if and only if no step in between reinstates the user |
| Counterexamples.VerificationEndsASuspension | internal/usecase/register.go:296-318 | a run in which a user suspended before verifying its address becomes active by verifying it |
| Laws.UserLaw | internal/adapter/postgres/user_repo.go:83-124 | across any step a verified user stays verified, and status and password hash change only by the steps entitled to |
| Laws.FreshAlways | internal/adapter/postgres/token_repo.go:23-33 | in every state every stored id and token lies below the counter that issues them |
| Keys.KeysAreNewOnce | internal/adapter/postgres/token_repo.go:23-33 | a key is new to some table in one step of a run only: no user, token, ticket, invite, session or code takes over the key of another, deleted ones included |
| InviteOnly.AccessNeedsInvite | internal/usecase/invite.go:183-296 | for a client that is invite-only throughout, every access row goes back to a step that loaded an unused, unrevoked, unexpired invite for that client addressed to the user's primary address |
| InviteOnly.CodeNeedsInvite | internal/usecase/oauth.go:96-128 | so does every authorization code |
| InviteOnly.RefreshNeedsInvite | internal/usecase/oauth.go:245-333 | so does every refresh token |
| InviteOnly.AccessTokenNeedsInvite | internal/usecase/oauth.go:292-310 | and every access token |
| InviteOnly.AccessLaw | internal/usecase/register.go:169-195 | no ticket registration and no authorization creates an access to such a client; only the two invite paths do |
| Invites.AdmissionNeedsAdministrator | internal/usecase/invite.go:50-84 | whoever is admitted was invited to that client at that address by an administrator less than fourteen days before |
| Invites.SpentIff | internal/adapter/postgres/invite_repo.go:62-90 | whatever a step answers, it leaves an unspent invite used or revoked if and only if it gets as far as marking it: past its checks, not cut off before, and before the expiry by the clock reading it writes |
| Invites.AdmissionSpendsIff | internal/usecase/invite.go:183-264 | an admission spends its invite if and only if it is not cut off between the grant and the consumption and the invite has not expired since it was loaded |
| Invites.OneAdmissionPerInvite | internal/usecase/invite.go:183-264 | after a step that spends it, an invite admits nobody |
| Counterexamples.OneInviteAdmitsTwoUsers | internal/usecase/invite.go:183-200 | a run in which one invite gives two users access: accepted and cut off after the grant, then used by a newcomer who took the address |
| Invites.InvitationAdmits | internal/usecase/invite.go:50-84 | an invitation accepted within fourteen days by its addressee's session gives access and is used up |
| Invites.NeverUsedAndRevoked | internal/adapter/postgres/invite_repo.go:62-90 | no reachable state has an invite both used and revoked |
| Provenance.SignUpNeedsTicket | internal/usecase/register.go:57-117 | an account made through /register goes back to a ticket minted less than ten minutes before, by the client's secret or for a public client, for a client that was not invite-only then and is not now |
| Provenance.OneAccountPerTicket | internal/usecase/register.go:197-278 | a ticket makes at most one account |
| Provenance.PasswordsReplacedOnlyByProof | internal/usecase/password_reset.go:46-136 | a stored hash is replaced only by presenting the current password, or an unused reset token requested within the last hour at a verified address of that user |
| PasswordChanges.ResetRequestedIff | internal/usecase/password_reset.go:46-88 | a request stores a reset token, for an hour, if and only if the captcha passes and the address is a verified one of a user who is not suspended; with captcha and infrastructure in order the answer is the same whatever the address |
| PasswordChanges.ResetSucceedsIff | internal/usecase/password_reset.go:106-136 | a reset succeeds if and only if its token was mailed to an existing user less than an hour before and not used since, with a confirmed password of twelve characters, and the four writes go through; it stores that hash for that user and spends the token |
| PasswordChanges.ChangeSucceedsIff | internal/usecase/change_password.go:36-76 | a change succeeds if and only if the user may authorize, the current password verifies, and a different one of twelve characters is confirmed; it stores that hash, and a refused change changes nothing |
| EndToEnd.NewcomerGetsTokens | internal/usecase/register.go:197-318 | from any consistent database, ticket, registration, verification, login, authorization and exchange in time and with well-formed input all succeed, and the access token names the newcomer and the new, verified address |
| Answers.NoInternalErrors | internal/adapter/postgres/user_repo.go:23-59 | in any run, while every operation and mail goes through, no request answers an internal error: the checks of the use cases catch whatever unique indexes and foreign keys would refuse |
| Answers.RefusalsAreTrue | internal/usecase/account_emails.go:78-175 | in any run a refusal as closed, invite-only, taken, limit reached, last address, without access, forbidden or with a bad redirect URI is given only when that is so |
| References.OwnedAlways | migrations/000001_init.sql:31-75 | every session, code, refresh token, reset token and access row belongs to an existing user in every reachable state |
| References.DeletionLeavesNothing | internal/usecase/admin.go:109-127 | once an administrator has deleted a user, no table has a row of it in any later state |
| Administration.UserDisappearsIff | internal/usecase/admin.go:109-127 | in any run a stored user disappears in a step if and only if an administrator other than that user deletes it and it is no administrator |
| Administration.DeletionSucceedsIff | internal/usecase/admin.go:109-127 | a deletion answers Done exactly then, and a refused one changes nothing |
| Administration.StatusSetIff | internal/usecase/admin.go:84-107 | a status is set if and only if an administrator asks, for an existing user, and does not suspend itself; nothing else about the accounts changes |
| Administration.SessionsRevokedIff | internal/usecase/admin.go:129-144 | sessions are revoked on request if and only if an administrator asks, for an existing user; only sessions and grants change |
| AccessLog.FirstVisitIsKept | internal/adapter/postgres/app_access_repo.go:20-32 | between any two states that have the access row, first_seen_at is the same, last_seen_at has not gone back, and a known entry domain is still known |
| Admissions.TicketMintedIff | internal/usecase/register.go:57-117 | a ticket is minted, for ten minutes, if and only if registration is open, the client is not invite-only, and it proves its secret or is a public client named by the login page; otherwise nothing changes |
| Admissions.RegisterSucceedsIff | internal/usecase/register.go:169-278 | a registration succeeds if and only if it is well-formed and has a live ticket for a client that is not invite-only and an address nobody has, and captcha, writes and mail go through; the new state is spelled out: one pending account, its primary row, its mailed token, its access, the ticket spent |
| Admissions.InviteIssuedIff | internal/usecase/invite.go:50-84 | an invite is stored, for fourteen days, if and only if an administrator invites a valid address to a stored client; otherwise nothing changes |
| Admissions.InviteRevokedIff | internal/usecase/invite.go:93-112 | an invite is revoked if and only if an administrator asks and it is neither used nor revoked; otherwise nothing changes |
| Admissions.AcceptSucceedsIff | internal/usecase/invite.go:183-207 | an acceptance succeeds if and only if the invite is open, still so when it is used up, and the session belongs to the user it is addressed to; that user then has access and the invite is used |
| Admissions.JoinSucceedsIff | internal/usecase/invite.go:209-296 | a registration through an invite succeeds if and only if the invite is open, still so when it is used up, and nobody has its address; the new state is spelled out |
| ClientRegistry.ClientLaw | internal/adapter/postgres/client_repo.go:55-103 | across any step a client stays, its mode changes only through an administrator's SetAccessMode, its authentication only at start-up, its redirect list only through either |
| ClientRegistry.ClientsAreSound | internal/usecase/password_reset.go:165-224 | every stored client has a non-empty list of distinct redirect URIs, and a public one no secret |
| ClientRegistry.StaysInviteOnly | internal/adapter/postgres/client_repo.go:55-77 | an invite-only client stays invite-only through restarts and updates until an administrator sets its mode |
| ClientRegistry.ClientCreatedIff | internal/usecase/password_reset.go:165-224 | a client is created if and only if an administrator asks, under a new id, with an accepted redirect list and known mode and method; it is stored with exactly what was asked for, a public one without secret |
| ClientRegistry.ModeSetIff | internal/usecase/password_reset.go:226-235 | a mode is set if and only if an administrator asks, for a stored client and a known mode; nothing else changes |
| ClientRegistry.RedirectsUpdatedIff | internal/usecase/admin_clients.go:11-32 | a redirect list is replaced if and only if an administrator asks, for a stored client, with an accepted list; nothing else changes |
| ClientRegistry.SeedStores | internal/adapter/postgres/seed.go:26-39 | a start-up stores its client with its one URI and secret and keeps the mode of one that is stored already |
| RateLimit.Replay | internal/platform/ratelimit/limiter.go:25-84 | for every sequence of TooMany, Hit and Clear with clock readings nondecreasing in lock order, the pruned limiter answers as an unpruned log: and a TooMany answers true exactly as AnswerIff says |
| RateLimit.AnswerIff | internal/platform/ratelimit/limiter.go:25-68 | the answers of the unpruned log in terms of the calls alone: a TooMany answers true if and only if max > 0 and some non-empty key it names occurs at least max times in earlier hits later than now - window that no call in between has cleared |
| RateLimit.Limiter.TooMany | internal/platform/ratelimit/limiter.go:25-41 | the answer equals that of the full log, which pruning leaves as it is |
| RateLimit.Limiter.Hit | internal/platform/ratelimit/limiter.go:43-57 | the full log gains one hit for each non-empty key, in order |
| RateLimit.Limiter.Clear | internal/platform/ratelimit/limiter.go:59-68 | the full log loses exactly the given keys |
| RateLimit.Limiter.Pruned | internal/platform/ratelimit/limiter.go:70-84 | returns and keeps exactly the hits inside the window: as many as the full log has there |
| RateLimitBound.WindowBound | internal/adapter/http/handler/login.go:77-102 | with at most k requests between their TooMany and their Hit, no half-open interval (x, x + window] ever holds more than max + k - 1 hits of one key since its last Clear |
| Scopes.SplitFields | internal/domain/token.go:79-91 | the loop returns Fields(s) |
| Scopes.FieldsAreTheMaximalRuns | internal/domain/token.go:79-91 | Fields(s) lists every maximal space-free run of s, only those, from left to right (section 3.3 of RFC 6749) |
| Scopes.FieldsOfJoin | internal/domain/token.go:79-91 | splitting the single-space join of any list of fields gives the list back |
| Scopes.ParseScope | internal/domain/token.go:50-68 | succeeds if and only if openid occurs and every field is one of the three scopes; the empty string has its own error |
| Scopes.ScopeIncludes | internal/domain/token.go:70-77 | true if and only if the wanted scope is a field |
| Scopes.ScopeIsASet | internal/domain/token.go:50-77 | both readings depend only on the set of fields |
| RedirectUris.ParseRedirectURIList | internal/domain/client.go:76-97 | the loop with its seen set returns the first occurrences of the trimmed non-empty lines, or an error if there is none or one is invalid |
| RedirectUris.AcceptedList | internal/domain/client.go:60-97 | an accepted list is non-empty, duplicate-free and in first-occurrence order, every entry is valid, and AllowsRedirectURI(u) holds if and only if u is a non-empty trimmed input line |
| RedirectUris.AcceptedIff | internal/domain/client.go:76-125 | a list is accepted if and only if it has a non-blank line and each one, trimmed, is an absolute URI without blanks and fragment, of a scheme that is none of the six forbidden ones in any case, with a host if it is a web address; otherwise the error is redirect_uris |
| RedirectUris.TrimIsTheCore | internal/domain/client.go:76-97 | trimming leaves the part between the first and the last character that is no space |
| RedirectUris.PrintThenParse | internal/domain/client.go:70-97 | printing an accepted list and parsing it again is the identity |
| RedirectUris.AllowsRedirectURI | internal/domain/client.go:60-67 | the loop decides exact membership |
| Argon2.DecodeOfEncode | internal/adapter/crypto/argon2.go:63-84 | decoding inverts encoding for every version, cost parameters, salt and digest |
| Argon2.DecodesIff | internal/adapter/crypto/argon2.go:63-84 | a string decodes to a salt, digest and parameters if and only if it is six fields joined by $, the second argon2id, the third and fourth the scanned version and cost numerals within their widths (blanks before a number and text after the last are ignored, the first field and the version number are not checked), the last two the base64 of the salt and the digest |
| Argon2.ConstantTimeCompare | internal/adapter/crypto/argon2.go:90-99 | the XOR/OR loop is equality of byte strings |
| Argon2.Verify | internal/adapter/crypto/argon2.go:48-55 | accepts exactly when the stored string decodes and the key derived with its salt and parameters is its digest |
| Argon2.HashAcceptsItsPassword | internal/adapter/crypto/argon2.go:30-55 | Verify(Hash(p), p) always holds, and another password is accepted only if it derives the same key |
| Jwk.BigIntToBytes | internal/adapter/crypto/rsa_jwt.go:149-159 | for n >= 0 the result decodes to n, has no leading zero octet unless n = 0, and no octet string for n is shorter (section 2 of RFC 7518) |
| Jwk.NoLeadingZeroIsMinimal | internal/adapter/crypto/rsa_jwt.go:149-159 | an octet string without leading zero is the shortest for its number |
| Serving.Serve | internal/usecase/oauth.go:194-203 | serving any sequence of requests, unknown grant types included, on the imperative service from a fresh database is a run of the state machine with the same answers, so every theorem about runs holds of it |
| Database.Database.CreateUser | internal/adapter/postgres/user_repo.go:23-59 | two inserts in one transaction: both rows or none |
| Database.Database.MarkEmailVerified | internal/adapter/postgres/user_repo.go:83-111 | users and the unverified primary row change together, or neither |
| Database.Database.DeletePendingSecondary | internal/adapter/postgres/user_email_repo.go:108-120 | removes exactly the pending secondary row of the user, or answers NotFound |
| Database.Database.DeleteVerified | internal/adapter/postgres/user_email_repo.go:124-195 | deletes, promotes the one remaining verified row and moves users.email, or rolls everything back |
| Database.Database.PromoteRemaining | internal/adapter/postgres/user_email_repo.go:168-192 | the LIMIT 1 pick is the only remaining verified row, because of the unique indexes |
| Database.Database.DeleteUser | internal/adapter/postgres/user_admin_repo.go:125-134 | the user and every row that references it go, nothing else |
| Database.Database.LoadTicket | internal/adapter/postgres/registration_ticket_repo.go:39-75 | one load for Peek and Consume: the same answer, and only Consume writes |
| Database.Database.UpsertAccess | internal/adapter/postgres/app_access_repo.go:20-32 | first_seen_at and a known entry domain survive the conflict branch; an unknown user is refused |
| Database.Database.Upsert | internal/adapter/postgres/client_repo.go:55-77 | on conflict everything but access_mode is overwritten |

## Left out

- HTTP routing, cookies, JSON, templates, mail, captcha, configuration and the migration runner: a captcha verdict and whether a mail could be sent are inputs of a step.
- Code that calls the limiter: only its order, check first and hit later, is in `RateLimitBound`; a nil limiter always admits and is not modelled.
- RSA signing and JWT parsing, SHA-256, Argon2 and base64 themselves, `url.Parse`, `buildRedirect` and the Android intent link; the Android package pattern is an input of a step.
- `domain.ParseEmail` and its normalisation: an address is whatever it accepts, and lower-casing in SQL is the identity on it.
- Listings, statistics, filters, `Preview`, `UserInfo` and the discovery document: they only read.
- created_at and updated_at columns, client names, the creator of an invite and the primary keys of rows that have another unique key; an invite's id and its token are one key.
- `RevokeRefreshToken` of the token repository, which nothing calls.
- The unguessability of random tokens: presenting a token is always possible.
- Whole use cases interleaved with each other at every statement: races are modelled inside DeleteVerified, inside the consumption of one token or invite, and between the transactions of a login and of a token request.
- Deadlocks between different operations, serialization failures, and waits for unique indexes: in `DeleteVerifiedRace` other operations appear as committed changes that respect the row locks and keep the tables in agreement.
- SurvivorGoneRollsBack: rows are identified by their address, so an address that another operation deletes and adds again while a transaction waits counts as the same row there; in PostgreSQL the waiting statement does not see the new row.
- UTF-8: text is a sequence of characters, one character a byte in scopes, verifiers, challenges and passwords, and one a code point in redirect lists.
- Sscanf details beyond the three formats the password hash uses, and the panics of Argon2 for a stored string with zero time or parallelism.
- The admin role of the actor is an input of a step: how the middleware finds it is not part of this model.
- WindowBound: the number k of requests in flight is a parameter; the code does not bound it.
- OperationsAreStampings: relates the operations of the table model to the race model; the SQL text is not modelled.
