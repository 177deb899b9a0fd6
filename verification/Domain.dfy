/** Entities, value objects, error values and the rules that need no store. */
module Domain {

  datatype Option<+T> = None | Some(value: T)

  datatype Result<+T> = Ok(value: T) | Err(error: Error)

  datatype Error =
    | NotFound
    | InvalidCredentials
    | EmailTaken
    | RegistrationClosed
    | InviteOnlyRegistration
    | InvalidRedirectURI
    | InvalidClient
    | InvalidGrant
    | InvalidScope
    | Unauthorized
    | Forbidden
    | NoAppAccess
    | InvalidToken
    | CaptchaFailed
    | EmailLimitReached
    | CannotDeleteLastEmail
    | Validation(field: string)
    | Internal  // a database, mailer or random-source failure

  /** Instants and durations, in microseconds (the resolution of the stored timestamps). */
  type Time = int

  const SECOND: Time := 1_000_000
  const MINUTE: Time := 60 * SECOND
  const HOUR: Time := 60 * MINUTE
  const DAY: Time := 24 * HOUR

  const AUTH_CODE_TTL: Time := 5 * MINUTE
  const ACCESS_TOKEN_TTL: Time := 15 * MINUTE
  const REFRESH_TOKEN_TTL: Time := 30 * DAY
  const EMAIL_VERIFY_TTL: Time := 24 * HOUR
  const REGISTRATION_TICKET_TTL: Time := 10 * MINUTE
  const INVITE_TTL: Time := 14 * DAY
  const PASSWORD_RESET_TTL: Time := HOUR

  const MIN_PASSWORD_LENGTH: nat := 12

  /** Random tokens and generated ids. Zero is the empty string, which is never issued. */
  type Token = nat
  type UserId = Token

  datatype ClientId = ClientId(id: string)

  /** An address ParseEmail accepted: trimmed and lower-case, so `lower(email)` in SQL is the identity on it. */
  datatype Email = Email(address: string)

  datatype Role = RoleUser | RoleAdmin
  datatype Status = Pending | Active | Suspended
  datatype EmailRole = Primary | Secondary

  datatype User = User(email: Email, hash: string, role: Role, status: Status, verifiedAt: Option<Time>) {
    predicate IsEmailVerified() { verifiedAt.Some? }

    predicate IsAdmin() { role == RoleAdmin }

    predicate CanAuthenticate() { status != Suspended }

    predicate CanAuthorize() { CanAuthenticate() && IsEmailVerified() }
  }

  datatype EmailRow = EmailRow(user: UserId, role: EmailRole, verifiedAt: Option<Time>)

  datatype AccessMode = Public | InviteOnly
  datatype AuthMethod = ClientSecretPost | NoSecret

  function ParseAccessMode(raw: string): Result<AccessMode> {
    if raw == "public" || raw == "" then Ok(Public)
    else if raw == "invite_only" then Ok(InviteOnly)
    else Err(Validation("access_mode"))
  }

  function ParseAuthMethod(raw: string): Result<AuthMethod> {
    if raw == "client_secret_post" || raw == "" then Ok(ClientSecretPost)
    else if raw == "none" then Ok(NoSecret)
    else Err(Validation("token_endpoint_auth_method"))
  }

  datatype Client = Client(secretHash: string, redirects: seq<string>, mode: AccessMode, auth: AuthMethod) {
    predicate AllowsRedirectURI(uri: string) { uri in redirects }

    predicate IsInviteOnly() { mode == InviteOnly }

    predicate IsPublic() { auth == NoSecret }
  }

  datatype Session = Session(user: UserId, expiresAt: Time, revokedAt: Option<Time>)

  /** A stored authorization code; the two PKCE columns are NULL when the value is empty. */
  datatype Code = Code(user: UserId, client: ClientId, redirect: string, scope: string,
                       challenge: Option<string>, challengeMethod: Option<string>, expiresAt: Time,
                       usedAt: Option<Time>)

  datatype Refresh = Refresh(user: UserId, client: ClientId, scope: string, expiresAt: Time, revokedAt: Option<Time>)

  /** `email` is NULL for a sign-up token and set for a token that verifies a secondary address. */
  datatype VerifyToken = VerifyToken(user: UserId, email: Option<Email>, expiresAt: Time, usedAt: Option<Time>)

  datatype ResetToken = ResetToken(user: UserId, expiresAt: Time, usedAt: Option<Time>)

  datatype Ticket = Ticket(client: ClientId, expiresAt: Time, usedAt: Option<Time>) {
    predicate IsLive(at: Time) { usedAt.None? && at < expiresAt }
  }

  datatype Invite = Invite(client: ClientId, email: Email, expiresAt: Time,
                       usedAt: Option<Time>, revokedAt: Option<Time>) {
    predicate IsUsable(at: Time) { usedAt.None? && revokedAt.None? && at < expiresAt }
  }

  datatype Access = Access(entryDomain: string, firstSeen: Time, lastSeen: Time)

  /** What an access JWT asserts. */
  datatype Claims = Claims(sub: UserId, aud: ClientId, email: Email, emailVerified: bool, role: Role, expiresAt: Time)

  /** nullIfEmpty and COALESCE(column, ''). */
  function NullIfEmpty(s: string): Option<string> { if s == "" then None else Some(s) }

  function Coalesce(s: Option<string>): string { if s.Some? then s.value else "" }

  const S256 := "S256"

  function ParseCodeChallengeMethod(raw: string): Result<string> {
    if raw == "" || raw == S256 then Ok(S256) else Err(Validation("code_challenge_method"))
  }

  /** The parts of a parsed URL that the redirect checks read. */
  datatype Url = Url(scheme: string, host: string, rest: string, path: string, fragment: string)

  /** url.Parse: a deterministic library function; None is a parse error. */
  type UrlParser = string -> Option<Url>

  /**
    The parts of the system that are not this repository's code: address and URL parsing,
    the password hash, the SHA-256/base64url transform and host extraction, each a
    deterministic function, plus two configuration values.
   */
  datatype Env = Env(registrationOpen: bool,
                     sessionTTL: Time,
                     parseEmail: string -> Option<Email>,
                     verify: (string, string) -> bool,
                     s256: string -> string,
                     parseUrl: UrlParser,
                     host: string -> string)

  predicate VerifyPKCES256(env: Env, challenge: string, verifier: string) {
    && challenge != ""
    && 43 <= |verifier| <= 128
    && env.s256(verifier) == challenge
  }
}
