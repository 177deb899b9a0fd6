/**
  What each use case does to the database, as a function of the state, the clock
  readings and the input. `cut` is the number of operations the infrastructure lets
  through: writes and, at the token endpoint, the user read and the signature that follow
  a write. A use case that fails half-way keeps the writes it has made.
 */
module UseCases {
  import opened Domain
  import opened Tables
  import RedirectUris
  import Scopes

  /** Up to three clock readings of one use case, in order. */
  datatype Clock = Clock(first: Time, second: Time, third: Time) {
    predicate Ordered() { first <= second <= third }
  }

  datatype Actor = Actor(id: UserId, isAdmin: bool)

  datatype Out =
    | Done
    | Failed(error: Error)
    | TicketIssued(ticket: Token)
    | NoLink
    | SessionOpened(session: Token, expiresAt: Time)
    | CodeIssued(code: Token)
    | TokensIssued(access: Claims, scope: string, refresh: Option<Token>)
    | InviteIssued(invite: Token)
    | ClientCreated

  function NotFoundAs(e: Error, other: Error): Error { if e == NotFound then other else e }

  /** A row under a fresh id or token. */
  function AddTicket(db: Db, ticket: Ticket): Db {
    db.(next := db.next + 1, entries := db.entries.CreateTicket(db.next, ticket))
  }

  function AddUser(db: Db, user: User): Result<Db> {
    match db.accounts.CreateUser(db.next, user)
    case Err(e) => Err(e)
    case Ok(accounts1) => Ok(db.(next := db.next + 1, accounts := accounts1))
  }

  function AddVerifyToken(db: Db, token: VerifyToken, to: Email): Db {
    db.(next := db.next + 1, accounts := db.accounts.CreateVerifyToken(db.next, token, to))
  }

  // ---- sign-up ----

  function IssueTicket(env: Env, db: Db, at: Clock, cut: nat, id: ClientId, secret: string): (Db, Out) {
    if !env.registrationOpen then (db, Failed(RegistrationClosed))
    else if id !in db.clients || db.clients[id].IsPublic() then (db, Failed(InvalidClient))
    else if secret == "" || !env.verify(db.clients[id].secretHash, secret) then (db, Failed(InvalidClient))
    else if db.clients[id].IsInviteOnly() then (db, Failed(InviteOnlyRegistration))
    else if cut == 0 then (db, Failed(Internal))
    else (AddTicket(db, Ticket(id, at.first + REGISTRATION_TICKET_TTL, None)), TicketIssued(db.next))
  }

  function LinkForPublicClient(env: Env, db: Db, at: Clock, cut: nat, id: ClientId): (Db, Out) {
    if !env.registrationOpen || id.id == "" then (db, NoLink)
    else if id !in db.clients || !db.clients[id].IsPublic() || db.clients[id].IsInviteOnly() then (db, NoLink)
    else if cut == 0 then (db, NoLink)
    else (AddTicket(db, Ticket(id, at.first + REGISTRATION_TICKET_TTL, None)), TicketIssued(db.next))
  }

  function PeekTicket(env: Env, db: Db, at: Time, ticket: Token): Result<Ticket> {
    if !env.registrationOpen then Err(RegistrationClosed)
    else if ticket == 0 then Err(InvalidToken)
    else
      match db.entries.PeekTicket(ticket, at)
      case Err(e) => Err(NotFoundAs(e, InvalidToken))
      case Ok(row) =>
        if row.client !in db.clients then Err(InvalidToken)
        else if db.clients[row.client].IsInviteOnly() then Err(InviteOnlyRegistration)
        else Ok(row)
  }

  datatype RegisterInput = RegisterInput(email: string, password: string, newHash: string, captchaOk: bool,
                                         ticket: Token, mailOk: bool)

  function NewUser(email: Email, hash: string): User { User(email, hash, RoleUser, Pending, None) }

  /** The verification mail goes out once the token is stored. */
  function Mailed(mailOk: bool): Out { if mailOk then Done else Failed(Internal) }

  function Register(env: Env, db: Db, at: Clock, cut: nat, i: RegisterInput): (r: (Db, Out))
    ensures r.0 == db.(next := r.0.next, accounts := r.0.accounts, entries := r.0.entries) && r.0.next >= db.next
  {
    var email := env.parseEmail(i.email);
    if !i.captchaOk then (db, Failed(CaptchaFailed))
    else if email.None? then (db, Failed(Validation("email")))
    else if |i.password| < MIN_PASSWORD_LENGTH then (db, Failed(Validation("password")))
    else
      match PeekTicket(env, db, at.first, i.ticket)
      case Err(e) => (db, Failed(e))
      case Ok(ticket) =>
        if email.value in db.accounts.emails then (db, Failed(EmailTaken))
        else if cut == 0 then (db, Failed(Internal))
        else
          match db.entries.ConsumeTicket(i.ticket, at.second)
          case Err(e) => (db, Failed(NotFoundAs(e, InvalidToken)))
          case Ok((entries1, consumed)) =>
            SignUp(db.(entries := entries1), at.second, cut - 1, consumed.client, email.value, i.newHash, i.mailOk)
  }

  /** The writes of Register after the ticket is consumed. */
  function SignUp(db: Db, now: Time, cut: nat, client: ClientId, email: Email, hash: string,
                  mailOk: bool): (r: (Db, Out))
    ensures r.0 == db.(next := r.0.next, accounts := r.0.accounts, entries := r.0.entries) && r.0.next >= db.next
  {
    if cut == 0 then (db, Failed(Internal))
    else
      match AddUser(db, NewUser(email, hash))
      case Err(e) => (db, Failed(e))
      case Ok(db1) =>
        if cut == 1 then (db1, Failed(Internal))
        else
          var db2 := db1.(entries := db1.entries.UpsertAccess(db.next, client, "", now));
          if cut == 2 then (db2, Failed(Internal))
          else (AddVerifyToken(db2, VerifyToken(db.next, None, now + EMAIL_VERIFY_TTL, None), email), Mailed(mailOk))
  }

  /** A token that carries an address verifies that address, a sign-up token the primary one. */
  function MarkAddress(accounts: Accounts, row: VerifyToken, at: Time): Result<Accounts> {
    if row.email.Some? then accounts.MarkVerified(row.user, row.email.value, at)
    else accounts.MarkEmailVerified(row.user, at)
  }

  function VerifyEmail(db: Db, at: Clock, cut: nat, token: Token): (r: (Db, Out))
    ensures r.0 == db.(accounts := r.0.accounts)
  {
    if token == 0 then (db, Failed(InvalidToken))
    else if cut == 0 then (db, Failed(Internal))
    else
      match db.accounts.ConsumeVerifyToken(token, at.first)
      case Err(e) => (db, Failed(NotFoundAs(e, InvalidToken)))
      case Ok((accounts1, row)) =>
        var db1 := db.(accounts := accounts1);
        if cut == 1 then (db1, Failed(Internal))
        else
          match MarkAddress(accounts1, row, at.first)
          case Err(e) => (db1, Failed(if row.email.Some? then NotFoundAs(e, InvalidToken) else e))
          case Ok(accounts2) => (db.(accounts := accounts2), Done)
  }

  // ---- account e-mails ----

  datatype AddInput = AddInput(user: UserId, email: string, captchaOk: bool, mailOk: bool)

  function AddEmail(env: Env, db: Db, at: Clock, cut: nat, i: AddInput): (r: (Db, Out))
    ensures r.0 == db.(next := r.0.next, accounts := r.0.accounts) && r.0.next >= db.next
  {
    var email := env.parseEmail(i.email);
    if i.user == 0 then (db, Failed(Unauthorized))
    else if !i.captchaOk then (db, Failed(CaptchaFailed))
    else if i.user !in db.accounts.users then (db, Failed(Unauthorized))
    else if !db.accounts.users[i.user].CanAuthorize() then (db, Failed(Forbidden))
    else if email.None? then (db, Failed(Validation("email")))
    else if email.value == db.accounts.users[i.user].email then (db, Failed(EmailTaken))
    else if db.accounts.HasSecondary(i.user) then (db, Failed(EmailLimitReached))
    else if email.value in db.accounts.emails then (db, Failed(EmailTaken))
    else if cut == 0 then (db, Failed(Internal))
    else
      match db.accounts.InsertPendingSecondary(i.user, email.value)
      case Err(e) => (db, Failed(e))
      case Ok(accounts1) =>
        var db1 := db.(accounts := accounts1);
        if cut == 1 then (db1, Failed(Internal))
        else
          (AddVerifyToken(db1, VerifyToken(i.user, email, at.first + EMAIL_VERIFY_TTL, None), email.value),
           Mailed(i.mailOk))
  }

  function CancelEmail(db: Db, cut: nat, user: UserId): (Db, Out) {
    if user == 0 || user !in db.accounts.users then (db, Failed(Unauthorized))
    else if cut == 0 then (db, Failed(Internal))
    else
      match db.accounts.DeletePendingSecondary(user)
      case Err(e) => (db, Failed(e))
      case Ok(accounts1) => (db.(accounts := accounts1), Done)
  }

  ghost function DeleteEmail(env: Env, db: Db, cut: nat, user: UserId, email: string): (Db, Out) {
    if user == 0 || user !in db.accounts.users then (db, Failed(Unauthorized))
    else if env.parseEmail(email).None? then (db, Failed(Validation("email")))
    else if cut == 0 then (db, Failed(Internal))
    else
      match db.accounts.DeleteVerified(user, env.parseEmail(email).value)
      case Err(e) => (db, Failed(e))
      case Ok(accounts1) => (db.(accounts := accounts1), Done)
  }

  // ---- sessions ----

  function Login(env: Env, db: Db, at: Clock, cut: nat, email: string, password: string, captchaOk: bool): (Db, Out) {
    var address := env.parseEmail(email);
    if !captchaOk then (db, Failed(CaptchaFailed))
    else if address.None? || password == "" then (db, Failed(InvalidCredentials))
    else
      match db.accounts.ByEmail(address.value)
      case None => (db, Failed(InvalidCredentials))
      case Some(id) =>
        var user := db.accounts.users[id];
        if !user.CanAuthenticate() || !env.verify(user.hash, password) then (db, Failed(InvalidCredentials))
        else if !user.IsEmailVerified() then (db, Failed(Forbidden))
        else if cut == 0 then (db, Failed(Internal))
        else
          (db.(next := db.next + 1,
               sessions := db.sessions.Create(db.next, Session(id, at.first + env.sessionTTL, None), user.hash)),
           SessionOpened(db.next, at.first + env.sessionTTL))
  }

  function Logout(db: Db, at: Clock, cut: nat, session: Token): (Db, Out) {
    if session == 0 then (db, Done)
    else if cut == 0 then (db, Failed(Internal))
    else (db.(sessions := db.sessions.Revoke(session, at.first)), Done)
  }

  /** ResolveSession.Execute; None is ErrUnauthorized. */
  function ResolveSession(db: Db, at: Time, session: Token): Option<UserId> {
    if session == 0 then None
    else
      match db.sessions.ByToken(session, at)
      case None => None
      case Some(row) =>
        if row.user in db.accounts.users && db.accounts.users[row.user].CanAuthorize() then Some(row.user) else None
  }

  // ---- OAuth ----

  datatype AuthorizeInput = AuthorizeInput(client: ClientId, redirect: string, responseType: string, scope: string,
                                           state: string, session: Token, challenge: string, challengeMethod: string)

  /** The checks of Authorize up to the session; None when they pass. */
  function AuthorizeError(db: Db, i: AuthorizeInput): Option<Error> {
    if i.responseType != "code" then Some(InvalidGrant)
    else if !Scopes.IsValidScope(i.scope) then Some(Scopes.ScopeError(i.scope))
    else if i.state == "" then Some(Validation("state"))
    else if i.client !in db.clients then Some(InvalidClient)
    else if !db.clients[i.client].AllowsRedirectURI(i.redirect) then Some(InvalidRedirectURI)
    else if ParseCodeChallengeMethod(i.challengeMethod).Err? then Some(Validation("code_challenge_method"))
    else if db.clients[i.client].IsPublic() && i.challenge == "" then Some(Validation("code_challenge"))
    else if i.challenge != "" && (|i.challenge| < 43 || |i.challenge| > 128) then Some(Validation("code_challenge"))
    else None
  }

  /** The row Authorize stores; an empty challenge also empties the method. */
  function NewCode(user: UserId, i: AuthorizeInput, at: Time): Code {
    var codeMethod := if i.challenge == "" then "" else S256;
    Code(user, i.client, i.redirect, i.scope, NullIfEmpty(i.challenge), NullIfEmpty(codeMethod), at + AUTH_CODE_TTL,
         None)
  }

  /** RecordAppAccess.Execute, whose failure Authorize ignores. */
  function RecordAccess(env: Env, db: Db, at: Time, user: UserId, client: ClientId, redirect: string): (r: Db)
    ensures r == db.(entries := r.entries)
  {
    if user == 0 || client.id == "" then db
    else db.(entries := db.entries.UpsertAccess(user, client, env.host(redirect), at))
  }

  /** buildRedirect runs after the code is stored, and fails for a URI that does not parse. */
  function Redirected(env: Env, i: AuthorizeInput, code: Token): Out {
    if env.parseUrl(i.redirect).None? then Failed(InvalidRedirectURI) else CodeIssued(code)
  }

  function Authorize(env: Env, db: Db, at: Clock, cut: nat, i: AuthorizeInput): (r: (Db, Out))
    ensures r.0 == db.(next := r.0.next, grants := r.0.grants, entries := r.0.entries) && r.0.next >= db.next
  {
    var error := AuthorizeError(db, i);
    if error.Some? then (db, Failed(error.value))
    else
      match ResolveSession(db, at.first, i.session)
      case None => (db, Failed(Unauthorized))
      case Some(user) =>
        if db.clients[i.client].IsInviteOnly() && !db.entries.HasAccess(user, i.client) then (db, Failed(NoAppAccess))
        else if cut == 0 then (db, Failed(Internal))
        else
          var db1 := db.(next := db.next + 1, grants := db.grants.CreateCode(db.next, NewCode(user, i, at.second)));
          (if cut == 1 then db1
           else RecordAccess(env, db1, at.third, user, i.client, i.redirect), Redirected(env, i, db.next))
  }

  predicate AuthenticatesClient(env: Env, db: Db, id: ClientId, secret: string) {
    && id in db.clients
    && if db.clients[id].IsPublic() then secret == ""
       else secret != "" && env.verify(db.clients[id].secretHash, secret)
  }

  /** ExchangeToken.Execute with any other grant_type. */
  function OtherGrant(db: Db): (Db, Out) { (db, Failed(InvalidGrant)) }

  /** issueTokens: the access token, which is signed first, and a refresh token when the scope asks for one. */
  function IssueTokens(db: Db, at: Time, cut: nat, user: UserId, client: ClientId, scope: string,
                       origin: Origin): (r: (Db, Out))
    requires user in db.accounts.users
    ensures r.0 == db.(next := r.0.next, grants := r.0.grants) && r.0.next >= db.next
  {
    var u := db.accounts.users[user];
    var access := Claims(user, client, u.email, u.IsEmailVerified(), u.role, at + ACCESS_TOKEN_TTL);
    if cut == 0 then (db, Failed(Internal))
    else if !Scopes.Includes(scope, Scopes.OFFLINE_ACCESS) then (db, TokensIssued(access, scope, None))
    else if cut == 1 then (db, Failed(Internal))
    else
      (db.(next := db.next + 1,
           grants := db.grants.CreateRefresh(db.next, Refresh(user, client, scope, at + REFRESH_TOKEN_TTL, None),
                                             origin)),
       TokensIssued(access, scope, Some(db.next)))
  }

  datatype ExchangeInput = ExchangeInput(code: Token, redirect: string, client: ClientId, secret: string,
                                         verifier: string)

  /** The checks exchangeCode makes on the consumed code. */
  predicate CodeMatches(env: Env, client: Client, row: Code, i: ExchangeInput) {
    && row.client == i.client && row.redirect == i.redirect
    && if Coalesce(row.challenge) != "" then
         Coalesce(row.challengeMethod) == S256 && VerifyPKCES256(env, Coalesce(row.challenge), i.verifier)
       else !client.IsPublic()
  }

  function ExchangeCode(env: Env, db: Db, at: Clock, cut: nat, i: ExchangeInput): (r: (Db, Out))
    ensures r.0 == db.(next := r.0.next, grants := r.0.grants) && r.0.next >= db.next
  {
    if !AuthenticatesClient(env, db, i.client, i.secret) then (db, Failed(InvalidClient))
    else if cut == 0 then (db, Failed(Internal))
    else
      match db.grants.ConsumeCode(i.code, at.first)
      case Err(e) => (db, Failed(NotFoundAs(e, InvalidGrant)))
      case Ok((grants1, row)) =>
        var db1 := db.(grants := grants1);
        if !CodeMatches(env, db.clients[i.client], row, i) then (db1, Failed(InvalidGrant))
        else if cut == 1 || row.user !in db.accounts.users || !db.accounts.users[row.user].CanAuthorize()
        then (db1, Failed(InvalidGrant))
        else IssueTokens(db1, at.second, cut - 2, row.user, i.client, row.scope, FromCode(i.code))
  }

  function RefreshGrant(env: Env, db: Db, at: Clock, cut: nat, token: Token, client: ClientId,
                        secret: string): (r: (Db, Out))
    ensures r.0 == db.(next := r.0.next, grants := r.0.grants) && r.0.next >= db.next
  {
    if !AuthenticatesClient(env, db, client, secret) then (db, Failed(InvalidClient))
    else if cut == 0 then (db, Failed(Internal))
    else
      match db.grants.ConsumeRefresh(token, at.first)
      case Err(e) => (db, Failed(NotFoundAs(e, InvalidGrant)))
      case Ok((grants1, row)) =>
        var db1 := db.(grants := grants1);
        if row.client != client then (db1, Failed(InvalidGrant))
        else if cut == 1 || row.user !in db.accounts.users || !db.accounts.users[row.user].CanAuthorize()
        then (db1, Failed(InvalidGrant))
        else IssueTokens(db1, at.second, cut - 2, row.user, client, row.scope, FromRefresh(token))
  }

  // ---- invites ----

  function CreateInvite(env: Env, db: Db, at: Clock, cut: nat, actor: Actor, client: ClientId, email: string)
    : (Db, Out)
  {
    var address := env.parseEmail(email);
    if !actor.isAdmin then (db, Failed(Forbidden))
    else if address.None? then (db, Failed(Validation("email")))
    else if client !in db.clients then (db, Failed(Validation("client_id")))
    else if cut == 0 then (db, Failed(Internal))
    else
      (db.(next := db.next + 1,
           entries := db.entries.CreateInvite(db.next, Invite(client, address.value, at.first + INVITE_TTL, None,
                                                              None))),
       InviteIssued(db.next))
  }

  function RevokeInvite(db: Db, at: Clock, cut: nat, actor: Actor, invite: Token): (Db, Out) {
    if !actor.isAdmin then (db, Failed(Forbidden))
    else if invite == 0 then (db, Failed(Validation("invite_id")))
    else if cut == 0 then (db, Failed(Internal))
    else
      match db.entries.RevokeInvite(invite, at.first)
      case Err(e) => (db, Failed(e))
      case Ok(entries1) => (db.(entries := entries1), Done)
  }

  /** loadUsable */
  function LoadUsable(db: Db, at: Time, invite: Token): Result<Invite> {
    if invite == 0 || invite !in db.entries.invites || !db.entries.invites[invite].IsUsable(at) then Err(InvalidToken)
    else if db.entries.invites[invite].client !in db.clients then Err(NotFound)
    else Ok(db.entries.invites[invite])
  }

  /** The invite is consumed after the access row is written. */
  function Grant(db: Db, at: Time, cut: nat, user: UserId, invite: Token, client: ClientId): (r: (Db, Out))
    ensures r.0 == db.(entries := r.0.entries)
  {
    if cut == 0 then (db, Failed(Internal))
    else
      var db1 := db.(entries := db.entries.UpsertAccess(user, client, "", at));
      if cut == 1 then (db1, Failed(Internal))
      else
        match db1.entries.ConsumeInvite(invite, at)
        case Err(e) => (db1, Failed(e))
        case Ok(entries2) => (db.(entries := entries2), Done)
  }

  function AcceptExisting(db: Db, at: Clock, cut: nat, invite: Token, session: Token): (r: (Db, Out))
    ensures r.0 == db.(entries := r.0.entries)
  {
    match LoadUsable(db, at.first, invite)
    case Err(e) => (db, Failed(e))
    case Ok(row) =>
      match ResolveSession(db, at.second, session)
      case None => (db, Failed(Unauthorized))
      case Some(user) =>
        if db.accounts.users[user].email != row.email then (db, Failed(Validation("email")))
        else Grant(db, at.third, cut, user, invite, row.client)
  }

  datatype InviteRegisterInput = InviteRegisterInput(invite: Token, password: string, newHash: string, captchaOk: bool,
                                                     mailOk: bool)

  function RegisterViaInvite(db: Db, at: Clock, cut: nat, i: InviteRegisterInput): (r: (Db, Out))
    ensures r.0 == db.(next := r.0.next, accounts := r.0.accounts, entries := r.0.entries) && r.0.next >= db.next
  {
    match LoadUsable(db, at.first, i.invite)
    case Err(e) => (db, Failed(e))
    case Ok(row) =>
      if !i.captchaOk then (db, Failed(CaptchaFailed))
      else if |i.password| < MIN_PASSWORD_LENGTH then (db, Failed(Validation("password")))
      else if row.email in db.accounts.emails then (db, Failed(EmailTaken))
      else if cut == 0 then (db, Failed(Internal))
      else
        match AddUser(db, NewUser(row.email, i.newHash))
        case Err(e) => (db, Failed(e))
        case Ok(db1) =>
          var (db2, out) := Grant(db1, at.second, cut - 1, db.next, i.invite, row.client);
          if out != Done then (db2, out)
          else if cut == 3 then (db2, Failed(Internal))
          else
            (AddVerifyToken(db2, VerifyToken(db.next, None, at.second + EMAIL_VERIFY_TTL, None), row.email),
             Mailed(i.mailOk))
  }

  // ---- credentials ----

  function RequestReset(env: Env, db: Db, at: Clock, cut: nat, email: string, captchaOk: bool, mailOk: bool)
    : (Db, Out)
  {
    var address := env.parseEmail(email);
    if !captchaOk then (db, Failed(CaptchaFailed))
    else if address.None? then (db, Done)
    else
      match db.accounts.ByEmail(address.value)
      case None => (db, Done)
      case Some(id) =>
        if !db.accounts.users[id].CanAuthenticate() then (db, Done)
        else if cut == 0 then (db, Failed(Internal))
        else
          (db.(next := db.next + 1,
               resets := db.resets[db.next := ResetToken(id, at.first + PASSWORD_RESET_TTL, None)]),
           Mailed(mailOk))
  }

  /** Revoke every session, then every refresh token. */
  function RevokeAll(db: Db, at: Time, cut: nat, user: UserId): (r: (Db, Out))
    ensures r.0 == db.(sessions := r.0.sessions, grants := r.0.grants)
    ensures r.0.sessions == db.sessions || r.0.sessions == db.sessions.RevokeAll(user, at)
    ensures r.0.grants == db.grants || r.0.grants == db.grants.RevokeAllRefresh(user, at)
  {
    if cut == 0 then (db, Failed(Internal))
    else
      var db1 := db.(sessions := db.sessions.RevokeAll(user, at));
      if cut == 1 then (db1, Failed(Internal))
      else (db1.(grants := db.grants.RevokeAllRefresh(user, at)), Done)
  }

  /** Set the password, then revoke. */
  function ReplacePassword(db: Db, at: Time, cut: nat, user: UserId, hash: string): (r: (Db, Out))
    ensures r.0 == db.(accounts := r.0.accounts, sessions := r.0.sessions, grants := r.0.grants)
  {
    if cut == 0 then (db, Failed(Internal))
    else
      match db.accounts.UpdatePassword(user, hash)
      case Err(e) => (db, Failed(e))
      case Ok(accounts1) => RevokeAll(db.(accounts := accounts1), at, cut - 1, user)
  }

  function ResetPassword(db: Db, at: Clock, cut: nat, token: Token, password: string, confirm: string,
                         newHash: string): (r: (Db, Out))
    ensures r.0 == db.(accounts := r.0.accounts, sessions := r.0.sessions, grants := r.0.grants, resets := r.0.resets)
  {
    if token == 0 then (db, Failed(InvalidToken))
    else if password != confirm then (db, Failed(Validation("password_confirm")))
    else if |password| < MIN_PASSWORD_LENGTH then (db, Failed(Validation("password")))
    else if cut == 0 then (db, Failed(Internal))
    else
      match ConsumeResetToken(db.resets, token, at.first)
      case Err(e) => (db, Failed(NotFoundAs(e, InvalidToken)))
      case Ok((resets1, row)) => ReplacePassword(db.(resets := resets1), at.first, cut - 1, row.user, newHash)
  }

  datatype ChangeInput = ChangeInput(user: UserId, current: string, password: string, confirm: string, newHash: string)

  function ChangePassword(env: Env, db: Db, at: Clock, cut: nat, i: ChangeInput): (r: (Db, Out))
    ensures r.0 == db.(accounts := r.0.accounts, sessions := r.0.sessions, grants := r.0.grants)
  {
    if i.current == "" then (db, Failed(Validation("current_password")))
    else if i.password != i.confirm then (db, Failed(Validation("new_password_confirm")))
    else if |i.password| < MIN_PASSWORD_LENGTH then (db, Failed(Validation("password")))
    else if i.password == i.current then (db, Failed(Validation("new_password")))
    else if i.user !in db.accounts.users || !db.accounts.users[i.user].CanAuthorize() then (db, Failed(Unauthorized))
    else if !env.verify(db.accounts.users[i.user].hash, i.current) then (db, Failed(InvalidCredentials))
    else ReplacePassword(db, at.first, cut, i.user, i.newHash)
  }

  // ---- administration ----

  function SetStatus(db: Db, at: Clock, cut: nat, actor: Actor, id: UserId, status: Status): (r: (Db, Out))
    ensures r.0 == db.(accounts := r.0.accounts, sessions := r.0.sessions, grants := r.0.grants)
  {
    if !actor.isAdmin then (db, Failed(Forbidden))
    else if actor.id == id && status == Suspended then (db, Failed(Validation("status")))
    else if cut == 0 then (db, Failed(Internal))
    else
      match db.accounts.SetStatus(id, status)
      case Err(e) => (db, Failed(e))
      case Ok(accounts1) =>
        var db1 := db.(accounts := accounts1);
        if status != Suspended then (db1, Done) else RevokeAll(db1, at.first, cut - 1, id)
  }

  function DeleteUser(db: Db, cut: nat, actor: Actor, id: UserId): (Db, Out) {
    if !actor.isAdmin then (db, Failed(Forbidden))
    else if actor.id == id then (db, Failed(Validation("user_id")))
    else if id == 0 then (db, Failed(Validation("user_id")))
    else if id !in db.accounts.users then (db, Failed(NotFound))
    else if db.accounts.users[id].IsAdmin() then (db, Failed(Validation("user_id")))
    else if cut == 0 then (db, Failed(Internal))
    else
      match db.accounts.DeleteUser(id)
      case Err(e) => (db, Failed(e))
      case Ok(accounts1) =>
        (db.(accounts := accounts1, entries := db.entries.DeleteUser(id), sessions := db.sessions.DeleteUser(id),
             grants := db.grants.DeleteUser(id), resets := DeleteUserResets(db.resets, id)),
         Done)
  }

  function RevokeUserSessions(db: Db, at: Clock, cut: nat, actor: Actor, id: UserId): (r: (Db, Out))
    ensures r.0 == db.(sessions := r.0.sessions, grants := r.0.grants)
  {
    if !actor.isAdmin then (db, Failed(Forbidden))
    else if id == 0 then (db, Failed(Validation("user_id")))
    else if id !in db.accounts.users then (db, Failed(NotFound))
    else RevokeAll(db, at.first, cut, id)
  }

  /** `packageOk`: the Android package is empty or well-formed. */
  datatype ClientInput = ClientInput(id: ClientId, name: string, redirects: string, packageOk: bool,
                                     mode: string, auth: string, secretHash: string)

  function CreateClient(env: Env, db: Db, cut: nat, actor: Actor, i: ClientInput): (Db, Out) {
    var uris := RedirectUris.ParseList(env.parseUrl, i.redirects);
    var mode, auth := ParseAccessMode(i.mode), ParseAuthMethod(i.auth);
    if !actor.isAdmin then (db, Failed(Forbidden))
    else if i.id.id == "" || i.name == "" || i.redirects == "" then (db, Failed(Validation("client")))
    else if uris.Err? then (db, Failed(uris.error))
    else if !i.packageOk then (db, Failed(Validation("android_package")))
    else if mode.Err? then (db, Failed(mode.error))
    else if auth.Err? then (db, Failed(auth.error))
    else if i.id in db.clients then (db, Failed(Validation("client_id")))
    else if cut == 0 then (db, Failed(Internal))
    else
      var hash := if auth.value == NoSecret then "" else i.secretHash;
      (db.(clients := UpsertClient(db.clients, i.id, Client(hash, uris.value, mode.value, auth.value))), ClientCreated)
  }

  function SetAccessMode(db: Db, cut: nat, actor: Actor, id: ClientId, raw: string): (Db, Out) {
    if !actor.isAdmin then (db, Failed(Forbidden))
    else
      match ParseAccessMode(raw)
      case Err(e) => (db, Failed(e))
      case Ok(mode) =>
        if cut == 0 then (db, Failed(Internal))
        else
          match UpdateAccessMode(db.clients, id, mode)
          case Err(e) => (db, Failed(e))
          case Ok(clients1) => (db.(clients := clients1), Done)
  }

  function UpdateRedirectURIs(env: Env, db: Db, cut: nat, actor: Actor, id: string, redirects: string,
                              packageOk: bool): (Db, Out) {
    var client := ClientId(RedirectUris.Trim(id));
    var uris := RedirectUris.ParseList(env.parseUrl, redirects);
    if !actor.isAdmin then (db, Failed(Forbidden))
    else if client.id == "" then (db, Failed(Validation("client_id")))
    else if uris.Err? then (db, Failed(uris.error))
    else if !packageOk then (db, Failed(Validation("android_package")))
    else if cut == 0 then (db, Failed(Internal))
    else
      match UpdateRedirects(db.clients, client, uris.value)
      case Err(e) => (db, Failed(Validation("client_id")))
      case Ok(clients1) => (db.(clients := clients1), Done)
  }

  /** Start-up: the configured client is written with access mode public, which a stored mode outlives. */
  function SeedClient(db: Db, cut: nat, id: ClientId, redirect: string, secretHash: string): (Db, Out) {
    if cut == 0 then (db, Failed(Internal))
    else (db.(clients := UpsertClient(db.clients, id, Client(secretHash, [redirect], Public, ClientSecretPost))), Done)
  }
}
