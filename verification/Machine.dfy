/** The whole service as a state machine: every use case is a step, and runs start from an empty database. */
module Machine {
  import opened Domain
  import opened Tables
  import opened UseCases

  /** Steps on the addresses of an existing account. */
  datatype MailAction =
    | DoVerifyEmail(token: Token)
    | DoAddEmail(add: AddInput)
    | DoCancelEmail(user: UserId)
    | DoDeleteEmail(user: UserId, email: string)

  /** Steps that admit users to applications. */
  datatype EntryAction =
    | DoIssueTicket(client: ClientId, secret: string)
    | DoLinkForPublicClient(client: ClientId)
    | DoRegister(register: RegisterInput)
    | DoCreateInvite(actor: Actor, client: ClientId, email: string)
    | DoRevokeInvite(actor: Actor, invite: Token)
    | DoAcceptExisting(invite: Token, session: Token)
    | DoRegisterViaInvite(viaInvite: InviteRegisterInput)

  /** OAuth steps. */
  datatype GrantAction =
    | DoAuthorize(authorize: AuthorizeInput)
    | DoExchange(exchange: ExchangeInput)
    | DoRefresh(token: Token, client: ClientId, secret: string)
    | DoOtherGrant(grantType: string)

  /** Steps on sessions, passwords and account status. */
  datatype CredentialAction =
    | DoLogin(email: string, password: string, captchaOk: bool)
    | DoLogout(session: Token)
    | DoRequestReset(email: string, captchaOk: bool, mailOk: bool)
    | DoResetPassword(token: Token, password: string, confirm: string, newHash: string)
    | DoChangePassword(change: ChangeInput)
    | DoSetStatus(actor: Actor, user: UserId, status: Status)
    | DoRevokeSessions(actor: Actor, user: UserId)
    | DoDeleteUser(actor: Actor, user: UserId)

  /** Steps on the client registry. */
  datatype ClientAction =
    | DoCreateClient(actor: Actor, create: ClientInput)
    | DoSetAccessMode(actor: Actor, client: ClientId, mode: string)
    | DoUpdateRedirectURIs(actor: Actor, name: string, redirects: string, packageOk: bool)
    | DoSeedClient(client: ClientId, redirect: string, secretHash: string)

  datatype Action =
    | Mail(mail: MailAction)
    | Entry(entry: EntryAction)
    | Grants(grant: GrantAction)
    | Credential(credential: CredentialAction)
    | Clients(change: ClientAction)

  datatype Event = Event(at: Clock, cut: nat, act: Action)

  ghost function MailStep(env: Env, db: Db, at: Clock, cut: nat, a: MailAction): (r: (Db, Out))
    ensures r.0 == db.(next := r.0.next, accounts := r.0.accounts) && r.0.next >= db.next
  {
    match a
    case DoVerifyEmail(token) => VerifyEmail(db, at, cut, token)
    case DoAddEmail(add) => AddEmail(env, db, at, cut, add)
    case DoCancelEmail(user) => CancelEmail(db, cut, user)
    case DoDeleteEmail(user, email) => DeleteEmail(env, db, cut, user, email)
  }

  function EntryStep(env: Env, db: Db, at: Clock, cut: nat, a: EntryAction): (r: (Db, Out))
    ensures r.0 == db.(next := r.0.next, accounts := r.0.accounts, entries := r.0.entries) && r.0.next >= db.next
  {
    match a
    case DoIssueTicket(client, secret) => IssueTicket(env, db, at, cut, client, secret)
    case DoLinkForPublicClient(client) => LinkForPublicClient(env, db, at, cut, client)
    case DoRegister(register) => Register(env, db, at, cut, register)
    case DoCreateInvite(actor, client, email) => CreateInvite(env, db, at, cut, actor, client, email)
    case DoRevokeInvite(actor, invite) => RevokeInvite(db, at, cut, actor, invite)
    case DoAcceptExisting(invite, session) => AcceptExisting(db, at, cut, invite, session)
    case DoRegisterViaInvite(viaInvite) => RegisterViaInvite(db, at, cut, viaInvite)
  }

  function GrantStep(env: Env, db: Db, at: Clock, cut: nat, a: GrantAction): (r: (Db, Out))
    ensures r.0 == db.(next := r.0.next, grants := r.0.grants, entries := r.0.entries) && r.0.next >= db.next
  {
    match a
    case DoAuthorize(authorize) => Authorize(env, db, at, cut, authorize)
    case DoExchange(exchange) => ExchangeCode(env, db, at, cut, exchange)
    case DoRefresh(token, client, secret) => RefreshGrant(env, db, at, cut, token, client, secret)
    case DoOtherGrant(_) => OtherGrant(db)
  }

  function CredentialStep(env: Env, db: Db, at: Clock, cut: nat, a: CredentialAction): (r: (Db, Out))
    ensures r.0.clients == db.clients && r.0.next >= db.next
  {
    match a
    case DoLogin(email, password, captchaOk) => Login(env, db, at, cut, email, password, captchaOk)
    case DoLogout(session) => Logout(db, at, cut, session)
    case DoRequestReset(email, captchaOk, mailOk) => RequestReset(env, db, at, cut, email, captchaOk, mailOk)
    case DoResetPassword(token, password, confirm, newHash) =>
      ResetPassword(db, at, cut, token, password, confirm, newHash)
    case DoChangePassword(change) => ChangePassword(env, db, at, cut, change)
    case DoSetStatus(actor, user, status) => SetStatus(db, at, cut, actor, user, status)
    case DoRevokeSessions(actor, user) => RevokeUserSessions(db, at, cut, actor, user)
    case DoDeleteUser(actor, user) => DeleteUser(db, cut, actor, user)
  }

  function ClientStep(env: Env, db: Db, cut: nat, a: ClientAction): (r: (Db, Out))
    ensures r.0 == db.(clients := r.0.clients)
  {
    match a
    case DoCreateClient(actor, create) => CreateClient(env, db, cut, actor, create)
    case DoSetAccessMode(actor, client, mode) => SetAccessMode(db, cut, actor, client, mode)
    case DoUpdateRedirectURIs(actor, name, redirects, packageOk) =>
      UpdateRedirectURIs(env, db, cut, actor, name, redirects, packageOk)
    case DoSeedClient(client, redirect, secretHash) => SeedClient(db, cut, client, redirect, secretHash)
  }

  ghost function Next(env: Env, db: Db, e: Event): (Db, Out) {
    match e.act
    case Mail(a) => MailStep(env, db, e.at, e.cut, a)
    case Entry(a) => EntryStep(env, db, e.at, e.cut, a)
    case Grants(a) => GrantStep(env, db, e.at, e.cut, a)
    case Credential(a) => CredentialStep(env, db, e.at, e.cut, a)
    case Clients(a) => ClientStep(env, db, e.cut, a)
  }

  /** ss[i] is the state before event i; the clock never runs backwards. */
  ghost predicate IsRun(env: Env, ss: seq<Db>, es: seq<Event>) {
    && |ss| == |es| + 1
    && ss[0] == Empty()
    && (forall i :: 0 <= i < |es| ==> ss[i + 1] == Next(env, ss[i], es[i]).0)
    && (forall i :: 0 <= i < |es| ==> es[i].at.Ordered())
    && (forall i, j :: 0 <= i < j < |es| ==> es[i].at.third <= es[j].at.first)
  }

  /** What event i answered. */
  ghost function Output(env: Env, ss: seq<Db>, es: seq<Event>, i: nat): Out
    requires i < |es| <= |ss|
  {
    Next(env, ss[i], es[i]).1
  }
}
