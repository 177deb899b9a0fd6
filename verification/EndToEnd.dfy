/**
  The service does its job: sign-up by ticket, verification, login, authorization and code exchange
  succeed in sequence.
 */
module EndToEnd {
  import opened Domain
  import opened Tables
  import opened UseCases
  import opened AccountEmails
  import opened AccountRuns
  import opened Laws
  import Scopes

  /** What a newcomer and the application bring. */
  datatype Visit = Visit(client: ClientId, secret: string, address: string, password: string, hash: string,
                         redirect: string, scope: string, state: string, challenge: string, verifier: string)

  /** A confidential application open to the public, an address nobody has, and well-formed input. */
  ghost predicate IsReady(env: Env, db: Db, v: Visit) {
    && Agrees(db) && Fresh(db) && env.registrationOpen
    && v.client in db.clients && !db.clients[v.client].IsPublic() && !db.clients[v.client].IsInviteOnly()
    && v.secret != "" && env.verify(db.clients[v.client].secretHash, v.secret) &&
        v.redirect in db.clients[v.client].redirects
    && env.parseEmail(v.address).Some? && env.parseEmail(v.address).value !in db.accounts.emails
    && |v.password| >= MIN_PASSWORD_LENGTH && env.verify(v.hash, v.password)
    && Scopes.IsValidScope(v.scope) && v.state != "" && env.parseUrl(v.redirect).Some?
    && 43 <= |v.challenge| <= 128 && 43 <= |v.verifier| <= 128 && env.s256(v.verifier) == v.challenge
  }

  function Request(v: Visit, ticket: Token): RegisterInput {
    RegisterInput(v.address, v.password, v.hash, true, ticket, true)
  }

  lemma TicketStep(env: Env, db: Db, at: Clock, v: Visit)
    requires IsReady(env, db, v)
    ensures IssueTicket(env, db, at, 1, v.client, v.secret) ==
            (AddTicket(db, Ticket(v.client, at.first + REGISTRATION_TICKET_TTL, None)), TicketIssued(db.next))
  {
    hide Agreement, Fresh;
  }

  lemma AddressIsFree(a: Accounts, next: Token, e: Email, u: UserId)
    requires Agreement(a, next) && e !in a.emails && u in a.users
    ensures a.users[u].email != e
  {
    assert UserFits(a, next, u);
  }

  /** The database after the sign-up of user `next`, with its verification token. */
  lemma RegisterStep(env: Env, db: Db, at: Clock, v: Visit, ticket: Token)
    requires IsReady(env, db, v) && at.Ordered() && 0 < ticket && ticket in db.entries.tickets
    requires db.entries.tickets[ticket].IsLive(at.second) && db.entries.tickets[ticket].client == v.client
    ensures var r := Register(env, db, at, 4, Request(v, ticket));
            var e := env.parseEmail(v.address).value;
            var u := db.next;
            r.1 == Done && r.0.next == u + 2 && r.0.clients == db.clients && r.0.grants == db.grants &&
            r.0.sessions == db.sessions &&
            r.0.accounts == db.accounts.(users := db.accounts.users[u := NewUser(e, v.hash)],
                                         emails := db.accounts.emails[e := EmailRow(u, Primary, None)])
                              .CreateVerifyToken(u + 1, VerifyToken(u, None, at.second + EMAIL_VERIFY_TTL, None), e)
  {
    hide Agreement, Fresh;
    var e := env.parseEmail(v.address).value;
    forall u | u in db.accounts.users
      ensures db.accounts.users[u].email != e
    {
      AddressIsFree(db.accounts, db.next, e, u);
    }
  }

  lemma VerifyStep(db: Db, at: Clock, t: Token, u: UserId, e: Email)
    requires 0 < t && t in db.accounts.verifs && u in db.accounts.users && e in db.accounts.emails
    requires var row := db.accounts.verifs[t];
             (row.user == u && row.email.None? && row.usedAt.None? && at.first < row.expiresAt)
    requires db.accounts.emails[e] == EmailRow(u, Primary, None)
    ensures var r := VerifyEmail(db, at, 2, t);
            r.1 == Done && r.0 == db.(accounts := r.0.accounts) && u in r.0.accounts.users &&
                e in r.0.accounts.emails &&
            r.0.accounts.users[u] == db.accounts.users[u].(status := Active, verifiedAt := Some(at.first)) &&
            r.0.accounts.emails[e] == EmailRow(u, Primary, Some(at.first))
  {
  }

  /** e is the verified address of the active user u, whose hash is v's. */
  predicate IsMember(env: Env, db: Db, v: Visit, u: UserId) {
    && env.parseEmail(v.address).Some? && env.parseEmail(v.address).value in db.accounts.emails
    && db.accounts.emails[env.parseEmail(v.address).value].user == u
    && db.accounts.emails[env.parseEmail(v.address).value].verifiedAt.Some?
    && u in db.accounts.users && db.accounts.users[u].CanAuthorize() && db.accounts.users[u].hash == v.hash
    && env.verify(v.hash, v.password) && v.password != ""
  }

  lemma LoginStep(env: Env, db: Db, at: Clock, v: Visit, u: UserId)
    requires IsMember(env, db, v, u)
    ensures var r := Login(env, db, at, 1, v.address, v.password, true);
            r.1 == SessionOpened(db.next, at.first + env.sessionTTL) &&
            r.0 == db.(next := db.next + 1,
                       sessions := db.sessions.Create(db.next, Session(u, at.first + env.sessionTTL, None), v.hash))
  {
  }

  function AuthorizeRequest(v: Visit, session: Token): AuthorizeInput {
    AuthorizeInput(v.client, v.redirect, "code", v.scope, v.state, session, v.challenge, S256)
  }

  predicate IsOpenTo(db: Db, v: Visit) {
    && v.client in db.clients && !db.clients[v.client].IsPublic() && !db.clients[v.client].IsInviteOnly()
    && v.redirect in db.clients[v.client].redirects && Scopes.IsValidScope(v.scope) && v.state != "" &&
        43 <= |v.challenge| <= 128
  }

  lemma AuthorizeStep(env: Env, db: Db, at: Clock, v: Visit, u: UserId, session: Token)
    requires IsOpenTo(db, v) && env.parseUrl(v.redirect).Some? && u in db.accounts.users &&
             db.accounts.users[u].CanAuthorize()
    requires 0 < session && session in db.sessions.rows && db.sessions.rows[session].user == u
    requires db.sessions.rows[session].revokedAt.None? && at.first < db.sessions.rows[session].expiresAt
    ensures var r := Authorize(env, db, at, 2, AuthorizeRequest(v, session));
            r.1 == CodeIssued(db.next) && r.0.accounts == db.accounts && r.0.clients == db.clients &&
            r.0.grants == db.grants.CreateCode(db.next, NewCode(u, AuthorizeRequest(v, session), at.second))
  {
    hide Scopes.IsValidScope, Scopes.ScopeError;
  }

  function ExchangeRequest(v: Visit, code: Token): ExchangeInput {
    ExchangeInput(code, v.redirect, v.client, v.secret, v.verifier)
  }

  lemma ExchangeStep(env: Env, db: Db, at: Clock, v: Visit, u: UserId, session: Token, code: Token, issued: Time)
    requires u in db.accounts.users && db.accounts.users[u].CanAuthorize() && code in db.grants.codes
    requires db.grants.codes[code] == NewCode(u, AuthorizeRequest(v, session), issued) &&
             at.first < issued + AUTH_CODE_TTL
    requires AuthenticatesClient(env, db, v.client, v.secret) && v.challenge != "" &&
             VerifyPKCES256(env, v.challenge, v.verifier)
    ensures var r := ExchangeCode(env, db, at, 4, ExchangeRequest(v, code)); var user := db.accounts.users[u];
            r.1.TokensIssued? && r.1.scope == v.scope &&
            r.1.access == Claims(u, v.client, user.email, true, user.role, at.second + ACCESS_TOKEN_TTL) &&
            (r.1.refresh.Some? <==> Scopes.Includes(v.scope, Scopes.OFFLINE_ACCESS))
  {
    hide AuthenticatesClient, VerifyPKCES256, Scopes.Includes;
  }

  /** The databases after the first k requests of the visit, which start at `db`. */
  function AfterTicket(env: Env, db: Db, at: seq<Clock>, v: Visit): Db
    requires |at| == 6
  {
    IssueTicket(env, db, at[0], 1, v.client, v.secret).0
  }

  function AfterRegister(env: Env, db: Db, at: seq<Clock>, v: Visit): Db
    requires |at| == 6
  {
    Register(env, AfterTicket(env, db, at, v), at[1], 4, Request(v, db.next)).0
  }

  function AfterVerify(env: Env, db: Db, at: seq<Clock>, v: Visit): Db
    requires |at| == 6
  {
    VerifyEmail(AfterRegister(env, db, at, v), at[2], 2, db.next + 2).0
  }

  function AfterLogin(env: Env, db: Db, at: seq<Clock>, v: Visit): Db
    requires |at| == 6
  {
    Login(env, AfterVerify(env, db, at, v), at[3], 1, v.address, v.password, true).0
  }

  function AfterAuthorize(env: Env, db: Db, at: seq<Clock>, v: Visit): Db
    requires |at| == 6
  {
    Authorize(env, AfterLogin(env, db, at, v), at[4], 2, AuthorizeRequest(v, db.next + 3)).0
  }

  predicate InTime(env: Env, at: seq<Clock>) {
    && |at| == 6 && (forall k :: 0 <= k < 6 ==> at[k].Ordered())
    && at[1].second < at[0].first + REGISTRATION_TICKET_TTL
    && at[2].first < at[1].second + EMAIL_VERIFY_TTL
    && at[4].first < at[3].first + env.sessionTTL
    && at[5].first < at[4].second + AUTH_CODE_TTL
  }

  lemma SignedUp(env: Env, db: Db, at: seq<Clock>, v: Visit)
    requires IsReady(env, db, v) && InTime(env, at)
    ensures var b := AfterVerify(env, db, at, v); var u := db.next + 1;
            IsMember(env, b, v, u) && b.next == db.next + 3 && b.clients == db.clients &&
            b.accounts.users[u].email == env.parseEmail(v.address).value && b.accounts.users[u].role == RoleUser
  {
    hide Agreement, Fresh, IssueTicket, Register, VerifyEmail, Scopes.IsValidScope;
    TicketStep(env, db, at[0], v);
    var db1 := AfterTicket(env, db, at, v);
    TicketKeepsReady(env, db, at[0], v);
    RegisterStep(env, db1, at[1], v, db.next);
    VerifyStep(AfterRegister(env, db, at, v), at[2], db.next + 2, db.next + 1, env.parseEmail(v.address).value);
  }

  lemma TicketKeepsReady(env: Env, db: Db, at: Clock, v: Visit)
    requires IsReady(env, db, v)
    ensures db.next > 0 && IsReady(env, AddTicket(db, Ticket(v.client, at.first + REGISTRATION_TICKET_TTL, None)), v)
  {
    var b := AddTicket(db, Ticket(v.client, at.first + REGISTRATION_TICKET_TTL, None));
    LaterIdsKeep(db.accounts, db.next, b.next);
    forall k ensures FreshAt(b, k) { assert FreshAt(db, k); }
  }

  /** Every answer is the successful one, and the access token names the newcomer and the new, verified address. */
  lemma NewcomerGetsTokens(env: Env, db: Db, at: seq<Clock>, v: Visit)
    requires IsReady(env, db, v) && InTime(env, at)
    ensures IssueTicket(env, db, at[0], 1, v.client, v.secret).1 == TicketIssued(db.next)
    ensures Register(env, AfterTicket(env, db, at, v), at[1], 4, Request(v, db.next)).1 == Done
    ensures VerifyEmail(AfterRegister(env, db, at, v), at[2], 2, db.next + 2).1 == Done
    ensures Login(env, AfterVerify(env, db, at, v), at[3], 1, v.address, v.password, true).1 ==
            SessionOpened(db.next + 3, at[3].first + env.sessionTTL)
    ensures Authorize(env, AfterLogin(env, db, at, v), at[4], 2, AuthorizeRequest(v, db.next + 3)).1 ==
            CodeIssued(db.next + 4)
    ensures var out := ExchangeCode(env, AfterAuthorize(env, db, at, v), at[5], 4, ExchangeRequest(v, db.next + 4)).1;
            out.TokensIssued? && out.scope == v.scope &&
            out.access == Claims(db.next + 1, v.client, env.parseEmail(v.address).value, true, RoleUser,
                                 at[5].second + ACCESS_TOKEN_TTL) &&
            (out.refresh.Some? <==> Scopes.Includes(v.scope, Scopes.OFFLINE_ACCESS))
  {
    hide Agreement, Fresh, IssueTicket, Register, VerifyEmail, Login, Authorize, ExchangeCode, Scopes.IsValidScope,
        Scopes.Includes;
    TicketStep(env, db, at[0], v);
    TicketKeepsReady(env, db, at[0], v);
    RegisterStep(env, AfterTicket(env, db, at, v), at[1], v, db.next);
    VerifyStep(AfterRegister(env, db, at, v), at[2], db.next + 2, db.next + 1, env.parseEmail(v.address).value);
    SignedUp(env, db, at, v);
    LoginStep(env, AfterVerify(env, db, at, v), at[3], v, db.next + 1);
    AuthorizeStep(env, AfterLogin(env, db, at, v), at[4], v, db.next + 1, db.next + 3);
    ExchangeStep(env, AfterAuthorize(env, db, at, v), at[5], v, db.next + 1, db.next + 3, db.next + 4, at[4].second);
  }
}
