/**
  The use cases as the code runs them: statement by statement on the repositories, returning at the
  first error. Each is proved to take the database, and to answer, exactly as the step function of
  the same name in module UseCases says; the properties of runs are proved about those functions.
 */
module Service {
  import opened Domain
  import opened Tables
  import opened U = UseCases
  import opened Repositories = Database
  import RedirectUris
  import Scopes

  class Service {
    const env: Env
    const db: Database

    constructor (env: Env, db: Database)
      ensures this.env == env && this.db == db
    {
      this.env := env;
      this.db := db;
    }

    // ---- sign-up ----

    method IssueTicket(at: Clock, id: ClientId, secret: string) returns (out: Out)
      requires db.Valid()
      modifies db
      ensures db.Valid() &&
              (db.Snapshot(), out) == U.IssueTicket(env, old(db.Snapshot()), at, old(db.budget), id, secret)
    {
      hide Indexed;
      if !env.registrationOpen { return Failed(RegistrationClosed); }
      if id !in db.clients { return Failed(InvalidClient); }
      var client := db.clients[id];
      if client.IsPublic() { return Failed(InvalidClient); }
      if secret == "" || !env.verify(client.secretHash, secret) { return Failed(InvalidClient); }
      if client.IsInviteOnly() { return Failed(InviteOnlyRegistration); }
      var raw := db.next;
      var created := db.CreateTicket(raw, Ticket(id, at.first + REGISTRATION_TICKET_TTL, None));
      if created.Err? { return Failed(created.error); }
      out := TicketIssued(raw);
    }

    method LinkForPublicClient(at: Clock, id: ClientId) returns (out: Out)
      requires db.Valid()
      modifies db
      ensures db.Valid() &&
              (db.Snapshot(), out) == U.LinkForPublicClient(env, old(db.Snapshot()), at, old(db.budget), id)
    {
      hide Indexed;
      if !env.registrationOpen || id.id == "" { return NoLink; }
      if id !in db.clients || !db.clients[id].IsPublic() || db.clients[id].IsInviteOnly() { return NoLink; }
      var raw := db.next;
      var created := db.CreateTicket(raw, Ticket(id, at.first + REGISTRATION_TICKET_TTL, None));
      if created.Err? { return NoLink; }
      out := TicketIssued(raw);
    }

    method PeekTicket(at: Time, ticket: Token) returns (r: Result<Ticket>)
      requires db.Valid()
      modifies db`tickets
      ensures db.Valid() && db.Snapshot() == old(db.Snapshot())
      ensures r == U.PeekTicket(env, old(db.Snapshot()), at, ticket)
    {
      hide Indexed;
      if !env.registrationOpen { return Err(RegistrationClosed); }
      if ticket == 0 { return Err(InvalidToken); }
      var row := db.LoadTicket(ticket, at, false);
      if row.Err? { return Err(NotFoundAs(row.error, InvalidToken)); }
      if row.value.client !in db.clients { return Err(InvalidToken); }
      if db.clients[row.value.client].IsInviteOnly() { return Err(InviteOnlyRegistration); }
      r := row;
    }

    method Register(at: Clock, i: RegisterInput) returns (out: Out)
      requires db.Valid()
      modifies db
      ensures db.Valid() && (db.Snapshot(), out) == U.Register(env, old(db.Snapshot()), at, old(db.budget), i)
    {
      hide Indexed, U.SignUp, U.PeekTicket;
      if !i.captchaOk { return Failed(CaptchaFailed); }
      var email := env.parseEmail(i.email);
      if email.None? { return Failed(Validation("email")); }
      if |i.password| < MIN_PASSWORD_LENGTH { return Failed(Validation("password")); }
      var ticket := PeekTicket(at.first, i.ticket);
      if ticket.Err? { return Failed(ticket.error); }
      if email.value in db.emails { return Failed(EmailTaken); }
      var consumed := db.ConsumeTicket(i.ticket, at.second);
      if consumed.Err? { return Failed(NotFoundAs(consumed.error, InvalidToken)); }
      out := SignUp(at.second, consumed.value.client, email.value, i.newHash, i.mailOk);
    }

    method SignUp(now: Time, client: ClientId, email: Email, hash: string, mailOk: bool) returns (out: Out)
      requires db.Valid()
      modifies db
      ensures db.Valid() &&
              (db.Snapshot(), out) == U.SignUp(old(db.Snapshot()), now, old(db.budget), client, email, hash, mailOk)
    {
      hide Indexed;
      var user := db.CreateUser(NewUser(email, hash));
      if user.Err? { return Failed(user.error); }
      var accessed := db.UpsertAccess(user.value, client, "", now);
      if accessed.Err? { return Failed(accessed.error); }
      var raw := db.next;
      var created :=
          db.CreateEmailVerificationToken(raw, VerifyToken(user.value, None, now + EMAIL_VERIFY_TTL, None), email);
      if created.Err? { return Failed(created.error); }
      out := Mailed(mailOk);
    }

    method VerifyEmail(at: Clock, token: Token) returns (out: Out)
      requires db.Valid()
      modifies db
      ensures db.Valid() && (db.Snapshot(), out) == U.VerifyEmail(old(db.Snapshot()), at, old(db.budget), token)
    {
      hide Indexed;
      if token == 0 { return Failed(InvalidToken); }
      var row := db.ConsumeEmailVerificationToken(token, at.first);
      if row.Err? { return Failed(NotFoundAs(row.error, InvalidToken)); }
      if row.value.email.Some? {
        var marked := db.MarkVerified(row.value.user, row.value.email.value, at.first);
        if marked.Err? { return Failed(NotFoundAs(marked.error, InvalidToken)); }
        return Done;
      }
      var marked := db.MarkEmailVerified(row.value.user, at.first);
      if marked.Err? { return Failed(marked.error); }
      out := Done;
    }

    // ---- account e-mails ----

    method AddEmail(at: Clock, i: AddInput) returns (out: Out)
      requires db.Valid()
      modifies db
      ensures db.Valid() && (db.Snapshot(), out) == U.AddEmail(env, old(db.Snapshot()), at, old(db.budget), i)
    {
      hide Indexed;
      if i.user == 0 { return Failed(Unauthorized); }
      if !i.captchaOk { return Failed(CaptchaFailed); }
      if i.user !in db.users { return Failed(Unauthorized); }
      var user := db.users[i.user];
      if !user.CanAuthorize() { return Failed(Forbidden); }
      var email := env.parseEmail(i.email);
      if email.None? { return Failed(Validation("email")); }
      if email.value == user.email { return Failed(EmailTaken); }
      var hasSecondary := db.HasSecondary(i.user);
      if hasSecondary { return Failed(EmailLimitReached); }
      if email.value in db.emails { return Failed(EmailTaken); }
      var inserted := db.InsertPendingSecondary(i.user, email.value);
      if inserted.Err? { return Failed(inserted.error); }
      var raw := db.next;
      var row := VerifyToken(i.user, email, at.first + EMAIL_VERIFY_TTL, None);
      var created := db.CreateEmailVerificationToken(raw, row, email.value);
      if created.Err? { return Failed(created.error); }
      out := Mailed(i.mailOk);
    }

    method CancelEmail(user: UserId) returns (out: Out)
      requires db.Valid()
      modifies db
      ensures db.Valid() && (db.Snapshot(), out) == U.CancelEmail(old(db.Snapshot()), old(db.budget), user)
    {
      hide Indexed;
      if user == 0 || user !in db.users { return Failed(Unauthorized); }
      var deleted := db.DeletePendingSecondary(user);
      out := if deleted.Err? then Failed(deleted.error) else Done;
    }

    method DeleteEmail(user: UserId, raw: string) returns (out: Out)
      requires db.Valid()
      modifies db
      ensures db.Valid() && (db.Snapshot(), out) == U.DeleteEmail(env, old(db.Snapshot()), old(db.budget), user, raw)
    {
      hide Indexed;
      if user == 0 || user !in db.users { return Failed(Unauthorized); }
      var email := env.parseEmail(raw);
      if email.None? { return Failed(Validation("email")); }
      var deleted := db.DeleteVerified(user, email.value);
      out := if deleted.Err? then Failed(deleted.error) else Done;
    }

    // ---- sessions ----

    method Login(at: Clock, email: string, password: string, captchaOk: bool) returns (out: Out)
      requires db.Valid()
      modifies db
      ensures db.Valid() &&
              (db.Snapshot(), out) == U.Login(env, old(db.Snapshot()), at, old(db.budget), email, password, captchaOk)
    {
      hide Indexed;
      if !captchaOk { return Failed(CaptchaFailed); }
      var address := env.parseEmail(email);
      if address.None? { return Failed(InvalidCredentials); }
      if password == "" { return Failed(InvalidCredentials); }
      var found := db.ByEmail(address.value);
      if found.None? { return Failed(InvalidCredentials); }
      var (id, user) := found.value;
      if !user.CanAuthenticate() { return Failed(InvalidCredentials); }
      if !env.verify(user.hash, password) { return Failed(InvalidCredentials); }
      if !user.IsEmailVerified() { return Failed(Forbidden); }
      var raw := db.next;
      var expiresAt := at.first + env.sessionTTL;
      var created := db.CreateSession(raw, Session(id, expiresAt, None), user.hash);
      if created.Err? { return Failed(created.error); }
      out := SessionOpened(raw, expiresAt);
    }

    method Logout(at: Clock, session: Token) returns (out: Out)
      requires db.Valid()
      modifies db
      ensures db.Valid() && (db.Snapshot(), out) == U.Logout(old(db.Snapshot()), at, old(db.budget), session)
    {
      hide Indexed;
      if session == 0 { return Done; }
      var revoked := db.RevokeSession(session, at.first);
      out := if revoked.Err? then Failed(revoked.error) else Done;
    }

    method ResolveSession(at: Time, session: Token) returns (r: Option<UserId>)
      ensures r == U.ResolveSession(db.Snapshot(), at, session) && (r.Some? ==> r.value in db.users)
    {
      if session == 0 { return None; }
      var row := db.SessionByToken(session, at);
      if row.None? || row.value.user !in db.users { return None; }
      if !db.users[row.value.user].CanAuthorize() { return None; }
      r := Some(row.value.user);
    }

    // ---- OAuth ----

    method Authorize(at: Clock, i: AuthorizeInput) returns (out: Out)
      requires db.Valid()
      modifies db
      ensures db.Valid() && (db.Snapshot(), out) == U.Authorize(env, old(db.Snapshot()), at, old(db.budget), i)
    {
      hide Indexed, U.ResolveSession, Scopes.IsValidScope, Scopes.ScopeError;
      if i.responseType != "code" { return Failed(InvalidGrant); }
      if !Scopes.IsValidScope(i.scope) { return Failed(Scopes.ScopeError(i.scope)); }
      if i.state == "" { return Failed(Validation("state")); }
      if i.client !in db.clients { return Failed(InvalidClient); }
      var client := db.clients[i.client];
      if !client.AllowsRedirectURI(i.redirect) { return Failed(InvalidRedirectURI); }
      var codeMethod := ParseCodeChallengeMethod(i.challengeMethod);
      if codeMethod.Err? { return Failed(codeMethod.error); }
      var stored := codeMethod.value;
      if client.IsPublic() && i.challenge == "" { return Failed(Validation("code_challenge")); }
      if i.challenge != "" {
        if |i.challenge| < 43 || |i.challenge| > 128 { return Failed(Validation("code_challenge")); }
      } else {
        stored := "";
      }
      var user := ResolveSession(at.first, i.session);
      if user.None? { return Failed(Unauthorized); }
      if client.IsInviteOnly() {
        var has := db.HasAccess(user.value, i.client);
        if !has { return Failed(NoAppAccess); }
      }
      var raw := db.next;
      var code := Code(user.value, i.client, i.redirect, i.scope, NullIfEmpty(i.challenge), NullIfEmpty(stored),
                       at.second + AUTH_CODE_TTL, None);
      assert code == NewCode(user.value, i, at.second);
      var created := db.CreateAuthorizationCode(raw, code);
      if created.Err? { return Failed(created.error); }
      RecordAccess(at.third, user.value, i.client, i.redirect);
      if env.parseUrl(i.redirect).None? { return Failed(InvalidRedirectURI); }
      out := CodeIssued(raw);
    }

    /** The caller ignores a failure. */
    method RecordAccess(at: Time, user: UserId, client: ClientId, redirect: string)
      requires db.Valid() && user in db.users
      modifies db
      ensures db.Valid()
      ensures db.Snapshot() == (if old(db.budget) == 0 then old(db.Snapshot())
                                else U.RecordAccess(env, old(db.Snapshot()), at, user, client, redirect))
    {
      hide Indexed;
      if user == 0 || client.id == "" { return; }
      var _ := db.UpsertAccess(user, client, env.host(redirect), at);
    }

    method AuthenticateClient(id: ClientId, secret: string) returns (ok: bool)
      ensures ok == AuthenticatesClient(env, db.Snapshot(), id, secret)
    {
      if id !in db.clients { return false; }
      var client := db.clients[id];
      if client.IsPublic() { return secret == ""; }
      ok := secret != "" && env.verify(client.secretHash, secret);
    }

    method ExchangeCode(at: Clock, i: ExchangeInput) returns (out: Out)
      requires db.Valid()
      modifies db
      ensures db.Valid() && (db.Snapshot(), out) == U.ExchangeCode(env, old(db.Snapshot()), at, old(db.budget), i)
    {
      hide Indexed, U.IssueTokens;
      var authenticated := AuthenticateClient(i.client, i.secret);
      if !authenticated { return Failed(InvalidClient); }
      var client := db.clients[i.client];
      var code := db.ConsumeAuthorizationCode(i.code, at.first);
      if code.Err? { return Failed(NotFoundAs(code.error, InvalidGrant)); }
      var row := code.value;
      if row.client != i.client || row.redirect != i.redirect { return Failed(InvalidGrant); }
      if Coalesce(row.challenge) != "" {
        if Coalesce(row.challengeMethod) != S256 { return Failed(InvalidGrant); }
        if !VerifyPKCES256(env, Coalesce(row.challenge), i.verifier) { return Failed(InvalidGrant); }
      } else if client.IsPublic() {
        return Failed(InvalidGrant);
      }
      var user := db.ReadUser(row.user);
      if user.None? { return Failed(InvalidGrant); }
      if !user.value.CanAuthorize() { return Failed(InvalidGrant); }
      out := IssueTokens(at.second, row.user, i.client, row.scope, FromCode(i.code));
    }

    method Refresh(at: Clock, token: Token, client: ClientId, secret: string) returns (out: Out)
      requires db.Valid()
      modifies db
      ensures db.Valid() &&
              (db.Snapshot(), out) == U.RefreshGrant(env, old(db.Snapshot()), at, old(db.budget), token, client, secret)
    {
      hide Indexed, U.IssueTokens;
      var authenticated := AuthenticateClient(client, secret);
      if !authenticated { return Failed(InvalidClient); }
      var refresh := db.ConsumeRefreshToken(token, at.first);
      if refresh.Err? { return Failed(NotFoundAs(refresh.error, InvalidGrant)); }
      var row := refresh.value;
      if row.client != client { return Failed(InvalidGrant); }
      var user := db.ReadUser(row.user);
      if user.None? { return Failed(InvalidGrant); }
      if !user.value.CanAuthorize() { return Failed(InvalidGrant); }
      out := IssueTokens(at.second, row.user, client, row.scope, FromRefresh(token));
    }

    /** The issuer's signature, which can fail. */
    method Sign(claims: Claims) returns (r: Result<Claims>)
      modifies db`budget
      ensures (db.Snapshot(), db.budget, r) ==
              Write(old(db.Snapshot()), old(db.budget), Ok((old(db.Snapshot()), claims)))
    {
      if db.budget == 0 { return Err(Internal); }
      db.budget := db.budget - 1;
      r := Ok(claims);
    }

    /** ExchangeToken.Execute with any other grant_type. */
    method OtherGrant(grantType: string) returns (out: Out)
      ensures (db.Snapshot(), out) == U.OtherGrant(db.Snapshot())
    {
      out := Failed(InvalidGrant);
    }

    method IssueTokens(at: Time, user: UserId, client: ClientId, scope: string, ghost origin: Origin) returns (out: Out)
      requires db.Valid() && user in db.users
      modifies db
      ensures db.Valid()
      ensures (db.Snapshot(), out) == U.IssueTokens(old(db.Snapshot()), at, old(db.budget), user, client, scope, origin)
    {
      hide Indexed, Scopes.Includes;
      var u := db.users[user];
      var signed := Sign(Claims(user, client, u.email, u.IsEmailVerified(), u.role, at + ACCESS_TOKEN_TTL));
      if signed.Err? { return Failed(signed.error); }
      var access := signed.value;
      if !Scopes.Includes(scope, Scopes.OFFLINE_ACCESS) { return TokensIssued(access, scope, None); }
      var raw := db.next;
      var created :=
          db.CreateRefreshToken(raw, Domain.Refresh(user, client, scope, at + REFRESH_TOKEN_TTL, None), origin);
      if created.Err? { return Failed(created.error); }
      out := TokensIssued(access, scope, Some(raw));
    }

    // ---- invites ----

    method CreateInvite(at: Clock, actor: Actor, client: ClientId, raw: string) returns (out: Out)
      requires db.Valid()
      modifies db
      ensures db.Valid() &&
              (db.Snapshot(), out) == U.CreateInvite(env, old(db.Snapshot()), at, old(db.budget), actor, client, raw)
    {
      hide Indexed;
      if !actor.isAdmin { return Failed(Forbidden); }
      var email := env.parseEmail(raw);
      if email.None? { return Failed(Validation("email")); }
      if client !in db.clients { return Failed(Validation("client_id")); }
      var id := db.next;
      var created := db.CreateInvite(id, Invite(client, email.value, at.first + INVITE_TTL, None, None));
      if created.Err? { return Failed(created.error); }
      out := InviteIssued(id);
    }

    method RevokeInvite(at: Clock, actor: Actor, invite: Token) returns (out: Out)
      requires db.Valid()
      modifies db
      ensures db.Valid() &&
              (db.Snapshot(), out) == U.RevokeInvite(old(db.Snapshot()), at, old(db.budget), actor, invite)
    {
      hide Indexed;
      if !actor.isAdmin { return Failed(Forbidden); }
      if invite == 0 { return Failed(Validation("invite_id")); }
      var revoked := db.RevokeInvite(invite, at.first);
      out := if revoked.Err? then Failed(revoked.error) else Done;
    }

    method LoadUsable(at: Time, invite: Token) returns (r: Result<Invite>)
      ensures r == U.LoadUsable(db.Snapshot(), at, invite)
    {
      if invite == 0 { return Err(InvalidToken); }
      if invite !in db.invites { return Err(InvalidToken); }
      var row := db.invites[invite];
      if !row.IsUsable(at) { return Err(InvalidToken); }
      if row.client !in db.clients { return Err(NotFound); }
      r := Ok(row);
    }

    method Grant(at: Time, user: UserId, invite: Token, client: ClientId) returns (out: Out)
      requires db.Valid() && user in db.users
      modifies db
      ensures db.Valid() &&
              (db.Snapshot(), out) == U.Grant(old(db.Snapshot()), at, old(db.budget), user, invite, client)
      ensures out == Done ==> old(db.budget) >= 2 && db.budget == old(db.budget) - 2
    {
      hide Indexed;
      var granted := db.UpsertAccess(user, client, "", at);
      if granted.Err? { return Failed(granted.error); }
      var consumed := db.ConsumeInvite(invite, at);
      out := if consumed.Err? then Failed(consumed.error) else Done;
    }

    method AcceptExisting(at: Clock, invite: Token, session: Token) returns (out: Out)
      requires db.Valid()
      modifies db
      ensures db.Valid() &&
              (db.Snapshot(), out) == U.AcceptExisting(old(db.Snapshot()), at, old(db.budget), invite, session)
    {
      hide Indexed, U.Grant, U.LoadUsable;
      var row := LoadUsable(at.first, invite);
      if row.Err? { return Failed(row.error); }
      var user := ResolveSession(at.second, session);
      if user.None? { return Failed(Unauthorized); }
      if db.users[user.value].email != row.value.email { return Failed(Validation("email")); }
      out := Grant(at.third, user.value, invite, row.value.client);
    }

    method RegisterViaInvite(at: Clock, i: InviteRegisterInput) returns (out: Out)
      requires db.Valid()
      modifies db
      ensures db.Valid() && (db.Snapshot(), out) == U.RegisterViaInvite(old(db.Snapshot()), at, old(db.budget), i)
    {
      hide Indexed, U.Grant, U.LoadUsable;
      var row := LoadUsable(at.first, i.invite);
      if row.Err? { return Failed(row.error); }
      if !i.captchaOk { return Failed(CaptchaFailed); }
      if |i.password| < MIN_PASSWORD_LENGTH { return Failed(Validation("password")); }
      if row.value.email in db.emails { return Failed(EmailTaken); }
      var user := db.CreateUser(NewUser(row.value.email, i.newHash));
      if user.Err? { return Failed(user.error); }
      out := Grant(at.second, user.value, i.invite, row.value.client);
      if out != Done { return; }
      var raw := db.next;
      var token := VerifyToken(user.value, None, at.second + EMAIL_VERIFY_TTL, None);
      var created := db.CreateEmailVerificationToken(raw, token, row.value.email);
      if created.Err? { return Failed(created.error); }
      out := Mailed(i.mailOk);
    }

    // ---- credentials ----

    method RequestReset(at: Clock, raw: string, captchaOk: bool, mailOk: bool) returns (out: Out)
      requires db.Valid()
      modifies db
      ensures db.Valid() &&
            (db.Snapshot(), out) == U.RequestReset(env, old(db.Snapshot()), at, old(db.budget), raw, captchaOk, mailOk)
    {
      hide Indexed;
      if !captchaOk { return Failed(CaptchaFailed); }
      var email := env.parseEmail(raw);
      if email.None? { return Done; }
      var found := db.ByEmail(email.value);
      if found.None? { return Done; }
      if !found.value.1.CanAuthenticate() { return Done; }
      var token := db.next;
      var created := db.CreatePasswordResetToken(token, ResetToken(found.value.0, at.first + PASSWORD_RESET_TTL, None));
      if created.Err? { return Failed(created.error); }
      out := Mailed(mailOk);
    }

    method RevokeAll(at: Time, user: UserId) returns (out: Out)
      requires db.Valid()
      modifies db
      ensures db.Valid() && (db.Snapshot(), out) == U.RevokeAll(old(db.Snapshot()), at, old(db.budget), user)
    {
      hide Indexed;
      var ended := db.RevokeAllSessionsForUser(user, at);
      if ended.Err? { return Failed(ended.error); }
      var revoked := db.RevokeAllRefreshTokensForUser(user, at);
      out := if revoked.Err? then Failed(revoked.error) else Done;
    }

    method ReplacePassword(at: Time, user: UserId, hash: string) returns (out: Out)
      requires db.Valid()
      modifies db
      ensures db.Valid() &&
              (db.Snapshot(), out) == U.ReplacePassword(old(db.Snapshot()), at, old(db.budget), user, hash)
    {
      hide Indexed, U.RevokeAll;
      var updated := db.UpdatePassword(user, hash);
      if updated.Err? { return Failed(updated.error); }
      out := RevokeAll(at, user);
    }

    method ResetPassword(at: Clock, token: Token, password: string, confirm: string, newHash: string) returns (out: Out)
      requires db.Valid()
      modifies db
      ensures db.Valid()
      ensures (db.Snapshot(), out) ==
              U.ResetPassword(old(db.Snapshot()), at, old(db.budget), token, password, confirm, newHash)
    {
      hide Indexed, U.ReplacePassword;
      if token == 0 { return Failed(InvalidToken); }
      if password != confirm { return Failed(Validation("password_confirm")); }
      if |password| < MIN_PASSWORD_LENGTH { return Failed(Validation("password")); }
      var row := db.ConsumePasswordResetToken(token, at.first);
      if row.Err? { return Failed(NotFoundAs(row.error, InvalidToken)); }
      out := ReplacePassword(at.first, row.value.user, newHash);
    }

    method ChangePassword(at: Clock, i: ChangeInput) returns (out: Out)
      requires db.Valid()
      modifies db
      ensures db.Valid() && (db.Snapshot(), out) == U.ChangePassword(env, old(db.Snapshot()), at, old(db.budget), i)
    {
      hide Indexed, U.ReplacePassword;
      if i.current == "" { return Failed(Validation("current_password")); }
      if i.password != i.confirm { return Failed(Validation("new_password_confirm")); }
      if |i.password| < MIN_PASSWORD_LENGTH { return Failed(Validation("password")); }
      if i.password == i.current { return Failed(Validation("new_password")); }
      if i.user !in db.users { return Failed(Unauthorized); }
      var user := db.users[i.user];
      if !user.CanAuthorize() { return Failed(Unauthorized); }
      if !env.verify(user.hash, i.current) { return Failed(InvalidCredentials); }
      out := ReplacePassword(at.first, i.user, i.newHash);
    }

    // ---- administration ----

    method SetStatus(at: Clock, actor: Actor, id: UserId, status: Status) returns (out: Out)
      requires db.Valid()
      modifies db
      ensures db.Valid() &&
              (db.Snapshot(), out) == U.SetStatus(old(db.Snapshot()), at, old(db.budget), actor, id, status)
    {
      hide Indexed, U.RevokeAll;
      if !actor.isAdmin { return Failed(Forbidden); }
      if actor.id == id && status == Suspended { return Failed(Validation("status")); }
      var updated := db.SetStatus(id, status);
      if updated.Err? { return Failed(updated.error); }
      if status != Suspended { return Done; }
      out := RevokeAll(at.first, id);
    }

    method DeleteUser(actor: Actor, id: UserId) returns (out: Out)
      requires db.Valid()
      modifies db
      ensures db.Valid() && (db.Snapshot(), out) == U.DeleteUser(old(db.Snapshot()), old(db.budget), actor, id)
    {
      hide Indexed;
      if !actor.isAdmin { return Failed(Forbidden); }
      if actor.id == id { return Failed(Validation("user_id")); }
      if id == 0 { return Failed(Validation("user_id")); }
      if id !in db.users { return Failed(NotFound); }
      if db.users[id].IsAdmin() { return Failed(Validation("user_id")); }
      var deleted := db.DeleteUser(id);
      out := if deleted.Err? then Failed(deleted.error) else Done;
    }

    method RevokeUserSessions(at: Clock, actor: Actor, id: UserId) returns (out: Out)
      requires db.Valid()
      modifies db
      ensures db.Valid() &&
              (db.Snapshot(), out) == U.RevokeUserSessions(old(db.Snapshot()), at, old(db.budget), actor, id)
    {
      hide Indexed, U.RevokeAll;
      if !actor.isAdmin { return Failed(Forbidden); }
      if id == 0 { return Failed(Validation("user_id")); }
      if id !in db.users { return Failed(NotFound); }
      out := RevokeAll(at.first, id);
    }

    method CreateClient(actor: Actor, i: ClientInput) returns (out: Out)
      requires db.Valid()
      modifies db
      ensures db.Valid() && (db.Snapshot(), out) == U.CreateClient(env, old(db.Snapshot()), old(db.budget), actor, i)
    {
      hide Indexed, RedirectUris.ParseList;
      if !actor.isAdmin { return Failed(Forbidden); }
      if i.id.id == "" || i.name == "" || i.redirects == "" { return Failed(Validation("client")); }
      var uris := RedirectUris.ParseRedirectURIList(env.parseUrl, i.redirects);
      if uris.Err? { return Failed(uris.error); }
      if !i.packageOk { return Failed(Validation("android_package")); }
      var mode := ParseAccessMode(i.mode);
      if mode.Err? { return Failed(mode.error); }
      var auth := ParseAuthMethod(i.auth);
      if auth.Err? { return Failed(auth.error); }
      if i.id in db.clients { return Failed(Validation("client_id")); }
      var hash := if auth.value == NoSecret then "" else i.secretHash;
      var written := db.Upsert(i.id, Client(hash, uris.value, mode.value, auth.value));
      out := if written.Err? then Failed(written.error) else ClientCreated;
    }

    method SetAccessMode(actor: Actor, id: ClientId, raw: string) returns (out: Out)
      requires db.Valid()
      modifies db
      ensures db.Valid() && (db.Snapshot(), out) == U.SetAccessMode(old(db.Snapshot()), old(db.budget), actor, id, raw)
    {
      hide Indexed;
      if !actor.isAdmin { return Failed(Forbidden); }
      var mode := ParseAccessMode(raw);
      if mode.Err? { return Failed(mode.error); }
      var updated := db.SetClientMode(id, mode.value);
      out := if updated.Err? then Failed(updated.error) else Done;
    }

    method UpdateRedirectURIs(actor: Actor, raw: string, redirects: string, packageOk: bool) returns (out: Out)
      requires db.Valid()
      modifies db
      ensures db.Valid()
      ensures (db.Snapshot(), out) ==
              U.UpdateRedirectURIs(env, old(db.Snapshot()), old(db.budget), actor, raw, redirects, packageOk)
    {
      hide Indexed, RedirectUris.ParseList, RedirectUris.Trim;
      if !actor.isAdmin { return Failed(Forbidden); }
      var id := ClientId(RedirectUris.Trim(raw));
      if id.id == "" { return Failed(Validation("client_id")); }
      var uris := RedirectUris.ParseRedirectURIList(env.parseUrl, redirects);
      if uris.Err? { return Failed(uris.error); }
      if !packageOk { return Failed(Validation("android_package")); }
      var updated := db.SetClientRedirects(id, uris.value);
      if updated.Err? { return Failed(if updated.error == NotFound then Validation("client_id") else updated.error); }
      out := Done;
    }

    /** Start-up writes the configured client. */
    method SeedClient(id: ClientId, redirect: string, secretHash: string) returns (out: Out)
      requires db.Valid()
      modifies db
      ensures db.Valid() &&
              (db.Snapshot(), out) == U.SeedClient(old(db.Snapshot()), old(db.budget), id, redirect, secretHash)
    {
      hide Indexed;
      var written := db.Upsert(id, Client(secretHash, [redirect], Public, ClientSecretPost));
      out := if written.Err? then Failed(written.error) else Done;
    }
  }
}
