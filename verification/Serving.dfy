/** Every execution of the imperative service is a run of the state machine, so the theorems about runs hold of it. */
module Serving {
  import opened Domain
  import opened Tables
  import opened UseCases
  import opened Machine
  import opened Database
  import opened Service

  method HandleMail(s: Service, at: Clock, a: MailAction) returns (out: Out)
    requires s.db.Valid()
    modifies s.db
    ensures s.db.Valid() && (s.db.Snapshot(), out) == MailStep(s.env, old(s.db.Snapshot()), at, old(s.db.budget), a)
  {
    hide Indexed, VerifyEmail, AddEmail, CancelEmail, DeleteEmail;
    match a
    case DoVerifyEmail(token) => out := s.VerifyEmail(at, token);
    case DoAddEmail(add) => out := s.AddEmail(at, add);
    case DoCancelEmail(user) => out := s.CancelEmail(user);
    case DoDeleteEmail(user, email) => out := s.DeleteEmail(user, email);
  }

  method HandleEntry(s: Service, at: Clock, a: EntryAction) returns (out: Out)
    requires s.db.Valid()
    modifies s.db
    ensures s.db.Valid() && (s.db.Snapshot(), out) == EntryStep(s.env, old(s.db.Snapshot()), at, old(s.db.budget), a)
  {
    hide Indexed, IssueTicket, LinkForPublicClient, Register, CreateInvite, RevokeInvite, AcceptExisting,
        RegisterViaInvite;
    match a
    case DoIssueTicket(client, secret) => out := s.IssueTicket(at, client, secret);
    case DoLinkForPublicClient(client) => out := s.LinkForPublicClient(at, client);
    case DoRegister(register) => out := s.Register(at, register);
    case DoCreateInvite(actor, client, email) => out := s.CreateInvite(at, actor, client, email);
    case DoRevokeInvite(actor, invite) => out := s.RevokeInvite(at, actor, invite);
    case DoAcceptExisting(invite, session) => out := s.AcceptExisting(at, invite, session);
    case DoRegisterViaInvite(viaInvite) => out := s.RegisterViaInvite(at, viaInvite);
  }

  method HandleGrant(s: Service, at: Clock, a: GrantAction) returns (out: Out)
    requires s.db.Valid()
    modifies s.db
    ensures s.db.Valid() && (s.db.Snapshot(), out) == GrantStep(s.env, old(s.db.Snapshot()), at, old(s.db.budget), a)
  {
    hide Indexed, Authorize, ExchangeCode, RefreshGrant;
    match a
    case DoAuthorize(authorize) => out := s.Authorize(at, authorize);
    case DoExchange(exchange) => out := s.ExchangeCode(at, exchange);
    case DoRefresh(token, client, secret) => out := s.Refresh(at, token, client, secret);
    case DoOtherGrant(grantType) => out := s.OtherGrant(grantType);
  }

  method HandleCredential(s: Service, at: Clock, a: CredentialAction) returns (out: Out)
    requires s.db.Valid()
    modifies s.db
    ensures s.db.Valid() &&
            (s.db.Snapshot(), out) == CredentialStep(s.env, old(s.db.Snapshot()), at, old(s.db.budget), a)
  {
    hide Indexed, Login, Logout, RequestReset, ResetPassword, ChangePassword, SetStatus, RevokeUserSessions, DeleteUser;
    match a
    case DoLogin(email, password, captchaOk) => out := s.Login(at, email, password, captchaOk);
    case DoLogout(session) => out := s.Logout(at, session);
    case DoRequestReset(email, captchaOk, mailOk) => out := s.RequestReset(at, email, captchaOk, mailOk);
    case DoResetPassword(token, password, confirm, newHash) =>
      out := s.ResetPassword(at, token, password, confirm, newHash);
    case DoChangePassword(change) => out := s.ChangePassword(at, change);
    case DoSetStatus(actor, user, status) => out := s.SetStatus(at, actor, user, status);
    case DoRevokeSessions(actor, user) => out := s.RevokeUserSessions(at, actor, user);
    case DoDeleteUser(actor, user) => out := s.DeleteUser(actor, user);
  }

  method HandleClient(s: Service, a: ClientAction) returns (out: Out)
    requires s.db.Valid()
    modifies s.db
    ensures s.db.Valid() && (s.db.Snapshot(), out) == ClientStep(s.env, old(s.db.Snapshot()), old(s.db.budget), a)
  {
    hide Indexed, CreateClient, SetAccessMode, UpdateRedirectURIs, SeedClient;
    match a
    case DoCreateClient(actor, create) => out := s.CreateClient(actor, create);
    case DoSetAccessMode(actor, client, mode) => out := s.SetAccessMode(actor, client, mode);
    case DoUpdateRedirectURIs(actor, name, redirects, packageOk) =>
      out := s.UpdateRedirectURIs(actor, name, redirects, packageOk);
    case DoSeedClient(client, redirect, secretHash) => out := s.SeedClient(client, redirect, secretHash);
  }

  /** One request: the infrastructure lets e.cut operations through. */
  method Handle(s: Service, e: Event) returns (out: Out)
    requires s.db.Valid()
    modifies s.db
    ensures s.db.Valid() && (s.db.Snapshot(), out) == Next(s.env, old(s.db.Snapshot()), e)
  {
    hide Indexed, MailStep, EntryStep, GrantStep, CredentialStep, ClientStep;
    s.db.budget := e.cut;
    match e.act
    case Mail(a) => out := HandleMail(s, e.at, a);
    case Entry(a) => out := HandleEntry(s, e.at, a);
    case Grants(a) => out := HandleGrant(s, e.at, a);
    case Credential(a) => out := HandleCredential(s, e.at, a);
    case Clients(a) => out := HandleClient(s, a);
  }

  /** Serving any requests, one after another, from a fresh database. */
  method Serve(env: Env, es: seq<Event>) returns (db: Database, outs: seq<Out>, ghost ss: seq<Db>)
    requires forall i :: 0 <= i < |es| ==> es[i].at.Ordered()
    requires forall i, j :: 0 <= i < j < |es| ==> es[i].at.third <= es[j].at.first
    ensures IsRun(env, ss, es) && db.Snapshot() == ss[|es|]
    ensures |outs| == |es| && forall i :: 0 <= i < |es| ==> outs[i] == Output(env, ss, es, i)
  {
    hide Indexed, Next;
    db := new Database();
    var service := new Service(env, db);
    outs := [];
    ss := [Empty()];
    for n := 0 to |es|
      invariant fresh(db) && service.db == db && service.env == env && db.Valid()
      invariant |ss| == n + 1 && |outs| == n && ss[0] == Empty() && ss[n] == db.Snapshot()
      invariant forall i :: 0 <= i < n ==> ss[i + 1] == Next(env, ss[i], es[i]).0
      invariant forall i :: 0 <= i < n ==> outs[i] == Next(env, ss[i], es[i]).1
    {
      var out := Handle(service, es[n]);
      outs := outs + [out];
      ss := ss + [db.Snapshot()];
    }
    assert forall i :: 0 <= i < |es| ==> Output(env, ss, es, i) == Next(env, ss[i], es[i]).1;
  }
}
