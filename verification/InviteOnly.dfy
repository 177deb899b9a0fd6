/** For an invite-only application, everything a user holds goes back to an invite addressed to that user. */
module InviteOnly {
  import opened Domain
  import opened Tables
  import opened UseCases
  import opened Machine
  import opened Laws
  import opened GrantLaws
  import opened GrantChains

  /** From db to b the step admits u to client through an invite that was usable when loaded and addressed to u. */
  predicate Admits(db: Db, e: Event, b: Db, u: UserId, client: ClientId) {
    match e.act
    case Entry(DoAcceptExisting(invite, session)) =>
      && IsInvited(db, e.at.first, invite, client)
      && ResolveSession(db, e.at.second, session) == Some(u)
      && u in db.accounts.users && db.accounts.users[u].email == db.entries.invites[invite].email
    case Entry(DoRegisterViaInvite(i)) =>
      && IsInvited(db, e.at.first, i.invite, client)
      && u == db.next && u in b.accounts.users && b.accounts.users[u].email == db.entries.invites[i.invite].email
    case _ => false
  }

  predicate IsInvited(db: Db, at: Time, invite: Token, client: ClientId) {
    invite in db.entries.invites && db.entries.invites[invite].client == client &&
        db.entries.invites[invite].IsUsable(at)
  }

  predicate IsRestricted(db: Db, client: ClientId) { client in db.clients ==> db.clients[client].IsInviteOnly() }

  predicate HasAccess(db: Db, u: UserId, client: ClientId) { (u, client) in db.entries.accesses }

  lemma SignUpAccess(db: Db, now: Time, cut: nat, ticketFor: ClientId, email: Email, hash: string, mailOk: bool,
                     u: UserId, client: ClientId)
    requires client != ticketFor && HasAccess(SignUp(db, now, cut, ticketFor, email, hash, mailOk).0, u, client)
    ensures HasAccess(db, u, client)
  {
  }

  lemma RegisterAccess(env: Env, db: Db, e: Event, i: RegisterInput, u: UserId, client: ClientId)
    requires IsRestricted(db, client) && HasAccess(Register(env, db, e.at, e.cut, i).0, u, client)
    ensures HasAccess(db, u, client)
  {
    hide SignUp;
    var consumed := db.entries.ConsumeTicket(i.ticket, e.at.second);
    if e.cut > 0 && consumed.Ok? && env.parseEmail(i.email).Some? && PeekTicket(env, db, e.at.first, i.ticket).Ok? {
      var db1 := db.(entries := consumed.value.0);
      if HasAccess(SignUp(db1, e.at.second, e.cut - 1, consumed.value.1.client, env.parseEmail(i.email).value,
                          i.newHash, i.mailOk).0, u, client) {
        SignUpAccess(db1, e.at.second, e.cut - 1, consumed.value.1.client, env.parseEmail(i.email).value, i.newHash,
                     i.mailOk, u, client);
      }
    }
  }

  lemma GrantAccess(db: Db, at: Time, cut: nat, user: UserId, invite: Token, grantFor: ClientId, u: UserId,
                    client: ClientId)
    requires HasAccess(Grant(db, at, cut, user, invite, grantFor).0, u, client)
    ensures HasAccess(db, u, client) || (u == user && client == grantFor)
  {
  }

  lemma AcceptAccess(db: Db, e: Event, invite: Token, session: Token, u: UserId, client: ClientId)
    requires e.act == Entry(DoAcceptExisting(invite, session))
    requires HasAccess(AcceptExisting(db, e.at, e.cut, invite, session).0, u, client) && !HasAccess(db, u, client)
    ensures Admits(db, e, AcceptExisting(db, e.at, e.cut, invite, session).0, u, client)
  {
    hide Grant;
    var row := db.entries.invites[invite];
    GrantAccess(db, e.at.third, e.cut, ResolveSession(db, e.at.second, session).value, invite, row.client, u, client);
  }

  lemma ViaInviteAccess(db: Db, e: Event, i: InviteRegisterInput, u: UserId, client: ClientId)
    requires e.act == Entry(DoRegisterViaInvite(i))
    requires HasAccess(RegisterViaInvite(db, e.at, e.cut, i).0, u, client) && !HasAccess(db, u, client)
    ensures Admits(db, e, RegisterViaInvite(db, e.at, e.cut, i).0, u, client)
  {
    hide Grant;
    var row := db.entries.invites[i.invite];
    var db1 := AddUser(db, NewUser(row.email, i.newHash)).value;
    GrantAccess(db1, e.at.second, e.cut - 1, db.next, i.invite, row.client, u, client);
  }

  lemma AuthorizeAccess(env: Env, db: Db, e: Event, i: AuthorizeInput, u: UserId, client: ClientId)
    requires IsRestricted(db, client) && HasAccess(Authorize(env, db, e.at, e.cut, i).0, u, client)
    ensures HasAccess(db, u, client)
  {
    hide ResolveSession;
  }

  /** No ticket and no authorization creates an access to a restricted client: only an invite does. */
  lemma AccessLaw(env: Env, db: Db, e: Event, u: UserId, client: ClientId)
    requires IsRestricted(db, client) && HasAccess(Next(env, db, e).0, u, client) && !HasAccess(db, u, client)
    ensures Admits(db, e, Next(env, db, e).0, u, client)
  {
    hide Register, AcceptExisting, RegisterViaInvite, Authorize, ExchangeCode, RefreshGrant, MailStep, ClientStep,
        Admits;
    match e.act
    case Entry(DoRegister(i)) => RegisterAccess(env, db, e, i, u, client);
    case Entry(DoAcceptExisting(invite, session)) => AcceptAccess(db, e, invite, session, u, client);
    case Entry(DoRegisterViaInvite(i)) => ViaInviteAccess(db, e, i, u, client);
    case Grants(DoAuthorize(i)) => AuthorizeAccess(env, db, e, i, u, client);
    case _ =>
  }

  // ---- runs ----

  ghost predicate AlwaysRestricted(ss: seq<Db>, n: nat, client: ClientId)
    requires n < |ss|
  {
    forall i :: 0 <= i <= n ==> IsRestricted(ss[i], client)
  }

  ghost predicate Invited(ss: seq<Db>, es: seq<Event>, n: nat, u: UserId, client: ClientId)
    requires n < |ss| == |es| + 1
  {
    exists k :: 0 <= k < n && Admits(ss[k], es[k], ss[k + 1], u, client)
  }

  /** Every access to the application goes back to an invite. */
  lemma {:induction false} AccessNeedsInvite(env: Env, ss: seq<Db>, es: seq<Event>, n: nat, u: UserId, client: ClientId)
    requires IsRun(env, ss, es) && n < |ss| && AlwaysRestricted(ss, n, client) && HasAccess(ss[n], u, client)
    ensures Invited(ss, es, n, u, client)
  {
    hide Next, Admits;
    if n > 0 {
      assert IsRestricted(ss[n - 1], client);
      if HasAccess(ss[n - 1], u, client) {
        AccessNeedsInvite(env, ss, es, n - 1, u, client);
      } else {
        AccessLaw(env, ss[n - 1], es[n - 1], u, client);
      }
    }
  }

  lemma AuthorizesHasAccess(env: Env, db: Db, e: Event, c: Token, row: Code)
    requires Authorizes(env, db, e, c, row) && IsRestricted(db, row.client)
    ensures HasAccess(db, row.user, row.client)
  {
  }

  /** So does every authorization code. */
  lemma {:induction false} CodeNeedsInvite(env: Env, ss: seq<Db>, es: seq<Event>, n: nat, c: Token, client: ClientId)
    requires IsRun(env, ss, es) && n < |ss| && AlwaysRestricted(ss, n, client)
    requires c in ss[n].grants.codes && ss[n].grants.codes[c].client == client
    ensures Invited(ss, es, n, ss[n].grants.codes[c].user, client)
  {
    hide Next, Admits, Authorizes;
    if n > 0 {
      FreshAlways(env, ss, es, n - 1);
      CodeLaw(env, ss[n - 1], es[n - 1], c);
      assert IsRestricted(ss[n - 1], client);
      if c in ss[n - 1].grants.codes {
        CodeNeedsInvite(env, ss, es, n - 1, c, client);
      } else {
        AuthorizesHasAccess(env, ss[n - 1], es[n - 1], c, ss[n].grants.codes[c]);
        AccessNeedsInvite(env, ss, es, n - 1, ss[n].grants.codes[c].user, client);
      }
    }
  }

  /** So does every refresh token. */
  lemma {:induction false} RefreshNeedsInvite(env: Env, ss: seq<Db>, es: seq<Event>, n: nat, t: Token, client: ClientId)
    requires IsRun(env, ss, es) && n < |ss| && AlwaysRestricted(ss, n, client)
    requires t in ss[n].grants.refresh && ss[n].grants.refresh[t].client == client
    ensures Invited(ss, es, n, ss[n].grants.refresh[t].user, client)
    decreases t
  {
    hide Next, Admits;
    LinearAlways(env, ss, es, n);
    assert RefreshFits(ss[n].grants, t);
    match ss[n].grants.lineage[t]
    case FromCode(c) => CodeNeedsInvite(env, ss, es, n, c, client);
    case FromRefresh(p) => RefreshNeedsInvite(env, ss, es, n, p, client);
  }

  lemma TokensComeFromARow(env: Env, db: Db, at: Clock, cut: nat, a: GrantAction)
    requires GrantStep(env, db, at, cut, a).1.TokensIssued?
    ensures var access := GrantStep(env, db, at, cut, a).1.access; var g := db.grants;
            match a
            case DoExchange(x) => x.code in g.codes && g.codes[x.code].user == access.sub &&
                g.codes[x.code].client == access.aud
            case DoRefresh(t, _, _) => t in g.refresh && g.refresh[t].user == access.sub &&
                g.refresh[t].client == access.aud
            case _ => false
  {
    hide AuthenticatesClient;
  }

  /** And every access token. */
  lemma AccessTokenNeedsInvite(env: Env, ss: seq<Db>, es: seq<Event>, n: nat, a: GrantAction, client: ClientId)
    requires IsRun(env, ss, es) && n < |es| && AlwaysRestricted(ss, n, client) && es[n].act == Action.Grants(a)
    requires Output(env, ss, es, n).TokensIssued? && Output(env, ss, es, n).access.aud == client
    ensures Invited(ss, es, n, Output(env, ss, es, n).access.sub, client)
  {
    hide Admits, GrantStep;
    TokensComeFromARow(env, ss[n], es[n].at, es[n].cut, a);
    match a
    case DoExchange(x) => CodeNeedsInvite(env, ss, es, n, x.code, client);
    case DoRefresh(t, _, _) => RefreshNeedsInvite(env, ss, es, n, t, client);
    case _ =>
  }
}
