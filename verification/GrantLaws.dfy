/** What one step can do to one authorization code or refresh token. */
module GrantLaws {
  import opened Domain
  import opened Tables
  import opened UseCases
  import opened Machine
  import opened Laws

  /** The step is the authorization that issues this code for this row. */
  predicate Authorizes(env: Env, db: Db, e: Event, c: Token, row: Code) {
    match e.act
    case Grants(DoAuthorize(i)) =>
      && c == db.next && AuthorizeError(db, i).None?
      && ResolveSession(db, e.at.first, i.session) == Some(row.user)
      && row == NewCode(row.user, i, e.at.second)
      && (db.clients[i.client].IsInviteOnly() ==> db.entries.HasAccess(row.user, i.client))
      && Authorize(env, db, e.at, e.cut, i).1 == Redirected(env, i, c) &&
          Authorize(env, db, e.at, e.cut, i).0.next == c + 1
    case _ => false
  }

  predicate Presents(e: Event, c: Token) { e.act.Grants? && e.act.grant.DoExchange? && e.act.grant.exchange.code == c }

  /** A code never changes except to be used once, by the exchange that presents it, before it expires. */
  predicate CodeMoves(env: Env, db: Db, e: Event, b: Db, c: Token) {
    c in b.grants.codes ==>
      var y := b.grants.codes[c];
      if c in db.grants.codes then
        var x := db.grants.codes[c];
        && y == x.(usedAt := y.usedAt)
        && (y.usedAt != x.usedAt ==>
              x.usedAt.None? && y.usedAt == Some(e.at.first) && e.at.first < x.expiresAt && Presents(e, c))
      else Authorizes(env, db, e, c, y)
  }

  /**
    The step exchanges the origin, which is live and has this user, client and scope, for a token of a
    user who may authorize.
   */
  predicate Issues(db: Db, e: Event, t: Token, row: Refresh, origin: Origin) {
    && e.act.Grants? && t == db.next && row.revokedAt.None? && row.expiresAt == e.at.second + REFRESH_TOKEN_TTL
    && row.user in db.accounts.users && db.accounts.users[row.user].CanAuthorize()
    && match origin
       case FromCode(c) =>
         c in db.grants.codes && db.grants.codes[c].usedAt.None? && e.at.first < db.grants.codes[c].expiresAt &&
         db.grants.codes[c].user == row.user && db.grants.codes[c].client == row.client && Presents(e, c)
       case FromRefresh(p) =>
         p in db.grants.refresh && db.grants.refresh[p].revokedAt.None? &&
             e.at.first < db.grants.refresh[p].expiresAt &&
         db.grants.refresh[p].user == row.user && db.grants.refresh[p].client == row.client &&
         e.act.grant.DoRefresh? && e.act.grant.token == p
  }

  predicate RefreshMoves(db: Db, e: Event, b: Db, t: Token) {
    t in b.grants.refresh ==>
      var y := b.grants.refresh[t];
      if t in db.grants.refresh then
        var x := db.grants.refresh[t];
        && y == x.(revokedAt := y.revokedAt)
        && (x.revokedAt.Some? ==> y.revokedAt == x.revokedAt)
        && (t in db.grants.lineage ==> t in b.grants.lineage && b.grants.lineage[t] == db.grants.lineage[t])
      else t in b.grants.lineage && Issues(db, e, t, y, b.grants.lineage[t])
  }

  lemma AuthorizeCodes(env: Env, db: Db, e: Event, i: AuthorizeInput, c: Token)
    requires e.act == Action.Grants(DoAuthorize(i)) && db.next !in db.grants.codes
    ensures CodeMoves(env, db, e, Authorize(env, db, e.at, e.cut, i).0, c)
  {
    hide AuthorizeError, ResolveSession, RecordAccess;
  }

  lemma ExchangeCodes(env: Env, db: Db, e: Event, i: ExchangeInput, c: Token)
    requires e.act == Action.Grants(DoExchange(i))
    ensures CodeMoves(env, db, e, ExchangeCode(env, db, e.at, e.cut, i).0, c)
    ensures db.next !in db.grants.refresh ==> RefreshMoves(db, e, ExchangeCode(env, db, e.at, e.cut, i).0, c)
  {
    hide AuthenticatesClient;
  }

  lemma CredentialGrants(env: Env, db: Db, e: Event, a: CredentialAction, c: Token)
    ensures CodeMoves(env, db, e, CredentialStep(env, db, e.at, e.cut, a).0, c)
    ensures RefreshMoves(db, e, CredentialStep(env, db, e.at, e.cut, a).0, c)
  {
    hide Authorizes, Issues, RevokeAll;
  }

  lemma RefreshGrants(env: Env, db: Db, e: Event, p: Token, client: ClientId, secret: string, t: Token)
    requires e.act == Action.Grants(DoRefresh(p, client, secret)) && db.next !in db.grants.refresh
    ensures CodeMoves(env, db, e, RefreshGrant(env, db, e.at, e.cut, p, client, secret).0, t)
    ensures RefreshMoves(db, e, RefreshGrant(env, db, e.at, e.cut, p, client, secret).0, t)
  {
    hide AuthenticatesClient, Authorizes;
  }

  lemma CodeLaw(env: Env, db: Db, e: Event, c: Token)
    requires Fresh(db)
    ensures CodeMoves(env, db, e, Next(env, db, e).0, c)
  {
    hide Authorizes, MailStep, EntryStep, CredentialStep, ClientStep, Authorize, ExchangeCode, RefreshGrant;
    assert FreshAt(db, db.next);
    match e.act
    case Grants(DoAuthorize(i)) => AuthorizeCodes(env, db, e, i, c);
    case Grants(DoExchange(i)) => ExchangeCodes(env, db, e, i, c);
    case Grants(DoRefresh(p, client, secret)) => RefreshGrants(env, db, e, p, client, secret, c);
    case Credential(a) => CredentialGrants(env, db, e, a, c);
    case _ =>
  }

  lemma AuthorizeLeavesRefresh(env: Env, db: Db, e: Event, i: AuthorizeInput, t: Token)
    ensures RefreshMoves(db, e, Authorize(env, db, e.at, e.cut, i).0, t)
  {
    hide AuthorizeError, ResolveSession, RecordAccess, Issues;
  }

  lemma RefreshLaw(env: Env, db: Db, e: Event, t: Token)
    requires Fresh(db)
    ensures RefreshMoves(db, e, Next(env, db, e).0, t)
  {
    hide Issues, MailStep, EntryStep, CredentialStep, ClientStep, Authorize, ExchangeCode, RefreshGrant;
    assert FreshAt(db, db.next);
    match e.act
    case Grants(DoAuthorize(i)) => AuthorizeLeavesRefresh(env, db, e, i, t);
    case Grants(DoExchange(i)) => ExchangeCodes(env, db, e, i, t);
    case Grants(DoRefresh(p, client, secret)) => RefreshGrants(env, db, e, p, client, secret, t);
    case Credential(a) => CredentialGrants(env, db, e, a, t);
    case _ =>
  }
}
