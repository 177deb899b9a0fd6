/** Exactly which codes and refresh tokens are good in a state, in terms of the run that led to it. */
module GrantHistory {
  import opened Domain
  import opened Tables
  import opened UseCases
  import opened Machine
  import opened Laws
  import opened References
  import opened GrantLaws
  import opened Exchanges
  import opened GrantChains
  import opened Authorizations
  import opened SessionHistory
  import opened Suspension
  import opened Revocation
  import Scopes

  // ---- refresh tokens ----

  predicate HasRefresh(db: Db, t: Token, row: Refresh) { t in db.grants.refresh && db.grants.refresh[t] == row }

  /** The step answers with this refresh token. */
  ghost predicate HandsOut(env: Env, db: Db, e: Event, t: Token, row: Refresh) {
    var out := Next(env, db, e).1;
    && out.TokensIssued? && out.refresh == Some(t)
    && row == Refresh(out.access.sub, out.access.aud, out.scope, e.at.second + 30 * DAY, None)
  }

  /** A proven client presents the token before its expiry, or all refresh tokens of its user are revoked. */
  predicate Kills(env: Env, db: Db, e: Event, t: Token, row: Refresh) {
    || ReachesRevocation(env, db, e, row.user, 2)
    || match e.act
       case Grants(DoRefresh(p, client, secret)) =>
         p == t && ProvesClient(env, db.clients, client, secret) && e.cut > 0 && e.at.first < row.expiresAt
       case _ => false
  }

  lemma RevokingAllRefresh(db: Db, at: Time, cut: nat, v: UserId, t: Token, row: Refresh)
    requires HasRefresh(db, t, row) && row.revokedAt.None?
    ensures HasRefresh(RevokeAll(db, at, cut, v).0, t, row) <==> !(cut >= 2 && v == row.user)
  {
  }

  lemma ReplacingRefresh(db: Db, at: Time, cut: nat, v: UserId, hash: string, t: Token, row: Refresh)
    requires HasRefresh(db, t, row) && row.revokedAt.None? && v in db.accounts.users
    ensures HasRefresh(ReplacePassword(db, at, cut, v, hash).0, t, row) <==> !(cut >= 3 && v == row.user)
  {
    hide RevokeAll;
    if cut > 0 {
      RevokingAllRefresh(db.(accounts := db.accounts.UpdatePassword(v, hash).value), at, cut - 1, v, t, row);
    }
  }

  lemma ResettingRefresh(env: Env, db: Db, e: Event, t: Token, row: Refresh)
    requires e.act.Credential? && e.act.credential.DoResetPassword? && HasRefresh(db, t, row) && row.revokedAt.None?
    requires row.user in db.accounts.users && Fresh(db) && Owned(db)
    ensures HasRefresh(Next(env, db, e).0, t, row) <==> !ReachesRevocation(env, db, e, row.user, 2)
  {
    hide ReplacePassword, Fresh, Owned;
    var a := e.act.credential;
    assert Next(env, db, e) == ResetPassword(db, e.at, e.cut, a.token, a.password, a.confirm, a.newHash);
    if a.token in db.resets { ResetUser(db, a.token); }
    var consumed := ConsumeResetToken(db.resets, a.token, e.at.first);
    if consumed.Ok? && e.cut > 0 {
      ReplacingRefresh(db.(resets := consumed.value.0), e.at.first, e.cut - 1, consumed.value.1.user, a.newHash, t,
                       row);
    }
  }

  lemma ChangingRefresh(env: Env, db: Db, e: Event, t: Token, row: Refresh)
    requires e.act.Credential? && e.act.credential.DoChangePassword? && HasRefresh(db, t, row) && row.revokedAt.None?
    requires row.user in db.accounts.users
    ensures HasRefresh(Next(env, db, e).0, t, row) <==> !ReachesRevocation(env, db, e, row.user, 2)
  {
    hide ReplacePassword;
    var i := e.act.credential.change;
    if i.user in db.accounts.users {
      ReplacingRefresh(db, e.at.first, e.cut, i.user, i.newHash, t, row);
    }
  }

  lemma SuspendingRefresh(db: Db, at: Clock, cut: nat, actor: Actor, id: UserId, status: Status, t: Token, row: Refresh)
    requires HasRefresh(db, t, row) && row.revokedAt.None? && row.user in db.accounts.users
    ensures HasRefresh(SetStatus(db, at, cut, actor, id, status).0, t, row) <==>
            !(actor.isAdmin && actor.id != id && id == row.user && status == Suspended && cut >= 3)
  {
    hide RevokeAll;
    if cut > 0 && id in db.accounts.users {
      RevokingAllRefresh(db.(accounts := db.accounts.SetStatus(id, status).value), at.first, cut - 1, id, t, row);
    }
  }

  lemma RevokingRefresh(db: Db, at: Clock, cut: nat, actor: Actor, id: UserId, t: Token, row: Refresh)
    requires HasRefresh(db, t, row) && row.revokedAt.None? && row.user in db.accounts.users && row.user != 0
    ensures HasRefresh(RevokeUserSessions(db, at, cut, actor, id).0, t, row) <==>
            !(actor.isAdmin && id == row.user && cut >= 2)
  {
    hide RevokeAll;
    RevokingAllRefresh(db, at.first, cut, id, t, row);
  }

  lemma DeletingRefresh(db: Db, cut: nat, actor: Actor, id: UserId, t: Token, row: Refresh)
    requires HasRefresh(db, t, row) && row.user in db.accounts.users
    ensures HasRefresh(DeleteUser(db, cut, actor, id).0, t, row) <==>
            row.user in DeleteUser(db, cut, actor, id).0.accounts.users
  {
  }

  lemma GrantUser(db: Db, t: Token)
    requires Fresh(db) && Owned(db)
    ensures t in db.grants.refresh ==>
              db.grants.refresh[t].user in db.accounts.users && db.grants.refresh[t].user != 0 && 0 < t < db.next
    ensures t in db.grants.codes ==>
              db.grants.codes[t].user in db.accounts.users && db.grants.codes[t].user != 0 && 0 < t < db.next
  {
    assert FreshAt(db, t) && OwnerExists(db, t);
    if t in db.grants.refresh { assert FreshAt(db, db.grants.refresh[t].user); }
    if t in db.grants.codes { assert FreshAt(db, db.grants.codes[t].user); }
  }

  lemma CredentialKeepsRefreshIff(env: Env, db: Db, e: Event, t: Token, row: Refresh)
    requires e.act.Credential? && Fresh(db) && Owned(db) && HasRefresh(db, t, row) && row.revokedAt.None?
    ensures var b := Next(env, db, e).0;
            HasRefresh(b, t, row) <==> row.user in b.accounts.users && !Kills(env, db, e, t, row)
  {
    hide ReplacePassword, RevokeAll, ResetPassword, ChangePassword, SetStatus, DeleteUser, RevokeUserSessions, Owned,
        Fresh, ProvesClient;
    GrantUser(db, t);
    if !e.act.credential.DoDeleteUser? { CredentialKeepsUser(env, db, e, row.user); }
    match e.act.credential
    case DoResetPassword(_, _, _, _) => ResettingRefresh(env, db, e, t, row);
    case DoChangePassword(_) => ChangingRefresh(env, db, e, t, row);
    case DoSetStatus(actor, id, status) => SuspendingRefresh(db, e.at, e.cut, actor, id, status, t, row);
    case DoRevokeSessions(actor, id) => RevokingRefresh(db, e.at, e.cut, actor, id, t, row);
    case DoDeleteUser(actor, id) => DeletingRefresh(db, e.cut, actor, id, t, row);
    case _ =>
  }

  lemma PresentingKeepsIff(env: Env, db: Db, e: Event, a: GrantAction, t: Token, row: Refresh)
    requires e.act == Action.Grants(a) && HasRefresh(db, t, row) && row.revokedAt.None? && t != db.next
    ensures HasRefresh(GrantStep(env, db, e.at, e.cut, a).0, t, row) <==> !Kills(env, db, e, t, row)
  {
    hide Authorize, CodeMatches, AuthenticatesClient, ProvesClient, Scopes.Includes;
    match a
    case DoAuthorize(i) => AuthorizeKeepsRefresh(env, db, e, i);
    case DoExchange(x) =>
    case DoRefresh(_, client, secret) => ClientProven(env, db, client, secret);
    case DoOtherGrant(_) =>
  }

  lemma AuthorizeKeepsRefresh(env: Env, db: Db, e: Event, i: AuthorizeInput)
    ensures Authorize(env, db, e.at, e.cut, i).0.grants.refresh == db.grants.refresh
  {
    hide AuthorizeError, ResolveSession, RecordAccess;
  }

  lemma RefreshKeptIff(env: Env, db: Db, e: Event, t: Token, row: Refresh)
    requires Fresh(db) && Owned(db) && HasRefresh(db, t, row) && row.revokedAt.None?
    ensures var b := Next(env, db, e).0;
            HasRefresh(b, t, row) <==> row.user in b.accounts.users && !Kills(env, db, e, t, row)
  {
    hide MailStep, EntryStep, GrantStep, CredentialStep, ClientStep, Owned, Fresh, ProvesClient;
    GrantUser(db, t);
    if e.act.Credential? {
      CredentialKeepsRefreshIff(env, db, e, t, row);
    } else {
      StepKeepsUser(env, db, e, row.user);
      if e.act.Grants? { PresentingKeepsIff(env, db, e, e.act.grant, t, row); }
    }
  }

  lemma RefreshHandedOutIff(env: Env, db: Db, e: Event, t: Token, row: Refresh)
    requires Fresh(db) && t !in db.grants.refresh
    ensures HasRefresh(Next(env, db, e).0, t, row) <==> HandsOut(env, db, e, t, row)
  {
    hide MailStep, EntryStep, GrantStep, CredentialStep, ClientStep, Fresh;
    match e.act
    case Grants(a) => TokensHandedOut(env, db, e, a, t, row);
    case Credential(a) =>
      CredentialHandsOutNothing(env, db, e, a, t);
      OnlyGrantsIssueCredential(env, db, e, a);
    case Mail(a) => OnlyGrantsIssueMail(env, db, e, a);
    case Entry(a) => OnlyGrantsIssueEntry(env, db, e, a);
    case Clients(a) => ClientsHandOutNothing(env, db, e, a);
  }

  lemma TokensHandedOut(env: Env, db: Db, e: Event, a: GrantAction, t: Token, row: Refresh)
    requires e.act == Action.Grants(a) && t !in db.grants.refresh
    ensures HasRefresh(GrantStep(env, db, e.at, e.cut, a).0, t, row) <==> HandsOut(env, db, e, t, row)
  {
    hide Authorize, CodeMatches, AuthenticatesClient, Scopes.Includes;
    if a.DoAuthorize? {
      AuthorizeKeepsRefresh(env, db, e, a.authorize);
      AuthorizeHandsOutNothing(env, db, e, a.authorize);
    }
  }

  lemma AuthorizeHandsOutNothing(env: Env, db: Db, e: Event, i: AuthorizeInput)
    ensures !Authorize(env, db, e.at, e.cut, i).1.TokensIssued?
  {
    hide AuthorizeError, ResolveSession, RecordAccess;
  }

  lemma CredentialHandsOutNothing(env: Env, db: Db, e: Event, a: CredentialAction, t: Token)
    requires t !in db.grants.refresh
    ensures t !in CredentialStep(env, db, e.at, e.cut, a).0.grants.refresh
  {
    hide ReplacePassword;
    forall d: Db, at: Time, cut: nat, u: UserId, h: string {:trigger ReplacePassword(d, at, cut, u, h)}
      ensures ReplacePassword(d, at, cut, u, h).0.grants.refresh.Keys == d.grants.refresh.Keys
    {
      ReplacingHandsOutNothing(d, at, cut, u, h);
    }
  }

  lemma ReplacingHandsOutNothing(db: Db, at: Time, cut: nat, u: UserId, hash: string)
    ensures ReplacePassword(db, at, cut, u, hash).0.grants.refresh.Keys == db.grants.refresh.Keys
  {
  }

  lemma ClientsHandOutNothing(env: Env, db: Db, e: Event, a: ClientAction)
    ensures !ClientStep(env, db, e.cut, a).1.TokensIssued?
  {
  }

  ghost predicate NotKilled(env: Env, ss: seq<Db>, es: seq<Event>, k: nat, n: nat, t: Token, row: Refresh)
    requires n <= |es| <= |ss|
  {
    forall m :: k < m < n ==> !Kills(env, ss[m], es[m], t, row)
  }

  ghost predicate GoodSince(env: Env, ss: seq<Db>, es: seq<Event>, k: nat, n: nat, t: Token, row: Refresh)
    requires k < n <= |es| <= |ss|
  {
    HandsOut(env, ss[k], es[k], t, row) && NotKilled(env, ss, es, k, n, t, row)
  }

  lemma {:induction false} GoodWasHandedOut(env: Env, ss: seq<Db>, es: seq<Event>, n: nat, t: Token, row: Refresh)
    requires IsRun(env, ss, es) && n < |ss| && HasRefresh(ss[n], t, row) && row.revokedAt.None?
    ensures row.user in ss[n].accounts.users && exists k :: 0 <= k < n && GoodSince(env, ss, es, k, n, t, row)
  {
    hide Next, Fresh, Owned, Kills, HandsOut;
    OwnedAlways(env, ss, es, n);
    FreshAlways(env, ss, es, n);
    GrantUser(ss[n], t);
    if n > 0 {
      OwnedAlways(env, ss, es, n - 1);
      FreshAlways(env, ss, es, n - 1);
      RefreshLaw(env, ss[n - 1], es[n - 1], t);
      if t in ss[n - 1].grants.refresh {
        RefreshKeptIff(env, ss[n - 1], es[n - 1], t, row);
        GoodWasHandedOut(env, ss, es, n - 1, t, row);
        var k :| 0 <= k < n - 1 && GoodSince(env, ss, es, k, n - 1, t, row);
        assert GoodSince(env, ss, es, k, n, t, row);
      } else {
        RefreshHandedOutIff(env, ss[n - 1], es[n - 1], t, row);
        assert GoodSince(env, ss, es, n - 1, n, t, row);
      }
    }
  }

  lemma {:induction false} HandedOutStaysGood(env: Env, ss: seq<Db>, es: seq<Event>, k: nat, j: nat, n: nat, t: Token,
                                              row: Refresh)
    requires IsRun(env, ss, es) && k < j <= n < |ss| && GoodSince(env, ss, es, k, n, t, row)
    requires row.user in ss[n].accounts.users
    ensures HasRefresh(ss[j], t, row) && row.revokedAt.None?
    decreases j
  {
    hide Next, Fresh, Owned, Kills, HandsOut;
    FreshAlways(env, ss, es, j - 1);
    OwnedAlways(env, ss, es, j - 1);
    HandedOutIsNew(env, ss, es, k, t, row);
    if j == k + 1 {
      RefreshHandedOutIff(env, ss[k], es[k], t, row);
    } else {
      HandedOutStaysGood(env, ss, es, k, j - 1, n, t, row);
      GrantUser(ss[j - 1], t);
      UserStaysUntil(env, ss, es, j - 1, n, row.user);
      RefreshKeptIff(env, ss[j - 1], es[j - 1], t, row);
    }
  }

  lemma HandedOutIsNew(env: Env, ss: seq<Db>, es: seq<Event>, k: nat, t: Token, row: Refresh)
    requires IsRun(env, ss, es) && k < |es| && HandsOut(env, ss[k], es[k], t, row)
    ensures t !in ss[k].grants.refresh && row.revokedAt.None?
  {
    hide MailStep, EntryStep, GrantStep, CredentialStep, ClientStep;
    FreshAlways(env, ss, es, k);
    assert FreshAt(ss[k], ss[k].next);
    TokensGoToAuthorizedUsers(env, ss[k], es[k]);
    HandedOutIsNext(env, ss[k], es[k], es[k].act.grant);
  }

  lemma HandedOutIsNext(env: Env, db: Db, e: Event, a: GrantAction)
    requires GrantStep(env, db, e.at, e.cut, a).1.TokensIssued? && GrantStep(env, db, e.at, e.cut, a).1.refresh.Some?
    ensures GrantStep(env, db, e.at, e.cut, a).1.refresh.value == db.next
  {
    hide AuthenticatesClient, CodeMatches, Scopes.Includes;
  }

  /**
    A refresh token is stored unrevoked, with a given row, exactly when an earlier step answered with
    it, for that row, its user still exists, and since then no proven client has presented it in time
    and no step has got as far as revoking the refresh tokens of its user.
   */
  lemma RefreshTokenGoodIff(env: Env, ss: seq<Db>, es: seq<Event>, n: nat, t: Token, row: Refresh)
    requires IsRun(env, ss, es) && n < |ss|
    ensures HasRefresh(ss[n], t, row) && row.revokedAt.None? <==>
              row.user in ss[n].accounts.users && exists k :: 0 <= k < n && GoodSince(env, ss, es, k, n, t, row)
  {
    hide Next, Kills, HandsOut;
    if HasRefresh(ss[n], t, row) && row.revokedAt.None? {
      GoodWasHandedOut(env, ss, es, n, t, row);
    }
    if row.user in ss[n].accounts.users {
      forall k | 0 <= k < n && GoodSince(env, ss, es, k, n, t, row)
        ensures HasRefresh(ss[n], t, row) && row.revokedAt.None?
      {
        HandedOutStaysGood(env, ss, es, k, n, n, t, row);
      }
    }
  }

  /** A refresh in terms of the past: the token was handed out to this client and is still good, and in time. */
  lemma RefreshedIff(env: Env, ss: seq<Db>, es: seq<Event>, n: nat, t: Token, client: ClientId, secret: string)
    requires IsRun(env, ss, es) && n < |es| && es[n].act == Action.Grants(DoRefresh(t, client, secret))
    ensures Output(env, ss, es, n).TokensIssued? <==>
              ProvesClient(env, ss[n].clients, client, secret) && es[n].cut >= 4 &&
              exists k, row: Refresh :: 0 <= k < n && GoodSince(env, ss, es, k, n, t, row) && row.client == client &&
                               es[n].at.first < row.expiresAt && MayAuthorize(ss[n].accounts, row.user)
  {
    hide Next, ProvesClient, GoodSince;
    RefreshSucceedsIff(env, ss, es, n, t, client, secret);
    if t in ss[n].grants.refresh {
      RefreshTokenGoodIff(env, ss, es, n, t, ss[n].grants.refresh[t]);
    }
    forall k, row: Refresh | 0 <= k < n && GoodSince(env, ss, es, k, n, t, row) && row.user in ss[n].accounts.users
      ensures HasRefresh(ss[n], t, row) && row.revokedAt.None?
    {
      RefreshTokenGoodIff(env, ss, es, n, t, row);
    }
  }

  // ---- codes ----

  predicate HasCode(db: Db, c: Token, row: Code) { c in db.grants.codes && db.grants.codes[c] == row }

  /** The step is an authorization that grants this code. */
  predicate GrantsRow(env: Env, db: Db, e: Event, c: Token, row: Code) {
    match e.act
    case Grants(DoAuthorize(i)) =>
      c == db.next && GrantsCode(env, db, e, i, row.user) && row == CodeFor(i, row.user, e.at.second)
    case _ => false
  }

  /** A proven client presents the code before its expiry. */
  predicate Uses(env: Env, db: Db, e: Event, c: Token, row: Code) {
    match e.act
    case Grants(DoExchange(x)) =>
      x.code == c && ProvesClient(env, db.clients, x.client, x.secret) && e.cut > 0 && e.at.first < row.expiresAt
    case _ => false
  }

  lemma PresentingKeepsCodeIff(env: Env, db: Db, e: Event, a: GrantAction, c: Token, row: Code)
    requires e.act == Action.Grants(a) && HasCode(db, c, row) && row.usedAt.None? && c != db.next
    ensures HasCode(GrantStep(env, db, e.at, e.cut, a).0, c, row) <==> !Uses(env, db, e, c, row)
  {
    hide AuthorizeError, ResolveSession, RecordAccess, CodeMatches, AuthenticatesClient, ProvesClient, Scopes.Includes;
    match a
    case DoExchange(x) => ClientProven(env, db, x.client, x.secret);
    case _ =>
  }

  lemma DeletingKeepsCodeIff(db: Db, cut: nat, actor: Actor, id: UserId, c: Token, row: Code)
    requires HasCode(db, c, row) && row.user in db.accounts.users
    ensures HasCode(DeleteUser(db, cut, actor, id).0, c, row) <==>
            row.user in DeleteUser(db, cut, actor, id).0.accounts.users
  {
  }

  lemma CodeKeptIff(env: Env, db: Db, e: Event, c: Token, row: Code)
    requires Fresh(db) && Owned(db) && HasCode(db, c, row) && row.usedAt.None?
    ensures var b := Next(env, db, e).0;
            HasCode(b, c, row) <==> row.user in b.accounts.users && !Uses(env, db, e, c, row)
  {
    hide MailStep, EntryStep, GrantStep, CredentialStep, ClientStep, Owned, Fresh, ProvesClient;
    GrantUser(db, c);
    if e.act.Credential? {
      if e.act.credential.DoDeleteUser? {
        DeletionStep(env, db, e, e.act.credential.actor, e.act.credential.user);
        DeletingKeepsCodeIff(db, e.cut, e.act.credential.actor, e.act.credential.user, c, row);
      } else {
        CredentialKeepsUser(env, db, e, row.user);
        CredentialStepsKeepCodes(env, db, e.at, e.cut, e.act.credential);
      }
    } else {
      StepKeepsUser(env, db, e, row.user);
      if e.act.Grants? { PresentingKeepsCodeIff(env, db, e, e.act.grant, c, row); }
    }
  }

  lemma CodeGrantedIff(env: Env, db: Db, e: Event, c: Token, row: Code)
    requires Fresh(db) && c !in db.grants.codes
    ensures HasCode(Next(env, db, e).0, c, row) <==> GrantsRow(env, db, e, c, row)
  {
    hide MailStep, EntryStep, GrantStep, CredentialStep, ClientStep, Fresh, GrantsCode;
    match e.act
    case Grants(DoAuthorize(i)) => AuthorizeGrantsIff(env, db, e, i, c, row);
    case Grants(a) => OthersGrantNothing(env, db, e, a);
    case Credential(a) =>
      if a.DoDeleteUser? {
        DeletionStep(env, db, e, a.actor, a.user);
        DeletionGrantsNothing(db, e.cut, a.actor, a.user, c);
      } else {
        CredentialStepsKeepCodes(env, db, e.at, e.cut, a);
      }
    case _ =>
  }

  lemma AuthorizeGrantsIff(env: Env, db: Db, e: Event, i: AuthorizeInput, c: Token, row: Code)
    requires e.act == Action.Grants(DoAuthorize(i)) && Fresh(db) && c !in db.grants.codes
    ensures HasCode(Next(env, db, e).0, c, row) <==> GrantsRow(env, db, e, c, row)
  {
    hide Authorize, Fresh, GrantsCode, Visited;
    if u :| GrantsCode(env, db, e, i, u) {
      ResolvedUserIsNotZero(env, db, e, i, u);
      GrantedState(env, db, e, i, u);
      OneUserIsEntitled(env, db, e, i, u, row.user);
    } else {
      RefusedState(env, db, e, i);
    }
  }

  lemma OneUserIsEntitled(env: Env, db: Db, e: Event, i: AuthorizeInput, u: UserId, v: UserId)
    requires GrantsCode(env, db, e, i, u)
    ensures GrantsCode(env, db, e, i, v) ==> u == v
  {
    hide ResolveSession, IsGrantable;
  }

  lemma OthersGrantNothing(env: Env, db: Db, e: Event, a: GrantAction)
    requires !a.DoAuthorize?
    ensures GrantStep(env, db, e.at, e.cut, a).0.grants.codes.Keys == db.grants.codes.Keys
  {
    hide AuthenticatesClient, CodeMatches, Scopes.Includes;
  }

  lemma DeletionGrantsNothing(db: Db, cut: nat, actor: Actor, id: UserId, c: Token)
    requires c !in db.grants.codes
    ensures c !in DeleteUser(db, cut, actor, id).0.grants.codes
  {
  }

  ghost predicate NotUsed(env: Env, ss: seq<Db>, es: seq<Event>, k: nat, n: nat, c: Token, row: Code)
    requires n <= |es| <= |ss|
  {
    forall m :: k < m < n ==> !Uses(env, ss[m], es[m], c, row)
  }

  ghost predicate UnusedSince(env: Env, ss: seq<Db>, es: seq<Event>, k: nat, n: nat, c: Token, row: Code)
    requires k < n <= |es| <= |ss|
  {
    GrantsRow(env, ss[k], es[k], c, row) && NotUsed(env, ss, es, k, n, c, row)
  }

  lemma {:induction false} UnusedWasGranted(env: Env, ss: seq<Db>, es: seq<Event>, n: nat, c: Token, row: Code)
    requires IsRun(env, ss, es) && n < |ss| && HasCode(ss[n], c, row) && row.usedAt.None?
    ensures row.user in ss[n].accounts.users && exists k :: 0 <= k < n && UnusedSince(env, ss, es, k, n, c, row)
  {
    hide Next, Fresh, Owned, Uses, GrantsRow, Authorizes;
    OwnedAlways(env, ss, es, n);
    FreshAlways(env, ss, es, n);
    GrantUser(ss[n], c);
    if n > 0 {
      OwnedAlways(env, ss, es, n - 1);
      FreshAlways(env, ss, es, n - 1);
      CodeLaw(env, ss[n - 1], es[n - 1], c);
      if c in ss[n - 1].grants.codes {
        CodeKeptIff(env, ss[n - 1], es[n - 1], c, row);
        UnusedWasGranted(env, ss, es, n - 1, c, row);
        var k :| 0 <= k < n - 1 && UnusedSince(env, ss, es, k, n - 1, c, row);
        assert UnusedSince(env, ss, es, k, n, c, row);
      } else {
        CodeGrantedIff(env, ss[n - 1], es[n - 1], c, row);
        assert UnusedSince(env, ss, es, n - 1, n, c, row);
      }
    }
  }

  lemma {:induction false} GrantedStaysUnused(env: Env, ss: seq<Db>, es: seq<Event>, k: nat, j: nat, n: nat, c: Token,
                                              row: Code)
    requires IsRun(env, ss, es) && k < j <= n < |ss| && UnusedSince(env, ss, es, k, n, c, row)
    requires row.user in ss[n].accounts.users
    ensures HasCode(ss[j], c, row) && row.usedAt.None?
    decreases j
  {
    hide Next, Fresh, Owned, Uses, GrantsRow;
    FreshAlways(env, ss, es, j - 1);
    OwnedAlways(env, ss, es, j - 1);
    if j == k + 1 {
      GrantedIsNew(env, ss[k], es[k], c, row);
      CodeGrantedIff(env, ss[k], es[k], c, row);
    } else {
      GrantedStaysUnused(env, ss, es, k, j - 1, n, c, row);
      GrantUser(ss[j - 1], c);
      UserStaysUntil(env, ss, es, j - 1, n, row.user);
      CodeKeptIff(env, ss[j - 1], es[j - 1], c, row);
    }
  }

  lemma GrantedIsNew(env: Env, db: Db, e: Event, c: Token, row: Code)
    requires Fresh(db) && GrantsRow(env, db, e, c, row)
    ensures c !in db.grants.codes && row.usedAt.None?
  {
    hide GrantsCode;
    assert FreshAt(db, c);
  }

  /**
    A code is stored unused, with a given row, exactly when an earlier authorization granted it, for
    that row, its user still exists, and since then no proven client has presented it in time.
   */
  lemma CodeGoodIff(env: Env, ss: seq<Db>, es: seq<Event>, n: nat, c: Token, row: Code)
    requires IsRun(env, ss, es) && n < |ss|
    ensures HasCode(ss[n], c, row) && row.usedAt.None? <==>
              row.user in ss[n].accounts.users && exists k :: 0 <= k < n && UnusedSince(env, ss, es, k, n, c, row)
  {
    hide Next, Uses, GrantsRow;
    if HasCode(ss[n], c, row) && row.usedAt.None? {
      UnusedWasGranted(env, ss, es, n, c, row);
    }
    if row.user in ss[n].accounts.users {
      forall k | 0 <= k < n && UnusedSince(env, ss, es, k, n, c, row)
        ensures HasCode(ss[n], c, row) && row.usedAt.None?
      {
        GrantedStaysUnused(env, ss, es, k, n, n, c, row);
      }
    }
  }

  /** The request fits what was granted, and is in time. */
  predicate Redeems(env: Env, now: Db, e: Event, x: ExchangeInput, row: Code) {
    && row.client == x.client && row.redirect == x.redirect && e.at.first < row.expiresAt
    && ProvesClient(env, now.clients, x.client, x.secret) && MayAuthorize(now.accounts, row.user)
    && match row.challenge
       case Some(challenge) => 43 <= |x.verifier| <= 128 && env.s256(x.verifier) == challenge
       case None => now.clients[x.client].auth == ClientSecretPost
  }

  lemma RedeemingIff(env: Env, db: Db, e: Event, x: ExchangeInput)
    requires x.code in db.grants.codes
    requires var row := db.grants.codes[x.code];
             row.challenge != Some("") && row.challengeMethod == if row.challenge.None? then None else Some(S256)
    ensures ExchangeCode(env, db, e.at, e.cut, x).1.TokensIssued? <==>
              Redeems(env, db, e, x, db.grants.codes[x.code]) && db.grants.codes[x.code].usedAt.None? &&
              EnoughOperations(db.grants.codes[x.code].scope, e.cut)
  {
    hide AuthenticatesClient, ProvesClient, Scopes.Fields;
    ClientProven(env, db, x.client, x.secret);
  }

  lemma GrantedRowIsWellFormed(env: Env, db: Db, e: Event, c: Token, row: Code)
    requires GrantsRow(env, db, e, c, row)
    ensures row.challenge != Some("") && row.challengeMethod == if row.challenge.None? then None else Some(S256)
  {
    hide GrantsCode;
  }

  /** An exchange in terms of the past: its code was granted to this client for this redirect URI and is still good. */
  lemma ExchangedIff(env: Env, ss: seq<Db>, es: seq<Event>, n: nat, x: ExchangeInput)
    requires IsRun(env, ss, es) && n < |es| && es[n].act == Action.Grants(DoExchange(x))
    ensures Output(env, ss, es, n).TokensIssued? <==>
              exists k, row: Code :: 0 <= k < n && UnusedSince(env, ss, es, k, n, x.code, row) &&
                               Redeems(env, ss[n], es[n], x, row) && EnoughOperations(row.scope, es[n].cut)
  {
    hide MailStep, EntryStep, CredentialStep, ClientStep, Redeems, EnoughOperations, ExchangeCode, NotUsed, GrantsRow;
    if Output(env, ss, es, n).TokensIssued? {
      ExchangeFacts(env, ss[n], es[n].at, es[n].cut, x);
      CodeGoodIff(env, ss, es, n, x.code, ss[n].grants.codes[x.code]);
    }
    forall k, row: Code | 0 <= k < n && UnusedSince(env, ss, es, k, n, x.code, row) &&
                          (row.user in ss[n].accounts.users || Redeems(env, ss[n], es[n], x, row))
      ensures Output(env, ss, es, n).TokensIssued? <==>
              Redeems(env, ss[n], es[n], x, row) && EnoughOperations(row.scope, es[n].cut)
    {
      assert row.user in ss[n].accounts.users by { RedeemerExists(env, ss[n], es[n], x, row); }
      CodeGoodIff(env, ss, es, n, x.code, row);
      GrantedRowIsWellFormed(env, ss[k], es[k], x.code, row);
      RedeemingIff(env, ss[n], es[n], x);
    }
  }

  lemma RedeemerExists(env: Env, now: Db, e: Event, x: ExchangeInput, row: Code)
    ensures Redeems(env, now, e, x, row) ==> row.user in now.accounts.users
  {
    hide ProvesClient;
  }
}
