/** What a password change, a reset, a suspension or an administrator's revocation ends. */
module Revocation {
  import opened Domain
  import opened Tables
  import opened UseCases
  import opened Machine
  import opened Laws
  import opened SessionLaws
  import opened GrantLaws
  import opened Exchanges
  import opened GrantChains
  import opened References
  import Scopes

  /** The step completes and revokes what this user has. */
  ghost predicate Revokes(env: Env, db: Db, e: Event, u: UserId) {
    && e.act.Credential? && Next(env, db, e).1 == Done
    && match e.act.credential
       case DoResetPassword(t, _, _, _) => t in db.resets && db.resets[t].user == u
       case DoChangePassword(i) => i.user == u
       case DoSetStatus(_, user, status) => user == u && status == Suspended
       case DoRevokeSessions(_, user) => user == u
       case _ => false
  }

  predicate SessionDead(db: Db, t: Token) {
    t < db.next && (t in db.sessions.rows ==> db.sessions.rows[t].revokedAt.Some?)
  }

  predicate RefreshDead(db: Db, t: Token) {
    t < db.next && (t in db.grants.refresh ==> db.grants.refresh[t].revokedAt.Some?)
  }

  lemma RevokeAllEnds(db: Db, at: Time, cut: nat, u: UserId, t: Token)
    requires RevokeAll(db, at, cut, u).1 == Done
    ensures var b := RevokeAll(db, at, cut, u).0;
            (t in b.sessions.rows && b.sessions.rows[t].user == u ==> b.sessions.rows[t].revokedAt.Some?) &&
            (t in b.grants.refresh && b.grants.refresh[t].user == u ==> b.grants.refresh[t].revokedAt.Some?)
  {
  }

  lemma StepRevokes(env: Env, db: Db, e: Event, u: UserId, t: Token)
    requires Revokes(env, db, e, u)
    ensures var b := Next(env, db, e).0;
            (t in b.sessions.rows && b.sessions.rows[t].user == u ==> b.sessions.rows[t].revokedAt.Some?) &&
            (t in b.grants.refresh && b.grants.refresh[t].user == u ==> b.grants.refresh[t].revokedAt.Some?)
  {
    hide RevokeAll;
    forall d: Db, x: Time, n: nat {:trigger RevokeAll(d, x, n, u)} | RevokeAll(d, x, n, u).1 == Done
      ensures var b := RevokeAll(d, x, n, u).0;
              (t in b.sessions.rows && b.sessions.rows[t].user == u ==> b.sessions.rows[t].revokedAt.Some?) &&
              (t in b.grants.refresh && b.grants.refresh[t].user == u ==> b.grants.refresh[t].revokedAt.Some?)
    {
      RevokeAllEnds(d, x, n, u, t);
    }
  }

  lemma {:induction false} SessionDeadStays(env: Env, ss: seq<Db>, es: seq<Event>, i: nat, j: nat, t: Token)
    requires IsRun(env, ss, es) && i <= j < |ss| && SessionDead(ss[i], t)
    ensures SessionDead(ss[j], t)
    decreases j
  {
    hide Next;
    if i < j {
      SessionDeadStays(env, ss, es, i, j - 1, t);
      FreshAlways(env, ss, es, j - 1);
      FreshStep(env, ss[j - 1], es[j - 1]);
      SessionLaw(env, ss[j - 1], es[j - 1], t);
    }
  }

  lemma {:induction false} RefreshDeadStays(env: Env, ss: seq<Db>, es: seq<Event>, i: nat, j: nat, t: Token)
    requires IsRun(env, ss, es) && i <= j < |ss| && RefreshDead(ss[i], t)
    ensures RefreshDead(ss[j], t)
    decreases j
  {
    hide Next;
    if i < j {
      RefreshDeadStays(env, ss, es, i, j - 1, t);
      FreshAlways(env, ss, es, j - 1);
      FreshStep(env, ss[j - 1], es[j - 1]);
      RefreshLaw(env, ss[j - 1], es[j - 1], t);
    }
  }

  /** A session that exists when the step completes never resolves again. */
  lemma RevokedSessionsNeverResolve(env: Env, ss: seq<Db>, es: seq<Event>, j: nat, k: nat, u: UserId, t: Token,
                                    at: Time)
    requires IsRun(env, ss, es) && j < k < |ss| && Revokes(env, ss[j], es[j], u)
    requires t in ss[j].sessions.rows && ss[j].sessions.rows[t].user == u
    ensures ResolveSession(ss[k], at, t).None?
  {
    hide Next, Revokes;
    FreshAlways(env, ss, es, j);
    FreshStep(env, ss[j], es[j]);
    assert FreshAt(ss[j], t);
    StepRevokes(env, ss[j], es[j], u, t);
    SessionLaw(env, ss[j], es[j], t);
    SessionDeadStays(env, ss, es, j + 1, k, t);
  }

  /** A session that has been logged out never resolves again. */
  lemma LoggedOutSessionsNeverResolve(env: Env, ss: seq<Db>, es: seq<Event>, j: nat, k: nat, t: Token, at: Time)
    requires IsRun(env, ss, es) && j < k < |ss| && es[j].act == Credential(DoLogout(t)) &&
             Output(env, ss, es, j) == Done
    requires t in ss[j].sessions.rows
    ensures ResolveSession(ss[k], at, t).None?
  {
    FreshAlways(env, ss, es, j);
    assert FreshAt(ss[j], t);
    LogoutEnds(ss[j], es[j].at, es[j].cut, t);
    SessionDeadStays(env, ss, es, j + 1, k, t);
  }

  lemma LogoutEnds(db: Db, at: Clock, cut: nat, t: Token)
    requires 0 < t < db.next && Logout(db, at, cut, t).1 == Done
    ensures SessionDead(Logout(db, at, cut, t).0, t)
  {
  }

  /** A refresh token that exists when the step completes is never accepted again. */
  lemma RevokedRefreshTokensNeverRefresh(env: Env, ss: seq<Db>, es: seq<Event>, j: nat, k: nat, u: UserId, t: Token,
                                         client: ClientId, secret: string)
    requires IsRun(env, ss, es) && j < k < |es| && Revokes(env, ss[j], es[j], u)
    requires t in ss[j].grants.refresh && ss[j].grants.refresh[t].user == u
    requires es[k].act == Action.Grants(DoRefresh(t, client, secret))
    ensures !Output(env, ss, es, k).TokensIssued?
  {
    RevokedRefreshTokensAreDead(env, ss, es, j, k, u, t);
  }

  lemma RevokedRefreshTokensAreDead(env: Env, ss: seq<Db>, es: seq<Event>, j: nat, k: nat, u: UserId, t: Token)
    requires IsRun(env, ss, es) && j < k < |ss| && Revokes(env, ss[j], es[j], u)
    requires t in ss[j].grants.refresh && ss[j].grants.refresh[t].user == u
    ensures RefreshDead(ss[k], t)
  {
    hide Next, Revokes;
    FreshAlways(env, ss, es, j);
    FreshStep(env, ss[j], es[j]);
    assert FreshAt(ss[j], t);
    StepRevokes(env, ss[j], es[j], u, t);
    RefreshLaw(env, ss[j], es[j], t);
    RefreshDeadStays(env, ss, es, j + 1, k, t);
  }

  // ---- chains ----

  /** A used code none of whose refresh tokens is live. */
  ghost predicate ChainDead(g: Grants, c: Token)
    requires Linear(g)
  {
    && (c in g.codes ==> g.codes[c].usedAt.Some?)
    && forall t :: t in g.refresh && Root(g, t) == c ==> g.refresh[t].revokedAt.Some?
  }

  lemma {:induction false} RootStays(env: Env, db: Db, e: Event, t: Token)
    requires Fresh(db) && Linear(db.grants) && Linear(Next(env, db, e).0.grants)
    requires t in db.grants.refresh && t in Next(env, db, e).0.grants.refresh
    ensures Root(Next(env, db, e).0.grants, t) == Root(db.grants, t)
    decreases t
  {
    hide Next;
    var b := Next(env, db, e).0;
    RefreshLaw(env, db, e, t);
    assert RefreshFits(db.grants, t) && RefreshFits(b.grants, t);
    if db.grants.lineage[t].FromRefresh? {
      RootStays(env, db, e, db.grants.lineage[t].parent);
    }
  }

  lemma NewTokensRoot(env: Env, db: Db, e: Event, t: Token)
    requires Fresh(db) && Linear(db.grants) && Linear(Next(env, db, e).0.grants)
    requires var b := Next(env, db, e).0; t in b.grants.refresh && t !in db.grants.refresh
    ensures var c := Root(Next(env, db, e).0.grants, t);
            (c in db.grants.codes && db.grants.codes[c].usedAt.None?) ||
            exists p :: p in db.grants.refresh && Root(db.grants, p) == c && db.grants.refresh[p].revokedAt.None?
  {
    hide Next;
    var b := Next(env, db, e).0;
    RefreshLaw(env, db, e, t);
    assert RefreshFits(b.grants, t);
    match b.grants.lineage[t]
    case FromCode(_) =>
    case FromRefresh(p) =>
      RootStays(env, db, e, p);
  }

  lemma ChainDeadStep(env: Env, db: Db, e: Event, c: Token)
    requires Fresh(db) && Linear(db.grants) && Linear(Next(env, db, e).0.grants) && c < db.next &&
             ChainDead(db.grants, c)
    ensures ChainDead(Next(env, db, e).0.grants, c)
  {
    hide Next, Linear, Root, Authorizes;
    var b := Next(env, db, e).0;
    CodeLaw(env, db, e, c);
    if c in b.grants.codes && c !in db.grants.codes {
      AuthorizesNext(env, db, e, c, b.grants.codes[c]);
    }
    forall t | t in b.grants.refresh && Root(b.grants, t) == c ensures b.grants.refresh[t].revokedAt.Some? {
      RefreshLaw(env, db, e, t);
      if t in db.grants.refresh {
        RootStays(env, db, e, t);
      } else {
        NewTokensRoot(env, db, e, t);
      }
    }
  }

  lemma {:induction false} ChainDeadStays(env: Env, ss: seq<Db>, es: seq<Event>, i: nat, j: nat, c: Token)
    requires IsRun(env, ss, es) && i <= j < |ss| && c < ss[i].next && Linear(ss[i].grants) && ChainDead(ss[i].grants, c)
    ensures Linear(ss[j].grants) && ChainDead(ss[j].grants, c)
    decreases j
  {
    hide Next, Linear, ChainDead;
    LinearAlways(env, ss, es, j);
    if i < j {
      ChainDeadStays(env, ss, es, i, j - 1, c);
      FreshAlways(env, ss, es, j - 1);
      NextGrows(env, ss, es, i, j - 1);
      ChainDeadStep(env, ss[j - 1], es[j - 1], c);
    }
  }

  ghost predicate UsedBetween(es: seq<Event>, i: nat, j: nat, c: Token, x: Time) {
    exists m :: i <= m < j && m < |es| && Presents(es[m], c) && es[m].at.first == x
  }

  /** A code that exists later and was issued before has the same row, except that it may have been used in between. */
  lemma {:induction false} CodeBetween(env: Env, ss: seq<Db>, es: seq<Event>, i: nat, j: nat, c: Token)
    requires IsRun(env, ss, es) && i <= j < |ss| && c < ss[i].next && c in ss[j].grants.codes
    ensures c in ss[i].grants.codes
    ensures var x, y := ss[i].grants.codes[c], ss[j].grants.codes[c];
            y == x.(usedAt := y.usedAt) &&
            (y.usedAt != x.usedAt ==>
               x.usedAt.None? && y.usedAt.Some? && y.usedAt.value < x.expiresAt &&
                   UsedBetween(es, i, j, c, y.usedAt.value))
    decreases j
  {
    hide Next, Authorizes;
    if i < j {
      FreshAlways(env, ss, es, j - 1);
      NextGrows(env, ss, es, i, j - 1);
      CodeLaw(env, ss[j - 1], es[j - 1], c);
      if c !in ss[j - 1].grants.codes {
        AuthorizesNext(env, ss[j - 1], es[j - 1], c, ss[j].grants.codes[c]);
      }
      CodeBetween(env, ss, es, i, j - 1, c);
    }
  }

  lemma RootIsAUsedCode(g: Grants, t: Token)
    requires Linear(g) && t in g.refresh
    ensures var c := Root(g, t); c in g.codes && g.codes[c].usedAt.Some? && g.codes[c].user == g.refresh[t].user
  {
    hide Linear, Root, Chain;
    ChainLinks(g, t, |Chain(g, t)| - 1);
  }

  lemma FailedRefreshSpends(env: Env, db: Db, at: Clock, cut: nat, t: Token, client: ClientId, secret: string)
    requires AuthenticatesClient(env, db, client, secret) && cut > 0 && t in db.grants.refresh
    requires db.grants.refresh[t].revokedAt.None? && at.first < db.grants.refresh[t].expiresAt
    requires !RefreshGrant(env, db, at, cut, t, client, secret).1.TokensIssued?
    ensures RefreshGrant(env, db, at, cut, t, client, secret).0.grants ==
            db.grants.(refresh := db.grants.refresh[t := db.grants.refresh[t].(revokedAt := Some(at.first))])
  {
    hide AuthenticatesClient, Scopes.Includes;
  }

  /** A refresh that fails after an authenticated client presented a live token ends the token's chain. */
  lemma FailedRefreshEndsTheChain(env: Env, ss: seq<Db>, es: seq<Event>, i: nat, t: Token, client: ClientId,
                                  secret: string)
    requires IsRun(env, ss, es) && i < |es| && es[i].act == Action.Grants(DoRefresh(t, client, secret)) && es[i].cut > 0
    requires AuthenticatesClient(env, ss[i], client, secret) && t in ss[i].grants.refresh
    requires ss[i].grants.refresh[t].revokedAt.None? && es[i].at.first < ss[i].grants.refresh[t].expiresAt
    requires !Output(env, ss, es, i).TokensIssued?
    ensures Linear(ss[i].grants) && Linear(ss[i + 1].grants) && ChainDead(ss[i + 1].grants, Root(ss[i].grants, t))
  {
    hide Linear, Root, AuthenticatesClient, RefreshGrant;
    LinearAlways(env, ss, es, i);
    LinearAlways(env, ss, es, i + 1);
    FreshAlways(env, ss, es, i);
    FailedRefreshSpends(env, ss[i], es[i].at, es[i].cut, t, client, secret);
    var g, h := ss[i].grants, ss[i + 1].grants;
    RootIsAUsedCode(g, t);
    forall s | s in h.refresh && Root(h, s) == Root(g, t) ensures h.refresh[s].revokedAt.Some? {
      RootStays(env, ss[i], es[i], s);
      OneLiveTokenPerCode(env, ss, es, i, s, t);
    }
  }

  lemma UsedCodeDiesWithRevocation(env: Env, ss: seq<Db>, es: seq<Event>, j: nat, u: UserId, c: Token)
    requires IsRun(env, ss, es) && j < |es| && Revokes(env, ss[j], es[j], u)
    requires c in ss[j].grants.codes && ss[j].grants.codes[c].usedAt.Some? && ss[j].grants.codes[c].user == u
    ensures Linear(ss[j + 1].grants) && ChainDead(ss[j + 1].grants, c)
  {
    hide Next, Linear, Root, Authorizes, Revokes;
    LinearAlways(env, ss, es, j + 1);
    FreshAlways(env, ss, es, j);
    CodeLaw(env, ss[j], es[j], c);
    var g := ss[j + 1].grants;
    forall t | t in g.refresh && Root(g, t) == c ensures g.refresh[t].revokedAt.Some? {
      RootIsAUsedCode(g, t);
      StepRevokes(env, ss[j], es[j], u, t);
    }
  }

  /** The authorization of a code that exists when a step starts came before it. */
  lemma CodeExpiresSoon(env: Env, ss: seq<Db>, es: seq<Event>, j: nat, c: Token)
    requires IsRun(env, ss, es) && j < |es| && c in ss[j].grants.codes
    ensures ss[j].grants.codes[c].expiresAt <= es[j].at.first + AUTH_CODE_TTL
  {
    hide Next, Authorizes;
    CodeWasAuthorized(env, ss, es, j, c);
    var k :| k < j && AuthorizedAt(env, ss, es, k, c, ss[j].grants.codes[c]);
    AuthorizesExpiry(env, ss[k], es[k], c, ss[j].grants.codes[c].(usedAt := None));
  }

  lemma AuthorizesExpiry(env: Env, db: Db, e: Event, c: Token, row: Code)
    requires Authorizes(env, db, e, c, row)
    ensures row.expiresAt == e.at.second + AUTH_CODE_TTL
  {
  }

  /**
    The step does not revoke codes: a chain authorized before it can still be alive
    afterwards, but only if its code was unused at the step and redeemed within five minutes of it.
   */
  lemma ChainsAliveAfterRevocation(env: Env, ss: seq<Db>, es: seq<Event>, j: nat, k: nat, u: UserId, t: Token)
    requires IsRun(env, ss, es) && j < k < |ss| && Revokes(env, ss[j], es[j], u)
    requires t in ss[k].grants.refresh && ss[k].grants.refresh[t].user == u && ss[k].grants.refresh[t].revokedAt.None?
    ensures Linear(ss[k].grants)
    ensures var c := Root(ss[k].grants, t);
            c < ss[j].next ==>
              c in ss[j].grants.codes && ss[j].grants.codes[c].usedAt.None? &&
              c in ss[k].grants.codes && ss[k].grants.codes[c].usedAt.Some? &&
              es[j].at.first <= ss[k].grants.codes[c].usedAt.value < es[j].at.first + AUTH_CODE_TTL
  {
    hide Next, Linear, Root;
    LinearAlways(env, ss, es, k);
    var c := Root(ss[k].grants, t);
    RootIsAUsedCode(ss[k].grants, t);
    if c < ss[j].next {
      CodeBetween(env, ss, es, j, k, c);
      CodeExpiresSoon(env, ss, es, j, c);
      if ss[j].grants.codes[c].usedAt.Some? {
        UsedCodeDiesWithRevocation(env, ss, es, j, u, c);
        FreshAlways(env, ss, es, j);
        FreshStep(env, ss[j], es[j]);
        ChainDeadStays(env, ss, es, j + 1, k, c);
      } else {
        var x := ss[k].grants.codes[c].usedAt.value;
        assert UsedBetween(es, j, k, c, x);
      }
    }
  }

  // ---- codes outlive a revocation ----

  /** No credential step but the deletion of a user touches an authorization code. */
  lemma CredentialStepsKeepCodes(env: Env, db: Db, at: Clock, cut: nat, a: CredentialAction)
    requires !a.DoDeleteUser?
    ensures CredentialStep(env, db, at, cut, a).0.grants.codes == db.grants.codes
  {
    hide RevokeAll;
  }

  lemma DeletionKeepsOthersCodes(db: Db, cut: nat, actor: Actor, id: UserId, c: Token)
    requires c in db.grants.codes && db.grants.codes[c].user in DeleteUser(db, cut, actor, id).0.accounts.users
    ensures var b := DeleteUser(db, cut, actor, id).0; c in b.grants.codes && b.grants.codes[c] == db.grants.codes[c]
  {
  }

  /** An authenticated client presents the code, and the infrastructure lets its consumption through. */
  predicate Attempts(env: Env, db: Db, e: Event, c: Token) {
    Presents(e, c) && e.cut > 0 &&
        AuthenticatesClient(env, db, e.act.grant.exchange.client, e.act.grant.exchange.secret)
  }

  lemma GrantStepsKeepCode(env: Env, db: Db, e: Event, a: GrantAction, c: Token)
    requires e.act == Action.Grants(a) && c in db.grants.codes && c != db.next && !Attempts(env, db, e, c)
    ensures var b := GrantStep(env, db, e.at, e.cut, a).0;
            c in b.grants.codes && b.grants.codes[c] == db.grants.codes[c]
  {
    hide AuthorizeError, ResolveSession, AuthenticatesClient, CodeMatches, RecordAccess;
  }

  /** A step that is no attempt on the code, and does not delete its user, keeps it. */
  lemma StepKeepsCode(env: Env, db: Db, e: Event, c: Token)
    requires Fresh(db) && c in db.grants.codes && !Attempts(env, db, e, c) &&
             db.grants.codes[c].user in Next(env, db, e).0.accounts.users
    ensures var b := Next(env, db, e).0; c in b.grants.codes && b.grants.codes[c] == db.grants.codes[c]
  {
    hide MailStep, EntryStep, GrantStep, CredentialStep, ClientStep;
    assert FreshAt(db, c);
    match e.act
    case Grants(a) => GrantStepsKeepCode(env, db, e, a, c);
    case Credential(DoDeleteUser(actor, id)) =>
      assert Next(env, db, e) == DeleteUser(db, e.cut, actor, id) by { DeletionStep(env, db, e, actor, id); }
      DeletionKeepsOthersCodes(db, e.cut, actor, id, c);
    case Credential(a) => CredentialStepsKeepCodes(env, db, e.at, e.cut, a);
    case _ =>
  }

  lemma DeletionStep(env: Env, db: Db, e: Event, actor: Actor, id: UserId)
    requires e.act == Credential(DoDeleteUser(actor, id))
    ensures Next(env, db, e) == DeleteUser(db, e.cut, actor, id)
  {
  }

  lemma CodeHasUser(db: Db, c: Token)
    requires Owned(db) && c in db.grants.codes
    ensures db.grants.codes[c].user in db.accounts.users
  {
    assert OwnerExists(db, c);
  }

  lemma {:induction false} UnattemptedCodeStays(env: Env, ss: seq<Db>, es: seq<Event>, i: nat, k: nat, n: nat, c: Token)
    requires IsRun(env, ss, es) && i <= k <= n < |ss| && c in ss[i].grants.codes &&
             ss[i].grants.codes[c].user in ss[n].accounts.users
    requires forall m :: i <= m < k ==> !Attempts(env, ss[m], es[m], c)
    ensures c in ss[k].grants.codes && ss[k].grants.codes[c] == ss[i].grants.codes[c]
    decreases k
  {
    hide Next, Owned;
    if i < k {
      UnattemptedCodeStays(env, ss, es, i, k - 1, n, c);
      var u := ss[i].grants.codes[c].user;
      OwnedAlways(env, ss, es, i);
      CodeHasUser(ss[i], c);
      FreshAlways(env, ss, es, i);
      assert FreshAt(ss[i], u);
      NextGrows(env, ss, es, i, k);
      if u !in ss[k].accounts.users { DeletedForGood(env, ss, es, k, n, u); }
      FreshAlways(env, ss, es, k - 1);
      StepKeepsCode(env, ss[k - 1], es[k - 1], c);
    }
  }

  lemma ExchangeStoresItsChild(env: Env, db: Db, at: Clock, cut: nat, x: ExchangeInput)
    requires var out := ExchangeCode(env, db, at, cut, x).1; out.TokensIssued? && out.refresh.Some?
    ensures var t := ExchangeCode(env, db, at, cut, x).1.refresh.value;
            var h := ExchangeCode(env, db, at, cut, x).0.grants;
            t in h.refresh && h.refresh[t].revokedAt.None? && t in h.lineage && h.lineage[t] == FromCode(x.code)
  {
    hide AuthenticatesClient, CodeMatches, Scopes.Includes;
  }

  /**
    What a revocation leaves: a code of the user that is unused at the step and that no authenticated
    client presents before step k succeeds at k exactly as if there had been no revocation,
    and its refresh token is then a live one that descends from it.
   */
  lemma CodesOutliveRevocation(env: Env, ss: seq<Db>, es: seq<Event>, j: nat, k: nat, u: UserId, x: ExchangeInput)
    requires IsRun(env, ss, es) && j < k < |es| && Revokes(env, ss[j], es[j], u) &&
             es[k].act == Action.Grants(DoExchange(x))
    requires x.code in ss[j].grants.codes && ss[j].grants.codes[x.code].user == u &&
             ss[j].grants.codes[x.code].usedAt.None?
    requires (forall m :: j < m < k ==> !Attempts(env, ss[m], es[m], x.code)) && u in ss[k].accounts.users
    ensures Output(env, ss, es, k).TokensIssued? <==>
              EnoughOperations(ss[j].grants.codes[x.code].scope, es[k].cut) &&
              exists n :: 0 <= n < j && Issued(env, ss[n], es[n], x.code) &&
                          Entitles(env, ss[n], es[n], es[n].act.grant.authorize, ss[k], es[k], x, u)
    ensures Linear(ss[k + 1].grants)
    ensures var out := Output(env, ss, es, k); var h := ss[k + 1].grants;
            out.TokensIssued? && out.refresh.Some? ==>
              out.refresh.value in h.refresh && h.refresh[out.refresh.value].revokedAt.None? &&
                  Root(h, out.refresh.value) == x.code
  {
    hide Next, Issued, Entitles, EnoughOperations, Linear, Revokes;
    LinearAlways(env, ss, es, k + 1);
    assert !Attempts(env, ss[j], es[j], x.code) by { RevocationsPresentNothing(env, ss[j], es[j], u, x.code); }
    UnattemptedCodeStays(env, ss, es, j, k, k, x.code);
    ExchangeSucceedsIff(env, ss, es, k, x);
    FreshAlways(env, ss, es, j);
    assert FreshAt(ss[j], x.code);
    forall n | 0 <= n < k && Issued(env, ss[n], es[n], x.code) ensures n < j {
      IssuedIsNext(env, ss[n], es[n], x.code);
      if j <= n { NextGrows(env, ss, es, j, n); }
    }
    if Output(env, ss, es, k).TokensIssued? && Output(env, ss, es, k).refresh.Some? {
      NewChild(env, ss, es, k, x);
    }
  }

  lemma RevocationsPresentNothing(env: Env, db: Db, e: Event, u: UserId, c: Token)
    requires Revokes(env, db, e, u)
    ensures !Presents(e, c)
  {
  }

  lemma NewChild(env: Env, ss: seq<Db>, es: seq<Event>, k: nat, x: ExchangeInput)
    requires IsRun(env, ss, es) && k < |es| && es[k].act == Action.Grants(DoExchange(x)) && Linear(ss[k + 1].grants)
    requires Output(env, ss, es, k).TokensIssued? && Output(env, ss, es, k).refresh.Some?
    ensures var t := Output(env, ss, es, k).refresh.value; var h := ss[k + 1].grants;
            t in h.refresh && h.refresh[t].revokedAt.None? && Root(h, t) == x.code
  {
    hide ExchangeCode, Linear;
    ExchangeStoresItsChild(env, ss[k], es[k].at, es[k].cut, x);
  }
}
