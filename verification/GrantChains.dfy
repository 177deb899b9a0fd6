/** Authorization codes and the chains of refresh tokens that descend from them (section 6 of RFC 6749). */
module GrantChains {
  import opened Domain
  import opened Tables
  import opened UseCases
  import opened Machine
  import opened Laws
  import opened Exchanges
  import Scopes

  /** A code has a challenge exactly when its method is S256. */
  predicate CodeFits(g: Grants, c: Token) {
    c in g.codes ==>
      match g.codes[c].challenge
      case None => g.codes[c].challengeMethod.None?
      case Some(challenge) => challenge != "" && g.codes[c].challengeMethod == Some(S256)
  }

  /** What a refresh token was issued for is spent, and was for the same user, client and scope. */
  predicate RefreshFits(g: Grants, t: Token) {
    t in g.refresh ==>
      && t in g.lineage
      && Scopes.Includes(g.refresh[t].scope, Scopes.OFFLINE_ACCESS)
      && match g.lineage[t]
         case FromCode(c) =>
           c in g.codes && c < t && g.codes[c].usedAt.Some? && g.codes[c].user == g.refresh[t].user &&
           g.codes[c].client == g.refresh[t].client && g.codes[c].scope == g.refresh[t].scope
         case FromRefresh(p) =>
           p in g.refresh && p < t && g.refresh[p].revokedAt.Some? && g.refresh[p].user == g.refresh[t].user &&
           g.refresh[p].client == g.refresh[t].client && g.refresh[p].scope == g.refresh[t].scope
  }

  /** A code or refresh token is exchanged for at most one refresh token. */
  predicate OneChild(g: Grants, s: Token, t: Token) {
    (s in g.refresh && t in g.refresh && s in g.lineage && t in g.lineage && g.lineage[s] == g.lineage[t]) ==> s == t
  }

  ghost predicate Linear(g: Grants) {
    && (forall c {:trigger CodeFits(g, c)} :: CodeFits(g, c))
    && (forall t {:trigger RefreshFits(g, t)} :: RefreshFits(g, t))
    && (forall s, t {:trigger OneChild(g, s, t)} :: OneChild(g, s, t))
  }

  // ---- every operation keeps the chains linear ----

  lemma CreateCodeKeeps(g: Grants, c: Token, code: Code)
    requires Linear(g) && c !in g.codes && code.usedAt.None?
    requires CodeFits(g.CreateCode(c, code), c)
    ensures Linear(g.CreateCode(c, code))
  {
    var h := g.CreateCode(c, code);
    forall k ensures CodeFits(h, k) { assert CodeFits(g, k); }
    forall t ensures RefreshFits(h, t) { assert RefreshFits(g, t); }
    forall s, t {:trigger OneChild(h, s, t)} ensures OneChild(h, s, t) { assert OneChild(g, s, t); }
  }

  lemma ConsumeCodeKeeps(g: Grants, c: Token, at: Time, h: Grants, row: Code)
    requires Linear(g) && g.ConsumeCode(c, at) == Ok((h, row))
    ensures Linear(h)
    ensures forall t :: t in h.refresh && t in h.lineage ==> h.lineage[t] != FromCode(c)
  {
    forall k ensures CodeFits(h, k) { assert CodeFits(g, k); }
    forall t ensures RefreshFits(h, t) { assert RefreshFits(g, t); }
    forall s, t {:trigger OneChild(h, s, t)} ensures OneChild(h, s, t) { assert OneChild(g, s, t); }
    forall t | t in h.refresh && t in h.lineage ensures h.lineage[t] != FromCode(c) { assert RefreshFits(g, t); }
  }

  lemma ConsumeRefreshKeeps(g: Grants, p: Token, at: Time, h: Grants, row: Refresh)
    requires Linear(g) && g.ConsumeRefresh(p, at) == Ok((h, row))
    ensures Linear(h) && Scopes.Includes(row.scope, Scopes.OFFLINE_ACCESS)
    ensures forall t :: t in h.refresh && t in h.lineage ==> h.lineage[t] != FromRefresh(p)
  {
    assert RefreshFits(g, p);
    forall k ensures CodeFits(h, k) { assert CodeFits(g, k); }
    forall t ensures RefreshFits(h, t) { assert RefreshFits(g, t); }
    forall s, t {:trigger OneChild(h, s, t)} ensures OneChild(h, s, t) { assert OneChild(g, s, t); }
    forall t | t in h.refresh && t in h.lineage ensures h.lineage[t] != FromRefresh(p) { assert RefreshFits(g, t); }
  }

  lemma CreateRefreshKeeps(g: Grants, t: Token, row: Refresh, origin: Origin)
    requires Linear(g) && t !in g.refresh && RefreshFits(g.CreateRefresh(t, row, origin), t)
    requires forall s :: s in g.refresh && s in g.lineage ==> g.lineage[s] != origin
    ensures Linear(g.CreateRefresh(t, row, origin))
  {
    var h := g.CreateRefresh(t, row, origin);
    forall k ensures CodeFits(h, k) { assert CodeFits(g, k); }
    forall k ensures RefreshFits(h, k) { assert RefreshFits(g, k); }
    forall s, k {:trigger OneChild(h, s, k)}
      ensures OneChild(h, s, k)
    {
      assert OneChild(g, s, k);
      assert RefreshFits(g, s) && RefreshFits(g, k);
    }
  }

  lemma RevokeAllRefreshKeeps(g: Grants, id: UserId, at: Time)
    requires Linear(g)
    ensures Linear(g.RevokeAllRefresh(id, at))
  {
    var h := g.RevokeAllRefresh(id, at);
    forall k ensures CodeFits(h, k) { assert CodeFits(g, k); }
    forall t ensures RefreshFits(h, t) { assert RefreshFits(g, t); }
    forall s, t {:trigger OneChild(h, s, t)} ensures OneChild(h, s, t) { assert OneChild(g, s, t); }
  }

  lemma DeleteUserKeeps(g: Grants, id: UserId)
    requires Linear(g)
    ensures Linear(g.DeleteUser(id))
  {
    var h := g.DeleteUser(id);
    forall k ensures CodeFits(h, k) { assert CodeFits(g, k); }
    forall t ensures RefreshFits(h, t) { assert RefreshFits(g, t); }
    forall s, t {:trigger OneChild(h, s, t)} ensures OneChild(h, s, t) { assert OneChild(g, s, t); }
  }

  // ---- use cases ----

  lemma AuthorizeKeeps(env: Env, db: Db, at: Clock, cut: nat, i: AuthorizeInput)
    requires Linear(db.grants) && db.next !in db.grants.codes
    ensures Linear(Authorize(env, db, at, cut, i).0.grants)
  {
    hide Linear, AuthorizeError;
    if ResolveSession(db, at.first, i.session).Some? {
      CreateCodeKeeps(db.grants, db.next, NewCode(ResolveSession(db, at.first, i.session).value, i, at.second));
    }
  }

  lemma IssueTokensKeeps(db: Db, at: Time, cut: nat, user: UserId, client: ClientId, scope: string, origin: Origin)
    requires Linear(db.grants) && user in db.accounts.users && db.next !in db.grants.refresh
    requires forall s :: s in db.grants.refresh && s in db.grants.lineage ==> db.grants.lineage[s] != origin
    requires Scopes.Includes(scope, Scopes.OFFLINE_ACCESS) ==>
               RefreshFits(db.grants.CreateRefresh(db.next, Refresh(user, client, scope, at + REFRESH_TOKEN_TTL, None),
                                                   origin), db.next)
    ensures Linear(IssueTokens(db, at, cut, user, client, scope, origin).0.grants)
  {
    hide Linear;
    if Scopes.Includes(scope, Scopes.OFFLINE_ACCESS) {
      CreateRefreshKeeps(db.grants, db.next, Refresh(user, client, scope, at + REFRESH_TOKEN_TTL, None), origin);
    }
  }

  lemma ExchangeKeeps(env: Env, db: Db, at: Clock, cut: nat, i: ExchangeInput)
    requires Linear(db.grants) && Fresh(db)
    ensures Linear(ExchangeCode(env, db, at, cut, i).0.grants)
  {
    hide Linear, IssueTokens, CodeMatches, Scopes.Includes;
    assert FreshAt(db, db.next) && FreshAt(db, i.code);
    var consumed := db.grants.ConsumeCode(i.code, at.first);
    if consumed.Ok? {
      var (grants1, row) := consumed.value;
      ConsumeCodeKeeps(db.grants, i.code, at.first, grants1, row);
      if cut > 1 && i.client in db.clients && CodeMatches(env, db.clients[i.client], row, i) &&
          row.user in db.accounts.users {
        assert row.client == i.client by { CodeMatchesClient(env, db.clients[i.client], row, i); }
        IssueTokensKeeps(db.(grants := grants1), at.second, cut - 2, row.user, i.client, row.scope, FromCode(i.code));
      }
    }
  }

  lemma CodeMatchesClient(env: Env, client: Client, row: Code, i: ExchangeInput)
    requires CodeMatches(env, client, row, i)
    ensures row.client == i.client
  {
  }

  lemma RefreshKeeps(env: Env, db: Db, at: Clock, cut: nat, t: Token, client: ClientId, secret: string)
    requires Linear(db.grants) && Fresh(db)
    ensures Linear(RefreshGrant(env, db, at, cut, t, client, secret).0.grants)
  {
    hide Linear, IssueTokens, AuthenticatesClient, Scopes.Includes;
    assert FreshAt(db, db.next) && FreshAt(db, t);
    var consumed := db.grants.ConsumeRefresh(t, at.first);
    if consumed.Ok? {
      var (grants1, row) := consumed.value;
      ConsumeRefreshKeeps(db.grants, t, at.first, grants1, row);
      if cut > 1 && row.client == client && row.user in db.accounts.users {
        IssueTokensKeeps(db.(grants := grants1), at.second, cut - 2, row.user, client, row.scope, FromRefresh(t));
      }
    }
  }

  lemma RevokeAllKeeps(db: Db, at: Time, cut: nat, user: UserId)
    requires Linear(db.grants)
    ensures Linear(RevokeAll(db, at, cut, user).0.grants)
  {
    hide Linear;
    RevokeAllRefreshKeeps(db.grants, user, at);
  }

  lemma CredentialKeeps(env: Env, db: Db, at: Clock, cut: nat, a: CredentialAction)
    requires Linear(db.grants)
    ensures Linear(CredentialStep(env, db, at, cut, a).0.grants)
  {
    hide Linear, RevokeAll;
    forall d: Db, x: Time, n: nat, u: UserId {:trigger RevokeAll(d, x, n, u)} | d.grants == db.grants
      ensures Linear(RevokeAll(d, x, n, u).0.grants)
    {
      RevokeAllKeeps(d, x, n, u);
    }
    if a.DoDeleteUser? {
      DeleteUserKeeps(db.grants, a.user);
    }
  }

  lemma StepKeeps(env: Env, db: Db, e: Event)
    requires Linear(db.grants) && Fresh(db)
    ensures Linear(Next(env, db, e).0.grants)
  {
    hide Linear, MailStep, EntryStep, CredentialStep, ClientStep, Authorize, ExchangeCode, RefreshGrant;
    assert FreshAt(db, db.next);
    match e.act
    case Grants(DoAuthorize(i)) => AuthorizeKeeps(env, db, e.at, e.cut, i);
    case Grants(DoExchange(i)) => ExchangeKeeps(env, db, e.at, e.cut, i);
    case Grants(DoRefresh(t, client, secret)) => RefreshKeeps(env, db, e.at, e.cut, t, client, secret);
    case Credential(a) => CredentialKeeps(env, db, e.at, e.cut, a);
    case _ =>
  }

  lemma {:induction false} LinearAlways(env: Env, ss: seq<Db>, es: seq<Event>, i: nat)
    requires IsRun(env, ss, es) && i < |ss|
    ensures Linear(ss[i].grants)
  {
    hide Next;
    if i > 0 {
      LinearAlways(env, ss, es, i - 1);
      FreshAlways(env, ss, es, i - 1);
      StepKeeps(env, ss[i - 1], es[i - 1]);
    }
  }

  /** The branch of the code exchange for a challenge with another method is never taken. */
  lemma ChallengeIffS256(env: Env, ss: seq<Db>, es: seq<Event>, i: nat, c: Token)
    requires IsRun(env, ss, es) && i < |ss| && c in ss[i].grants.codes
    ensures var code := ss[i].grants.codes[c];
            Coalesce(code.challenge) != "" <==> Coalesce(code.challengeMethod) == S256
  {
    hide Next;
    LinearAlways(env, ss, es, i);
    assert CodeFits(ss[i].grants, c);
  }

  // ---- chains ----

  /** From the token issued for a code down to t. */
  ghost function Chain(g: Grants, t: Token): (ts: seq<Token>)
    requires Linear(g) && t in g.refresh
    ensures |ts| > 0 && ts[|ts| - 1] == t
  {
    assert RefreshFits(g, t);
    match g.lineage[t]
    case FromCode(_) => [t]
    case FromRefresh(p) => Chain(g, p) + [t]
  }

  ghost function Root(g: Grants, t: Token): Token
    requires Linear(g) && t in g.refresh
  {
    assert RefreshFits(g, t);
    match g.lineage[t]
    case FromCode(c) => c
    case FromRefresh(p) => Root(g, p)
  }

  /** Element k of a chain: the first was issued for the root code, each other one for its predecessor. */
  predicate IsLink(g: Grants, root: Token, ts: seq<Token>, k: nat)
    requires k < |ts|
  {
    && ts[k] in g.refresh && ts[k] in g.lineage
    && g.lineage[ts[k]] == (if k == 0 then FromCode(root) else FromRefresh(ts[k - 1]))
    && (k < |ts| - 1 ==> g.refresh[ts[k]].revokedAt.Some?)
    && root in g.codes && g.codes[root].usedAt.Some?
    && g.refresh[ts[k]].user == g.codes[root].user
    && g.refresh[ts[k]].client == g.codes[root].client
    && g.refresh[ts[k]].scope == g.codes[root].scope
  }

  lemma {:induction false} ChainLinks(g: Grants, t: Token, k: nat)
    requires Linear(g) && t in g.refresh && k < |Chain(g, t)|
    ensures IsLink(g, Root(g, t), Chain(g, t), k)
    decreases t
  {
    assert RefreshFits(g, t);
    match g.lineage[t]
    case FromCode(_) =>
    case FromRefresh(p) =>
      ChainLinks(g, p, if k < |Chain(g, p)| then k else |Chain(g, p)| - 1);
  }

  lemma {:induction false} SameRootSamePrefix(g: Grants, s: Token, t: Token, k: nat)
    requires Linear(g) && s in g.refresh && t in g.refresh && Root(g, s) == Root(g, t)
    requires k < |Chain(g, s)| && k < |Chain(g, t)|
    ensures Chain(g, s)[k] == Chain(g, t)[k]
    decreases k
  {
    hide Linear, Chain, Root;
    ChainLinks(g, s, k);
    ChainLinks(g, t, k);
    if k > 0 {
      SameRootSamePrefix(g, s, t, k - 1);
    }
    LinearOneChild(g, Chain(g, s)[k], Chain(g, t)[k]);
  }

  lemma LinearOneChild(g: Grants, s: Token, t: Token)
    requires Linear(g)
    ensures OneChild(g, s, t)
  {
  }

  /**
    Every refresh token ends a chain that starts at one used code: each token was issued for
    its predecessor, which is revoked, and all have the code's user, client and scope.
   */
  lemma RefreshTokensFormChains(env: Env, ss: seq<Db>, es: seq<Event>, i: nat, t: Token, k: nat)
    requires IsRun(env, ss, es) && i < |ss| && t in ss[i].grants.refresh
    ensures Linear(ss[i].grants)
    ensures var g := ss[i].grants;
            k < |Chain(g, t)| ==>
                  IsLink(g, Root(g, t), Chain(g, t), k) && Scopes.Includes(g.refresh[t].scope, Scopes.OFFLINE_ACCESS)
  {
    hide Next, Scopes.Includes;
    LinearAlways(env, ss, es, i);
    assert RefreshFits(ss[i].grants, t);
    if k < |Chain(ss[i].grants, t)| {
      ChainLinks(ss[i].grants, t, k);
    }
  }

  /** Two tokens that descend from one code lie on one chain. */
  lemma ChainsFromOneCodeAgree(env: Env, ss: seq<Db>, es: seq<Event>, i: nat, s: Token, t: Token)
    requires IsRun(env, ss, es) && i < |ss| && s in ss[i].grants.refresh && t in ss[i].grants.refresh
    ensures Linear(ss[i].grants)
    ensures var g := ss[i].grants;
            Root(g, s) == Root(g, t) ==> Chain(g, s) <= Chain(g, t) || Chain(g, t) <= Chain(g, s)
  {
    hide Next, Chain, Root, Linear;
    LinearAlways(env, ss, es, i);
    var g := ss[i].grants;
    if Root(g, s) == Root(g, t) {
      forall k | 0 <= k < |Chain(g, s)| && k < |Chain(g, t)| ensures Chain(g, s)[k] == Chain(g, t)[k] {
        SameRootSamePrefix(g, s, t, k);
      }
    }
  }

  /** At most one refresh token of a code is unrevoked. */
  lemma OneLiveTokenPerCode(env: Env, ss: seq<Db>, es: seq<Event>, i: nat, s: Token, t: Token)
    requires IsRun(env, ss, es) && i < |ss| && s in ss[i].grants.refresh && t in ss[i].grants.refresh
    ensures Linear(ss[i].grants)
    ensures var g := ss[i].grants;
            Root(g, s) == Root(g, t) && g.refresh[s].revokedAt.None? && g.refresh[t].revokedAt.None? ==> s == t
  {
    hide Next, Chain, Root, Linear;
    LinearAlways(env, ss, es, i);
    var g := ss[i].grants;
    if Root(g, s) == Root(g, t) {
      LastOfShorterChain(g, s, t);
      LastOfShorterChain(g, t, s);
    }
  }

  lemma LastOfShorterChain(g: Grants, s: Token, t: Token)
    requires Linear(g) && s in g.refresh && t in g.refresh && Root(g, s) == Root(g, t)
    ensures |Chain(g, s)| <= |Chain(g, t)| ==> s == t || g.refresh[s].revokedAt.Some?
  {
    hide Chain, Root, Linear;
    var k := |Chain(g, s)| - 1;
    if k < |Chain(g, t)| {
      SameRootSamePrefix(g, s, t, k);
      ChainLinks(g, t, k);
    }
  }

  /** A successful refresh spends the presented token and returns one replacement, which continues its chain. */
  lemma RefreshContinuesTheChain(env: Env, ss: seq<Db>, es: seq<Event>, i: nat, t: Token, client: ClientId,
                                 secret: string)
    requires IsRun(env, ss, es) && i < |es| && es[i].act == Action.Grants(DoRefresh(t, client, secret))
    requires Output(env, ss, es, i).TokensIssued?
    ensures Linear(ss[i].grants) && Linear(ss[i + 1].grants)
    ensures var g, h, out := ss[i].grants, ss[i + 1].grants, Output(env, ss, es, i);
            t in g.refresh && g.refresh[t].client == client && out.scope == g.refresh[t].scope &&
            out.access.sub == g.refresh[t].user && out.access.aud == client &&
            out.refresh.Some? && out.refresh.value !in g.refresh &&
            h.refresh == g.refresh[t := g.refresh[t].(revokedAt := Some(es[i].at.first))][out.refresh.value :=
              Refresh(g.refresh[t].user, client, out.scope, es[i].at.second + 30 * DAY, None)] &&
            Chain(h, out.refresh.value) == Chain(h, t) + [out.refresh.value] && Root(h, out.refresh.value) == Root(h, t)
  {
    hide Linear, AuthenticatesClient, Scopes.Includes;
    LinearAlways(env, ss, es, i);
    LinearAlways(env, ss, es, i + 1);
    FreshAlways(env, ss, es, i);
    assert FreshAt(ss[i], ss[i].next) && FreshAt(ss[i], t) && ss[i].next !in ss[i].grants.refresh;
    assert Scopes.Includes(ss[i].grants.refresh[t].scope, Scopes.OFFLINE_ACCESS) by {
      ConsumeRefreshKeeps(ss[i].grants, t, es[i].at.first, ss[i].grants.ConsumeRefresh(t, es[i].at.first).value.0,
                          ss[i].grants.refresh[t]);
    }
  }

  /**
    A refresh succeeds exactly for a live token of an authenticated client whose user may authorize,
    given its two writes, the user read and the signature.
   */
  lemma RefreshSucceedsIff(env: Env, ss: seq<Db>, es: seq<Event>, i: nat, t: Token, client: ClientId, secret: string)
    requires IsRun(env, ss, es) && i < |es| && es[i].act == Action.Grants(DoRefresh(t, client, secret))
    ensures var g := ss[i].grants;
            Output(env, ss, es, i).TokensIssued? <==>
              ProvesClient(env, ss[i].clients, client, secret) && es[i].cut >= 4 &&
              t in g.refresh && g.refresh[t].revokedAt.None? && es[i].at.first < g.refresh[t].expiresAt &&
              g.refresh[t].client == client && MayAuthorize(ss[i].accounts, g.refresh[t].user)
  {
    hide Linear, AuthenticatesClient, ProvesClient, Scopes.Includes;
    LinearAlways(env, ss, es, i);
    ClientProven(env, ss[i], client, secret);
    if t in ss[i].grants.refresh {
      RefreshScope(ss[i].grants, t);
    }
  }

  lemma RefreshScope(g: Grants, t: Token)
    requires Linear(g) && t in g.refresh
    ensures Scopes.Includes(g.refresh[t].scope, Scopes.OFFLINE_ACCESS)
  {
    assert RefreshFits(g, t);
  }
}
