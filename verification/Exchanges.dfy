/** What a successful code exchange says about the past (section 4.1.3 of RFC 6749, section 4.6 of RFC 7636). */
module Exchanges {
  import opened Domain
  import opened Tables
  import opened UseCases
  import opened Machine
  import opened Laws
  import opened GrantLaws
  import Scopes

  /** The code's row, before it was used. */
  ghost predicate AuthorizedAt(env: Env, ss: seq<Db>, es: seq<Event>, k: int, c: Token, row: Code)
    requires |es| <= |ss|
  {
    0 <= k < |es| && Authorizes(env, ss[k], es[k], c, row.(usedAt := None))
  }

  /** Every stored code was issued by one earlier authorization. */
  lemma {:induction false} CodeWasAuthorized(env: Env, ss: seq<Db>, es: seq<Event>, j: nat, c: Token)
    requires IsRun(env, ss, es) && j < |ss| && c in ss[j].grants.codes
    ensures exists k :: k < j && AuthorizedAt(env, ss, es, k, c, ss[j].grants.codes[c])
  {
    hide Next, Authorizes;
    if j > 0 {
      FreshAlways(env, ss, es, j - 1);
      CodeLaw(env, ss[j - 1], es[j - 1], c);
      if c in ss[j - 1].grants.codes {
        CodeWasAuthorized(env, ss, es, j - 1, c);
        var k :| k < j - 1 && AuthorizedAt(env, ss, es, k, c, ss[j - 1].grants.codes[c]);
        assert AuthorizedAt(env, ss, es, k, c, ss[j].grants.codes[c]);
      } else {
        NewCodeIsUnused(env, ss[j - 1], es[j - 1], c, ss[j].grants.codes[c]);
        assert AuthorizedAt(env, ss, es, j - 1, c, ss[j].grants.codes[c]);
      }
    }
  }

  lemma NewCodeIsUnused(env: Env, db: Db, e: Event, c: Token, row: Code)
    requires Authorizes(env, db, e, c, row)
    ensures row == row.(usedAt := None)
  {
  }

  /** A client without a secret sends none; any other one sends the secret whose hash is stored. */
  predicate ProvesClient(env: Env, clients: ClientTable, id: ClientId, secret: string) {
    && id in clients
    && match clients[id].auth
       case NoSecret => secret == ""
       case ClientSecretPost => secret != "" && env.verify(clients[id].secretHash, secret)
  }

  lemma ClientProven(env: Env, db: Db, id: ClientId, secret: string)
    ensures AuthenticatesClient(env, db, id, secret) <==> ProvesClient(env, db.clients, id, secret)
  {
  }

  /** The request at the token endpoint comes with this client id and this secret. */
  predicate AsksForTokens(a: GrantAction, client: ClientId, secret: string) {
    match a
    case DoExchange(x) => x.client == client && x.secret == secret
    case DoRefresh(_, id, s) => id == client && s == secret
    case _ => false
  }

  lemma UnprovenClientIsRefused(env: Env, db: Db, at: Clock, cut: nat, a: GrantAction, client: ClientId, secret: string)
    requires AsksForTokens(a, client, secret) && !ProvesClient(env, db.clients, client, secret)
    ensures GrantStep(env, db, at, cut, a) == (db, Failed(InvalidClient))
  {
    hide ProvesClient, AuthenticatesClient, CodeMatches, IssueTokens;
    ClientProven(env, db, client, secret);
  }

  lemma ProvenClientIsAccepted(env: Env, db: Db, at: Clock, cut: nat, a: GrantAction, client: ClientId, secret: string)
    requires AsksForTokens(a, client, secret) && ProvesClient(env, db.clients, client, secret)
    ensures GrantStep(env, db, at, cut, a).1 != Failed(InvalidClient)
  {
    hide ProvesClient, AuthenticatesClient, CodeMatches;
    ClientProven(env, db, client, secret);
  }

  /**
    Whoever asks for tokens must prove to be the client. Otherwise, and only then, the answer is
    InvalidClient; nothing changes then.
   */
  lemma InvalidClientIff(env: Env, ss: seq<Db>, es: seq<Event>, n: nat, a: GrantAction, client: ClientId,
                         secret: string)
    requires IsRun(env, ss, es) && n < |es| && es[n].act == Action.Grants(a) && AsksForTokens(a, client, secret)
    ensures Output(env, ss, es, n) == Failed(InvalidClient) <==> !ProvesClient(env, ss[n].clients, client, secret)
    ensures Output(env, ss, es, n) == Failed(InvalidClient) ==> ss[n + 1] == ss[n]
  {
    hide ProvesClient, GrantStep;
    if ProvesClient(env, ss[n].clients, client, secret) {
      ProvenClientIsAccepted(env, ss[n], es[n].at, es[n].cut, a, client, secret);
    } else {
      UnprovenClientIsRefused(env, ss[n], es[n].at, es[n].cut, a, client, secret);
    }
  }

  /** The conditions under which one authorization a, made with the store `before`, entitles to one exchange x. */
  predicate Entitles(env: Env, before: Db, granted: Event, a: AuthorizeInput, now: Db, redeemed: Event,
                     x: ExchangeInput, user: UserId) {
    && a.client == x.client && a.redirect == x.redirect
    && a.client in before.clients && x.redirect in before.clients[a.client].redirects
    && granted.at.second <= redeemed.at.first < granted.at.second + 5 * MINUTE
    && ResolveSession(before, granted.at.first, a.session) == Some(user)
    && MayAuthorize(before.accounts, user) && MayAuthorize(now.accounts, user)
    && (before.clients[a.client].mode == InviteOnly ==> (user, a.client) in before.entries.accesses)
    && ProvesClient(env, now.clients, x.client, x.secret)
    && (a.challenge != "" ==> 43 <= |x.verifier| <= 128 && env.s256(x.verifier) == a.challenge)
    && (before.clients[a.client].auth == NoSecret || now.clients[x.client].auth == NoSecret ==> a.challenge != "")
  }

  /** The user exists, is not suspended and has a verified address. */
  predicate MayAuthorize(a: Accounts, u: UserId) {
    u in a.users && a.users[u].status != Suspended && a.users[u].verifiedAt.Some?
  }

  /** The step stores this code, and answers with it if the redirect URI parses. */
  predicate Issued(env: Env, db: Db, e: Event, c: Token) {
    && e.act.Grants? && e.act.grant.DoAuthorize? && c == db.next
    && Authorize(env, db, e.at, e.cut, e.act.grant.authorize).0.next == c + 1
    && Authorize(env, db, e.at, e.cut, e.act.grant.authorize).1 == Redirected(env, e.act.grant.authorize, c)
  }

  ghost predicate EntitledBy(env: Env, ss: seq<Db>, es: seq<Event>, k: nat, j: nat)
    requires k < j < |es| <= |ss|
  {
    && es[k].act.Grants? && es[k].act.grant.DoAuthorize?
    && es[j].act.Grants? && es[j].act.grant.DoExchange?
    && Output(env, ss, es, j).TokensIssued?
    && var a, x, out := es[k].act.grant.authorize, es[j].act.grant.exchange, Output(env, ss, es, j);
       (&& Issued(env, ss[k], es[k], x.code)
        && Entitles(env, ss[k], es[k], a, ss[j], es[j], x, out.access.sub)
        && out.scope == a.scope
        && out.access.aud == x.client && out.access.expiresAt == es[j].at.second + 15 * MINUTE)
  }

  /** A successful exchange in terms of the row it consumed. */
  lemma ExchangeFacts(env: Env, db: Db, at: Clock, cut: nat, x: ExchangeInput)
    requires ExchangeCode(env, db, at, cut, x).1.TokensIssued?
    ensures x.code in db.grants.codes
    ensures var row := db.grants.codes[x.code]; var out := ExchangeCode(env, db, at, cut, x).1;
            AuthenticatesClient(env, db, x.client, x.secret) && CodeMatches(env, db.clients[x.client], row, x) &&
            row.usedAt.None? && at.first < row.expiresAt && out.access.sub == row.user && out.access.aud == x.client &&
            out.scope == row.scope && out.access.expiresAt == at.second + ACCESS_TOKEN_TTL &&
            row.user in db.accounts.users && db.accounts.users[row.user].CanAuthorize()
  {
    hide CodeMatches, AuthenticatesClient;
  }

  lemma AuthorizedAndRedeemed(env: Env, before: Db, granted: Event, now: Db, redeemed: Event, x: ExchangeInput,
                              row: Code)
    requires Authorizes(env, before, granted, x.code, row.(usedAt := None)) && granted.at.Ordered()
    requires AuthenticatesClient(env, now, x.client, x.secret) && CodeMatches(env, now.clients[x.client], row, x)
    requires granted.at.third <= redeemed.at.first < row.expiresAt
    requires row.user in now.accounts.users && now.accounts.users[row.user].CanAuthorize()
    ensures granted.act.Grants? && granted.act.grant.DoAuthorize?
    ensures Entitles(env, before, granted, granted.act.grant.authorize, now, redeemed, x, row.user)
    ensures row.scope == granted.act.grant.authorize.scope
  {
    hide Authorize, Scopes.IsValidScope, Scopes.ScopeError;
  }

  /**
    Every successful exchange redeems exactly what one earlier authorization granted: the same
    client and redirect URI, which was registered then, less than five minutes before, to a user
    who could authorize at both steps, with the client authenticated and the challenge answered.
   */
  lemma ExchangeMatchesAuthorization(env: Env, ss: seq<Db>, es: seq<Event>, j: nat, x: ExchangeInput)
    requires IsRun(env, ss, es) && j < |es| && es[j].act == Action.Grants(DoExchange(x)) &&
             Output(env, ss, es, j).TokensIssued?
    ensures exists k :: 0 <= k < j && EntitledBy(env, ss, es, k, j)
  {
    hide Authorizes, CodeMatches, AuthenticatesClient, Entitles, ExchangeCode;
    ExchangeFacts(env, ss[j], es[j].at, es[j].cut, x);
    CodeWasAuthorized(env, ss, es, j, x.code);
    var row := ss[j].grants.codes[x.code];
    var k :| k < j && AuthorizedAt(env, ss, es, k, x.code, row);
    AuthorizedAndRedeemed(env, ss[k], es[k], ss[j], es[j], x, row);
    AuthorizesIsIssued(env, ss[k], es[k], x.code, row.(usedAt := None));
    assert EntitledBy(env, ss, es, k, j);
  }

  // ---- one attempt a code ----

  /** No exchange of this code can succeed any more. */
  predicate Spent(db: Db, at: Time, c: Token) {
    c < db.next && (c in db.grants.codes ==> db.grants.codes[c].usedAt.Some? || db.grants.codes[c].expiresAt <= at)
  }

  lemma {:induction false} SpentStays(env: Env, ss: seq<Db>, es: seq<Event>, i: nat, j: nat, at: Time, c: Token)
    requires IsRun(env, ss, es) && i <= j < |ss| && Spent(ss[i], at, c)
    ensures Spent(ss[j], at, c)
    decreases j
  {
    hide Next, Authorizes;
    if i < j {
      SpentStays(env, ss, es, i, j - 1, at, c);
      FreshAlways(env, ss, es, j - 1);
      FreshStep(env, ss[j - 1], es[j - 1]);
      CodeLaw(env, ss[j - 1], es[j - 1], c);
      if c in ss[j].grants.codes && c !in ss[j - 1].grants.codes {
        AuthorizesNext(env, ss[j - 1], es[j - 1], c, ss[j].grants.codes[c]);
      }
    }
  }

  lemma AuthorizesNext(env: Env, db: Db, e: Event, c: Token, row: Code)
    requires Authorizes(env, db, e, c, row)
    ensures c == db.next
  {
  }

  lemma AttemptSpends(env: Env, db: Db, at: Clock, cut: nat, x: ExchangeInput)
    requires AuthenticatesClient(env, db, x.client, x.secret) && cut > 0 && x.code in db.grants.codes &&
             x.code < db.next
    ensures Spent(ExchangeCode(env, db, at, cut, x).0, at.first, x.code)
  {
    hide CodeMatches, AuthenticatesClient;
  }

  /**
    A code gets one attempt: once an authenticated client has presented it, whether or not
    that exchange succeeded, no later exchange of the code does.
   */
  lemma OneAttemptPerCode(env: Env, ss: seq<Db>, es: seq<Event>, i: nat, j: nat, x: ExchangeInput, y: ExchangeInput)
    requires IsRun(env, ss, es) && i < j < |es| && x.code == y.code
    requires es[i].act == Action.Grants(DoExchange(x)) && es[j].act == Action.Grants(DoExchange(y))
    requires AuthenticatesClient(env, ss[i], x.client, x.secret) && es[i].cut > 0 && x.code in ss[i].grants.codes
    ensures !Output(env, ss, es, j).TokensIssued?
  {
    hide ExchangeCode, AuthenticatesClient, CodeMatches;
    FreshAlways(env, ss, es, i);
    assert FreshAt(ss[i], x.code);
    AttemptSpends(env, ss[i], es[i].at, es[i].cut, x);
    SpentStays(env, ss, es, i + 1, j, es[i].at.first, x.code);
    if ExchangeCode(env, ss[j], es[j].at, es[j].cut, y).1.TokensIssued? {
      ExchangeFacts(env, ss[j], es[j].at, es[j].cut, y);
    }
  }

  /** In particular a code is exchanged at most once (section 4.1.2 of RFC 6749). */
  lemma OneSuccessPerCode(env: Env, ss: seq<Db>, es: seq<Event>, i: nat, j: nat, x: ExchangeInput, y: ExchangeInput)
    requires IsRun(env, ss, es) && i < |es| && j < |es| && x.code == y.code
    requires es[i].act == Action.Grants(DoExchange(x)) && Output(env, ss, es, i).TokensIssued?
    requires es[j].act == Action.Grants(DoExchange(y)) && Output(env, ss, es, j).TokensIssued?
    ensures i == j
  {
    hide AuthenticatesClient, CodeMatches;
    ExchangeFacts(env, ss[i], es[i].at, es[i].cut, x);
    ExchangeFacts(env, ss[j], es[j].at, es[j].cut, y);
    if i < j {
      OneAttemptPerCode(env, ss, es, i, j, x, y);
    } else if j < i {
      OneAttemptPerCode(env, ss, es, j, i, y, x);
    }
  }

  // ---- exactly when an exchange succeeds ----

  lemma IssuedIsNext(env: Env, db: Db, e: Event, c: Token)
    requires Issued(env, db, e, c)
    ensures c == db.next && Next(env, db, e).0.next == c + 1
  {
    hide AuthorizeError, ResolveSession, RecordAccess;
  }

  /** One authorization issues a given code. */
  lemma OneIssuer(env: Env, ss: seq<Db>, es: seq<Event>, i: nat, k: nat, c: Token)
    requires IsRun(env, ss, es) && i < |es| && k < |es| && Issued(env, ss[i], es[i], c) && Issued(env, ss[k], es[k], c)
    ensures i == k
  {
    hide Next, Issued;
    IssuedIsNext(env, ss[i], es[i], c);
    IssuedIsNext(env, ss[k], es[k], c);
    if i < k {
      NextGrows(env, ss, es, i + 1, k);
    } else if k < i {
      NextGrows(env, ss, es, k + 1, i);
    }
  }

  /**
    The infrastructure lets the code be used, the user be read, the token be signed and, with
    offline_access, the refresh token be stored.
   */
  predicate EnoughOperations(scope: string, cut: nat) {
    cut >= if "offline_access" in Scopes.Fields(scope) then 4 else 3
  }

  lemma ExchangeOfMatchingCode(env: Env, db: Db, at: Clock, cut: nat, x: ExchangeInput)
    requires x.code in db.grants.codes && AuthenticatesClient(env, db, x.client, x.secret)
    requires var row := db.grants.codes[x.code];
             (row.usedAt.None? && at.first < row.expiresAt && CodeMatches(env, db.clients[x.client], row, x) &&
              row.user in db.accounts.users && db.accounts.users[row.user].CanAuthorize())
    ensures ExchangeCode(env, db, at, cut, x).1.TokensIssued? <==> EnoughOperations(db.grants.codes[x.code].scope, cut)
  {
    hide CodeMatches, AuthenticatesClient, Scopes.Fields;
  }

  lemma EntitlementMatches(env: Env, before: Db, granted: Event, now: Db, redeemed: Event, x: ExchangeInput, row: Code)
    requires Authorizes(env, before, granted, x.code, row.(usedAt := None))
    requires Entitles(env, before, granted, granted.act.grant.authorize, now, redeemed, x, row.user)
    ensures CodeMatches(env, now.clients[x.client], row, x) && redeemed.at.first < row.expiresAt
  {
    hide Authorize, AuthorizeError, ResolveSession;
  }

  lemma AuthorizesIsIssued(env: Env, db: Db, e: Event, c: Token, row: Code)
    requires Authorizes(env, db, e, c, row)
    ensures Issued(env, db, e, c)
  {
    hide Authorize, AuthorizeError, ResolveSession;
  }

  /**
    An exchange succeeds if and only if its code is still unused, an earlier authorization that
    issued it entitles to the exchange, and the infrastructure lets its operations through.
   */
  lemma ExchangeSucceedsIff(env: Env, ss: seq<Db>, es: seq<Event>, j: nat, x: ExchangeInput)
    requires IsRun(env, ss, es) && j < |es| && es[j].act == Action.Grants(DoExchange(x))
    ensures Output(env, ss, es, j).TokensIssued? <==>
              x.code in ss[j].grants.codes && ss[j].grants.codes[x.code].usedAt.None? &&
              EnoughOperations(ss[j].grants.codes[x.code].scope, es[j].cut) &&
              exists k :: 0 <= k < j && Issued(env, ss[k], es[k], x.code) &&
                          Entitles(env, ss[k], es[k], es[k].act.grant.authorize, ss[j], es[j], x,
                                   ss[j].grants.codes[x.code].user)
  {
    hide Authorizes, CodeMatches, AuthenticatesClient, Entitles, ExchangeCode, Authorize, EnoughOperations;
    if Output(env, ss, es, j).TokensIssued? {
      ExchangeFacts(env, ss[j], es[j].at, es[j].cut, x);
      ExchangeMatchesAuthorization(env, ss, es, j, x);
      ExchangeOfMatchingCode(env, ss[j], es[j].at, es[j].cut, x);
    }
    if x.code in ss[j].grants.codes {
      CodeWasAuthorized(env, ss, es, j, x.code);
      var row := ss[j].grants.codes[x.code];
      var i :| i < j && AuthorizedAt(env, ss, es, i, x.code, row);
      AuthorizesIsIssued(env, ss[i], es[i], x.code, row.(usedAt := None));
      forall k | 0 <= k < j && Issued(env, ss[k], es[k], x.code) &&
                 Entitles(env, ss[k], es[k], es[k].act.grant.authorize, ss[j], es[j], x, row.user) && row.usedAt.None?
        ensures Output(env, ss, es, j).TokensIssued? <==> EnoughOperations(row.scope, es[j].cut)
      {
        OneIssuer(env, ss, es, i, k, x.code);
        EntitlementMatches(env, ss[k], es[k], ss[j], es[j], x, row);
        EntitledUser(env, ss[k], es[k], es[k].act.grant.authorize, ss[j], es[j], x, row.user);
        ExchangeOfMatchingCode(env, ss[j], es[j].at, es[j].cut, x);
      }
    }
  }

  lemma EntitledUser(env: Env, before: Db, granted: Event, a: AuthorizeInput, now: Db, redeemed: Event,
                     x: ExchangeInput, user: UserId)
    requires Entitles(env, before, granted, a, now, redeemed, x, user)
    ensures AuthenticatesClient(env, now, x.client, x.secret) && user in now.accounts.users &&
            now.accounts.users[user].CanAuthorize()
  {
  }
}
