/**
  Exactly when an authorization grants a code, and what it stores (section 4.1.1 of RFC 6749,
  section 4.3 of RFC 7636).
 */
module Authorizations {
  import opened Domain
  import opened Tables
  import opened UseCases
  import opened Machine
  import opened Laws
  import opened GrantLaws
  import opened Exchanges
  import opened GrantChains
  import Scopes

  /** The scope names openid, and nothing but the three scopes there are. */
  predicate IsGrantable(scope: string) {
    "openid" in Scopes.Fields(scope) &&
    forall f :: f in Scopes.Fields(scope) ==> f in {"openid", "email", "offline_access"}
  }

  /** A challenge has 43 to 128 characters; a client without a secret needs one. */
  predicate IsAnswerable(client: Client, challenge: string, challengeMethod: string) {
    && challengeMethod in {"", "S256"}
    && if challenge == "" then client.auth == ClientSecretPost else 43 <= |challenge| <= 128
  }

  /** The request is well-formed, its session resolves to u, and u may use the application. */
  predicate GrantsCode(env: Env, db: Db, e: Event, i: AuthorizeInput, u: UserId) {
    && i.responseType == "code" && i.state != "" && IsGrantable(i.scope)
    && i.client in db.clients && i.redirect in db.clients[i.client].redirects
    && IsAnswerable(db.clients[i.client], i.challenge, i.challengeMethod)
    && ResolveSession(db, e.at.first, i.session) == Some(u)
    && (db.clients[i.client].mode == InviteOnly ==> (u, i.client) in db.entries.accesses)
    && e.cut > 0
  }

  /** The row of a code for five minutes from this instant. */
  function CodeFor(i: AuthorizeInput, u: UserId, at: Time): Code {
    var challenge := if i.challenge == "" then None else Some(i.challenge);
    Code(u, i.client, i.redirect, i.scope, challenge, if challenge.None? then None else Some("S256"),
         at + 5 * MINUTE, None)
  }

  /** The access row after a visit: the first one creates it, a later one keeps its first instant and a known domain. */
  function Visited(db: Db, u: UserId, client: ClientId, domain: string, at: Time): Access {
    if (u, client) in db.entries.accesses then
      var row := db.entries.accesses[(u, client)];
      row.(entryDomain := if domain == "" then row.entryDomain else domain, lastSeen := at)
    else Access(domain, at, at)
  }

  lemma ScopeAccepted(scope: string)
    ensures Scopes.IsValidScope(scope) <==> IsGrantable(scope)
  {
  }

  lemma ChecksPassIff(db: Db, i: AuthorizeInput)
    ensures AuthorizeError(db, i).None? <==>
              i.responseType == "code" && i.state != "" && IsGrantable(i.scope) &&
              i.client in db.clients && i.redirect in db.clients[i.client].redirects &&
              IsAnswerable(db.clients[i.client], i.challenge, i.challengeMethod)
  {
    hide Scopes.Fields;
    ScopeAccepted(i.scope);
  }

  lemma VisitIsRecorded(env: Env, db: Db, at: Time, u: UserId, i: AuthorizeInput)
    requires u != 0
    ensures RecordAccess(env, db, at, u, i.client, i.redirect) ==
            if i.client.id == "" then db
            else db.(entries := db.entries.(accesses :=
                       db.entries.accesses[(u, i.client) := Visited(db, u, i.client, env.host(i.redirect), at)]))
  {
  }

  lemma GrantedState(env: Env, db: Db, e: Event, i: AuthorizeInput, u: UserId)
    requires GrantsCode(env, db, e, i, u) && u != 0
    ensures var r := Authorize(env, db, e.at, e.cut, i);
            r.1 == Redirected(env, i, db.next) &&
            r.0 == db.(next := db.next + 1,
                       grants := db.grants.(codes := db.grants.codes[db.next := CodeFor(i, u, e.at.second)]),
                       entries := r.0.entries) &&
            r.0.entries == if e.cut == 1 || i.client.id == "" then db.entries
                           else db.entries.(accesses := db.entries.accesses[(u, i.client) :=
                                              Visited(db, u, i.client, env.host(i.redirect), e.at.third)])
  {
    hide AuthorizeError, ResolveSession, RecordAccess, IsGrantable, Visited;
    ChecksPassIff(db, i);
    var db1 := db.(next := db.next + 1, grants := db.grants.CreateCode(db.next, NewCode(u, i, e.at.second)));
    VisitIsRecorded(env, db1, e.at.third, u, i);
    SameVisit(db, db1, u, i.client, env.host(i.redirect), e.at.third);
  }

  lemma SameVisit(db: Db, b: Db, u: UserId, client: ClientId, domain: string, at: Time)
    requires b.entries == db.entries
    ensures Visited(b, u, client, domain, at) == Visited(db, u, client, domain, at)
  {
  }

  lemma RefusedState(env: Env, db: Db, e: Event, i: AuthorizeInput)
    requires forall u :: !GrantsCode(env, db, e, i, u)
    ensures Authorize(env, db, e.at, e.cut, i).0 == db && Authorize(env, db, e.at, e.cut, i).1.Failed?
  {
    hide AuthorizeError, ResolveSession, RecordAccess, IsGrantable;
    ChecksPassIff(db, i);
    var u := ResolveSession(db, e.at.first, i.session);
    if u.Some? {
      assert !GrantsCode(env, db, e, i, u.value);
    }
  }

  /**
    An authorization answers with a code exactly when some user is entitled to one and the redirect URI
    parses. It stores one row then, and records the visit; otherwise it changes nothing.
   */
  lemma AuthorizeSucceedsIff(env: Env, ss: seq<Db>, es: seq<Event>, n: nat, i: AuthorizeInput)
    requires IsRun(env, ss, es) && n < |es| && es[n].act == Action.Grants(DoAuthorize(i))
    ensures Output(env, ss, es, n).CodeIssued? <==>
              env.parseUrl(i.redirect).Some? && exists u :: GrantsCode(env, ss[n], es[n], i, u)
    ensures forall u :: GrantsCode(env, ss[n], es[n], i, u) ==>
              ss[n].next !in ss[n].grants.codes &&
              (Output(env, ss, es, n).CodeIssued? ==> Output(env, ss, es, n).code == ss[n].next) &&
              ss[n + 1].next == ss[n].next + 1 &&
              ss[n + 1].grants ==
              ss[n].grants.(codes := ss[n].grants.codes[ss[n].next := CodeFor(i, u, es[n].at.second)]) &&
              (es[n].cut >= 2 && i.client.id != "" ==>
                 ss[n + 1].entries == ss[n].entries.(accesses :=
                   ss[n].entries.accesses[(u, i.client) :=
                     Visited(ss[n], u, i.client, env.host(i.redirect), es[n].at.third)]))
    ensures (forall u :: !GrantsCode(env, ss[n], es[n], i, u)) ==> ss[n + 1] == ss[n] && Output(env, ss, es, n).Failed?
  {
    hide Authorize, GrantsCode, Visited;
    FreshAlways(env, ss, es, n);
    assert FreshAt(ss[n], ss[n].next);
    forall u | GrantsCode(env, ss[n], es[n], i, u)
      ensures u != 0
    {
      ResolvedUserIsNotZero(env, ss[n], es[n], i, u);
    }
    forall u | GrantsCode(env, ss[n], es[n], i, u) {
      GrantedState(env, ss[n], es[n], i, u);
    }
    if forall u :: !GrantsCode(env, ss[n], es[n], i, u) {
      RefusedState(env, ss[n], es[n], i);
    }
  }

  lemma ResolvedUserIsNotZero(env: Env, db: Db, e: Event, i: AuthorizeInput, u: UserId)
    requires Fresh(db) && GrantsCode(env, db, e, i, u)
    ensures u != 0
  {
    assert FreshAt(db, u);
  }

  // ---- scopes ----

  lemma AuthorizedScope(env: Env, db: Db, e: Event, c: Token, row: Code)
    requires Authorizes(env, db, e, c, row)
    ensures IsGrantable(row.scope)
  {
    hide Authorize, ResolveSession, Scopes.Fields;
    ScopeAccepted(row.scope);
  }

  /** Every stored code was granted for a scope that names openid and nothing unknown. */
  lemma StoredScopesAreGrantable(env: Env, ss: seq<Db>, es: seq<Event>, n: nat, c: Token)
    requires IsRun(env, ss, es) && n < |ss| && c in ss[n].grants.codes
    ensures IsGrantable(ss[n].grants.codes[c].scope)
  {
    hide Next, Authorizes, IsGrantable;
    CodeWasAuthorized(env, ss, es, n, c);
    var k :| k < n && AuthorizedAt(env, ss, es, k, c, ss[n].grants.codes[c]);
    AuthorizedScope(env, ss[k], es[k], c, ss[n].grants.codes[c].(usedAt := None));
  }

  /** So was every refresh token. */
  lemma {:induction false} RefreshScopesAreGrantable(env: Env, ss: seq<Db>, es: seq<Event>, n: nat, t: Token)
    requires IsRun(env, ss, es) && n < |ss| && t in ss[n].grants.refresh
    ensures IsGrantable(ss[n].grants.refresh[t].scope)
    decreases t
  {
    hide Next, IsGrantable;
    LinearAlways(env, ss, es, n);
    assert RefreshFits(ss[n].grants, t);
    match ss[n].grants.lineage[t]
    case FromCode(c) => StoredScopesAreGrantable(env, ss, es, n, c);
    case FromRefresh(p) => RefreshScopesAreGrantable(env, ss, es, n, p);
  }
}
