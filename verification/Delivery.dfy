/** When an authorization stores a code and answers an error instead of the code. */
module Delivery {
  import opened Domain
  import opened Tables
  import opened UseCases
  import opened Machine
  import opened Laws
  import opened ClientRegistry
  import opened Authorizations
  import RedirectUris

  ghost predicate StoresCode(a: Grants, b: Grants) { exists c :: c in b.codes && c !in a.codes }

  lemma AuthorizeOutcome(env: Env, ss: seq<Db>, es: seq<Event>, n: nat, i: AuthorizeInput)
    requires IsRun(env, ss, es) && n < |es| && es[n].act == Action.Grants(DoAuthorize(i))
    ensures ss[n].next !in ss[n].grants.codes
    ensures if exists u :: GrantsCode(env, ss[n], es[n], i, u) then ss[n].next in ss[n + 1].grants.codes
            else ss[n + 1].grants == ss[n].grants
    ensures Output(env, ss, es, n).CodeIssued? <==>
              env.parseUrl(i.redirect).Some? && exists u :: GrantsCode(env, ss[n], es[n], i, u)
  {
    hide GrantsCode, Next, Visited;
    AuthorizeSucceedsIff(env, ss, es, n, i);
    FreshAlways(env, ss, es, n);
    assert FreshAt(ss[n], ss[n].next);
  }

  /** A code is stored and not answered exactly when a user is entitled to it and the redirect URI does not parse. */
  lemma UndeliveredIff(env: Env, ss: seq<Db>, es: seq<Event>, n: nat, i: AuthorizeInput)
    requires IsRun(env, ss, es) && n < |es| && es[n].act == Action.Grants(DoAuthorize(i))
    ensures StoresCode(ss[n].grants, ss[n + 1].grants) && !Output(env, ss, es, n).CodeIssued? <==>
              (exists u :: GrantsCode(env, ss[n], es[n], i, u)) && env.parseUrl(i.redirect).None?
  {
    hide GrantsCode, Next;
    AuthorizeOutcome(env, ss, es, n, i);
  }

  /** A start-up wrote this URI for the client. */
  predicate SeedsUri(e: Event, client: ClientId, uri: string) {
    Seeds(e, client) && e.cut > 0 && e.act.change.redirect == uri
  }

  lemma ParsedListsParse(parse: UrlParser, raw: string, uri: string)
    requires RedirectUris.ParseList(parse, raw).Ok? && uri in RedirectUris.ParseList(parse, raw).value
    ensures parse(uri).Some?
  {
    var entries := RedirectUris.Entries(RedirectUris.Lines(raw));
    RedirectUris.FirstsMembers(entries);
    assert uri in entries && RedirectUris.IsValidURI(parse, uri);
  }

  predicate Has(db: Db, client: ClientId, uri: string) { client in db.clients && uri in db.clients[client].redirects }

  /** A URI that does not parse gets into a client's list only at start-up. */
  lemma UnparsableStep(env: Env, db: Db, e: Event, client: ClientId, uri: string)
    requires Has(Next(env, db, e).0, client, uri) && !Has(db, client, uri) && env.parseUrl(uri).None?
    ensures SeedsUri(e, client, uri)
  {
    hide MailStep, EntryStep, GrantStep, CredentialStep, RedirectUris.ParseList, RedirectUris.Trim;
    match e.act.change
    case DoCreateClient(_, i) =>
      if RedirectUris.ParseList(env.parseUrl, i.redirects).Ok? &&
          uri in RedirectUris.ParseList(env.parseUrl, i.redirects).value {
        ParsedListsParse(env.parseUrl, i.redirects, uri);
      }
    case DoUpdateRedirectURIs(_, _, redirects, _) =>
      if RedirectUris.ParseList(env.parseUrl, redirects).Ok? &&
          uri in RedirectUris.ParseList(env.parseUrl, redirects).value {
        ParsedListsParse(env.parseUrl, redirects, uri);
      }
    case _ =>
  }

  lemma {:induction false} UnparsableWasSeeded(env: Env, ss: seq<Db>, es: seq<Event>, n: nat, client: ClientId,
                                               uri: string)
    requires IsRun(env, ss, es) && n < |ss| && Has(ss[n], client, uri) && env.parseUrl(uri).None?
    ensures exists k :: 0 <= k < n && SeedsUri(es[k], client, uri)
  {
    hide Next;
    if n > 0 {
      if Has(ss[n - 1], client, uri) {
        UnparsableWasSeeded(env, ss, es, n - 1, client, uri);
      } else {
        UnparsableStep(env, ss[n - 1], es[n - 1], client, uri);
      }
    }
  }

  lemma GrantedToARegisteredUri(env: Env, db: Db, e: Event, i: AuthorizeInput, u: UserId)
    requires GrantsCode(env, db, e, i, u)
    ensures Has(db, i.client, i.redirect)
  {
  }

  /** A code is left undelivered only for a URI that a start-up wrote unchecked: administrators cannot cause it. */
  lemma UndeliveredOnlyAfterSeeding(env: Env, ss: seq<Db>, es: seq<Event>, n: nat, i: AuthorizeInput)
    requires IsRun(env, ss, es) && n < |es| && es[n].act == Action.Grants(DoAuthorize(i))
    requires StoresCode(ss[n].grants, ss[n + 1].grants) && !Output(env, ss, es, n).CodeIssued?
    ensures env.parseUrl(i.redirect).None? && exists k :: 0 <= k < n && SeedsUri(es[k], i.client, i.redirect)
  {
    hide Next, Output, StoresCode, GrantsCode;
    UndeliveredIff(env, ss, es, n, i);
    var u :| GrantsCode(env, ss[n], es[n], i, u);
    GrantedToARegisteredUri(env, ss[n], es[n], i, u);
    UnparsableWasSeeded(env, ss, es, n, i.client, i.redirect);
  }

  /** While every configured URI of the client parses, an authorization for it that stores a code answers with it. */
  lemma CheckedSeedsDeliver(env: Env, ss: seq<Db>, es: seq<Event>, n: nat, i: AuthorizeInput)
    requires IsRun(env, ss, es) && n < |es| && es[n].act == Action.Grants(DoAuthorize(i))
    requires forall k :: 0 <= k < n && Seeds(es[k], i.client) ==> env.parseUrl(es[k].act.change.redirect).Some?
    ensures StoresCode(ss[n].grants, ss[n + 1].grants) <==> Output(env, ss, es, n).CodeIssued?
  {
    hide GrantsCode, Next, StoresCode;
    AuthorizeOutcome(env, ss, es, n, i);
    StoredIff(ss[n], ss[n + 1]);
    if StoresCode(ss[n].grants, ss[n + 1].grants) && !Output(env, ss, es, n).CodeIssued? {
      UndeliveredOnlyAfterSeeding(env, ss, es, n, i);
    }
  }

  lemma StoredIff(a: Db, b: Db)
    requires a.next !in a.grants.codes && (a.next in b.grants.codes || b.grants == a.grants)
    ensures StoresCode(a.grants, b.grants) <==> a.next in b.grants.codes
  {
  }
}
