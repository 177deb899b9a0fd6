/** The client registry: what a start-up or an administrator can change, and what every stored client is like. */
module ClientRegistry {
  import opened Domain
  import opened Tables
  import opened UseCases
  import opened Machine
  import opened InviteOnly
  import RedirectUris

  predicate SetsMode(e: Event, client: ClientId) {
    e.act.Clients? && e.act.change.DoSetAccessMode? && e.act.change.actor.isAdmin && e.act.change.client == client
  }

  predicate Seeds(e: Event, client: ClientId) {
    e.act.Clients? && e.act.change.DoSeedClient? && e.act.change.client == client
  }

  predicate Renames(e: Event, client: ClientId) {
    e.act.Clients? && e.act.change.DoUpdateRedirectURIs? && e.act.change.actor.isAdmin &&
    ClientId(RedirectUris.Trim(e.act.change.name)) == client
  }

  /** A client is never removed; its mode changes only through an administrator, its authentication only at start-up. */
  predicate ClientMoves(db: Db, e: Event, b: Db, c: ClientId) {
    c in db.clients ==>
      && c in b.clients
      && (b.clients[c].mode != db.clients[c].mode ==> SetsMode(e, c))
      && ((b.clients[c].auth, b.clients[c].secretHash) != (db.clients[c].auth, db.clients[c].secretHash) ==>
          Seeds(e, c))
      && (b.clients[c].redirects != db.clients[c].redirects ==> Seeds(e, c) || Renames(e, c))
  }

  lemma ClientLaw(env: Env, db: Db, e: Event, c: ClientId)
    ensures ClientMoves(db, e, Next(env, db, e).0, c)
  {
    hide MailStep, EntryStep, GrantStep, CredentialStep, RedirectUris.ParseList, RedirectUris.Trim;
  }

  /** A list that can be printed and parsed again; a client without a secret stores none. */
  predicate IsSound(client: Client) {
    client.redirects != [] && RedirectUris.Distinct(client.redirects) && (client.IsPublic() ==> client.secretHash == "")
  }

  predicate ClientFits(db: Db, c: ClientId) { c in db.clients ==> IsSound(db.clients[c]) }

  lemma ParsedLists(parse: UrlParser, raw: string)
    ensures var r := RedirectUris.ParseList(parse, raw); r.Ok? ==> r.value != [] && RedirectUris.Distinct(r.value)
  {
    RedirectUris.FirstsFacts(RedirectUris.Entries(RedirectUris.Lines(raw)));
  }

  lemma StepFits(env: Env, db: Db, e: Event, c: ClientId)
    requires ClientFits(db, c)
    ensures ClientFits(Next(env, db, e).0, c)
  {
    hide MailStep, EntryStep, GrantStep, CredentialStep, RedirectUris.ParseList, RedirectUris.Trim,
        RedirectUris.Distinct;
    if e.act.Clients? {
      match e.act.change
      case DoCreateClient(_, i) => ParsedLists(env.parseUrl, i.redirects);
      case DoUpdateRedirectURIs(_, _, redirects, _) => ParsedLists(env.parseUrl, redirects);
      case DoSeedClient(_, redirect, _) => assert RedirectUris.Distinct([redirect]) by { OneIsDistinct(redirect); }
      case _ =>
    }
  }

  lemma OneIsDistinct(uri: string)
    ensures RedirectUris.Distinct([uri])
  {
  }

  /** Every stored client has a non-empty list of distinct redirect URIs, and a secret only if it is confidential. */
  lemma {:induction false} ClientsAreSound(env: Env, ss: seq<Db>, es: seq<Event>, n: nat, c: ClientId)
    requires IsRun(env, ss, es) && n < |ss| && c in ss[n].clients
    ensures IsSound(ss[n].clients[c])
  {
    hide Next;
    if n > 0 {
      if c in ss[n - 1].clients {
        ClientsAreSound(env, ss, es, n - 1, c);
      }
      StepFits(env, ss[n - 1], es[n - 1], c);
    }
  }

  /** An invite-only client stays so through restarts and updates, until an administrator sets its mode. */
  lemma {:induction false} StaysInviteOnly(env: Env, ss: seq<Db>, es: seq<Event>, i: nat, n: nat, c: ClientId)
    requires IsRun(env, ss, es) && i <= n < |ss| && c in ss[i].clients && ss[i].clients[c].IsInviteOnly()
    requires forall k :: i <= k < n ==> !SetsMode(es[k], c)
    ensures c in ss[n].clients && ss[n].clients[c].IsInviteOnly()
    decreases n
  {
    hide Next;
    if i < n {
      StaysInviteOnly(env, ss, es, i, n - 1, c);
      ClientLaw(env, ss[n - 1], es[n - 1], c);
    }
  }

  // ---- what an administrator's request leaves stored ----

  predicate IsMode(raw: string) { raw in {"", "public", "invite_only"} }

  predicate IsMethod(raw: string) { raw in {"", "client_secret_post", "none"} }

  function ModeOf(raw: string): AccessMode { if raw == "invite_only" then InviteOnly else Public }

  predicate MayCreate(env: Env, db: Db, actor: Actor, i: ClientInput) {
    && actor.isAdmin && i.id.id != "" && i.name != "" && RedirectUris.ParseList(env.parseUrl, i.redirects).Ok?
    && i.packageOk && IsMode(i.mode) && IsMethod(i.auth) && i.id !in db.clients
  }

  lemma EmptyListIsRefused(parse: UrlParser)
    ensures RedirectUris.ParseList(parse, "").Err?
  {
    RedirectUris.AcceptedIff(parse, "");
    RedirectUris.NoLines();
  }

  /** A client is created exactly by an administrator, under a new id, with what was asked for. */
  lemma ClientCreatedIff(env: Env, db: Db, e: Event, actor: Actor, i: ClientInput)
    requires e.act == Clients(DoCreateClient(actor, i))
    ensures Next(env, db, e).1 == ClientCreated <==> MayCreate(env, db, actor, i) && e.cut > 0
    ensures Next(env, db, e).0 ==
            if Next(env, db, e).1 == ClientCreated then
              db.(clients := db.clients[i.id :=
                    Client(if i.auth == "none" then "" else i.secretHash,
                           RedirectUris.ParseList(env.parseUrl, i.redirects).value, ModeOf(i.mode),
                           if i.auth == "none" then NoSecret else ClientSecretPost)])
            else db
  {
    hide RedirectUris.ParseList;
    EmptyListIsRefused(env.parseUrl);
  }

  /** The mode of a client is set exactly by an administrator, for a stored client, to a known mode. */
  lemma ModeSetIff(env: Env, db: Db, e: Event, actor: Actor, c: ClientId, raw: string)
    requires e.act == Clients(DoSetAccessMode(actor, c, raw))
    ensures Next(env, db, e).1 == Done <==> actor.isAdmin && c in db.clients && IsMode(raw) && e.cut > 0
    ensures if Next(env, db, e).1 == Done then
              Next(env, db, e).0 == db.(clients := db.clients[c := db.clients[c].(mode := ModeOf(raw))])
            else Next(env, db, e).0 == db
  {
  }

  /** A redirect list is replaced exactly by an administrator, for a stored client, by an accepted list. */
  lemma RedirectsUpdatedIff(env: Env, db: Db, e: Event, actor: Actor, name: string, raw: string, packageOk: bool)
    requires e.act == Clients(DoUpdateRedirectURIs(actor, name, raw, packageOk))
    ensures var c := ClientId(RedirectUris.Trim(name)); var list := RedirectUris.ParseList(env.parseUrl, raw);
            (Next(env, db, e).1 == Done <==>
               actor.isAdmin && c.id != "" && c in db.clients && list.Ok? && packageOk && e.cut > 0) &&
            (if Next(env, db, e).1 == Done then
               Next(env, db, e).0 == db.(clients := db.clients[c := db.clients[c].(redirects := list.value)])
             else Next(env, db, e).0 == db)
  {
    hide RedirectUris.ParseList, RedirectUris.Trim;
  }

  /** A start-up stores its client with its one URI and secret, and keeps the mode of one that is stored already. */
  lemma SeedStores(env: Env, db: Db, e: Event, c: ClientId, redirect: string, secretHash: string)
    requires e.act == Clients(DoSeedClient(c, redirect, secretHash)) && e.cut > 0
    ensures Next(env, db, e) ==
            (db.(clients := db.clients[c :=
                   Client(secretHash, [redirect], if c in db.clients then db.clients[c].mode else Public,
                          ClientSecretPost)]),
             Done)
  {
  }
}
