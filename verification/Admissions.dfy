/** Exactly when a ticket, a registration or an invite admits somebody, and what that stores. */
module Admissions {
  import opened Domain
  import opened Tables
  import opened UseCases
  import opened Machine
  import opened AccountEmails
  import opened AccountRuns
  import opened Laws
  import opened References
  import opened Authorizations

  // ---- tickets ----

  /** The client whose ticket the step may mint: one with a proven secret, or a public one named by the login page. */
  predicate MayMint(env: Env, db: Db, e: Event, client: ClientId) {
    && env.registrationOpen && client in db.clients && db.clients[client].mode == Public && e.cut > 0
    && match e.act
       case Entry(DoIssueTicket(id, secret)) =>
         id == client && db.clients[client].auth == ClientSecretPost && secret != "" &&
         env.verify(db.clients[client].secretHash, secret)
       case Entry(DoLinkForPublicClient(id)) => id == client && db.clients[client].auth == NoSecret && id.id != ""
       case _ => false
  }

  /** The client a ticket is asked for. */
  predicate AsksForTicket(e: Event, client: ClientId) {
    match e.act
    case Entry(DoIssueTicket(id, _)) => id == client
    case Entry(DoLinkForPublicClient(id)) => id == client
    case _ => false
  }

  /** A ticket is minted exactly then, for ten minutes; otherwise nothing changes. */
  lemma TicketMintedIff(env: Env, ss: seq<Db>, es: seq<Event>, n: nat, client: ClientId)
    requires IsRun(env, ss, es) && n < |es| && AsksForTicket(es[n], client)
    ensures Output(env, ss, es, n).TicketIssued? <==> MayMint(env, ss[n], es[n], client)
    ensures MayMint(env, ss[n], es[n], client) ==>
              Output(env, ss, es, n) == TicketIssued(ss[n].next) && ss[n].next !in ss[n].entries.tickets &&
              ss[n + 1] == ss[n].(next := ss[n].next + 1,
                                  entries := ss[n].entries.(tickets := ss[n].entries.tickets[ss[n].next :=
                                    Ticket(client, es[n].at.first + 10 * MINUTE, None)]))
    ensures !MayMint(env, ss[n], es[n], client) ==> ss[n + 1] == ss[n]
  {
    FreshAlways(env, ss, es, n);
    assert FreshAt(ss[n], ss[n].next);
  }

  // ---- registration ----

  /** A well-formed request with a live ticket for a client that is not invite-only, and an address nobody has. */
  predicate MayRegister(env: Env, db: Db, at: Clock, i: RegisterInput) {
    && i.captchaOk && |i.password| >= 12 && env.registrationOpen
    && env.parseEmail(i.email).Some? && env.parseEmail(i.email).value !in db.accounts.emails
    && i.ticket in db.entries.tickets && db.entries.tickets[i.ticket].usedAt.None?
    && at.second < db.entries.tickets[i.ticket].expiresAt
    && db.entries.tickets[i.ticket].client in db.clients
    && db.clients[db.entries.tickets[i.ticket].client].mode == Public
  }

  /** A new account u with the unverified address e, and the token t mailed to it. */
  function Joined(a: Accounts, u: UserId, e: Email, hash: string, t: Token, at: Time): Accounts {
    a.(users := a.users[u := User(e, hash, RoleUser, Pending, None)],
       emails := a.emails[e := EmailRow(u, Primary, None)],
       verifs := a.verifs[t := VerifyToken(u, None, at + 24 * HOUR, None)],
       mailTo := a.mailTo[t := e])
  }

  function Registered(env: Env, db: Db, at: Clock, i: RegisterInput): Db
    requires MayRegister(env, db, at, i)
  {
    var e, ticket := env.parseEmail(i.email).value, db.entries.tickets[i.ticket];
    db.(next := db.next + 2,
        accounts := Joined(db.accounts, db.next, e, i.newHash, db.next + 1, at.second),
        entries := db.entries.(tickets := db.entries.tickets[i.ticket := ticket.(usedAt := Some(at.second))],
                               accesses := db.entries.accesses[(db.next, ticket.client) :=
                                 Access("", at.second, at.second)]))
  }

  lemma SignUpCompletes(db: Db, now: Time, cut: nat, client: ClientId, email: Email, hash: string, mailOk: bool)
    requires cut >= 3 && Agreement(db.accounts, db.next) && email !in db.accounts.emails
    requires (db.next, client) !in db.entries.accesses
    ensures SignUp(db, now, cut, client, email, hash, mailOk) ==
            (db.(next := db.next + 2,
                 accounts := Joined(db.accounts, db.next, email, hash, db.next + 1, now),
                 entries := db.entries.(accesses := db.entries.accesses[(db.next, client) := Access("", now, now)])),
             Mailed(mailOk))
  {
    AddressIsFree(db.accounts, db.next, email);
  }

  lemma AddressIsFree(a: Accounts, next: Token, email: Email)
    requires Agreement(a, next) && email !in a.emails
    ensures forall u :: u in a.users ==> a.users[u].email != email
  {
    forall u | u in a.users ensures a.users[u].email != email { assert UserFits(a, next, u); }
  }

  lemma NewUserHasNoAccess(db: Db, client: ClientId)
    requires Fresh(db) && Owned(db)
    ensures (db.next, client) !in db.entries.accesses
  {
    assert FreshAt(db, db.next) && VisitorExists(db, (db.next, client));
  }

  lemma RegisteringIff(env: Env, db: Db, at: Clock, cut: nat, i: RegisterInput)
    requires Agreement(db.accounts, db.next) && at.Ordered() && (i.ticket in db.entries.tickets ==> i.ticket != 0)
    requires forall client :: (db.next, client) !in db.entries.accesses
    ensures var r := Register(env, db, at, cut, i);
            if !MayRegister(env, db, at, i) then r.0 == db && r.1.Failed?
            else if cut >= 4 then r == (Registered(env, db, at, i), Mailed(i.mailOk)) else r.1.Failed?
  {
    hide SignUp, Agreement, Joined;
    if MayRegister(env, db, at, i) && cut >= 4 {
      var db1 := db.(entries := db.entries.ConsumeTicket(i.ticket, at.second).value.0);
      SignUpCompletes(db1, at.second, cut - 1, db.entries.tickets[i.ticket].client, env.parseEmail(i.email).value,
                      i.newHash, i.mailOk);
    } else if MayRegister(env, db, at, i) && cut > 0 {
      var db1 := db.(entries := db.entries.ConsumeTicket(i.ticket, at.second).value.0);
      SignUpCutOff(db1, at.second, cut - 1, db.entries.tickets[i.ticket].client, env.parseEmail(i.email).value,
                   i.newHash, i.mailOk);
    }
  }

  lemma SignUpCutOff(db: Db, now: Time, cut: nat, client: ClientId, email: Email, hash: string, mailOk: bool)
    requires cut < 3
    ensures SignUp(db, now, cut, client, email, hash, mailOk).1.Failed?
  {
  }

  /**
    A registration succeeds exactly with a live ticket and an address nobody has, when captcha, writes
    and mail go through. It makes one account with access to the ticket's client and spends the ticket.
   */
  lemma RegisterSucceedsIff(env: Env, ss: seq<Db>, es: seq<Event>, n: nat, i: RegisterInput)
    requires IsRun(env, ss, es) && n < |es| && es[n].act == Entry(DoRegister(i))
    ensures Output(env, ss, es, n) == Done <==>
              MayRegister(env, ss[n], es[n].at, i) && es[n].cut >= 4 && i.mailOk
    ensures MayRegister(env, ss[n], es[n].at, i) && es[n].cut >= 4 ==>
              ss[n].next !in ss[n].accounts.users && ss[n + 1] == Registered(env, ss[n], es[n].at, i)
    ensures !MayRegister(env, ss[n], es[n].at, i) ==> ss[n + 1] == ss[n]
  {
    hide Register, Agreement, MayRegister, Registered, Owned, Fresh;
    AgreesAlways(env, ss, es, n);
    FreshAlways(env, ss, es, n);
    OwnedAlways(env, ss, es, n);
    forall client ensures (ss[n].next, client) !in ss[n].entries.accesses { NewUserHasNoAccess(ss[n], client); }
    KeysAreKnown(ss[n], i.ticket);
    RegisteringIff(env, ss[n], es[n].at, es[n].cut, i);
  }

  lemma KeysAreKnown(db: Db, k: Token)
    requires Fresh(db)
    ensures k in db.entries.tickets || k in db.entries.invites ==> k != 0
    ensures db.next !in db.accounts.users && db.next !in db.entries.invites
  {
    assert FreshAt(db, k) && FreshAt(db, db.next);
  }

  // ---- invites ----

  /** An administrator invites an address to a stored client, for fourteen days; otherwise nothing changes. */
  lemma InviteIssuedIff(env: Env, ss: seq<Db>, es: seq<Event>, n: nat, actor: Actor, client: ClientId, raw: string)
    requires IsRun(env, ss, es) && n < |es| && es[n].act == Entry(DoCreateInvite(actor, client, raw))
    ensures Output(env, ss, es, n).InviteIssued? <==>
              actor.isAdmin && env.parseEmail(raw).Some? && client in ss[n].clients && es[n].cut > 0
    ensures if Output(env, ss, es, n).InviteIssued? then
              Output(env, ss, es, n) == InviteIssued(ss[n].next) && ss[n].next !in ss[n].entries.invites &&
              ss[n + 1] == ss[n].(next := ss[n].next + 1,
                                  entries := ss[n].entries.(invites := ss[n].entries.invites[ss[n].next :=
                                    Invite(client, env.parseEmail(raw).value, es[n].at.first + 14 * DAY, None, None)]))
            else ss[n + 1] == ss[n]
  {
    FreshAlways(env, ss, es, n);
    KeysAreKnown(ss[n], ss[n].next);
  }

  /** An administrator revokes an invite that is neither used nor revoked; otherwise nothing changes. */
  lemma InviteRevokedIff(env: Env, ss: seq<Db>, es: seq<Event>, n: nat, actor: Actor, k: Token)
    requires IsRun(env, ss, es) && n < |es| && es[n].act == Entry(DoRevokeInvite(actor, k))
    ensures Output(env, ss, es, n) == Done <==>
              actor.isAdmin && es[n].cut > 0 && k in ss[n].entries.invites &&
              ss[n].entries.invites[k].usedAt.None? && ss[n].entries.invites[k].revokedAt.None?
    ensures if Output(env, ss, es, n) == Done then
              ss[n + 1] == ss[n].(entries := ss[n].entries.(invites := ss[n].entries.invites[k :=
                             ss[n].entries.invites[k].(revokedAt := Some(es[n].at.first))]))
            else ss[n + 1] == ss[n]
  {
    hide Fresh;
    FreshAlways(env, ss, es, n);
    KeysAreKnown(ss[n], k);
  }

  /** The invite is unused, unrevoked and unexpired, and its client is stored. */
  predicate IsOpen(db: Db, k: Token, at: Time) {
    && k in db.entries.invites && db.entries.invites[k].client in db.clients
    && db.entries.invites[k].usedAt.None? && db.entries.invites[k].revokedAt.None?
    && at < db.entries.invites[k].expiresAt
  }

  /** u gets access through the invite, which is used up. */
  function Admitted(db: Db, k: Token, u: UserId, at: Time): Entries
    requires k in db.entries.invites
  {
    var row := db.entries.invites[k];
    db.entries.(invites := db.entries.invites[k := row.(usedAt := Some(at))],
                accesses := db.entries.accesses[(u, row.client) := Visited(db, u, row.client, "", at)])
  }

  lemma Granting(db: Db, at: Time, cut: nat, u: UserId, k: Token)
    requires k in db.entries.invites && db.entries.invites[k].usedAt.None? && db.entries.invites[k].revokedAt.None?
    ensures var r := Grant(db, at, cut, u, k, db.entries.invites[k].client);
            if cut >= 2 && at < db.entries.invites[k].expiresAt then r == (db.(entries := Admitted(db, k, u, at)), Done)
            else r.1.Failed?
  {
  }

  /** The session belongs to the user the invite is addressed to. */
  predicate IsAddressee(db: Db, k: Token, session: Token, at: Time, u: UserId) {
    && ResolveSession(db, at, session) == Some(u) && u in db.accounts.users && k in db.entries.invites
    && db.accounts.users[u].email == db.entries.invites[k].email
  }

  lemma AcceptingIff(db: Db, at: Clock, cut: nat, k: Token, session: Token)
    requires k in db.entries.invites ==> k != 0
    ensures var r := AcceptExisting(db, at, cut, k, session);
            if IsOpen(db, k, at.first) && exists u :: IsAddressee(db, k, session, at.second, u) then
              var u := ResolveSession(db, at.second, session).value;
              if cut >= 2 && at.third < db.entries.invites[k].expiresAt
              then r == (db.(entries := Admitted(db, k, u, at.third)), Done) else r.1.Failed?
            else r.0 == db && r.1.Failed?
  {
    hide Grant, ResolveSession, Admitted;
    var u := ResolveSession(db, at.second, session);
    if IsOpen(db, k, at.first) && u.Some? {
      ResolvedUserExists(db, at.second, session);
      assert IsAddressee(db, k, session, at.second, u.value) <==>
             db.accounts.users[u.value].email == db.entries.invites[k].email;
      Granting(db, at.third, cut, u.value, k);
    }
  }

  lemma ResolvedUserExists(db: Db, at: Time, session: Token)
    ensures var u := ResolveSession(db, at, session); u.Some? ==> u.value in db.accounts.users
  {
  }

  /**
    An acceptance succeeds exactly for the signed-in addressee of an open invite, when it is still in
    time when it is used up; then, and only then, is it used up.
   */
  lemma AcceptSucceedsIff(env: Env, ss: seq<Db>, es: seq<Event>, n: nat, k: Token, session: Token)
    requires IsRun(env, ss, es) && n < |es| && es[n].act == Entry(DoAcceptExisting(k, session))
    ensures Output(env, ss, es, n) == Done <==>
              IsOpen(ss[n], k, es[n].at.third) && es[n].cut >= 2 &&
              exists u :: IsAddressee(ss[n], k, session, es[n].at.second, u)
    ensures Output(env, ss, es, n) == Done ==>
              forall u :: IsAddressee(ss[n], k, session, es[n].at.second, u) ==>
                ss[n + 1] == ss[n].(entries := Admitted(ss[n], k, u, es[n].at.third))
    ensures !(IsOpen(ss[n], k, es[n].at.first) && exists u :: IsAddressee(ss[n], k, session, es[n].at.second, u)) ==>
              ss[n + 1] == ss[n]
  {
    hide AcceptExisting, Fresh, Admitted, ResolveSession;
    FreshAlways(env, ss, es, n);
    KeysAreKnown(ss[n], k);
    AcceptingIff(ss[n], es[n].at, es[n].cut, k, session);
  }

  /** The checks of a registration through an invite. */
  predicate MayJoin(db: Db, at: Clock, i: InviteRegisterInput) {
    IsOpen(db, i.invite, at.first) && i.captchaOk && |i.password| >= 12 &&
    db.entries.invites[i.invite].email !in db.accounts.emails
  }

  lemma JoiningIff(db: Db, at: Clock, cut: nat, i: InviteRegisterInput)
    requires Agreement(db.accounts, db.next) && (i.invite in db.entries.invites ==> i.invite != 0)
    ensures var r := RegisterViaInvite(db, at, cut, i);
            if !MayJoin(db, at, i) then r.0 == db && r.1.Failed?
            else if cut >= 4 && at.second < db.entries.invites[i.invite].expiresAt then
              r == (db.(next := db.next + 2,
                        accounts := Joined(db.accounts, db.next, db.entries.invites[i.invite].email, i.newHash,
                                           db.next + 1, at.second),
                        entries := Admitted(db, i.invite, db.next, at.second)),
                    Mailed(i.mailOk))
            else r.1.Failed?
  {
    hide Grant, Agreement, Admitted;
    if MayJoin(db, at, i) && cut > 0 {
      var row := db.entries.invites[i.invite];
      AddressIsFree(db.accounts, db.next, row.email);
      var db1 := AddUser(db, NewUser(row.email, i.newHash)).value;
      Granting(db1, at.second, cut - 1, db.next, i.invite);
      AdmittedReadsEntries(db, db1, i.invite, db.next, at.second);
    }
  }

  lemma AdmittedReadsEntries(db: Db, b: Db, k: Token, u: UserId, at: Time)
    requires k in db.entries.invites && b.entries == db.entries
    ensures Admitted(b, k, u, at) == Admitted(db, k, u, at)
  {
  }

  /**
    A registration through an invite succeeds exactly for an open invite to an address nobody has, when
    it is still in time when it is used up. It makes one account, for that address, with access to the
    invite's client.
   */
  lemma JoinSucceedsIff(env: Env, ss: seq<Db>, es: seq<Event>, n: nat, i: InviteRegisterInput)
    requires IsRun(env, ss, es) && n < |es| && es[n].act == Entry(DoRegisterViaInvite(i))
    ensures Output(env, ss, es, n) == Done <==>
              MayJoin(ss[n], es[n].at, i) && IsOpen(ss[n], i.invite, es[n].at.second) && es[n].cut >= 4 && i.mailOk
    ensures MayJoin(ss[n], es[n].at, i) && IsOpen(ss[n], i.invite, es[n].at.second) && es[n].cut >= 4 ==>
              ss[n].next !in ss[n].accounts.users &&
              ss[n + 1] == ss[n].(next := ss[n].next + 2,
                                  accounts := Joined(ss[n].accounts, ss[n].next,
                                                     ss[n].entries.invites[i.invite].email, i.newHash,
                                                     ss[n].next + 1, es[n].at.second),
                                  entries := Admitted(ss[n], i.invite, ss[n].next, es[n].at.second))
    ensures !MayJoin(ss[n], es[n].at, i) ==> ss[n + 1] == ss[n]
  {
    hide RegisterViaInvite, Agreement, Admitted, Joined, Fresh;
    AgreesAlways(env, ss, es, n);
    FreshAlways(env, ss, es, n);
    KeysAreKnown(ss[n], i.invite);
    JoiningIff(ss[n], es[n].at, es[n].cut, i);
  }
}
