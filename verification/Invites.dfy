/** An invite is used or revoked once, and admits one user. */
module Invites {
  import opened Domain
  import opened Tables
  import opened UseCases
  import opened Machine
  import opened Laws
  import opened InviteOnly

  predicate IsSpent(row: Invite) { row.usedAt.Some? || row.revokedAt.Some? }

  /** The step is an administrator's invitation of this address to this client. */
  predicate Creates(env: Env, db: Db, e: Event, k: Token, row: Invite) {
    match e.act
    case Entry(DoCreateInvite(actor, client, raw)) =>
      && k == db.next && actor.isAdmin && client in db.clients && env.parseEmail(raw) == Some(row.email)
      && row == Invite(client, row.email, e.at.first + INVITE_TTL, None, None)
    case _ => false
  }

  /** An invite keeps its client, address and expiry, is used or revoked but not both, and stays so. */
  predicate InviteMoves(env: Env, db: Db, e: Event, b: Db, k: Token) {
    k in b.entries.invites ==>
      var y := b.entries.invites[k];
      if k in db.entries.invites then OneMark(db.entries.invites[k], y) else Creates(env, db, e, k, y)
  }

  predicate OneMark(x: Invite, y: Invite) {
    && y == x.(usedAt := y.usedAt, revokedAt := y.revokedAt)
    && (IsSpent(x) ==> y == x)
    && (!IsSpent(x) ==> y.usedAt.None? || y.revokedAt.None?)
  }

  lemma SignUpInvites(db: Db, now: Time, cut: nat, client: ClientId, email: Email, hash: string, mailOk: bool)
    ensures SignUp(db, now, cut, client, email, hash, mailOk).0.entries.invites == db.entries.invites
  {
  }

  /** No new invite, and at most one mark on each. */
  predicate KeepsInvites(db: Db, b: Db, k: Token) {
    && b.entries.invites.Keys == db.entries.invites.Keys
    && (k in b.entries.invites && k in db.entries.invites ==> OneMark(db.entries.invites[k], b.entries.invites[k]))
  }

  lemma GrantInvites(db: Db, at: Time, cut: nat, user: UserId, invite: Token, client: ClientId, k: Token)
    ensures KeepsInvites(db, Grant(db, at, cut, user, invite, client).0, k)
    ensures Grant(db, at, cut, user, invite, client).1 == Done ==>
              invite in Grant(db, at, cut, user, invite, client).0.entries.invites &&
              IsSpent(Grant(db, at, cut, user, invite, client).0.entries.invites[invite])
  {
  }

  lemma EntryInvites(env: Env, db: Db, e: Event, a: EntryAction, k: Token)
    requires e.act == Entry(a) && db.next !in db.entries.invites
    ensures InviteMoves(env, db, e, EntryStep(env, db, e.at, e.cut, a).0, k)
  {
    hide SignUp, Grant, ResolveSession, PeekTicket;
    forall d: Db, x: Time, n: nat, c: ClientId, m: Email, h: string, ok: bool
      ensures SignUp(d, x, n, c, m, h, ok).0.entries.invites == d.entries.invites
    {
      SignUpInvites(d, x, n, c, m, h, ok);
    }
    forall d: Db, x: Time, n: nat, u: UserId, i: Token, c: ClientId
      ensures KeepsInvites(d, Grant(d, x, n, u, i, c).0, k)
    {
      GrantInvites(d, x, n, u, i, c, k);
    }
  }

  lemma InviteLaw(env: Env, db: Db, e: Event, k: Token)
    requires Fresh(db)
    ensures InviteMoves(env, db, e, Next(env, db, e).0, k)
  {
    hide EntryStep, GrantStep, MailStep, CredentialStep, ClientStep, Creates;
    assert FreshAt(db, db.next);
    match e.act
    case Entry(a) => EntryInvites(env, db, e, a, k);
    case Grants(a) => GrantStepInvites(env, db, e.at, e.cut, a);
    case Credential(a) => CredentialInvites(env, db, e.at, e.cut, a);
    case _ =>
  }

  lemma GrantStepInvites(env: Env, db: Db, at: Clock, cut: nat, a: GrantAction)
    ensures GrantStep(env, db, at, cut, a).0.entries.invites == db.entries.invites
  {
    hide AuthorizeError, ResolveSession, AuthenticatesClient, CodeMatches;
  }

  lemma CredentialInvites(env: Env, db: Db, at: Clock, cut: nat, a: CredentialAction)
    ensures CredentialStep(env, db, at, cut, a).0.entries.invites == db.entries.invites
  {
    hide RevokeAll;
  }

  /** No reachable state has an invite that is both used and revoked. */
  lemma {:induction false} NeverUsedAndRevoked(env: Env, ss: seq<Db>, es: seq<Event>, i: nat, k: Token)
    requires IsRun(env, ss, es) && i < |ss| && k in ss[i].entries.invites
    ensures ss[i].entries.invites[k].usedAt.None? || ss[i].entries.invites[k].revokedAt.None?
  {
    hide Next;
    if i > 0 {
      FreshAlways(env, ss, es, i - 1);
      InviteLaw(env, ss[i - 1], es[i - 1], k);
      if k in ss[i - 1].entries.invites {
        NeverUsedAndRevoked(env, ss, es, i - 1, k);
      }
    }
  }

  lemma {:induction false} SpentStays(env: Env, ss: seq<Db>, es: seq<Event>, i: nat, j: nat, k: Token)
    requires IsRun(env, ss, es) && i <= j < |ss| && k in ss[i].entries.invites && IsSpent(ss[i].entries.invites[k])
    ensures k in ss[j].entries.invites ==> IsSpent(ss[j].entries.invites[k])
    decreases j
  {
    hide Next;
    if i < j {
      SpentStays(env, ss, es, i, j - 1, k);
      FreshAlways(env, ss, es, j - 1);
      FreshAlways(env, ss, es, i);
      assert FreshAt(ss[i], k);
      NextGrows(env, ss, es, i, j - 1);
      InviteLaw(env, ss[j - 1], es[j - 1], k);
    }
  }

  /** The invite a step presents. */
  predicate PresentsInvite(e: Event, k: Token) {
    match e.act
    case Entry(DoAcceptExisting(invite, _)) => invite == k
    case Entry(DoRegisterViaInvite(i)) => i.invite == k
    case _ => false
  }

  /**
    The step gets as far as marking the invite: an acceptance or registration that passes its
    checks, is not cut off before its last write to the invite, and reads the clock before the
    expiry once more when it writes; or an administrator's revocation.
   */
  predicate Spends(db: Db, e: Event, k: Token) {
    && k != 0
    && match e.act
       case Entry(DoAcceptExisting(invite, session)) =>
         && invite == k && LoadUsable(db, e.at.first, k).Ok?
         && var user := ResolveSession(db, e.at.second, session);
         && user.Some? && db.accounts.users[user.value].email == db.entries.invites[k].email
         && e.cut >= 2 && e.at.third < db.entries.invites[k].expiresAt
       case Entry(DoRegisterViaInvite(i)) =>
         && i.invite == k && LoadUsable(db, e.at.first, k).Ok?
         && i.captchaOk && |i.password| >= MIN_PASSWORD_LENGTH
         && db.accounts.CreateUser(db.next, NewUser(db.entries.invites[k].email, i.newHash)).Ok?
         && e.cut >= 3 && e.at.second < db.entries.invites[k].expiresAt
       case Entry(DoRevokeInvite(actor, invite)) => invite == k && actor.isAdmin && e.cut > 0
       case _ => false
  }

  lemma GrantSpendsIff(db: Db, at: Time, cut: nat, user: UserId, invite: Token, client: ClientId)
    requires invite in db.entries.invites && !IsSpent(db.entries.invites[invite])
    ensures var b := Grant(db, at, cut, user, invite, client).0;
            invite in b.entries.invites &&
                (IsSpent(b.entries.invites[invite]) <==> cut >= 2 && at < db.entries.invites[invite].expiresAt)
  {
  }

  lemma GrantLeavesOthers(db: Db, at: Time, cut: nat, user: UserId, invite: Token, client: ClientId, k: Token)
    requires k != invite && k in db.entries.invites
    ensures var b := Grant(db, at, cut, user, invite, client).0;
            k in b.entries.invites && b.entries.invites[k] == db.entries.invites[k]
  {
  }

  lemma AcceptSpendsIff(db: Db, e: Event, invite: Token, session: Token, k: Token)
    requires e.act == Entry(DoAcceptExisting(invite, session)) && k in db.entries.invites &&
             !IsSpent(db.entries.invites[k]) && k != 0
    ensures var b := AcceptExisting(db, e.at, e.cut, invite, session).0;
            k in b.entries.invites && (IsSpent(b.entries.invites[k]) <==> Spends(db, e, k))
  {
    hide Grant, ResolveSession;
    var row, user := LoadUsable(db, e.at.first, invite), ResolveSession(db, e.at.second, session);
    if row.Ok? && user.Some? {
      if invite == k {
        GrantSpendsIff(db, e.at.third, e.cut, user.value, k, row.value.client);
      } else {
        GrantLeavesOthers(db, e.at.third, e.cut, user.value, invite, row.value.client, k);
      }
    }
  }

  lemma ViaInviteSpendsIff(db: Db, e: Event, i: InviteRegisterInput, k: Token)
    requires e.act == Entry(DoRegisterViaInvite(i)) && k in db.entries.invites && !IsSpent(db.entries.invites[k]) &&
             k != 0
    ensures var b := RegisterViaInvite(db, e.at, e.cut, i).0;
            k in b.entries.invites && (IsSpent(b.entries.invites[k]) <==> Spends(db, e, k))
  {
    hide Grant;
    var row := LoadUsable(db, e.at.first, i.invite);
    if row.Ok? && e.cut > 0 && AddUser(db, NewUser(row.value.email, i.newHash)).Ok? {
      var db1 := AddUser(db, NewUser(row.value.email, i.newHash)).value;
      if i.invite == k {
        GrantSpendsIff(db1, e.at.second, e.cut - 1, db.next, k, row.value.client);
      } else {
        GrantLeavesOthers(db1, e.at.second, e.cut - 1, db.next, i.invite, row.value.client, k);
      }
    }
  }

  lemma EntrySpendsIff(env: Env, db: Db, e: Event, a: EntryAction, k: Token)
    requires e.act == Entry(a) && k in db.entries.invites && !IsSpent(db.entries.invites[k]) && 0 < k < db.next
    ensures var b := EntryStep(env, db, e.at, e.cut, a).0;
            k in b.entries.invites && (IsSpent(b.entries.invites[k]) <==> Spends(db, e, k))
  {
    hide SignUp, AcceptExisting, RegisterViaInvite, PeekTicket;
    forall d: Db, x: Time, n: nat, c: ClientId, m: Email, h: string, ok: bool
      ensures SignUp(d, x, n, c, m, h, ok).0.entries.invites == d.entries.invites
    {
      SignUpInvites(d, x, n, c, m, h, ok);
    }
    match a
    case DoAcceptExisting(invite, session) => AcceptSpendsIff(db, e, invite, session, k);
    case DoRegisterViaInvite(i) => ViaInviteSpendsIff(db, e, i, k);
    case _ =>
  }

  /** An unspent invite is spent after a step exactly when the step spends it, whatever the step answers. */
  lemma SpentIff(env: Env, db: Db, e: Event, k: Token)
    requires Fresh(db) && k in db.entries.invites && !IsSpent(db.entries.invites[k])
    ensures var b := Next(env, db, e).0; k in b.entries.invites && (IsSpent(b.entries.invites[k]) <==> Spends(db, e, k))
  {
    hide EntryStep, GrantStep, MailStep, CredentialStep, ClientStep;
    assert FreshAt(db, k);
    match e.act
    case Entry(a) => EntrySpendsIff(env, db, e, a, k);
    case Grants(a) => GrantStepInvites(env, db, e.at, e.cut, a);
    case Credential(a) => CredentialInvites(env, db, e.at, e.cut, a);
    case _ =>
  }

  /** After a step that spends the invite, an admission or a revocation, the invite admits nobody. */
  lemma OneAdmissionPerInvite(env: Env, ss: seq<Db>, es: seq<Event>, i: nat, j: nat, k: Token, u: UserId,
                              client: ClientId)
    requires IsRun(env, ss, es) && i < j < |es| && k in ss[i].entries.invites && Spends(ss[i], es[i], k) &&
             PresentsInvite(es[j], k)
    ensures !Admits(ss[j], es[j], ss[j + 1], u, client)
  {
    hide Next, ResolveSession, Spends;
    FreshAlways(env, ss, es, i);
    if IsSpent(ss[i].entries.invites[k]) {
      SpentStays(env, ss, es, i, j, k);
    } else {
      SpentIff(env, ss[i], es[i], k);
      SpentStays(env, ss, es, i + 1, j, k);
    }
  }

  /**
    An admission spends its invite exactly when it is not cut off before consuming it and the
    invite has not expired since it was loaded.
   */
  lemma AdmissionSpendsIff(env: Env, db: Db, e: Event, k: Token, u: UserId, client: ClientId)
    requires Fresh(db) && PresentsInvite(e, k) && Admits(db, e, Next(env, db, e).0, u, client)
    ensures var b := Next(env, db, e).0; var expiresAt := db.entries.invites[k].expiresAt;
            k in b.entries.invites &&
            (IsSpent(b.entries.invites[k]) <==>
               if e.act.entry.DoAcceptExisting?
               then k != 0 && client in db.clients && e.cut >= 2 && e.at.third < expiresAt
               else e.cut >= 3 && e.at.second < expiresAt)
  {
    SpentIff(env, db, e, k);
    if e.act.entry.DoRegisterViaInvite? {
      assert FreshAt(db, db.next);
      NewcomerPassedTheChecks(db, e, e.act.entry.viaInvite);
    }
  }

  lemma NewcomerPassedTheChecks(db: Db, e: Event, i: InviteRegisterInput)
    requires db.next !in db.accounts.users && db.next in RegisterViaInvite(db, e.at, e.cut, i).0.accounts.users
    ensures i.invite != 0 && LoadUsable(db, e.at.first, i.invite).Ok? && i.captchaOk &&
            |i.password| >= MIN_PASSWORD_LENGTH
    ensures db.accounts.CreateUser(db.next, NewUser(db.entries.invites[i.invite].email, i.newHash)).Ok?
  {
    hide Grant;
  }

  ghost predicate CreatedAt(env: Env, ss: seq<Db>, es: seq<Event>, k: int, invite: Token, row: Invite)
    requires |es| <= |ss|
  {
    0 <= k < |es| && Creates(env, ss[k], es[k], invite, row.(usedAt := None, revokedAt := None))
  }

  lemma {:induction false} InviteWasCreated(env: Env, ss: seq<Db>, es: seq<Event>, n: nat, invite: Token)
    requires IsRun(env, ss, es) && n < |ss| && invite in ss[n].entries.invites
    ensures exists k :: k < n && CreatedAt(env, ss, es, k, invite, ss[n].entries.invites[invite])
  {
    hide Next, Creates;
    if n > 0 {
      FreshAlways(env, ss, es, n - 1);
      InviteLaw(env, ss[n - 1], es[n - 1], invite);
      var row := ss[n].entries.invites[invite];
      if invite in ss[n - 1].entries.invites {
        InviteWasCreated(env, ss, es, n - 1, invite);
        var k :| k < n - 1 && CreatedAt(env, ss, es, k, invite, ss[n - 1].entries.invites[invite]);
        assert CreatedAt(env, ss, es, k, invite, row);
      } else {
        CreatedUnspent(env, ss[n - 1], es[n - 1], invite, row);
        assert CreatedAt(env, ss, es, n - 1, invite, row);
      }
    }
  }

  lemma CreatedUnspent(env: Env, db: Db, e: Event, invite: Token, row: Invite)
    requires Creates(env, db, e, invite, row)
    ensures row == row.(usedAt := None, revokedAt := None) && row.expiresAt == e.at.first + INVITE_TTL
  {
  }

  /**
    Whoever is admitted was invited to that client, at that address, by an administrator less than
    fourteen days before.
   */
  lemma AdmissionNeedsAdministrator(env: Env, ss: seq<Db>, es: seq<Event>, n: nat, u: UserId, client: ClientId)
    requires IsRun(env, ss, es) && n < |es| && Admits(ss[n], es[n], ss[n + 1], u, client)
    ensures exists invite, k :: PresentsInvite(es[n], invite) && invite in ss[n].entries.invites && k < n &&
                                CreatedAt(env, ss, es, k, invite, ss[n].entries.invites[invite]) &&
                                ss[n].entries.invites[invite].client == client &&
                                es[k].at.first <= es[n].at.first < es[k].at.first + INVITE_TTL
  {
    hide Next, Creates, ResolveSession;
    var invite := if es[n].act.entry.DoAcceptExisting? then es[n].act.entry.invite
                  else es[n].act.entry.viaInvite.invite;
    assert PresentsInvite(es[n], invite);
    InviteWasCreated(env, ss, es, n, invite);
    var row := ss[n].entries.invites[invite];
    var k :| k < n && CreatedAt(env, ss, es, k, invite, row);
    CreatedUnspent(env, ss[k], es[k], invite, row.(usedAt := None, revokedAt := None));
    assert es[k].at.Ordered() && es[k].at.third <= es[n].at.first;
  }

  /**
    An invitation works: within fourteen days its addressee, signed in, gets access by accepting it,
    which uses it up.
   */
  lemma InvitationAdmits(env: Env, db: Db, first: Clock, second: Clock, cut: nat, actor: Actor, client: ClientId,
                         raw: string, session: Token, u: UserId)
    requires first.Ordered() && second.Ordered() && second.third < first.first + INVITE_TTL && cut >= 2 && db.next > 0
    requires CreateInvite(env, db, first, cut, actor, client, raw).1.InviteIssued?
    requires ResolveSession(db, second.second, session) == Some(u) &&
             env.parseEmail(raw) == Some(db.accounts.users[u].email)
    ensures var invited := CreateInvite(env, db, first, cut, actor, client, raw);
            var accepted := AcceptExisting(invited.0, second, cut, invited.1.invite, session);
            accepted.1 == Done && HasAccess(accepted.0, u, client) &&
            invited.1.invite in accepted.0.entries.invites &&
            accepted.0.entries.invites[invited.1.invite].usedAt == Some(second.third)
  {
  }
}
