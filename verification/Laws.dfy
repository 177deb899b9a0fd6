/** What one step can do to one row of each table. */
module Laws {
  import opened Domain
  import opened Tables
  import opened UseCases
  import opened Machine

  // ---- generated keys are never reused ----

  predicate FreshAt(db: Db, k: Token) {
    (k in db.accounts.users || k in db.accounts.verifs || k in db.entries.tickets || k in db.entries.invites ||
     k in db.sessions.rows || k in db.grants.codes || k in db.grants.refresh || k in db.grants.lineage ||
         k in db.resets)
    ==> 0 < k < db.next
  }

  ghost predicate Fresh(db: Db) {
    db.next > 0 && forall k {:trigger FreshAt(db, k)} :: FreshAt(db, k)
  }

  lemma SignUpFreshAt(db: Db, now: Time, cut: nat, client: ClientId, email: Email, hash: string, mailOk: bool, k: Token)
    requires FreshAt(db, k) && db.next > 0
    ensures FreshAt(SignUp(db, now, cut, client, email, hash, mailOk).0, k)
  {
  }

  lemma ViaInviteFreshAt(db: Db, at: Clock, cut: nat, i: InviteRegisterInput, k: Token)
    requires FreshAt(db, k) && db.next > 0
    ensures FreshAt(RegisterViaInvite(db, at, cut, i).0, k)
  {
    hide LoadUsable;
  }

  lemma EntryFreshAt(env: Env, db: Db, at: Clock, cut: nat, a: EntryAction, k: Token)
    requires FreshAt(db, k) && db.next > 0
    ensures FreshAt(EntryStep(env, db, at, cut, a).0, k)
  {
    hide SignUp, RegisterViaInvite, ResolveSession;
    match a
    case DoRegister(i) =>
      var consumed := db.entries.ConsumeTicket(i.ticket, at.second);
      if cut > 0 && consumed.Ok? && env.parseEmail(i.email).Some? {
        SignUpFreshAt(db.(entries := consumed.value.0), at.second, cut - 1, consumed.value.1.client,
                      env.parseEmail(i.email).value, i.newHash, i.mailOk, k);
      }
    case DoRegisterViaInvite(i) => ViaInviteFreshAt(db, at, cut, i, k);
    case _ =>
  }

  lemma GrantFreshAt(env: Env, db: Db, at: Clock, cut: nat, a: GrantAction, k: Token)
    requires FreshAt(db, k) && db.next > 0
    ensures FreshAt(GrantStep(env, db, at, cut, a).0, k)
  {
    hide AuthorizeError, ResolveSession, AuthenticatesClient, CodeMatches;
  }

  lemma MailFreshAt(env: Env, db: Db, at: Clock, cut: nat, a: MailAction, k: Token)
    requires FreshAt(db, k) && db.next > 0
    ensures FreshAt(MailStep(env, db, at, cut, a).0, k)
  {
  }

  lemma CredentialFreshAt(env: Env, db: Db, at: Clock, cut: nat, a: CredentialAction, k: Token)
    requires FreshAt(db, k) && db.next > 0
    ensures FreshAt(CredentialStep(env, db, at, cut, a).0, k)
  {
    hide RevokeAll;
  }

  lemma FreshStep(env: Env, db: Db, e: Event)
    requires Fresh(db)
    ensures Fresh(Next(env, db, e).0) && Next(env, db, e).0.next >= db.next
  {
    hide MailStep, EntryStep, GrantStep, CredentialStep, ClientStep;
    var b := Next(env, db, e).0;
    forall k ensures FreshAt(b, k) {
      assert FreshAt(db, k);
      match e.act
      case Mail(a) => MailFreshAt(env, db, e.at, e.cut, a, k);
      case Entry(a) => EntryFreshAt(env, db, e.at, e.cut, a, k);
      case Grants(a) => GrantFreshAt(env, db, e.at, e.cut, a, k);
      case Credential(a) => CredentialFreshAt(env, db, e.at, e.cut, a, k);
      case Clients(a) =>
    }
  }

  lemma {:induction false} FreshAlways(env: Env, ss: seq<Db>, es: seq<Event>, i: nat)
    requires IsRun(env, ss, es) && i < |ss|
    ensures Fresh(ss[i])
  {
    hide Next;
    if i > 0 {
      FreshAlways(env, ss, es, i - 1);
      FreshStep(env, ss[i - 1], es[i - 1]);
    }
  }

  lemma {:induction false} NextGrows(env: Env, ss: seq<Db>, es: seq<Event>, i: nat, j: nat)
    requires IsRun(env, ss, es) && i <= j < |ss|
    ensures ss[i].next <= ss[j].next
    decreases j
  {
    hide Next;
    if i < j {
      FreshAlways(env, ss, es, j - 1);
      FreshStep(env, ss[j - 1], es[j - 1]);
      NextGrows(env, ss, es, i, j - 1);
    }
  }

  // ---- users ----

  /** An administrator sets the status, or a live sign-up token is presented and marked, which makes the user active. */
  predicate SetsStatus(db: Db, e: Event, u: UserId, status: Status) {
    match e.act
    case Credential(DoSetStatus(actor, user, s)) =>
      actor.isAdmin && !(actor.id == u && s == Suspended) && e.cut > 0 && user == u && s == status
    case Mail(DoVerifyEmail(t)) => PresentsSignUpToken(db, e, t, u) && status == Active
    case _ => false
  }

  /** t is an unused, unexpired sign-up token of u, and the infrastructure lets both writes through. */
  predicate PresentsSignUpToken(db: Db, e: Event, t: Token, u: UserId) {
    t in db.accounts.verifs && db.accounts.verifs[t].user == u && db.accounts.verifs[t].email.None? &&
    db.accounts.verifs[t].usedAt.None? && e.at.first < db.accounts.verifs[t].expiresAt && e.cut >= 2
  }

  /** A live reset token of the user is presented, or the user's current password. */
  predicate SetsPassword(env: Env, db: Db, e: Event, u: UserId, hash: string) {
    match e.act
    case Credential(DoResetPassword(t, _, _, newHash)) =>
      t in db.resets && db.resets[t].user == u && db.resets[t].usedAt.None? && e.at.first < db.resets[t].expiresAt &&
          newHash == hash
    case Credential(DoChangePassword(i)) =>
      i.user == u && u in db.accounts.users && env.verify(db.accounts.users[u].hash, i.current) && i.newHash == hash
    case _ => false
  }

  predicate UserMoves(env: Env, db: Db, e: Event, b: Db, u: UserId) {
    u in b.accounts.users ==>
      var y := b.accounts.users[u];
      if u in db.accounts.users then
        var x := db.accounts.users[u];
        && (x.verifiedAt.Some? ==> y.verifiedAt.Some?)
        && (y.status != x.status ==> SetsStatus(db, e, u, y.status))
        && (y.hash != x.hash ==> SetsPassword(env, db, e, u, y.hash))
      else u >= db.next && y.verifiedAt.None?
  }

  /** A user is unchanged, or new and unverified. */
  predicate UserGrows(db: Db, b: Db, u: UserId) {
    && (u in db.accounts.users ==> u in b.accounts.users && b.accounts.users[u] == db.accounts.users[u])
    && (u in b.accounts.users && u !in db.accounts.users ==> u >= db.next && b.accounts.users[u].verifiedAt.None?)
  }

  lemma SignUpUsers(db: Db, now: Time, cut: nat, client: ClientId, email: Email, hash: string, mailOk: bool, u: UserId)
    requires db.next !in db.accounts.users
    ensures UserGrows(db, SignUp(db, now, cut, client, email, hash, mailOk).0, u)
  {
  }

  lemma EntryUsers(env: Env, db: Db, at: Clock, cut: nat, a: EntryAction, u: UserId)
    requires db.next !in db.accounts.users
    ensures UserGrows(db, EntryStep(env, db, at, cut, a).0, u)
  {
    hide SignUp, Grant, AcceptExisting;
    match a
    case DoRegister(i) =>
      var consumed := db.entries.ConsumeTicket(i.ticket, at.second);
      if cut > 0 && consumed.Ok? && env.parseEmail(i.email).Some? {
        SignUpUsers(db.(entries := consumed.value.0), at.second, cut - 1, consumed.value.1.client,
                    env.parseEmail(i.email).value, i.newHash, i.mailOk, u);
      }
    case _ =>
  }

  lemma SessionRequestsKeepAccounts(env: Env, db: Db, at: Clock, cut: nat, a: CredentialAction)
    requires a.DoLogin? || a.DoLogout? || a.DoRequestReset? || a.DoRevokeSessions?
    ensures CredentialStep(env, db, at, cut, a).0.accounts == db.accounts
  {
    hide RevokeAll;
  }

  lemma CredentialUsers(env: Env, db: Db, e: Event, a: CredentialAction, u: UserId)
    requires e.act == Credential(a)
    ensures UserMoves(env, db, e, CredentialStep(env, db, e.at, e.cut, a).0, u)
  {
    hide RevokeAll, Login, RequestReset;
    if a.DoLogin? || a.DoLogout? || a.DoRequestReset? || a.DoRevokeSessions? {
      SessionRequestsKeepAccounts(env, db, e.at, e.cut, a);
    }
  }

  lemma MailUsers(env: Env, db: Db, e: Event, a: MailAction, u: UserId)
    requires e.act == Mail(a)
    ensures UserMoves(env, db, e, MailStep(env, db, e.at, e.cut, a).0, u)
  {
  }

  lemma UserLaw(env: Env, db: Db, e: Event, u: UserId)
    requires Fresh(db)
    ensures UserMoves(env, db, e, Next(env, db, e).0, u)
  {
    hide MailStep, EntryStep, GrantStep, CredentialStep, ClientStep;
    assert FreshAt(db, db.next);
    match e.act
    case Mail(a) => MailUsers(env, db, e, a, u);
    case Entry(a) => EntryUsers(env, db, e.at, e.cut, a, u);
    case Credential(a) => CredentialUsers(env, db, e, a, u);
    case _ =>
  }

  /** Ids are not reused: a user who is gone stays gone. */
  lemma {:induction false} DeletedForGood(env: Env, ss: seq<Db>, es: seq<Event>, i: nat, j: nat, u: UserId)
    requires IsRun(env, ss, es) && i <= j < |ss| && u < ss[i].next && u !in ss[i].accounts.users
    ensures u !in ss[j].accounts.users
    decreases j
  {
    hide Next;
    if i < j {
      DeletedForGood(env, ss, es, i, j - 1, u);
      FreshAlways(env, ss, es, j - 1);
      NextGrows(env, ss, es, i, j - 1);
      UserLaw(env, ss[j - 1], es[j - 1], u);
    }
  }
}
