/** Exactly when a session resolves, in terms of the run that led to the state. */
module SessionHistory {
  import opened Domain
  import opened Tables
  import opened UseCases
  import opened Machine
  import opened Laws
  import opened SessionLaws
  import opened References

  /**
    The step gets past its checks and makes at least this many of the two revoking writes for u: its
    sessions first, then its refresh tokens.
   */
  predicate ReachesRevocation(env: Env, db: Db, e: Event, u: UserId, writes: nat) {
    && u in db.accounts.users
    && match e.act
       case Credential(DoResetPassword(t, password, confirm, _)) =>
         t in db.resets && db.resets[t].user == u && db.resets[t].usedAt.None? && e.at.first < db.resets[t].expiresAt &&
         password == confirm && |password| >= 12 && e.cut >= 2 + writes
       case Credential(DoChangePassword(i)) =>
         i.user == u && i.current != "" && i.password == i.confirm && |i.password| >= 12 && i.password != i.current &&
         db.accounts.users[u].status != Suspended && db.accounts.users[u].verifiedAt.Some? &&
         env.verify(db.accounts.users[u].hash, i.current) && e.cut >= 1 + writes
       case Credential(DoSetStatus(actor, user, status)) =>
         actor.isAdmin && actor.id != u && user == u && status == Suspended && e.cut >= 1 + writes
       case Credential(DoRevokeSessions(actor, user)) => actor.isAdmin && user == u && e.cut >= writes
       case _ => false
  }

  /** The step logs the session out, or revokes all sessions of its user. */
  predicate Ends(env: Env, db: Db, e: Event, t: Token, u: UserId) {
    (e.act == Credential(DoLogout(t)) && e.cut > 0) || ReachesRevocation(env, db, e, u, 1)
  }

  /** The step is a login with a verified address of u, answered with this session. */
  ghost predicate OpensFor(env: Env, db: Db, e: Event, t: Token, u: UserId) {
    match e.act
    case Credential(DoLogin(raw, _, _)) =>
      env.parseEmail(raw).Some? && env.parseEmail(raw).value in db.accounts.Verified(u) &&
      Next(env, db, e).1.SessionOpened? && Next(env, db, e).1.session == t
    case _ => false
  }

  predicate IsLive(db: Db, t: Token, u: UserId, expiresAt: Time) {
    t in db.sessions.rows && db.sessions.rows[t] == Session(u, expiresAt, None)
  }

  lemma RevokingAll(db: Db, at: Time, cut: nat, v: UserId, t: Token, u: UserId, x: Time)
    requires IsLive(db, t, u, x)
    ensures IsLive(RevokeAll(db, at, cut, v).0, t, u, x) <==> !(cut >= 1 && v == u)
  {
  }

  lemma ReplacingPassword(db: Db, at: Time, cut: nat, v: UserId, hash: string, t: Token, u: UserId, x: Time)
    requires IsLive(db, t, u, x) && v in db.accounts.users
    ensures IsLive(ReplacePassword(db, at, cut, v, hash).0, t, u, x) <==> !(cut >= 2 && v == u)
  {
    hide RevokeAll;
    if cut > 0 {
      RevokingAll(db.(accounts := db.accounts.UpdatePassword(v, hash).value), at, cut - 1, v, t, u, x);
    }
  }

  lemma ResettingPassword(env: Env, db: Db, e: Event, t: Token, u: UserId, x: Time)
    requires e.act.Credential? && e.act.credential.DoResetPassword? && IsLive(db, t, u, x) && u in db.accounts.users
    requires Fresh(db) && Owned(db)
    ensures IsLive(Next(env, db, e).0, t, u, x) <==> !Ends(env, db, e, t, u)
  {
    hide ReplacePassword, Fresh, Owned;
    var a := e.act.credential;
    assert Next(env, db, e) == ResetPassword(db, e.at, e.cut, a.token, a.password, a.confirm, a.newHash);
    if a.token in db.resets { ResetUser(db, a.token); }
    var consumed := ConsumeResetToken(db.resets, a.token, e.at.first);
    if consumed.Ok? && e.cut > 0 {
      ReplacingPassword(db.(resets := consumed.value.0), e.at.first, e.cut - 1, consumed.value.1.user, a.newHash, t, u,
                        x);
    }
  }

  lemma ResetUser(db: Db, token: Token)
    requires Fresh(db) && Owned(db) && token in db.resets
    ensures token != 0 && db.resets[token].user in db.accounts.users
  {
    assert FreshAt(db, token) && OwnerExists(db, token);
  }

  lemma SettingStatus(db: Db, at: Clock, cut: nat, actor: Actor, id: UserId, status: Status, t: Token, u: UserId,
                      x: Time)
    requires IsLive(db, t, u, x) && u in db.accounts.users
    ensures IsLive(SetStatus(db, at, cut, actor, id, status).0, t, u, x) <==>
            !(actor.isAdmin && actor.id != u && id == u && status == Suspended && cut >= 2)
  {
    hide RevokeAll;
    if cut > 0 && id in db.accounts.users {
      RevokingAll(db.(accounts := db.accounts.SetStatus(id, status).value), at.first, cut - 1, id, t, u, x);
    }
  }

  lemma ChangingPassword(env: Env, db: Db, e: Event, t: Token, u: UserId, x: Time)
    requires e.act.Credential? && e.act.credential.DoChangePassword? && IsLive(db, t, u, x) && u in db.accounts.users
    ensures IsLive(Next(env, db, e).0, t, u, x) <==> !Ends(env, db, e, t, u)
  {
    hide ReplacePassword;
    var i := e.act.credential.change;
    if i.user in db.accounts.users {
      ReplacingPassword(db, e.at.first, e.cut, i.user, i.newHash, t, u, x);
    }
  }

  lemma RevokingSessions(db: Db, at: Clock, cut: nat, actor: Actor, id: UserId, t: Token, u: UserId, x: Time)
    requires IsLive(db, t, u, x) && u in db.accounts.users && u != 0
    ensures IsLive(RevokeUserSessions(db, at, cut, actor, id).0, t, u, x) <==> !(actor.isAdmin && id == u && cut >= 1)
  {
    hide RevokeAll;
    RevokingAll(db, at.first, cut, id, t, u, x);
  }

  lemma DeletingUser(db: Db, cut: nat, actor: Actor, id: UserId, t: Token, u: UserId, x: Time)
    requires IsLive(db, t, u, x) && u in db.accounts.users
    ensures IsLive(DeleteUser(db, cut, actor, id).0, t, u, x) <==>
            u in DeleteUser(db, cut, actor, id).0.accounts.users
  {
  }

  /** A live session stays as it is while its user exists and no step ends it. */
  lemma CredentialKeepsIff(env: Env, db: Db, e: Event, t: Token, u: UserId, x: Time)
    requires e.act.Credential? && Fresh(db) && Owned(db) && IsLive(db, t, u, x)
    ensures var b := Next(env, db, e).0;
            IsLive(b, t, u, x) <==> u in b.accounts.users && !Ends(env, db, e, t, u)
  {
    hide ReplacePassword, RevokeAll, ResetPassword, ChangePassword, SetStatus, DeleteUser, RevokeUserSessions, Owned,
        Fresh;
    assert u in db.accounts.users && u != 0 && t != 0 && t != db.next by { SessionUser(db, t); }
    if !e.act.credential.DoDeleteUser? { CredentialKeepsUser(env, db, e, u); }
    match e.act.credential
    case DoResetPassword(_, _, _, _) => ResettingPassword(env, db, e, t, u, x);
    case DoChangePassword(_) => ChangingPassword(env, db, e, t, u, x);
    case DoSetStatus(actor, id, status) => SettingStatus(db, e.at, e.cut, actor, id, status, t, u, x);
    case DoRevokeSessions(actor, id) => RevokingSessions(db, e.at, e.cut, actor, id, t, u, x);
    case DoDeleteUser(actor, id) => DeletingUser(db, e.cut, actor, id, t, u, x);
    case _ =>
  }

  lemma SessionUser(db: Db, t: Token)
    requires Fresh(db) && Owned(db) && t in db.sessions.rows
    ensures var u := db.sessions.rows[t].user; u in db.accounts.users && u != 0 && 0 < t < db.next
  {
    assert FreshAt(db, t) && OwnerExists(db, t);
    assert FreshAt(db, db.sessions.rows[t].user);
  }

  /** Only the deletion of a user removes one. */
  lemma CredentialKeepsUser(env: Env, db: Db, e: Event, u: UserId)
    requires e.act.Credential? && !e.act.credential.DoDeleteUser? && u in db.accounts.users
    ensures u in Next(env, db, e).0.accounts.users
  {
    hide RevokeAll, Login, RequestReset;
    var a := e.act.credential;
    if a.DoLogin? || a.DoLogout? || a.DoRequestReset? || a.DoRevokeSessions? {
      SessionRequestsKeepAccounts(env, db, e.at, e.cut, a);
    }
  }

  lemma StepKeepsUser(env: Env, db: Db, e: Event, u: UserId)
    requires Fresh(db) && !e.act.Credential? && u in db.accounts.users
    ensures u in Next(env, db, e).0.accounts.users && Next(env, db, e).0.sessions == db.sessions
  {
    hide MailStep, EntryStep, GrantStep, ClientStep;
    assert FreshAt(db, db.next);
    match e.act
    case Mail(a) => MailKeepsUser(env, db, e.at, e.cut, a, u);
    case Entry(a) => EntryUsers(env, db, e.at, e.cut, a, u);
    case _ =>
  }

  lemma MailKeepsUser(env: Env, db: Db, at: Clock, cut: nat, a: MailAction, u: UserId)
    requires u in db.accounts.users
    ensures u in MailStep(env, db, at, cut, a).0.accounts.users
  {
  }

  lemma StepKeepsIff(env: Env, db: Db, e: Event, t: Token, u: UserId, x: Time)
    requires Fresh(db) && Owned(db) && IsLive(db, t, u, x)
    ensures var b := Next(env, db, e).0;
            IsLive(b, t, u, x) <==> u in b.accounts.users && !Ends(env, db, e, t, u)
  {
    hide Next, Owned, Fresh;
    SessionUser(db, t);
    if e.act.Credential? {
      CredentialKeepsIff(env, db, e, t, u, x);
    } else {
      StepKeepsUser(env, db, e, u);
    }
  }

  /** A session is new after a step exactly when the step answers with it. */
  lemma StepOpensIff(env: Env, db: Db, e: Event, t: Token, u: UserId, x: Time)
    requires Fresh(db) && t !in db.sessions.rows
    ensures IsLive(Next(env, db, e).0, t, u, x) <==>
            OpensFor(env, db, e, t, u) && x == e.at.first + env.sessionTTL
  {
    hide MailStep, EntryStep, GrantStep, ClientStep, CredentialStep, Fresh;
    if e.act.Credential? {
      CredentialOpensIff(env, db, e, e.act.credential, t, u, x);
    }
  }

  lemma CredentialOpensIff(env: Env, db: Db, e: Event, a: CredentialAction, t: Token, u: UserId, x: Time)
    requires e.act == Credential(a) && t !in db.sessions.rows
    ensures IsLive(CredentialStep(env, db, e.at, e.cut, a).0, t, u, x) <==>
            OpensFor(env, db, e, t, u) && x == e.at.first + env.sessionTTL
  {
    hide RevokeAll;
  }

  // ---- runs ----

  ghost predicate NotEnded(env: Env, ss: seq<Db>, es: seq<Event>, k: nat, n: nat, t: Token, u: UserId)
    requires n <= |es| <= |ss|
  {
    forall m :: k < m < n ==> !Ends(env, ss[m], es[m], t, u)
  }

  ghost predicate OpenSince(env: Env, ss: seq<Db>, es: seq<Event>, k: nat, n: nat, t: Token, u: UserId)
    requires k < n <= |es| <= |ss|
  {
    OpensFor(env, ss[k], es[k], t, u) && NotEnded(env, ss, es, k, n, t, u)
  }

  lemma {:induction false} LiveWasOpened(env: Env, ss: seq<Db>, es: seq<Event>, n: nat, t: Token, u: UserId, x: Time)
    requires IsRun(env, ss, es) && n < |ss| && IsLive(ss[n], t, u, x)
    ensures u in ss[n].accounts.users
    ensures exists k :: 0 <= k < n && OpenSince(env, ss, es, k, n, t, u) && x == es[k].at.first + env.sessionTTL
  {
    hide Next, Fresh, Owned, Ends, OpensFor, IsLive;
    OwnedAlways(env, ss, es, n);
    FreshAlways(env, ss, es, n);
    assert u in ss[n].accounts.users by { LiveUser(ss[n], t, u, x); }
    if n == 0 {
      NothingLive(env, ss, es, t, u, x);
    } else {
      OwnedAlways(env, ss, es, n - 1);
      FreshAlways(env, ss, es, n - 1);
      if t in ss[n - 1].sessions.rows {
        OnlyLiveStaysLive(env, ss[n - 1], es[n - 1], t, u, x);
        StepKeepsIff(env, ss[n - 1], es[n - 1], t, u, x);
        LiveWasOpened(env, ss, es, n - 1, t, u, x);
        var k :| 0 <= k < n - 1 && OpenSince(env, ss, es, k, n - 1, t, u) && x == es[k].at.first + env.sessionTTL;
        assert OpenSince(env, ss, es, k, n, t, u);
      } else {
        StepOpensIff(env, ss[n - 1], es[n - 1], t, u, x);
        assert OpenSince(env, ss, es, n - 1, n, t, u);
      }
    }
  }

  lemma LiveUser(db: Db, t: Token, u: UserId, x: Time)
    requires Fresh(db) && Owned(db) && IsLive(db, t, u, x)
    ensures u in db.accounts.users
  {
    SessionUser(db, t);
  }

  lemma NothingLive(env: Env, ss: seq<Db>, es: seq<Event>, t: Token, u: UserId, x: Time)
    requires IsRun(env, ss, es)
    ensures !IsLive(ss[0], t, u, x)
  {
    hide Next;
  }

  lemma OnlyLiveStaysLive(env: Env, db: Db, e: Event, t: Token, u: UserId, x: Time)
    requires Fresh(db) && t in db.sessions.rows && IsLive(Next(env, db, e).0, t, u, x)
    ensures IsLive(db, t, u, x)
  {
    hide Next, Fresh;
    SessionLaw(env, db, e, t);
  }

  lemma {:induction false} OpenStaysLive(env: Env, ss: seq<Db>, es: seq<Event>, k: nat, j: nat, n: nat, t: Token,
                                         u: UserId)
    requires IsRun(env, ss, es) && k < j <= n < |ss| && OpenSince(env, ss, es, k, n, t, u) && u in ss[n].accounts.users
    ensures IsLive(ss[j], t, u, es[k].at.first + env.sessionTTL)
    decreases j
  {
    hide Next, Fresh, Owned, Ends, OpensFor, IsLive;
    FreshAlways(env, ss, es, j - 1);
    OwnedAlways(env, ss, es, j - 1);
    var x := es[k].at.first + env.sessionTTL;
    if j == k + 1 {
      NewSessionIsFresh(env, ss[k], es[k], t, u);
      StepOpensIff(env, ss[k], es[k], t, u, x);
    } else {
      OpenStaysLive(env, ss, es, k, j - 1, n, t, u);
      LiveUser(ss[j - 1], t, u, x);
      UserStaysUntil(env, ss, es, j - 1, n, u);
      StepKeepsIff(env, ss[j - 1], es[j - 1], t, u, x);
    }
  }

  lemma NewSessionIsFresh(env: Env, db: Db, e: Event, t: Token, u: UserId)
    requires Fresh(db) && OpensFor(env, db, e, t, u)
    ensures t !in db.sessions.rows
  {
    assert FreshAt(db, db.next);
  }

  /** A user who exists now and later exists in between. */
  lemma UserStaysUntil(env: Env, ss: seq<Db>, es: seq<Event>, j: nat, n: nat, u: UserId)
    requires IsRun(env, ss, es) && j < n < |ss| && u in ss[j].accounts.users && u in ss[n].accounts.users
    ensures u in ss[j + 1].accounts.users
  {
    hide Next;
    FreshAlways(env, ss, es, j);
    assert FreshAt(ss[j], u);
    NextGrows(env, ss, es, j, j + 1);
    if u !in ss[j + 1].accounts.users { DeletedForGood(env, ss, es, j + 1, n, u); }
  }

  lemma ZeroIsNoSession(db: Db)
    requires Fresh(db)
    ensures 0 !in db.sessions.rows
  {
    assert FreshAt(db, 0);
  }

  /**
    A session resolves to u exactly while u exists, is not suspended and has a verified address, and
    an earlier login with such an address was answered with it, less than a session lifetime before,
    since when nobody has logged it out and no step has got as far as revoking the sessions of u.
   */
  lemma ResolvesIff(env: Env, ss: seq<Db>, es: seq<Event>, n: nat, at: Time, t: Token, u: UserId)
    requires IsRun(env, ss, es) && n < |ss|
    ensures ResolveSession(ss[n], at, t) == Some(u) <==>
            (u in ss[n].accounts.users && ss[n].accounts.users[u].status != Suspended &&
             ss[n].accounts.users[u].verifiedAt.Some? &&
             exists k :: 0 <= k < n && OpenSince(env, ss, es, k, n, t, u) && at < es[k].at.first + env.sessionTTL)
  {
    hide Next, Fresh, Owned, Ends, OpensFor;
    FreshAlways(env, ss, es, n);
    ZeroIsNoSession(ss[n]);
    if ResolveSession(ss[n], at, t) == Some(u) {
      LiveWasOpened(env, ss, es, n, t, u, ss[n].sessions.rows[t].expiresAt);
    }
    if u in ss[n].accounts.users {
      forall k | 0 <= k < n && OpenSince(env, ss, es, k, n, t, u)
        ensures IsLive(ss[n], t, u, es[k].at.first + env.sessionTTL)
      {
        OpenStaysLive(env, ss, es, k, n, n, t, u);
      }
    }
  }
}
