/** Whether a live session was opened with the password its user still has. */
module SessionPasswords {
  import opened Domain
  import opened Tables
  import opened UseCases
  import opened Machine
  import opened Laws
  import opened SessionLaws

  predicate IsLive(db: Db, t: Token) { t in db.sessions.rows && db.sessions.rows[t].revokedAt.None? }

  /** A session that is not revoked was opened with the password its user still has. */
  predicate SessionFits(db: Db, t: Token) {
    IsLive(db, t) ==>
      && db.sessions.rows[t].user in db.accounts.users && t in db.sessions.loginHash
      && db.sessions.loginHash[t] == db.accounts.users[db.sessions.rows[t].user].hash
  }

  ghost predicate SessionsFit(db: Db) {
    forall t {:trigger SessionFits(db, t)} :: SessionFits(db, t)
  }

  /** A password change or reset for this user that gets past its checks with this new hash. */
  predicate ReplacesPassword(env: Env, db: Db, e: Event, u: UserId, hash: string) {
    && u in db.accounts.users && SetsPassword(env, db, e, u, hash)
    && match e.act
       case Credential(DoChangePassword(i)) =>
         i.current != "" && i.password == i.confirm && |i.password| >= MIN_PASSWORD_LENGTH && i.password != i.current &&
         db.accounts.users[u].CanAuthorize()
       case Credential(DoResetPassword(t, password, confirm, _)) =>
         t != 0 && password == confirm && |password| >= MIN_PASSWORD_LENGTH
       case _ => false
  }

  /** The infrastructure fails right after the new hash is stored, before the sessions are revoked. */
  predicate StopsAfterStoring(e: Event) {
    match e.act
    case Credential(DoChangePassword(_)) => e.cut == 1
    case Credential(DoResetPassword(_, _, _, _)) => e.cut == 2
    case _ => false
  }

  function NewHash(e: Event): string {
    match e.act
    case Credential(DoChangePassword(i)) => i.newHash
    case Credential(DoResetPassword(_, _, _, newHash)) => newHash
    case _ => ""
  }

  /** The failing branch: t stays live while its user gets another password. */
  predicate Strands(env: Env, db: Db, e: Event, t: Token) {
    && StopsAfterStoring(e) && IsLive(db, t)
    && ReplacesPassword(env, db, e, db.sessions.rows[t].user, NewHash(e))
    && NewHash(e) != db.accounts.users[db.sessions.rows[t].user].hash
  }

  lemma ReplaceFits(db: Db, at: Time, cut: nat, u: UserId, hash: string, t: Token)
    requires SessionFits(db, t)
    ensures SessionFits(ReplacePassword(db, at, cut, u, hash).0, t) <==>
            !(cut == 1 && IsLive(db, t) && db.sessions.rows[t].user == u && db.accounts.users[u].hash != hash)
  {
  }

  lemma LoginFits(env: Env, db: Db, at: Clock, cut: nat, email: string, password: string, captchaOk: bool, t: Token)
    requires SessionFits(db, t)
    ensures SessionFits(Login(env, db, at, cut, email, password, captchaOk).0, t)
  {
  }

  lemma CredentialFits(env: Env, db: Db, e: Event, a: CredentialAction, t: Token)
    requires SessionFits(db, t) && e.act == Credential(a) && db.next !in db.sessions.rows
    ensures SessionFits(CredentialStep(env, db, e.at, e.cut, a).0, t) <==> !Strands(env, db, e, t)
  {
    hide ReplacePassword, RevokeAll, Login;
    match a
    case DoLogin(email, password, captchaOk) =>
      LoginFits(env, db, e.at, e.cut, email, password, captchaOk, t);
    case DoChangePassword(i) =>
      ReplaceFits(db, e.at.first, e.cut, i.user, i.newHash, t);
    case DoResetPassword(token, _, _, newHash) =>
      var consumed := ConsumeResetToken(db.resets, token, e.at.first);
      if consumed.Ok? && e.cut > 0 {
        ReplaceFits(db.(resets := consumed.value.0), e.at.first, e.cut - 1, consumed.value.1.user, newHash, t);
      }
    case _ =>
  }

  lemma MailFits(env: Env, db: Db, e: Event, a: MailAction, t: Token)
    requires SessionFits(db, t)
    ensures SessionFits(MailStep(env, db, e.at, e.cut, a).0, t)
  {
  }

  /** One step keeps the fact for one session exactly when it does not strand that session. */
  lemma StepFitsIff(env: Env, db: Db, e: Event, t: Token)
    requires Fresh(db) && SessionFits(db, t)
    ensures SessionFits(Next(env, db, e).0, t) <==> !Strands(env, db, e, t)
  {
    hide MailStep, EntryStep, GrantStep, CredentialStep, ClientStep, ReplacesPassword;
    assert FreshAt(db, db.next);
    match e.act
    case Mail(a) => MailFits(env, db, e, a, t);
    case Entry(a) =>
      if IsLive(db, t) {
        EntryUsers(env, db, e.at, e.cut, a, db.sessions.rows[t].user);
      }
    case Credential(a) => CredentialFits(env, db, e, a, t);
    case _ =>
  }

  ghost predicate NeverStrands(env: Env, ss: seq<Db>, es: seq<Event>, n: nat)
    requires n <= |es| <= |ss|
  {
    forall i, t {:trigger Strands(env, ss[i], es[i], t)} :: 0 <= i < n ==> !Strands(env, ss[i], es[i], t)
  }

  lemma {:induction false} FitsUnlessStranded(env: Env, ss: seq<Db>, es: seq<Event>, n: nat)
    requires IsRun(env, ss, es) && n <= |es| && NeverStrands(env, ss, es, n)
    ensures forall i :: 0 <= i <= n ==> SessionsFit(ss[i])
  {
    hide Next, SessionFits, Strands;
    if n == 0 {
      NoSessionsYet(env, ss, es);
    } else {
      FitsUnlessStranded(env, ss, es, n - 1);
      FreshAlways(env, ss, es, n - 1);
      forall t ensures SessionFits(ss[n], t) {
        assert SessionFits(ss[n - 1], t);
        StepFitsIff(env, ss[n - 1], es[n - 1], t);
      }
    }
  }

  lemma NoSessionsYet(env: Env, ss: seq<Db>, es: seq<Event>)
    requires IsRun(env, ss, es)
    ensures SessionsFit(ss[0])
  {
    hide Next;
  }

  /**
    In every state of a run each live session was opened with the password its user still
    has, if and only if no step of the run strands a session: a completed password change
    or reset never does, one cut off between its first two writes does.
   */
  lemma SessionsFitIffNeverStranded(env: Env, ss: seq<Db>, es: seq<Event>)
    requires IsRun(env, ss, es)
    ensures (forall i :: 0 <= i < |ss| ==> SessionsFit(ss[i])) <==> NeverStrands(env, ss, es, |es|)
  {
    hide Next, SessionFits, Strands;
    if NeverStrands(env, ss, es, |es|) {
      FitsUnlessStranded(env, ss, es, |es|);
    }
    if forall i :: 0 <= i < |ss| ==> SessionsFit(ss[i]) {
      forall i, t {:trigger Strands(env, ss[i], es[i], t)} | 0 <= i < |es| ensures !Strands(env, ss[i], es[i], t) {
        assert SessionsFit(ss[i]) && SessionsFit(ss[i + 1]);
        assert SessionFits(ss[i], t) && SessionFits(ss[i + 1], t);
        FreshAlways(env, ss, es, i);
        StepFitsIff(env, ss[i], es[i], t);
      }
    }
  }

  ghost predicate OpenedAt(env: Env, ss: seq<Db>, es: seq<Event>, k: int, t: Token, row: Session, verified: string)
    requires |es| <= |ss|
  {
    0 <= k < |es| && Opens(env, ss[k], es[k], t, row.(revokedAt := None), verified)
  }

  /** Every stored session was opened by a login that verified the recorded hash. */
  lemma {:induction false} SessionWasOpened(env: Env, ss: seq<Db>, es: seq<Event>, j: nat, t: Token)
    requires IsRun(env, ss, es) && j < |ss| && t in ss[j].sessions.rows
    ensures t in ss[j].sessions.loginHash
    ensures exists k :: k < j && OpenedAt(env, ss, es, k, t, ss[j].sessions.rows[t], ss[j].sessions.loginHash[t])
  {
    hide Next, Opens;
    if j > 0 {
      FreshAlways(env, ss, es, j - 1);
      SessionLaw(env, ss[j - 1], es[j - 1], t);
      var row := ss[j].sessions.rows[t];
      if t in ss[j - 1].sessions.rows {
        SessionWasOpened(env, ss, es, j - 1, t);
        var k :| k < j - 1 && OpenedAt(env, ss, es, k, t, ss[j - 1].sessions.rows[t], ss[j - 1].sessions.loginHash[t]);
        assert OpenedAt(env, ss, es, k, t, row, ss[j].sessions.loginHash[t]);
      } else {
        OpensUnrevoked(env, ss[j - 1], es[j - 1], t, row, ss[j].sessions.loginHash[t]);
        assert OpenedAt(env, ss, es, j - 1, t, row, ss[j].sessions.loginHash[t]);
      }
    }
  }

  lemma OpensUnrevoked(env: Env, db: Db, e: Event, t: Token, row: Session, verified: string)
    requires Opens(env, db, e, t, row, verified)
    ensures row == row.(revokedAt := None)
  {
  }

  /** While nothing was stranded, a live session goes back to a login that verified the hash its user still has. */
  lemma LiveSessionVerifiedTheStoredHash(env: Env, ss: seq<Db>, es: seq<Event>, j: nat, t: Token)
    requires IsRun(env, ss, es) && j < |ss| && NeverStrands(env, ss, es, j) && IsLive(ss[j], t)
    ensures ss[j].sessions.rows[t].user in ss[j].accounts.users
    ensures exists k :: k < j && OpenedAt(env, ss, es, k, t, ss[j].sessions.rows[t],
                                          ss[j].accounts.users[ss[j].sessions.rows[t].user].hash)
  {
    hide Next, Opens, Strands;
    FitsUnlessStranded(env, ss, es, j);
    assert SessionFits(ss[j], t);
    SessionWasOpened(env, ss, es, j, t);
  }
}
