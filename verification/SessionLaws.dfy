/** What one step can do to one session. */
module SessionLaws {
  import opened Domain
  import opened Tables
  import opened UseCases
  import opened Machine
  import opened Laws

  /** The step is a login of this user that verified the stored hash. */
  predicate Opens(env: Env, db: Db, e: Event, t: Token, row: Session, verified: string) {
    match e.act
    case Credential(DoLogin(email, password, captchaOk)) =>
      && t == db.next && captchaOk && password != "" && env.parseEmail(email).Some?
      && db.accounts.ByEmail(env.parseEmail(email).value) == Some(row.user)
      && row.user in db.accounts.users && db.accounts.users[row.user].CanAuthorize()
      && db.accounts.users[row.user].hash == verified && env.verify(verified, password)
      && row == Session(row.user, e.at.first + env.sessionTTL, None)
    case _ => false
  }

  /** A session never changes except to be revoked, and only a login opens one. */
  predicate SessionMoves(env: Env, db: Db, e: Event, b: Db, t: Token) {
    t in b.sessions.rows ==>
      var y := b.sessions.rows[t];
      if t in db.sessions.rows then
        var x := db.sessions.rows[t];
        && y == x.(revokedAt := y.revokedAt)
        && (x.revokedAt.Some? ==> y.revokedAt == x.revokedAt)
        && (t in db.sessions.loginHash ==>
            t in b.sessions.loginHash && b.sessions.loginHash[t] == db.sessions.loginHash[t])
      else t in b.sessions.loginHash && Opens(env, db, e, t, y, b.sessions.loginHash[t])
  }

  lemma LoginSessions(env: Env, db: Db, e: Event, email: string, password: string, captchaOk: bool, t: Token)
    requires e.act == Credential(DoLogin(email, password, captchaOk)) && db.next !in db.sessions.rows
    ensures SessionMoves(env, db, e, Login(env, db, e.at, e.cut, email, password, captchaOk).0, t)
  {
  }

  lemma DeletionSessions(env: Env, db: Db, e: Event, actor: Actor, id: UserId, t: Token)
    ensures SessionMoves(env, db, e, DeleteUser(db, e.cut, actor, id).0, t)
  {
    hide Opens;
  }

  lemma CredentialSessions(env: Env, db: Db, e: Event, a: CredentialAction, t: Token)
    requires e.act == Credential(a) && db.next !in db.sessions.rows
    ensures SessionMoves(env, db, e, CredentialStep(env, db, e.at, e.cut, a).0, t)
  {
    hide Opens, Login, RevokeAll, DeleteUser;
    match a
    case DoLogin(email, password, captchaOk) => LoginSessions(env, db, e, email, password, captchaOk, t);
    case DoDeleteUser(actor, id) => DeletionSessions(env, db, e, actor, id, t);
    case _ =>
  }

  lemma SessionLaw(env: Env, db: Db, e: Event, t: Token)
    requires Fresh(db)
    ensures SessionMoves(env, db, e, Next(env, db, e).0, t)
  {
    hide Opens, MailStep, EntryStep, GrantStep, CredentialStep, ClientStep;
    assert FreshAt(db, db.next);
    if e.act.Credential? {
      CredentialSessions(env, db, e, e.act.credential, t);
    }
  }
}
