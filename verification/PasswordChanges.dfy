/** Exactly when a reset token is mailed, stays good, and resets a password, and when a password is changed. */
module PasswordChanges {
  import opened Domain
  import opened Tables
  import opened UseCases
  import opened Machine
  import opened AccountEmails
  import opened AccountRuns
  import opened Laws
  import opened References
  import opened Provenance
  import opened Revocation
  import opened SessionHistory

  /** e is a verified address of u, who is not suspended. */
  predicate IsReachable(a: Accounts, e: Email, u: UserId) {
    e in a.emails && a.emails[e].user == u && a.emails[e].verifiedAt.Some? && u in a.users &&
    a.users[u].status != Suspended
  }

  /** The step asks for a reset of the password of u, and gets as far as storing a token. */
  predicate AsksForReset(env: Env, db: Db, e: Event, u: UserId) {
    match e.act
    case Credential(DoRequestReset(raw, captchaOk, _)) =>
      captchaOk && e.cut > 0 && env.parseEmail(raw).Some? && IsReachable(db.accounts, env.parseEmail(raw).value, u)
    case _ => false
  }

  function ResetFor(u: UserId, at: Time): ResetToken { ResetToken(u, at + HOUR, None) }

  lemma Requesting(env: Env, db: Db, e: Event, raw: string, captchaOk: bool, mailOk: bool)
    requires e.act == Credential(DoRequestReset(raw, captchaOk, mailOk))
    ensures var r := RequestReset(env, db, e.at, e.cut, raw, captchaOk, mailOk);
            (forall u :: AsksForReset(env, db, e, u) ==>
               r == (db.(next := db.next + 1, resets := db.resets[db.next := ResetFor(u, e.at.first)]),
                     Mailed(mailOk))) &&
            ((forall u :: !AsksForReset(env, db, e, u)) ==> r.0 == db) &&
            (captchaOk && e.cut > 0 && mailOk ==> r.1 == Done)
  {
    if env.parseEmail(raw).Some? {
      var e' := env.parseEmail(raw).value;
      if db.accounts.ByEmail(e').Some? {
        var u := db.accounts.ByEmail(e').value;
        assert AsksForReset(env, db, e, u) <==>
               captchaOk && e.cut > 0 && db.accounts.users[u].status != Suspended;
      }
    }
  }

  /**
    A request stores a reset token, for an hour, exactly for a verified address of a user who is not
    suspended. The answer does not tell: with the captcha passed and the infrastructure up it is Done,
    whatever the address.
   */
  lemma ResetRequestedIff(env: Env, ss: seq<Db>, es: seq<Event>, n: nat, raw: string, captchaOk: bool, mailOk: bool)
    requires IsRun(env, ss, es) && n < |es| && es[n].act == Credential(DoRequestReset(raw, captchaOk, mailOk))
    ensures forall u :: AsksForReset(env, ss[n], es[n], u) ==>
              ss[n].next !in ss[n].resets &&
              ss[n + 1] == ss[n].(next := ss[n].next + 1,
                                  resets := ss[n].resets[ss[n].next := ResetFor(u, es[n].at.first)])
    ensures (forall u :: !AsksForReset(env, ss[n], es[n], u)) ==> ss[n + 1] == ss[n]
    ensures captchaOk && es[n].cut > 0 && mailOk ==> Output(env, ss, es, n) == Done
  {
    hide RequestReset, AsksForReset;
    FreshAlways(env, ss, es, n);
    assert FreshAt(ss[n], ss[n].next);
    Requesting(env, ss[n], es[n], raw, captchaOk, mailOk);
  }

  // ---- how long a reset token is good ----

  predicate HasReset(db: Db, t: Token, row: ResetToken) { t in db.resets && db.resets[t] == row }

  /** The step presents the token in time with an acceptable new password. */
  predicate UsesReset(e: Event, t: Token, row: ResetToken) {
    match e.act
    case Credential(DoResetPassword(token, password, confirm, _)) =>
      token == t && password == confirm && |password| >= 12 && e.cut > 0 && e.at.first < row.expiresAt
    case _ => false
  }

  predicate MailsReset(env: Env, db: Db, e: Event, t: Token, row: ResetToken) {
    t == db.next && AsksForReset(env, db, e, row.user) && row == ResetFor(row.user, e.at.first)
  }

  lemma PresentingReset(env: Env, db: Db, e: Event, t: Token, row: ResetToken)
    requires e.act.Credential? && e.act.credential.DoResetPassword?
    requires HasReset(db, t, row) && row.usedAt.None? && t != 0
    ensures HasReset(Next(env, db, e).0, t, row) <==> !UsesReset(e, t, row)
  {
    hide ReplacePassword;
    forall d: Db, at: Time, cut: nat, u: UserId, h: string {:trigger ReplacePassword(d, at, cut, u, h)}
      ensures ReplacePassword(d, at, cut, u, h).0.resets == d.resets
    {
    }
  }

  lemma CredentialKeepsResetIff(env: Env, db: Db, e: Event, t: Token, row: ResetToken)
    requires e.act.Credential? && HasReset(db, t, row) && row.usedAt.None? && 0 < t < db.next
    requires row.user in db.accounts.users
    ensures var b := Next(env, db, e).0;
            HasReset(b, t, row) <==> row.user in b.accounts.users && !UsesReset(e, t, row)
  {
    hide ReplacePassword, RevokeAll, ResetPassword;
    if !e.act.credential.DoDeleteUser? { CredentialKeepsUser(env, db, e, row.user); }
    if e.act.credential.DoResetPassword? { PresentingReset(env, db, e, t, row); }
  }

  lemma ResetOwner(db: Db, t: Token)
    requires Fresh(db) && Owned(db) && t in db.resets
    ensures db.resets[t].user in db.accounts.users && 0 < t < db.next
  {
    assert FreshAt(db, t) && OwnerExists(db, t);
  }

  lemma ResetKeptIff(env: Env, db: Db, e: Event, t: Token, row: ResetToken)
    requires Fresh(db) && Owned(db) && HasReset(db, t, row) && row.usedAt.None?
    ensures var b := Next(env, db, e).0;
            HasReset(b, t, row) <==> row.user in b.accounts.users && !UsesReset(e, t, row)
  {
    hide MailStep, EntryStep, GrantStep, CredentialStep, ClientStep, Owned, Fresh;
    ResetOwner(db, t);
    if e.act.Credential? {
      CredentialKeepsResetIff(env, db, e, t, row);
    } else {
      StepKeepsUser(env, db, e, row.user);
    }
  }

  lemma ResetMailedIff(env: Env, db: Db, e: Event, t: Token, row: ResetToken)
    requires Fresh(db) && t !in db.resets
    ensures HasReset(Next(env, db, e).0, t, row) <==> MailsReset(env, db, e, t, row)
  {
    hide MailStep, EntryStep, GrantStep, CredentialStep, ClientStep, Fresh, AsksForReset;
    if e.act.Credential? {
      match e.act.credential
      case DoRequestReset(raw, captchaOk, mailOk) => RequestMailsIff(env, db, e, raw, captchaOk, mailOk, t, row);
      case a => OthersMailNoReset(env, db, e, a, t, row);
    } else {
      OnlyRequestsMail(env, db, e, row.user);
    }
  }

  lemma OnlyRequestsMail(env: Env, db: Db, e: Event, u: UserId)
    ensures AsksForReset(env, db, e, u) ==> e.act.Credential? && e.act.credential.DoRequestReset?
  {
  }

  lemma RequestMailsIff(env: Env, db: Db, e: Event, raw: string, captchaOk: bool, mailOk: bool, t: Token,
                        row: ResetToken)
    requires e.act == Credential(DoRequestReset(raw, captchaOk, mailOk)) && t !in db.resets
    ensures HasReset(CredentialStep(env, db, e.at, e.cut, e.act.credential).0, t, row) <==>
            MailsReset(env, db, e, t, row)
  {
    hide RequestReset, AsksForReset;
    Requesting(env, db, e, raw, captchaOk, mailOk);
    if u :| AsksForReset(env, db, e, u) {
      OneIsReached(env, db, e, u, row.user);
    }
  }

  lemma OneIsReached(env: Env, db: Db, e: Event, u: UserId, v: UserId)
    requires AsksForReset(env, db, e, u)
    ensures AsksForReset(env, db, e, v) ==> u == v
  {
  }

  lemma OthersMailNoReset(env: Env, db: Db, e: Event, a: CredentialAction, t: Token, row: ResetToken)
    requires e.act == Credential(a) && !a.DoRequestReset? && t !in db.resets
    ensures t !in CredentialStep(env, db, e.at, e.cut, a).0.resets && !MailsReset(env, db, e, t, row)
  {
    hide RevokeAll, ReplacePassword;
  }

  ghost predicate ResetUnusedSince(env: Env, ss: seq<Db>, es: seq<Event>, k: nat, n: nat, t: Token, row: ResetToken)
    requires k < n <= |es| <= |ss|
  {
    MailsReset(env, ss[k], es[k], t, row) && forall m :: k < m < n ==> !UsesReset(es[m], t, row)
  }

  lemma {:induction false} UnusedResetWasMailed(env: Env, ss: seq<Db>, es: seq<Event>, n: nat, t: Token,
                                                row: ResetToken)
    requires IsRun(env, ss, es) && n < |ss| && HasReset(ss[n], t, row) && row.usedAt.None?
    ensures row.user in ss[n].accounts.users && exists k :: 0 <= k < n && ResetUnusedSince(env, ss, es, k, n, t, row)
  {
    hide Next, Fresh, Owned, UsesReset, MailsReset, Requests;
    OwnedAlways(env, ss, es, n);
    FreshAlways(env, ss, es, n);
    ResetOwner(ss[n], t);
    if n > 0 {
      OwnedAlways(env, ss, es, n - 1);
      FreshAlways(env, ss, es, n - 1);
      ResetLaw(env, ss[n - 1], es[n - 1], t);
      if t in ss[n - 1].resets {
        ResetKeptIff(env, ss[n - 1], es[n - 1], t, row);
        UnusedResetWasMailed(env, ss, es, n - 1, t, row);
        var k :| 0 <= k < n - 1 && ResetUnusedSince(env, ss, es, k, n - 1, t, row);
        assert ResetUnusedSince(env, ss, es, k, n, t, row);
      } else {
        ResetMailedIff(env, ss[n - 1], es[n - 1], t, row);
        assert ResetUnusedSince(env, ss, es, n - 1, n, t, row);
      }
    }
  }

  lemma {:induction false} MailedStaysUnused(env: Env, ss: seq<Db>, es: seq<Event>, k: nat, j: nat, n: nat, t: Token,
                                             row: ResetToken)
    requires IsRun(env, ss, es) && k < j <= n < |ss| && ResetUnusedSince(env, ss, es, k, n, t, row)
    requires row.user in ss[n].accounts.users
    ensures HasReset(ss[j], t, row) && row.usedAt.None?
    decreases j
  {
    hide Next, Fresh, Owned, UsesReset, AsksForReset;
    FreshAlways(env, ss, es, j - 1);
    OwnedAlways(env, ss, es, j - 1);
    if j == k + 1 {
      assert FreshAt(ss[k], t) by { NextIsNew(ss[k]); }
      ResetMailedIff(env, ss[k], es[k], t, row);
    } else {
      MailedStaysUnused(env, ss, es, k, j - 1, n, t, row);
      ResetOwner(ss[j - 1], t);
      UserStaysUntil(env, ss, es, j - 1, n, row.user);
      ResetKeptIff(env, ss[j - 1], es[j - 1], t, row);
    }
  }

  lemma NextIsNew(db: Db)
    requires Fresh(db)
    ensures FreshAt(db, db.next)
  {
  }

  lemma Resetting(db: Db, at: Clock, cut: nat, t: Token, password: string, confirm: string, hash: string)
    requires t in db.resets ==> t != 0 && db.resets[t].user in db.accounts.users
    ensures var r := ResetPassword(db, at, cut, t, password, confirm, hash);
            (r.1 == Done <==>
               t in db.resets && db.resets[t].usedAt.None? && at.first < db.resets[t].expiresAt &&
               password == confirm && |password| >= 12 && cut >= 4) &&
            (r.1 == Done ==>
               var u := db.resets[t].user; var a := db.accounts;
               r.0 == db.(resets := db.resets[t := db.resets[t].(usedAt := Some(at.first))],
                          accounts := a.(users := a.users[u := a.users[u].(hash := hash)]),
                          sessions := r.0.sessions, grants := r.0.grants))
  {
  }

  /**
    A reset succeeds exactly if it presents a token that was mailed to the user less than an hour
    before and not used since, with a confirmed password of twelve characters, and the four writes go
    through. It stores the new hash and spends the token.
   */
  lemma ResetSucceedsIff(env: Env, ss: seq<Db>, es: seq<Event>, n: nat, t: Token, password: string, confirm: string,
                         hash: string)
    requires IsRun(env, ss, es) && n < |es| && es[n].act == Credential(DoResetPassword(t, password, confirm, hash))
    ensures Output(env, ss, es, n) == Done <==>
              password == confirm && |password| >= 12 && es[n].cut >= 4 &&
              exists k, row: ResetToken :: 0 <= k < n && ResetUnusedSince(env, ss, es, k, n, t, row) &&
                                     row.user in ss[n].accounts.users && es[n].at.first < row.expiresAt
    ensures Output(env, ss, es, n) == Done ==>
              t in ss[n].resets && ss[n].resets[t].user in ss[n].accounts.users &&
              var u := ss[n].resets[t].user; var a := ss[n].accounts;
              ss[n + 1].accounts == a.(users := a.users[u := a.users[u].(hash := hash)]) &&
              ss[n + 1].resets == ss[n].resets[t := ss[n].resets[t].(usedAt := Some(es[n].at.first))]
  {
    hide Fresh, Owned, ResetPassword, ResetUnusedSince;
    FreshAlways(env, ss, es, n);
    OwnedAlways(env, ss, es, n);
    if t in ss[n].resets { ResetOwner(ss[n], t); }
    Resetting(ss[n], es[n].at, es[n].cut, t, password, confirm, hash);
    if t in ss[n].resets && ss[n].resets[t].usedAt.None? {
      UnusedResetWasMailed(env, ss, es, n, t, ss[n].resets[t]);
    }
    forall k, row: ResetToken | 0 <= k < n && ResetUnusedSince(env, ss, es, k, n, t, row) &&
                                row.user in ss[n].accounts.users
      ensures HasReset(ss[n], t, row) && row.usedAt.None?
    {
      MailedStaysUnused(env, ss, es, k, n, n, t, row);
    }
  }

  // ---- changes ----

  /** The user may authorize, gives the current password and confirms a different one of twelve characters. */
  predicate MayChange(env: Env, a: Accounts, i: ChangeInput) {
    && i.current != "" && i.password == i.confirm && i.password != i.current && |i.password| >= 12
    && i.user in a.users && a.users[i.user].status != Suspended && a.users[i.user].verifiedAt.Some?
    && env.verify(a.users[i.user].hash, i.current)
  }

  /** A change succeeds exactly then, given its three writes, and stores the new hash; a refused one changes nothing. */
  lemma ChangeSucceedsIff(env: Env, ss: seq<Db>, es: seq<Event>, n: nat, i: ChangeInput)
    requires IsRun(env, ss, es) && n < |es| && es[n].act == Credential(DoChangePassword(i))
    ensures Output(env, ss, es, n) == Done <==> MayChange(env, ss[n].accounts, i) && es[n].cut >= 3
    ensures MayChange(env, ss[n].accounts, i) && es[n].cut > 0 ==>
              var a := ss[n].accounts;
              ss[n + 1].accounts == a.(users := a.users[i.user := a.users[i.user].(hash := i.newHash)])
    ensures !MayChange(env, ss[n].accounts, i) || es[n].cut == 0 ==> ss[n + 1] == ss[n]
  {
  }
}
