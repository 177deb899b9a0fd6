/** Exactly when each address request succeeds in a run, and what it then changes. */
module AddressChanges {
  import opened Domain
  import opened Tables
  import opened UseCases
  import opened Machine
  import opened AccountEmails
  import opened AccountRuns
  import opened Laws
  import Sets

  // ---- adding ----

  /** The checks of an add, for an address nobody has. */
  predicate MayAdd(env: Env, a: Accounts, i: AddInput) {
    && i.user in a.users && a.users[i.user].status != Suspended && a.users[i.user].verifiedAt.Some?
    && (forall e :: e in a.emails && a.emails[e].user == i.user ==> a.emails[e].role == Primary)
    && env.parseEmail(i.email).Some? && env.parseEmail(i.email).value !in a.emails && i.captchaOk
  }

  /** The new pending row, and the token mailed to the new address. */
  function Added(a: Accounts, u: UserId, e: Email, t: Token, at: Time): Accounts {
    a.(emails := a.emails[e := EmailRow(u, Secondary, None)],
       verifs := a.verifs[t := VerifyToken(u, Some(e), at + 24 * HOUR, None)],
       mailTo := a.mailTo[t := e])
  }

  lemma AddingIff(env: Env, db: Db, at: Clock, cut: nat, i: AddInput)
    requires i.user in db.accounts.users ==>
               i.user != 0 && db.accounts.users[i.user].email in db.accounts.emails
    ensures var r := AddEmail(env, db, at, cut, i);
            if MayAdd(env, db.accounts, i) && cut >= 2 then
              r == (db.(next := db.next + 1,
                        accounts := Added(db.accounts, i.user, env.parseEmail(i.email).value, db.next, at.first)),
                    Mailed(i.mailOk))
            else r.1.Failed? && (!MayAdd(env, db.accounts, i) || cut == 0 ==> r.0 == db)
  {
  }

  /**
    Adding succeeds exactly for a user who may authorize and has no secondary address yet, with a
    valid address that nobody has, when captcha, writes and mail go through. It stores the pending
    row and the mailed token; an add that is refused changes nothing.
   */
  lemma AddEmailSucceedsIff(env: Env, ss: seq<Db>, es: seq<Event>, n: nat, i: AddInput)
    requires IsRun(env, ss, es) && n < |es| && es[n].act == Mail(DoAddEmail(i))
    ensures Output(env, ss, es, n) == Done <==> MayAdd(env, ss[n].accounts, i) && es[n].cut >= 2 && i.mailOk
    ensures MayAdd(env, ss[n].accounts, i) && es[n].cut >= 2 ==>
              ss[n + 1] == ss[n].(next := ss[n].next + 1,
                                  accounts := Added(ss[n].accounts, i.user, env.parseEmail(i.email).value, ss[n].next,
                                                    es[n].at.first))
    ensures !MayAdd(env, ss[n].accounts, i) ==> ss[n + 1] == ss[n]
  {
    hide MayAdd, AddEmail;
    UserAndAddress(env, ss, es, n, i.user);
    AddingIff(env, ss[n], es[n].at, es[n].cut, i);
  }

  lemma UserAndAddress(env: Env, ss: seq<Db>, es: seq<Event>, n: nat, u: UserId)
    requires IsRun(env, ss, es) && n < |ss|
    ensures var a := ss[n].accounts;
            u in a.users ==> u != 0 && a.users[u].email in a.emails &&
                             a.emails[a.users[u].email] == EmailRow(u, Primary, a.users[u].verifiedAt)
  {
    hide Next;
    AgreesAlways(env, ss, es, n);
    FreshAlways(env, ss, es, n);
    assert UserFits(ss[n].accounts, ss[n].next, u) && FreshAt(ss[n], u);
  }

  // ---- cancelling ----

  predicate IsPending(a: Accounts, u: UserId, e: Email) {
    e in a.emails && a.emails[e] == EmailRow(u, Secondary, None)
  }

  lemma CancellingOne(db: Db, cut: nat, u: UserId, e: Email)
    requires u != 0 && u in db.accounts.users && IsPending(db.accounts, u, e) && cut > 0
    requires forall f :: IsPending(db.accounts, u, f) ==> f == e
    ensures CancelEmail(db, cut, u) == (db.(accounts := db.accounts.(emails := db.accounts.emails - {e})), Done)
  {
    var a := db.accounts;
    assert a.IsPendingSecondary(u, e);
    forall f | f in a.emails ensures a.IsPendingSecondary(u, f) <==> f == e {
      assert a.IsPendingSecondary(u, f) ==> IsPending(a, u, f);
    }
    assert (map f | f in a.emails && !a.IsPendingSecondary(u, f) :: a.emails[f]) == a.emails - {e};
  }

  lemma CancellingNone(db: Db, cut: nat, u: UserId)
    requires u !in db.accounts.users || (forall e :: !IsPending(db.accounts, u, e)) || cut == 0
    ensures CancelEmail(db, cut, u).0 == db && CancelEmail(db, cut, u).1.Failed?
  {
    var a := db.accounts;
    assert forall e :: e in a.emails && a.IsPendingSecondary(u, e) ==> IsPending(a, u, e);
  }

  /** Cancelling succeeds exactly for a user with a pending address; it removes that address and nothing else. */
  lemma CancelEmailSucceedsIff(env: Env, ss: seq<Db>, es: seq<Event>, n: nat, u: UserId)
    requires IsRun(env, ss, es) && n < |es| && es[n].act == Mail(DoCancelEmail(u))
    ensures Output(env, ss, es, n) == Done <==> es[n].cut > 0 && exists e :: IsPending(ss[n].accounts, u, e)
    ensures Output(env, ss, es, n) == Done ==>
              exists e :: IsPending(ss[n].accounts, u, e) &&
                          ss[n + 1] == ss[n].(accounts := ss[n].accounts.(emails := ss[n].accounts.emails - {e}))
    ensures Output(env, ss, es, n) != Done ==> ss[n + 1] == ss[n]
  {
    hide CancelEmail, Agreement, IsPending;
    var a := ss[n].accounts;
    AgreesAlways(env, ss, es, n);
    if e :| IsPending(a, u, e) && es[n].cut > 0 {
      OnePending(a, ss[n].next, u, e);
      UserAndAddress(env, ss, es, n, u);
      CancellingOne(ss[n], es[n].cut, u, e);
    } else {
      CancellingNone(ss[n], es[n].cut, u);
    }
  }

  lemma OnePending(a: Accounts, next: Token, u: UserId, e: Email)
    requires Agreement(a, next) && IsPending(a, u, e)
    ensures u in a.users && forall f :: IsPending(a, u, f) ==> f == e
  {
    assert EmailFits(a, e);
    forall f | IsPending(a, u, f) ensures f == e { assert SameSecondary(a, f, e); }
  }

  // ---- deleting ----

  predicate IsVerifiedOf(a: Accounts, u: UserId, e: Email) {
    e in a.emails && a.emails[e].user == u && a.emails[e].verifiedAt.Some?
  }

  /** Without e; when e was the primary address, f takes its place. */
  function Without(a: Accounts, u: UserId, e: Email, f: Email): Accounts
    requires e in a.emails && f in a.emails && u in a.users
  {
    if a.emails[e].role == Secondary then a.(emails := a.emails - {e})
    else a.(emails := (a.emails - {e})[f := EmailRow(u, Primary, a.emails[f].verifiedAt)],
            users := a.users[u := a.users[u].(email := f, verifiedAt := a.emails[f].verifiedAt)])
  }

  lemma DeletingOne(a: Accounts, next: Token, u: UserId, e: Email, f: Email)
    requires Agreement(a, next) && IsVerifiedOf(a, u, e) && IsVerifiedOf(a, u, f) && e != f
    ensures u in a.users && a.DeleteVerified(u, e) == Ok(Without(a, u, e, f))
  {
    assert {e, f} <= a.Verified(u) && |{e, f}| == 2;
    Sets.SubsetSize({e, f}, a.Verified(u));
    assert a.IsSurvivor(u, e, f);
    var g := a.Survivor(u, e).value;
    assert EmailFits(a, e) && EmailFits(a, f) && EmailFits(a, g) && SameSecondary(a, f, g);
  }

  lemma DeletingTheLast(a: Accounts, u: UserId, e: Email)
    requires !IsVerifiedOf(a, u, e) || forall f :: IsVerifiedOf(a, u, f) ==> f == e
    ensures a.DeleteVerified(u, e).Err?
  {
    if IsVerifiedOf(a, u, e) {
      assert a.Verified(u) <= {e} by {
        forall f | f in a.Verified(u) ensures f in {e} { assert IsVerifiedOf(a, u, f); }
      }
      Sets.SubsetSize(a.Verified(u), {e});
    }
  }

  /**
    Deleting succeeds exactly for a verified address of a user who has another one. Then that address
    is gone, and if it was the primary one the other is now primary and users follows it; nothing else
    changes, and nothing at all if it fails.
   */
  lemma DeleteEmailSucceedsIff(env: Env, ss: seq<Db>, es: seq<Event>, n: nat, u: UserId, raw: string)
    requires IsRun(env, ss, es) && n < |es| && es[n].act == Mail(DoDeleteEmail(u, raw))
    ensures Output(env, ss, es, n) == Done <==>
              es[n].cut > 0 && env.parseEmail(raw).Some? &&
              IsVerifiedOf(ss[n].accounts, u, env.parseEmail(raw).value) &&
              exists f :: f != env.parseEmail(raw).value && IsVerifiedOf(ss[n].accounts, u, f)
    ensures Output(env, ss, es, n) == Done ==>
              u in ss[n].accounts.users &&
              forall f :: f != env.parseEmail(raw).value && IsVerifiedOf(ss[n].accounts, u, f) ==>
                ss[n + 1] == ss[n].(accounts := Without(ss[n].accounts, u, env.parseEmail(raw).value, f))
    ensures Output(env, ss, es, n) != Done ==> ss[n + 1] == ss[n]
  {
    hide Agreement, IsVerifiedOf, Without;
    var a := ss[n].accounts;
    AgreesAlways(env, ss, es, n);
    UserAndAddress(env, ss, es, n, u);
    if env.parseEmail(raw).Some? {
      var e := env.parseEmail(raw).value;
      if IsVerifiedOf(a, u, e) {
        forall f | f != e && IsVerifiedOf(a, u, f)
          ensures u in a.users && e in a.emails && f in a.emails && a.DeleteVerified(u, e) == Ok(Without(a, u, e, f))
        {
          RowsAreStored(a, u, e, f);
          DeletingOne(a, ss[n].next, u, e, f);
        }
      }
      if !IsVerifiedOf(a, u, e) || forall f :: IsVerifiedOf(a, u, f) ==> f == e {
        DeletingTheLast(a, u, e);
      }
    }
  }

  lemma RowsAreStored(a: Accounts, u: UserId, e: Email, f: Email)
    requires IsVerifiedOf(a, u, e) && IsVerifiedOf(a, u, f)
    ensures e in a.emails && f in a.emails
  {
  }

  // ---- verifying ----

  /** The token is unused and in time. */
  predicate IsLiveToken(a: Accounts, t: Token, at: Time) {
    t in a.verifs && a.verifs[t].usedAt.None? && at < a.verifs[t].expiresAt
  }

  /** A sign-up token verifies its user's address; the address another token carries must still be pending. */
  predicate CanVerify(a: Accounts, row: VerifyToken) {
    row.email.None? || IsPending(a, row.user, row.email.value)
  }

  function Spent(a: Accounts, t: Token, at: Time): Accounts
    requires t in a.verifs
  {
    a.(verifs := a.verifs[t := a.verifs[t].(usedAt := Some(at))])
  }

  /** The address of the token is verified; a sign-up token also makes its user active. */
  function Verified(a: Accounts, row: VerifyToken, at: Time): Accounts
    requires row.user in a.users && a.users[row.user].email in a.emails
    requires row.email.Some? ==> row.email.value in a.emails
  {
    var u := row.user;
    if row.email.Some? then
      var e := row.email.value;
      a.(emails := a.emails[e := a.emails[e].(verifiedAt := Some(at))])
    else
      a.(emails := a.emails[a.users[u].email := EmailRow(u, Primary, Some(at))],
         users := a.users[u := a.users[u].(status := Active, verifiedAt := Some(at))])
  }

  lemma PendingIff(a: Accounts, next: Token, u: UserId, e: Email)
    requires Agreement(a, next) && u in a.users && a.users[u].verifiedAt.Some?
    ensures IsPending(a, u, e) <==> e in a.emails && a.emails[e].user == u && a.emails[e].verifiedAt.None?
  {
    assert EmailFits(a, e) && UserFits(a, next, u);
  }

  lemma MarkingPrimary(a: Accounts, next: Token, u: UserId, at: Time)
    requires Agreement(a, next) && u in a.users && a.users[u].verifiedAt.None?
    ensures a.users[u].email in a.emails
    ensures a.MarkEmailVerified(u, at) ==
            Ok(a.(emails := a.emails[a.users[u].email := EmailRow(u, Primary, Some(at))],
                  users := a.users[u := a.users[u].(status := Active, verifiedAt := Some(at))]))
  {
    assert UserFits(a, next, u);
    var marked := map e | e in a.emails ::
        if a.emails[e].user == u && a.emails[e].role == Primary && a.emails[e].verifiedAt.None?
        then a.emails[e].(verifiedAt := Some(at)) else a.emails[e];
    forall e | e in a.emails
      ensures marked[e] == a.emails[a.users[u].email := EmailRow(u, Primary, Some(at))][e]
    {
      assert EmailFits(a, e);
    }
    assert marked == a.emails[a.users[u].email := EmailRow(u, Primary, Some(at))];
  }

  lemma Verifying(db: Db, at: Clock, cut: nat, t: Token)
    requires Agreement(db.accounts, db.next) && t != 0 && IsLiveToken(db.accounts, t, at.first) && cut >= 2
    ensures var a := db.accounts; var row := a.verifs[t];
            row.user in a.users && a.users[row.user].email in a.emails &&
            VerifyEmail(db, at, cut, t) ==
            if CanVerify(a, row) then (db.(accounts := Verified(Spent(a, t, at.first), row, at.first)), Done)
            else (db.(accounts := Spent(a, t, at.first)), Failed(InvalidToken))
  {
    hide Agreement, IsPending;
    var a := db.accounts;
    var row := a.verifs[t];
    TokenOwner(a, db.next, t);
    if row.email.None? {
      MarkingPrimary(a, db.next, row.user, at.first);
      MarkingIgnoresTokens(a, Spent(a, t, at.first), row.user, at.first);
    } else {
      PendingIff(a, db.next, row.user, row.email.value);
    }
  }

  lemma MarkingIgnoresTokens(a: Accounts, b: Accounts, u: UserId, at: Time)
    requires b == a.(verifs := b.verifs) && u in a.users
    ensures b.MarkEmailVerified(u, at) == Ok(a.MarkEmailVerified(u, at).value.(verifs := b.verifs))
  {
  }

  lemma TokenOwner(a: Accounts, next: Token, t: Token)
    requires Agreement(a, next) && t in a.verifs
    ensures var row := a.verifs[t];
            row.user in a.users && a.users[row.user].email in a.emails &&
            (if row.email.Some? then a.users[row.user].verifiedAt.Some?
             else row.usedAt.None? ==> a.users[row.user].verifiedAt.None?)
  {
    assert TokenFits(a, next, t) && UserFits(a, next, a.verifs[t].user);
  }

  lemma NotVerifying(db: Db, at: Clock, cut: nat, t: Token)
    requires t == 0 || !IsLiveToken(db.accounts, t, at.first) || cut == 0
    ensures VerifyEmail(db, at, cut, t).0 == db && VerifyEmail(db, at, cut, t).1.Failed?
  {
  }

  /**
    Presenting a token succeeds exactly if it is unused, in time, and a sign-up token or one whose
    address is still pending. It is spent either way; a success verifies that one address, and
    nothing else changes.
   */
  lemma VerifyEmailSucceedsIff(env: Env, ss: seq<Db>, es: seq<Event>, n: nat, t: Token)
    requires IsRun(env, ss, es) && n < |es| && es[n].act == Mail(DoVerifyEmail(t)) && es[n].cut >= 2
    ensures var a := ss[n].accounts;
            Output(env, ss, es, n) == Done <==> IsLiveToken(a, t, es[n].at.first) && CanVerify(a, a.verifs[t])
    ensures var a := ss[n].accounts; var at := es[n].at.first;
            if !IsLiveToken(a, t, at) then ss[n + 1] == ss[n]
            else
              a.verifs[t].user in a.users && a.users[a.verifs[t].user].email in a.emails &&
              ss[n + 1] == ss[n].(accounts :=
                             if CanVerify(a, a.verifs[t]) then Verified(Spent(a, t, at), a.verifs[t], at)
                             else Spent(a, t, at))
  {
    hide VerifyEmail, Agreement, CanVerify;
    AgreesAlways(env, ss, es, n);
    FreshAlways(env, ss, es, n);
    if IsLiveToken(ss[n].accounts, t, es[n].at.first) {
      assert FreshAt(ss[n], t);
      Verifying(ss[n], es[n].at, es[n].cut, t);
    } else {
      NotVerifying(ss[n], es[n].at, es[n].cut, t);
    }
  }
}
