/** What the address tables look like in every reachable state. */
module AccountRuns {
  import opened Domain
  import opened Tables
  import opened UseCases
  import opened Machine
  import opened AccountEmails

  ghost predicate Agrees(db: Db) { Agreement(db.accounts, db.next) }

  lemma SignUpKeeps(db: Db, now: Time, cut: nat, client: ClientId, email: Email, hash: string, mailOk: bool)
    requires Agrees(db)
    ensures Agrees(SignUp(db, now, cut, client, email, hash, mailOk).0)
  {
    hide Agreement;
    var user := NewUser(email, hash);
    if cut > 0 && AddUser(db, user).Ok? {
      var db1 := AddUser(db, user).value;
      CreateUserKeeps(db.accounts, db.next, user, db1.accounts);
      SignUpTokenKeeps(db1.accounts, db1.next, db.next, now + EMAIL_VERIFY_TTL);
    }
  }

  lemma RegisterKeeps(env: Env, db: Db, at: Clock, cut: nat, i: RegisterInput)
    requires Agrees(db)
    ensures Agrees(Register(env, db, at, cut, i).0)
  {
    hide Agreement, SignUp;
    var consumed := db.entries.ConsumeTicket(i.ticket, at.second);
    if cut > 0 && env.parseEmail(i.email).Some? && consumed.Ok? {
      SignUpKeeps(db.(entries := consumed.value.0), at.second, cut - 1, consumed.value.1.client,
                  env.parseEmail(i.email).value, i.newHash, i.mailOk);
    }
  }

  lemma RegisterViaInviteKeeps(db: Db, at: Clock, cut: nat, i: InviteRegisterInput)
    requires Agrees(db)
    ensures Agrees(RegisterViaInvite(db, at, cut, i).0)
  {
    hide Agreement, Grant;
    var invite := LoadUsable(db, at.first, i.invite);
    if cut > 0 && invite.Ok? {
      var user := NewUser(invite.value.email, i.newHash);
      if AddUser(db, user).Ok? {
        var db1 := AddUser(db, user).value;
        CreateUserKeeps(db.accounts, db.next, user, db1.accounts);
        SignUpTokenKeeps(db1.accounts, db1.next, db.next, at.second + EMAIL_VERIFY_TTL);
      }
    }
  }

  lemma VerifyEmailKeeps(db: Db, at: Clock, cut: nat, token: Token)
    requires Agrees(db)
    ensures Agrees(VerifyEmail(db, at, cut, token).0)
  {
    hide Agreement;
    var consumed := db.accounts.ConsumeVerifyToken(token, at.first);
    if consumed.Ok? {
      var (accounts1, row) := consumed.value;
      ConsumeKeeps(db.accounts, db.next, token, at.first, accounts1, row);
      var marked := MarkAddress(accounts1, row, at.first);
      if marked.Ok? {
        if row.email.Some? {
          MarkVerifiedKeeps(db.accounts, db.next, token, at.first, accounts1, row, row.email.value, marked.value);
        } else {
          MarkEmailVerifiedKeeps(db.accounts, db.next, token, at.first, accounts1, row, marked.value);
        }
      }
    }
  }

  lemma AddEmailKeeps(env: Env, db: Db, at: Clock, cut: nat, i: AddInput)
    requires Agrees(db)
    ensures Agrees(AddEmail(env, db, at, cut, i).0)
  {
    hide Agreement;
    var email := env.parseEmail(i.email);
    if i.user in db.accounts.users && db.accounts.users[i.user].CanAuthorize() && email.Some? {
      var inserted := db.accounts.InsertPendingSecondary(i.user, email.value);
      if inserted.Ok? {
        InsertPendingKeeps(db.accounts, db.next, i.user, email.value, inserted.value);
        AddressTokenKeeps(inserted.value, db.next, i.user, email.value, at.first + EMAIL_VERIFY_TTL);
      }
    }
  }

  lemma MailStepKeeps(env: Env, db: Db, at: Clock, cut: nat, a: MailAction)
    requires Agrees(db)
    ensures Agrees(MailStep(env, db, at, cut, a).0)
  {
    hide Agreement, VerifyEmail, AddEmail;
    match a
    case DoVerifyEmail(token) => VerifyEmailKeeps(db, at, cut, token);
    case DoAddEmail(add) => AddEmailKeeps(env, db, at, cut, add);
    case DoCancelEmail(user) =>
      var cancelled := db.accounts.DeletePendingSecondary(user);
      if cancelled.Ok? {
        DeletePendingKeeps(db.accounts, db.next, user, cancelled.value);
      }
    case DoDeleteEmail(user, email) =>
      if env.parseEmail(email).Some? {
        var deleted := db.accounts.DeleteVerified(user, env.parseEmail(email).value);
        if deleted.Ok? {
          DeleteVerifiedKeeps(db.accounts, db.next, user, env.parseEmail(email).value, deleted.value);
        }
      }
  }

  lemma EntryStepKeeps(env: Env, db: Db, at: Clock, cut: nat, a: EntryAction)
    requires Agrees(db)
    ensures Agrees(EntryStep(env, db, at, cut, a).0)
  {
    hide Agreement, Register, RegisterViaInvite, Grant;
    LaterIdsKeep(db.accounts, db.next, db.next + 1);
    match a
    case DoRegister(register) => RegisterKeeps(env, db, at, cut, register);
    case DoRegisterViaInvite(viaInvite) => RegisterViaInviteKeeps(db, at, cut, viaInvite);
    case _ =>
  }

  lemma ReplacePasswordKeeps(db: Db, at: Time, cut: nat, user: UserId, hash: string)
    requires Agrees(db)
    ensures Agrees(ReplacePassword(db, at, cut, user, hash).0)
  {
    hide Agreement, RevokeAll;
    var updated := db.accounts.UpdatePassword(user, hash);
    if cut > 0 && updated.Ok? {
      SameAddressesKeep(db.accounts, db.next, user, updated.value);
    }
  }

  lemma CredentialStepKeeps(env: Env, db: Db, at: Clock, cut: nat, a: CredentialAction)
    requires Agrees(db)
    ensures Agrees(CredentialStep(env, db, at, cut, a).0)
  {
    hide Agreement, RevokeAll, ReplacePassword;
    LaterIdsKeep(db.accounts, db.next, db.next + 1);
    match a
    case DoResetPassword(token, password, confirm, newHash) =>
      var consumed := ConsumeResetToken(db.resets, token, at.first);
      if cut > 0 && consumed.Ok? {
        ReplacePasswordKeeps(db.(resets := consumed.value.0), at.first, cut - 1, consumed.value.1.user, newHash);
      }
    case DoChangePassword(change) =>
      ReplacePasswordKeeps(db, at.first, cut, change.user, change.newHash);
    case DoSetStatus(actor, user, status) =>
      var updated := db.accounts.SetStatus(user, status);
      if cut > 0 && updated.Ok? {
        SameAddressesKeep(db.accounts, db.next, user, updated.value);
      }
    case DoRevokeSessions(actor, user) =>
    case DoDeleteUser(actor, user) =>
      if user in db.accounts.users {
        DeleteUserKeeps(db.accounts, db.next, user, db.accounts.DeleteUser(user).value);
      }
    case _ =>
  }

  lemma StepKeeps(env: Env, db: Db, e: Event)
    requires Agrees(db)
    ensures Agrees(Next(env, db, e).0)
  {
    hide Agreement, MailStep, EntryStep, GrantStep, CredentialStep, ClientStep;
    match e.act
    case Mail(a) => MailStepKeeps(env, db, e.at, e.cut, a);
    case Entry(a) => EntryStepKeeps(env, db, e.at, e.cut, a);
    case Grants(a) => LaterIdsKeep(db.accounts, db.next, Next(env, db, e).0.next);
    case Credential(a) => CredentialStepKeeps(env, db, e.at, e.cut, a);
    case Clients(a) =>
  }

  lemma {:induction false} AgreesAlways(env: Env, ss: seq<Db>, es: seq<Event>, i: nat)
    requires IsRun(env, ss, es) && i < |ss|
    ensures Agrees(ss[i])
    decreases i
  {
    hide Next;
    if i > 0 {
      AgreesAlways(env, ss, es, i - 1);
      StepKeeps(env, ss[i - 1], es[i - 1]);
    }
  }

  /**
    In every reachable state each user has exactly one primary row, which is users.email and
    carries users.email_verified_at, and at most one secondary row, whose user is verified.
   */
  lemma AddressTablesAgree(env: Env, ss: seq<Db>, es: seq<Event>, i: nat)
    requires IsRun(env, ss, es) && i < |ss|
    ensures var a := ss[i].accounts;
            (forall e :: e in a.emails ==> a.emails[e].user in a.users) &&
            (forall u :: u in a.users ==> a.users[u].email in a.emails &&
                                          a.emails[a.users[u].email] == EmailRow(u, Primary, a.users[u].verifiedAt)) &&
            (forall e :: e in a.emails && a.emails[e].role == Primary ==> e == a.users[a.emails[e].user].email) &&
            (forall e :: e in a.emails && a.emails[e].role == Secondary ==>
             a.users[a.emails[e].user].verifiedAt.Some?) &&
            (forall e, f :: IsSecondary(a, e) && IsSecondary(a, f) && a.emails[e].user == a.emails[f].user ==> e == f)
  {
    hide Next;
    AgreesAlways(env, ss, es, i);
    var a := ss[i].accounts;
    forall e | e in a.emails ensures a.emails[e].user in a.users { assert EmailFits(a, e); }
    forall u | u in a.users
      ensures a.users[u].email in a.emails && a.emails[a.users[u].email] == EmailRow(u, Primary, a.users[u].verifiedAt)
    {
      assert UserFits(a, ss[i].next, u);
    }
    forall e | e in a.emails && a.emails[e].role == Primary ensures e == a.users[a.emails[e].user].email {
      assert EmailFits(a, e);
    }
    forall e | e in a.emails && a.emails[e].role == Secondary ensures a.users[a.emails[e].user].verifiedAt.Some? {
      assert EmailFits(a, e);
    }
    forall e, f | IsSecondary(a, e) && IsSecondary(a, f) && a.emails[e].user == a.emails[f].user ensures e == f {
      assert SameSecondary(a, e, f);
    }
  }

  predicate IsSecondary(a: Accounts, e: Email) { e in a.emails && a.emails[e].role == Secondary }

  /** What keeps the tables in agreement: the facts about outstanding verification tokens. */
  lemma OutstandingTokens(env: Env, ss: seq<Db>, es: seq<Event>, i: nat, t: Token)
    requires IsRun(env, ss, es) && i < |ss| && t in ss[i].accounts.verifs
    ensures var a := ss[i].accounts; var row := a.verifs[t];
            row.user in a.users &&
            (row.email.None? && row.usedAt.None? ==>
               a.users[row.user].verifiedAt.None? && !a.HasSecondary(row.user)) &&
            (row.email.Some? ==> a.users[row.user].verifiedAt.Some?)
  {
    hide Next;
    AgreesAlways(env, ss, es, i);
    var a := ss[i].accounts;
    assert TokenFits(a, ss[i].next, t);
    if a.HasSecondary(a.verifs[t].user) {
      var e :| e in a.emails && a.emails[e].user == a.verifs[t].user && a.emails[e].role == Secondary;
      assert EmailFits(a, e);
    }
  }

  /**
    An address is verified only by a token minted for its user, mailed to that very address and used
    before its expiry.
   */
  lemma VerifiedOnlyThroughMail(env: Env, ss: seq<Db>, es: seq<Event>, i: nat, e: Email)
    requires IsRun(env, ss, es) && i < |ss| && e in ss[i].accounts.emails && ss[i].accounts.emails[e].verifiedAt.Some?
    ensures var a := ss[i].accounts;
            exists t :: t in a.verifs && t in a.mailTo && a.verifs[t].user == a.emails[e].user && a.mailTo[t] == e &&
                        a.verifs[t].usedAt == a.emails[e].verifiedAt && a.verifs[t].usedAt.value < a.verifs[t].expiresAt
  {
    hide Next;
    AgreesAlways(env, ss, es, i);
    var a := ss[i].accounts;
    assert HasProof(a, e);
    var t :| IsProof(a, e, t);
    assert t in a.verifs && t in a.mailTo && a.verifs[t].user == a.emails[e].user && a.mailTo[t] == e;
  }

  /** Login and password reset find a user by exactly the verified addresses of that user. */
  lemma ByEmailFindsVerifiedRows(env: Env, ss: seq<Db>, es: seq<Event>, i: nat, e: Email, u: UserId)
    requires IsRun(env, ss, es) && i < |ss|
    ensures ss[i].accounts.ByEmail(e) == Some(u) <==> e in ss[i].accounts.Verified(u)
  {
    hide Next;
    AgreesAlways(env, ss, es, i);
    assert EmailFits(ss[i].accounts, e);
  }
}
