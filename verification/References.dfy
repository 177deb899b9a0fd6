/** Every row belongs to a user who exists; deleting a user leaves nothing behind, then or later. */
module References {
  import opened Domain
  import opened Tables
  import opened UseCases
  import opened Machine
  import opened AccountEmails
  import opened AccountRuns
  import opened Laws
  import Scopes

  /** The rows under one key belong to existing users. */
  predicate OwnerExists(db: Db, k: Token) {
    && (k in db.sessions.rows ==> db.sessions.rows[k].user in db.accounts.users)
    && (k in db.grants.codes ==> db.grants.codes[k].user in db.accounts.users)
    && (k in db.grants.refresh ==> db.grants.refresh[k].user in db.accounts.users)
    && (k in db.resets ==> db.resets[k].user in db.accounts.users)
  }

  predicate VisitorExists(db: Db, a: (UserId, ClientId)) { a in db.entries.accesses ==> a.0 in db.accounts.users }

  ghost predicate Owned(db: Db) {
    && (forall k {:trigger OwnerExists(db, k)} :: OwnerExists(db, k))
    && (forall a {:trigger VisitorExists(db, a)} :: VisitorExists(db, a))
  }

  // ---- steps outside the administrator's ----

  lemma SignUpOwned(db: Db, now: Time, cut: nat, client: ClientId, email: Email, hash: string, mailOk: bool, k: Token,
                    a: (UserId, ClientId))
    requires OwnerExists(db, k) && VisitorExists(db, a)
    ensures var b := SignUp(db, now, cut, client, email, hash, mailOk).0; OwnerExists(b, k) && VisitorExists(b, a)
  {
  }

  lemma GrantVisitor(db: Db, at: Time, cut: nat, user: UserId, invite: Token, client: ClientId, a: (UserId, ClientId))
    requires VisitorExists(db, a) && user in db.accounts.users
    ensures VisitorExists(Grant(db, at, cut, user, invite, client).0, a)
  {
  }

  lemma ViaInviteOwned(db: Db, at: Clock, cut: nat, i: InviteRegisterInput, k: Token, a: (UserId, ClientId))
    requires OwnerExists(db, k) && VisitorExists(db, a)
    ensures var b := RegisterViaInvite(db, at, cut, i).0; OwnerExists(b, k) && VisitorExists(b, a)
  {
    hide LoadUsable, Grant;
    var invite := LoadUsable(db, at.first, i.invite);
    if invite.Ok? && cut > 0 && AddUser(db, NewUser(invite.value.email, i.newHash)).Ok? {
      GrantVisitor(AddUser(db, NewUser(invite.value.email, i.newHash)).value, at.second, cut - 1, db.next, i.invite,
                   invite.value.client, a);
    }
  }

  lemma EntryOwned(env: Env, db: Db, at: Clock, cut: nat, e: EntryAction, k: Token, a: (UserId, ClientId))
    requires OwnerExists(db, k) && VisitorExists(db, a)
    ensures var b := EntryStep(env, db, at, cut, e).0; OwnerExists(b, k) && VisitorExists(b, a)
  {
    hide SignUp, RegisterViaInvite;
    match e
    case DoRegister(i) =>
      var consumed := db.entries.ConsumeTicket(i.ticket, at.second);
      if cut > 0 && consumed.Ok? && env.parseEmail(i.email).Some? {
        SignUpOwned(db.(entries := consumed.value.0), at.second, cut - 1, consumed.value.1.client,
                    env.parseEmail(i.email).value, i.newHash, i.mailOk, k, a);
      }
    case DoRegisterViaInvite(i) => ViaInviteOwned(db, at, cut, i, k, a);
    case _ =>
  }

  lemma IssueTokensOwned(db: Db, at: Time, cut: nat, user: UserId, client: ClientId, scope: string, origin: Origin,
                         k: Token)
    requires OwnerExists(db, k) && user in db.accounts.users
    ensures OwnerExists(IssueTokens(db, at, cut, user, client, scope, origin).0, k)
  {
    hide Scopes.Includes;
  }

  lemma AuthorizeOwned(env: Env, db: Db, at: Clock, cut: nat, i: AuthorizeInput, k: Token, a: (UserId, ClientId))
    requires OwnerExists(db, k) && VisitorExists(db, a)
    ensures var b := Authorize(env, db, at, cut, i).0; OwnerExists(b, k) && VisitorExists(b, a)
  {
    hide AuthorizeError, RecordAccess;
    forall d: Db, x: Time, u: UserId, c: ClientId, r: string {:trigger RecordAccess(env, d, x, u, c, r)}
      | u in d.accounts.users && VisitorExists(d, a)
      ensures VisitorExists(RecordAccess(env, d, x, u, c, r), a)
    {
      RecordAccessOwned(env, d, x, u, c, r, a);
    }
  }

  lemma RecordAccessOwned(env: Env, db: Db, at: Time, user: UserId, client: ClientId, redirect: string,
                          a: (UserId, ClientId))
    requires user in db.accounts.users && VisitorExists(db, a)
    ensures VisitorExists(RecordAccess(env, db, at, user, client, redirect), a)
  {
  }

  lemma ExchangeOwned(env: Env, db: Db, at: Clock, cut: nat, i: ExchangeInput, k: Token)
    requires OwnerExists(db, k)
    ensures OwnerExists(ExchangeCode(env, db, at, cut, i).0, k)
  {
    hide AuthenticatesClient, CodeMatches, IssueTokens;
    var consumed := db.grants.ConsumeCode(i.code, at.first);
    if consumed.Ok? && cut > 1 && consumed.value.1.user in db.accounts.users {
      IssueTokensOwned(db.(grants := consumed.value.0), at.second, cut - 2, consumed.value.1.user, i.client,
                       consumed.value.1.scope, FromCode(i.code), k);
    }
  }

  lemma RefreshOwned(env: Env, db: Db, at: Clock, cut: nat, t: Token, client: ClientId, secret: string, k: Token)
    requires OwnerExists(db, k)
    ensures OwnerExists(RefreshGrant(env, db, at, cut, t, client, secret).0, k)
  {
    hide AuthenticatesClient, IssueTokens;
    var consumed := db.grants.ConsumeRefresh(t, at.first);
    if consumed.Ok? && cut > 1 && consumed.value.1.user in db.accounts.users {
      IssueTokensOwned(db.(grants := consumed.value.0), at.second, cut - 2, consumed.value.1.user, client,
                       consumed.value.1.scope, FromRefresh(t), k);
    }
  }

  lemma GrantOwned(env: Env, db: Db, at: Clock, cut: nat, g: GrantAction, k: Token, a: (UserId, ClientId))
    requires OwnerExists(db, k) && VisitorExists(db, a)
    ensures var b := GrantStep(env, db, at, cut, g).0; OwnerExists(b, k) && VisitorExists(b, a)
  {
    hide Authorize, ExchangeCode, RefreshGrant;
    match g
    case DoAuthorize(i) => AuthorizeOwned(env, db, at, cut, i, k, a);
    case DoExchange(i) => ExchangeOwned(env, db, at, cut, i, k);
    case DoRefresh(t, client, secret) => RefreshOwned(env, db, at, cut, t, client, secret, k);
    case DoOtherGrant(_) =>
  }

  lemma MailOwned(env: Env, db: Db, at: Clock, cut: nat, m: MailAction, k: Token, a: (UserId, ClientId))
    requires OwnerExists(db, k) && VisitorExists(db, a)
    ensures var b := MailStep(env, db, at, cut, m).0; OwnerExists(b, k) && VisitorExists(b, a)
  {
  }

  lemma DeleteUserOwner(db: Db, cut: nat, actor: Actor, id: UserId, k: Token)
    requires OwnerExists(db, k)
    ensures OwnerExists(DeleteUser(db, cut, actor, id).0, k)
  {
  }

  lemma LoginOwner(env: Env, db: Db, at: Clock, cut: nat, email: string, password: string, captchaOk: bool, k: Token)
    requires OwnerExists(db, k)
    ensures OwnerExists(Login(env, db, at, cut, email, password, captchaOk).0, k)
  {
  }

  lemma RequestResetOwner(env: Env, db: Db, at: Clock, cut: nat, email: string, captchaOk: bool, mailOk: bool, k: Token)
    requires OwnerExists(db, k)
    ensures OwnerExists(RequestReset(env, db, at, cut, email, captchaOk, mailOk).0, k)
  {
  }

  lemma SetStatusOwner(db: Db, at: Clock, cut: nat, actor: Actor, id: UserId, status: Status, k: Token)
    requires OwnerExists(db, k)
    ensures OwnerExists(SetStatus(db, at, cut, actor, id, status).0, k)
  {
    hide RevokeAll;
  }

  lemma PasswordOwner(db: Db, at: Time, cut: nat, user: UserId, hash: string, k: Token)
    requires OwnerExists(db, k)
    ensures OwnerExists(ReplacePassword(db, at, cut, user, hash).0, k)
  {
    hide RevokeAll;
  }

  lemma CredentialOwner(env: Env, db: Db, at: Clock, cut: nat, c: CredentialAction, k: Token)
    requires OwnerExists(db, k)
    ensures OwnerExists(CredentialStep(env, db, at, cut, c).0, k)
  {
    hide RevokeAll, ReplacePassword, Login, DeleteUser, RequestReset, SetStatus;
    match c
    case DoLogin(email, password, captchaOk) => LoginOwner(env, db, at, cut, email, password, captchaOk, k);
    case DoRequestReset(email, captchaOk, mailOk) => RequestResetOwner(env, db, at, cut, email, captchaOk, mailOk, k);
    case DoSetStatus(actor, id, status) => SetStatusOwner(db, at, cut, actor, id, status, k);
    case DoResetPassword(t, _, _, newHash) =>
      var consumed := ConsumeResetToken(db.resets, t, at.first);
      if consumed.Ok? && cut > 0 {
        PasswordOwner(db.(resets := consumed.value.0), at.first, cut - 1, consumed.value.1.user, newHash, k);
      }
    case DoChangePassword(i) => PasswordOwner(db, at.first, cut, i.user, i.newHash, k);
    case DoDeleteUser(actor, id) => DeleteUserOwner(db, cut, actor, id, k);
    case _ =>
  }

  lemma CredentialVisitor(env: Env, db: Db, at: Clock, cut: nat, c: CredentialAction, a: (UserId, ClientId))
    requires VisitorExists(db, a)
    ensures VisitorExists(CredentialStep(env, db, at, cut, c).0, a)
  {
    hide RevokeAll;
  }

  lemma OwnedStep(env: Env, db: Db, e: Event)
    requires Owned(db)
    ensures Owned(Next(env, db, e).0)
  {
    hide Next, OwnerExists, VisitorExists;
    var b := Next(env, db, e).0;
    forall k ensures OwnerExists(b, k) {
      assert OwnerExists(db, k) && VisitorExists(db, (k, ClientId("")));
      StepOwned(env, db, e, k, (k, ClientId("")));
    }
    forall a ensures VisitorExists(b, a) {
      assert OwnerExists(db, a.0) && VisitorExists(db, a);
      StepOwned(env, db, e, a.0, a);
    }
  }

  lemma StepOwned(env: Env, db: Db, e: Event, k: Token, a: (UserId, ClientId))
    requires OwnerExists(db, k) && VisitorExists(db, a)
    ensures var b := Next(env, db, e).0; OwnerExists(b, k) && VisitorExists(b, a)
  {
    hide MailStep, EntryStep, GrantStep, CredentialStep, ClientStep;
    match e.act
    case Mail(x) => MailOwned(env, db, e.at, e.cut, x, k, a);
    case Entry(x) => EntryOwned(env, db, e.at, e.cut, x, k, a);
    case Grants(x) => GrantOwned(env, db, e.at, e.cut, x, k, a);
    case Credential(x) =>
      CredentialOwner(env, db, e.at, e.cut, x, k);
      CredentialVisitor(env, db, e.at, e.cut, x, a);
    case Clients(x) =>
  }

  lemma {:induction false} OwnedAlways(env: Env, ss: seq<Db>, es: seq<Event>, i: nat)
    requires IsRun(env, ss, es) && i < |ss|
    ensures Owned(ss[i])
  {
    hide Next;
    if i > 0 {
      OwnedAlways(env, ss, es, i - 1);
      OwnedStep(env, ss[i - 1], es[i - 1]);
    }
  }

  /** No row of any table belongs to u. */
  ghost predicate IsGone(db: Db, u: UserId) {
    && u !in db.accounts.users
    && (forall e :: e in db.accounts.emails ==> db.accounts.emails[e].user != u)
    && (forall t :: t in db.accounts.verifs ==> db.accounts.verifs[t].user != u)
    && (forall t :: t in db.sessions.rows ==> db.sessions.rows[t].user != u)
    && (forall t :: t in db.grants.codes ==> db.grants.codes[t].user != u)
    && (forall t :: t in db.grants.refresh ==> db.grants.refresh[t].user != u)
    && (forall t :: t in db.resets ==> db.resets[t].user != u)
    && (forall client :: (u, client) !in db.entries.accesses)
  }

  lemma NoUserNoRows(db: Db, u: UserId)
    requires Agreement(db.accounts, db.next) && Owned(db) && u !in db.accounts.users
    ensures IsGone(db, u)
  {
    var a := db.accounts;
    forall e | e in a.emails ensures a.emails[e].user != u { assert EmailFits(a, e); }
    forall t | t in a.verifs ensures a.verifs[t].user != u { assert TokenFits(a, db.next, t); }
    forall t | t in db.sessions.rows ensures db.sessions.rows[t].user != u { assert OwnerExists(db, t); }
    forall t | t in db.grants.codes ensures db.grants.codes[t].user != u { assert OwnerExists(db, t); }
    forall t | t in db.grants.refresh ensures db.grants.refresh[t].user != u { assert OwnerExists(db, t); }
    forall t | t in db.resets ensures db.resets[t].user != u { assert OwnerExists(db, t); }
    forall client ensures (u, client) !in db.entries.accesses { assert VisitorExists(db, (u, client)); }
  }

  /** Once an administrator has deleted a user, no row of it exists in any later state. */
  lemma DeletionLeavesNothing(env: Env, ss: seq<Db>, es: seq<Event>, i: nat, j: nat, actor: Actor, u: UserId)
    requires IsRun(env, ss, es) && i < j < |ss| && es[i].act == Credential(DoDeleteUser(actor, u))
    requires Output(env, ss, es, i) == Done
    ensures IsGone(ss[j], u)
  {
    DeletedNow(env, ss[i], es[i], actor, u);
    FreshAlways(env, ss, es, i);
    assert FreshAt(ss[i], u);
    GoneLater(env, ss, es, i + 1, j, u);
  }

  lemma DeletedNow(env: Env, db: Db, e: Event, actor: Actor, u: UserId)
    requires e.act == Credential(DoDeleteUser(actor, u)) && Next(env, db, e).1 == Done
    ensures u in db.accounts.users && u !in Next(env, db, e).0.accounts.users && Next(env, db, e).0.next == db.next
  {
  }

  lemma GoneLater(env: Env, ss: seq<Db>, es: seq<Event>, i: nat, j: nat, u: UserId)
    requires IsRun(env, ss, es) && i <= j < |ss| && u < ss[i].next && u !in ss[i].accounts.users
    ensures IsGone(ss[j], u)
  {
    hide Next, Agreement, Owned;
    DeletedForGood(env, ss, es, i, j, u);
    AgreesAlways(env, ss, es, j);
    OwnedAlways(env, ss, es, j);
    NoUserNoRows(ss[j], u);
  }
}
