/** What the service answers when nothing is wrong with the infrastructure. */
module Answers {
  import opened Domain
  import opened Tables
  import opened UseCases
  import opened Machine
  import opened AccountEmails
  import opened AccountRuns
  import opened AddressChanges
  import opened Admissions
  import opened Laws
  import opened References
  import Scopes
  import Sets
  import SignIn
  import RedirectUris

  /** Every operation of the step goes through, and so does its mail. */
  predicate Undisturbed(e: Event) {
    && e.cut >= 4
    && match e.act
       case Mail(DoAddEmail(i)) => i.mailOk
       case Entry(DoRegister(i)) => i.mailOk
       case Entry(DoRegisterViaInvite(i)) => i.mailOk
       case Credential(DoRequestReset(_, _, mailOk)) => mailOk
       case _ => true
  }

  // ---- the checks catch what the tables would refuse ----

  lemma NoInternalMail(env: Env, db: Db, e: Event, a: MailAction)
    requires e.act == Mail(a) && Undisturbed(e) && Agreement(db.accounts, db.next)
    ensures MailStep(env, db, e.at, e.cut, a).1 != Failed(Internal)
  {
    hide Agreement;
    if a.DoDeleteEmail? && env.parseEmail(a.email).Some? {
      DeletingIsNeverInternal(db.accounts, db.next, a.user, env.parseEmail(a.email).value);
    }
  }

  lemma DeletingIsNeverInternal(a: Accounts, next: Token, u: UserId, e: Email)
    requires Agreement(a, next)
    ensures a.DeleteVerified(u, e).Err? ==> a.DeleteVerified(u, e).error != Internal
  {
    hide Agreement, IsVerifiedOf, Without;
    if f :| f != e && IsVerifiedOf(a, u, f) && IsVerifiedOf(a, u, e) {
      RowsAreStored(a, u, e, f);
      DeletingOne(a, next, u, e, f);
    } else {
      LastIsKept(a, u, e);
    }
  }

  lemma LastIsKept(a: Accounts, u: UserId, e: Email)
    requires forall f :: f != e && IsVerifiedOf(a, u, f) ==> !IsVerifiedOf(a, u, e)
    ensures a.DeleteVerified(u, e).Err? && a.DeleteVerified(u, e).error != Internal
  {
    if IsVerifiedOf(a, u, e) {
      assert a.Verified(u) <= {e} by {
        forall f | f in a.Verified(u) ensures f in {e} { assert IsVerifiedOf(a, u, f); }
      }
      Sets.SubsetSize(a.Verified(u), {e});
    }
  }

  lemma SigningUpIsNeverInternal(db: Db, now: Time, cut: nat, client: ClientId, email: Email, hash: string)
    requires Agreement(db.accounts, db.next) && email !in db.accounts.emails && cut >= 3
    ensures SignUp(db, now, cut, client, email, hash, true).1 == Done
  {
    Admissions.AddressIsFree(db.accounts, db.next, email);
  }

  lemma GrantingIsNeverInternal(db: Db, at: Time, cut: nat, u: UserId, k: Token, client: ClientId)
    requires cut >= 2
    ensures Grant(db, at, cut, u, k, client).1 != Failed(Internal)
  {
  }

  lemma NoInternalEntry(env: Env, db: Db, e: Event, a: EntryAction)
    requires e.act == Entry(a) && Undisturbed(e) && Agreement(db.accounts, db.next)
    ensures EntryStep(env, db, e.at, e.cut, a).1 != Failed(Internal)
  {
    hide Agreement, SignUp, Grant, ResolveSession;
    match a
    case DoRegister(i) =>
      var consumed := db.entries.ConsumeTicket(i.ticket, e.at.second);
      if consumed.Ok? && env.parseEmail(i.email).Some? && env.parseEmail(i.email).value !in db.accounts.emails {
        SigningUpIsNeverInternal(db.(entries := consumed.value.0), e.at.second, e.cut - 1, consumed.value.1.client,
                                 env.parseEmail(i.email).value, i.newHash);
      }
    case DoAcceptExisting(k, session) =>
      var u := ResolveSession(db, e.at.second, session);
      if u.Some? && k in db.entries.invites {
        GrantingIsNeverInternal(db, e.at.third, e.cut, u.value, k, db.entries.invites[k].client);
      }
    case DoRegisterViaInvite(i) =>
      if i.invite in db.entries.invites && db.entries.invites[i.invite].email !in db.accounts.emails {
        var row := db.entries.invites[i.invite];
        Admissions.AddressIsFree(db.accounts, db.next, row.email);
        GrantingIsNeverInternal(AddUser(db, NewUser(row.email, i.newHash)).value, e.at.second, e.cut - 1, db.next,
                                i.invite, row.client);
      }
    case _ =>
  }

  lemma NoInternalGrant(env: Env, db: Db, e: Event, a: GrantAction)
    requires e.act == Action.Grants(a) && Undisturbed(e)
    ensures GrantStep(env, db, e.at, e.cut, a).1 != Failed(Internal)
  {
    hide ResolveSession, RecordAccess, AuthenticatesClient, CodeMatches, Scopes.Includes, Scopes.IsValidScope;
  }

  lemma RevokingIsNeverInternal(db: Db, at: Time, cut: nat, u: UserId)
    requires cut >= 2
    ensures RevokeAll(db, at, cut, u).1 == Done
  {
  }

  lemma NoInternalCredential(env: Env, db: Db, e: Event, a: CredentialAction)
    requires e.act == Credential(a) && Undisturbed(e)
    ensures CredentialStep(env, db, e.at, e.cut, a).1 != Failed(Internal)
  {
    hide RevokeAll;
    forall d: Db, at: Time, cut: nat, u: UserId {:trigger RevokeAll(d, at, cut, u)} | cut >= 2
      ensures RevokeAll(d, at, cut, u).1 == Done
    {
      RevokingIsNeverInternal(d, at, cut, u);
    }
  }

  lemma NoInternalClient(env: Env, db: Db, e: Event, a: ClientAction)
    requires e.act == Clients(a) && Undisturbed(e)
    ensures ClientStep(env, db, e.cut, a).1 != Failed(Internal)
  {
    hide RedirectUris.Trim, RedirectUris.Entries, RedirectUris.Firsts, RedirectUris.AllValid;
  }

  /**
    While the infrastructure works no request of a run answers an internal error: the checks of the use
    cases catch everything that the unique indexes and foreign keys would refuse.
   */
  lemma NoInternalErrors(env: Env, ss: seq<Db>, es: seq<Event>, n: nat)
    requires IsRun(env, ss, es) && n < |es| && Undisturbed(es[n])
    ensures Output(env, ss, es, n) != Failed(Internal)
  {
    hide Agreement, MailStep, EntryStep, GrantStep, CredentialStep, ClientStep;
    AgreesAlways(env, ss, es, n);
    match es[n].act
    case Mail(a) => NoInternalMail(env, ss[n], es[n], a);
    case Entry(a) => NoInternalEntry(env, ss[n], es[n], a);
    case Grants(a) => NoInternalGrant(env, ss[n], es[n], a);
    case Credential(a) => NoInternalCredential(env, ss[n], es[n], a);
    case Clients(a) => NoInternalClient(env, ss[n], es[n], a);
  }

  // ---- why a request is refused ----

  /** The address the step wants for an account. */
  function WantedAddress(env: Env, db: Db, e: Event): Option<Email> {
    match e.act
    case Mail(DoAddEmail(i)) => env.parseEmail(i.email)
    case Entry(DoRegister(i)) => env.parseEmail(i.email)
    case Entry(DoRegisterViaInvite(i)) =>
      if i.invite in db.entries.invites then Some(db.entries.invites[i.invite].email) else None
    case _ => None
  }

  /** The client the step is about. */
  function WantedClient(db: Db, e: Event): Option<ClientId> {
    match e.act
    case Entry(DoIssueTicket(client, _)) => Some(client)
    case Entry(DoRegister(i)) =>
      if i.ticket in db.entries.tickets then Some(db.entries.tickets[i.ticket].client) else None
    case Grants(DoAuthorize(i)) => Some(i.client)
    case _ => None
  }

  /** The administrator's identity, for the requests that need one. */
  function ActorOf(e: Event): Option<Actor> {
    match e.act
    case Entry(DoCreateInvite(actor, _, _)) => Some(actor)
    case Entry(DoRevokeInvite(actor, _)) => Some(actor)
    case Credential(DoSetStatus(actor, _, _)) => Some(actor)
    case Credential(DoRevokeSessions(actor, _)) => Some(actor)
    case Credential(DoDeleteUser(actor, _)) => Some(actor)
    case Clients(DoCreateClient(actor, _)) => Some(actor)
    case Clients(DoSetAccessMode(actor, _, _)) => Some(actor)
    case Clients(DoUpdateRedirectURIs(actor, _, _, _)) => Some(actor)
    case _ => None
  }

  predicate IsInviteOnly(db: Db, c: Option<ClientId>) {
    c.Some? && c.value in db.clients && db.clients[c.value].mode == InviteOnly
  }

  /** What must be wrong for this refusal. */
  predicate HasReason(env: Env, db: Db, e: Event, error: Error) {
    match error
    case RegistrationClosed => !env.registrationOpen
    case InviteOnlyRegistration => IsInviteOnly(db, WantedClient(db, e))
    case EmailTaken => WantedAddress(env, db, e).Some? && WantedAddress(env, db, e).value in db.accounts.emails
    case NoAppAccess => IsInviteOnly(db, WantedClient(db, e))
    case InvalidRedirectURI =>
      e.act.Grants? && e.act.grant.DoAuthorize? &&
      var i := e.act.grant.authorize;
      i.client in db.clients && (i.redirect !in db.clients[i.client].redirects || env.parseUrl(i.redirect).None?)
    case Forbidden => if ActorOf(e).Some? then !ActorOf(e).value.isAdmin else IsUnfit(db, e)
    case EmailLimitReached =>
      e.act.Mail? && e.act.mail.DoAddEmail? && db.accounts.HasSecondary(e.act.mail.add.user)
    case CannotDeleteLastEmail =>
      e.act.Mail? && e.act.mail.DoDeleteEmail? && env.parseEmail(e.act.mail.email).Some? &&
      forall f :: f in db.accounts.Verified(e.act.mail.user) ==> Some(f) == env.parseEmail(e.act.mail.email)
    case _ => true
  }

  /** The user who wants another address is suspended or not verified. */
  predicate IsUnfit(db: Db, e: Event) {
    e.act.Mail? && e.act.mail.DoAddEmail? && e.act.mail.add.user in db.accounts.users &&
    var u := db.accounts.users[e.act.mail.add.user];
    u.status == Suspended || u.verifiedAt.None?
  }

  predicate IsExplained(env: Env, db: Db, e: Event, out: Out) { out.Failed? ==> HasReason(env, db, e, out.error) }

  lemma MailRefused(env: Env, db: Db, e: Event, a: MailAction)
    requires e.act == Mail(a) && Agreement(db.accounts, db.next)
    ensures IsExplained(env, db, e, MailStep(env, db, e.at, e.cut, a).1)
  {
    hide Agreement;
    match a
    case DoAddEmail(i) =>
      if i.user in db.accounts.users { OwnRow(db.accounts, db.next, i.user); }
    case DoDeleteEmail(u, raw) =>
      if env.parseEmail(raw).Some? { LastVerified(db.accounts, u, env.parseEmail(raw).value); }
    case _ =>
  }

  lemma OwnRow(a: Accounts, next: Token, u: UserId)
    requires Agreement(a, next) && u in a.users
    ensures a.users[u].email in a.emails
  {
    assert UserFits(a, next, u);
  }

  lemma LastVerified(a: Accounts, u: UserId, e: Email)
    ensures a.DeleteVerified(u, e) == Err(CannotDeleteLastEmail) ==> forall f :: f in a.Verified(u) ==> f == e
  {
    if e in a.Verified(u) && |a.Verified(u)| < 2 {
      forall f | f in a.Verified(u) ensures f == e {
        if f != e { Sets.SubsetSize({e, f}, a.Verified(u)); }
      }
    }
  }

  lemma SignUpRefused(env: Env, db: Db, e: Event, i: RegisterInput)
    requires e.act == Entry(DoRegister(i)) && Agreement(db.accounts, db.next)
    ensures IsExplained(env, db, e, Register(env, db, e.at, e.cut, i).1)
  {
    hide Agreement;
  }

  lemma JoiningRefused(env: Env, db: Db, e: Event, i: InviteRegisterInput)
    requires e.act == Entry(DoRegisterViaInvite(i)) && Agreement(db.accounts, db.next)
    ensures IsExplained(env, db, e, RegisterViaInvite(db, e.at, e.cut, i).1)
  {
    hide Agreement;
  }

  lemma EntryRefused(env: Env, db: Db, e: Event, a: EntryAction)
    requires e.act == Entry(a) && Agreement(db.accounts, db.next)
    ensures IsExplained(env, db, e, EntryStep(env, db, e.at, e.cut, a).1)
  {
    hide Register, RegisterViaInvite, ResolveSession, Agreement;
    match a
    case DoRegister(i) => SignUpRefused(env, db, e, i);
    case DoRegisterViaInvite(i) => JoiningRefused(env, db, e, i);
    case _ =>
  }

  lemma GrantRefused(env: Env, db: Db, e: Event, a: GrantAction)
    requires e.act == Action.Grants(a)
    ensures IsExplained(env, db, e, GrantStep(env, db, e.at, e.cut, a).1)
  {
    hide ResolveSession, RecordAccess, AuthenticatesClient, CodeMatches, Scopes.Includes, Scopes.IsValidScope;
  }

  lemma RevokingAnswers(db: Db, at: Time, cut: nat, u: UserId)
    ensures RevokeAll(db, at, cut, u).1 in {Done, Failed(Internal)}
  {
  }

  lemma ReplacingAnswers(db: Db, at: Time, cut: nat, u: UserId, hash: string)
    ensures ReplacePassword(db, at, cut, u, hash).1 in {Done, Failed(Internal), Failed(NotFound)}
  {
  }

  lemma CredentialRefused(env: Env, db: Db, e: Event, a: CredentialAction)
    requires e.act == Credential(a) && Agreement(db.accounts, db.next)
    ensures IsExplained(env, db, e, CredentialStep(env, db, e.at, e.cut, a).1)
  {
    hide Agreement, ReplacePassword, RevokeAll;
    forall d: Db, at: Time, cut: nat, u: UserId {:trigger RevokeAll(d, at, cut, u)}
      ensures RevokeAll(d, at, cut, u).1 in {Done, Failed(Internal)}
    {
      RevokingAnswers(d, at, cut, u);
    }
    forall d: Db, at: Time, cut: nat, u: UserId, h: string {:trigger ReplacePassword(d, at, cut, u, h)}
      ensures ReplacePassword(d, at, cut, u, h).1 in {Done, Failed(Internal), Failed(NotFound)}
    {
      ReplacingAnswers(d, at, cut, u, h);
    }
    if a.DoLogin? && env.parseEmail(a.email).Some? {
      SignIn.VerifiedRowVerifiedUser(db.accounts, db.next, env.parseEmail(a.email).value);
    }
  }

  lemma ClientRefused(env: Env, db: Db, e: Event, a: ClientAction)
    requires e.act == Clients(a)
    ensures IsExplained(env, db, e, ClientStep(env, db, e.cut, a).1)
  {
    hide RedirectUris.Trim, RedirectUris.Entries, RedirectUris.Firsts, RedirectUris.AllValid;
  }

  /** In every run, what a refusal says is wrong is wrong. */
  lemma RefusalsAreTrue(env: Env, ss: seq<Db>, es: seq<Event>, n: nat)
    requires IsRun(env, ss, es) && n < |es| && Output(env, ss, es, n).Failed?
    ensures HasReason(env, ss[n], es[n], Output(env, ss, es, n).error)
  {
    hide Agreement, MailStep, EntryStep, GrantStep, CredentialStep, ClientStep, HasReason;
    AgreesAlways(env, ss, es, n);
    match es[n].act
    case Mail(a) => MailRefused(env, ss[n], es[n], a);
    case Entry(a) => EntryRefused(env, ss[n], es[n], a);
    case Grants(a) => GrantRefused(env, ss[n], es[n], a);
    case Credential(a) => CredentialRefused(env, ss[n], es[n], a);
    case Clients(a) => ClientRefused(env, ss[n], es[n], a);
  }
}
