/** What a suspended user can still do: nothing, until an administrator or a sign-up verification reinstates it. */
module Suspension {
  import opened Domain
  import opened Tables
  import opened UseCases
  import opened Machine
  import opened AccountEmails
  import opened AccountRuns
  import opened AddressHistory
  import opened Laws
  import opened Exchanges
  import opened GrantLaws

  /** The step gives the user a status other than suspended. */
  predicate Reinstates(db: Db, e: Event, u: UserId) {
    SetsStatus(db, e, u, Active) || SetsStatus(db, e, u, Pending)
  }

  ghost predicate NotReinstated(ss: seq<Db>, es: seq<Event>, j: nat, k: nat, u: UserId)
    requires k <= |es| <= |ss|
  {
    forall m :: j <= m < k ==> !Reinstates(ss[m], es[m], u)
  }

  /** The user is suspended, or deleted for good. */
  predicate IsSuspended(db: Db, u: UserId) {
    u < db.next && (u in db.accounts.users ==> db.accounts.users[u].status == Suspended)
  }

  lemma SuspendedStep(env: Env, db: Db, e: Event, u: UserId)
    requires Fresh(db) && IsSuspended(db, u) && !Reinstates(db, e, u)
    ensures IsSuspended(Next(env, db, e).0, u)
  {
    hide Next, SetsStatus;
    FreshStep(env, db, e);
    UserLaw(env, db, e, u);
    if u in db.accounts.users && u in Next(env, db, e).0.accounts.users {
      assert Next(env, db, e).0.accounts.users[u].status in {Active, Pending, Suspended};
    }
  }

  lemma {:induction false} StaysSuspended(env: Env, ss: seq<Db>, es: seq<Event>, j: nat, k: nat, u: UserId)
    requires IsRun(env, ss, es) && j <= k < |ss| && IsSuspended(ss[j], u) && NotReinstated(ss, es, j, k, u)
    ensures IsSuspended(ss[k], u)
    decreases k
  {
    hide Next, Reinstates;
    if j < k {
      StaysSuspended(env, ss, es, j, k - 1, u);
      FreshAlways(env, ss, es, k - 1);
      SuspendedStep(env, ss[k - 1], es[k - 1], u);
    }
  }

  /** The step suspends the user, whether or not it also gets to revoke the user's sessions. */
  predicate Suspends(db: Db, e: Event, u: UserId) {
    match e.act
    case Credential(DoSetStatus(actor, user, status)) =>
      user == u && status == Suspended && actor.isAdmin && actor.id != u && e.cut > 0 && u in db.accounts.users
    case _ => false
  }

  lemma SuspendsStep(env: Env, db: Db, e: Event, u: UserId)
    requires Fresh(db) && Suspends(db, e, u)
    ensures IsSuspended(Next(env, db, e).0, u)
  {
    hide RevokeAll;
    assert FreshAt(db, u);
  }

  /** After the suspension no session resolves to the user. */
  lemma NoSessionResolves(env: Env, ss: seq<Db>, es: seq<Event>, j: nat, k: nat, u: UserId, at: Time, t: Token)
    requires IsRun(env, ss, es) && j < k < |ss| && Suspends(ss[j], es[j], u) && NotReinstated(ss, es, j + 1, k, u)
    ensures ResolveSession(ss[k], at, t) != Some(u)
  {
    hide Next, Reinstates;
    FreshAlways(env, ss, es, j);
    SuspendsStep(env, ss[j], es[j], u);
    StaysSuspended(env, ss, es, j + 1, k, u);
  }

  /** Tokens go only to users who may authorize. */
  lemma TokensGoToAuthorizedUsers(env: Env, db: Db, e: Event)
    requires Next(env, db, e).1.TokensIssued?
    ensures var access := Next(env, db, e).1.access;
            e.act.Grants? && access.sub in db.accounts.users && db.accounts.users[access.sub].CanAuthorize() &&
            access.expiresAt == e.at.second + ACCESS_TOKEN_TTL
  {
    match e.act
    case Mail(a) => OnlyGrantsIssueMail(env, db, e, a);
    case Entry(a) => OnlyGrantsIssueEntry(env, db, e, a);
    case Credential(a) => OnlyGrantsIssueCredential(env, db, e, a);
    case Clients(a) =>
    case Grants(a) => GrantsIssue(env, db, e, a);
  }

  lemma OnlyGrantsIssueMail(env: Env, db: Db, e: Event, a: MailAction)
    ensures !MailStep(env, db, e.at, e.cut, a).1.TokensIssued?
  {
  }

  lemma OnlyGrantsIssueEntry(env: Env, db: Db, e: Event, a: EntryAction)
    ensures !EntryStep(env, db, e.at, e.cut, a).1.TokensIssued?
  {
  }

  lemma OnlyGrantsIssueCredential(env: Env, db: Db, e: Event, a: CredentialAction)
    ensures !CredentialStep(env, db, e.at, e.cut, a).1.TokensIssued?
  {
  }

  lemma GrantsIssue(env: Env, db: Db, e: Event, a: GrantAction)
    requires GrantStep(env, db, e.at, e.cut, a).1.TokensIssued?
    ensures var access := GrantStep(env, db, e.at, e.cut, a).1.access;
            access.sub in db.accounts.users && db.accounts.users[access.sub].CanAuthorize() &&
            access.expiresAt == e.at.second + ACCESS_TOKEN_TTL
  {
    hide AuthenticatesClient, CodeMatches;
  }

  /**
    An access token of the user, from any step of the run, expires within fifteen minutes of
    the suspension, since no later code exchange or refresh for the user succeeds.
   */
  lemma AccessTokensEndSoon(env: Env, ss: seq<Db>, es: seq<Event>, j: nat, n: nat, u: UserId)
    requires IsRun(env, ss, es) && j < |es| && n < |es| && Suspends(ss[j], es[j], u) &&
             NotReinstated(ss, es, j + 1, |es|, u)
    requires Output(env, ss, es, n).TokensIssued? && Output(env, ss, es, n).access.sub == u
    ensures n < j && Output(env, ss, es, n).access.expiresAt <= es[j].at.first + ACCESS_TOKEN_TTL
  {
    hide Next, Reinstates;
    TokensGoToAuthorizedUsers(env, ss[n], es[n]);
    if j < n {
      FreshAlways(env, ss, es, j);
      SuspendsStep(env, ss[j], es[j], u);
      StaysSuspended(env, ss, es, j + 1, n, u);
    }
  }

  /** No code is issued to the user either. */
  lemma NoCodeForSuspendedUsers(env: Env, ss: seq<Db>, es: seq<Event>, j: nat, k: nat, u: UserId, c: Token)
    requires IsRun(env, ss, es) && j < k < |es| && Suspends(ss[j], es[j], u) && NotReinstated(ss, es, j + 1, k, u)
    requires c in ss[k + 1].grants.codes && c !in ss[k].grants.codes
    ensures ss[k + 1].grants.codes[c].user != u
  {
    hide Next, Reinstates, AuthorizeError, Authorize, ResolveSession;
    FreshAlways(env, ss, es, k);
    CodeLaw(env, ss[k], es[k], c);
    assert Authorizes(env, ss[k], es[k], c, ss[k + 1].grants.codes[c]);
    NoSessionResolves(env, ss, es, j, k, u, es[k].at.first, es[k].act.grant.authorize.session);
  }

  /** A step ends the suspension of a user it does not delete exactly when it reinstates the user. */
  lemma StepEndsSuspensionIff(env: Env, db: Db, e: Event, u: UserId)
    requires Fresh(db) && u in db.accounts.users && db.accounts.users[u].status == Suspended &&
             u in Next(env, db, e).0.accounts.users
    ensures Next(env, db, e).0.accounts.users[u].status != Suspended <==> Reinstates(db, e, u)
  {
    hide Next;
    UserLaw(env, db, e, u);
    if Reinstates(db, e, u) {
      ReinstatementSetsStatus(env, db, e, u);
    }
  }

  lemma ReinstatementSetsStatus(env: Env, db: Db, e: Event, u: UserId)
    requires Fresh(db) && Reinstates(db, e, u) && u in db.accounts.users
    ensures u in Next(env, db, e).0.accounts.users && Next(env, db, e).0.accounts.users[u].status != Suspended
  {
    hide RevokeAll, Fresh;
    if e.act.Mail? {
      assert e.act.mail.token != 0 by { TokensArePositive(db, e.act.mail.token); }
    }
  }

  lemma TokensArePositive(db: Db, t: Token)
    requires Fresh(db) && t in db.accounts.verifs
    ensures t > 0
  {
    assert FreshAt(db, t);
  }

  /**
    Presenting a token to /verify-email ends a suspension exactly when it is an unused, unexpired
    sign-up token of the suspended user and both writes go through.
   */
  lemma SignUpVerificationLiftsSuspension(env: Env, db: Db, e: Event, t: Token, u: UserId)
    requires Fresh(db) && e.act == Mail(DoVerifyEmail(t)) && u in db.accounts.users &&
             db.accounts.users[u].status == Suspended
    ensures u in Next(env, db, e).0.accounts.users
    ensures Next(env, db, e).0.accounts.users[u].status != Suspended <==> PresentsSignUpToken(db, e, t, u)
  {
    hide Next;
    assert u in Next(env, db, e).0.accounts.users by { VerifyingKeepsUsers(env, db, e, t, u); }
    StepEndsSuspensionIff(env, db, e, u);
  }

  lemma VerifyingKeepsUsers(env: Env, db: Db, e: Event, t: Token, u: UserId)
    requires e.act == Mail(DoVerifyEmail(t)) && u in db.accounts.users
    ensures u in Next(env, db, e).0.accounts.users
  {
  }

  /** A suspension holds from one state to another exactly when no step in between reinstates the user. */
  lemma {:induction false} SuspensionHoldsIff(env: Env, ss: seq<Db>, es: seq<Event>, j: nat, k: nat, u: UserId)
    requires IsRun(env, ss, es) && j <= k < |ss| && u in ss[k].accounts.users
    requires u in ss[j].accounts.users && ss[j].accounts.users[u].status == Suspended
    ensures (forall m :: j <= m <= k ==> u in ss[m].accounts.users && ss[m].accounts.users[u].status == Suspended) <==>
            NotReinstated(ss, es, j, k, u)
  {
    hide Next, Reinstates;
    if NotReinstated(ss, es, j, k, u) {
      forall m | j <= m <= k ensures u in ss[m].accounts.users && ss[m].accounts.users[u].status == Suspended {
        FreshAlways(env, ss, es, j);
        assert FreshAt(ss[j], u);
        StaysSuspended(env, ss, es, j, m, u);
        FreshAlways(env, ss, es, m);
        NextGrows(env, ss, es, j, m);
        if u !in ss[m].accounts.users { DeletedForGood(env, ss, es, m, k, u); }
      }
    }
    if forall m :: j <= m <= k ==> u in ss[m].accounts.users && ss[m].accounts.users[u].status == Suspended {
      forall m | j <= m < k ensures !Reinstates(ss[m], es[m], u) {
        FreshAlways(env, ss, es, m);
        assert ss[m + 1] == Next(env, ss[m], es[m]).0;
        StepEndsSuspensionIff(env, ss[m], es[m], u);
      }
    }
  }

  /**
    A user who had a verified address when suspended has no live sign-up token: only an administrator
    can reinstate it.
   */
  lemma OnlyAdministratorsReinstateVerifiedUsers(env: Env, ss: seq<Db>, es: seq<Event>, j: nat, m: nat, u: UserId)
    requires IsRun(env, ss, es) && j <= m < |es|
    requires u in ss[j].accounts.users && ss[j].accounts.users[u].verifiedAt.Some? && Reinstates(ss[m], es[m], u)
    ensures es[m].act.Credential? && es[m].act.credential.DoSetStatus? && es[m].act.credential.actor.isAdmin
  {
    hide Next;
    if es[m].act.Mail? {
      var t := es[m].act.mail.token;
      OutstandingTokens(env, ss, es, m, t);
      VerifiedUntilDeleted(env, ss, es, j, m, u);
    }
  }
}
