/** What the access rows record: when a user first and last came to an application. */
module AccessLog {
  import opened Domain
  import opened Tables
  import opened UseCases
  import opened Machine
  import opened Laws
  import opened References

  /** The later row of the same pair keeps the first visit, and an entry domain once one is known. */
  predicate Continues(x: Access, y: Access) {
    y.firstSeen == x.firstSeen && (x.entryDomain != "" ==> y.entryDomain != "")
  }

  /**
    A step keeps the row, visits again during the step, or creates it during the step; only deleting the
    user removes it.
   */
  predicate AccessMoves(db: Db, e: Event, b: Db, a: (UserId, ClientId)) {
    && (a in b.entries.accesses ==>
          var y := b.entries.accesses[a];
          if a in db.entries.accesses then
            Continues(db.entries.accesses[a], y) &&
                (y == db.entries.accesses[a] || e.at.first <= y.lastSeen <= e.at.third)
          else y.firstSeen == y.lastSeen && e.at.first <= y.lastSeen <= e.at.third)
    && (a in db.entries.accesses && a.0 in b.accounts.users ==> a in b.entries.accesses)
  }

  lemma SignUpAccesses(db: Db, e: Event, cut: nat, client: ClientId, email: Email, hash: string, mailOk: bool,
                       a: (UserId, ClientId))
    requires e.at.Ordered()
    ensures AccessMoves(db, e, SignUp(db, e.at.second, cut, client, email, hash, mailOk).0, a)
  {
  }

  lemma RegisterAccesses(env: Env, db: Db, e: Event, i: RegisterInput, a: (UserId, ClientId))
    requires e.at.Ordered()
    ensures AccessMoves(db, e, Register(env, db, e.at, e.cut, i).0, a)
  {
    hide SignUp;
    var consumed := db.entries.ConsumeTicket(i.ticket, e.at.second);
    if e.cut > 0 && consumed.Ok? && env.parseEmail(i.email).Some? {
      SignUpAccesses(db.(entries := consumed.value.0), e, e.cut - 1, consumed.value.1.client,
                     env.parseEmail(i.email).value, i.newHash, i.mailOk, a);
    }
  }

  lemma ViaInviteAccesses(db: Db, e: Event, i: InviteRegisterInput, a: (UserId, ClientId))
    requires e.at.Ordered()
    ensures AccessMoves(db, e, RegisterViaInvite(db, e.at, e.cut, i).0, a)
  {
    hide LoadUsable;
  }

  lemma EntryAccesses(env: Env, db: Db, e: Event, x: EntryAction, a: (UserId, ClientId))
    requires e.at.Ordered()
    ensures AccessMoves(db, e, EntryStep(env, db, e.at, e.cut, x).0, a)
  {
    hide Register, RegisterViaInvite, LoadUsable, ResolveSession;
    match x
    case DoRegister(i) => RegisterAccesses(env, db, e, i, a);
    case DoRegisterViaInvite(i) => ViaInviteAccesses(db, e, i, a);
    case _ =>
  }

  lemma GrantAccesses(env: Env, db: Db, e: Event, x: GrantAction, a: (UserId, ClientId))
    requires e.at.Ordered()
    ensures AccessMoves(db, e, GrantStep(env, db, e.at, e.cut, x).0, a)
  {
    hide AuthorizeError, ResolveSession, AuthenticatesClient, CodeMatches;
  }

  lemma CredentialAccesses(env: Env, db: Db, e: Event, x: CredentialAction, a: (UserId, ClientId))
    ensures AccessMoves(db, e, CredentialStep(env, db, e.at, e.cut, x).0, a)
  {
    hide RevokeAll;
  }

  lemma AccessRowLaw(env: Env, db: Db, e: Event, a: (UserId, ClientId))
    requires e.at.Ordered()
    ensures AccessMoves(db, e, Next(env, db, e).0, a)
  {
    hide MailStep, EntryStep, GrantStep, CredentialStep, ClientStep;
    match e.act
    case Entry(x) => EntryAccesses(env, db, e, x, a);
    case Grants(x) => GrantAccesses(env, db, e, x, a);
    case Credential(x) => CredentialAccesses(env, db, e, x, a);
    case _ =>
  }

  /** The instant of the first visit never changes while the row lasts, and the last visit never goes back. */
  lemma {:induction false} FirstVisitIsKept(env: Env, ss: seq<Db>, es: seq<Event>, i: nat, j: nat,
                                            a: (UserId, ClientId))
    requires IsRun(env, ss, es) && i <= j < |ss| && a in ss[i].entries.accesses && a in ss[j].entries.accesses
    ensures Continues(ss[i].entries.accesses[a], ss[j].entries.accesses[a])
    ensures ss[i].entries.accesses[a].lastSeen <= ss[j].entries.accesses[a].lastSeen
    decreases j
  {
    hide Next, Owned;
    if i < j {
      UserStillThere(env, ss, es, i, j - 1, j, a);
      AccessRowLaw(env, ss[j - 1], es[j - 1], a);
      FirstVisitIsKept(env, ss, es, i, j - 1, a);
      VisitsArePast(env, ss, es, j - 1, a);
    }
  }

  /** A row that exists at i and at n exists at every state in between. */
  lemma {:induction false} UserStillThere(env: Env, ss: seq<Db>, es: seq<Event>, i: nat, j: nat, n: nat,
                                          a: (UserId, ClientId))
    requires IsRun(env, ss, es) && i <= j <= n < |ss| && a in ss[i].entries.accesses && a in ss[n].entries.accesses
    ensures a in ss[j].entries.accesses
    decreases j
  {
    hide Next, Owned;
    if i < j {
      UserStillThere(env, ss, es, i, j - 1, n, a);
      OwnerOfRow(env, ss, es, n, a);
      OwnerOfRow(env, ss, es, i, a);
      FreshAlways(env, ss, es, i);
      assert FreshAt(ss[i], a.0);
      NextGrows(env, ss, es, i, j);
      if a.0 !in ss[j].accounts.users {
        DeletedForGood(env, ss, es, j, n, a.0);
      }
      AccessRowLaw(env, ss[j - 1], es[j - 1], a);
    }
  }

  lemma OwnerOfRow(env: Env, ss: seq<Db>, es: seq<Event>, n: nat, a: (UserId, ClientId))
    requires IsRun(env, ss, es) && n < |ss| && a in ss[n].entries.accesses
    ensures a.0 in ss[n].accounts.users
  {
    hide Next;
    OwnedAlways(env, ss, es, n);
    assert VisitorExists(ss[n], a);
  }

  lemma {:induction false} VisitsArePast(env: Env, ss: seq<Db>, es: seq<Event>, n: nat, a: (UserId, ClientId))
    requires IsRun(env, ss, es) && n < |ss| && a in ss[n].entries.accesses
    ensures forall k :: n <= k < |es| ==> ss[n].entries.accesses[a].lastSeen <= es[k].at.first
  {
    hide Next;
    if n > 0 {
      AccessRowLaw(env, ss[n - 1], es[n - 1], a);
      if a in ss[n - 1].entries.accesses {
        VisitsArePast(env, ss, es, n - 1, a);
        assert es[n - 1].at.Ordered();
      }
    }
  }
}
