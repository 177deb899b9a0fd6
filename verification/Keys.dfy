/** Generated ids and tokens are stored under a fresh key once. */
module Keys {
  import opened Domain
  import opened Tables
  import opened Machine
  import opened Laws
  import opened AddressHistory
  import opened SessionLaws
  import opened GrantLaws
  import opened Invites
  import opened Provenance

  /** Some table has the key after the step and not before. */
  predicate IsNew(db: Db, b: Db, k: Token) {
    || (k in b.accounts.users && k !in db.accounts.users)
    || (k in b.accounts.verifs && k !in db.accounts.verifs)
    || (k in b.entries.tickets && k !in db.entries.tickets)
    || (k in b.entries.invites && k !in db.entries.invites)
    || (k in b.sessions.rows && k !in db.sessions.rows)
    || (k in b.grants.codes && k !in db.grants.codes)
    || (k in b.grants.refresh && k !in db.grants.refresh)
    || (k in b.resets && k !in db.resets)
  }

  /** A new key is one the counter passes during the step. */
  lemma NewKeysAreFresh(env: Env, db: Db, e: Event, k: Token)
    requires Fresh(db) && IsNew(db, Next(env, db, e).0, k)
    ensures db.next <= k < Next(env, db, e).0.next
  {
    hide Next, Fresh, Mints, Opens, Authorizes, Issues, Creates, Requests, UserMoves;
    FreshStep(env, db, e);
    assert FreshAt(Next(env, db, e).0, k) by { FreshOne(Next(env, db, e).0, k); }
    NewUsers(env, db, e, k);
    VerifyTokenLaw(env, db, e, k);
    NewTickets(env, db, e, k);
    NewInvites(env, db, e, k);
    NewSessions(env, db, e, k);
    NewGrants(env, db, e, k);
    NewResets(env, db, e, k);
  }

  lemma FreshOne(db: Db, k: Token)
    requires Fresh(db)
    ensures FreshAt(db, k)
  {
  }

  lemma NewUsers(env: Env, db: Db, e: Event, k: Token)
    requires Fresh(db)
    ensures k in Next(env, db, e).0.accounts.users && k !in db.accounts.users ==> k >= db.next
  {
    hide Next, Fresh;
    UserLaw(env, db, e, k);
  }

  lemma NewTickets(env: Env, db: Db, e: Event, k: Token)
    requires Fresh(db)
    ensures k in Next(env, db, e).0.entries.tickets && k !in db.entries.tickets ==> k >= db.next
  {
    hide Next, Fresh;
    TicketLaw(env, db, e, k);
  }

  lemma NewInvites(env: Env, db: Db, e: Event, k: Token)
    requires Fresh(db)
    ensures k in Next(env, db, e).0.entries.invites && k !in db.entries.invites ==> k >= db.next
  {
    hide Next, Fresh;
    InviteLaw(env, db, e, k);
  }

  lemma NewSessions(env: Env, db: Db, e: Event, k: Token)
    requires Fresh(db)
    ensures k in Next(env, db, e).0.sessions.rows && k !in db.sessions.rows ==> k >= db.next
  {
    hide Next, Fresh;
    SessionLaw(env, db, e, k);
  }

  lemma NewGrants(env: Env, db: Db, e: Event, k: Token)
    requires Fresh(db)
    ensures k in Next(env, db, e).0.grants.codes && k !in db.grants.codes ==> k >= db.next
    ensures k in Next(env, db, e).0.grants.refresh && k !in db.grants.refresh ==> k >= db.next
  {
    hide Next, Fresh;
    CodeLaw(env, db, e, k);
    RefreshLaw(env, db, e, k);
  }

  lemma NewResets(env: Env, db: Db, e: Event, k: Token)
    requires Fresh(db)
    ensures k in Next(env, db, e).0.resets && k !in db.resets ==> k >= db.next
  {
    hide Next, Fresh;
    ResetLaw(env, db, e, k);
  }

  /**
    A key is new in one step of a run only: no user, token, ticket, invite, session or code ever takes
    over the key of another.
   */
  lemma KeysAreNewOnce(env: Env, ss: seq<Db>, es: seq<Event>, i: nat, j: nat, k: Token)
    requires IsRun(env, ss, es) && i < |es| && j < |es| && IsNew(ss[i], ss[i + 1], k) && IsNew(ss[j], ss[j + 1], k)
    ensures i == j
  {
    hide Next, Fresh, IsNew;
    FreshAlways(env, ss, es, i);
    FreshAlways(env, ss, es, j);
    NewKeysAreFresh(env, ss[i], es[i], k);
    NewKeysAreFresh(env, ss[j], es[j], k);
    if i < j {
      NextGrows(env, ss, es, i + 1, j);
    } else if j < i {
      NextGrows(env, ss, es, j + 1, i);
    }
  }
}
