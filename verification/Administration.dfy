/** Exactly when an administrator changes or deletes an account, and nobody else does. */
module Administration {
  import opened Domain
  import opened Tables
  import opened UseCases
  import opened Machine
  import opened Laws
  import opened References
  import opened SessionHistory

  /**
    A status is set exactly by an administrator, for an existing user, except that no one suspends
    itself. Nothing else about the accounts changes; a suspension takes two more writes to succeed.
   */
  lemma StatusSetIff(env: Env, ss: seq<Db>, es: seq<Event>, n: nat, actor: Actor, u: UserId, status: Status)
    requires IsRun(env, ss, es) && n < |es| && es[n].act == Credential(DoSetStatus(actor, u, status))
    ensures var may := actor.isAdmin && u in ss[n].accounts.users && !(actor.id == u && status == Suspended);
            (Output(env, ss, es, n) == Done <==> may && es[n].cut >= if status == Suspended then 3 else 1) &&
            (may && es[n].cut > 0 ==>
               var a := ss[n].accounts;
               ss[n + 1].accounts == a.(users := a.users[u := a.users[u].(status := status)]) &&
               (status != Suspended ==> ss[n + 1] == ss[n].(accounts := ss[n + 1].accounts))) &&
            (!may ==> ss[n + 1] == ss[n])
  {
  }

  /** The sessions of a user are revoked on request exactly by an administrator, for an existing user. */
  lemma SessionsRevokedIff(env: Env, ss: seq<Db>, es: seq<Event>, n: nat, actor: Actor, u: UserId)
    requires IsRun(env, ss, es) && n < |es| && es[n].act == Credential(DoRevokeSessions(actor, u))
    ensures var may := actor.isAdmin && u in ss[n].accounts.users;
            (Output(env, ss, es, n) == Done <==> may && es[n].cut >= 2) &&
            ss[n + 1] == ss[n].(sessions := ss[n + 1].sessions, grants := ss[n + 1].grants) &&
            (!may ==> ss[n + 1] == ss[n])
  {
    FreshAlways(env, ss, es, n);
    assert FreshAt(ss[n], u);
  }

  /** The step is the deletion of u by an administrator other than u, and u is none. */
  predicate Deletes(db: Db, e: Event, u: UserId) {
    match e.act
    case Credential(DoDeleteUser(actor, user)) =>
      user == u && actor.isAdmin && actor.id != u && e.cut > 0 && u in db.accounts.users &&
      db.accounts.users[u].role == RoleUser
    case _ => false
  }

  lemma DeletionRemoves(db: Db, e: Event, actor: Actor, id: UserId, u: UserId)
    requires e.act == Credential(DoDeleteUser(actor, id)) && u in db.accounts.users && u != 0
    ensures u in DeleteUser(db, e.cut, actor, id).0.accounts.users <==> !Deletes(db, e, u)
  {
  }

  /** A stored user disappears in a step exactly when the step is such a deletion. */
  lemma UserDisappearsIff(env: Env, ss: seq<Db>, es: seq<Event>, n: nat, u: UserId)
    requires IsRun(env, ss, es) && n < |es| && u in ss[n].accounts.users
    ensures u !in ss[n + 1].accounts.users <==> Deletes(ss[n], es[n], u)
  {
    hide MailStep, EntryStep, GrantStep, ClientStep, RevokeAll, Fresh;
    FreshAlways(env, ss, es, n);
    UserIsPositive(ss[n], u);
    if !es[n].act.Credential? {
      StepKeepsUser(env, ss[n], es[n], u);
    } else if es[n].act.credential.DoDeleteUser? {
      DeletionRemoves(ss[n], es[n], es[n].act.credential.actor, es[n].act.credential.user, u);
    } else {
      CredentialKeepsUser(env, ss[n], es[n], u);
    }
  }

  lemma UserIsPositive(db: Db, u: UserId)
    requires Fresh(db) && u in db.accounts.users
    ensures u != 0
  {
    assert FreshAt(db, u);
  }

  /** The deletion answers Done exactly then; one that is refused changes nothing. */
  lemma DeletionSucceedsIff(env: Env, ss: seq<Db>, es: seq<Event>, n: nat, actor: Actor, u: UserId)
    requires IsRun(env, ss, es) && n < |es| && es[n].act == Credential(DoDeleteUser(actor, u))
    ensures Output(env, ss, es, n) == Done <==> Deletes(ss[n], es[n], u)
    ensures Output(env, ss, es, n) != Done ==> ss[n + 1] == ss[n]
    ensures Output(env, ss, es, n) == Done ==>
              ss[n + 1].clients == ss[n].clients && ss[n + 1].entries.tickets == ss[n].entries.tickets &&
              ss[n + 1].entries.invites == ss[n].entries.invites
  {
    FreshAlways(env, ss, es, n);
    assert FreshAt(ss[n], u);
  }
}
