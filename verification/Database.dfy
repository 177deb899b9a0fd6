/**
  The tables as the repositories update them. Every method is one repository operation: it runs
  its statements in order, undoes them when a later one fails, and is proved to do to the
  database what the operation of the same name in module Tables does.
 */
module Database {
  import opened Domain
  import opened Tables

  /** The partial unique indexes: one primary and one secondary row a user. */
  predicate SameRole(a: Accounts, e: Email, f: Email) {
    e in a.emails && f in a.emails && a.emails[e].user == a.emails[f].user && a.emails[e].role == a.emails[f].role ==>
          e == f
  }

  /** What the keys and indexes of the account tables enforce. */
  ghost predicate Indexed(a: Accounts, next: Token) {
    && (forall u :: u in a.users ==> u < next)
    && (forall e :: e in a.emails ==> a.emails[e].user in a.users)
    && (forall e, f {:trigger SameRole(a, e, f)} :: SameRole(a, e, f))
  }

  lemma CreateUserIndexed(a: Accounts, next: Token, user: User, b: Accounts)
    requires Indexed(a, next) && a.CreateUser(next, user) == Ok(b)
    ensures Indexed(b, next + 1)
  {
    forall e, f {:trigger SameRole(b, e, f)} ensures SameRole(b, e, f) { assert SameRole(a, e, f); }
  }

  /** Operations that keep the users, and the user and role of every row. */
  lemma SameRolesIndexed(a: Accounts, next: Token, b: Accounts)
    requires Indexed(a, next) && b.users.Keys == a.users.Keys
    requires forall e :: e in b.emails ==>
               e in a.emails && b.emails[e].user == a.emails[e].user && b.emails[e].role == a.emails[e].role
    ensures Indexed(b, next)
  {
    forall e, f {:trigger SameRole(b, e, f)} ensures SameRole(b, e, f) { assert SameRole(a, e, f); }
  }

  lemma LaterIndexed(a: Accounts, next: Token, later: Token)
    requires Indexed(a, next) && next <= later
    ensures Indexed(a, later)
  {
  }

  lemma DeleteUserIndexed(a: Accounts, next: Token, id: UserId, b: Accounts)
    requires Indexed(a, next) && a.DeleteUser(id) == Ok(b)
    ensures Indexed(b, next)
  {
    forall e, f {:trigger SameRole(b, e, f)} ensures SameRole(b, e, f) { assert SameRole(a, e, f); }
  }

  lemma InsertPendingIndexed(a: Accounts, next: Token, id: UserId, email: Email, b: Accounts)
    requires Indexed(a, next) && a.InsertPendingSecondary(id, email) == Ok(b)
    ensures Indexed(b, next)
  {
    forall e, f {:trigger SameRole(b, e, f)} ensures SameRole(b, e, f) { assert SameRole(a, e, f); }
  }

  lemma DeleteVerifiedIndexed(a: Accounts, next: Token, id: UserId, email: Email, b: Accounts)
    requires Indexed(a, next) && a.DeleteVerified(id, email) == Ok(b)
    ensures Indexed(b, next)
  {
    forall e, f {:trigger SameRole(b, e, f)} ensures SameRole(b, e, f) {
      assert SameRole(a, e, f) && SameRole(a, e, email) && SameRole(a, f, email);
    }
  }

  /** LIMIT 1 has nothing to choose from: a user has one row a role. */
  lemma SurvivorIs(a: Accounts, next: Token, id: UserId, email: Email, other: Email)
    requires Indexed(a, next) && a.IsSurvivor(id, email, other)
    requires email in a.emails && a.emails[email].user == id && a.emails[email].role == Primary
    ensures a.Survivor(id, email) == Some(other) && id in a.users
  {
    var picked := a.Survivor(id, email).value;
    assert SameRole(a, email, other) && SameRole(a, email, picked) && SameRole(a, other, picked);
  }

  /** A write that the infrastructure lets through or not: the database, the operations left, and the answer. */
  function Write<T>(db: Db, budget: nat, r: Result<(Db, T)>): (Db, nat, Result<T>) {
    if budget == 0 then (db, 0, Err(Internal))
    else
      match r
      case Err(e) => (db, budget - 1, Err(e))
      case Ok(v) => (v.0, budget - 1, Ok(v.1))
  }

  function OnAccounts(db: Db, r: Result<Accounts>): Result<(Db, ())> {
    match r
    case Err(e) => Err(e)
    case Ok(accounts1) => Ok((db.(accounts := accounts1), ()))
  }

  function OnEntries(db: Db, r: Result<Entries>): Result<(Db, ())> {
    match r
    case Err(e) => Err(e)
    case Ok(entries1) => Ok((db.(entries := entries1), ()))
  }

  function OnClients(db: Db, r: Result<ClientTable>): Result<(Db, ())> {
    match r
    case Err(e) => Err(e)
    case Ok(clients1) => Ok((db.(clients := clients1), ()))
  }

  /** The cascades outside the account tables. */
  function WithoutUser(db: Db, id: UserId): Db {
    db.(entries := db.entries.DeleteUser(id), sessions := db.sessions.DeleteUser(id),
        grants := db.grants.DeleteUser(id), resets := DeleteUserResets(db.resets, id))
  }

  class Database {
    var next: Token  // every key issued so far is below it
    var users: map<UserId, User>
    var emails: map<Email, EmailRow>
    var verifs: map<Token, VerifyToken>
    var tickets: map<Token, Ticket>
    var invites: map<Token, Invite>
    var accesses: map<(UserId, ClientId), Access>
    var sessions: map<Token, Session>
    var codes: map<Token, Code>
    var refresh: map<Token, Refresh>
    var clients: map<ClientId, Client>
    var resets: map<Token, ResetToken>
    /** How many more operations the infrastructure lets through. */
    var budget: nat

    ghost var mailTo: map<Token, Email>
    ghost var loginHash: map<Token, string>
    ghost var lineage: map<Token, Origin>

    ghost function Snapshot(): Db
      reads this
    {
      Db(next, Accounts(users, emails, verifs, mailTo), Entries(tickets, invites, accesses),
         Sessions(sessions, loginHash), Tables.Grants(codes, refresh, lineage), clients, resets)
    }

    ghost predicate Valid()
      reads this
    {
      Indexed(Snapshot().accounts, next)
    }

    constructor ()
      ensures Valid() && Snapshot() == Empty() && budget == 0
    {
      next, budget := 1, 0;
      users, emails, verifs, mailTo := map[], map[], map[], map[];
      tickets, invites, accesses := map[], map[], map[];
      sessions, loginHash := map[], map[];
      codes, refresh, lineage := map[], map[], map[];
      clients, resets := map[], map[];
    }

    // ---- users ----

    method CreateUser(user: User) returns (r: Result<UserId>)
      requires Valid()
      modifies this`next, this`users, this`emails, this`budget
      ensures Valid()
      ensures (Snapshot(), budget, r) ==
              Write(old(Snapshot()), old(budget),
                    match old(Snapshot()).accounts.CreateUser(old(next), user)
                    case Err(e) => Err(e)
                    case Ok(accounts1) =>
                      Ok((old(Snapshot()).(next := old(next) + 1, accounts := accounts1), old(next))))
    {
      hide Indexed;
      ghost var was := Snapshot().accounts;
      if budget == 0 { return Err(Internal); }
      budget := budget - 1;
      var usersBefore := users;
      if exists u :: u in users && users[u].email == user.email { return Err(Internal); }
      users := users[next := user];
      if user.email in emails {
        users := usersBefore;
        return Err(Internal);
      }
      emails := emails[user.email := EmailRow(next, Primary, user.verifiedAt)];
      r := Ok(next);
      next := next + 1;
      CreateUserIndexed(was, old(next), user, Snapshot().accounts);
    }

    method ByEmail(email: Email) returns (r: Option<(UserId, User)>)
      ensures match Snapshot().accounts.ByEmail(email)
              case None => r == None
              case Some(id) => id in users && r == Some((id, users[id]))
    {
      if email !in emails || emails[email].verifiedAt.None? || emails[email].user !in users { return None; }
      r := Some((emails[email].user, users[emails[email].user]));
    }

    /** The read that follows a consumed code or refresh token, whose failure answers like a missing user. */
    method ReadUser(id: UserId) returns (r: Option<User>)
      modifies this`budget
      ensures Snapshot() == old(Snapshot()) && budget == (if old(budget) == 0 then 0 else old(budget) - 1)
      ensures r == if old(budget) > 0 && id in users then Some(users[id]) else None
    {
      if budget == 0 { return None; }
      budget := budget - 1;
      if id in users { return Some(users[id]); }
      r := None;
    }

    method MarkEmailVerified(id: UserId, at: Time) returns (r: Result<()>)
      requires Valid()
      modifies this`users, this`emails, this`budget
      ensures Valid()
      ensures (Snapshot(), budget, r) ==
              Write(old(Snapshot()), old(budget),
                    OnAccounts(old(Snapshot()), old(Snapshot()).accounts.MarkEmailVerified(id, at)))
    {
      hide Indexed;
      ghost var was := Snapshot().accounts;
      if budget == 0 { return Err(Internal); }
      budget := budget - 1;
      if id !in users { return Err(NotFound); }
      users := users[id := users[id].(status := Active, verifiedAt := Some(at))];
      emails := map e | e in emails ::
        if emails[e].user == id && emails[e].role == Primary && emails[e].verifiedAt.None?
        then emails[e].(verifiedAt := Some(at)) else emails[e];
      SameRolesIndexed(was, next, Snapshot().accounts);
      r := Ok(());
    }

    method UpdatePassword(id: UserId, hash: string) returns (r: Result<()>)
      requires Valid()
      modifies this`users, this`budget
      ensures Valid()
      ensures (Snapshot(), budget, r) ==
              Write(old(Snapshot()), old(budget),
                    OnAccounts(old(Snapshot()), old(Snapshot()).accounts.UpdatePassword(id, hash)))
    {
      hide Indexed;
      ghost var was := Snapshot().accounts;
      if budget == 0 { return Err(Internal); }
      budget := budget - 1;
      if id !in users { return Err(NotFound); }
      users := users[id := users[id].(hash := hash)];
      SameRolesIndexed(was, next, Snapshot().accounts);
      r := Ok(());
    }

    method SetStatus(id: UserId, status: Status) returns (r: Result<()>)
      requires Valid()
      modifies this`users, this`budget
      ensures Valid()
      ensures (Snapshot(), budget, r) ==
              Write(old(Snapshot()), old(budget),
                    OnAccounts(old(Snapshot()), old(Snapshot()).accounts.SetStatus(id, status)))
    {
      hide Indexed;
      ghost var was := Snapshot().accounts;
      if budget == 0 { return Err(Internal); }
      budget := budget - 1;
      if id !in users { return Err(NotFound); }
      users := users[id := users[id].(status := status)];
      SameRolesIndexed(was, next, Snapshot().accounts);
      r := Ok(());
    }

    /** ON DELETE CASCADE in user_app_accesses and sessions. */
    method CascadeToSessions(id: UserId)
      modifies this`accesses, this`sessions
      ensures var was := old(Snapshot());
              Snapshot() == was.(entries := was.entries.DeleteUser(id), sessions := was.sessions.DeleteUser(id))
    {
      accesses := map a | a in accesses && a.0 != id :: accesses[a];
      sessions := map t | t in sessions && sessions[t].user != id :: sessions[t];
      assert accesses == old(Snapshot()).entries.DeleteUser(id).accesses;
      assert sessions == old(Snapshot()).sessions.DeleteUser(id).rows;
    }

    /** ON DELETE CASCADE in authorization_codes, refresh_tokens and password_reset_tokens. */
    method CascadeToTokens(id: UserId)
      modifies this`codes, this`refresh, this`resets
      ensures var was := old(Snapshot());
              Snapshot() == was.(grants := was.grants.DeleteUser(id), resets := DeleteUserResets(was.resets, id))
    {
      codes := map t | t in codes && codes[t].user != id :: codes[t];
      refresh := map t | t in refresh && refresh[t].user != id :: refresh[t];
      resets := map t | t in resets && resets[t].user != id :: resets[t];
      assert codes == old(Snapshot()).grants.DeleteUser(id).codes;
      assert refresh == old(Snapshot()).grants.DeleteUser(id).refresh;
      assert resets == DeleteUserResets(old(Snapshot()).resets, id);
    }

    /** DELETE FROM users, with the cascade in user_emails and email_verification_tokens. */
    method DeleteUserRow(id: UserId)
      requires Valid() && id in users
      modifies this`users, this`emails, this`verifs
      ensures Valid() && Snapshot() == old(Snapshot()).(accounts := old(Snapshot()).accounts.DeleteUser(id).value)
    {
      hide Indexed;
      ghost var was := Snapshot().accounts;
      users := users - {id};
      emails := map e | e in emails && emails[e].user != id :: emails[e];
      verifs := map t | t in verifs && verifs[t].user != id :: verifs[t];
      assert Snapshot().accounts == was.DeleteUser(id).value;
      DeleteUserIndexed(was, next, id, Snapshot().accounts);
    }

    method DeleteUser(id: UserId) returns (r: Result<()>)
      requires Valid()
      modifies this
      ensures Valid()
      ensures (Snapshot(), budget, r) ==
              Write(old(Snapshot()), old(budget),
                    match old(Snapshot()).accounts.DeleteUser(id)
                    case Err(e) => Err(e)
                    case Ok(accounts1) => Ok((WithoutUser(old(Snapshot()).(accounts := accounts1), id), ())))
    {
      hide Indexed, DeleteUserResets, Entries.DeleteUser, Sessions.DeleteUser, Tables.Grants.DeleteUser;
      if budget == 0 { return Err(Internal); }
      budget := budget - 1;
      if id !in users { return Err(NotFound); }
      DeleteUserRow(id);
      CascadeToSessions(id);
      CascadeToTokens(id);
      r := Ok(());
    }

    // ---- user_emails ----

    method HasSecondary(id: UserId) returns (r: bool)
      ensures r == Snapshot().accounts.HasSecondary(id)
    {
      r := exists e :: e in emails && emails[e].user == id && emails[e].role == Secondary;
    }

    method CountVerified(id: UserId) returns (n: nat)
      ensures n == |Snapshot().accounts.Verified(id)|
    {
      n := |set e | e in emails && emails[e].user == id && emails[e].verifiedAt.Some?|;
    }

    method InsertPendingSecondary(id: UserId, email: Email) returns (r: Result<()>)
      requires Valid()
      modifies this`emails, this`budget
      ensures Valid()
      ensures (Snapshot(), budget, r) ==
              Write(old(Snapshot()), old(budget),
                    OnAccounts(old(Snapshot()), old(Snapshot()).accounts.InsertPendingSecondary(id, email)))
    {
      hide Indexed;
      ghost var was := Snapshot().accounts;
      if budget == 0 { return Err(Internal); }
      budget := budget - 1;
      var hasSecondary := HasSecondary(id);
      if id !in users || email in emails || hasSecondary { return Err(Internal); }
      emails := emails[email := EmailRow(id, Secondary, None)];
      InsertPendingIndexed(was, next, id, email, Snapshot().accounts);
      r := Ok(());
    }

    method MarkVerified(id: UserId, email: Email, at: Time) returns (r: Result<()>)
      requires Valid()
      modifies this`emails, this`budget
      ensures Valid()
      ensures (Snapshot(), budget, r) ==
              Write(old(Snapshot()), old(budget),
                    OnAccounts(old(Snapshot()), old(Snapshot()).accounts.MarkVerified(id, email, at)))
    {
      hide Indexed;
      ghost var was := Snapshot().accounts;
      if budget == 0 { return Err(Internal); }
      budget := budget - 1;
      if email !in emails || emails[email].user != id || emails[email].verifiedAt.Some? { return Err(NotFound); }
      emails := emails[email := emails[email].(verifiedAt := Some(at))];
      SameRolesIndexed(was, next, Snapshot().accounts);
      r := Ok(());
    }

    method DeletePendingSecondary(id: UserId) returns (r: Result<()>)
      requires Valid()
      modifies this`emails, this`budget
      ensures Valid()
      ensures (Snapshot(), budget, r) ==
              Write(old(Snapshot()), old(budget),
                    OnAccounts(old(Snapshot()), old(Snapshot()).accounts.DeletePendingSecondary(id)))
    {
      hide Indexed;
      ghost var was := Snapshot().accounts;
      if budget == 0 { return Err(Internal); }
      budget := budget - 1;
      var rows := set e | e in emails && emails[e].user == id && emails[e].role == Secondary
                          && emails[e].verifiedAt.None?;
      assert forall e :: e in rows <==> e in emails && was.IsPendingSecondary(id, e);
      if rows == {} {
        assert forall e :: e in emails ==> !was.IsPendingSecondary(id, e);
        return Err(NotFound);
      }
      var row :| row in rows;
      assert was.IsPendingSecondary(id, row);
      emails := emails - rows;
      assert emails == map e | e in was.emails && !was.IsPendingSecondary(id, e) :: was.emails[e];
      SameRolesIndexed(was, next, Snapshot().accounts);
      r := Ok(());
    }

    /** After the primary row is deleted, a remaining verified row becomes primary and users follows. */
    method PromoteRemaining(id: UserId, email: Email, ghost was: Accounts) returns (ok: bool)
      requires Indexed(was, next) && Snapshot().accounts == was.WithoutAddress(email)
      requires email in was.emails && was.emails[email].user == id && was.emails[email].role == Primary
      modifies this`users, this`emails
      ensures ok == was.Survivor(id, email).Some?
      ensures if ok then
                id in was.users &&
                Snapshot() == old(Snapshot()).(accounts := was.Promote(id, email, was.Survivor(id, email).value))
              else Snapshot() == old(Snapshot())
    {
      hide Indexed;
      var remaining := set e | e in emails && emails[e].user == id && emails[e].verifiedAt.Some?;
      assert forall e :: e in remaining <==> was.IsSurvivor(id, email, e);
      if remaining == {} { return false; }
      var other :| other in remaining;
      SurvivorIs(was, next, id, email, other);
      emails := emails[other := emails[other].(role := Primary)];
      users := users[id := users[id].(email := other, verifiedAt := emails[other].verifiedAt)];
      ok := true;
    }

    /**
      Deletes a verified row; when it was the primary one, the remaining verified row becomes primary
      and users follows.
     */
    method DeleteVerified(id: UserId, email: Email) returns (r: Result<()>)
      requires Valid()
      modifies this`users, this`emails, this`budget
      ensures Valid()
      ensures (Snapshot(), budget, r) ==
              Write(old(Snapshot()), old(budget),
                    OnAccounts(old(Snapshot()), old(Snapshot()).accounts.DeleteVerified(id, email)))
    {
      hide Indexed;
      ghost var was := Snapshot().accounts;
      if budget == 0 { return Err(Internal); }
      budget := budget - 1;
      if email !in emails || emails[email].user != id { return Err(NotFound); }
      var row := emails[email];
      if row.verifiedAt.None? { return Err(Validation("email")); }
      var verified := CountVerified(id);
      if verified < 2 { return Err(CannotDeleteLastEmail); }
      var emailsBefore := emails;
      emails := emails - {email};
      if row.role == Primary {
        var promoted := PromoteRemaining(id, email, was);
        if !promoted {
          emails := emailsBefore;
          return Err(Internal);
        }
      }
      DeleteVerifiedIndexed(was, next, id, email, Snapshot().accounts);
      r := Ok(());
    }

    // ---- tokens ----

    /** A fresh key: the random token or generated id is issued once its row is stored. */
    method CreateAuthorizationCode(t: Token, row: Code) returns (r: Result<()>)
      requires Valid() && t == next
      modifies this`next, this`codes, this`budget
      ensures Valid()
      ensures (Snapshot(), budget, r) ==
              Write(old(Snapshot()), old(budget),
                    if row.user !in users then Err(Internal)
                    else Ok((old(Snapshot()).(next := old(next) + 1,
                                              grants := old(Snapshot()).grants.CreateCode(t, row)), ())))
    {
      hide Indexed;
      if budget == 0 { return Err(Internal); }
      budget := budget - 1;
      if row.user !in users { return Err(Internal); }
      codes := codes[t := row];
      next := next + 1;
      LaterIndexed(Snapshot().accounts, old(next), next);
      r := Ok(());
    }

    method ConsumeAuthorizationCode(t: Token, at: Time) returns (r: Result<Code>)
      requires Valid()
      modifies this`codes, this`budget
      ensures Valid()
      ensures (Snapshot(), budget, r) ==
              Write(old(Snapshot()), old(budget),
                    match old(Snapshot()).grants.ConsumeCode(t, at)
                    case Err(e) => Err(e)
                    case Ok(v) => Ok((old(Snapshot()).(grants := v.0), v.1)))
    {
      hide Indexed;
      if budget == 0 { return Err(Internal); }
      budget := budget - 1;
      if t !in codes { return Err(NotFound); }
      var row := codes[t];
      if row.usedAt.Some? || !(at < row.expiresAt) { return Err(InvalidGrant); }
      codes := codes[t := row.(usedAt := Some(at))];
      r := Ok(row);
    }

    method CreateRefreshToken(t: Token, row: Refresh, ghost origin: Origin) returns (r: Result<()>)
      requires Valid() && t == next
      modifies this`next, this`refresh, this`lineage, this`budget
      ensures Valid()
      ensures (Snapshot(), budget, r) ==
              Write(old(Snapshot()), old(budget),
                    if row.user !in users then Err(Internal)
                    else Ok((old(Snapshot()).(next := old(next) + 1,
                                              grants := old(Snapshot()).grants.CreateRefresh(t, row, origin)), ())))
    {
      hide Indexed;
      if budget == 0 { return Err(Internal); }
      budget := budget - 1;
      if row.user !in users { return Err(Internal); }
      refresh := refresh[t := row];
      lineage := lineage[t := origin];
      next := next + 1;
      LaterIndexed(Snapshot().accounts, old(next), next);
      r := Ok(());
    }

    method ConsumeRefreshToken(t: Token, at: Time) returns (r: Result<Refresh>)
      requires Valid()
      modifies this`refresh, this`budget
      ensures Valid()
      ensures (Snapshot(), budget, r) ==
              Write(old(Snapshot()), old(budget),
                    match old(Snapshot()).grants.ConsumeRefresh(t, at)
                    case Err(e) => Err(e)
                    case Ok(v) => Ok((old(Snapshot()).(grants := v.0), v.1)))
    {
      hide Indexed;
      if budget == 0 { return Err(Internal); }
      budget := budget - 1;
      if t !in refresh { return Err(NotFound); }
      var row := refresh[t];
      if row.revokedAt.Some? || !(at < row.expiresAt) { return Err(InvalidGrant); }
      refresh := refresh[t := row.(revokedAt := Some(at))];
      r := Ok(row);
    }

    method RevokeAllRefreshTokensForUser(id: UserId, at: Time) returns (r: Result<()>)
      requires Valid()
      modifies this`refresh, this`budget
      ensures Valid()
      ensures (Snapshot(), budget, r) ==
              Write(old(Snapshot()), old(budget),
                    Ok((old(Snapshot()).(grants := old(Snapshot()).grants.RevokeAllRefresh(id, at)), ())))
    {
      hide Indexed;
      if budget == 0 { return Err(Internal); }
      budget := budget - 1;
      refresh := map t | t in refresh ::
        if refresh[t].user == id && refresh[t].revokedAt.None? then refresh[t].(revokedAt := Some(at)) else refresh[t];
      r := Ok(());
    }

    method CreateEmailVerificationToken(t: Token, row: VerifyToken, ghost to: Email) returns (r: Result<()>)
      requires Valid() && t == next
      modifies this`next, this`verifs, this`mailTo, this`budget
      ensures Valid()
      ensures (Snapshot(), budget, r) ==
              Write(old(Snapshot()), old(budget),
                    if row.user !in users then Err(Internal)
                    else Ok((old(Snapshot()).(next := old(next) + 1,
                                              accounts := old(Snapshot()).accounts.CreateVerifyToken(t, row, to)), ())))
    {
      hide Indexed;
      ghost var was := Snapshot().accounts;
      if budget == 0 { return Err(Internal); }
      budget := budget - 1;
      if row.user !in users { return Err(Internal); }
      verifs := verifs[t := row];
      mailTo := mailTo[t := to];
      next := next + 1;
      LaterIndexed(was, old(next), next);
      SameRolesIndexed(was, next, Snapshot().accounts);
      r := Ok(());
    }

    method ConsumeEmailVerificationToken(t: Token, at: Time) returns (r: Result<VerifyToken>)
      requires Valid()
      modifies this`verifs, this`budget
      ensures Valid()
      ensures (Snapshot(), budget, r) ==
              Write(old(Snapshot()), old(budget),
                    match old(Snapshot()).accounts.ConsumeVerifyToken(t, at)
                    case Err(e) => Err(e)
                    case Ok(v) => Ok((old(Snapshot()).(accounts := v.0), v.1)))
    {
      hide Indexed;
      ghost var was := Snapshot().accounts;
      if budget == 0 { return Err(Internal); }
      budget := budget - 1;
      if t !in verifs { return Err(NotFound); }
      var row := verifs[t];
      if row.usedAt.Some? || !(at < row.expiresAt) { return Err(InvalidToken); }
      verifs := verifs[t := row.(usedAt := Some(at))];
      SameRolesIndexed(was, next, Snapshot().accounts);
      r := Ok(row);
    }

    method CreatePasswordResetToken(t: Token, row: ResetToken) returns (r: Result<()>)
      requires Valid() && t == next
      modifies this`next, this`resets, this`budget
      ensures Valid()
      ensures (Snapshot(), budget, r) ==
              Write(old(Snapshot()), old(budget),
                    if row.user !in users then Err(Internal)
                    else Ok((old(Snapshot()).(next := old(next) + 1, resets := old(resets)[t := row]), ())))
    {
      hide Indexed;
      if budget == 0 { return Err(Internal); }
      budget := budget - 1;
      if row.user !in users { return Err(Internal); }
      resets := resets[t := row];
      next := next + 1;
      LaterIndexed(Snapshot().accounts, old(next), next);
      r := Ok(());
    }

    method ConsumePasswordResetToken(t: Token, at: Time) returns (r: Result<ResetToken>)
      requires Valid()
      modifies this`resets, this`budget
      ensures Valid()
      ensures (Snapshot(), budget, r) ==
              Write(old(Snapshot()), old(budget),
                    match ConsumeResetToken(old(resets), t, at)
                    case Err(e) => Err(e)
                    case Ok(v) => Ok((old(Snapshot()).(resets := v.0), v.1)))
    {
      hide Indexed;
      if budget == 0 { return Err(Internal); }
      budget := budget - 1;
      if t !in resets { return Err(NotFound); }
      var row := resets[t];
      if row.usedAt.Some? || !(at < row.expiresAt) { return Err(InvalidToken); }
      resets := resets[t := row.(usedAt := Some(at))];
      r := Ok(row);
    }

    // ---- sessions ----

    method CreateSession(t: Token, row: Session, ghost verified: string) returns (r: Result<()>)
      requires Valid() && t == next
      modifies this`next, this`sessions, this`loginHash, this`budget
      ensures Valid()
      ensures (Snapshot(), budget, r) ==
              Write(old(Snapshot()), old(budget),
                    if row.user !in users then Err(Internal)
                    else Ok((old(Snapshot()).(next := old(next) + 1,
                                              sessions := old(Snapshot()).sessions.Create(t, row, verified)), ())))
    {
      hide Indexed;
      if budget == 0 { return Err(Internal); }
      budget := budget - 1;
      if row.user !in users { return Err(Internal); }
      sessions := sessions[t := row];
      loginHash := loginHash[t := verified];
      next := next + 1;
      LaterIndexed(Snapshot().accounts, old(next), next);
      r := Ok(());
    }

    method SessionByToken(t: Token, at: Time) returns (r: Option<Session>)
      ensures r == Snapshot().sessions.ByToken(t, at)
    {
      if t !in sessions || sessions[t].revokedAt.Some? || !(at < sessions[t].expiresAt) { return None; }
      r := Some(sessions[t]);
    }

    method RevokeSession(t: Token, at: Time) returns (r: Result<()>)
      requires Valid()
      modifies this`sessions, this`budget
      ensures Valid()
      ensures (Snapshot(), budget, r) ==
              Write(old(Snapshot()), old(budget),
                    Ok((old(Snapshot()).(sessions := old(Snapshot()).sessions.Revoke(t, at)), ())))
    {
      hide Indexed;
      if budget == 0 { return Err(Internal); }
      budget := budget - 1;
      if t in sessions && sessions[t].revokedAt.None? {
        sessions := sessions[t := sessions[t].(revokedAt := Some(at))];
      }
      r := Ok(());
    }

    method RevokeAllSessionsForUser(id: UserId, at: Time) returns (r: Result<()>)
      requires Valid()
      modifies this`sessions, this`budget
      ensures Valid()
      ensures (Snapshot(), budget, r) ==
              Write(old(Snapshot()), old(budget),
                    Ok((old(Snapshot()).(sessions := old(Snapshot()).sessions.RevokeAll(id, at)), ())))
    {
      hide Indexed;
      if budget == 0 { return Err(Internal); }
      budget := budget - 1;
      sessions := map t | t in sessions ::
        if sessions[t].user == id && sessions[t].revokedAt.None? then sessions[t].(revokedAt := Some(at))
        else sessions[t];
      r := Ok(());
    }

    // ---- registration tickets, invites and accesses ----

    method CreateTicket(t: Token, row: Ticket) returns (r: Result<()>)
      requires Valid() && t == next
      modifies this`next, this`tickets, this`budget
      ensures Valid()
      ensures (Snapshot(), budget, r) ==
              Write(old(Snapshot()), old(budget),
                    Ok((old(Snapshot()).(next := old(next) + 1,
                                         entries := old(Snapshot()).entries.CreateTicket(t, row)), ())))
    {
      hide Indexed;
      if budget == 0 { return Err(Internal); }
      budget := budget - 1;
      tickets := tickets[t := row];
      next := next + 1;
      LaterIndexed(Snapshot().accounts, old(next), next);
      r := Ok(());
    }

    /** Peek and Consume share this load; only Consume writes. */
    method LoadTicket(t: Token, at: Time, consume: bool) returns (r: Result<Ticket>)
      modifies this`tickets
      ensures match old(Snapshot()).entries.ConsumeTicket(t, at)
              case Err(e) => r == Err(e) && Snapshot() == old(Snapshot())
              case Ok(v) =>
                r == Ok(v.1) &&
                Snapshot() == (if consume then old(Snapshot()).(entries := v.0) else old(Snapshot()))
      ensures !consume ==> r == old(Snapshot()).entries.PeekTicket(t, at) && Snapshot() == old(Snapshot())
    {
      if t !in tickets { return Err(NotFound); }
      var row := tickets[t];
      if row.usedAt.Some? || !(at < row.expiresAt) { return Err(InvalidToken); }
      if consume { tickets := tickets[t := row.(usedAt := Some(at))]; }
      r := Ok(row);
    }

    method ConsumeTicket(t: Token, at: Time) returns (r: Result<Ticket>)
      requires Valid()
      modifies this`tickets, this`budget
      ensures Valid()
      ensures (Snapshot(), budget, r) ==
              Write(old(Snapshot()), old(budget),
                    match old(Snapshot()).entries.ConsumeTicket(t, at)
                    case Err(e) => Err(e)
                    case Ok(v) => Ok((old(Snapshot()).(entries := v.0), v.1)))
    {
      hide Indexed;
      if budget == 0 { return Err(Internal); }
      budget := budget - 1;
      r := LoadTicket(t, at, true);
    }

    method CreateInvite(t: Token, row: Invite) returns (r: Result<()>)
      requires Valid() && t == next
      modifies this`next, this`invites, this`budget
      ensures Valid()
      ensures (Snapshot(), budget, r) ==
              Write(old(Snapshot()), old(budget),
                    Ok((old(Snapshot()).(next := old(next) + 1,
                                         entries := old(Snapshot()).entries.CreateInvite(t, row)), ())))
    {
      hide Indexed;
      if budget == 0 { return Err(Internal); }
      budget := budget - 1;
      invites := invites[t := row];
      next := next + 1;
      LaterIndexed(Snapshot().accounts, old(next), next);
      r := Ok(());
    }

    method ConsumeInvite(id: Token, at: Time) returns (r: Result<()>)
      requires Valid()
      modifies this`invites, this`budget
      ensures Valid()
      ensures (Snapshot(), budget, r) ==
              Write(old(Snapshot()), old(budget),
                    OnEntries(old(Snapshot()), old(Snapshot()).entries.ConsumeInvite(id, at)))
    {
      hide Indexed;
      if budget == 0 { return Err(Internal); }
      budget := budget - 1;
      if id !in invites || invites[id].usedAt.Some? || invites[id].revokedAt.Some?
         || !(at < invites[id].expiresAt) {
        return Err(InvalidToken);
      }
      invites := invites[id := invites[id].(usedAt := Some(at))];
      r := Ok(());
    }

    method RevokeInvite(id: Token, at: Time) returns (r: Result<()>)
      requires Valid()
      modifies this`invites, this`budget
      ensures Valid()
      ensures (Snapshot(), budget, r) ==
              Write(old(Snapshot()), old(budget),
                    OnEntries(old(Snapshot()), old(Snapshot()).entries.RevokeInvite(id, at)))
    {
      hide Indexed;
      if budget == 0 { return Err(Internal); }
      budget := budget - 1;
      if id !in invites || invites[id].usedAt.Some? || invites[id].revokedAt.Some? { return Err(NotFound); }
      invites := invites[id := invites[id].(revokedAt := Some(at))];
      r := Ok(());
    }

    /** INSERT ... ON CONFLICT DO UPDATE. */
    method UpsertAccess(user: UserId, client: ClientId, domain: string, at: Time) returns (r: Result<()>)
      requires Valid()
      modifies this`accesses, this`budget
      ensures Valid()
      ensures (Snapshot(), budget, r) ==
              Write(old(Snapshot()), old(budget),
                    if user !in users then Err(Internal)
                    else
                      Ok((old(Snapshot()).(entries :=
                            old(Snapshot()).entries.UpsertAccess(user, client, domain, at)), ())))
    {
      hide Indexed;
      if budget == 0 { return Err(Internal); }
      budget := budget - 1;
      if user !in users { return Err(Internal); }
      if (user, client) in accesses {
        var row := accesses[(user, client)];
        var known := if domain != "" then domain else row.entryDomain;
        accesses := accesses[(user, client) := row.(lastSeen := at, entryDomain := known)];
      } else {
        accesses := accesses[(user, client) := Access(domain, at, at)];
      }
      r := Ok(());
    }

    method HasAccess(user: UserId, client: ClientId) returns (r: bool)
      ensures r == Snapshot().entries.HasAccess(user, client)
    {
      r := (user, client) in accesses;
    }

    // ---- clients ----

    /** INSERT ... ON CONFLICT DO UPDATE, which leaves access_mode alone. */
    method Upsert(id: ClientId, client: Client) returns (r: Result<()>)
      requires Valid()
      modifies this`clients, this`budget
      ensures Valid()
      ensures (Snapshot(), budget, r) ==
              Write(old(Snapshot()), old(budget),
                    Ok((old(Snapshot()).(clients := UpsertClient(old(clients), id, client)), ())))
    {
      hide Indexed;
      if budget == 0 { return Err(Internal); }
      budget := budget - 1;
      if id in clients {
        clients := clients[id := clients[id].(secretHash := client.secretHash, redirects := client.redirects,
                                             auth := client.auth)];
      } else {
        clients := clients[id := client];
      }
      r := Ok(());
    }

    method SetClientMode(id: ClientId, mode: AccessMode) returns (r: Result<()>)
      requires Valid()
      modifies this`clients, this`budget
      ensures Valid()
      ensures (Snapshot(), budget, r) ==
              Write(old(Snapshot()), old(budget), OnClients(old(Snapshot()), UpdateAccessMode(old(clients), id, mode)))
    {
      hide Indexed;
      if budget == 0 { return Err(Internal); }
      budget := budget - 1;
      if id !in clients { return Err(NotFound); }
      clients := clients[id := clients[id].(mode := mode)];
      r := Ok(());
    }

    method SetClientRedirects(id: ClientId, uris: seq<string>) returns (r: Result<()>)
      requires Valid()
      modifies this`clients, this`budget
      ensures Valid()
      ensures (Snapshot(), budget, r) ==
              Write(old(Snapshot()), old(budget), OnClients(old(Snapshot()), UpdateRedirects(old(clients), id, uris)))
    {
      hide Indexed;
      if budget == 0 { return Err(Internal); }
      budget := budget - 1;
      if id !in clients { return Err(NotFound); }
      clients := clients[id := clients[id].(redirects := uris)];
      r := Ok(());
    }
  }
}
