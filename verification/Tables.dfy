/**
  The database as a value, and what each repository operation does to it.
  Tables are keyed by their unique index: users by id, user_emails by address, token
  tables by hash (a token is identified with its hash), accesses by (user, client).
 */
module Tables {
  import opened Domain

  /** Where a refresh token came from. */
  datatype Origin = FromCode(code: Token) | FromRefresh(parent: Token)

  /** The users, user_emails and email_verification_tokens tables. */
  datatype Accounts = Accounts(users: map<UserId, User>,
                               emails: map<Email, EmailRow>,
                               verifs: map<Token, VerifyToken>,
                               mailTo: map<Token, Email>)  // history: the address a verification token is mailed to
  {
    /** UserRepo.Create: two inserts in one transaction, against both unique e-mail indexes. */
    function CreateUser(id: UserId, user: User): Result<Accounts> {
      if user.email in emails || exists u :: u in users && users[u].email == user.email then Err(Internal)
      else
        Ok(this.(users := users[id := user],
                 emails := emails[user.email := EmailRow(id, Primary, user.verifiedAt)]))
    }

    /** UserRepo.ByEmail joins on a verified row. */
    function ByEmail(email: Email): Option<UserId> {
      if email in emails && emails[email].verifiedAt.Some? && emails[email].user in users
      then Some(emails[email].user) else None
    }

    function MarkEmailVerified(id: UserId, at: Time): Result<Accounts> {
      if id !in users then Err(NotFound)
      else
        Ok(this.(users := users[id := users[id].(status := Active, verifiedAt := Some(at))],
                 emails := map e | e in emails ::
                             if emails[e].user == id && emails[e].role == Primary && emails[e].verifiedAt.None?
                             then emails[e].(verifiedAt := Some(at)) else emails[e]))
    }

    function UpdatePassword(id: UserId, hash: string): Result<Accounts> {
      if id !in users then Err(NotFound) else Ok(this.(users := users[id := users[id].(hash := hash)]))
    }

    function SetStatus(id: UserId, status: Status): Result<Accounts> {
      if id !in users then Err(NotFound) else Ok(this.(users := users[id := users[id].(status := status)]))
    }

    /** DELETE FROM users; the other rows of the user go by ON DELETE CASCADE. */
    function DeleteUser(id: UserId): Result<Accounts> {
      if id !in users then Err(NotFound)
      else
        Ok(this.(users := users - {id},
                 emails := map e | e in emails && emails[e].user != id :: emails[e],
                 verifs := map t | t in verifs && verifs[t].user != id :: verifs[t]))
    }

    predicate HasSecondary(id: UserId) {
      exists e :: e in emails && emails[e].user == id && emails[e].role == Secondary
    }

    /** The verified addresses of a user. */
    function Verified(id: UserId): set<Email> {
      set e | e in emails && emails[e].user == id && emails[e].verifiedAt.Some?
    }

    /** Foreign key and unique indexes: one row an address, one secondary row a user. */
    function InsertPendingSecondary(id: UserId, email: Email): Result<Accounts> {
      if id !in users || email in emails || HasSecondary(id) then Err(Internal)
      else Ok(this.(emails := emails[email := EmailRow(id, Secondary, None)]))
    }

    function MarkVerified(id: UserId, email: Email, at: Time): Result<Accounts> {
      if email in emails && emails[email].user == id && emails[email].verifiedAt.None?
      then Ok(this.(emails := emails[email := emails[email].(verifiedAt := Some(at))]))
      else Err(NotFound)
    }

    predicate IsPendingSecondary(id: UserId, email: Email) {
      email in emails && emails[email].user == id && emails[email].role == Secondary && emails[email].verifiedAt.None?
    }

    function DeletePendingSecondary(id: UserId): Result<Accounts> {
      if exists e :: e in emails && IsPendingSecondary(id, e)
      then Ok(this.(emails := map e | e in emails && !IsPendingSecondary(id, e) :: emails[e]))
      else Err(NotFound)
    }

    /** The row that `verified_at IS NOT NULL LIMIT 1` picks once `gone` is deleted. */
    predicate IsSurvivor(id: UserId, gone: Email, other: Email) {
      other in emails && other != gone && emails[other].user == id && emails[other].verifiedAt.Some?
    }

    ghost function Survivor(id: UserId, gone: Email): (other: Option<Email>)
      ensures other.Some? ==> IsSurvivor(id, gone, other.value)
      ensures other.None? ==> forall e :: !IsSurvivor(id, gone, e)
    {
      if exists e :: IsSurvivor(id, gone, e) then
        var e :| IsSurvivor(id, gone, e);
        Some(e)
      else None
    }

    function WithoutAddress(gone: Email): Accounts { this.(emails := emails - {gone}) }

    /** The survivor becomes primary and users.email follows it. */
    function Promote(id: UserId, gone: Email, other: Email): Accounts
      requires other in emails && id in users
    {
      this.(emails := (emails - {gone})[other := emails[other].(role := Primary)],
            users := users[id := users[id].(email := other, verifiedAt := emails[other].verifiedAt)])
    }

    ghost function DeleteVerified(id: UserId, email: Email): Result<Accounts> {
      if email !in emails || emails[email].user != id then Err(NotFound)
      else if emails[email].verifiedAt.None? then Err(Validation("email"))
      else if |Verified(id)| < 2 then Err(CannotDeleteLastEmail)
      else if emails[email].role == Secondary then Ok(WithoutAddress(email))
      else if id !in users || Survivor(id, email).None? then Err(Internal)
      else Ok(Promote(id, email, Survivor(id, email).value))
    }

    function CreateVerifyToken(t: Token, token: VerifyToken, to: Email): Accounts {
      this.(verifs := verifs[t := token], mailTo := mailTo[t := to])
    }

    function ConsumeVerifyToken(t: Token, at: Time): Result<(Accounts, VerifyToken)> {
      if t !in verifs then Err(NotFound)
      else if verifs[t].usedAt.Some? || !(at < verifs[t].expiresAt) then Err(InvalidToken)
      else Ok((this.(verifs := verifs[t := verifs[t].(usedAt := Some(at))]), verifs[t]))
    }
  }

  /** The registration_tickets, invites and user_app_accesses tables. */
  datatype Entries = Entries(tickets: map<Token, Ticket>, invites: map<Token, Invite>,
                             accesses: map<(UserId, ClientId), Access>)
  {
    function CreateTicket(t: Token, ticket: Ticket): Entries {
      this.(tickets := tickets[t := ticket])
    }

    function PeekTicket(t: Token, at: Time): Result<Ticket> {
      if t !in tickets then Err(NotFound)
      else if tickets[t].usedAt.Some? || !(at < tickets[t].expiresAt) then Err(InvalidToken)
      else Ok(tickets[t])
    }

    function ConsumeTicket(t: Token, at: Time): Result<(Entries, Ticket)> {
      match PeekTicket(t, at)
      case Err(e) => Err(e)
      case Ok(ticket) => Ok((this.(tickets := tickets[t := ticket.(usedAt := Some(at))]), ticket))
    }

    function CreateInvite(id: Token, invite: Invite): Entries {
      this.(invites := invites[id := invite])
    }

    function ConsumeInvite(id: Token, at: Time): Result<Entries> {
      if id in invites && invites[id].IsUsable(at)
      then Ok(this.(invites := invites[id := invites[id].(usedAt := Some(at))]))
      else Err(InvalidToken)
    }

    function RevokeInvite(id: Token, at: Time): Result<Entries> {
      if id in invites && invites[id].usedAt.None? && invites[id].revokedAt.None?
      then Ok(this.(invites := invites[id := invites[id].(revokedAt := Some(at))]))
      else Err(NotFound)
    }

    /** ON CONFLICT keeps first_seen_at and a non-empty entry domain. */
    function UpsertAccess(user: UserId, client: ClientId, domain: string, at: Time): Entries {
      var row :=
        if (user, client) in accesses then
          var row := accesses[(user, client)];
          Access(if domain != "" then domain else row.entryDomain, row.firstSeen, at)
        else Access(domain, at, at);
      this.(accesses := accesses[(user, client) := row])
    }

    predicate HasAccess(user: UserId, client: ClientId) { (user, client) in accesses }

    function DeleteUser(id: UserId): Entries {
      this.(accesses := map a | a in accesses && a.0 != id :: accesses[a])
    }
  }

  datatype Sessions = Sessions(rows: map<Token, Session>,
                               loginHash: map<Token, string>)  // history: the password hash the opening login verified
  {
    function Create(t: Token, session: Session, verified: string): Sessions {
      this.(rows := rows[t := session], loginHash := loginHash[t := verified])
    }

    /** SessionRepo.ByTokenHash */
    function ByToken(t: Token, at: Time): Option<Session> {
      if t in rows && rows[t].revokedAt.None? && at < rows[t].expiresAt then Some(rows[t]) else None
    }

    function Revoke(t: Token, at: Time): Sessions {
      if t in rows && rows[t].revokedAt.None?
      then this.(rows := rows[t := rows[t].(revokedAt := Some(at))]) else this
    }

    function RevokeAll(id: UserId, at: Time): Sessions {
      this.(rows := map t | t in rows ::
                          if rows[t].user == id && rows[t].revokedAt.None?
                          then rows[t].(revokedAt := Some(at)) else rows[t])
    }

    function DeleteUser(id: UserId): Sessions {
      this.(rows := map t | t in rows && rows[t].user != id :: rows[t])
    }
  }

  /** The authorization_codes and refresh_tokens tables. */
  datatype Grants = Grants(codes: map<Token, Code>,
                           refresh: map<Token, Refresh>,
                           lineage: map<Token, Origin>)  // history: what a refresh token was issued for
  {
    function CreateCode(t: Token, code: Code): Grants {
      this.(codes := codes[t := code])
    }

    function ConsumeCode(t: Token, at: Time): Result<(Grants, Code)> {
      if t !in codes then Err(NotFound)
      else if codes[t].usedAt.Some? || !(at < codes[t].expiresAt) then Err(InvalidGrant)
      else Ok((this.(codes := codes[t := codes[t].(usedAt := Some(at))]), codes[t]))
    }

    function CreateRefresh(t: Token, token: Refresh, origin: Origin): Grants {
      this.(refresh := refresh[t := token], lineage := lineage[t := origin])
    }

    function ConsumeRefresh(t: Token, at: Time): Result<(Grants, Refresh)> {
      if t !in refresh then Err(NotFound)
      else if refresh[t].revokedAt.Some? || !(at < refresh[t].expiresAt) then Err(InvalidGrant)
      else Ok((this.(refresh := refresh[t := refresh[t].(revokedAt := Some(at))]), refresh[t]))
    }

    function RevokeAllRefresh(id: UserId, at: Time): Grants {
      this.(refresh := map t | t in refresh ::
                         if refresh[t].user == id && refresh[t].revokedAt.None?
                         then refresh[t].(revokedAt := Some(at)) else refresh[t])
    }

    function DeleteUser(id: UserId): Grants {
      this.(codes := map t | t in codes && codes[t].user != id :: codes[t],
            refresh := map t | t in refresh && refresh[t].user != id :: refresh[t])
    }
  }

  // ---- oauth_clients ----

  type ClientTable = map<ClientId, Client>

  /** ON CONFLICT keeps access_mode. */
  function UpsertClient(clients: ClientTable, id: ClientId, client: Client): ClientTable {
    var row := if id in clients then client.(mode := clients[id].mode) else client;
    clients[id := row]
  }

  function UpdateAccessMode(clients: ClientTable, id: ClientId, mode: AccessMode): Result<ClientTable> {
    if id !in clients then Err(NotFound) else Ok(clients[id := clients[id].(mode := mode)])
  }

  function UpdateRedirects(clients: ClientTable, id: ClientId, uris: seq<string>): Result<ClientTable> {
    if id !in clients then Err(NotFound) else Ok(clients[id := clients[id].(redirects := uris)])
  }

  // ---- password_reset_tokens ----

  type ResetTable = map<Token, ResetToken>

  function ConsumeResetToken(resets: ResetTable, t: Token, at: Time): Result<(ResetTable, ResetToken)> {
    if t !in resets then Err(NotFound)
    else if resets[t].usedAt.Some? || !(at < resets[t].expiresAt) then Err(InvalidToken)
    else Ok((resets[t := resets[t].(usedAt := Some(at))], resets[t]))
  }

  function DeleteUserResets(resets: ResetTable, id: UserId): ResetTable {
    map t | t in resets && resets[t].user != id :: resets[t]
  }

  /** The whole database, and the next random token or generated id: everything issued is below it. */
  datatype Db = Db(next: Token, accounts: Accounts, entries: Entries, sessions: Sessions, grants: Grants,
                   clients: ClientTable, resets: ResetTable)

  /** A freshly migrated database. */
  function Empty(): Db {
    Db(1, Accounts(map[], map[], map[], map[]), Entries(map[], map[], map[]), Sessions(map[], map[]),
       Grants(map[], map[], map[]), map[], map[])
  }
}
