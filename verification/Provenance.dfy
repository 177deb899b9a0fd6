/** Which earlier step stands behind a sign-up, a password reset and an invitation. */
module Provenance {
  import opened Domain
  import opened Tables
  import opened UseCases
  import opened Machine
  import opened Laws
  import opened InviteOnly

  // ---- registration tickets ----

  /**
    The step mints this ticket: by the ticket API for a confidential client, by the login page for a
    public one, never for an invite-only one.
   */
  predicate Mints(env: Env, db: Db, e: Event, t: Token, row: Ticket) {
    && t == db.next && env.registrationOpen && row.client in db.clients && !db.clients[row.client].IsInviteOnly()
    && row == Ticket(row.client, e.at.first + REGISTRATION_TICKET_TTL, None)
    && match e.act
       case Entry(DoIssueTicket(client, secret)) =>
         client == row.client && !db.clients[client].IsPublic() && secret != "" &&
             env.verify(db.clients[client].secretHash, secret)
       case Entry(DoLinkForPublicClient(client)) => client == row.client && db.clients[client].IsPublic()
       case _ => false
  }

  predicate TicketMoves(env: Env, db: Db, e: Event, b: Db, t: Token) {
    t in b.entries.tickets ==>
      var y := b.entries.tickets[t];
      if t in db.entries.tickets then
        y == db.entries.tickets[t].(usedAt := y.usedAt) &&
            (db.entries.tickets[t].usedAt.Some? ==> y == db.entries.tickets[t])
      else Mints(env, db, e, t, y)
  }

  lemma SignUpTickets(db: Db, now: Time, cut: nat, client: ClientId, email: Email, hash: string, mailOk: bool)
    ensures SignUp(db, now, cut, client, email, hash, mailOk).0.entries.tickets == db.entries.tickets
  {
  }

  lemma RegisterTickets(env: Env, db: Db, e: Event, i: RegisterInput, t: Token)
    ensures TicketMoves(env, db, e, Register(env, db, e.at, e.cut, i).0, t)
  {
    hide SignUp, Mints;
    var consumed := db.entries.ConsumeTicket(i.ticket, e.at.second);
    if e.cut > 0 && consumed.Ok? && env.parseEmail(i.email).Some? {
      SignUpTickets(db.(entries := consumed.value.0), e.at.second, e.cut - 1, consumed.value.1.client,
                    env.parseEmail(i.email).value, i.newHash, i.mailOk);
    }
  }

  lemma EntryTickets(env: Env, db: Db, e: Event, a: EntryAction, t: Token)
    requires e.act == Entry(a) && db.next !in db.entries.tickets
    ensures TicketMoves(env, db, e, EntryStep(env, db, e.at, e.cut, a).0, t)
  {
    hide Register, ResolveSession;
    if a.DoRegister? {
      RegisterTickets(env, db, e, a.register, t);
    }
  }

  lemma OtherTickets(env: Env, db: Db, at: Clock, cut: nat, g: GrantAction, c: CredentialAction)
    ensures GrantStep(env, db, at, cut, g).0.entries.tickets == db.entries.tickets
    ensures CredentialStep(env, db, at, cut, c).0.entries.tickets == db.entries.tickets
  {
    hide AuthorizeError, ResolveSession, AuthenticatesClient, CodeMatches, RevokeAll;
  }

  lemma TicketLaw(env: Env, db: Db, e: Event, t: Token)
    requires Fresh(db)
    ensures TicketMoves(env, db, e, Next(env, db, e).0, t)
  {
    hide MailStep, EntryStep, GrantStep, CredentialStep, ClientStep, Mints;
    assert FreshAt(db, db.next);
    match e.act
    case Entry(a) => EntryTickets(env, db, e, a, t);
    case Grants(a) => OtherTickets(env, db, e.at, e.cut, a, DoLogout(0));
    case Credential(a) => OtherTickets(env, db, e.at, e.cut, DoRefresh(0, ClientId(""), ""), a);
    case _ =>
  }

  ghost predicate MintedAt(env: Env, ss: seq<Db>, es: seq<Event>, k: int, t: Token, row: Ticket)
    requires |es| <= |ss|
  {
    0 <= k < |es| && Mints(env, ss[k], es[k], t, row.(usedAt := None))
  }

  lemma {:induction false} TicketWasMinted(env: Env, ss: seq<Db>, es: seq<Event>, n: nat, t: Token)
    requires IsRun(env, ss, es) && n < |ss| && t in ss[n].entries.tickets
    ensures exists k :: k < n && MintedAt(env, ss, es, k, t, ss[n].entries.tickets[t])
  {
    hide Next, Mints;
    if n > 0 {
      FreshAlways(env, ss, es, n - 1);
      TicketLaw(env, ss[n - 1], es[n - 1], t);
      var row := ss[n].entries.tickets[t];
      if t in ss[n - 1].entries.tickets {
        TicketWasMinted(env, ss, es, n - 1, t);
        var k :| k < n - 1 && MintedAt(env, ss, es, k, t, ss[n - 1].entries.tickets[t]);
        assert MintedAt(env, ss, es, k, t, row);
      } else {
        MintedUnused(env, ss[n - 1], es[n - 1], t, row);
        assert MintedAt(env, ss, es, n - 1, t, row);
      }
    }
  }

  lemma MintedUnused(env: Env, db: Db, e: Event, t: Token, row: Ticket)
    requires Mints(env, db, e, t, row)
    ensures row == row.(usedAt := None)
  {
  }

  /** The registration creates an account. */
  predicate SignsUp(db: Db, b: Db) { db.next !in db.accounts.users && db.next in b.accounts.users }

  lemma RegisterUsesTicket(env: Env, db: Db, at: Clock, cut: nat, i: RegisterInput)
    requires SignsUp(db, Register(env, db, at, cut, i).0)
    ensures i.ticket in db.entries.tickets && db.entries.tickets[i.ticket].IsLive(at.second) &&
            db.entries.tickets[i.ticket].IsLive(at.first)
    ensures var client := db.entries.tickets[i.ticket].client;
            client in db.clients && !db.clients[client].IsInviteOnly()
    ensures var b := Register(env, db, at, cut, i).0;
            i.ticket in b.entries.tickets && b.entries.tickets[i.ticket].usedAt.Some?
  {
    hide SignUp;
    var consumed := db.entries.ConsumeTicket(i.ticket, at.second);
    if cut > 0 && consumed.Ok? && env.parseEmail(i.email).Some? {
      SignUpTickets(db.(entries := consumed.value.0), at.second, cut - 1, consumed.value.1.client,
                    env.parseEmail(i.email).value, i.newHash, i.mailOk);
    }
  }

  /**
    An account made through /register goes back to one ticket, minted less than ten minutes
    before, for a client that was not invite-only then and is not now.
   */
  lemma SignUpNeedsTicket(env: Env, ss: seq<Db>, es: seq<Event>, n: nat, i: RegisterInput)
    requires IsRun(env, ss, es) && n < |es| && es[n].act == Entry(DoRegister(i)) && SignsUp(ss[n], ss[n + 1])
    ensures i.ticket in ss[n].entries.tickets
    ensures var row := ss[n].entries.tickets[i.ticket];
            row.client in ss[n].clients && !ss[n].clients[row.client].IsInviteOnly() &&
            exists k :: k < n && MintedAt(env, ss, es, k, i.ticket, row) &&
                        es[k].at.first <= es[n].at.second < es[k].at.first + REGISTRATION_TICKET_TTL
  {
    hide Mints, Register;
    RegisterUsesTicket(env, ss[n], es[n].at, es[n].cut, i);
    TicketWasMinted(env, ss, es, n, i.ticket);
    var row := ss[n].entries.tickets[i.ticket];
    var k :| k < n && MintedAt(env, ss, es, k, i.ticket, row);
    MintedExpiry(env, ss[k], es[k], i.ticket, row.(usedAt := None));
    assert es[k].at.Ordered() && es[n].at.Ordered() && es[k].at.third <= es[n].at.first;
  }

  lemma MintedExpiry(env: Env, db: Db, e: Event, t: Token, row: Ticket)
    requires Mints(env, db, e, t, row)
    ensures row.expiresAt == e.at.first + REGISTRATION_TICKET_TTL
  {
  }

  lemma {:induction false} UsedTicketStays(env: Env, ss: seq<Db>, es: seq<Event>, i: nat, j: nat, t: Token)
    requires IsRun(env, ss, es) && i <= j < |ss| && t in ss[i].entries.tickets && ss[i].entries.tickets[t].usedAt.Some?
    ensures t in ss[j].entries.tickets ==> ss[j].entries.tickets[t].usedAt.Some?
    decreases j
  {
    hide Next, Mints;
    if i < j {
      UsedTicketStays(env, ss, es, i, j - 1, t);
      FreshAlways(env, ss, es, i);
      FreshAlways(env, ss, es, j - 1);
      assert FreshAt(ss[i], t);
      NextGrows(env, ss, es, i, j - 1);
      TicketLaw(env, ss[j - 1], es[j - 1], t);
      if t in ss[j].entries.tickets && t !in ss[j - 1].entries.tickets {
        MintsNext(env, ss[j - 1], es[j - 1], t, ss[j].entries.tickets[t]);
      }
    }
  }

  lemma MintsNext(env: Env, db: Db, e: Event, t: Token, row: Ticket)
    requires Mints(env, db, e, t, row)
    ensures t == db.next
  {
  }

  /** A ticket makes one account. */
  lemma OneAccountPerTicket(env: Env, ss: seq<Db>, es: seq<Event>, m: nat, n: nat, x: RegisterInput, y: RegisterInput)
    requires IsRun(env, ss, es) && m < n < |es| && x.ticket == y.ticket
    requires es[m].act == Entry(DoRegister(x)) && es[n].act == Entry(DoRegister(y))
    requires SignsUp(ss[m], ss[m + 1])
    ensures !SignsUp(ss[n], ss[n + 1])
  {
    hide Register;
    RegisterUsesTicket(env, ss[m], es[m].at, es[m].cut, x);
    UsedTicketStays(env, ss, es, m + 1, n, x.ticket);
    if SignsUp(ss[n], ss[n + 1]) {
      RegisterUsesTicket(env, ss[n], es[n].at, es[n].cut, y);
    }
  }

  // ---- password resets ----

  /** The step mails this reset token to a verified address of its user. */
  predicate Requests(env: Env, db: Db, e: Event, t: Token, row: ResetToken) {
    match e.act
    case Credential(DoRequestReset(raw, _, _)) =>
      && t == db.next && env.parseEmail(raw).Some? && env.parseEmail(raw).value in db.accounts.Verified(row.user)
      && row.user in db.accounts.users && db.accounts.users[row.user].CanAuthenticate()
      && row == ResetToken(row.user, e.at.first + PASSWORD_RESET_TTL, None)
    case _ => false
  }

  predicate ResetMoves(env: Env, db: Db, e: Event, b: Db, t: Token) {
    t in b.resets ==>
      if t in db.resets then
        b.resets[t] == db.resets[t].(usedAt := b.resets[t].usedAt) &&
            (db.resets[t].usedAt.Some? ==> b.resets[t] == db.resets[t])
      else Requests(env, db, e, t, b.resets[t])
  }

  lemma CredentialResets(env: Env, db: Db, e: Event, a: CredentialAction, t: Token)
    requires e.act == Credential(a) && db.next !in db.resets
    ensures ResetMoves(env, db, e, CredentialStep(env, db, e.at, e.cut, a).0, t)
  {
    hide RevokeAll, ReplacePassword;
  }

  lemma ResetLaw(env: Env, db: Db, e: Event, t: Token)
    requires Fresh(db)
    ensures ResetMoves(env, db, e, Next(env, db, e).0, t)
  {
    hide MailStep, EntryStep, GrantStep, CredentialStep, ClientStep, Requests;
    assert FreshAt(db, db.next);
    if e.act.Credential? {
      CredentialResets(env, db, e, e.act.credential, t);
    }
  }

  ghost predicate RequestedAt(env: Env, ss: seq<Db>, es: seq<Event>, k: int, t: Token, row: ResetToken)
    requires |es| <= |ss|
  {
    0 <= k < |es| && Requests(env, ss[k], es[k], t, row.(usedAt := None))
  }

  lemma {:induction false} ResetWasRequested(env: Env, ss: seq<Db>, es: seq<Event>, n: nat, t: Token)
    requires IsRun(env, ss, es) && n < |ss| && t in ss[n].resets
    ensures exists k :: k < n && RequestedAt(env, ss, es, k, t, ss[n].resets[t])
  {
    hide Next, Requests;
    if n > 0 {
      FreshAlways(env, ss, es, n - 1);
      ResetLaw(env, ss[n - 1], es[n - 1], t);
      var row := ss[n].resets[t];
      if t in ss[n - 1].resets {
        ResetWasRequested(env, ss, es, n - 1, t);
        var k :| k < n - 1 && RequestedAt(env, ss, es, k, t, ss[n - 1].resets[t]);
        assert RequestedAt(env, ss, es, k, t, row);
      } else {
        RequestedUnused(env, ss[n - 1], es[n - 1], t, row);
        assert RequestedAt(env, ss, es, n - 1, t, row);
      }
    }
  }

  lemma RequestedUnused(env: Env, db: Db, e: Event, t: Token, row: ResetToken)
    requires Requests(env, db, e, t, row)
    ensures row == row.(usedAt := None) && row.expiresAt == e.at.first + PASSWORD_RESET_TTL
  {
  }

  /** The step presents a reset token mailed to a verified address of u less than an hour before. */
  ghost predicate ResetsByMail(env: Env, ss: seq<Db>, es: seq<Event>, n: nat, u: UserId)
    requires n < |es| <= |ss|
  {
    && es[n].act.Credential? && es[n].act.credential.DoResetPassword?
    && var t := es[n].act.credential.token;
       (t in ss[n].resets && ss[n].resets[t].user == u && ss[n].resets[t].usedAt.None? &&
        exists k :: k < n && RequestedAt(env, ss, es, k, t, ss[n].resets[t]) &&
                    es[k].at.first <= es[n].at.first < es[k].at.first + PASSWORD_RESET_TTL)
  }

  /** The step presents the user's current password. */
  predicate ChangesByPassword(env: Env, db: Db, e: Event, u: UserId) {
    match e.act
    case Credential(DoChangePassword(i)) => i.user == u && u in db.accounts.users &&
        env.verify(db.accounts.users[u].hash, i.current)
    case _ => false
  }

  /** A stored password is replaced only by presenting it, or a reset token mailed to the user within the last hour. */
  lemma PasswordsReplacedOnlyByProof(env: Env, ss: seq<Db>, es: seq<Event>, n: nat, u: UserId)
    requires IsRun(env, ss, es) && n < |es| && u in ss[n].accounts.users && u in ss[n + 1].accounts.users
    requires ss[n + 1].accounts.users[u].hash != ss[n].accounts.users[u].hash
    ensures ChangesByPassword(env, ss[n], es[n], u) || ResetsByMail(env, ss, es, n, u)
  {
    hide Next, Requests;
    FreshAlways(env, ss, es, n);
    UserLaw(env, ss[n], es[n], u);
    if es[n].act.credential.DoResetPassword? {
      var t := es[n].act.credential.token;
      ResetWasRequested(env, ss, es, n, t);
      var k :| k < n && RequestedAt(env, ss, es, k, t, ss[n].resets[t]);
      RequestedUnused(env, ss[k], es[k], t, ss[n].resets[t].(usedAt := None));
      assert es[k].at.Ordered() && es[k].at.third <= es[n].at.first;
    }
  }
}
