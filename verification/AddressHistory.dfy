/** How addresses became verified, and what happens to a verified user from then on. */
module AddressHistory {
  import opened Domain
  import opened Tables
  import opened UseCases
  import opened Machine
  import opened AccountEmails
  import opened AccountRuns
  import opened Laws
  import Sets

  /** A token keeps its user, address and expiry; only presenting it uses it, at that instant. */
  predicate VerifyTokenMoves(db: Db, e: Event, b: Db, t: Token) {
    t in b.accounts.verifs ==>
      var y := b.accounts.verifs[t];
      if t in db.accounts.verifs then
        var x := db.accounts.verifs[t];
        && y == x.(usedAt := y.usedAt)
        && (y.usedAt != x.usedAt ==>
              x.usedAt.None? && y.usedAt == Some(e.at.first) && e.at.first < x.expiresAt &&
                  e.act == Mail(DoVerifyEmail(t)))
      else t >= db.next && y.usedAt.None?
  }

  lemma SignUpVerifyTokens(db: Db, now: Time, cut: nat, client: ClientId, email: Email, hash: string, mailOk: bool,
                           t: Token)
    requires db.next !in db.accounts.verifs && db.next + 1 !in db.accounts.verifs
    ensures var b := SignUp(db, now, cut, client, email, hash, mailOk).0;
            t in b.accounts.verifs ==>
              if t in db.accounts.verifs then b.accounts.verifs[t] == db.accounts.verifs[t]
              else t >= db.next && b.accounts.verifs[t].usedAt.None?
  {
  }

  lemma EntryVerifyTokens(env: Env, db: Db, e: Event, a: EntryAction, t: Token)
    requires db.next !in db.accounts.verifs && db.next + 1 !in db.accounts.verifs
    ensures VerifyTokenMoves(db, e, EntryStep(env, db, e.at, e.cut, a).0, t)
  {
    hide SignUp, Grant, AcceptExisting;
    match a
    case DoRegister(i) =>
      var consumed := db.entries.ConsumeTicket(i.ticket, e.at.second);
      if e.cut > 0 && consumed.Ok? && env.parseEmail(i.email).Some? {
        SignUpVerifyTokens(db.(entries := consumed.value.0), e.at.second, e.cut - 1, consumed.value.1.client,
                           env.parseEmail(i.email).value, i.newHash, i.mailOk, t);
      }
    case _ =>
  }

  lemma MailVerifyTokens(env: Env, db: Db, e: Event, a: MailAction, t: Token)
    requires e.act == Mail(a) && db.next !in db.accounts.verifs
    ensures VerifyTokenMoves(db, e, MailStep(env, db, e.at, e.cut, a).0, t)
  {
  }

  lemma CredentialVerifyTokens(env: Env, db: Db, e: Event, a: CredentialAction, t: Token)
    requires e.act == Credential(a)
    ensures VerifyTokenMoves(db, e, CredentialStep(env, db, e.at, e.cut, a).0, t)
  {
    hide RevokeAll;
  }

  lemma VerifyTokenLaw(env: Env, db: Db, e: Event, t: Token)
    requires Fresh(db)
    ensures VerifyTokenMoves(db, e, Next(env, db, e).0, t)
  {
    hide MailStep, EntryStep, GrantStep, CredentialStep, ClientStep;
    assert FreshAt(db, db.next) && FreshAt(db, db.next + 1);
    match e.act
    case Mail(a) => MailVerifyTokens(env, db, e, a, t);
    case Credential(a) => CredentialVerifyTokens(env, db, e, a, t);
    case Entry(a) => EntryVerifyTokens(env, db, e, a, t);
    case _ =>
  }

  lemma {:induction false} UsedByPresenting(env: Env, ss: seq<Db>, es: seq<Event>, i: nat, t: Token)
    requires IsRun(env, ss, es) && i < |ss| && t in ss[i].accounts.verifs && ss[i].accounts.verifs[t].usedAt.Some?
    ensures exists k ::
              0 <= k < i && es[k].act == Mail(DoVerifyEmail(t)) &&
              Some(es[k].at.first) == ss[i].accounts.verifs[t].usedAt
  {
    hide Next;
    if i > 0 {
      FreshAlways(env, ss, es, i - 1);
      VerifyTokenLaw(env, ss[i - 1], es[i - 1], t);
      if t in ss[i - 1].accounts.verifs && ss[i - 1].accounts.verifs[t].usedAt.Some? {
        UsedByPresenting(env, ss, es, i - 1, t);
      }
    }
  }

  /** The step presented a token of this user that was mailed to this address, before the token expired. */
  predicate Verifies(a: Accounts, e: Event, u: UserId, email: Email, t: Token) {
    && e.act == Mail(DoVerifyEmail(t))
    && t in a.verifs && a.verifs[t].user == u && t in a.mailTo && a.mailTo[t] == email
    && e.at.first < a.verifs[t].expiresAt
  }

  /** Every verified address was verified by a step that presented its own token, at the recorded instant. */
  lemma VerifiedByPresentingItsToken(env: Env, ss: seq<Db>, es: seq<Event>, i: nat, e: Email)
    requires IsRun(env, ss, es) && i < |ss| && e in ss[i].accounts.emails && ss[i].accounts.emails[e].verifiedAt.Some?
    ensures exists k, t :: 0 <= k < i && Verifies(ss[i].accounts, es[k], ss[i].accounts.emails[e].user, e, t) &&
                           ss[i].accounts.emails[e].verifiedAt == Some(es[k].at.first)
  {
    hide Next;
    VerifiedOnlyThroughMail(env, ss, es, i, e);
    var a := ss[i].accounts;
    var t :| t in a.verifs && t in a.mailTo && a.verifs[t].user == a.emails[e].user && a.mailTo[t] == e &&
             a.verifs[t].usedAt == a.emails[e].verifiedAt && a.verifs[t].usedAt.value < a.verifs[t].expiresAt;
    UsedByPresenting(env, ss, es, i, t);
    var k :| 0 <= k < i && es[k].act == Mail(DoVerifyEmail(t)) && Some(es[k].at.first) == a.verifs[t].usedAt;
    assert Verifies(a, es[k], a.emails[e].user, e, t);
  }

  /** Ids are not reused, and a verified user stays verified until it is deleted. */
  lemma {:induction false} VerifiedUntilDeleted(env: Env, ss: seq<Db>, es: seq<Event>, i: nat, j: nat, u: UserId)
    requires IsRun(env, ss, es) && i <= j < |ss|
    requires u in ss[i].accounts.users && ss[i].accounts.users[u].verifiedAt.Some? && u in ss[j].accounts.users
    ensures ss[j].accounts.users[u].verifiedAt.Some?
    decreases j
  {
    hide Next;
    if i < j {
      FreshAlways(env, ss, es, j - 1);
      FreshAlways(env, ss, es, i);
      assert FreshAt(ss[i], u);
      NextGrows(env, ss, es, i, j - 1);
      UserLaw(env, ss[j - 1], es[j - 1], u);
      VerifiedUntilDeleted(env, ss, es, i, j - 1, u);
    }
  }

  /** From its first verification until deletion a user has a verified address: its primary one. */
  lemma KeepsAVerifiedAddress(env: Env, ss: seq<Db>, es: seq<Event>, i: nat, j: nat, u: UserId)
    requires IsRun(env, ss, es) && i <= j < |ss|
    requires ss[i].accounts.Verified(u) != {} && u in ss[j].accounts.users
    ensures ss[j].accounts.users[u].email in ss[j].accounts.Verified(u)
    ensures Primary == ss[j].accounts.emails[ss[j].accounts.users[u].email].role
  {
    hide Next;
    AgreesAlways(env, ss, es, i);
    AgreesAlways(env, ss, es, j);
    var a := ss[i].accounts;
    var e :| e in a.Verified(u);
    assert EmailFits(a, e) && UserFits(a, ss[i].next, u);
    assert UserFits(ss[j].accounts, ss[j].next, u);
    VerifiedUntilDeleted(env, ss, es, i, j, u);
  }

  // ---- add, verify, delete the old address ----

  lemma AddedAddress(env: Env, db: Db, at: Clock, cut: nat, i: AddInput)
    requires AddEmail(env, db, at, cut, i).1 == Done
    ensures var b := AddEmail(env, db, at, cut, i).0; var email := env.parseEmail(i.email);
            email.Some? && i.user in db.accounts.users && db.accounts.users[i.user].verifiedAt.Some? &&
            email.value !in db.accounts.emails && i.user != 0 &&
            b.accounts == db.accounts.(emails := db.accounts.emails[email.value := EmailRow(i.user, Secondary, None)])
                          .CreateVerifyToken(db.next, VerifyToken(i.user, email, at.first + EMAIL_VERIFY_TTL, None),
                                             email.value)
  {
  }

  lemma PromotesTheOther(env: Env, db: Db, cut: nat, u: UserId, raw: string, e: Email)
    requires Agrees(db) && cut >= 1 && u != 0 && u in db.accounts.users && db.accounts.users[u].verifiedAt.Some?
    requires env.parseEmail(raw) == Some(db.accounts.users[u].email)
    requires e in db.accounts.emails && db.accounts.emails[e].user == u && db.accounts.emails[e].role == Secondary
    requires db.accounts.emails[e].verifiedAt.Some?
    ensures DeleteEmail(env, db, cut, u, raw).1 == Done
    ensures var b := DeleteEmail(env, db, cut, u, raw).0; var x := db.accounts.emails[e];
            u in b.accounts.users &&
                b.accounts.users[u] == db.accounts.users[u].(email := e, verifiedAt := x.verifiedAt) &&
            e in b.accounts.emails && b.accounts.emails[e] == x.(role := Primary) &&
            forall f :: f in b.accounts.emails && b.accounts.emails[f].user == u ==> f == e
  {
    var a := db.accounts;
    var gone := a.users[u].email;
    assert UserFits(a, db.next, u) && EmailFits(a, e);
    assert a.IsSurvivor(u, gone, e);
    assert {gone, e} <= a.Verified(u) && |{gone, e}| == 2;
    Sets.SubsetSize({gone, e}, a.Verified(u));
    var other := a.Survivor(u, gone).value;
    forall f | f in a.emails && a.emails[f].user == u ensures f == gone || f == e {
      assert EmailFits(a, f) && SameSecondary(a, f, e);
    }
  }

  /** u has the verified primary address p and the secondary address e, verified at `at` if that is known. */
  predicate HasSecond(a: Accounts, u: UserId, p: Email, e: Email, at: Option<Time>) {
    && u in a.users && a.users[u].email == p && a.users[u].verifiedAt.Some?
    && e in a.emails && a.emails[e].user == u && a.emails[e].role == Secondary
    && (at.Some? ==> a.emails[e].verifiedAt == at)
  }

  /** The step cancels or deletes an address of u. */
  predicate DropsAddress(e: Event, u: UserId) {
    e.act == Mail(DoCancelEmail(u)) || (e.act.Mail? && e.act.mail.DoDeleteEmail? && e.act.mail.user == u)
  }

  lemma SignUpKeepsRows(db: Db, now: Time, cut: nat, client: ClientId, email: Email, hash: string, mailOk: bool,
                        e: Email)
    requires e in db.accounts.emails
    ensures var b := SignUp(db, now, cut, client, email, hash, mailOk).0;
            e in b.accounts.emails && b.accounts.emails[e] == db.accounts.emails[e]
  {
  }

  lemma EntryKeepsRows(env: Env, db: Db, at: Clock, cut: nat, a: EntryAction, e: Email)
    requires e in db.accounts.emails
    ensures var b := EntryStep(env, db, at, cut, a).0;
            e in b.accounts.emails && b.accounts.emails[e] == db.accounts.emails[e]
  {
    hide SignUp, Grant, AcceptExisting;
    match a
    case DoRegister(i) =>
      var consumed := db.entries.ConsumeTicket(i.ticket, at.second);
      if cut > 0 && consumed.Ok? && env.parseEmail(i.email).Some? {
        SignUpKeepsRows(db.(entries := consumed.value.0), at.second, cut - 1, consumed.value.1.client,
                        env.parseEmail(i.email).value, i.newHash, i.mailOk, e);
      }
    case _ =>
  }

  lemma CredentialKeepsSecond(env: Env, db: Db, at: Clock, cut: nat, c: CredentialAction, u: UserId, p: Email, e: Email,
                              verified: Option<Time>)
    requires HasSecond(db.accounts, u, p, e, verified) && u in CredentialStep(env, db, at, cut, c).0.accounts.users
    ensures HasSecond(CredentialStep(env, db, at, cut, c).0.accounts, u, p, e, verified)
  {
    hide RevokeAll;
  }

  lemma VerifyKeepsSecond(db: Db, at: Clock, cut: nat, t: Token, u: UserId, p: Email, e: Email, verified: Option<Time>)
    requires HasSecond(db.accounts, u, p, e, verified)
    ensures HasSecond(VerifyEmail(db, at, cut, t).0.accounts, u, p, e, verified)
  {
  }

  lemma MailKeepsSecond(env: Env, db: Db, ev: Event, m: MailAction, u: UserId, p: Email, e: Email,
                        verified: Option<Time>)
    requires ev.act == Mail(m) && HasSecond(db.accounts, u, p, e, verified) && p in db.accounts.emails &&
             db.accounts.emails[p].user == u
    requires !DropsAddress(ev, u)
    ensures HasSecond(MailStep(env, db, ev.at, ev.cut, m).0.accounts, u, p, e, verified)
  {
    hide VerifyEmail;
    match m
    case DoVerifyEmail(t) => VerifyKeepsSecond(db, ev.at, ev.cut, t, u, p, e, verified);
    case _ =>
  }

  /** Only cancelling, deleting an address or deleting the user changes which two addresses it has. */
  lemma SecondStays(env: Env, db: Db, ev: Event, u: UserId, p: Email, e: Email, verified: Option<Time>)
    requires Agrees(db) && Fresh(db) && HasSecond(db.accounts, u, p, e, verified)
    requires !DropsAddress(ev, u) && u in Next(env, db, ev).0.accounts.users
    ensures HasSecond(Next(env, db, ev).0.accounts, u, p, e, verified)
  {
    hide Agreement, MailStep, EntryStep, GrantStep, CredentialStep, ClientStep;
    OwnRow(db.accounts, db.next, u);
    assert FreshAt(db, db.next);
    match ev.act
    case Mail(m) => MailKeepsSecond(env, db, ev, m, u, p, e, verified);
    case Entry(a) =>
      EntryUsers(env, db, ev.at, ev.cut, a, u);
      EntryKeepsRows(env, db, ev.at, ev.cut, a, e);
    case Credential(c) => CredentialKeepsSecond(env, db, ev.at, ev.cut, c, u, p, e, verified);
    case _ =>
  }

  lemma OwnRow(a: Accounts, next: Token, u: UserId)
    requires Agreement(a, next) && u in a.users
    ensures a.users[u].email in a.emails && a.emails[a.users[u].email].user == u
  {
    assert UserFits(a, next, u);
  }

  lemma {:induction false} SecondStaysThrough(env: Env, ss: seq<Db>, es: seq<Event>, i: nat, j: nat, n: nat,
                                              u: UserId, p: Email, e: Email, verified: Option<Time>)
    requires IsRun(env, ss, es) && i <= j <= n < |ss| && HasSecond(ss[i].accounts, u, p, e, verified) &&
             u in ss[n].accounts.users
    requires forall m :: i <= m < j ==> !DropsAddress(es[m], u)
    ensures HasSecond(ss[j].accounts, u, p, e, verified)
    decreases j
  {
    hide Next, Agreement;
    if i < j {
      SecondStaysThrough(env, ss, es, i, j - 1, n, u, p, e, verified);
      AgreesAlways(env, ss, es, j - 1);
      FreshAlways(env, ss, es, j - 1);
      FreshAlways(env, ss, es, i);
      assert FreshAt(ss[i], u);
      NextGrows(env, ss, es, i, j);
      if u !in ss[j].accounts.users { DeletedForGood(env, ss, es, j, n, u); }
      SecondStays(env, ss[j - 1], es[j - 1], u, p, e, verified);
    }
  }

  /** A token that nobody has presented is unused, and it is not removed while its user exists. */
  lemma {:induction false} UnpresentedTokenStays(env: Env, ss: seq<Db>, es: seq<Event>, i: nat, j: nat, n: nat,
                                                 t: Token)
    requires IsRun(env, ss, es) && i <= j <= n < |ss| && t in ss[i].accounts.verifs &&
             ss[i].accounts.verifs[t].user in ss[n].accounts.users
    requires forall m :: i <= m < j ==> es[m].act != Mail(DoVerifyEmail(t))
    ensures t in ss[j].accounts.verifs && ss[j].accounts.verifs[t] == ss[i].accounts.verifs[t]
    decreases j
  {
    hide Next, Agreement;
    if i < j {
      UnpresentedTokenStays(env, ss, es, i, j - 1, n, t);
      var u := ss[i].accounts.verifs[t].user;
      AgreesAlways(env, ss, es, i);
      TokenHasUser(ss[i], t);
      FreshAlways(env, ss, es, i);
      assert FreshAt(ss[i], u);
      NextGrows(env, ss, es, i, j);
      if u !in ss[j].accounts.users { DeletedForGood(env, ss, es, j, n, u); }
      FreshAlways(env, ss, es, j - 1);
      assert FreshAt(ss[j - 1], t);
      VerifyTokenLaw(env, ss[j - 1], es[j - 1], t);
      TokenKept(env, ss[j - 1], es[j - 1], t);
    }
  }

  lemma TokenHasUser(db: Db, t: Token)
    requires Agrees(db) && t in db.accounts.verifs
    ensures db.accounts.verifs[t].user in db.accounts.users
  {
    assert TokenFits(db.accounts, db.next, t);
  }

  lemma TokenKept(env: Env, db: Db, e: Event, t: Token)
    requires t in db.accounts.verifs && db.accounts.verifs[t].user in Next(env, db, e).0.accounts.users
    ensures t in Next(env, db, e).0.accounts.verifs
  {
    hide MailStep, EntryStep, GrantStep, CredentialStep, ClientStep;
    match e.act
    case Mail(a) => MailKeepsTokens(env, db, e, a, t);
    case Entry(a) => EntryKeepsTokens(env, db, e, a, t);
    case Credential(a) => CredentialKeepsTokens(env, db, e, a, t);
    case _ =>
  }

  lemma MailKeepsTokens(env: Env, db: Db, e: Event, a: MailAction, t: Token)
    requires t in db.accounts.verifs
    ensures t in MailStep(env, db, e.at, e.cut, a).0.accounts.verifs
  {
  }

  lemma EntryKeepsTokens(env: Env, db: Db, e: Event, a: EntryAction, t: Token)
    requires t in db.accounts.verifs
    ensures t in EntryStep(env, db, e.at, e.cut, a).0.accounts.verifs
  {
    hide Grant, AcceptExisting, PeekTicket, LoadUsable;
  }

  lemma CredentialKeepsTokens(env: Env, db: Db, e: Event, a: CredentialAction, t: Token)
    requires t in db.accounts.verifs &&
             db.accounts.verifs[t].user in CredentialStep(env, db, e.at, e.cut, a).0.accounts.users
    ensures t in CredentialStep(env, db, e.at, e.cut, a).0.accounts.verifs
  {
    hide RevokeAll;
  }

  lemma PresentingVerifies(db: Db, at: Clock, cut: nat, t: Token, u: UserId, p: Email, e: Email)
    requires 0 < t && t in db.accounts.verifs && cut >= 2 && HasSecond(db.accounts, u, p, e, None)
    requires var row := db.accounts.verifs[t];
             (row.user == u && row.email == Some(e) && row.usedAt.None? && at.first < row.expiresAt)
    ensures var b := VerifyEmail(db, at, cut, t);
            e in b.0.accounts.emails && b.0.accounts.emails[e].verifiedAt.Some? &&
            (b.1 == Done <==> db.accounts.emails[e].verifiedAt.None?) &&
            (b.1 == Done ==> b.0.accounts.emails[e].verifiedAt == Some(at.first))
  {
  }

  /**
    A successful add at step i, the first presentation of its token at j, in time, and the deletion
    of the old address at k, with any other steps in between except cancelling or deleting an
    address of the user or deleting the user: the deletion succeeds and leaves the user with the
    new address only, primary and verified. The presentation answers Done unless another token
    mailed to the same address has verified it already.
   */
  lemma MovingToANewAddress(env: Env, ss: seq<Db>, es: seq<Event>, i: nat, j: nat, k: nat, add: AddInput, raw: string)
    requires IsRun(env, ss, es) && i < j < k < |es|
    requires es[i].act == Mail(DoAddEmail(add)) && Output(env, ss, es, i) == Done
    requires es[j].act == Mail(DoVerifyEmail(ss[i].next)) && es[j].at.first < es[i].at.first + EMAIL_VERIFY_TTL &&
             es[j].cut >= 2
    requires es[k].act == Mail(DoDeleteEmail(add.user, raw)) && es[k].cut >= 1
    requires add.user in ss[i].accounts.users && env.parseEmail(raw) == Some(ss[i].accounts.users[add.user].email)
    requires forall m :: i < m < j ==> es[m].act != Mail(DoVerifyEmail(ss[i].next))
    requires (forall m :: i < m < k ==> !DropsAddress(es[m], add.user)) && add.user in ss[k].accounts.users
    ensures env.parseEmail(add.email).Some? && Output(env, ss, es, k) == Done
    ensures var u := add.user; var e := env.parseEmail(add.email).value; var a, b := ss[j].accounts, ss[k + 1].accounts;
            e in a.emails && (Output(env, ss, es, j) == Done <==> a.emails[e].verifiedAt.None?) &&
            u in b.users && b.users[u].email == e && e in b.emails &&
                b.emails[e] == EmailRow(u, Primary, b.users[u].verifiedAt) &&
            b.users[u].verifiedAt.Some? &&
                (Output(env, ss, es, j) == Done ==> b.users[u].verifiedAt == Some(es[j].at.first)) &&
            forall f :: f in b.emails && b.emails[f].user == u ==> f == e
  {
    hide AddEmail, VerifyEmail, DeleteEmail, Agreement;
    var u := add.user;
    var p := ss[i].accounts.users[u].email;
    var t := ss[i].next;
    AddedAddress(env, ss[i], es[i].at, es[i].cut, add);
    var e := env.parseEmail(add.email).value;
    FreshAlways(env, ss, es, i);
    assert HasSecond(ss[i + 1].accounts, u, p, e, None);
    SecondStaysThrough(env, ss, es, i + 1, j, k, u, p, e, None);
    SecondStaysThrough(env, ss, es, i + 1, j + 1, k, u, p, e, None);
    UnpresentedTokenStays(env, ss, es, i + 1, j, k, t);
    PresentingVerifies(ss[j], es[j].at, es[j].cut, t, u, p, e);
    var verified := ss[j + 1].accounts.emails[e].verifiedAt;
    SecondStaysThrough(env, ss, es, j + 1, k, k, u, p, e, verified);
    AgreesAlways(env, ss, es, k);
    PromotesTheOther(env, ss[k], es[k].cut, u, raw, e);
  }

  /** Cancelling undoes adding: the addresses are as before, and the mailed token verifies nothing. */
  lemma CancelUndoesAdd(env: Env, db: Db, first: Clock, second: Clock, cut: nat, i: AddInput)
    requires Agrees(db) && Fresh(db) && cut >= 2 && AddEmail(env, db, first, cut, i).1 == Done
    ensures var cancelled := CancelEmail(AddEmail(env, db, first, cut, i).0, cut, i.user);
            var presented := VerifyEmail(cancelled.0, second, cut, db.next);
            cancelled.1 == Done && presented.1 == Failed(InvalidToken) &&
            cancelled.0.accounts.emails == db.accounts.emails == presented.0.accounts.emails &&
            cancelled.0.accounts.users == db.accounts.users == presented.0.accounts.users
  {
    hide AddEmail, Agreement, VerifyEmail;
    AddedAddress(env, db, first, cut, i);
    var added := AddEmail(env, db, first, cut, i).0;
    var e := env.parseEmail(i.email).value;
    NoOtherSecondary(env, db, first, cut, i);
    assert added.accounts.IsPendingSecondary(i.user, e);
    forall f | f in added.accounts.emails ensures added.accounts.IsPendingSecondary(i.user, f) <==> f == e {
      assert f != e ==> f in db.accounts.emails;
    }
    var cancelled := CancelEmail(added, cut, i.user).0;
    assert cancelled.accounts.emails == db.accounts.emails;
    OrphanTokenFails(cancelled, second, cut, db.next);
  }

  lemma NoOtherSecondary(env: Env, db: Db, at: Clock, cut: nat, i: AddInput)
    requires AddEmail(env, db, at, cut, i).1 == Done
    ensures !db.accounts.HasSecondary(i.user)
  {
  }

  lemma OrphanTokenFails(db: Db, at: Clock, cut: nat, t: Token)
    requires cut >= 2 && t != 0 && t in db.accounts.verifs && db.accounts.verifs[t].email.Some?
    requires db.accounts.verifs[t].email.value !in db.accounts.emails
    ensures VerifyEmail(db, at, cut, t).1 == Failed(InvalidToken)
    ensures VerifyEmail(db, at, cut, t).0.accounts.emails == db.accounts.emails
    ensures VerifyEmail(db, at, cut, t).0.accounts.users == db.accounts.users
  {
  }
}
