/** The two address tables and the verification tokens agree in every reachable state. */
module AccountEmails {
  import opened Domain
  import opened Tables

  /** A user's address is its primary row, with the same verification time. */
  predicate UserFits(a: Accounts, next: Token, u: UserId) {
    u in a.users ==>
      && u < next
      && a.users[u].email in a.emails
      && a.emails[a.users[u].email] == EmailRow(u, Primary, a.users[u].verifiedAt)
  }

  /** A primary row is its user's address; a secondary row needs a verified user. */
  predicate EmailFits(a: Accounts, e: Email) {
    e in a.emails ==>
      && a.emails[e].user in a.users
      && match a.emails[e].role
         case Primary => a.users[a.emails[e].user].email == e
         case Secondary => a.users[a.emails[e].user].verifiedAt.Some?
  }

  predicate SameSecondary(a: Accounts, e: Email, f: Email) {
    (e in a.emails && f in a.emails && a.emails[e].role == Secondary && a.emails[f].role == Secondary &&
     a.emails[e].user == a.emails[f].user) ==> e == f
  }

  /**
    An unused sign-up token belongs to an unverified user and went to its address; a token with an
    address, to a verified one.
   */
  predicate TokenFits(a: Accounts, next: Token, t: Token) {
    t in a.verifs ==>
      var row := a.verifs[t];
      && t < next && row.user in a.users && t in a.mailTo
      && match row.email
         case None => row.usedAt.None? ==> a.users[row.user].verifiedAt.None? && a.mailTo[t] == a.users[row.user].email
         case Some(e) => a.users[row.user].verifiedAt.Some? && a.mailTo[t] == e
  }

  predicate SameSignUp(a: Accounts, t: Token, s: Token) {
    (t in a.verifs && s in a.verifs && a.verifs[t].email.None? && a.verifs[s].email.None? &&
     a.verifs[t].user == a.verifs[s].user) ==> t == s
  }

  /** t is a token of the row's user, mailed to the address and used at the recorded instant, before its expiry. */
  predicate IsProof(a: Accounts, e: Email, t: Token) {
    && e in a.emails && t in a.verifs && t in a.mailTo
    && a.verifs[t].user == a.emails[e].user && a.mailTo[t] == e
    && a.verifs[t].usedAt == a.emails[e].verifiedAt
    && (a.verifs[t].usedAt.Some? ==> a.verifs[t].usedAt.value < a.verifs[t].expiresAt)
  }

  ghost predicate HasProof(a: Accounts, e: Email) {
    e in a.emails && a.emails[e].verifiedAt.Some? ==> exists t :: IsProof(a, e, t)
  }

  ghost predicate Agreement(a: Accounts, next: Token) {
    && (forall u {:trigger UserFits(a, next, u)} :: UserFits(a, next, u))
    && (forall e {:trigger EmailFits(a, e)} :: EmailFits(a, e))
    && (forall e, f {:trigger SameSecondary(a, e, f)} :: SameSecondary(a, e, f))
    && (forall t {:trigger TokenFits(a, next, t)} :: TokenFits(a, next, t))
    && (forall t, s {:trigger SameSignUp(a, t, s)} :: SameSignUp(a, t, s))
    && (forall e {:trigger HasProof(a, e)} :: HasProof(a, e))
  }

  /**
    b keeps the users it has, with their addresses; every row of b is one of a or a new pending
    secondary one of a verified user.
   */
  predicate RowStays(a: Accounts, b: Accounts, e: Email) {
    e in b.emails ==>
      if e in a.emails then b.emails[e] == a.emails[e] && b.emails[e].user in b.users
      else
        b.emails[e].role == Secondary && b.emails[e].verifiedAt.None? && b.emails[e].user in b.users
        && b.users[b.emails[e].user].verifiedAt.Some? && !a.HasSecondary(b.emails[e].user)
  }

  predicate UserStays(a: Accounts, b: Accounts, u: UserId) {
    u in b.users ==>
      && u in a.users && b.users[u].email == a.users[u].email && b.users[u].verifiedAt == a.users[u].verifiedAt
      && b.users[u].email in b.emails
  }

  /** A token of a remaining user stays, and a used one stays used. */
  predicate TokenStays(a: Accounts, b: Accounts, t: Token) {
    && (t in b.verifs ==>
        t in a.verifs && b.verifs[t].user in b.users && b.verifs[t] == a.verifs[t].(usedAt := b.verifs[t].usedAt) &&
                          (a.verifs[t].usedAt.Some? ==> b.verifs[t].usedAt == a.verifs[t].usedAt))
    && (t in a.verifs && a.verifs[t].user in b.users ==> t in b.verifs)
  }

  /** What the operations that verify no address have in common. */
  lemma FrameKeeps(a: Accounts, next: Token, b: Accounts)
    requires Agreement(a, next) && b.mailTo == a.mailTo
    requires forall u {:trigger UserStays(a, b, u)} :: UserStays(a, b, u)
    requires forall e {:trigger RowStays(a, b, e)} :: RowStays(a, b, e)
    requires forall t {:trigger TokenStays(a, b, t)} :: TokenStays(a, b, t)
    requires forall e, f :: e in b.emails && f in b.emails && e !in a.emails && f !in a.emails ==> e == f
    ensures Agreement(b, next)
  {
    forall u ensures UserFits(b, next, u) {
      assert UserStays(a, b, u) && UserFits(a, next, u);
      if u in b.users { assert RowStays(a, b, a.users[u].email); }
    }
    forall e ensures EmailFits(b, e) {
      assert EmailFits(a, e) && RowStays(a, b, e);
      if e in b.emails { assert UserStays(a, b, b.emails[e].user); }
    }
    forall e, f {:trigger SameSecondary(b, e, f)} ensures SameSecondary(b, e, f) {
      assert SameSecondary(a, e, f) && RowStays(a, b, e) && RowStays(a, b, f);
    }
    forall t ensures TokenFits(b, next, t) {
      assert TokenFits(a, next, t) && TokenStays(a, b, t);
      if t in b.verifs { assert UserStays(a, b, b.verifs[t].user); }
    }
    forall t, s {:trigger SameSignUp(b, t, s)} ensures SameSignUp(b, t, s) {
      assert SameSignUp(a, t, s) && TokenStays(a, b, t) && TokenStays(a, b, s);
    }
    forall e ensures HasProof(b, e) { ProofStays(a, b, e); }
  }

  lemma ProofStays(a: Accounts, b: Accounts, e: Email)
    requires HasProof(a, e) && RowStays(a, b, e) && b.mailTo == a.mailTo
    requires forall t {:trigger TokenStays(a, b, t)} :: TokenStays(a, b, t)
    ensures HasProof(b, e)
  {
    if e in a.emails && e in b.emails && a.emails[e].verifiedAt.Some? {
      var t :| IsProof(a, e, t);
      assert TokenStays(a, b, t) && IsProof(b, e, t);
    }
  }

  lemma CreateUserKeeps(a: Accounts, next: Token, user: User, b: Accounts)
    requires Agreement(a, next) && a.CreateUser(next, user) == Ok(b) && user.verifiedAt.None?
    ensures Agreement(b, next + 1)
    ensures next !in a.users && forall t :: t in b.verifs ==> b.verifs[t].user != next
  {
    var n := next + 1;
    assert UserFits(a, next, next);
    forall u ensures UserFits(b, n, u) { assert UserFits(a, next, u); }
    forall e ensures EmailFits(b, e) { assert EmailFits(a, e); }
    forall e, f {:trigger SameSecondary(b, e, f)} ensures SameSecondary(b, e, f) { assert SameSecondary(a, e, f); }
    forall t ensures TokenFits(b, n, t) { assert TokenFits(a, next, t); }
    forall t, s {:trigger SameSignUp(b, t, s)} ensures SameSignUp(b, t, s) { assert SameSignUp(a, t, s); }
    forall e ensures HasProof(b, e) {
      assert HasProof(a, e);
      if e in a.emails && a.emails[e].verifiedAt.Some? {
        var t :| IsProof(a, e, t);
        assert IsProof(b, e, t);
      }
    }
    forall t | t in b.verifs ensures b.verifs[t].user != next { assert TokenFits(a, next, t); }
  }

  lemma SignUpTokenKeeps(a: Accounts, next: Token, user: UserId, expires: Time)
    requires Agreement(a, next) && user in a.users && a.users[user].verifiedAt.None?
    requires forall t :: t in a.verifs ==> a.verifs[t].user != user
    ensures Agreement(a.CreateVerifyToken(next, VerifyToken(user, None, expires, None), a.users[user].email), next + 1)
  {
    var b := a.CreateVerifyToken(next, VerifyToken(user, None, expires, None), a.users[user].email);
    NewTokenKeeps(a, next, b);
  }

  lemma AddressTokenKeeps(a: Accounts, next: Token, user: UserId, email: Email, expires: Time)
    requires Agreement(a, next) && user in a.users && a.users[user].verifiedAt.Some?
    ensures Agreement(a.CreateVerifyToken(next, VerifyToken(user, Some(email), expires, None), email), next + 1)
  {
    var b := a.CreateVerifyToken(next, VerifyToken(user, Some(email), expires, None), email);
    NewTokenKeeps(a, next, b);
  }

  lemma NewTokenKeeps(a: Accounts, next: Token, b: Accounts)
    requires Agreement(a, next) && next in b.verifs && next in b.mailTo
    requires b == a.CreateVerifyToken(next, b.verifs[next], b.mailTo[next]) && b.verifs[next].usedAt.None?
    requires TokenFits(b, next + 1, next)
    requires b.verifs[next].email.None? ==> forall t :: t in a.verifs ==> a.verifs[t].user != b.verifs[next].user
    ensures Agreement(b, next + 1)
  {
    var n := next + 1;
    assert TokenFits(a, next, next);
    forall u ensures UserFits(b, n, u) { assert UserFits(a, next, u); }
    forall e ensures EmailFits(b, e) { assert EmailFits(a, e); }
    forall e, f {:trigger SameSecondary(b, e, f)} ensures SameSecondary(b, e, f) { assert SameSecondary(a, e, f); }
    forall t ensures TokenFits(b, n, t) { assert TokenFits(a, next, t); }
    forall t, s {:trigger SameSignUp(b, t, s)} ensures SameSignUp(b, t, s) { assert SameSignUp(a, t, s); }
    forall e ensures HasProof(b, e) {
      assert HasProof(a, e);
      if e in a.emails && a.emails[e].verifiedAt.Some? {
        var t :| IsProof(a, e, t);
        assert IsProof(b, e, t);
      }
    }
  }

  lemma ConsumeKeeps(a: Accounts, next: Token, t: Token, at: Time, b: Accounts, row: VerifyToken)
    requires Agreement(a, next) && a.ConsumeVerifyToken(t, at) == Ok((b, row))
    ensures Agreement(b, next)
  {
    forall u ensures UserStays(a, b, u) { assert UserFits(a, next, u); }
    forall e ensures RowStays(a, b, e) { assert EmailFits(a, e); }
    forall t' ensures TokenStays(a, b, t') { assert TokenFits(a, next, t'); }
    FrameKeeps(a, next, b);
  }

  lemma MarkVerifiedKeeps(a: Accounts, next: Token, t: Token, at: Time, b: Accounts, row: VerifyToken, email: Email,
                          c: Accounts)
    requires Agreement(a, next) && a.ConsumeVerifyToken(t, at) == Ok((b, row))
    requires row.email == Some(email) && b.MarkVerified(row.user, email, at) == Ok(c)
    ensures Agreement(c, next)
  {
    assert TokenFits(a, next, t) && EmailFits(a, email) && UserFits(a, next, row.user);
    MarkedKeeps(a, next, t, at, c, email);
  }

  lemma MarkEmailVerifiedKeeps(a: Accounts, next: Token, t: Token, at: Time, b: Accounts, row: VerifyToken, c: Accounts)
    requires Agreement(a, next) && a.ConsumeVerifyToken(t, at) == Ok((b, row))
    requires row.email.None? && b.MarkEmailVerified(row.user, at) == Ok(c)
    ensures Agreement(c, next)
  {
    var email := a.users[row.user].email;
    assert TokenFits(a, next, t) && EmailFits(a, email) && UserFits(a, next, row.user);
    forall e | e in a.emails && e != email ensures c.emails[e] == a.emails[e] { assert EmailFits(a, e); }
    assert c.emails == a.emails[email := a.emails[email].(verifiedAt := Some(at))];
    MarkedKeeps(a, next, t, at, c, email);
  }

  /** c: the token is used and the address it went to is verified at the same instant. */
  lemma MarkedKeeps(a: Accounts, next: Token, t: Token, at: Time, c: Accounts, email: Email)
    requires Agreement(a, next) && t in a.verifs && a.verifs[t].usedAt.None? && at < a.verifs[t].expiresAt
    requires email in a.emails && a.emails[email].user == a.verifs[t].user && a.emails[email].verifiedAt.None?
    requires t in a.mailTo && a.mailTo[t] == email && c.mailTo == a.mailTo
    requires c.verifs == a.verifs[t := a.verifs[t].(usedAt := Some(at))]
    requires c.emails == a.emails[email := a.emails[email].(verifiedAt := Some(at))]
    requires var u := a.verifs[t].user;
             (u in a.users &&
              match a.verifs[t].email
              case Some(_) => c.users == a.users
              case None =>
                a.users[u].email == email &&
                c.users == a.users[u := a.users[u].(status := Active, verifiedAt := Some(at))])
    ensures Agreement(c, next)
  {
    assert TokenFits(a, next, t) && EmailFits(a, email) && UserFits(a, next, a.verifs[t].user);
    var b := c;
    forall u ensures UserFits(b, next, u) { assert UserFits(a, next, u); }
    forall e ensures EmailFits(b, e) { assert EmailFits(a, e); }
    forall e, f {:trigger SameSecondary(b, e, f)} ensures SameSecondary(b, e, f) { assert SameSecondary(a, e, f); }
    forall t' ensures TokenFits(b, next, t') { assert TokenFits(a, next, t');
      assert SameSignUp(a, t, t'); }
    forall t', s {:trigger SameSignUp(b, t', s)} ensures SameSignUp(b, t', s) { assert SameSignUp(a, t', s); }
    forall e ensures HasProof(b, e) {
      assert HasProof(a, e);
      if e == email {
        assert IsProof(b, e, t);
      } else if e in b.emails && b.emails[e].verifiedAt.Some? {
        var t' :| IsProof(a, e, t');
        assert IsProof(b, e, t');
      }
    }
  }

  lemma InsertPendingKeeps(a: Accounts, next: Token, user: UserId, email: Email, b: Accounts)
    requires Agreement(a, next) && a.InsertPendingSecondary(user, email) == Ok(b) && a.users[user].verifiedAt.Some?
    ensures Agreement(b, next)
  {
    forall u ensures UserStays(a, b, u) { assert UserFits(a, next, u); }
    forall e ensures RowStays(a, b, e) { assert EmailFits(a, e); }
    forall t ensures TokenStays(a, b, t) { assert TokenFits(a, next, t); }
    FrameKeeps(a, next, b);
  }

  lemma DeletePendingKeeps(a: Accounts, next: Token, user: UserId, b: Accounts)
    requires Agreement(a, next) && a.DeletePendingSecondary(user) == Ok(b)
    ensures Agreement(b, next)
  {
    forall u ensures UserStays(a, b, u) { assert UserFits(a, next, u); }
    forall e ensures RowStays(a, b, e) { assert EmailFits(a, e); }
    forall t ensures TokenStays(a, b, t) { assert TokenFits(a, next, t); }
    FrameKeeps(a, next, b);
  }

  lemma DeleteUserKeeps(a: Accounts, next: Token, user: UserId, b: Accounts)
    requires Agreement(a, next) && a.DeleteUser(user) == Ok(b)
    ensures Agreement(b, next)
  {
    forall u ensures UserStays(a, b, u) { assert UserFits(a, next, u); }
    forall e ensures RowStays(a, b, e) { assert EmailFits(a, e); }
    forall t ensures TokenStays(a, b, t) { assert TokenFits(a, next, t); }
    FrameKeeps(a, next, b);
  }

  /** Deleting the secondary row, or deleting the primary row and promoting the other one. */
  lemma DeleteVerifiedKeeps(a: Accounts, next: Token, user: UserId, email: Email, b: Accounts)
    requires Agreement(a, next) && a.DeleteVerified(user, email) == Ok(b)
    ensures Agreement(b, next)
  {
    assert EmailFits(a, email) && UserFits(a, next, user);
    var other := if a.emails[email].role == Primary then a.Survivor(user, email).value else email;
    assert EmailFits(a, other);
    forall u ensures UserFits(b, next, u) { assert UserFits(a, next, u); }
    forall e ensures EmailFits(b, e) { assert EmailFits(a, e) && SameSecondary(a, e, other); }
    forall e, f {:trigger SameSecondary(b, e, f)} ensures SameSecondary(b, e, f) { assert SameSecondary(a, e, f); }
    forall t ensures TokenFits(b, next, t) { assert TokenFits(a, next, t); }
    forall t, s {:trigger SameSignUp(b, t, s)} ensures SameSignUp(b, t, s) { assert SameSignUp(a, t, s); }
    forall e ensures HasProof(b, e) {
      assert HasProof(a, e);
      if e in b.emails && b.emails[e].verifiedAt.Some? {
        var t :| IsProof(a, e, t);
        assert IsProof(b, e, t);
      }
    }
  }

  /** Passwords and status are not part of the agreement. */
  lemma SameAddressesKeep(a: Accounts, next: Token, user: UserId, b: Accounts)
    requires Agreement(a, next) && user in a.users && user in b.users
    requires b == a.(users := a.users[user := b.users[user]])
    requires b.users[user].email == a.users[user].email && b.users[user].verifiedAt == a.users[user].verifiedAt
    ensures Agreement(b, next)
  {
    forall u ensures UserStays(a, b, u) { assert UserFits(a, next, u); }
    forall e ensures RowStays(a, b, e) { assert EmailFits(a, e); }
    forall t ensures TokenStays(a, b, t) { assert TokenFits(a, next, t); }
    FrameKeeps(a, next, b);
  }

  /** Time passes and other tables grow. */
  lemma LaterIdsKeep(a: Accounts, next: Token, later: Token)
    requires Agreement(a, next) && next <= later
    ensures Agreement(a, later)
  {
    forall u ensures UserFits(a, later, u) { assert UserFits(a, next, u); }
    forall t ensures TokenFits(a, later, t) { assert TokenFits(a, next, t); }
  }
}
