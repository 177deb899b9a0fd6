/** When a login succeeds, and what the issued tokens say. */
module SignIn {
  import opened Domain
  import opened Tables
  import opened UseCases
  import opened Machine
  import opened AccountEmails
  import opened AccountRuns
  import opened Laws
  import opened Suspension
  import Scopes

  /** e is a verified address of u, whose password this is, and u is not suspended. */
  predicate MaySignIn(env: Env, a: Accounts, e: Email, password: string, u: UserId) {
    e in a.Verified(u) && u in a.users && a.users[u].status != Suspended && env.verify(a.users[u].hash, password)
  }

  /**
    A login opens a session exactly for a verified address of a user who is not suspended and
    whose password it is. Every other answer is the same: it does not tell an unknown address from a
    wrong password, and the answer for an unverified user is never given.
   */
  lemma LoginSucceedsIff(env: Env, ss: seq<Db>, es: seq<Event>, n: nat, raw: string, password: string, captchaOk: bool)
    requires IsRun(env, ss, es) && n < |es| && es[n].act == Credential(DoLogin(raw, password, captchaOk))
    ensures var out := Output(env, ss, es, n);
            out != Failed(Forbidden) &&
            (captchaOk && es[n].cut > 0 ==> out.SessionOpened? || out == Failed(InvalidCredentials)) &&
            (out.SessionOpened? <==>
               captchaOk && password != "" && es[n].cut > 0 && env.parseEmail(raw).Some? &&
               exists u :: MaySignIn(env, ss[n].accounts, env.parseEmail(raw).value, password, u))
  {
    hide Agreement;
    AgreesAlways(env, ss, es, n);
    var a := ss[n].accounts;
    if env.parseEmail(raw).Some? {
      var e := env.parseEmail(raw).value;
      VerifiedRowVerifiedUser(a, ss[n].next, e);
      if a.ByEmail(e).Some? {
        assert MaySignIn(env, a, e, password, a.ByEmail(e).value) <==>
               a.users[a.ByEmail(e).value].status != Suspended &&
                   env.verify(a.users[a.ByEmail(e).value].hash, password);
      }
      assert forall u: UserId :: e in a.Verified(u) ==> a.ByEmail(e) == Some(u);
    }
  }

  lemma VerifiedRowVerifiedUser(a: Accounts, next: Token, e: Email)
    requires Agreement(a, next)
    ensures e in a.emails && a.emails[e].verifiedAt.Some? ==>
              a.emails[e].user in a.users && a.users[a.emails[e].user].verifiedAt.Some?
  {
    if e in a.emails {
      assert EmailFits(a, e) && UserFits(a, next, a.emails[e].user);
    }
  }

  /** The request came from this client. */
  predicate IsAskedFor(a: GrantAction, client: ClientId) {
    match a
    case DoExchange(x) => x.client == client
    case DoRefresh(_, id, _) => id == client
    case _ => false
  }

  lemma TokensNameTheUser(env: Env, db: Db, at: Clock, cut: nat, a: GrantAction)
    requires GrantStep(env, db, at, cut, a).1.TokensIssued?
    ensures var access := GrantStep(env, db, at, cut, a).1.access;
            access.sub in db.accounts.users &&
            access == Claims(access.sub, access.aud, db.accounts.users[access.sub].email, true,
                             db.accounts.users[access.sub].role, at.second + ACCESS_TOKEN_TTL) &&
            IsAskedFor(a, access.aud)
  {
    hide AuthenticatesClient, CodeMatches;
  }

  /**
    An access token is made out to the asking client and names the user with its role and its primary
    address, which is verified; it expires after fifteen minutes.
   */
  lemma AccessTokensNameThePrimaryAddress(env: Env, ss: seq<Db>, es: seq<Event>, n: nat)
    requires IsRun(env, ss, es) && n < |es| && Output(env, ss, es, n).TokensIssued?
    ensures var access := Output(env, ss, es, n).access; var a := ss[n].accounts;
            es[n].act.Grants? && IsAskedFor(es[n].act.grant, access.aud) && access.sub in a.users &&
            access == Claims(access.sub, access.aud, access.email, true, a.users[access.sub].role,
                             es[n].at.second + 15 * MINUTE) &&
            access.email in a.emails && a.emails[access.email].user == access.sub &&
            a.emails[access.email].role == Primary &&
            a.emails[access.email].verifiedAt.Some?
  {
    hide Agreement, GrantStep, MailStep, EntryStep, CredentialStep, ClientStep;
    AgreesAlways(env, ss, es, n);
    TokensGoToAuthorizedUsers(env, ss[n], es[n]);
    TokensNameTheUser(env, ss[n], es[n].at, es[n].cut, es[n].act.grant);
    PrimaryRow(ss[n].accounts, ss[n].next, Output(env, ss, es, n).access.sub);
  }

  lemma PrimaryRow(a: Accounts, next: Token, u: UserId)
    requires Agreement(a, next) && u in a.users
    ensures a.users[u].email in a.emails && a.emails[a.users[u].email] == EmailRow(u, Primary, a.users[u].verifiedAt)
  {
    assert UserFits(a, next, u);
  }

  /**
    A code exchange answers with a refresh token, and stores one, exactly when the granted scope
    includes offline_access.
   */
  lemma RefreshTokenIffOfflineAccess(env: Env, ss: seq<Db>, es: seq<Event>, n: nat, x: ExchangeInput)
    requires IsRun(env, ss, es) && n < |es| && es[n].act == Action.Grants(DoExchange(x)) &&
             Output(env, ss, es, n).TokensIssued?
    ensures x.code in ss[n].grants.codes
    ensures var out := Output(env, ss, es, n); var g, h := ss[n].grants, ss[n + 1].grants;
            out.scope == g.codes[x.code].scope &&
            (out.refresh.Some? <==> "offline_access" in Scopes.Fields(out.scope)) &&
            (if out.refresh.None? then h.refresh == g.refresh
             else
               out.refresh.value !in g.refresh &&
               h.refresh == g.refresh[out.refresh.value :=
                 Refresh(out.access.sub, out.access.aud, out.scope, es[n].at.second + 30 * DAY, None)])
  {
    hide AuthenticatesClient, CodeMatches, Scopes.Fields;
    FreshAlways(env, ss, es, n);
    assert FreshAt(ss[n], ss[n].next);
  }
}
