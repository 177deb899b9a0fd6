/**
  A login checks the password and then inserts the session: a password change that completes in
  between does not see the session that comes after it.
 */
module LoginRace {
  import opened Domain
  import opened Tables
  import opened UseCases
  import opened Machine
  import opened Laws
  import opened SessionPasswords
  import opened SampleRuns
  import opened SplitUseCases

  /** The insert comes after the user got another password than the one that was checked. */
  predicate IsLate(w: World, m: Move) {
    m.Open? && m.id in w.logins && w.logins[m.id].user in w.db.accounts.users &&
    w.db.accounts.users[w.logins[m.id].user].hash != w.logins[m.id].hash
  }

  /** The move leaves session t live with another password than its user's. */
  predicate Breaks(env: Env, w: World, m: Move, t: Token) {
    match m
    case Open(_, _) => IsLate(w, m) && t == w.db.next
    case Serve(e) => Strands(env, w.db, e, t)
    case _ => false
  }

  lemma OtherMovesKeepSessions(env: Env, w: World, m: Move)
    requires !m.Serve? && !m.Open?
    ensures Apply(env, w, m).db.sessions == w.db.sessions && Apply(env, w, m).db.accounts == w.db.accounts
  {
    hide Passes, AuthenticatesClient, CodeMatches, Stores;
  }

  lemma OpenFitsIff(env: Env, w: World, m: Move, t: Token)
    requires m.Open? && w.db.next !in w.db.sessions.rows && SessionFits(w.db, t)
    ensures SessionFits(Apply(env, w, m).db, t) <==> !Breaks(env, w, m, t)
  {
  }

  lemma MoveFitsIff(env: Env, w: World, m: Move, t: Token)
    requires Fresh(w.db) && SessionFits(w.db, t)
    ensures SessionFits(Apply(env, w, m).db, t) <==> !Breaks(env, w, m, t)
  {
    hide Next, Strands, OpenSession, TakeCode, TakeRefresh, StoreToken, Passes, Stores;
    assert FreshAt(w.db, w.db.next);
    match m
    case Serve(e) => StepFitsIff(env, w.db, e, t);
    case Open(_, _) => OpenFitsIff(env, w, m, t);
    case _ => OtherMovesKeepSessions(env, w, m);
  }

  ghost predicate NeverBreaks(env: Env, ws: seq<World>, ms: seq<Move>, n: nat)
    requires n <= |ms| <= |ws|
  {
    forall i, t {:trigger Breaks(env, ws[i], ms[i], t)} :: 0 <= i < n ==> !Breaks(env, ws[i], ms[i], t)
  }

  lemma NoSessions()
    ensures SessionsFit(Empty())
  {
  }

  lemma {:induction false} FitsUnlessBroken(env: Env, ws: seq<World>, ms: seq<Move>, n: nat)
    requires IsTrace(env, ws, ms) && n <= |ms| && NeverBreaks(env, ws, ms, n)
    ensures forall i :: 0 <= i <= n ==> SessionsFit(ws[i].db)
  {
    hide Act, SessionFits, Breaks, Fresh;
    if n == 0 {
      NoSessions();
    } else {
      FitsUnlessBroken(env, ws, ms, n - 1);
      FreshInTrace(env, ws, ms, n - 1);
      assert ws[n] == Apply(env, ws[n - 1], ms[n - 1]);
      forall t ensures SessionFits(ws[n].db, t) {
        assert SessionFits(ws[n - 1].db, t);
        MoveFitsIff(env, ws[n - 1], ms[n - 1], t);
      }
    }
  }

  /**
    With logins and token requests interleaved, every live session has the password its user still
    has, in every state, if and only if no insert is late and no password change is cut off after
    storing the new hash.
   */
  lemma SessionsFitIffNeverLate(env: Env, ws: seq<World>, ms: seq<Move>)
    requires IsTrace(env, ws, ms)
    ensures (forall i :: 0 <= i < |ws| ==> SessionsFit(ws[i].db)) <==> NeverBreaks(env, ws, ms, |ms|)
  {
    hide Act, SessionFits, Breaks, Fresh;
    if NeverBreaks(env, ws, ms, |ms|) {
      FitsUnlessBroken(env, ws, ms, |ms|);
    }
    if forall i :: 0 <= i < |ws| ==> SessionsFit(ws[i].db) {
      forall i, t {:trigger Breaks(env, ws[i], ms[i], t)} | 0 <= i < |ms| ensures !Breaks(env, ws[i], ms[i], t) {
        assert SessionsFit(ws[i].db) && SessionsFit(ws[i + 1].db) && ws[i + 1] == Apply(env, ws[i], ms[i]);
        assert SessionFits(ws[i].db, t) && SessionFits(ws[i + 1].db, t);
        FreshInTrace(env, ws, ms, i);
        MoveFitsIff(env, ws[i], ms[i], t);
      }
    }
  }

  /** The event is a password change or reset that gives u a hash. */
  ghost predicate Replaces(env: Env, w: World, m: Move, u: UserId) {
    m.Serve? && exists hash :: SetsPassword(env, w.db, m.event, u, hash)
  }

  /**
    An insert is late only if, since its check, a step replaced the password with proof of the old one
    or a reset token.
   */
  lemma {:induction false} LateOnlyAfterReplacement(env: Env, ws: seq<World>, ms: seq<Move>, c: nat, n: nat, u: UserId,
                                                    hash: string)
    requires IsTrace(env, ws, ms) && c <= n < |ws| && u in ws[c].db.accounts.users && u in ws[n].db.accounts.users
    requires ws[c].db.accounts.users[u].hash == hash && ws[n].db.accounts.users[u].hash != hash
    ensures exists m :: c <= m < n && Replaces(env, ws[m], ms[m], u)
    decreases n
  {
    hide Act, Fresh;
    if c < n {
      FreshInTrace(env, ws, ms, n - 1);
      assert ws[n] == Apply(env, ws[n - 1], ms[n - 1]);
      UserThere(env, ws, ms, c, n, u);
      if ws[n - 1].db.accounts.users[u].hash != hash {
        LateOnlyAfterReplacement(env, ws, ms, c, n - 1, u, hash);
      } else {
        HashReplaced(env, ws[n - 1], ms[n - 1], u);
      }
    }
  }

  lemma HashReplaced(env: Env, w: World, m: Move, u: UserId)
    requires Fresh(w.db) && u in w.db.accounts.users && u in Apply(env, w, m).db.accounts.users
    requires Apply(env, w, m).db.accounts.users[u].hash != w.db.accounts.users[u].hash
    ensures Replaces(env, w, m, u)
  {
    hide Next, Fresh, Passes, OpenSession, TakeCode, TakeRefresh, StoreToken, Stores;
    if m.Serve? {
      UserLaw(env, w.db, m.event, u);
    } else {
      MovesKeepAccounts(env, w, m);
    }
  }

  /** Ids are not reused in a trace either. */
  lemma UserThere(env: Env, ws: seq<World>, ms: seq<Move>, c: nat, n: nat, u: UserId)
    requires IsTrace(env, ws, ms) && c < n < |ws| && u in ws[c].db.accounts.users && u in ws[n].db.accounts.users
    ensures u in ws[n - 1].db.accounts.users
  {
    hide Act, Fresh;
    FreshInTrace(env, ws, ms, c);
    FreshInTrace(env, ws, ms, n - 1);
    KeyBelow(ws[c].db, u);
    BoundGrows(env, ws, ms, c, n - 1);
    assert ws[n] == Apply(env, ws[n - 1], ms[n - 1]);
    NewUsersAreFresh(env, ws[n - 1], ms[n - 1], u);
  }

  lemma NewUsersAreFresh(env: Env, w: World, m: Move, u: UserId)
    requires Fresh(w.db) && u in Apply(env, w, m).db.accounts.users
    ensures u !in w.db.accounts.users ==> u >= w.db.next
  {
    hide Next, Fresh, Passes, OpenSession, TakeCode, TakeRefresh, StoreToken, Stores;
    if m.Serve? {
      UserLaw(env, w.db, m.event, u);
    } else {
      MovesKeepAccounts(env, w, m);
    }
  }

  lemma KeyBelow(db: Db, u: UserId)
    requires Fresh(db) && u in db.accounts.users
    ensures u < db.next
  {
    assert FreshAt(db, u);
  }

  // ---- it happens ----

  function FullChange(): Event {
    Do(3, Credential(DoChangePassword(ChangeInput(2, FIRST_PASSWORD, SECOND_PASSWORD, SECOND_PASSWORD,
                                                  SECOND_PASSWORD))))
  }

  function ChangedDb(): Db {
    Verified().(accounts :=
                Verified().accounts.(users := map[2 := User(ADDRESS, SECOND_PASSWORD, RoleUser, Active, Some(0))]))
  }

  lemma ChangeCompletes()
    ensures Next(Plain(), Verified(), FullChange()) == (ChangedDb(), Done)
  {
    assert Verified().sessions.RevokeAll(2, 0) == Verified().sessions;
    assert Verified().grants.RevokeAllRefresh(2, 0) == Verified().grants;
    var users := Verified().accounts.users;
    assert users[2 := users[2].(hash := SECOND_PASSWORD)] == ChangedDb().accounts.users;
  }

  lemma OpenedLate()
    ensures var b := OpenSession(Plain(), ChangedDb(), Checked(2, FIRST_PASSWORD), 0);
            !SessionsFit(b) && ResolveSession(b, 1, 4) == Some(2)
  {
    assert !SessionFits(OpenSession(Plain(), ChangedDb(), Checked(2, FIRST_PASSWORD), 0), 4);
  }

  lemma CheckPasses()
    ensures Passes(Plain(), Verified(), ADDRESS.address, FIRST_PASSWORD) == Some(2) &&
            Verified().accounts.users[2].hash == FIRST_PASSWORD
  {
  }

  lemma LateMoves(w: World)
    requires w.db == Verified() && w.logins == map[]
    ensures var checked := Apply(Plain(), w, Check(7, ADDRESS.address, FIRST_PASSWORD));
            Apply(Plain(), Apply(Plain(), checked, Serve(FullChange())), Open(7, 0)).db ==
            OpenSession(Plain(), ChangedDb(), Checked(2, FIRST_PASSWORD), 0)
  {
    hide Next, OpenSession, Passes, FullChange;
    ChangeCompletes();
    CheckPasses();
  }

  function LateLogin(): seq<Move> {
    ServeAll(VerifyEvents()) + [Check(7, ADDRESS.address, FIRST_PASSWORD)] + [Serve(FullChange())] + [Open(7, 0)]
  }

  /**
    From an empty database: a change completes between check and insert, and the session opened with
    the old password resolves.
   */
  lemma SessionOpensAfterTheChange()
    ensures IsTrace(Plain(), Worlds(Plain(), LateLogin()), LateLogin())
    ensures var b := Play(Plain(), LateLogin()).db; !SessionsFit(b) && ResolveSession(b, 1, 4) == Some(2)
    ensures Next(Plain(), Verified(), FullChange()).1 == Done
  {
    hide Apply, After, Next, Play, SessionsFit, OpenSession;
    SignInRun();
    ChangeCompletes();
    var env, ms := Plain(), ServeAll(VerifyEvents());
    PlayServed(env, VerifyEvents());
    PlayMore(env, ms, Check(7, ADDRESS.address, FIRST_PASSWORD));
    PlayMore(env, ms + [Check(7, ADDRESS.address, FIRST_PASSWORD)], Serve(FullChange()));
    PlayMore(env, ms + [Check(7, ADDRESS.address, FIRST_PASSWORD)] + [Serve(FullChange())], Open(7, 0));
    LateMoves(Play(env, ms));
    OpenedLate();
    WorldsAreATrace(env, LateLogin());
  }
}
