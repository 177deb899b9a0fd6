/**
  A token request consumes what it was given, then reads the user, then stores the replacement: a
  revocation that completes in between does not see the refresh token that comes after it.
 */
module GrantRace {
  import opened Domain
  import opened Tables
  import opened UseCases
  import opened Machine
  import opened Laws
  import opened GrantLaws
  import opened Revocation
  import opened SampleRuns
  import opened SplitUseCases
  import Counterexamples
  import Scopes

  predicate IsLive(db: Db, t: Token) { t in db.grants.refresh && db.grants.refresh[t].revokedAt.None? }

  /**
    What a live refresh token was issued for was presented after the last completed revocation of its
    user's tokens.
   */
  predicate TokenFits(w: World, t: Token) {
    IsLive(w.db, t) ==>
      && t in w.provedAt && w.provedAt[t] < w.moves
      && (w.db.grants.refresh[t].user in w.revokedAt ==> w.revokedAt[w.db.grants.refresh[t].user] < w.provedAt[t])
  }

  ghost predicate TokensFit(w: World) {
    forall t {:trigger TokenFits(w, t)} :: TokenFits(w, t)
  }

  /** The replacement is stored after a revocation that completed since the presentation. */
  predicate IsLate(w: World, m: Move) {
    && m.Store? && m.id in w.grants && Stores(w.db, w.grants[m.id])
    && w.grants[m.id].user in w.revokedAt && w.grants[m.id].move < w.revokedAt[w.grants[m.id].user]
  }

  // ---- move numbers ----

  /** Recorded moves have happened; a presentation and a revocation are different moves. */
  predicate HeldFits(w: World, id: nat) {
    id in w.grants ==>
      && w.grants[id].move < w.moves
      && (w.grants[id].user in w.revokedAt ==> w.revokedAt[w.grants[id].user] != w.grants[id].move)
  }

  predicate RevocationFits(w: World, u: UserId) { u in w.revokedAt ==> w.revokedAt[u] < w.moves }

  ghost predicate Counted(w: World) {
    && (forall id {:trigger HeldFits(w, id)} :: HeldFits(w, id))
    && (forall u {:trigger RevocationFits(w, u)} :: RevocationFits(w, u))
  }

  lemma MoveCounts(env: Env, w: World, m: Move)
    requires Counted(w)
    ensures Counted(Apply(env, w, m))
  {
    hide Next, Revokes, OpenSession, StoreToken, Stores, Passes, AuthenticatesClient, CodeMatches;
    var b := Apply(env, w, m);
    forall u ensures RevocationFits(b, u) { assert RevocationFits(w, u); }
    forall id ensures HeldFits(b, id) {
      assert HeldFits(w, id);
      if id in b.grants { assert RevocationFits(w, b.grants[id].user); }
    }
  }

  lemma {:induction false} CountedInTrace(env: Env, ws: seq<World>, ms: seq<Move>, i: nat)
    requires IsTrace(env, ws, ms) && i < |ws|
    ensures Counted(ws[i])
  {
    hide Act, HeldFits, RevocationFits;
    if i == 0 {
      NothingCounted();
    } else {
      CountedInTrace(env, ws, ms, i - 1);
      assert ws[i] == Apply(env, ws[i - 1], ms[i - 1]);
      MoveCounts(env, ws[i - 1], ms[i - 1]);
    }
  }

  lemma NothingCounted()
    ensures Counted(Start()) && TokensFit(Start())
  {
  }

  // ---- one move ----

  lemma RevokesTarget(env: Env, db: Db, e: Event, u: UserId)
    requires Revokes(env, db, e, u)
    ensures Target(db, e) == Some(u) && !e.act.Grants?
  {
  }

  lemma ServedFits(env: Env, w: World, e: Event, t: Token)
    requires Fresh(w.db) && TokenFits(w, t)
    requires forall u {:trigger RevocationFits(w, u)} :: RevocationFits(w, u)
    ensures TokenFits(Apply(env, w, Serve(e)), t)
  {
    hide Next, Revokes, Issues, Fresh;
    var b := Apply(env, w, Serve(e));
    RefreshLaw(env, w.db, e, t);
    var u := Target(w.db, e);
    if u.Some? && Revokes(env, w.db, e, u.value) {
      RevokesTarget(env, w.db, e, u.value);
      StepRevokes(env, w.db, e, u.value, t);
    }
    if t in b.db.grants.refresh {
      assert RevocationFits(w, b.db.grants.refresh[t].user);
      if t !in w.db.grants.refresh {
        IssuingIsGranting(w.db, e, t, b.db.grants.refresh[t], b.db.grants.lineage[t]);
      }
    }
  }

  lemma IssuingIsGranting(db: Db, e: Event, t: Token, row: Refresh, origin: Origin)
    requires Issues(db, e, t, row, origin)
    ensures e.act.Grants?
  {
  }

  lemma StoreKeepsOthers(env: Env, w: World, m: Move, t: Token)
    requires m.Store? && t != w.db.next && TokenFits(w, t)
    ensures TokenFits(Apply(env, w, m), t)
  {
    hide Stores;
  }

  lemma StoreFitsIff(env: Env, w: World, m: Move)
    requires m.Store? && w.db.next !in w.db.grants.refresh && HeldFits(w, m.id)
    ensures TokenFits(Apply(env, w, m), w.db.next) <==> !IsLate(w, m)
  {
    hide Stores;
  }

  lemma OtherMovesFit(env: Env, w: World, m: Move, t: Token)
    requires !m.Serve? && !m.Store? && TokenFits(w, t)
    ensures TokenFits(Apply(env, w, m), t)
  {
    hide AuthenticatesClient, CodeMatches, Passes, Stores;
  }

  lemma MoveFitsIff(env: Env, w: World, m: Move, t: Token)
    requires Fresh(w.db) && Counted(w) && TokenFits(w, t)
    ensures TokenFits(Apply(env, w, m), t) <==> !(IsLate(w, m) && t == w.db.next)
  {
    hide Act, Stores, TokenFits, HeldFits, RevocationFits;
    assert FreshAt(w.db, w.db.next);
    match m
    case Serve(e) => ServedFits(env, w, e, t);
    case Store(id, _) =>
      assert HeldFits(w, id);
      if t == w.db.next { StoreFitsIff(env, w, m); } else { StoreKeepsOthers(env, w, m, t); }
    case _ => OtherMovesFit(env, w, m, t);
  }

  // ---- traces ----

  ghost predicate NeverLate(ws: seq<World>, ms: seq<Move>, n: nat)
    requires n <= |ms| <= |ws|
  {
    forall i :: 0 <= i < n ==> !IsLate(ws[i], ms[i])
  }

  lemma {:induction false} FitsUnlessLate(env: Env, ws: seq<World>, ms: seq<Move>, n: nat)
    requires IsTrace(env, ws, ms) && n <= |ms| && NeverLate(ws, ms, n)
    ensures forall i :: 0 <= i <= n ==> TokensFit(ws[i])
  {
    hide Act, TokenFits, IsLate, Fresh, Counted;
    if n == 0 {
      NothingCounted();
    } else {
      FitsUnlessLate(env, ws, ms, n - 1);
      FreshInTrace(env, ws, ms, n - 1);
      CountedInTrace(env, ws, ms, n - 1);
      assert ws[n] == Apply(env, ws[n - 1], ms[n - 1]);
      forall t ensures TokenFits(ws[n], t) {
        assert TokenFits(ws[n - 1], t);
        MoveFitsIff(env, ws[n - 1], ms[n - 1], t);
      }
    }
  }

  /**
    With token requests and logins interleaved with any use cases: every live refresh token was issued
    for something presented after the last completed revocation of its user's tokens, in every state,
    if and only if no replacement is stored late.
   */
  lemma TokensFitIffNeverLate(env: Env, ws: seq<World>, ms: seq<Move>)
    requires IsTrace(env, ws, ms)
    ensures (forall i :: 0 <= i < |ws| ==> TokensFit(ws[i])) <==> NeverLate(ws, ms, |ms|)
  {
    hide Act, TokenFits, IsLate, Fresh, Counted;
    if NeverLate(ws, ms, |ms|) {
      FitsUnlessLate(env, ws, ms, |ms|);
    }
    if forall i :: 0 <= i < |ws| ==> TokensFit(ws[i]) {
      forall i | 0 <= i < |ms| ensures !IsLate(ws[i], ms[i]) {
        var t := ws[i].db.next;
        assert TokensFit(ws[i]) && TokensFit(ws[i + 1]) && ws[i + 1] == Apply(env, ws[i], ms[i]);
        assert TokenFits(ws[i], t) && TokenFits(ws[i + 1], t);
        FreshInTrace(env, ws, ms, i);
        CountedInTrace(env, ws, ms, i);
        MoveFitsIff(env, ws[i], ms[i], t);
      }
    }
  }

  // ---- what the recorded move numbers say ----

  /** Move m presents the code or refresh token, split or in one use case. */
  predicate PresentsOrigin(m: Move, origin: Origin) {
    match m
    case PresentCode(_, x, _) => origin == FromCode(x.code)
    case PresentRefresh(_, t, _, _, _) => origin == FromRefresh(t)
    case Serve(e) =>
      (match e.act
       case Grants(DoExchange(x)) => origin == FromCode(x.code)
       case Grants(DoRefresh(t, _, _)) => origin == FromRefresh(t)
       case _ => false)
    case _ => false
  }

  predicate RevocationRecorded(w: World, u: UserId) { u in w.revokedAt }

  /** A recorded revocation is a completed one of that user, at that move. */
  lemma {:induction false} RevocationsHappened(env: Env, ws: seq<World>, ms: seq<Move>, n: nat, u: UserId)
    requires IsTrace(env, ws, ms) && n < |ws| && RevocationRecorded(ws[n], u)
    ensures var r := ws[n].revokedAt[u]; r < n && ms[r].Serve? && Revokes(env, ws[r].db, ms[r].event, u)
  {
    hide Act, Revokes;
    if n > 0 {
      FreshInTrace(env, ws, ms, n - 1);
      assert ws[n] == Apply(env, ws[n - 1], ms[n - 1]);
      RevocationKept(env, ws[n - 1], ms[n - 1], u);
      if RevocationRecorded(ws[n - 1], u) {
        RevocationsHappened(env, ws, ms, n - 1, u);
      }
    }
  }

  lemma RevocationKept(env: Env, w: World, m: Move, u: UserId)
    ensures (m.Serve? && Revokes(env, w.db, m.event, u)) || RevocationRecorded(w, u) ==>
              RevocationRecorded(Apply(env, w, m), u)
    ensures var b := Apply(env, w, m);
            RevocationRecorded(b, u) ==>
              if m.Serve? && Revokes(env, w.db, m.event, u) then b.revokedAt[u] == w.moves
              else RevocationRecorded(w, u) && b.revokedAt[u] == w.revokedAt[u]
  {
    hide Next, Revokes, OpenSession, TakeCode, TakeRefresh, StoreToken, Stores, Passes;
    if m.Serve? && Revokes(env, w.db, m.event, u) {
      RevokesTarget(env, w.db, m.event, u);
    }
  }

  /** What a request holds was presented at the recorded move. */
  lemma {:induction false} HeldWasPresented(env: Env, ws: seq<World>, ms: seq<Move>, n: nat, id: nat)
    requires IsTrace(env, ws, ms) && n < |ws| && id in ws[n].grants
    ensures var x := ws[n].grants[id]; x.move < n && PresentsOrigin(ms[x.move], x.origin)
  {
    hide Act;
    if n > 0 {
      FreshInTrace(env, ws, ms, n - 1);
      assert ws[n] == Apply(env, ws[n - 1], ms[n - 1]);
      HeldStep(env, ws[n - 1], ms[n - 1], id);
      if id in ws[n - 1].grants && ws[n].grants[id].move == ws[n - 1].grants[id].move &&
          ws[n].grants[id].origin == ws[n - 1].grants[id].origin {
        HeldWasPresented(env, ws, ms, n - 1, id);
      }
    }
  }

  lemma HeldStep(env: Env, w: World, m: Move, id: nat)
    requires id in Apply(env, w, m).grants
    ensures var y := Apply(env, w, m).grants[id];
            (id in w.grants && y.move == w.grants[id].move && y.origin == w.grants[id].origin) ||
            (y.move == w.moves && PresentsOrigin(m, y.origin))
  {
    hide Next, Revokes, OpenSession, StoreToken, Stores, Passes, AuthenticatesClient, CodeMatches;
  }

  /** A late store has a completed revocation of the user between its presentation and itself. */
  lemma LateMeansRevokedInBetween(env: Env, ws: seq<World>, ms: seq<Move>, n: nat)
    requires IsTrace(env, ws, ms) && n < |ms| && IsLate(ws[n], ms[n])
    ensures var x := ws[n].grants[ms[n].id]; var r := ws[n].revokedAt[x.user];
            x.move < r < n && PresentsOrigin(ms[x.move], x.origin) &&
            ms[r].Serve? && Revokes(env, ws[r].db, ms[r].event, x.user)
  {
    hide Act, Revokes, Stores;
    var x := ws[n].grants[ms[n].id];
    RevocationsHappened(env, ws, ms, n, x.user);
    HeldWasPresented(env, ws, ms, n, ms[n].id);
  }

  lemma {:induction false} LastRevocation(env: Env, ws: seq<World>, ms: seq<Move>, r: nat, n: nat, u: UserId)
    requires IsTrace(env, ws, ms) && r < n < |ws| && ms[r].Serve? && Revokes(env, ws[r].db, ms[r].event, u)
    ensures RevocationRecorded(ws[n], u) && ws[n].revokedAt[u] >= r
    decreases n
  {
    hide Act, Revokes;
    FreshInTrace(env, ws, ms, n - 1);
    assert ws[n] == Apply(env, ws[n - 1], ms[n - 1]);
    RevocationKept(env, ws[n - 1], ms[n - 1], u);
    if r < n - 1 {
      LastRevocation(env, ws, ms, r, n - 1, u);
    }
  }

  /** A stored refresh token has a recorded move, and that move presented what the token was issued for. */
  predicate ProofFits(w: World, ms: seq<Move>, t: Token) {
    t in w.db.grants.refresh ==>
      t in w.provedAt && t in w.db.grants.lineage && w.provedAt[t] < |ms| &&
          PresentsOrigin(ms[w.provedAt[t]], w.db.grants.lineage[t])
  }

  lemma ServedProof(env: Env, w: World, e: Event, ms: seq<Move>, t: Token)
    requires Fresh(w.db) && ProofFits(w, ms, t) && w.moves < |ms| && ms[w.moves] == Serve(e)
    ensures ProofFits(Apply(env, w, Serve(e)), ms, t)
  {
    hide Next, Revokes, Fresh, Issues;
    RefreshLaw(env, w.db, e, t);
    var b := Apply(env, w, Serve(e));
    if t in b.db.grants.refresh && t !in w.db.grants.refresh {
      IssuingPresents(w.db, e, t, b.db.grants.refresh[t], b.db.grants.lineage[t]);
    }
  }

  lemma IssuingPresents(db: Db, e: Event, t: Token, row: Refresh, origin: Origin)
    requires Issues(db, e, t, row, origin)
    ensures PresentsOrigin(Serve(e), origin)
  {
  }

  lemma StoredProof(env: Env, w: World, m: Move, ms: seq<Move>, t: Token)
    requires m.Store? && ProofFits(w, ms, t) && w.db.next !in w.db.grants.refresh
    requires m.id in w.grants ==>
               w.grants[m.id].move < |ms| && PresentsOrigin(ms[w.grants[m.id].move], w.grants[m.id].origin)
    ensures ProofFits(Apply(env, w, m), ms, t)
  {
    hide Scopes.Includes;
  }

  lemma OtherProof(env: Env, w: World, m: Move, ms: seq<Move>, t: Token)
    requires !m.Serve? && !m.Store? && ProofFits(w, ms, t)
    ensures ProofFits(Apply(env, w, m), ms, t)
  {
    hide AuthenticatesClient, CodeMatches, Passes, Stores, PresentsOrigin;
  }

  lemma {:induction false} TokensWereProved(env: Env, ws: seq<World>, ms: seq<Move>, n: nat, t: Token)
    requires IsTrace(env, ws, ms) && n < |ws|
    ensures ProofFits(ws[n], ms, t)
  {
    hide Act, Fresh, PresentsOrigin;
    if n > 0 {
      var m := ms[n - 1];
      TokensWereProved(env, ws, ms, n - 1, t);
      FreshInTrace(env, ws, ms, n - 1);
      KeyIsFree(ws[n - 1].db);
      assert ws[n] == Apply(env, ws[n - 1], m);
      match m
      case Serve(e) => ServedProof(env, ws[n - 1], e, ms, t);
      case Store(id, _) =>
        if id in ws[n - 1].grants { HeldWasPresented(env, ws, ms, n - 1, id); }
        StoredProof(env, ws[n - 1], m, ms, t);
      case _ => OtherProof(env, ws[n - 1], m, ms, t);
    }
  }

  lemma KeyIsFree(db: Db)
    requires Fresh(db)
    ensures db.next !in db.grants.refresh
  {
    assert FreshAt(db, db.next);
  }

  /**
    After a completed revocation at move r, whatever the interleaving: while no store is late, a live
    refresh token of the user was issued for something presented after r.
   */
  lemma LiveTokensWerePresentedSince(env: Env, ws: seq<World>, ms: seq<Move>, r: nat, n: nat, u: UserId, t: Token)
    requires IsTrace(env, ws, ms) && r < n <= |ms| && ms[r].Serve? && Revokes(env, ws[r].db, ms[r].event, u)
    requires NeverLate(ws, ms, n) && IsLive(ws[n].db, t) && ws[n].db.grants.refresh[t].user == u
    ensures t in ws[n].provedAt && r < ws[n].provedAt[t] < n && t in ws[n].db.grants.lineage
    ensures PresentsOrigin(ms[ws[n].provedAt[t]], ws[n].db.grants.lineage[t])
  {
    hide Act, Revokes, IsLate, PresentsOrigin;
    TokensWereProved(env, ws, ms, n, t);
    FitsUnlessLate(env, ws, ms, n);
    FreshInTrace(env, ws, ms, n);
    LastRevocation(env, ws, ms, r, n, u);
    assert TokenFits(ws[n], t);
  }

  // ---- it happens ----

  function Exchanged(): Db {
    Counterexamples.Coded().(next := 7,
                             grants := Tables.Grants(
                               map[5 := Counterexamples.FreshCode().(usedAt := Some(0))],
                               map[6 := Refresh(2, APP, Counterexamples.Scope(), REFRESH_TOKEN_TTL, None)],
                               map[6 := FromCode(5)]))
  }

  lemma ExchangedStep()
    ensures Next(Plain(), Counterexamples.Coded(), Counterexamples.AppExchanges()).0 == Exchanged()
  {
    hide Scopes.Includes, Counterexamples.Scope, Scopes.IsValidScope;
    Counterexamples.ScopeIsValid();
  }

  /** The application presents its refresh token; the request holds it. */
  function Presented(): Db {
    Exchanged().(grants := Exchanged().grants.(
                   refresh := map[6 := Refresh(2, APP, Counterexamples.Scope(), REFRESH_TOKEN_TTL, Some(0))]))
  }

  function Revoked(): Db {
    Presented().(accounts := Counterexamples.Changed().accounts, sessions := Counterexamples.Changed().sessions)
  }

  lemma PresentStep()
    ensures TakeRefresh(Plain(), Exchanged(), 7, 6, APP, "secret", 0) ==
            (Presented(), Some(Late().(userRead := false)))
  {
    hide Counterexamples.Scope;
    var g := Exchanged().grants.refresh;
    assert g[6 := g[6].(revokedAt := Some(0))] == Presented().grants.refresh;
  }

  lemma ReadStep()
    ensures 2 in Presented().accounts.users && Presented().accounts.users[2].CanAuthorize()
  {
    hide Counterexamples.Scope;
  }

  lemma RevokeStep()
    ensures Next(Plain(), Presented(), Counterexamples.Change()) == (Revoked(), Done)
  {
    hide Counterexamples.Scope, RevokeAll;
    var users := Presented().accounts.users;
    assert users[2 := users[2].(hash := SECOND_PASSWORD)] == Counterexamples.Changed().accounts.users;
    NothingLeftToRevoke();
  }

  lemma NothingLeftToRevoke()
    ensures RevokeAll(Presented().(accounts := Counterexamples.Changed().accounts), 0, 2, 2) == (Revoked(), Done)
  {
    hide Counterexamples.Scope;
    assert Presented().sessions.RevokeAll(2, 0) == Revoked().sessions;
    assert Presented().grants.RevokeAllRefresh(2, 0) == Revoked().grants;
  }

  function Late(): Held { Held(2, APP, Counterexamples.Scope(), FromRefresh(6), 7, true) }

  lemma StoreStep()
    ensures Stores(Revoked(), Late()) && IsLive(StoreToken(Revoked(), Late(), 0), 7) &&
            StoreToken(Revoked(), Late(), 0).grants.refresh[7].user == 2
  {
    hide Scopes.Includes, Counterexamples.Scope, Scopes.IsValidScope;
    Counterexamples.ScopeIsValid();
  }

  function AnnEvents(): seq<Event> {
    SignInEvents() + [Counterexamples.AnnAuthorizes()] + [Counterexamples.AppExchanges()]
  }

  function Present(): Move { PresentRefresh(9, 6, APP, "secret", 0) }

  function LateRefresh(): seq<Move> {
    ServeAll(AnnEvents()) + [Present()] + [Read(9)] + [Serve(Counterexamples.Change())] + [Store(9, 0)]
  }

  lemma AnnRun()
    ensures After(Plain(), AnnEvents()) == Exchanged() && |AnnEvents()| == 7
  {
    hide Next, After;
    SignInRun();
    Counterexamples.AuthorizeStep();
    ExchangedStep();
    AfterMore(Plain(), SignInEvents(), Counterexamples.AnnAuthorizes());
    AfterMore(Plain(), SignInEvents() + [Counterexamples.AnnAuthorizes()], Counterexamples.AppExchanges());
  }

  lemma ChangeRevokes()
    ensures Revokes(Plain(), Presented(), Counterexamples.Change(), 2) &&
            Target(Presented(), Counterexamples.Change()) == Some(2)
    ensures Revoked().next == 7
  {
    hide Next, Counterexamples.Scope;
    RevokeStep();
  }

  lemma LateMoves(w: World)
    requires w.db == Exchanged() && w.grants == map[] && w.moves == 7
    ensures var read := Apply(Plain(), Apply(Plain(), w, Present()), Read(9));
            read.db == Presented() &&
            var b := Apply(Plain(), Apply(Plain(), read, Serve(Counterexamples.Change())), Store(9, 0));
            b.db == StoreToken(Revoked(), Late(), 0) && !TokenFits(b, 7)
  {
    hide Next, TakeRefresh, StoreToken, Stores, Exchanged, Presented, Revoked, Revokes, Counterexamples.Scope,
        Counterexamples.Change;
    PresentStep();
    ReadStep();
    RevokeStep();
    ChangeRevokes();
    StoreStep();
    assert Late().(userRead := false).user == 2 && Late().(userRead := false).(userRead := true) == Late();
  }

  /**
    From an empty database: a password change completes between the presentation of a refresh token
    and the storing of its replacement, which is live afterwards.
   */
  lemma ReplacementOutlivesTheChange()
    ensures IsTrace(Plain(), Worlds(Plain(), LateRefresh()), LateRefresh())
    ensures Next(Plain(), Presented(), Counterexamples.Change()).1 == Done
    ensures var b := Play(Plain(), LateRefresh()); IsLive(b.db, 7) && b.db.grants.refresh[7].user == 2 && !TokensFit(b)
  {
    hide Apply, After, Next, Play, StoreToken, Stores, Exchanged, Presented, Revoked, AnnEvents, Present, TokenFits;
    AnnRun();
    RevokeStep();
    StoreStep();
    var env, ms := Plain(), ServeAll(AnnEvents());
    var change := Serve(Counterexamples.Change());
    PlayServed(env, AnnEvents());
    PlayMore(env, ms, Present());
    PlayMore(env, ms + [Present()], Read(9));
    PlayMore(env, ms + [Present()] + [Read(9)], change);
    PlayMore(env, ms + [Present()] + [Read(9)] + [change], Store(9, 0));
    LateMoves(Play(env, ms));
    WorldsAreATrace(env, LateRefresh());
  }
}
