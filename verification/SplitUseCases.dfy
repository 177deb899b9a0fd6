/**
  Logins and token requests as several moves each, with any whole use cases in between. A login
  checks the password and then inserts the session; a token request consumes what it was given,
  then reads the user, then stores the replacement.
 */
module SplitUseCases {
  import opened Domain
  import opened Tables
  import opened UseCases
  import opened Machine
  import opened Laws
  import opened Revocation
  import opened SampleRuns
  import Scopes

  /** What a login has read: the user and the hash it verified. */
  datatype Checked = Checked(user: UserId, hash: string)

  /**
    What a token request holds once its code or refresh token is consumed, and the number of the move
    that consumed it.
   */
  datatype Held = Held(user: UserId, client: ClientId, scope: string, origin: Origin, move: nat, userRead: bool)

  /** Of the last three fields, which no move reads, two record by move number when things happened. */
  datatype World = World(db: Db, logins: map<nat, Checked>, grants: map<nat, Held>,
                         moves: nat,                   // how many moves there were
                         provedAt: map<Token, nat>,    // the move that consumed what a refresh token was issued for
                         revokedAt: map<UserId, nat>)  // the last completed revocation of a user's tokens

  datatype Move =
    | Check(id: nat, email: string, password: string)
    | Open(id: nat, at: Time)
    | PresentCode(id: nat, exchange: ExchangeInput, at: Time)
    | PresentRefresh(id: nat, token: Token, client: ClientId, secret: string, at: Time)
    | Read(id: nat)
    | Store(id: nat, at: Time)
    | Serve(event: Event)

  function Start(): World { World(Empty(), map[], map[], 0, map[], map[]) }

  /** The user a login gets past its checks for. */
  function Passes(env: Env, db: Db, email: string, password: string): Option<UserId> {
    var address := env.parseEmail(email);
    if address.None? || password == "" then None
    else
      match db.accounts.ByEmail(address.value)
      case None => None
      case Some(id) =>
        var user := db.accounts.users[id];
        if user.CanAuthorize() && env.verify(user.hash, password) then Some(id) else None
  }

  /** The foreign key refuses a session of a user who is gone. */
  function OpenSession(env: Env, db: Db, x: Checked, at: Time): Db {
    if x.user !in db.accounts.users then db
    else
      db.(next := db.next + 1,
          sessions := db.sessions.Create(db.next, Session(x.user, at + env.sessionTTL, None), x.hash))
  }

  function TakeCode(env: Env, db: Db, move: nat, x: ExchangeInput, at: Time): (Db, Option<Held>) {
    if !AuthenticatesClient(env, db, x.client, x.secret) then (db, None)
    else
      match db.grants.ConsumeCode(x.code, at)
      case Err(_) => (db, None)
      case Ok((grants1, row)) =>
        (db.(grants := grants1),
         if CodeMatches(env, db.clients[x.client], row, x)
         then Some(Held(row.user, x.client, row.scope, FromCode(x.code), move, false)) else None)
  }

  function TakeRefresh(env: Env, db: Db, move: nat, t: Token, client: ClientId, secret: string, at: Time)
    : (Db, Option<Held>)
  {
    if !AuthenticatesClient(env, db, client, secret) then (db, None)
    else
      match db.grants.ConsumeRefresh(t, at)
      case Err(_) => (db, None)
      case Ok((grants1, row)) =>
        (db.(grants := grants1),
         if row.client == client then Some(Held(row.user, client, row.scope, FromRefresh(t), move, false)) else None)
  }

  /** The replacement is stored: the scope asks for one, the user was read, and the foreign key does not refuse it. */
  predicate Stores(db: Db, x: Held) {
    x.userRead && x.user in db.accounts.users && Scopes.Includes(x.scope, Scopes.OFFLINE_ACCESS)
  }

  function StoreToken(db: Db, x: Held, at: Time): Db {
    if !Stores(db, x) then db
    else
      db.(next := db.next + 1,
          grants := db.grants.CreateRefresh(db.next, Refresh(x.user, x.client, x.scope, at + REFRESH_TOKEN_TTL, None),
                                            x.origin))
  }

  function Hold(w: World, id: nat, taken: (Db, Option<Held>)): World {
    if id in w.grants then w
    else w.(db := taken.0, grants := if taken.1.Some? then w.grants[id := taken.1.value] else w.grants)
  }

  /** The user a revoking step is about. */
  function Target(db: Db, e: Event): Option<UserId> {
    match e.act
    case Credential(DoResetPassword(t, _, _, _)) => if t in db.resets then Some(db.resets[t].user) else None
    case Credential(DoChangePassword(i)) => Some(i.user)
    case Credential(DoSetStatus(_, user, _)) => Some(user)
    case Credential(DoRevokeSessions(_, user)) => Some(user)
    case _ => None
  }

  /** A use case of the machine, with the marks for the tokens it issues and the user it revokes. */
  ghost function Served(env: Env, w: World, e: Event): World {
    var b := Next(env, w.db, e).0;
    var u := Target(w.db, e);
    w.(db := b,
       provedAt := w.provedAt + (map t | t in b.grants.refresh && t !in w.db.grants.refresh :: w.moves),
       revokedAt := if u.Some? && Revokes(env, w.db, e, u.value) then w.revokedAt[u.value := w.moves] else w.revokedAt)
  }

  ghost function Act(env: Env, w: World, m: Move): World {
    match m
    case Check(id, email, password) =>
      var u := Passes(env, w.db, email, password);
      if u.None? then w else w.(logins := w.logins[id := Checked(u.value, w.db.accounts.users[u.value].hash)])
    case Open(id, at) =>
      if id !in w.logins then w else w.(db := OpenSession(env, w.db, w.logins[id], at), logins := w.logins - {id})
    case PresentCode(id, x, at) => Hold(w, id, TakeCode(env, w.db, w.moves, x, at))
    case PresentRefresh(id, t, client, secret, at) =>
      Hold(w, id, TakeRefresh(env, w.db, w.moves, t, client, secret, at))
    case Read(id) =>
      if id !in w.grants then w
      else
        var x := w.grants[id];
        if x.user in w.db.accounts.users && w.db.accounts.users[x.user].CanAuthorize()
        then w.(grants := w.grants[id := x.(userRead := true)]) else w.(grants := w.grants - {id})
    case Store(id, at) =>
      if id !in w.grants then w
      else
        var x := w.grants[id];
        w.(db := StoreToken(w.db, x, at), grants := w.grants - {id},
           provedAt := if Stores(w.db, x) then w.provedAt[w.db.next := x.move] else w.provedAt)
    case Serve(e) => Served(env, w, e)
  }

  ghost function Apply(env: Env, w: World, m: Move): World { Act(env, w, m).(moves := w.moves + 1) }

  ghost predicate IsTrace(env: Env, ws: seq<World>, ms: seq<Move>) {
    && |ws| == |ms| + 1 && ws[0] == Start()
    && forall i :: 0 <= i < |ms| ==> ws[i + 1] == Apply(env, ws[i], ms[i])
  }

  // ---- with nothing in between, the moves are the use cases of the machine ----

  lemma UninterruptedLogin(env: Env, w: World, id: nat, at: Clock, email: string, password: string)
    ensures var checked := Apply(env, w, Check(id, email, password));
            var out := Login(env, w.db, at, 1, email, password, true);
            if Passes(env, w.db, email, password).Some?
            then Apply(env, checked, Open(id, at.first)).db == out.0 && out.1.SessionOpened?
            else checked.db == w.db == out.0 && !out.1.SessionOpened?
  {
  }

  /** Read and Store after a presentation. */
  lemma ReadThenStore(env: Env, w: World, id: nat, at: Time)
    requires id in w.grants ==> !w.grants[id].userRead
    ensures var b := Apply(env, Apply(env, w, Read(id)), Store(id, at)).db;
            if id in w.grants && w.grants[id].user in w.db.accounts.users &&
                w.db.accounts.users[w.grants[id].user].CanAuthorize()
            then b == StoreToken(w.db, w.grants[id].(userRead := true), at) else b == w.db
  {
    hide StoreToken, Stores;
  }

  lemma StoringIsIssuing(db: Db, x: Held, at: Time)
    requires x.userRead && x.user in db.accounts.users
    ensures StoreToken(db, x, at) == IssueTokens(db, at, 2, x.user, x.client, x.scope, x.origin).0
  {
    hide Scopes.Includes;
  }

  lemma UninterruptedExchange(env: Env, w: World, id: nat, at: Clock, x: ExchangeInput)
    requires id !in w.grants
    ensures var presented := Apply(env, w, PresentCode(id, x, at.first));
            Apply(env, Apply(env, presented, Read(id)), Store(id, at.second)).db == ExchangeCode(env, w.db, at, 4, x).0
  {
    hide AuthenticatesClient, CodeMatches, StoreToken, IssueTokens;
    var presented := Apply(env, w, PresentCode(id, x, at.first));
    assert id in presented.grants ==> !presented.grants[id].userRead;
    CodeTaken(env, w.db, w.moves, x, at.first);
    assert presented.db == TakeCode(env, w.db, w.moves, x, at.first).0;
    hide Apply, TakeCode;
    ReadThenStore(env, presented, id, at.second);
    if id in presented.grants && presented.grants[id].user in presented.db.accounts.users {
      StoringIsIssuing(presented.db, presented.grants[id].(userRead := true), at.second);
    }
  }

  lemma CodeTaken(env: Env, db: Db, move: nat, x: ExchangeInput, at: Time)
    ensures var r := TakeCode(env, db, move, x, at); r.0.accounts == db.accounts && (r.1.Some? ==> !r.1.value.userRead)
  {
    hide AuthenticatesClient, CodeMatches;
  }

  lemma UninterruptedRefresh(env: Env, w: World, id: nat, at: Clock, t: Token, client: ClientId, secret: string)
    requires id !in w.grants
    ensures var presented := Apply(env, w, PresentRefresh(id, t, client, secret, at.first));
            Apply(env, Apply(env, presented, Read(id)), Store(id, at.second)).db ==
            RefreshGrant(env, w.db, at, 4, t, client, secret).0
  {
    hide AuthenticatesClient, StoreToken, IssueTokens;
    var presented := Apply(env, w, PresentRefresh(id, t, client, secret, at.first));
    assert id in presented.grants ==> !presented.grants[id].userRead;
    assert presented.db == TakeRefresh(env, w.db, w.moves, t, client, secret, at.first).0;
    ReadThenStore(env, presented, id, at.second);
    if id in presented.grants && presented.grants[id].user in presented.db.accounts.users {
      StoringIsIssuing(presented.db, presented.grants[id].(userRead := true), at.second);
    }
  }

  // ---- traces ----

  lemma TakenFresh(env: Env, db: Db, m: Move, move: nat)
    requires Fresh(db) && (m.PresentCode? || m.PresentRefresh?)
    ensures Fresh(if m.PresentCode? then TakeCode(env, db, move, m.exchange, m.at).0
                  else TakeRefresh(env, db, move, m.token, m.client, m.secret, m.at).0)
  {
    hide AuthenticatesClient, CodeMatches;
    var b := if m.PresentCode? then TakeCode(env, db, move, m.exchange, m.at).0
             else TakeRefresh(env, db, move, m.token, m.client, m.secret, m.at).0;
    forall k ensures FreshAt(b, k) { assert FreshAt(db, k); }
  }

  lemma StoredFresh(db: Db, x: Held, at: Time)
    requires Fresh(db)
    ensures Fresh(StoreToken(db, x, at))
  {
    hide Scopes.Includes;
    forall k ensures FreshAt(StoreToken(db, x, at), k) { assert FreshAt(db, k); }
  }

  lemma OpenedFresh(env: Env, db: Db, x: Checked, at: Time)
    requires Fresh(db)
    ensures Fresh(OpenSession(env, db, x, at))
  {
    forall k ensures FreshAt(OpenSession(env, db, x, at), k) { assert FreshAt(db, k); }
  }

  /** A move that is no whole use case leaves the accounts alone. */
  lemma MovesKeepAccounts(env: Env, w: World, m: Move)
    requires !m.Serve?
    ensures Apply(env, w, m).db.accounts == w.db.accounts && Apply(env, w, m).db.next >= w.db.next
  {
    hide Passes, AuthenticatesClient, CodeMatches, Stores;
  }

  lemma MoveFresh(env: Env, w: World, m: Move)
    requires Fresh(w.db)
    ensures Fresh(Apply(env, w, m).db) && Apply(env, w, m).db.next >= w.db.next
  {
    hide Fresh, Next, Passes, OpenSession, TakeCode, TakeRefresh, StoreToken, Stores;
    match m
    case Serve(e) => FreshStep(env, w.db, e);
    case Open(id, at) =>
      MovesKeepAccounts(env, w, m);
      if id in w.logins { OpenedFresh(env, w.db, w.logins[id], at); }
    case Store(id, at) =>
      MovesKeepAccounts(env, w, m);
      if id in w.grants { StoredFresh(w.db, w.grants[id], at); }
    case PresentCode(_, _, _) =>
      MovesKeepAccounts(env, w, m);
      TakenFresh(env, w.db, m, w.moves);
    case PresentRefresh(_, _, _, _, _) =>
      MovesKeepAccounts(env, w, m);
      TakenFresh(env, w.db, m, w.moves);
    case _ =>
  }

  lemma EmptyIsFresh()
    ensures Fresh(Empty())
  {
  }

  lemma {:induction false} FreshInTrace(env: Env, ws: seq<World>, ms: seq<Move>, i: nat)
    requires IsTrace(env, ws, ms) && i < |ws|
    ensures Fresh(ws[i].db) && ws[i].moves == i
  {
    hide Act, Fresh;
    if i == 0 {
      EmptyIsFresh();
    } else {
      FreshInTrace(env, ws, ms, i - 1);
      assert ws[i] == Apply(env, ws[i - 1], ms[i - 1]);
      MoveFresh(env, ws[i - 1], ms[i - 1]);
    }
  }

  lemma {:induction false} BoundGrows(env: Env, ws: seq<World>, ms: seq<Move>, i: nat, j: nat)
    requires IsTrace(env, ws, ms) && i <= j < |ws|
    ensures ws[i].db.next <= ws[j].db.next
    decreases j
  {
    hide Act, Fresh;
    if i < j {
      BoundGrows(env, ws, ms, i, j - 1);
      FreshInTrace(env, ws, ms, j - 1);
      assert ws[j] == Apply(env, ws[j - 1], ms[j - 1]);
      MoveFresh(env, ws[j - 1], ms[j - 1]);
    }
  }

  // ---- sample traces ----

  /** The world after the moves. */
  ghost function Play(env: Env, ms: seq<Move>): World
    decreases |ms|
  {
    if ms == [] then Start() else Apply(env, Play(env, ms[..|ms| - 1]), ms[|ms| - 1])
  }

  ghost function Worlds(env: Env, ms: seq<Move>): seq<World> {
    seq(|ms| + 1, i requires 0 <= i <= |ms| => Play(env, ms[..i]))
  }

  lemma WorldsAreATrace(env: Env, ms: seq<Move>)
    ensures IsTrace(env, Worlds(env, ms), ms) && Worlds(env, ms)[|ms|] == Play(env, ms)
  {
    hide Apply;
    assert ms[..|ms|] == ms;
    forall i | 0 <= i < |ms| ensures Worlds(env, ms)[i + 1] == Apply(env, Worlds(env, ms)[i], ms[i]) {
      assert ms[..i + 1][..i] == ms[..i];
    }
  }

  lemma PlayMore(env: Env, ms: seq<Move>, m: Move)
    ensures Play(env, ms + [m]) == Apply(env, Play(env, ms), m)
  {
    hide Apply;
    assert (ms + [m])[..|ms|] == ms;
  }

  function ServeAll(es: seq<Event>): seq<Move> { seq(|es|, i requires 0 <= i < |es| => Serve(es[i])) }

  lemma {:induction false} PlayServed(env: Env, es: seq<Event>)
    ensures var w := Play(env, ServeAll(es));
            w.db == After(env, es) && w.logins == map[] && w.grants == map[] && w.moves == |es|
  {
    hide Next, Revokes;
    if es != [] {
      PlayServed(env, es[..|es| - 1]);
      assert ServeAll(es)[..|es| - 1] == ServeAll(es[..|es| - 1]);
    }
  }
}
