/**
  Concurrent DeleteVerified transactions, one SQL statement a move: row locks, and reads of the
  committed rows (READ COMMITTED) plus the transaction's own writes, which reach the tables at commit.
 */
module DeleteVerifiedRace {
  import opened Domain
  import opened Tables
  import opened AccountEmails
  import Sets

  /** What the transaction has done so far. */
  datatype Progress =
    | Begun
    | TargetFound                                // SELECT … FOR UPDATE found the row and waits for its lock
    | TargetLocked(role: EmailRole)
    | Counted(role: EmailRole)                   // at least two verified rows
    | Deleted(role: EmailRole)                   // its own DELETE is done, uncommitted
    | SurvivorFound(other: Email)                // the second SELECT … FOR UPDATE waits
    | SurvivorLocked(other: Email, at: Time)
    | Promoted(other: Email, at: Time)           // UPDATE user_emails
    | Synced(other: Email, at: Time)             // UPDATE users
    | Committed
    | RolledBack

  datatype Transaction = Transaction(user: UserId, target: Email, progress: Progress) {
    predicate IsFinished() { progress.Committed? || progress.RolledBack? }

    /** The transaction read its target under lock with this role. */
    function Role(): Option<EmailRole> {
      match progress
      case TargetLocked(role) => Some(role)
      case Counted(role) => Some(role)
      case Deleted(role) => Some(role)
      case SurvivorFound(_) => Some(Primary)
      case SurvivorLocked(_, _) => Some(Primary)
      case Promoted(_, _) => Some(Primary)
      case Synced(_, _) => Some(Primary)
      case _ => None
    }

    /** The survivor it read, with the verification time it read. */
    function Survivor(): Option<(Email, Time)> {
      match progress
      case SurvivorLocked(other, at) => Some((other, at))
      case Promoted(other, at) => Some((other, at))
      case Synced(other, at) => Some((other, at))
      case _ => None
    }
  }

  /** How the second SELECT reads the survivor: the code's FOR UPDATE, or a plain read. */
  datatype SurvivorRead = ForUpdate | Plain

  predicate Holds(x: Transaction, mode: SurvivorRead, row: Email) {
    || (x.Role().Some? && row == x.target)
    || (mode == ForUpdate && x.Survivor().Some? && row == x.Survivor().value.0)
  }

  /** The committed tables, the id bound of Agreement, and the transactions. */
  datatype World = World(accounts: Accounts, next: Token, txs: map<nat, Transaction>)

  /** No other transaction holds the row. */
  ghost predicate IsFree(w: World, mode: SurvivorRead, id: nat, row: Email) {
    forall k :: k in w.txs && k != id ==> !Holds(w.txs[k], mode, row)
  }

  datatype Move =
    | Begin(id: nat, user: UserId, target: Email)
    | FindTarget(id: nat)
    | LockTarget(id: nat)
    | Count(id: nat)
    | Delete(id: nat)
    | FindSurvivor(id: nat, other: Email)
    | NoSurvivor(id: nat)
    | LockSurvivor(id: nat)
    | Promote(id: nat)
    | Sync(id: nat)
    | Commit(id: nat)
    | Abort(id: nat)                                     // a failure at any statement
    | Other(accounts: Accounts, next: Token)             // any other committed change that respects the locks

  function Put(w: World, id: nat, progress: Progress): World
    requires id in w.txs
  {
    w.(txs := w.txs[id := w.txs[id].(progress := progress)])
  }

  /** What the transaction's DELETE and UPDATEs do to the rows that are there at commit. */
  function Effect(a: Accounts, x: Transaction): Accounts {
    var left := a.emails - {x.target};
    if x.progress.Synced? then
      var other := x.progress.other;
      a.(emails := (if other in left && left[other].user == x.user
                    then left[other := left[other].(role := Primary)]
                    else left),
         users := (if x.user in a.users
                   then a.users[x.user := a.users[x.user].(email := other, verifiedAt := Some(x.progress.at))]
                   else a.users))
    else a.(emails := left)
  }

  predicate SeesTarget(a: Accounts, x: Transaction) { x.target in a.emails && a.emails[x.target].user == x.user }

  /** Other users' statements, and this user's adds, verifications and cancels, wait for the locks. */
  ghost predicate RespectsLocks(w: World, mode: SurvivorRead, b: Accounts) {
    forall k :: k in w.txs ==>
      && (forall row :: Holds(w.txs[k], mode, row) && row in w.accounts.emails ==>
          row in b.emails && b.emails[row] == w.accounts.emails[row])
      && (w.txs[k].progress.Synced? && w.txs[k].user in w.accounts.users ==>
            w.txs[k].user in b.users && b.users[w.txs[k].user] == w.accounts.users[w.txs[k].user])
  }

  /** A user with a verified primary address keeps one, or is deleted. */
  predicate StaysVerified(a: Accounts, b: Accounts, u: UserId) {
    u in a.users && a.users[u].verifiedAt.Some? && u in b.users ==> b.users[u].verifiedAt.Some?
  }

  /** The world after a move, or None while the move is blocked by a lock or is not the transaction's next statement. */
  ghost function Apply(w: World, mode: SurvivorRead, m: Move): Option<World> {
    match m
    case Begin(id, user, target) =>
      if id in w.txs then None else Some(w.(txs := w.txs[id := Transaction(user, target, Begun)]))
    case Other(b, next) =>
      if RespectsLocks(w, mode, b) && next >= w.next && Agreement(b, next) &&
         (forall u {:trigger StaysVerified(w.accounts, b, u)} :: StaysVerified(w.accounts, b, u))
      then Some(w.(accounts := b, next := next)) else None
    case _ =>
      if m.id !in w.txs || w.txs[m.id].IsFinished() then None
      else ApplyStatement(w, mode, m, w.txs[m.id])
  }

  ghost function ApplyStatement(w: World, mode: SurvivorRead, m: Move, x: Transaction): Option<World>
    requires !m.Begin? && !m.Other? && m.id in w.txs
  {
    var a, id := w.accounts, m.id;
    match (m, x.progress)
    case (FindTarget(_), Begun) => Some(Put(w, id, if SeesTarget(a, x) then TargetFound else RolledBack))
    case (LockTarget(_), TargetFound) =>
      if !SeesTarget(a, x) || a.emails[x.target].verifiedAt.None? then Some(Put(w, id, RolledBack))
      else if !IsFree(w, mode, id, x.target) then None
      else Some(Put(w, id, TargetLocked(a.emails[x.target].role)))
    case (Count(_), TargetLocked(role)) =>
      Some(Put(w, id, if |a.Verified(x.user)| < 2 then RolledBack else Counted(role)))
    case (Delete(_), Counted(role)) => Some(Put(w, id, Deleted(role)))
    case (FindSurvivor(_, other), Deleted(Primary)) =>
      if a.IsSurvivor(x.user, x.target, other) then Some(Put(w, id, SurvivorFound(other))) else None
    case (NoSurvivor(_), Deleted(Primary)) =>
      if a.Survivor(x.user, x.target).None? then Some(Put(w, id, RolledBack)) else None
    case (LockSurvivor(_), SurvivorFound(other)) =>
      if !a.IsSurvivor(x.user, x.target, other) then Some(Put(w, id, RolledBack))
      else if mode == ForUpdate && !IsFree(w, mode, id, other) then None
      else Some(Put(w, id, SurvivorLocked(other, a.emails[other].verifiedAt.value)))
    case (Promote(_), SurvivorLocked(other, at)) => Some(Put(w, id, Promoted(other, at)))
    case (Sync(_), Promoted(other, at)) =>
      if exists k :: k in w.txs && k != id && w.txs[k].progress.Synced? && w.txs[k].user == x.user then None
      else Some(Put(w, id, Synced(other, at)))
    case (Commit(_), Deleted(Secondary)) => Some(Put(w, id, Committed).(accounts := Effect(a, x)))
    case (Commit(_), Synced(_, _)) => Some(Put(w, id, Committed).(accounts := Effect(a, x)))
    case (Abort(_), _) => Some(Put(w, id, RolledBack))
    case _ => None
  }

  // ---- the invariant ----

  /** What a transaction has read under lock is still so. */
  predicate TransactionFits(w: World, id: nat) {
    id in w.txs ==>
      var x := w.txs[id];
      && (x.Role().Some? ==>
            SeesTarget(w.accounts, x) && w.accounts.emails[x.target].role == x.Role().value &&
                w.accounts.emails[x.target].verifiedAt.Some?)
      && (x.Survivor().Some? ==>
            w.accounts.IsSurvivor(x.user, x.target, x.Survivor().value.0) &&
            w.accounts.emails[x.Survivor().value.0].verifiedAt == Some(x.Survivor().value.1))
  }

  /** A row is held by at most one transaction. */
  predicate OneHolder(w: World, id: nat, k: nat, row: Email) {
    id in w.txs && k in w.txs && Holds(w.txs[id], ForUpdate, row) && Holds(w.txs[k], ForUpdate, row) ==> id == k
  }

  ghost predicate Inv(w: World) {
    && Agreement(w.accounts, w.next)
    && (forall id {:trigger TransactionFits(w, id)} :: TransactionFits(w, id))
    && (forall id, k, row {:trigger OneHolder(w, id, k, row)} :: OneHolder(w, id, k, row))
  }

  /** A commit is one atomic DeleteVerified on the tables as they are at that moment. */
  lemma CommitIsAtomic(w: World, id: nat)
    requires Inv(w) && Apply(w, ForUpdate, Commit(id)).Some?
    ensures w.accounts.DeleteVerified(w.txs[id].user, w.txs[id].target) ==
            Ok(Apply(w, ForUpdate, Commit(id)).value.accounts)
  {
    var x := w.txs[id];
    var a := w.accounts;
    assert TransactionFits(w, id);
    assert EmailFits(a, x.target) && UserFits(a, w.next, x.user);
    var other := if x.progress.Synced? then x.progress.other else a.users[x.user].email;
    assert a.IsSurvivor(x.user, x.target, other);
    assert {x.target, other} <= a.Verified(x.user) && |{x.target, other}| == 2;
    Sets.SubsetSize({x.target, other}, a.Verified(x.user));
    var picked := a.Survivor(x.user, x.target).value;
    assert EmailFits(a, other) && EmailFits(a, picked) && SameSecondary(a, other, picked);
  }

  lemma LocksStay(w: World, id: nat, progress: Progress, v: World)
    requires Inv(w) && id in w.txs && v == Put(w, id, progress) && TransactionFits(v, id)
    requires forall row :: Holds(v.txs[id], ForUpdate, row) ==>
               Holds(w.txs[id], ForUpdate, row) || IsFree(w, ForUpdate, id, row)
    ensures Inv(v)
  {
    forall k ensures TransactionFits(v, k) { assert TransactionFits(w, k); }
    forall i, k, row {:trigger OneHolder(v, i, k, row)}
      ensures OneHolder(v, i, k, row)
    {
      assert OneHolder(w, i, k, row);
    }
  }

  lemma StatementKeeps(w: World, m: Move)
    requires Inv(w) && !m.Begin? && !m.Other? && !m.Commit? && Apply(w, ForUpdate, m).Some?
    ensures Inv(Apply(w, ForUpdate, m).value)
  {
    hide Inv;
    var v := Apply(w, ForUpdate, m).value;
    InvFits(w, m.id);
    LocksStay(w, m.id, v.txs[m.id].progress, v);
  }

  lemma InvFits(w: World, id: nat)
    requires Inv(w)
    ensures TransactionFits(w, id)
  {
  }

  lemma CommitKeeps(w: World, id: nat)
    requires Inv(w) && Apply(w, ForUpdate, Commit(id)).Some?
    ensures Inv(Apply(w, ForUpdate, Commit(id)).value)
  {
    var v := Apply(w, ForUpdate, Commit(id)).value;
    var x := w.txs[id];
    CommitIsAtomic(w, id);
    DeleteVerifiedKeeps(w.accounts, w.next, x.user, x.target, v.accounts);
    forall k ensures TransactionFits(v, k) {
      assert TransactionFits(w, k);
      if k in w.txs && k != id {
        OthersRowsStay(w, id, k);
      }
    }
    forall i, k, row {:trigger OneHolder(v, i, k, row)}
      ensures OneHolder(v, i, k, row)
    {
      assert OneHolder(w, i, k, row);
    }
  }

  lemma OthersRowsStay(w: World, id: nat, k: nat)
    requires Inv(w) && k in w.txs && k != id && Apply(w, ForUpdate, Commit(id)).Some?
    ensures var b := Apply(w, ForUpdate, Commit(id)).value.accounts;
            forall row :: Holds(w.txs[k], ForUpdate, row) && row in w.accounts.emails ==>
              row in b.emails && b.emails[row] == w.accounts.emails[row]
  {
    var b := Apply(w, ForUpdate, Commit(id)).value.accounts;
    forall row | Holds(w.txs[k], ForUpdate, row) && row in w.accounts.emails
      ensures row in b.emails && b.emails[row] == w.accounts.emails[row]
    {
      assert OneHolder(w, id, k, row);
    }
  }

  lemma MoveKeeps(w: World, m: Move)
    requires Inv(w) && Apply(w, ForUpdate, m).Some?
    ensures Inv(Apply(w, ForUpdate, m).value)
  {
    var v := Apply(w, ForUpdate, m).value;
    match m
    case Commit(id) => CommitKeeps(w, id);
    case Begin(id, _, _) =>
      forall k ensures TransactionFits(v, k) { assert TransactionFits(w, k); }
      forall i, k, row {:trigger OneHolder(v, i, k, row)}
        ensures OneHolder(v, i, k, row)
      {
        assert OneHolder(w, i, k, row);
      }
    case Other(_, _) =>
      forall k ensures TransactionFits(v, k) { assert TransactionFits(w, k); }
      forall i, k, row {:trigger OneHolder(v, i, k, row)}
        ensures OneHolder(v, i, k, row)
      {
        assert OneHolder(w, i, k, row);
      }
    case _ => StatementKeeps(w, m);
  }

  // ---- runs ----

  /** Any interleaving of any number of transactions, from tables that agree. */
  ghost predicate IsTrace(mode: SurvivorRead, ws: seq<World>, ms: seq<Move>) {
    && |ws| == |ms| + 1
    && ws[0].txs == map[] && Agreement(ws[0].accounts, ws[0].next)
    && forall i :: 0 <= i < |ms| ==> Apply(ws[i], mode, ms[i]) == Some(ws[i + 1])
  }

  lemma {:induction false} InvAlways(ws: seq<World>, ms: seq<Move>, i: nat)
    requires IsTrace(ForUpdate, ws, ms) && i < |ws|
    ensures Inv(ws[i])
  {
    hide Apply, Agreement;
    if i > 0 {
      InvAlways(ws, ms, i - 1);
      assert Apply(ws[i - 1], ForUpdate, ms[i - 1]) == Some(ws[i]);
      MoveKeeps(ws[i - 1], ms[i - 1]);
    }
  }

  /**
    Every committed deletion of the interleaving is one atomic deletion; nothing else a transaction does
    changes the tables.
   */
  lemma CommitsAreAtomic(ws: seq<World>, ms: seq<Move>, i: nat)
    requires IsTrace(ForUpdate, ws, ms) && i < |ms| && !ms[i].Other?
    ensures if ms[i].Commit? then
              ms[i].id in ws[i].txs &&
              ws[i].accounts.DeleteVerified(ws[i].txs[ms[i].id].user, ws[i].txs[ms[i].id].target) ==
                  Ok(ws[i + 1].accounts)
            else ws[i + 1].accounts == ws[i].accounts
  {
    hide Agreement, Inv;
    InvAlways(ws, ms, i);
    assert Apply(ws[i], ForUpdate, ms[i]) == Some(ws[i + 1]);
    if ms[i].Commit? {
      CommitIsAtomic(ws[i], ms[i].id);
    }
  }

  lemma MoveStaysVerified(w: World, m: Move, u: UserId)
    requires Inv(w) && Apply(w, ForUpdate, m).Some?
    ensures StaysVerified(w.accounts, Apply(w, ForUpdate, m).value.accounts, u)
    ensures !m.Other? && u in w.accounts.users ==> u in Apply(w, ForUpdate, m).value.accounts.users
  {
    hide Inv, Agreement;
    if m.Commit? {
      CommitIsAtomic(w, m.id);
    }
    if m.Other? {
      assert StaysVerified(w.accounts, m.accounts, u);
    }
  }

  /**
    Whatever the interleaving, the committed tables always agree, and a verified user who is
    not deleted keeps a verified address, which is its only primary one and users.email.
   */
  lemma {:induction false} AlwaysAVerifiedPrimary(ws: seq<World>, ms: seq<Move>, i: nat, u: UserId)
    requires IsTrace(ForUpdate, ws, ms) && i < |ws|
    requires forall k :: 0 <= k <= i ==> u in ws[k].accounts.users
    requires ws[0].accounts.users[u].verifiedAt.Some?
    ensures var a := ws[i].accounts;
            a.users[u].email in a.Verified(u) &&
            (forall e :: e in a.emails && a.emails[e].user == u && a.emails[e].role == Primary ==>
             e == a.users[u].email) &&
            a.emails[a.users[u].email] == EmailRow(u, Primary, a.users[u].verifiedAt)
  {
    hide Apply;
    VerifiedAlways(ws, ms, i, u);
    InvAlways(ws, ms, i);
    var a := ws[i].accounts;
    assert UserFits(a, ws[i].next, u);
    forall e | e in a.emails && a.emails[e].user == u && a.emails[e].role == Primary ensures e == a.users[u].email {
      assert EmailFits(a, e);
    }
  }

  lemma {:induction false} VerifiedAlways(ws: seq<World>, ms: seq<Move>, i: nat, u: UserId)
    requires IsTrace(ForUpdate, ws, ms) && i < |ws|
    requires forall k :: 0 <= k <= i ==> u in ws[k].accounts.users
    requires ws[0].accounts.users[u].verifiedAt.Some?
    ensures ws[i].accounts.users[u].verifiedAt.Some?
  {
    hide Apply, Agreement;
    if i > 0 {
      VerifiedAlways(ws, ms, i - 1, u);
      InvAlways(ws, ms, i - 1);
      assert Apply(ws[i - 1], ForUpdate, ms[i - 1]) == Some(ws[i]);
      MoveStaysVerified(ws[i - 1], ms[i - 1], u);
    }
  }

  /** The transaction still waits for the survivor, or has rolled back. */
  predicate WaitsOrRolledBack(w: World, id: nat, other: Email) {
    id in w.txs && (w.txs[id].progress == SurvivorFound(other) || w.txs[id].progress == RolledBack)
  }

  /**
    Once the survivor is gone no move lets the waiting transaction go on, and only another operation
    brings the address back.
   */
  lemma WaitingStep(w: World, m: Move, id: nat, other: Email)
    requires Inv(w) && Apply(w, ForUpdate, m).Some? && WaitsOrRolledBack(w, id, other) && other !in w.accounts.emails
    requires m.Other? ==> other !in m.accounts.emails
    ensures WaitsOrRolledBack(Apply(w, ForUpdate, m).value, id, other) &&
            other !in Apply(w, ForUpdate, m).value.accounts.emails
  {
    hide Inv, Agreement;
    if m.Commit? {
      CommitIsAtomic(w, m.id);
    }
  }

  lemma CommitDeletesTarget(w: World, id: nat)
    requires Inv(w) && Apply(w, ForUpdate, Commit(id)).Some?
    ensures w.txs[id].target !in Apply(w, ForUpdate, Commit(id)).value.accounts.emails
    ensures forall k :: k in w.txs && k != id ==> k in Apply(w, ForUpdate, Commit(id)).value.txs &&
                                                  Apply(w, ForUpdate, Commit(id)).value.txs[k] == w.txs[k]
  {
    hide Inv, Agreement;
    CommitIsAtomic(w, id);
  }

  /**
    While transaction id waits to lock its survivor, transaction k commits the deletion of that
    address. From then on id waits or has rolled back, in every interleaving in which no other
    operation adds the address again; so it never commits, and its next statement rolls it back
    and leaves the tables as they are.
   */
  lemma {:induction false} SurvivorGoneRollsBack(ws: seq<World>, ms: seq<Move>, c: nat, j: nat, id: nat, k: nat,
                                                 other: Email)
    requires IsTrace(ForUpdate, ws, ms) && c < j < |ws| && ms[c] == Commit(k) && k != id
    requires id in ws[c].txs && ws[c].txs[id].progress == SurvivorFound(other)
    requires k in ws[c].txs && ws[c].txs[k].target == other
    requires forall m :: c < m < j && ms[m].Other? ==> other !in ms[m].accounts.emails
    ensures WaitsOrRolledBack(ws[j], id, other) && other !in ws[j].accounts.emails
    ensures ws[j].txs[id].progress == SurvivorFound(other) ==>
              Apply(ws[j], ForUpdate, LockSurvivor(id)) == Some(Put(ws[j], id, RolledBack))
    decreases j
  {
    hide Apply, Inv, Agreement;
    InvAlways(ws, ms, j - 1);
    assert Apply(ws[j - 1], ForUpdate, ms[j - 1]) == Some(ws[j]);
    if j == c + 1 {
      CommitDeletesTarget(ws[c], k);
    } else {
      SurvivorGoneRollsBack(ws, ms, c, j - 1, id, k, other);
      WaitingStep(ws[j - 1], ms[j - 1], id, other);
    }
    LockingNothing(ws[j], id, other);
  }

  lemma LockingNothing(w: World, id: nat, other: Email)
    ensures id in w.txs && w.txs[id].progress == SurvivorFound(other) && other !in w.accounts.emails ==>
              Apply(w, ForUpdate, LockSurvivor(id)) == Some(Put(w, id, RolledBack))
  {
  }

  // ---- no deadlock ----

  /** What the transaction does next. */
  ghost function NextMove(w: World, id: nat): Move
    requires id in w.txs
  {
    var x := w.txs[id];
    match x.progress
    case Begun => FindTarget(id)
    case TargetFound => LockTarget(id)
    case TargetLocked(_) => Count(id)
    case Counted(_) => Delete(id)
    case Deleted(Secondary) => Commit(id)
    case Deleted(Primary) =>
      if w.accounts.Survivor(x.user, x.target).Some?
      then FindSurvivor(id, w.accounts.Survivor(x.user, x.target).value)
      else NoSurvivor(id)
    case SurvivorFound(_) => LockSurvivor(id)
    case SurvivorLocked(_, _) => Promote(id)
    case Promoted(_, _) => Sync(id)
    case _ => Commit(id)
  }

  ghost predicate CanMove(w: World, id: nat) {
    id in w.txs && Apply(w, ForUpdate, NextMove(w, id)).Some?
  }

  /** At most one transaction of a user has locked the primary row. */
  lemma OnePromoter(w: World, id: nat, k: nat)
    requires Inv(w) && id in w.txs && k in w.txs && w.txs[id].user == w.txs[k].user
    requires w.txs[id].Role() == Some(Primary) && w.txs[k].Role() == Some(Primary)
    ensures id == k
  {
    assert TransactionFits(w, id) && TransactionFits(w, k);
    assert EmailFits(w.accounts, w.txs[id].target) && EmailFits(w.accounts, w.txs[k].target);
    assert OneHolder(w, id, k, w.txs[id].target);
  }

  lemma PromotersMove(w: World, id: nat)
    requires Inv(w) && id in w.txs && w.txs[id].Survivor().Some?
    ensures CanMove(w, id)
  {
    hide Inv;
    var x := w.txs[id];
    forall k | k in w.txs && w.txs[k].progress.Synced? && w.txs[k].user == x.user ensures k == id {
      OnePromoter(w, id, k);
    }
  }

  /** The holder of a survivor that another transaction waits for is promoting it or deleting it as a secondary row. */
  lemma SurvivorHolderMoves(w: World, id: nat, k: nat)
    requires Inv(w) && id in w.txs && w.txs[id].progress.SurvivorFound? && k in w.txs && k != id
    requires w.accounts.IsSurvivor(w.txs[id].user, w.txs[id].target, w.txs[id].progress.other)
    requires Holds(w.txs[k], ForUpdate, w.txs[id].progress.other)
    ensures CanMove(w, k)
  {
    var x, y := w.txs[id], w.txs[k];
    if y.Survivor().Some? {
      PromotersMove(w, k);
    } else {
      assert TransactionFits(w, id) && TransactionFits(w, k);
      assert EmailFits(w.accounts, x.target) && EmailFits(w.accounts, y.target);
    }
  }

  /** A transaction that holds a lock can move, or the one that holds the survivor it waits for can. */
  lemma HoldersMove(w: World, id: nat)
    requires Inv(w) && id in w.txs && w.txs[id].Role().Some?
    ensures exists k :: CanMove(w, k)
  {
    hide Inv;
    var x := w.txs[id];
    if x.Survivor().Some? {
      PromotersMove(w, id);
    } else if x.progress.SurvivorFound? && w.accounts.IsSurvivor(x.user, x.target, x.progress.other)
              && !IsFree(w, ForUpdate, id, x.progress.other) {
      var k :| k in w.txs && k != id && Holds(w.txs[k], ForUpdate, x.progress.other);
      SurvivorHolderMoves(w, id, k);
    } else {
      assert CanMove(w, id);
    }
  }

  /** The lock order cannot deadlock: while some transaction is unfinished, some transaction's next statement runs. */
  lemma NoDeadlock(ws: seq<World>, ms: seq<Move>, i: nat, id: nat)
    requires IsTrace(ForUpdate, ws, ms) && i < |ws| && id in ws[i].txs && !ws[i].txs[id].IsFinished()
    ensures exists k :: CanMove(ws[i], k)
  {
    hide Agreement, Inv;
    InvAlways(ws, ms, i);
    var w := ws[i];
    var x := w.txs[id];
    if x.Role().Some? {
      HoldersMove(w, id);
    } else if x.progress.TargetFound? && !IsFree(w, ForUpdate, id, x.target) {
      var k :| k in w.txs && k != id && Holds(w.txs[k], ForUpdate, x.target);
      HoldersMove(w, k);
    } else {
      assert CanMove(w, id);
    }
  }
}
