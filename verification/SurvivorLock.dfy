/** Why the survivor is read FOR UPDATE: with a plain read two deletions leave a user without any address. */
module SurvivorLock {
  import opened Domain
  import opened Tables
  import opened AccountEmails
  import opened DeleteVerifiedRace
  import Sets

  ghost function Run(w: World, mode: SurvivorRead, ms: seq<Move>): Option<World>
    decreases |ms|
  {
    if ms == [] then Some(w)
    else
      match Run(w, mode, ms[..|ms| - 1])
      case None => None
      case Some(v) => Apply(v, mode, ms[|ms| - 1])
  }

  lemma Extend(start: World, ms: seq<Move>, w: World, m: Move) returns (longer: seq<Move>, v: World)
    requires Run(start, Plain, ms) == Some(w) && Apply(w, Plain, m).Some?
    ensures Run(start, Plain, longer) == Some(v) && Apply(w, Plain, m) == Some(v)
  {
    hide Apply;
    longer := ms + [m];
    assert longer[..|longer| - 1] == ms;
    v := Apply(w, Plain, m).value;
  }

  /** u has a verified primary address p and a verified secondary address s. */
  ghost predicate HasTwo(a: Accounts, next: Token, u: UserId, p: Email, s: Email) {
    && Agreement(a, next) && u in a.users && a.users[u].email == p && p in a.Verified(u) && s in a.Verified(u) && s != p
  }

  lemma TwoRows(a: Accounts, next: Token, u: UserId, p: Email, s: Email)
    requires HasTwo(a, next, u, p, s)
    ensures |a.Verified(u)| >= 2 && a.emails[p].role == Primary && a.emails[s].role == Secondary
    ensures forall e :: e in a.emails && a.emails[e].user == u ==> e == p || e == s
  {
    assert {p, s} <= a.Verified(u) && |{p, s}| == 2;
    Sets.SubsetSize({p, s}, a.Verified(u));
    assert UserFits(a, next, u) && EmailFits(a, s);
    forall e | e in a.emails && a.emails[e].user == u ensures e == p || e == s {
      assert EmailFits(a, e) && SameSecondary(a, e, s);
    }
  }

  function With(w: World, id: nat, x: Transaction): World { w.(txs := w.txs[id := x]) }

  /** A move from one progress of transaction id to the next. */
  lemma Advance(start: World, ms: seq<Move>, w: World, id: nat, x: Transaction, m: Move, progress: Progress)
    returns (longer: seq<Move>)
    requires Run(start, Plain, ms) == Some(With(w, id, x))
    requires Apply(With(w, id, x), Plain, m) == Some(Put(With(w, id, x), id, progress))
    ensures Run(start, Plain, longer) == Some(With(w, id, x.(progress := progress)))
  {
    hide Apply, Run;
    var v: World;
    longer, v := Extend(start, ms, With(w, id, x), m);
    assert w.txs[id := x][id := x.(progress := progress)] == w.txs[id := x.(progress := progress)];
  }

  /** The first transaction locks the primary row. */
  lemma FirstLocksPrimary(start: World, u: UserId, p: Email, s: Email) returns (ms: seq<Move>)
    requires start.txs == map[] && HasTwo(start.accounts, start.next, u, p, s)
    ensures Run(start, Plain, ms) == Some(With(start, 1, Transaction(u, p, TargetLocked(Primary))))
  {
    hide Run, Agreement;
    TwoRows(start.accounts, start.next, u, p, s);
    assert Run(start, Plain, []) == Some(start) by { RunNothing(start); }
    var x := Transaction(u, p, Begun);
    var v: World;
    ms, v := Extend(start, [], start, Begin(1, u, p));
    ms := Advance(start, ms, start, 1, x, FindTarget(1), TargetFound);
    ms := Advance(start, ms, start, 1, x.(progress := TargetFound), LockTarget(1), TargetLocked(Primary));
  }

  /** It deletes the row, uncommitted. */
  lemma FirstDeletesPrimary(start: World, u: UserId, p: Email, ms0: seq<Move>) returns (ms: seq<Move>)
    requires Run(start, Plain, ms0) == Some(With(start, 1, Transaction(u, p, TargetLocked(Primary)))) &&
             |start.accounts.Verified(u)| >= 2
    ensures Run(start, Plain, ms) == Some(With(start, 1, Transaction(u, p, Progress.Deleted(Primary))))
  {
    hide Run;
    var x := Transaction(u, p, TargetLocked(Primary));
    ms := Advance(start, ms0, start, 1, x, Count(1), Counted(Primary));
    ms := Advance(start, ms, start, 1, x.(progress := Counted(Primary)), Delete(1), Progress.Deleted(Primary));
  }

  /** It reads s as the survivor. */
  lemma FirstReadsSurvivor(start: World, u: UserId, p: Email, s: Email, ms0: seq<Move>) returns (ms: seq<Move>)
    requires Run(start, Plain, ms0) == Some(With(start, 1, Transaction(u, p, Progress.Deleted(Primary))))
    requires s in start.accounts.Verified(u) && s != p
    ensures Run(start, Plain, ms) ==
            Some(With(start, 1, Transaction(u, p, SurvivorLocked(s, start.accounts.emails[s].verifiedAt.value))))
  {
    hide Run;
    var x := Transaction(u, p, Progress.Deleted(Primary));
    ms := Advance(start, ms0, start, 1, x, FindSurvivor(1, s), SurvivorFound(s));
    ms := Advance(start, ms, start, 1, x.(progress := SurvivorFound(s)), LockSurvivor(1),
                  SurvivorLocked(s, start.accounts.emails[s].verifiedAt.value));
  }

  lemma RunNothing(w: World)
    ensures Run(w, Plain, []) == Some(w)
  {
  }

  /** The second one locks s, which nothing holds. */
  lemma SecondLocksIt(start: World, u: UserId, p: Email, s: Email, ms0: seq<Move>, w: World) returns (ms: seq<Move>)
    requires HasTwo(start.accounts, start.next, u, p, s) && Run(start, Plain, ms0) == Some(w)
    requires w ==
             start.(txs := map[1 := Transaction(u, p, SurvivorLocked(s, start.accounts.emails[s].verifiedAt.value))])
    ensures Run(start, Plain, ms) == Some(With(w, 2, Transaction(u, s, TargetLocked(Secondary))))
  {
    hide Run, Agreement;
    TwoRows(start.accounts, start.next, u, p, s);
    var v: World;
    var x := Transaction(u, s, Begun);
    ms, v := Extend(start, ms0, w, Begin(2, u, s));
    ms := Advance(start, ms, w, 2, x, FindTarget(2), TargetFound);
    ms := Advance(start, ms, w, 2, x.(progress := TargetFound), LockTarget(2), TargetLocked(Secondary));
  }

  /** It deletes the row and commits. */
  lemma SecondDeletesIt(start: World, u: UserId, s: Email, ms0: seq<Move>, w: World) returns (ms: seq<Move>)
    requires Run(start, Plain, ms0) == Some(With(w, 2, Transaction(u, s, TargetLocked(Secondary)))) &&
             |w.accounts.Verified(u)| >= 2
    ensures Run(start, Plain, ms) ==
            Some(With(w.(accounts := w.accounts.WithoutAddress(s)), 2, Transaction(u, s, Committed)))
  {
    hide Run;
    var v: World;
    var x := Transaction(u, s, TargetLocked(Secondary));
    ms := Advance(start, ms0, w, 2, x, Count(2), Counted(Secondary));
    ms := Advance(start, ms, w, 2, x.(progress := Counted(Secondary)), Delete(2), Progress.Deleted(Secondary));
    ms, v := Extend(start, ms, With(w, 2, x.(progress := Progress.Deleted(Secondary))), Commit(2));
    assert w.txs[2 := x.(progress := Progress.Deleted(Secondary))][2 := Transaction(u, s, Committed)] ==
        w.txs[2 := Transaction(u, s, Committed)];
  }

  /** Then the first updates a row that is no longer there, and the users row. */
  lemma FirstSyncs(start: World, ms0: seq<Move>, w: World, u: UserId, p: Email, s: Email, at: Time)
    returns (ms: seq<Move>)
    requires Run(start, Plain, ms0) == Some(With(w, 1, Transaction(u, p, SurvivorLocked(s, at))))
    requires forall k :: k in w.txs && k != 1 ==> w.txs[k].IsFinished()
    ensures Run(start, Plain, ms) == Some(With(w, 1, Transaction(u, p, Synced(s, at))))
  {
    hide Run;
    var x := Transaction(u, p, SurvivorLocked(s, at));
    ms := Advance(start, ms0, w, 1, x, Promote(1), Promoted(s, at));
    ms := Advance(start, ms, w, 1, x.(progress := Promoted(s, at)), Sync(1), Synced(s, at));
  }

  lemma FirstCommits(start: World, ms0: seq<Move>, w: World, u: UserId, p: Email, s: Email, at: Time)
    returns (ms: seq<Move>, v: World)
    requires Run(start, Plain, ms0) == Some(With(w, 1, Transaction(u, p, Synced(s, at)))) && s !in w.accounts.emails
    ensures Run(start, Plain, ms) == Some(v)
    ensures v.accounts.emails == w.accounts.emails - {p} && v.accounts.users.Keys == w.accounts.users.Keys
  {
    hide Run;
    ms, v := Extend(start, ms0, With(w, 1, Transaction(u, p, Synced(s, at))), Commit(1));
  }

  /** For every user with two verified addresses, some interleaving deletes both. */
  lemma PlainReadLosesBothAddresses(start: World, u: UserId, p: Email, s: Email)
    requires start.txs == map[] && HasTwo(start.accounts, start.next, u, p, s)
    ensures exists ms :: Run(start, Plain, ms).Some? && Run(start, Plain, ms).value.accounts.Verified(u) == {} &&
                         u in Run(start, Plain, ms).value.accounts.users
  {
    hide Run, Agreement, Apply;
    TwoRows(start.accounts, start.next, u, p, s);
    var ms := FirstLocksPrimary(start, u, p, s);
    ms := FirstDeletesPrimary(start, u, p, ms);
    ms := FirstReadsSurvivor(start, u, p, s, ms);
    var w := With(start, 1, Transaction(u, p, SurvivorLocked(s, start.accounts.emails[s].verifiedAt.value)));
    ms := SecondLocksIt(start, u, p, s, ms, w);
    ms := SecondDeletesIt(start, u, s, ms, w);
    var at := start.accounts.emails[s].verifiedAt.value;
    var w2 := With(w.(accounts := start.accounts.WithoutAddress(s)), 2, Transaction(u, s, Committed));
    assert With(w2, 1, Transaction(u, p, SurvivorLocked(s, at))) == w2;
    var v: World;
    ms := FirstSyncs(start, ms, w2, u, p, s, at);
    ms, v := FirstCommits(start, ms, w2, u, p, s, at);
    assert v.accounts.Verified(u) == {};
  }
}
