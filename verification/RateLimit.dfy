/** The sliding-window rate limiter. */
module RateLimit {
  import opened Domain

  /** Every hit of every key since the key was last cleared; an absent key has none. */
  type Log = map<string, seq<Time>>

  function Hits(log: Log, key: string): seq<Time> { if key in log then log[key] else [] }

  /** How many of the hits are later than the cutoff. */
  function Later(xs: seq<Time>, cutoff: Time): (n: nat)
    ensures n <= |xs|
  {
    if |xs| == 0 then 0 else Later(xs[..|xs| - 1], cutoff) + if xs[|xs| - 1] > cutoff then 1 else 0
  }

  predicate AllAtMost(xs: seq<Time>, bound: Time) { forall i :: 0 <= i < |xs| ==> xs[i] <= bound }

  predicate Sorted(xs: seq<Time>) { forall i, j :: 0 <= i < j < |xs| ==> xs[i] <= xs[j] }

  /** One hit of each non-empty key, from left to right. */
  function Pushed(log: Log, keys: seq<string>, at: Time): Log {
    if |keys| == 0 then log
    else
      var before := Pushed(log, keys[..|keys| - 1], at);
      var key := keys[|keys| - 1];
      if key == "" then before else before[key := Hits(before, key) + [at]]
  }

  function Cleared(log: Log, keys: seq<string>): Log { map key | key in log && key !in keys :: log[key] }

  /** The answer an unpruned log gives: some non-empty key has at least max hits inside the window. */
  predicate Exceeded(log: Log, max: int, window: Time, keys: seq<string>, at: Time) {
    max > 0 && exists i :: 0 <= i < |keys| && keys[i] != "" && Later(Hits(log, keys[i]), at - window) >= max
  }

  lemma {:induction false} LaterOfConcat(xs: seq<Time>, ys: seq<Time>, cutoff: Time)
    ensures Later(xs + ys, cutoff) == Later(xs, cutoff) + Later(ys, cutoff)
  {
    if |ys| == 0 {
      assert xs + ys == xs;
    } else {
      LaterOfConcat(xs, ys[..|ys| - 1], cutoff);
      assert (xs + ys)[..|xs + ys| - 1] == xs + ys[..|ys| - 1];
    }
  }

  lemma {:induction false} LaterOfEarly(xs: seq<Time>, cutoff: Time)
    requires AllAtMost(xs, cutoff)
    ensures Later(xs, cutoff) == 0
  {
    if |xs| > 0 {
      LaterOfEarly(xs[..|xs| - 1], cutoff);
    }
  }

  lemma {:induction false} LaterOfSorted(xs: seq<Time>, cutoff: Time)
    requires Sorted(xs) && (|xs| > 0 ==> xs[0] > cutoff)
    ensures Later(xs, cutoff) == |xs|
  {
    if |xs| > 1 {
      LaterOfSorted(xs[..|xs| - 1], cutoff);
    }
  }

  /** The dropped hits have expired; the kept ones are sorted and not later than now. */
  predicate IsPruned(dropped: seq<Time>, kept: seq<Time>, window: Time, now: Time) {
    AllAtMost(dropped, now - window) && Sorted(kept) && AllAtMost(kept, now)
  }

  /** Dropping the leading expired hits leaves exactly the hits inside the window. */
  lemma PrunedFurther(dropped: seq<Time>, kept: seq<Time>, window: Time, before: Time, now: Time, i: nat)
    requires IsPruned(dropped, kept, window, before) && before <= now && i <= |kept|
    requires AllAtMost(kept[..i], now - window)
    requires i < |kept| ==> kept[i] > now - window
    ensures IsPruned(dropped + kept[..i], kept[i..], window, now)
    ensures (dropped + kept[..i]) + kept[i..] == dropped + kept
    ensures Later(dropped + kept, now - window) == |kept[i..]|
  {
    LaterOfEarly(dropped + kept[..i], now - window);
    LaterOfSorted(kept[i..], now - window);
    LaterOfConcat(dropped + kept[..i], kept[i..], now - window);
  }

  /** What the limiter stores for one key against the key's full log. */
  predicate KeyInSync(hits: Log, dropped: Log, log: Log, window: Time, now: Time, key: string) {
    && Hits(log, key) == Hits(dropped, key) + Hits(hits, key)
    && IsPruned(Hits(dropped, key), Hits(hits, key), window, now)
  }

  ghost predicate InSync(hits: Log, dropped: Log, log: Log, window: Time, now: Time) {
    forall key :: KeyInSync(hits, dropped, log, window, now, key)
  }

  function Stored(hits: Log, key: string, xs: seq<Time>): Log {
    if |xs| == 0 then hits - {key} else hits[key := xs]
  }

  lemma PrunedHit(dropped: seq<Time>, kept: seq<Time>, window: Time, now: Time)
    requires IsPruned(dropped, kept, window, now)
    ensures IsPruned(dropped, kept + [now], window, now)
    ensures dropped + (kept + [now]) == (dropped + kept) + [now]
  {
  }

  lemma PrunedLater(dropped: seq<Time>, kept: seq<Time>, window: Time, before: Time, now: Time)
    requires IsPruned(dropped, kept, window, before) && before <= now
    ensures IsPruned(dropped, kept, window, now)
  {
  }

  lemma InSyncPruned(hits: Log, dropped: Log, log: Log, window: Time, before: Time, now: Time, key: string, i: nat)
    requires InSync(hits, dropped, log, window, before) && before <= now
    requires i <= |Hits(hits, key)| && AllAtMost(Hits(hits, key)[..i], now - window)
    requires i < |Hits(hits, key)| ==> Hits(hits, key)[i] > now - window
    ensures var all := Hits(hits, key);
            InSync(Stored(hits, key, all[i..]), dropped[key := Hits(dropped, key) + all[..i]], log, window, now)
    ensures Later(Hits(log, key), now - window) == |Hits(hits, key)[i..]|
  {
    hide IsPruned;
    hide Later;
    var all := Hits(hits, key);
    assert KeyInSync(hits, dropped, log, window, before, key);
    PrunedFurther(Hits(dropped, key), all, window, before, now, i);
    var hits', dropped' := Stored(hits, key, all[i..]), dropped[key := Hits(dropped, key) + all[..i]];
    hide AllAtMost;
    forall other ensures KeyInSync(hits', dropped', log, window, now, other) {
      if other == key {
        assert Hits(hits', key) == all[i..] && Hits(dropped', key) == Hits(dropped, key) + all[..i];
      } else {
        assert KeyInSync(hits, dropped, log, window, before, other);
        PrunedLater(Hits(dropped, other), Hits(hits, other), window, before, now);
        assert Hits(hits', other) == Hits(hits, other) && Hits(dropped', other) == Hits(dropped, other);
      }
    }
  }

  lemma InSyncHit(hits: Log, dropped: Log, log: Log, window: Time, now: Time, key: string)
    requires InSync(hits, dropped, log, window, now)
    ensures InSync(hits[key := Hits(hits, key) + [now]], dropped, log[key := Hits(log, key) + [now]], window, now)
  {
    hide IsPruned;
    var hits', log' := hits[key := Hits(hits, key) + [now]], log[key := Hits(log, key) + [now]];
    assert KeyInSync(hits, dropped, log, window, now, key);
    PrunedHit(Hits(dropped, key), Hits(hits, key), window, now);
    forall other ensures KeyInSync(hits', dropped, log', window, now, other) {
      assert KeyInSync(hits, dropped, log, window, now, other);
    }
  }

  lemma InSyncCleared(hits: Log, dropped: Log, log: Log, window: Time, now: Time, key: string)
    requires InSync(hits, dropped, log, window, now)
    ensures InSync(hits - {key}, dropped - {key}, log - {key}, window, now)
  {
    forall other ensures KeyInSync(hits - {key}, dropped - {key}, log - {key}, window, now, other) {
      assert KeyInSync(hits, dropped, log, window, now, other);
    }
  }

  class Limiter {
    const max: int
    const window: Time
    var hits: Log
    ghost var dropped: Log
    ghost var log: Log
    ghost var last: Time  // the latest clock reading taken under the lock

    ghost predicate Valid()
      reads this
    {
      InSync(hits, dropped, log, window, last)
    }

    constructor (max: int, window: Time, ghost start: Time)
      ensures Valid() && this.max == max && this.window == window && log == map[] && last == start
    {
      this.max, this.window := max, window;
      hits, dropped, log, last := map[], map[], map[], start;
    }

    method Pruned(key: string, now: Time) returns (xs: seq<Time>)
      requires Valid() && last <= now
      modifies `hits, `dropped, `last
      ensures Valid() && last == now
      ensures xs == Hits(hits, key) && |xs| == Later(Hits(log, key), now - window)
    {
      hide InSync;
      var cutoff := now - window;
      var all := Hits(hits, key);
      var i := 0;
      while i < |all| && all[i] <= cutoff
        invariant 0 <= i <= |all|
        invariant AllAtMost(all[..i], cutoff)
      {
        i := i + 1;
      }
      InSyncPruned(hits, dropped, log, window, last, now, key, i);
      dropped := dropped[key := Hits(dropped, key) + all[..i]];
      last := now;
      xs := all[i..];
      if |xs| == 0 {
        hits := hits - {key};
      } else {
        hits := hits[key := xs];
      }
    }

    /** Clock readings are nondecreasing in lock order; then pruning is invisible. */
    method TooMany(keys: seq<string>, now: Time) returns (tooMany: bool)
      requires Valid() && last <= now
      modifies `hits, `dropped, `last
      ensures Valid() && last <= now
      ensures tooMany <==> Exceeded(log, max, window, keys, now)
    {
      hide InSync;
      if max <= 0 {
        return false;
      }
      for k := 0 to |keys|
        invariant Valid() && last <= now
        invariant forall i :: 0 <= i < k && keys[i] != "" ==> Later(Hits(log, keys[i]), now - window) < max
      {
        if keys[k] == "" {
          continue;
        }
        var xs := Pruned(keys[k], now);
        if |xs| >= max {
          return true;
        }
      }
      return false;
    }

    method Hit(keys: seq<string>, now: Time)
      requires Valid() && last <= now
      modifies `hits, `dropped, `log, `last
      ensures Valid() && last <= now
      ensures log == if max > 0 then Pushed(old(log), keys, now) else old(log)
    {
      hide InSync;
      if max <= 0 {
        return;
      }
      for k := 0 to |keys|
        invariant Valid() && last <= now
        invariant log == Pushed(old(log), keys[..k], now)
      {
        assert keys[..k + 1][..k] == keys[..k];
        var key := keys[k];
        if key == "" {
          continue;
        }
        var xs := Pruned(key, now);
        InSyncHit(hits, dropped, log, window, now, key);
        hits := hits[key := xs + [now]];
        log := log[key := Hits(log, key) + [now]];
      }
      assert keys[..|keys|] == keys;
    }

    method Clear(keys: seq<string>)
      requires Valid()
      modifies `hits, `dropped, `log
      ensures Valid() && last == old(last) && log == Cleared(old(log), keys)
      ensures forall key :: Hits(log, key) == if key in keys then [] else Hits(old(log), key)
    {
      hide InSync;
      for k := 0 to |keys|
        invariant Valid() && log == Cleared(old(log), keys[..k])
      {
        InSyncCleared(hits, dropped, log, window, last, keys[k]);
        hits := hits - {keys[k]};
        dropped := dropped - {keys[k]};
        log := log - {keys[k]};
      }
      assert keys[..|keys|] == keys;
    }
  }

  datatype Call =
    | TooManyCall(keys: seq<string>, at: Time)
    | HitCall(keys: seq<string>, at: Time)
    | ClearCall(keys: seq<string>)

  /** The clock reading of a call; Clear takes none and keeps the previous one. */
  function Reading(c: Call, before: Time): Time { if c.ClearCall? then before else c.at }

  predicate ClockAdvances(calls: seq<Call>, start: Time) {
    |calls| == 0 || (start <= Reading(calls[0], start) && ClockAdvances(calls[1..], Reading(calls[0], start)))
  }

  /** The answers an unpruned log gives to a sequence of calls. */
  function Answers(log: Log, max: int, window: Time, calls: seq<Call>): seq<bool>
    decreases |calls|
  {
    if |calls| == 0 then []
    else
      match calls[0]
      case TooManyCall(keys, at) => [Exceeded(log, max, window, keys, at)] + Answers(log, max, window, calls[1..])
      case HitCall(keys, at) => Answers(if max > 0 then Pushed(log, keys, at) else log, max, window, calls[1..])
      case ClearCall(keys) => Answers(Cleared(log, keys), max, window, calls[1..])
  }

  // ---- the answers in terms of the calls alone ----

  /** The j-th key of the i-th call is a hit of this key after the cutoff that no call before the n-th has cleared. */
  predicate Counts(calls: seq<Call>, n: nat, key: string, cutoff: Time, i: nat, j: nat)
    requires i < n <= |calls| && j < |calls[i].keys|
  {
    calls[i].HitCall? && calls[i].keys[j] == key && calls[i].at > cutoff &&
    forall m :: i < m < n && calls[m].ClearCall? ==> key !in calls[m].keys
  }

  function Occurrences(calls: seq<Call>, n: nat, key: string, cutoff: Time): set<(nat, nat)>
    requires n <= |calls|
  {
    set i: nat, j: nat | i < n && j < |calls[i].keys| && Counts(calls, n, key, cutoff, i, j) :: (i, j)
  }

  /** Some non-empty key was hit at least max times in the window. */
  ghost predicate HitTooOften(calls: seq<Call>, n: nat, max: int, window: Time)
    requires n < |calls| && calls[n].TooManyCall?
  {
    max > 0 && exists key :: key in calls[n].keys && key != "" &&
                             |Occurrences(calls, n, key, calls[n].at - window)| >= max
  }

  /** How many of the first n calls ask. */
  function Asked(calls: seq<Call>, n: nat): nat
    requires n <= |calls|
  {
    if n == 0 then 0 else Asked(calls, n - 1) + if calls[n - 1].TooManyCall? then 1 else 0
  }

  function LogAfter(calls: seq<Call>, n: nat): Log
    requires n <= |calls|
  {
    if n == 0 then map[]
    else
      match calls[n - 1]
      case TooManyCall(_, _) => LogAfter(calls, n - 1)
      case HitCall(keys, at) => Pushed(LogAfter(calls, n - 1), keys, at)
      case ClearCall(keys) => Cleared(LogAfter(calls, n - 1), keys)
  }

  lemma HitsAfterClear(log: Log, keys: seq<string>, key: string)
    ensures Hits(Cleared(log, keys), key) == if key in keys then [] else Hits(log, key)
  {
  }

  function Positions(keys: seq<string>, key: string, n: nat): set<(nat, nat)> {
    set j: nat | j < |keys| && keys[j] == key :: (n, j)
  }

  lemma {:induction false} LaterAfterPush(log: Log, keys: seq<string>, at: Time, key: string, cutoff: Time, n: nat)
    requires key != ""
    ensures Later(Hits(Pushed(log, keys, at), key), cutoff) ==
            Later(Hits(log, key), cutoff) + if at > cutoff then |Positions(keys, key, n)| else 0
  {
    if |keys| == 0 {
      assert Positions(keys, key, n) == {};
    } else {
      var k := |keys| - 1;
      LaterAfterPush(log, keys[..k], at, key, cutoff, n);
      PositionsStep(keys, key, n);
      var before := Hits(Pushed(log, keys[..k], at), key);
      assert (before + [at])[..|before|] == before;
    }
  }

  lemma PositionsStep(keys: seq<string>, key: string, n: nat)
    requires |keys| > 0
    ensures var k := |keys| - 1;
            |Positions(keys, key, n)| == |Positions(keys[..k], key, n)| + if keys[k] == key then 1 else 0
  {
    var k := |keys| - 1;
    var all, before := Positions(keys, key, n), Positions(keys[..k], key, n);
    forall x ensures x in all <==> x in before || (keys[k] == key && x == (n, k)) {
      PositionIff(keys, key, n, x);
      PositionIff(keys[..k], key, n, x);
    }
    PositionIff(keys[..k], key, n, (n, k));
    hide Positions;
    assert all == if keys[k] == key then before + {(n, k)} else before;
  }

  lemma PositionIff(keys: seq<string>, key: string, n: nat, x: (nat, nat))
    ensures x in Positions(keys, key, n) <==> x.0 == n && x.1 < |keys| && keys[x.1] == key
  {
  }

  lemma OccurrencesStep(calls: seq<Call>, n: nat, key: string, cutoff: Time)
    requires n < |calls|
    ensures Occurrences(calls, n + 1, key, cutoff) ==
            match calls[n]
            case TooManyCall(_, _) => Occurrences(calls, n, key, cutoff)
            case HitCall(keys, at) =>
              Occurrences(calls, n, key, cutoff) + if at > cutoff then Positions(keys, key, n) else {}
            case ClearCall(keys) => if key in keys then {} else Occurrences(calls, n, key, cutoff)
  {
    forall i: nat, j: nat | i < n && j < |calls[i].keys|
      ensures Counts(calls, n + 1, key, cutoff, i, j) <==>
              Counts(calls, n, key, cutoff, i, j) && !(calls[n].ClearCall? && key in calls[n].keys)
    {
    }
  }

  /** The unpruned log has as many recent hits of a key as there are such occurrences. */
  lemma {:induction false} LogCounts(calls: seq<Call>, n: nat, key: string, cutoff: Time)
    requires n <= |calls| && key != ""
    ensures Later(Hits(LogAfter(calls, n), key), cutoff) == |Occurrences(calls, n, key, cutoff)|
  {
    hide Later, Pushed, Cleared, Occurrences;
    if n == 0 {
      NoOccurrences(calls, key, cutoff);
    } else {
      LogCounts(calls, n - 1, key, cutoff);
      OccurrencesStep(calls, n - 1, key, cutoff);
      match calls[n - 1]
      case TooManyCall(_, _) =>
      case HitCall(keys, at) =>
        LaterAfterPush(LogAfter(calls, n - 1), keys, at, key, cutoff, n - 1);
        OccurrencesAreEarlier(calls, n - 1, key, cutoff);
        assert Occurrences(calls, n - 1, key, cutoff) !! Positions(keys, key, n - 1);
      case ClearCall(keys) =>
        HitsAfterClear(LogAfter(calls, n - 1), keys, key);
        NothingIsLater(cutoff);
    }
  }

  lemma NothingIsLater(cutoff: Time)
    ensures Later([], cutoff) == 0
  {
  }

  lemma NoOccurrences(calls: seq<Call>, key: string, cutoff: Time)
    ensures Occurrences(calls, 0, key, cutoff) == {} && Later(Hits(map[], key), cutoff) == 0
  {
  }

  lemma OccurrencesAreEarlier(calls: seq<Call>, n: nat, key: string, cutoff: Time)
    requires n <= |calls|
    ensures forall x :: x in Occurrences(calls, n, key, cutoff) ==> x.0 < n
  {
  }

  lemma ExceededIff(calls: seq<Call>, n: nat, max: int, window: Time)
    requires n < |calls| && calls[n].TooManyCall?
    ensures Exceeded(LogAfter(calls, n), max, window, calls[n].keys, calls[n].at) <==>
            HitTooOften(calls, n, max, window)
  {
    hide Later, LogAfter, Occurrences;
    var keys, cutoff := calls[n].keys, calls[n].at - window;
    forall i | 0 <= i < |keys| && keys[i] != ""
      ensures Later(Hits(LogAfter(calls, n), keys[i]), cutoff) == |Occurrences(calls, n, keys[i], cutoff)|
    {
      LogCounts(calls, n, keys[i], cutoff);
    }
    if Exceeded(LogAfter(calls, n), max, window, keys, calls[n].at) {
      var i :| 0 <= i < |keys| && keys[i] != "" && Later(Hits(LogAfter(calls, n), keys[i]), cutoff) >= max;
      assert keys[i] in keys && |Occurrences(calls, n, keys[i], cutoff)| >= max;
    }
    if HitTooOften(calls, n, max, window) {
      var key :| key in keys && key != "" && |Occurrences(calls, n, key, cutoff)| >= max;
      var i :| 0 <= i < |keys| && keys[i] == key;
      assert Later(Hits(LogAfter(calls, n), keys[i]), cutoff) >= max;
    }
  }

  /** The answers from the n-th call on are those of the log after the first n calls. */
  lemma {:induction false} AnswersFrom(calls: seq<Call>, max: int, window: Time, n: nat)
    requires n <= |calls| && max > 0
    ensures |Answers(map[], max, window, calls)| >= Asked(calls, n)
    ensures Answers(map[], max, window, calls)[Asked(calls, n)..] ==
            Answers(LogAfter(calls, n), max, window, calls[n..])
  {
    hide Pushed, Cleared, Exceeded;
    if n == 0 {
      assert calls[0..] == calls;
    } else {
      AnswersFrom(calls, max, window, n - 1);
      var log, rest := LogAfter(calls, n - 1), calls[n - 1..];
      assert rest[0] == calls[n - 1] && rest[1..] == calls[n..];
      var all, tail := Answers(map[], max, window, calls), Answers(log, max, window, rest);
      if calls[n - 1].TooManyCall? {
        assert |tail| > 0;
        assert all[Asked(calls, n)..] == tail[1..];
      }
    }
  }

  lemma {:induction false} NeverTooMany(log: Log, max: int, window: Time, calls: seq<Call>)
    requires max <= 0
    ensures |Answers(log, max, window, calls)| == Asked(calls, |calls|)
    ensures forall k :: 0 <= k < |Answers(log, max, window, calls)| ==> !Answers(log, max, window, calls)[k]
    decreases |calls|
  {
    if |calls| > 0 {
      AskedFirst(calls, |calls|);
      match calls[0]
      case TooManyCall(keys, at) => NeverTooMany(log, max, window, calls[1..]);
      case HitCall(keys, at) => NeverTooMany(log, max, window, calls[1..]);
      case ClearCall(keys) => NeverTooMany(Cleared(log, keys), max, window, calls[1..]);
    }
  }

  lemma {:induction false} AskedFirst(calls: seq<Call>, n: nat)
    requires 0 < n <= |calls|
    ensures Asked(calls, n) == Asked(calls[1..], n - 1) + if calls[0].TooManyCall? then 1 else 0
  {
    if n > 1 {
      AskedFirst(calls, n - 1);
    }
  }

  lemma {:induction false} AskedGrows(calls: seq<Call>, n: nat, m: nat)
    requires n <= m <= |calls|
    ensures Asked(calls, n) <= Asked(calls, m)
    decreases m
  {
    if n < m {
      AskedGrows(calls, n, m - 1);
    }
  }

  /**
    The answer to a call that asks: true exactly if some non-empty key occurs at least max times in
    hits inside the window that no later call has cleared.
   */
  lemma AnswerIff(calls: seq<Call>, max: int, window: Time, n: nat)
    requires n < |calls| && calls[n].TooManyCall?
    ensures Asked(calls, n) < |Answers(map[], max, window, calls)|
    ensures Answers(map[], max, window, calls)[Asked(calls, n)] <==> HitTooOften(calls, n, max, window)
  {
    hide Answers, LogAfter, Occurrences, Exceeded;
    if max > 0 {
      AnswersFrom(calls, max, window, n);
      FirstAnswer(LogAfter(calls, n), max, window, calls[n..]);
      ExceededIff(calls, n, max, window);
      var all := Answers(map[], max, window, calls);
      assert all[Asked(calls, n)..][0] == all[Asked(calls, n)];
    } else {
      NeverTooMany(map[], max, window, calls);
      AskedGrows(calls, n + 1, |calls|);
    }
  }

  lemma FirstAnswer(log: Log, max: int, window: Time, calls: seq<Call>)
    requires |calls| > 0 && calls[0].TooManyCall?
    ensures |Answers(log, max, window, calls)| > 0
    ensures Answers(log, max, window, calls)[0] == Exceeded(log, max, window, calls[0].keys, calls[0].at)
  {
  }

  /**
    For every sequence of calls, the pruned limiter answers as the unpruned log does: the answers are
    those the calls themselves determine.
   */
  method Replay(max: int, window: Time, start: Time, calls: seq<Call>) returns (answers: seq<bool>)
    requires ClockAdvances(calls, start)
    ensures answers == Answers(map[], max, window, calls)
    ensures forall n :: 0 <= n < |calls| && calls[n].TooManyCall? ==>
              Asked(calls, n) < |answers| && (answers[Asked(calls, n)] <==> HitTooOften(calls, n, max, window))
  {
    hide InSync, Pushed, Cleared, Exceeded, HitTooOften, Asked;
    forall n | 0 <= n < |calls| && calls[n].TooManyCall?
      ensures var all := Answers(map[], max, window, calls);
              Asked(calls, n) < |all| && (all[Asked(calls, n)] <==> HitTooOften(calls, n, max, window))
    {
      AnswerIff(calls, max, window, n);
    }
    var limiter := new Limiter(max, window, start);
    answers := [];
    ghost var clock := start;
    for k := 0 to |calls|
      invariant limiter.Valid() && limiter.last <= clock && limiter.max == max && limiter.window == window
      invariant ClockAdvances(calls[k..], clock)
      invariant answers + Answers(limiter.log, max, window, calls[k..]) == Answers(map[], max, window, calls)
    {
      assert calls[k..][1..] == calls[k + 1..];
      clock := Reading(calls[k], clock);
      match calls[k]
      case TooManyCall(keys, at) =>
        var answer := limiter.TooMany(keys, at);
        answers := answers + [answer];
      case HitCall(keys, at) =>
        limiter.Hit(keys, at);
      case ClearCall(keys) =>
        limiter.Clear(keys);
    }
  }
}
