/**
  How many hits can a window hold when requests check first and hit later?
  Requests are admitted by TooMany, then either hit their keys or leave without a hit.
 */
module RateLimitBound {
  import opened Domain
  import opened RateLimit
  import Sets

  type RequestId = nat

  /** The unpruned log, the requests between their TooMany and their Hit, and the clock. */
  datatype Traffic = Traffic(log: Log, flying: map<RequestId, seq<string>>, now: Time)

  datatype Step =
    | Admit(id: RequestId, keys: seq<string>, at: Time)   // TooMany answered false
    | Land(id: RequestId, at: Time)                       // Hit with the request's keys
    | Leave(id: RequestId)                                // the request ends without a Hit
    | Clear(keys: seq<string>)

  predicate Distinct(keys: seq<string>) { forall i, j :: 0 <= i < j < |keys| ==> keys[i] != keys[j] }

  predicate Allowed(max: int, window: Time, k: nat, s: Traffic, step: Step) {
    match step
    case Admit(id, keys, at) =>
      s.now <= at && id !in s.flying && |s.flying| < k && Distinct(keys) && !Exceeded(s.log, max, window, keys, at)
    case Land(id, at) => s.now <= at && id in s.flying
    case Leave(id) => id in s.flying
    case Clear(keys) => true
  }

  function Apply(s: Traffic, step: Step): Traffic {
    match step
    case Admit(id, keys, at) => Traffic(s.log, s.flying[id := keys], at)
    case Land(id, at) =>
      if id in s.flying then Traffic(Pushed(s.log, s.flying[id], at), s.flying - {id}, at) else s
    case Leave(id) => s.(flying := s.flying - {id})
    case Clear(keys) => s.(log := Cleared(s.log, keys))
  }

  /** ss is a run of allowed steps from an empty log, with at most k requests in flight. */
  ghost predicate IsTraffic(max: int, window: Time, k: nat, ss: seq<Traffic>, steps: seq<Step>) {
    && |ss| == |steps| + 1
    && ss[0].log == map[] && ss[0].flying == map[]
    && forall i :: 0 <= i < |steps| ==> Allowed(max, window, k, ss[i], steps[i]) && ss[i + 1] == Apply(ss[i], steps[i])
  }

  /** Hits in the half-open interval of one window length that starts after x. */
  function Inside(xs: seq<Time>, x: Time, window: Time): nat {
    if |xs| == 0 then 0
    else Inside(xs[..|xs| - 1], x, window) + if x < xs[|xs| - 1] <= x + window then 1 else 0
  }

  lemma {:induction false} InsideAtMostLater(xs: seq<Time>, x: Time, window: Time, cutoff: Time)
    requires cutoff <= x
    ensures Inside(xs, x, window) <= Later(xs, cutoff)
  {
    if |xs| > 0 {
      InsideAtMostLater(xs[..|xs| - 1], x, window, cutoff);
    }
  }

  /** The requests in flight that will hit the key. */
  function Carrying(s: Traffic, key: string): set<RequestId> { set id | id in s.flying && key in s.flying[id] }

  lemma {:induction false} PushedOnce(log: Log, keys: seq<string>, at: Time, key: string)
    requires key != "" && Distinct(keys)
    ensures Hits(Pushed(log, keys, at), key) == if key in keys then Hits(log, key) + [at] else Hits(log, key)
  {
    if |keys| > 0 {
      PushedOnce(log, keys[..|keys| - 1], at, key);
    }
  }

  ghost predicate Bounded(max: int, window: Time, k: nat, s: Traffic, key: string) {
    && |s.flying| <= k
    && (forall id :: id in s.flying ==> Distinct(s.flying[id]))
    && forall x: Time :: Inside(Hits(s.log, key), x, window) <= max + k - 1 &&
         (x >= s.now - window ==> Inside(Hits(s.log, key), x, window) + |Carrying(s, key)| <= max + k - 1)
  }

  lemma CarryingAtMostFlying(s: Traffic, key: string)
    ensures |Carrying(s, key)| <= |s.flying|
  {
    Sets.SubsetSize(Carrying(s, key), s.flying.Keys);
  }

  lemma BoundedAdmit(max: int, window: Time, k: nat, s: Traffic, id: RequestId, keys: seq<string>, at: Time,
                     key: string)
    requires max > 0 && key != "" && Bounded(max, window, k, s, key) && Allowed(max, window, k, s, Admit(id, keys, at))
    ensures Bounded(max, window, k, Apply(s, Admit(id, keys, at)), key)
  {
    var t := Apply(s, Admit(id, keys, at));
    var xs := Hits(s.log, key);
    assert t.flying.Keys == s.flying.Keys + {id};
    CarryingAtMostFlying(t, key);
    if key in keys {
      var i :| 0 <= i < |keys| && keys[i] == key;
      assert Later(xs, at - window) < max;
    } else {
      assert Carrying(t, key) == Carrying(s, key);
    }
    forall x: Time
      ensures Inside(xs, x, window) <= max + k - 1
      ensures x >= at - window ==> Inside(xs, x, window) + |Carrying(t, key)| <= max + k - 1
    {
      if x >= at - window {
        InsideAtMostLater(xs, x, window, at - window);
      }
    }
  }

  lemma BoundedLand(max: int, window: Time, k: nat, s: Traffic, id: RequestId, at: Time, key: string)
    requires max > 0 && key != "" && Bounded(max, window, k, s, key) && id in s.flying && s.now <= at
    ensures Bounded(max, window, k, Apply(s, Land(id, at)), key)
  {
    var t := Apply(s, Land(id, at));
    var xs, ys := Hits(s.log, key), Hits(t.log, key);
    assert t.flying.Keys == s.flying.Keys - {id};
    assert Carrying(t, key) == Carrying(s, key) - {id};
    PushedOnce(s.log, s.flying[id], at, key);
    if key in s.flying[id] {
      assert id in Carrying(s, key) && ys[..|xs|] == xs && ys[|xs|] == at;
      forall x: Time
        ensures Inside(ys, x, window) <= max + k - 1
        ensures x >= at - window ==> Inside(ys, x, window) + |Carrying(t, key)| <= max + k - 1
      {
        assert Inside(ys, x, window) == Inside(xs, x, window) + if x < at <= x + window then 1 else 0;
      }
    }
  }

  lemma BoundedStep(max: int, window: Time, k: nat, s: Traffic, step: Step, key: string)
    requires max > 0 && key != "" && Bounded(max, window, k, s, key) && Allowed(max, window, k, s, step)
    ensures Bounded(max, window, k, Apply(s, step), key)
  {
    var t := Apply(s, step);
    match step
    case Admit(id, keys, at) =>
      BoundedAdmit(max, window, k, s, id, keys, at, key);
    case Land(id, at) =>
      BoundedLand(max, window, k, s, id, at, key);
    case Leave(id) =>
      assert t.flying.Keys == s.flying.Keys - {id};
      assert Carrying(t, key) == Carrying(s, key) - {id};
    case Clear(keys) =>
      assert Carrying(t, key) == Carrying(s, key);
      if key in keys {
        CarryingAtMostFlying(t, key);
      }
  }

  /**
    With at most k requests between their TooMany and their Hit, no interval of window
    length ever holds more than max + k - 1 hits of one key since its last Clear.
   */
  lemma {:induction false} WindowBound(max: int, window: Time, k: nat, ss: seq<Traffic>, steps: seq<Step>, i: nat,
                                       key: string)
    requires max > 0 && key != "" && IsTraffic(max, window, k, ss, steps) && i < |ss|
    ensures forall x: Time :: Inside(Hits(ss[i].log, key), x, window) <= max + k - 1
    ensures Bounded(max, window, k, ss[i], key)
    decreases i
  {
    if i == 0 {
      assert Carrying(ss[0], key) == {};
    } else {
      WindowBound(max, window, k, ss, steps, i - 1, key);
      BoundedStep(max, window, k, ss[i - 1], steps[i - 1], key);
    }
  }
}
