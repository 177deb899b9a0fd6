/** Space-separated scope strings: splitting, validation and membership. */
module Scopes {
  import opened Domain
  import opened Text

  const OPENID := "openid"
  const EMAIL := "email"
  const OFFLINE_ACCESS := "offline_access"

  predicate NoSpace(s: string, i: nat, j: nat)
    requires i <= j <= |s|
  {
    forall m :: i <= m < j ==> s[m] != ' '
  }

  /** s[i..j] is a maximal space-free run of s. */
  predicate IsRun(s: string, i: nat, j: nat) {
    && i < j <= |s|
    && NoSpace(s, i, j)
    && (i == 0 || s[i - 1] == ' ')
    && (j == |s| || s[j] == ' ')
  }

  /** The end of the space-free stretch that starts at i. */
  function RunEnd(s: string, i: nat): (j: nat)
    requires i <= |s|
    ensures i <= j <= |s| && NoSpace(s, i, j) && (j == |s| || s[j] == ' ')
    decreases |s| - i
  {
    if i == |s| || s[i] == ' ' then i else RunEnd(s, i + 1)
  }

  /** The bounds of the runs of s that start at or after i, from left to right. */
  function Bounds(s: string, i: nat): seq<(nat, nat)>
    requires i <= |s|
    decreases |s| - i
  {
    if i == |s| then []
    else if s[i] == ' ' then Bounds(s, i + 1)
    else [(i, RunEnd(s, i))] + Bounds(s, RunEnd(s, i))
  }

  /** Bounds lists only maximal runs, in order and apart from each other. */
  lemma {:induction false} BoundsAreRuns(s: string, i: nat)
    requires i <= |s| && (i == 0 || i == |s| || s[i] == ' ' || s[i - 1] == ' ')
    ensures forall k :: 0 <= k < |Bounds(s, i)| ==>
              i <= Bounds(s, i)[k].0 && IsRun(s, Bounds(s, i)[k].0, Bounds(s, i)[k].1)
    ensures forall k, m :: 0 <= k < m < |Bounds(s, i)| ==> Bounds(s, i)[k].1 < Bounds(s, i)[m].0
    decreases |s| - i
  {
    if i < |s| {
      var j := if s[i] == ' ' then i + 1 else RunEnd(s, i);
      BoundsAreRuns(s, j);
      assert j < |s| && s[j] == ' ' ==> forall k :: 0 <= k < |Bounds(s, j)| ==> j < Bounds(s, j)[k].0;
    }
  }

  /** Bounds lists every maximal run. */
  lemma {:induction false} RunIsListed(s: string, i: nat, a: nat, b: nat)
    requires i <= a && IsRun(s, a, b) && (i == 0 || s[i] == ' ' || s[i - 1] == ' ')
    ensures (a, b) in Bounds(s, i)
    decreases |s| - i
  {
    if s[i] == ' ' {
      RunIsListed(s, i + 1, a, b);
    } else if a == i {
      RunEndIs(s, a, b);
    } else {
      assert s[a - 1] == ' ';
      RunIsListed(s, RunEnd(s, i), a, b);
    }
  }

  lemma RunEndIs(s: string, i: nat, j: nat)
    requires i <= j <= |s| && NoSpace(s, i, j) && (j == |s| || s[j] == ' ')
    ensures RunEnd(s, i) == j
  {
  }

  predicate IsField(f: string) { f != "" && ' ' !in f }

  function FieldsFrom(s: string, i: nat): (fs: seq<string>)
    requires i <= |s|
    ensures forall f :: f in fs ==> IsField(f)
    decreases |s| - i
  {
    if i == |s| then []
    else if s[i] == ' ' then FieldsFrom(s, i + 1)
    else [s[i..RunEnd(s, i)]] + FieldsFrom(s, RunEnd(s, i))
  }

  /** The fields of a scope string. */
  function Fields(s: string): seq<string> { FieldsFrom(s, 0) }

  lemma {:induction false} FieldsFollowBounds(s: string, i: nat)
    requires i <= |s|
    ensures |FieldsFrom(s, i)| == |Bounds(s, i)|
    ensures forall k :: 0 <= k < |Bounds(s, i)| ==>
              (var b := Bounds(s, i)[k]; b.0 <= b.1 <= |s| && FieldsFrom(s, i)[k] == s[b.0..b.1])
    decreases |s| - i
  {
    if i < |s| {
      FieldsFollowBounds(s, if s[i] == ' ' then i + 1 else RunEnd(s, i));
    }
  }

  /** splitFields: every part is a maximal run, every maximal run is a part, left to right. */
  lemma FieldsAreTheMaximalRuns(s: string)
    ensures |Fields(s)| == |Bounds(s, 0)|
    ensures forall k :: 0 <= k < |Fields(s)| ==>
              (var b := Bounds(s, 0)[k]; IsRun(s, b.0, b.1) && Fields(s)[k] == s[b.0..b.1])
    ensures forall i: nat, j: nat :: IsRun(s, i, j) ==> (i, j) in Bounds(s, 0)
    ensures forall k, m :: 0 <= k < m < |Bounds(s, 0)| ==> Bounds(s, 0)[k].1 < Bounds(s, 0)[m].0
  {
    BoundsAreRuns(s, 0);
    FieldsFollowBounds(s, 0);
    forall i: nat, j: nat | IsRun(s, i, j) ensures (i, j) in Bounds(s, 0) {
      RunIsListed(s, 0, i, j);
    }
  }

  method SplitFields(s: string) returns (parts: seq<string>)
    ensures parts == Fields(s)
  {
    parts := [];
    var start := 0;
    var i := 0;
    while i <= |s|
      invariant 0 <= start <= i <= |s| + 1
      invariant i == |s| + 1 ==> start == i
      invariant start <= |s| ==> NoSpace(s, start, i) && parts + FieldsFrom(s, start) == Fields(s)
      invariant start == |s| + 1 ==> parts == Fields(s)
    {
      if i == |s| || s[i] == ' ' {
        RunEndIs(s, start, i);
        if i > start {
          parts := parts + [s[start..i]];
        }
        start := i + 1;
      }
      i := i + 1;
    }
  }

  lemma {:induction false} FieldsFromSuffix(p: string, s: string, i: nat)
    requires i <= |s|
    ensures FieldsFrom(p + s, |p| + i) == FieldsFrom(s, i)
    decreases |s| - i
  {
    if i < |s| {
      if s[i] == ' ' {
        FieldsFromSuffix(p, s, i + 1);
      } else {
        var j := RunEnd(s, i);
        assert (p + s)[|p| + i..|p| + j] == s[i..j];
        RunEndIs(p + s, |p| + i, |p| + j);
        FieldsFromSuffix(p, s, j);
      }
    }
  }

  /** Splitting undoes joining by single spaces, for every list of fields. */
  lemma {:induction false} FieldsOfJoin(fs: seq<string>)
    requires forall f :: f in fs ==> IsField(f)
    ensures Fields(Join(fs, ' ')) == fs
  {
    if |fs| > 0 {
      var f := fs[0];
      var s := Join(fs, ' ');
      assert IsField(f) && s[0..|f|] == f;
      forall m | 0 <= m < |f| ensures s[m] != ' ' {
        assert s[m] == f[m] && f[m] in f;
      }
      RunEndIs(s, 0, |f|);
      assert FieldsFrom(s, 0) == [f] + FieldsFrom(s, |f|);
      if |fs| > 1 {
        var rest := Join(fs[1..], ' ');
        assert s == (f + " ") + rest;
        FieldsFromSuffix(f + " ", rest, 0);
        FieldsOfJoin(fs[1..]);
        assert FieldsFrom(s, |f|) == FieldsFrom(s, |f| + 1);
      }
    }
  }

  predicate IsKnown(f: string) { f == OPENID || f == EMAIL || f == OFFLINE_ACCESS }

  /** What ParseScope accepts. */
  predicate IsValidScope(scope: string) {
    OPENID in Fields(scope) && forall f :: f in Fields(scope) ==> IsKnown(f)
  }

  /** Membership as the use cases read it. */
  predicate Includes(scope: string, want: string) { want in Fields(scope) }

  function ScopeError(scope: string): Error {
    if scope == "" then Validation("scope") else InvalidScope
  }

  method ParseScope(scope: string) returns (err: Option<Error>)
    ensures err == if IsValidScope(scope) then None else Some(ScopeError(scope))
    ensures err.None? <==>
              "openid" in Fields(scope) && forall f :: f in Fields(scope) ==> f in {"openid", "email", "offline_access"}
  {
    if scope == "" {
      return Some(Validation("scope"));
    }
    var hasOpenID := false;
    var parts := SplitFields(scope);
    for k := 0 to |parts|
      invariant hasOpenID <==> OPENID in parts[..k]
      invariant forall f :: f in parts[..k] ==> IsKnown(f)
    {
      if parts[k] == OPENID {
        hasOpenID := true;
      } else if parts[k] == EMAIL || parts[k] == OFFLINE_ACCESS {
      } else {
        assert parts[k] in parts;
        return Some(InvalidScope);
      }
    }
    assert parts[..|parts|] == parts;
    if !hasOpenID {
      return Some(InvalidScope);
    }
    return None;
  }

  method ScopeIncludes(scope: string, want: string) returns (found: bool)
    ensures found <==> Includes(scope, want)
    ensures found <==> want in Fields(scope)
  {
    var parts := SplitFields(scope);
    for k := 0 to |parts|
      invariant want !in parts[..k]
    {
      if parts[k] == want {
        return true;
      }
    }
    return false;
  }

  function FieldSet(s: string): set<string> { set f | f in Fields(s) }

  /** Both readings of a scope depend on its set of fields only: order, repetition and spacing are immaterial. */
  lemma ScopeIsASet(a: string, b: string)
    requires FieldSet(a) == FieldSet(b)
    ensures IsValidScope(a) <==> IsValidScope(b)
    ensures forall want :: Includes(a, want) <==> Includes(b, want)
  {
    forall f ensures f in Fields(a) <==> f in Fields(b) {
      assert f in FieldSet(a) <==> f in FieldSet(b);
    }
  }
}
