/** The standard-library string operations the parsers rely on. */
module Text {

  /** unicode.IsSpace */
  predicate IsSpace(c: char) {
    || c in {'\t', '\n', '\U{b}', '\U{c}', '\r', ' ', '\U{85}', '\U{a0}', '\U{1680}'}
    || '\U{2000}' <= c <= '\U{200a}'
    || c in {'\U{2028}', '\U{2029}', '\U{202f}', '\U{205f}', '\U{3000}'}
  }

  /** Position of the first c in s, or |s|. */
  function IndexOf(s: string, c: char): (k: nat)
    ensures k <= |s| && (forall m :: 0 <= m < k ==> s[m] != c) && (k < |s| ==> s[k] == c)
  {
    if s == "" || s[0] == c then 0 else IndexOf(s[1..], c) + 1
  }

  /** strings.Split with a one-character separator */
  function Split(s: string, c: char): (parts: seq<string>)
    ensures |parts| > 0
    decreases |s|
  {
    var k := IndexOf(s, c);
    if k == |s| then [s] else [s[..k]] + Split(s[k + 1..], c)
  }

  /** strings.Join with a one-character separator */
  function Join(parts: seq<string>, c: char): string {
    if |parts| == 0 then "" else if |parts| == 1 then parts[0] else parts[0] + [c] + Join(parts[1..], c)
  }

  lemma {:induction false} PartsHaveNoSeparator(s: string, c: char)
    ensures forall part :: part in Split(s, c) ==> c !in part
    decreases |s|
  {
    var k := IndexOf(s, c);
    if k < |s| {
      PartsHaveNoSeparator(s[k + 1..], c);
    } else {
      assert s[..k] == s;
    }
  }

  lemma CutAt(s: string, k: nat)
    requires k < |s|
    ensures s == s[..k] + [s[k]] + s[k + 1..]
  {
  }

  lemma JoinFirst(part: string, parts: seq<string>, c: char)
    requires |parts| > 0
    ensures Join([part] + parts, c) == part + [c] + Join(parts, c)
  {
    assert ([part] + parts)[1..] == parts;
  }

  /** Joining undoes splitting. */
  lemma {:induction false} JoinOfSplit(s: string, c: char)
    ensures Join(Split(s, c), c) == s
    decreases |s|
  {
    hide Join;
    var k := IndexOf(s, c);
    if k < |s| {
      JoinOfSplit(s[k + 1..], c);
      JoinFirst(s[..k], Split(s[k + 1..], c), c);
      CutAt(s, k);
    } else {
      JoinOne(s, c);
    }
  }

  lemma JoinOne(s: string, c: char)
    ensures Join([s], c) == s
  {
  }

  lemma SplitFirst(s: string, c: char, part: string)
    requires c !in part && part <= s
    ensures s == part ==> Split(s, c) == [part]
    ensures part + [c] <= s ==> Split(s, c) == [part] + Split(s[|part| + 1..], c)
  {
    var k := IndexOf(s, c);
    assert forall m :: 0 <= m < |part| ==> s[m] in part;
    assert s == part ==> k == |s|;
    assert part + [c] <= s ==> s[|part|] == c;
    assert s[..|part|] == part;
  }

  /** Splitting undoes joining when no part contains the separator. */
  lemma {:induction false} SplitOfJoin(parts: seq<string>, c: char)
    requires |parts| > 0 && forall part :: part in parts ==> c !in part
    ensures Split(Join(parts, c), c) == parts
  {
    var s := Join(parts, c);
    assert parts[0] in parts;
    SplitFirst(s, c, parts[0]);
    if |parts| > 1 {
      assert s[|parts[0]| + 1..] == Join(parts[1..], c);
      SplitOfJoin(parts[1..], c);
    }
  }
}
