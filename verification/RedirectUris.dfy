/** The redirect list of a client: one absolute URI per line. */
module RedirectUris {
  import opened Domain
  import opened Text

  function TrimLeft(s: string): string { if s != "" && IsSpace(s[0]) then TrimLeft(s[1..]) else s }

  function TrimRight(s: string): string { if s != "" && IsSpace(s[|s| - 1]) then TrimRight(s[..|s| - 1]) else s }

  /** strings.TrimSpace */
  function Trim(s: string): string { TrimRight(TrimLeft(s)) }

  /** strings.Split(s, "\n") */
  function Lines(s: string): (lines: seq<string>) { Split(s, '\n') }

  /** RedirectURIsText: strings.Join(uris, "\n") */
  function RedirectURIsText(uris: seq<string>): string { Join(uris, '\n') }

  function LowerChar(c: char): char { if 'A' <= c <= 'Z' then c - 'A' + 'a' else c }

  function Lower(s: string): string { seq(|s|, i requires 0 <= i < |s| => LowerChar(s[i])) }

  const FORBIDDEN_SCHEMES := {"intent", "javascript", "data", "file", "blob", "vbscript"}

  /** validateRedirectURI accepts the URI. */
  predicate IsValidURI(parse: UrlParser, uri: string) {
    && ' ' !in uri && '\t' !in uri
    && parse(uri).Some?
    && var u := parse(uri).value;
    && u.scheme != "" && (u.host != "" || u.rest != "" || u.path != "")
    && u.fragment == ""
    && Lower(u.scheme) !in FORBIDDEN_SCHEMES
    && (Lower(u.scheme) in {"http", "https"} ==> u.host != "")
  }

  /** The non-empty trimmed lines, in order. */
  function Entries(lines: seq<string>): seq<string> {
    if |lines| == 0 then []
    else
      var uri := Trim(lines[|lines| - 1]);
      Entries(lines[..|lines| - 1]) + if uri == "" then [] else [uri]
  }

  /** The first occurrences of each value of xs, in order. */
  function Firsts(xs: seq<string>): seq<string> {
    if |xs| == 0 then []
    else
      var rest := Firsts(xs[..|xs| - 1]);
      if xs[|xs| - 1] in rest then rest else rest + [xs[|xs| - 1]]
  }

  predicate AllValid(parse: UrlParser, xs: seq<string>) { forall x :: x in xs ==> IsValidURI(parse, x) }

  function ParseList(parse: UrlParser, raw: string): Result<seq<string>> {
    var es := Entries(Lines(raw));
    if es == [] || !AllValid(parse, es) then Err(Validation("redirect_uris")) else Ok(Firsts(es))
  }

  method ParseRedirectURIList(parse: UrlParser, raw: string) returns (r: Result<seq<string>>)
    ensures r == ParseList(parse, raw)
  {
    hide Firsts, Entries, Trim, IsValidURI, Distinct, FirstIndex;
    assert Entries([]) == [] && Firsts([]) == [] by { NothingYet(); }
    var out: seq<string> := [];
    var seen: set<string> := {};
    var lines := Lines(raw);
    ghost var done: seq<string> := [];
    for k := 0 to |lines|
      invariant done == Entries(lines[..k])
      invariant AllValid(parse, done)
      invariant out == Firsts(done)
      invariant forall u :: u in seen <==> u in out
    {
      var uri := Trim(lines[k]);
      EntriesStep(lines, k);
      if uri == "" {
        continue;
      }
      FirstsStep(done, uri);
      done := done + [uri];
      if !IsValidURI(parse, uri) {
        EntriesPrefix(lines, k + 1);
        assert done[|done| - 1] == uri;
        assert !AllValid(parse, Entries(lines)) by { assert Entries(lines)[|done| - 1] == uri; }
        return Err(Validation("redirect_uris"));
      }
      if uri in seen {
        continue;
      }
      seen := seen + {uri};
      out := out + [uri];
    }
    assert lines[..|lines|] == lines;
    FirstsFacts(done);
    assert |out| == 0 <==> done == [];
    if |out| == 0 {
      return Err(Validation("redirect_uris"));
    }
    return Ok(out);
  }

  lemma NothingYet()
    ensures Entries([]) == [] && Firsts([]) == []
  {
  }

  lemma FirstsStep(xs: seq<string>, x: string)
    ensures Firsts(xs + [x]) == if x in Firsts(xs) then Firsts(xs) else Firsts(xs) + [x]
  {
    assert (xs + [x])[..|xs|] == xs;
  }

  lemma EntriesStep(lines: seq<string>, k: nat)
    requires k < |lines|
    ensures Entries(lines[..k + 1]) == Entries(lines[..k]) + if Trim(lines[k]) == "" then [] else [Trim(lines[k])]
  {
    assert lines[..k + 1][..k] == lines[..k];
  }

  lemma {:induction false} EntriesPrefix(lines: seq<string>, k: nat)
    requires k <= |lines|
    ensures Entries(lines[..k]) <= Entries(lines)
    decreases |lines| - k
  {
    if k < |lines| {
      EntriesStep(lines, k);
      EntriesPrefix(lines, k + 1);
    } else {
      assert lines[..k] == lines;
    }
  }

  predicate Distinct(xs: seq<string>) { forall i, j :: 0 <= i < j < |xs| ==> xs[i] != xs[j] }

  /** Position of the first occurrence of x in xs. */
  function FirstIndex(xs: seq<string>, x: string): (k: nat)
    requires x in xs
    ensures k < |xs| && xs[k] == x && forall m :: 0 <= m < k ==> xs[m] != x
  {
    if xs[0] == x then 0 else FirstIndex(xs[1..], x) + 1
  }

  lemma {:induction false} FirstsMembers(xs: seq<string>)
    ensures forall x :: x in Firsts(xs) <==> x in xs
    ensures Distinct(Firsts(xs))
  {
    if |xs| > 0 {
      var n := |xs| - 1;
      FirstsMembers(xs[..n]);
      assert xs == xs[..n] + [xs[n]];
    }
  }

  lemma {:induction false} FirstIndexIs(xs: seq<string>, x: string, k: nat)
    requires k < |xs| && xs[k] == x && forall m :: 0 <= m < k ==> xs[m] != x
    ensures FirstIndex(xs, x) == k
  {
    hide FirstIndex;
    var i := FirstIndex(xs, x);
    assert !(i < k) && !(k < i);
  }

  lemma IndexInPrefix(ys: seq<string>, last: string, y: string)
    requires y in ys
    ensures y in ys + [last] && FirstIndex(ys + [last], y) == FirstIndex(ys, y)
  {
    hide FirstIndex;
    assert (ys + [last])[FirstIndex(ys, y)] == y;
    FirstIndexIs(ys + [last], y, FirstIndex(ys, y));
  }

  lemma NewIndex(ys: seq<string>, last: string)
    requires last !in ys
    ensures last in ys + [last] && FirstIndex(ys + [last], last) == |ys|
  {
    hide FirstIndex;
    assert (ys + [last])[|ys|] == last;
    FirstIndexIs(ys + [last], last, |ys|);
  }

  /** The i-th first occurrence comes before the j-th one. */
  lemma {:induction false} FirstsInOrder(xs: seq<string>, i: nat, j: nat)
    requires i < j < |Firsts(xs)|
    ensures Firsts(xs)[i] in xs && Firsts(xs)[j] in xs
    ensures FirstIndex(xs, Firsts(xs)[i]) < FirstIndex(xs, Firsts(xs)[j])
  {
    hide FirstIndex, Distinct;
    var n := |xs| - 1;
    var ys, last := xs[..n], xs[n];
    assert xs == ys + [last];
    FirstsMembers(ys);
    var x, y := Firsts(xs)[i], Firsts(xs)[j];
    assert x == Firsts(ys)[i];
    IndexInPrefix(ys, last, x);
    if j < |Firsts(ys)| {
      FirstsInOrder(ys, i, j);
      IndexInPrefix(ys, last, y);
    } else {
      NewIndex(ys, last);
    }
  }

  lemma FirstsFacts(xs: seq<string>)
    ensures forall x :: x in Firsts(xs) <==> x in xs
    ensures xs != [] ==> Firsts(xs) != []
    ensures Distinct(Firsts(xs))
    ensures forall i, j :: 0 <= i < j < |Firsts(xs)| ==> FirstIndex(xs, Firsts(xs)[i]) < FirstIndex(xs, Firsts(xs)[j])
  {
    hide FirstIndex, Firsts, Distinct;
    FirstsMembers(xs);
    if xs != [] {
      assert xs[0] in Firsts(xs);
    }
    forall i, j | 0 <= i < j < |Firsts(xs)| ensures FirstIndex(xs, Firsts(xs)[i]) < FirstIndex(xs, Firsts(xs)[j]) {
      FirstsInOrder(xs, i, j);
    }
  }

  /** uri is the trimmed form of some line. */
  predicate IsTrimmedLine(lines: seq<string>, uri: string) { exists k :: 0 <= k < |lines| && Trim(lines[k]) == uri }

  lemma {:induction false} EntriesFacts(lines: seq<string>, uri: string)
    ensures uri in Entries(lines) <==> uri != "" && IsTrimmedLine(lines, uri)
  {
    hide Trim;
    if |lines| > 0 {
      var n := |lines| - 1;
      EntriesFacts(lines[..n], uri);
      if IsTrimmedLine(lines[..n], uri) {
        var k :| 0 <= k < n && Trim(lines[..n][k]) == uri;
        assert Trim(lines[k]) == uri;
      } else if IsTrimmedLine(lines, uri) {
        var k :| 0 <= k < |lines| && Trim(lines[k]) == uri;
        assert k < n ==> Trim(lines[..n][k]) == uri;
      }
    }
  }

  /** s is this lower-case word, in any case. */
  predicate IsCaseOf(s: string, word: string) {
    |s| == |word| && forall i :: 0 <= i < |s| ==> s[i] == word[i] || ('A' <= s[i] <= 'Z' && s[i] - 'A' + 'a' == word[i])
  }

  /**
    An absolute URI without blanks and fragment, with something after its scheme, whose scheme is not
    one that runs code or reads local data; a web address has a host.
   */
  predicate IsAcceptable(parse: UrlParser, uri: string) {
    && (forall i :: 0 <= i < |uri| ==> uri[i] != ' ' && uri[i] != '\t')
    && parse(uri).Some?
    && var u := parse(uri).value;
    && u.scheme != "" && u.fragment == "" && !(u.host == "" && u.rest == "" && u.path == "")
    && !IsCaseOf(u.scheme, "intent") && !IsCaseOf(u.scheme, "javascript") && !IsCaseOf(u.scheme, "data")
    && !IsCaseOf(u.scheme, "file") && !IsCaseOf(u.scheme, "blob") && !IsCaseOf(u.scheme, "vbscript")
    && (IsCaseOf(u.scheme, "http") || IsCaseOf(u.scheme, "https") ==> u.host != "")
  }

  predicate IsLower(word: string) { forall i :: 0 <= i < |word| ==> 'a' <= word[i] <= 'z' }

  lemma LowerIs(s: string, word: string)
    requires IsLower(word)
    ensures Lower(s) == word <==> IsCaseOf(s, word)
  {
    if IsCaseOf(s, word) {
      assert forall i :: 0 <= i < |s| ==> Lower(s)[i] == word[i];
    }
    if Lower(s) == word {
      assert forall i :: 0 <= i < |s| ==> Lower(s)[i] == LowerChar(s[i]);
    }
  }

  lemma ValidIff(parse: UrlParser, uri: string)
    ensures IsValidURI(parse, uri) <==> IsAcceptable(parse, uri)
  {
    hide Lower, IsCaseOf;
    if parse(uri).Some? {
      var scheme := parse(uri).value.scheme;
      LowerIs(scheme, "intent");
      LowerIs(scheme, "javascript");
      LowerIs(scheme, "data");
      LowerIs(scheme, "file");
      LowerIs(scheme, "blob");
      LowerIs(scheme, "vbscript");
      LowerIs(scheme, "http");
      LowerIs(scheme, "https");
    }
  }

  /** A list is accepted exactly if it has a non-blank line and every non-blank line is acceptable. */
  lemma AcceptedIff(parse: UrlParser, raw: string)
    ensures ParseList(parse, raw).Ok? <==>
              (exists uri :: uri != "" && IsTrimmedLine(Lines(raw), uri)) &&
              forall uri :: uri != "" && IsTrimmedLine(Lines(raw), uri) ==> IsAcceptable(parse, uri)
    ensures ParseList(parse, raw).Err? ==> ParseList(parse, raw).error == Validation("redirect_uris")
  {
    hide IsValidURI, IsAcceptable, IsTrimmedLine, Entries;
    var es := Entries(Lines(raw));
    forall uri ensures uri in es <==> uri != "" && IsTrimmedLine(Lines(raw), uri) { EntriesFacts(Lines(raw), uri); }
    forall uri ensures IsValidURI(parse, uri) <==> IsAcceptable(parse, uri) { ValidIff(parse, uri); }
    if es != [] { assert es[0] in es; }
  }

  lemma NoLines()
    ensures forall uri :: uri != "" ==> !IsTrimmedLine(Lines(""), uri)
  {
  }

  /**
    An accepted list is non-empty and duplicate-free, keeps the order of first occurrence,
    and allows exactly the non-empty trimmed input lines, each of which is acceptable.
   */
  lemma AcceptedList(parse: UrlParser, raw: string, client: Client)
    requires ParseList(parse, raw) == Ok(client.redirects)
    ensures client.redirects != [] && Distinct(client.redirects)
    ensures forall uri :: client.AllowsRedirectURI(uri) <==>
              uri != "" && IsTrimmedLine(Lines(raw), uri)
    ensures forall uri :: uri in client.redirects ==> IsAcceptable(parse, uri) && uri in Entries(Lines(raw))
    ensures forall i, j :: 0 <= i < j < |client.redirects| ==>
              FirstIndex(Entries(Lines(raw)), client.redirects[i]) <
              FirstIndex(Entries(Lines(raw)), client.redirects[j])
  {
    var es := Entries(Lines(raw));
    FirstsFacts(es);
    forall uri ensures client.AllowsRedirectURI(uri) <==> uri != "" && IsTrimmedLine(Lines(raw), uri) {
      EntriesFacts(Lines(raw), uri);
      assert uri in Firsts(es) <==> uri in es;
    }
    forall uri ensures IsValidURI(parse, uri) <==> IsAcceptable(parse, uri) { ValidIff(parse, uri); }
  }

  lemma {:induction false} TrimLeftFacts(s: string)
    ensures TrimLeft(s) != "" ==> !IsSpace(TrimLeft(s)[0])
    ensures forall c :: c in TrimLeft(s) ==> c in s
  {
    if s != "" && IsSpace(s[0]) {
      TrimLeftFacts(s[1..]);
    }
  }

  lemma {:induction false} TrimRightFacts(s: string)
    ensures TrimRight(s) <= s
    ensures TrimRight(s) != "" ==> !IsSpace(TrimRight(s)[|TrimRight(s)| - 1])
  {
    if s != "" && IsSpace(s[|s| - 1]) {
      TrimRightFacts(s[..|s| - 1]);
    }
  }

  lemma TrimFacts(s: string)
    ensures Trim(Trim(s)) == Trim(s)
    ensures forall c :: c in Trim(s) ==> c in s
  {
    TrimLeftFacts(s);
    TrimRightFacts(TrimLeft(s));
  }

  lemma {:induction false} TrimLeftDrops(s: string) returns (i: nat)
    ensures i <= |s| && TrimLeft(s) == s[i..] && forall k :: 0 <= k < i ==> IsSpace(s[k])
  {
    i := 0;
    if s != "" && IsSpace(s[0]) {
      i := TrimLeftDrops(s[1..]);
      i := i + 1;
    }
  }

  lemma {:induction false} TrimRightDrops(s: string)
    ensures TrimRight(s) <= s && forall k :: |TrimRight(s)| <= k < |s| ==> IsSpace(s[k])
  {
    if s != "" && IsSpace(s[|s| - 1]) {
      TrimRightDrops(s[..|s| - 1]);
    }
  }

  /** Trimming leaves the part between the first and the last character that is no space. */
  lemma TrimIsTheCore(s: string)
    ensures exists i: nat, j: nat :: i <= j <= |s| && Trim(s) == s[i..j] &&
                           (forall k :: 0 <= k < i || j <= k < |s| ==> IsSpace(s[k])) &&
                           (i < j ==> !IsSpace(s[i]) && !IsSpace(s[j - 1]))
  {
    var i := TrimLeftDrops(s);
    var rest := TrimLeft(s);
    TrimRightDrops(rest);
    var j := i + |Trim(s)|;
    TrimLeftFacts(s);
    TrimRightFacts(rest);
    assert Trim(s) == s[i..j];
    forall k | 0 <= k < i || j <= k < |s| ensures IsSpace(s[k]) {
      if j <= k { assert s[k] == rest[k - i]; }
    }
    if i < j { assert Trim(s)[0] == s[i] == rest[0] && Trim(s)[j - i - 1] == s[j - 1]; }
  }

  predicate IsEntry(x: string) { x != "" && Trim(x) == x }

  lemma {:induction false} EntriesOfTrimmed(xs: seq<string>)
    requires forall x :: x in xs ==> IsEntry(x)
    ensures Entries(xs) == xs
  {
    if |xs| > 0 {
      EntriesOfTrimmed(xs[..|xs| - 1]);
      assert xs[|xs| - 1] in xs;
    }
  }

  lemma {:induction false} FirstsOfDistinct(xs: seq<string>)
    requires Distinct(xs)
    ensures Firsts(xs) == xs
  {
    if |xs| > 0 {
      FirstsOfDistinct(xs[..|xs| - 1]);
    }
  }

  /** Printing an accepted list (RedirectURIsText) and parsing it again gives the list back. */
  lemma PrintThenParse(parse: UrlParser, raw: string, uris: seq<string>)
    requires ParseList(parse, raw) == Ok(uris)
    ensures ParseList(parse, RedirectURIsText(uris)) == Ok(uris)
  {
    FirstsFacts(Entries(Lines(raw)));
    PartsHaveNoSeparator(raw, '\n');
    forall u | u in uris ensures IsEntry(u) && '\n' !in u {
      EntriesFacts(Lines(raw), u);
      var k :| 0 <= k < |Lines(raw)| && Trim(Lines(raw)[k]) == u;
      TrimFacts(Lines(raw)[k]);
      assert Lines(raw)[k] in Lines(raw);
    }
    assert Entries(Lines(raw))[0] in uris;
    SplitOfJoin(uris, '\n');
    EntriesOfTrimmed(uris);
    FirstsOfDistinct(uris);
  }

  method AllowsRedirectURI(client: Client, uri: string) returns (allowed: bool)
    ensures allowed <==> client.AllowsRedirectURI(uri)
  {
    for k := 0 to |client.redirects|
      invariant uri !in client.redirects[..k]
    {
      if client.redirects[k] == uri {
        return true;
      }
    }
    return false;
  }
}
