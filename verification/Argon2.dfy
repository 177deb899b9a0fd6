/** The encoded password hash: `$argon2id$v=V$m=M,t=T,p=P$salt$digest`. */
module Argon2 {
  import opened Domain
  import opened Text

  type Bytes = seq<bv8>

  /** Cost parameters, as wide as the decoder's uint32, uint32 and uint8. */
  datatype Params = Params(memory: nat, time: nat, threads: nat)

  const VERSION: nat := 19
  const PARAMS := Params(64 * 1024, 2, 4)
  const KEY_LEN: nat := 32

  /** Unpadded base64 and the Argon2id key derivation: deterministic library functions. */
  datatype Library = Library(encode: Bytes -> string,
                             decode: string -> Option<Bytes>,
                             idKey: (string, Bytes, Params, nat) -> Bytes)

  /** What the libraries promise: base64 is invertible and never emits `$`; a key has the requested length. */
  ghost predicate Lawful(lib: Library) {
    && (forall b :: lib.decode(lib.encode(b)) == Some(b) && '$' !in lib.encode(b))
    && (forall pw, salt, ps, n :: |lib.idKey(pw, salt, ps, n)| == n)
  }

  function Digit(d: nat): char
    requires d < 10
  {
    '0' + d as char
  }

  /** fmt's %d of a non-negative number */
  function Decimal(n: nat): string {
    if n < 10 then [Digit(n)] else Decimal(n / 10) + [Digit(n % 10)]
  }

  predicate IsDigit(c: char) { '0' <= c <= '9' }

  function DigitRun(s: string): (k: nat)
    ensures k <= |s| && (forall i :: 0 <= i < k ==> IsDigit(s[i])) && (k < |s| ==> !IsDigit(s[k]))
  {
    if s != "" && IsDigit(s[0]) then DigitRun(s[1..]) + 1 else 0
  }

  function Value(digits: string): nat
    requires forall i :: 0 <= i < |digits| ==> IsDigit(digits[i])
  {
    if digits == "" then 0
    else
      var last := digits[|digits| - 1];
      assert IsDigit(last);
      10 * Value(digits[..|digits| - 1]) + (last - '0') as nat
  }

  datatype Scan = Fail | Match(value: nat, rest: string)

  /** Sscanf's blank skipping before a number: a line break is an error. */
  function SkipSpace(s: string): Option<string> {
    if s == "" || !IsSpace(s[0]) then Some(s)
    else if s[0] == '\n' then None
    else SkipSpace(s[1..])
  }

  /** %d into an unsigned variable below limit. */
  function ScanUint(s: string, limit: nat): Scan {
    match SkipSpace(s)
    case None => Fail
    case Some(t) =>
      var k := DigitRun(t);
      if k == 0 || Value(t[..k]) >= limit then Fail else Match(Value(t[..k]), t[k..])
  }

  /** Sscanf(s, "v=%d", ...) into a 64-bit int succeeds: an optional sign, and trailing input is ignored. */
  predicate ScansVersion(s: string) {
    && "v=" <= s
    && match SkipSpace(s[2..])
       case None => false
       case Some(t) =>
         var negative := t != "" && t[0] == '-';
         var u := if t != "" && (t[0] == '+' || t[0] == '-') then t[1..] else t;
         var k := DigitRun(u);
         k > 0 && Value(u[..k]) < 0x8000_0000_0000_0000 + if negative then 1 else 0
  }

  /** One literal followed by %d into an unsigned variable. */
  function ScanField(literal: string, s: string, limit: nat): Scan {
    if literal <= s then ScanUint(s[|literal|..], limit) else Fail
  }

  /** Sscanf(s, "m=%d,t=%d,p=%d", ...) */
  function ScanParams(s: string): Option<Params> {
    match ScanField("m=", s, 0x1_0000_0000)
    case Fail => None
    case Match(m, s1) =>
      match ScanField(",t=", s1, 0x1_0000_0000)
      case Fail => None
      case Match(t, s2) =>
        match ScanField(",p=", s2, 0x100)
        case Fail => None
        case Match(p, _) => Some(Params(m, t, p))
  }

  datatype Decoded = Decoded(salt: Bytes, digest: Bytes, params: Params)

  /** decodeArgon2ID */
  function Decode(lib: Library, encoded: string): Option<Decoded> {
    var parts := Split(encoded, '$');
    if |parts| != 6 || parts[1] != "argon2id" || !ScansVersion(parts[2]) then None
    else
      match (ScanParams(parts[3]), lib.decode(parts[4]), lib.decode(parts[5]))
      case (Some(ps), Some(salt), Some(digest)) => Some(Decoded(salt, digest, ps))
      case _ => None
  }

  function VersionField(version: nat): string { "v=" + Decimal(version) }

  function ParamsField(ps: Params): string {
    "m=" + (Decimal(ps.memory) + (",t=" + (Decimal(ps.time) + (",p=" + Decimal(ps.threads)))))
  }

  /** The string Hash builds. */
  function Encode(lib: Library, version: nat, ps: Params, salt: Bytes, digest: Bytes): string {
    Join(["", "argon2id", VersionField(version), ParamsField(ps), lib.encode(salt), lib.encode(digest)], '$')
  }

  function Hash(lib: Library, password: string, salt: Bytes): string {
    Encode(lib, VERSION, PARAMS, salt, lib.idKey(password, salt, PARAMS, KEY_LEN))
  }

  lemma {:induction false} DecimalFacts(n: nat)
    ensures Decimal(n) != "" && forall i :: 0 <= i < |Decimal(n)| ==> IsDigit(Decimal(n)[i])
    ensures Value(Decimal(n)) == n
  {
    if n < 10 {
      assert Decimal(n)[..0] == "";
    } else {
      DecimalFacts(n / 10);
      assert Decimal(n)[..|Decimal(n)| - 1] == Decimal(n / 10);
    }
  }

  lemma DigitRunIs(s: string, k: nat)
    requires k <= |s| && (forall i :: 0 <= i < k ==> IsDigit(s[i])) && (k < |s| ==> !IsDigit(s[k]))
    ensures DigitRun(s) == k
  {
  }

  /** Scanning a printed number gives the number and leaves what follows it. */
  lemma ScanOfField(literal: string, n: nat, rest: string, limit: nat)
    requires n < limit && (rest == "" || !IsDigit(rest[0]))
    ensures ScanField(literal, literal + (Decimal(n) + rest), limit) == Match(n, rest)
  {
    var s, k := Decimal(n) + rest, |Decimal(n)|;
    DecimalFacts(n);
    assert s[0] == Decimal(n)[0];
    DigitRunIs(s, k);
    assert s[..k] == Decimal(n) && s[k..] == rest;
    assert (literal + s)[|literal|..] == s;
  }

  lemma ScanOfVersionField(n: nat)
    requires n < 0x8000_0000_0000_0000
    ensures ScansVersion(VersionField(n))
  {
    var d := Decimal(n);
    DecimalFacts(n);
    DigitRunIs(d, |d|);
    assert VersionField(n)[2..] == d && IsDigit(d[0]) && d[..|d|] == d;
  }

  predicate InRange(ps: Params) {
    ps.memory < 0x1_0000_0000 && ps.time < 0x1_0000_0000 && ps.threads < 0x100
  }

  lemma ScanOfParamsField(ps: Params)
    requires InRange(ps)
    ensures ScanParams(ParamsField(ps)) == Some(ps)
  {
    var s2 := ",p=" + (Decimal(ps.threads) + "");
    var s1 := ",t=" + (Decimal(ps.time) + s2);
    ScanOfField("m=", ps.memory, s1, 0x1_0000_0000);
    ScanOfField(",t=", ps.time, s2, 0x1_0000_0000);
    ScanOfField(",p=", ps.threads, "", 0x100);
    assert Decimal(ps.threads) + "" == Decimal(ps.threads);
  }

  lemma NoDollar(s: string)
    requires forall i :: 0 <= i < |s| ==> s[i] != '$'
    ensures '$' !in s
  {
  }

  /** The decoder inverts the encoder, for every version, parameter set, salt and digest. */
  lemma DecodeOfEncode(lib: Library, version: nat, ps: Params, salt: Bytes, digest: Bytes)
    requires Lawful(lib) && InRange(ps) && version < 0x8000_0000_0000_0000
    ensures Decode(lib, Encode(lib, version, ps, salt, digest)) == Some(Decoded(salt, digest, ps))
  {
    var parts := ["", "argon2id", VersionField(version), ParamsField(ps), lib.encode(salt), lib.encode(digest)];
    DecimalFacts(version);
    DecimalFacts(ps.memory);
    DecimalFacts(ps.time);
    DecimalFacts(ps.threads);
    NoDollar(parts[2]);
    NoDollar(parts[3]);
    SplitOfJoin(parts, '$');
    ScanOfVersionField(version);
    ScanOfParamsField(ps);
  }

  // ---- exactly what the decoder accepts ----

  /** Blanks without a line break, then digits of this number. */
  ghost predicate IsNumeral(w: string, n: nat) {
    exists b: nat :: IsNumeralAfter(w, b, n)
  }

  predicate IsNumeralAfter(w: string, b: nat, n: nat) {
    && b < |w| && (forall i :: 0 <= i < b ==> IsSpace(w[i]) && w[i] != '\n')
    && (forall i :: b <= i < |w| ==> IsDigit(w[i])) && Value(w[b..]) == n
  }

  /** The literal, a numeral of n, and the rest. */
  ghost predicate IsField(literal: string, s: string, n: nat, rest: string) {
    exists w :: s == literal + (w + rest) && IsNumeral(w, n)
  }

  predicate StartsNoDigit(rest: string) { rest == "" || !IsDigit(rest[0]) }

  lemma {:induction false} SkipSpaceDrops(s: string) returns (b: nat)
    ensures SkipSpace(s).Some? ==>
              b <= |s| && SkipSpace(s) == Some(s[b..]) && forall i :: 0 <= i < b ==> IsSpace(s[i]) && s[i] != '\n'
  {
    b := 0;
    if s != "" && IsSpace(s[0]) && s[0] != '\n' {
      b := SkipSpaceDrops(s[1..]);
      b := b + 1;
    }
  }

  lemma {:induction false} SkipSpaceOf(s: string, b: nat)
    requires b <= |s| && (forall i :: 0 <= i < b ==> IsSpace(s[i]) && s[i] != '\n')
    requires b == |s| || !IsSpace(s[b])
    ensures SkipSpace(s) == Some(s[b..])
  {
    if b > 0 {
      SkipSpaceOf(s[1..], b - 1);
    }
  }

  /** A scanned number is the longest numeral there is. */
  lemma UintScanned(u: string, limit: nat)
    requires ScanUint(u, limit).Match?
    ensures var r := ScanUint(u, limit);
            r.value < limit && StartsNoDigit(r.rest) && exists w :: u == w + r.rest && IsNumeral(w, r.value)
  {
    hide SkipSpace, Value, IsSpace;
    var b := SkipSpaceDrops(u);
    var t := u[b..];
    var k := DigitRun(t);
    var w := u[..b + k];
    CutAfter(u, b, k);
    assert IsNumeralAfter(w, b, Value(t[..k]));
    assert IsNumeral(w, Value(t[..k]));
  }

  lemma CutAfter(u: string, b: nat, k: nat)
    requires b + k <= |u|
    ensures u[..b + k][b..] == u[b..][..k] && u == u[..b + k] + u[b..][k..]
  {
  }

  lemma ScanUintOf(w: string, n: nat, rest: string, limit: nat)
    requires n < limit && StartsNoDigit(rest) && IsNumeral(w, n)
    ensures ScanUint(w + rest, limit) == Match(n, rest)
  {
    hide SkipSpace, Value, DigitRun;
    var b: nat :| IsNumeralAfter(w, b, n);
    var u := w + rest;
    assert u[b] == w[b];
    SkipSpaceOf(u, b);
    var t, k := u[b..], |w| - b;
    assert t == w[b..] + rest;
    DigitRunIs(t, k);
    assert t[..k] == w[b..] && t[k..] == rest;
  }

  lemma Scanned(literal: string, s: string, limit: nat)
    requires ScanField(literal, s, limit).Match?
    ensures var r := ScanField(literal, s, limit);
            r.value < limit && StartsNoDigit(r.rest) && IsField(literal, s, r.value, r.rest)
  {
    hide ScanUint, IsNumeral;
    UintScanned(s[|literal|..], limit);
    assert s == literal + s[|literal|..];
  }

  lemma ScanOfNumeral(literal: string, s: string, n: nat, rest: string, limit: nat)
    requires n < limit && StartsNoDigit(rest) && IsField(literal, s, n, rest)
    ensures ScanField(literal, s, limit) == Match(n, rest)
  {
    hide ScanUint, IsNumeral;
    var w :| s == literal + (w + rest) && IsNumeral(w, n);
    assert s[|literal|..] == w + rest;
    ScanUintOf(w, n, rest, limit);
  }

  /** The three cost fields, each within its width; what follows them is ignored. */
  ghost predicate IsParamsText(s: string, ps: Params) {
    InRange(ps) && exists s1, s2, rest :: IsField("m=", s, ps.memory, s1) && IsField(",t=", s1, ps.time, s2) &&
                                          IsField(",p=", s2, ps.threads, rest) && StartsNoDigit(rest)
  }

  lemma ParamsScannedIff(s: string, ps: Params)
    ensures ScanParams(s) == Some(ps) <==> IsParamsText(s, ps)
  {
    hide ScanField, IsField, IsNumeral;
    if ScanParams(s) == Some(ps) {
      Scanned("m=", s, 0x1_0000_0000);
      var s1 := ScanField("m=", s, 0x1_0000_0000).rest;
      Scanned(",t=", s1, 0x1_0000_0000);
      Scanned(",p=", ScanField(",t=", s1, 0x1_0000_0000).rest, 0x100);
    }
    if IsParamsText(s, ps) {
      var s1, s2, rest :| IsField("m=", s, ps.memory, s1) && IsField(",t=", s1, ps.time, s2) &&
                          IsField(",p=", s2, ps.threads, rest) && StartsNoDigit(rest);
      StartsWith(",t=", s1, ps.time, s2);
      StartsWith(",p=", s2, ps.threads, rest);
      ScanOfNumeral("m=", s, ps.memory, s1, 0x1_0000_0000);
      ScanOfNumeral(",t=", s1, ps.time, s2, 0x1_0000_0000);
      ScanOfNumeral(",p=", s2, ps.threads, rest, 0x100);
    }
  }

  lemma StartsWith(literal: string, s: string, n: nat, rest: string)
    requires IsField(literal, s, n, rest) && literal != "" && !IsDigit(literal[0])
    ensures StartsNoDigit(s)
  {
  }

  /** Blanks without a line break. */
  predicate IsBlank(w: string) { forall i :: 0 <= i < |w| ==> IsSpace(w[i]) && w[i] != '\n' }

  predicate IsDigits(w: string) { w != "" && forall i :: 0 <= i < |w| ==> IsDigit(w[i]) }

  /** An optional sign and a number that fits a 64-bit integer; what follows is ignored. */
  predicate IsSigned(sign: string, digits: string) {
    sign in {"", "+", "-"} && IsDigits(digits) &&
    Value(digits) < Bound(sign)
  }

  predicate IsSplit(t: string, sign: string, digits: string, rest: string) {
    t == sign + (digits + rest) && IsSigned(sign, digits) && StartsNoDigit(rest)
  }

  ghost predicate IsSignedText(t: string) { exists sign, digits, rest :: IsSplit(t, sign, digits, rest) }

  ghost predicate IsVersionText(s: string) {
    "v=" <= s && exists blank, t :: s[2..] == blank + t && IsBlank(blank) && IsSignedText(t)
  }

  function SignOf(t: string): (sign: string)
    ensures sign in {"", "+", "-"} && sign <= t
  {
    if t != "" && t[0] == '-' then "-" else if t != "" && t[0] == '+' then "+" else ""
  }

  function Bound(sign: string): nat { if sign == "-" then 0x8000_0000_0000_0001 else 0x8000_0000_0000_0000 }

  /** What ScansVersion checks after the blanks. */
  predicate ScansSigned(t: string) {
    var u := t[|SignOf(t)|..];
    DigitRun(u) > 0 && Value(u[..DigitRun(u)]) < Bound(SignOf(t))
  }

  lemma SignOfSigned(sign: string, u: string)
    requires sign in {"", "+", "-"} && u != "" && IsDigit(u[0])
    ensures SignOf(sign + u) == sign && (sign + u)[|sign|..] == u && !IsSpace((sign + u)[0])
  {
    if sign == "" {
      assert sign + u == u;
    } else {
      assert (sign + u)[0] == sign[0];
    }
  }

  lemma DigitRunCuts(u: string)
    ensures var k := DigitRun(u); (k > 0 ==> IsDigits(u[..k])) && StartsNoDigit(u[k..])
  {
    hide DigitRun;
  }

  lemma DigitRunOf(digits: string, rest: string)
    requires IsDigits(digits) && StartsNoDigit(rest)
    ensures DigitRun(digits + rest) == |digits| && (digits + rest)[..|digits|] == digits
    ensures digits + rest != "" && IsDigit((digits + rest)[0])
  {
    assert (digits + rest)[0] == digits[0];
    DigitRunIs(digits + rest, |digits|);
  }

  lemma SignedScans(t: string, sign: string, digits: string, rest: string)
    requires IsSplit(t, sign, digits, rest)
    ensures ScansSigned(t) && t != "" && !IsSpace(t[0])
  {
    hide Value, DigitRun, SignOf, IsDigits, IsSpace;
    DigitRunOf(digits, rest);
    SignOfSigned(sign, digits + rest);
  }

  lemma SplitAfterSign(t: string, k: nat)
    requires var sign := SignOf(t); var u := t[|sign|..];
             k <= |u| && IsSigned(sign, u[..k]) && StartsNoDigit(u[k..])
    ensures var sign := SignOf(t); var u := t[|sign|..];
            IsSplit(t, sign, u[..k], u[k..])
  {
    hide IsSigned, StartsNoDigit;
    var sign := SignOf(t);
    var u := t[|sign|..];
    assert u[..k] + u[k..] == u;
    assert t == sign + u;
  }

  lemma ScansSignedText(t: string)
    requires ScansSigned(t)
    ensures IsSignedText(t)
  {
    hide Value, DigitRun, SignOf, IsDigits, StartsNoDigit, IsSplit;
    DigitRunCuts(t[|SignOf(t)|..]);
    SplitAfterSign(t, DigitRun(t[|SignOf(t)|..]));
  }

  lemma VersionIff(s: string)
    ensures ScansVersion(s) <==> IsVersionText(s)
  {
    hide IsSignedText, ScansSigned, SkipSpace;
    if ScansVersion(s) {
      var b := SkipSpaceDrops(s[2..]);
      var t := s[2..][b..];
      assert ScansSigned(t) by { ScansAfterBlanks(s, t); }
      ScansSignedText(t);
      assert s[2..] == s[2..][..b] + t && IsBlank(s[2..][..b]);
    }
    if IsVersionText(s) {
      var blank, t :| s[2..] == blank + t && IsBlank(blank) && IsSignedText(t);
      SignedTextScans(t);
      SkipSpaceOf(s[2..], |blank|);
      assert s[2..][|blank|..] == t;
      ScansAfterBlanks(s, t);
    }
  }

  lemma SignedTextScans(t: string)
    requires IsSignedText(t)
    ensures ScansSigned(t) && t != "" && !IsSpace(t[0])
  {
    hide IsSplit, ScansSigned;
    var sign, digits, rest :| IsSplit(t, sign, digits, rest);
    SignedScans(t, sign, digits, rest);
  }

  lemma ScansAfterBlanks(s: string, t: string)
    requires "v=" <= s && SkipSpace(s[2..]) == Some(t)
    ensures ScansVersion(s) <==> ScansSigned(t)
  {
    hide Value, DigitRun, SkipSpace;
    assert SignOf(t) == "" ==> t[0..] == t;
  }

  /** The six fields of a stored string that decodes to d: nothing is checked of the first, nor which version it is. */
  ghost predicate IsStoredHash(lib: Library, parts: seq<string>, d: Decoded) {
    && |parts| == 6 && (forall part :: part in parts ==> '$' !in part)
    && parts[1] == "argon2id" && IsVersionText(parts[2]) && IsParamsText(parts[3], d.params)
    && lib.decode(parts[4]) == Some(d.salt) && lib.decode(parts[5]) == Some(d.digest)
  }

  /** A string decodes to d exactly if it is six such fields, joined by `$`. */
  lemma DecodesIff(lib: Library, encoded: string, d: Decoded)
    ensures Decode(lib, encoded) == Some(d) <==>
              exists parts :: encoded == Join(parts, '$') && IsStoredHash(lib, parts, d)
  {
    hide ScansVersion, ScanParams, IsParamsText, IsVersionText;
    if Decode(lib, encoded) == Some(d) {
      var parts := Split(encoded, '$');
      JoinOfSplit(encoded, '$');
      PartsHaveNoSeparator(encoded, '$');
      VersionIff(parts[2]);
      ParamsScannedIff(parts[3], d.params);
      assert encoded == Join(parts, '$') && IsStoredHash(lib, parts, d);
    }
    if exists parts :: encoded == Join(parts, '$') && IsStoredHash(lib, parts, d) {
      var parts :| encoded == Join(parts, '$') && IsStoredHash(lib, parts, d);
      SplitOfJoin(parts, '$');
      VersionIff(parts[2]);
      ParamsScannedIff(parts[3], d.params);
    }
  }

  /** subtleConstantTimeCompare is byte equality. */
  method ConstantTimeCompare(a: Bytes, b: Bytes) returns (same: bool)
    ensures same <==> a == b
  {
    if |a| != |b| {
      return false;
    }
    var v: bv8 := 0;
    for i := 0 to |a|
      invariant v == 0 <==> a[..i] == b[..i]
    {
      OrXorIsZero(v, a[i], b[i]);
      v := v | (a[i] ^ b[i]);
      assert a[..i + 1] == a[..i] + [a[i]] && b[..i + 1] == b[..i] + [b[i]];
    }
    assert a[..|a|] == a && b[..|b|] == b;
    return v == 0;
  }

  lemma OrXorIsZero(v: bv8, x: bv8, y: bv8)
    ensures v | (x ^ y) == 0 <==> v == 0 && x == y
  {
  }

  /** Whether a stored string accepts a password. */
  predicate Accepts(lib: Library, stored: string, password: string) {
    match Decode(lib, stored)
    case None => false
    case Some(d) => lib.idKey(password, d.salt, d.params, |d.digest|) == d.digest
  }

  method Verify(lib: Library, stored: string, password: string) returns (ok: bool)
    ensures ok <==> Accepts(lib, stored, password)
  {
    var decoded := Decode(lib, stored);
    if decoded.None? {
      return false;
    }
    var d := decoded.value;
    ok := ConstantTimeCompare(d.digest, lib.idKey(password, d.salt, d.params, |d.digest|));
  }

  /** A fresh hash accepts its own password, and another password only when it derives the same key. */
  lemma HashAcceptsItsPassword(lib: Library, password: string, salt: Bytes, other: string)
    requires Lawful(lib)
    ensures Accepts(lib, Hash(lib, password, salt), password)
    ensures Accepts(lib, Hash(lib, password, salt), other) <==>
              lib.idKey(other, salt, PARAMS, KEY_LEN) == lib.idKey(password, salt, PARAMS, KEY_LEN)
  {
    DecodeOfEncode(lib, VERSION, PARAMS, salt, lib.idKey(password, salt, PARAMS, KEY_LEN));
  }
}
