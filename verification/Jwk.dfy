/** Base64urlUInt octets of a JWK member (section 2 of RFC 7518). */
module Jwk {

  newtype Octet = b: int | 0 <= b < 256

  /** The number a big-endian octet string stands for. */
  function ToInt(bs: seq<Octet>): nat {
    if |bs| == 0 then 0 else 256 * ToInt(bs[..|bs| - 1]) + bs[|bs| - 1] as nat
  }

  /** The octets prepended so far stand for the low digits; rest is what is still to be written. */
  function Weight(k: nat): (w: nat)
    ensures w >= 1
  {
    if k == 0 then 1 else 256 * Weight(k - 1)
  }

  lemma {:induction false} ToIntPrepend(b: Octet, bs: seq<Octet>)
    ensures ToInt([b] + bs) == b as nat * Weight(|bs|) + ToInt(bs)
  {
    if |bs| == 0 {
      assert ([b] + bs)[..0] == [];
    } else {
      var init := bs[..|bs| - 1];
      ToIntPrepend(b, init);
      assert ([b] + bs)[..|bs|] == [b] + init;
      Shift(b as nat, Weight(|init|));
    }
  }

  lemma Shift(a: nat, w: nat)
    ensures 256 * (a * w) == a * (256 * w)
  {
  }

  lemma {:induction false} ToIntBound(bs: seq<Octet>)
    ensures ToInt(bs) < Weight(|bs|)
  {
    if |bs| > 0 {
      ToIntBound(bs[..|bs| - 1]);
    }
  }

  lemma {:induction false} WeightMonotone(i: nat, j: nat)
    requires i <= j
    ensures Weight(i) <= Weight(j)
    decreases j
  {
    if i < j {
      WeightMonotone(i, j - 1);
    }
  }

  lemma LeadingDigit(bs: seq<Octet>)
    requires |bs| > 0 && bs[0] != 0
    ensures ToInt(bs) >= Weight(|bs| - 1)
  {
    var tail := bs[1..];
    assert bs == [bs[0]] + tail;
    ToIntPrepend(bs[0], tail);
    AtLeastOnce(bs[0] as nat, Weight(|tail|));
  }

  lemma AtLeastOnce(a: nat, w: nat)
    requires a >= 1
    ensures a * w >= w
  {
  }

  /** No shorter octet string stands for the same number as one without a leading zero. */
  lemma NoLeadingZeroIsMinimal(bs: seq<Octet>, other: seq<Octet>)
    requires |bs| > 0 && bs[0] != 0 && ToInt(other) == ToInt(bs)
    ensures |bs| <= |other|
  {
    LeadingDigit(bs);
    ToIntBound(other);
    if |other| < |bs| {
      WeightMonotone(|other|, |bs| - 1);
    }
  }

  /** For n >= 0: decodes to n, has no leading zero unless it is the single zero octet, and is shortest. */
  method BigIntToBytes(n: int) returns (out: seq<Octet>)
    ensures n >= 0 ==> ToInt(out) == n
    ensures n == 0 ==> out == [0]
    ensures n > 0 ==> |out| > 0 && out[0] != 0
    ensures n >= 0 ==> forall other :: |other| > 0 && ToInt(other) == n ==> |out| <= |other|
    ensures n < 0 ==> out == []
  {
    if n == 0 {
      return [0];
    }
    out := [];
    var rest := n;
    while rest > 0
      invariant n > 0 ==> rest >= 0 && rest * Weight(|out|) + ToInt(out) == n
      invariant n < 0 ==> rest == n && out == []
      invariant rest == 0 ==> |out| > 0 && out[0] != 0
    {
      ToIntPrepend((rest % 256) as Octet, out);
      SplitDigit(rest, Weight(|out|));
      out := [(rest % 256) as Octet] + out;
      rest := rest / 256;
    }
    if n > 0 {
      forall other | |other| > 0 && ToInt(other) == n ensures |out| <= |other| {
        NoLeadingZeroIsMinimal(out, other);
      }
    }
  }

  lemma SplitDigit(rest: nat, w: nat)
    ensures (rest / 256) * (256 * w) + (rest % 256) * w == rest * w
  {
    assert rest == 256 * (rest / 256) + rest % 256;
    assert (256 * (rest / 256) + rest % 256) * w == 256 * (rest / 256) * w + (rest % 256) * w;
  }
}
