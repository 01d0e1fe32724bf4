/** IPv6 prefix lengths and what matching against a prefix means, bit by bit. */
module Prefixes {
  import opened Basics
  import opened Config
  import opened RuleSources

  /** Bits of byte i that a prefix of this length covers. */
  function Covered(prefix: nat, i: nat): nat {
    if prefix >= 8 * i + 8 then 8 else if prefix > 8 * i then prefix - 8 * i else 0
  }

  /** The byte with its `bits` most significant bits set. */
  function TopOnes(bits: nat): u8
    requires bits <= 8
  {
    TopOnesFit(bits);
    256 - Pow2(8 - bits)
  }

  lemma TopOnesFit(bits: nat)
    requires bits <= 8
    ensures 1 <= Pow2(8 - bits) <= 256
  {
    assert Pow2(8) == 256;
    PowGrows(8 - bits, 8);
  }

  lemma {:induction false} PowGrows(a: nat, b: nat)
    requires a <= b
    ensures Pow2(a) <= Pow2(b)
  {
    if a < b { PowGrows(a, b - 1); }
  }

  function MaskByte(prefix: nat, i: nat): u8 { TopOnes(Covered(prefix, i)) }

  function PrefixMask(prefix: nat): (m: Addr6)
    ensures forall i | 0 <= i < 16 :: m[i] == MaskByte(prefix, i)
  {
    seq(16, i requires 0 <= i < 16 => MaskByte(prefix, i))
  }

  /** pw_v6_prefix_mask. */
  method BuildPrefixMask(prefix: nat) returns (mask: Addr6)
    ensures mask == PrefixMask(prefix)
  {
    var out: Bytes := [];
    for i := 0 to 16
      invariant |out| == i && forall j | 0 <= j < i :: out[j] == MaskByte(prefix, j)
    {
      var lo, hi := i * 8, i * 8 + 8;
      var bits := if prefix >= hi then 8 else if prefix > lo then prefix - lo else 0;
      out := out + [if bits != 0 then TopOnes(bits) else 0];
      assert Pow2(8) == 256;
    }
    mask := out;
  }

  // ---- what the mask compares ---------------------------------------------------------------------------

  /** Bit j of an address, 0 being the most significant. */
  function AddrBit(a: Addr6, j: nat): bool
    requires j < 128
  {
    HasBit(a[j / 8], 7 - j % 8)
  }

  /** Masking with w - k high ones drops the low k bits. */
  lemma {:induction false} AndHigh(x: nat, w: nat, k: nat)
    requires k <= w && x < Pow2(w)
    ensures Pow2(k) <= Pow2(w) && And(x, Pow2(w) - Pow2(k)) == x / Pow2(k) * Pow2(k)
  {
    PowGrows(k, w);
    if k == 0 {
      AndOnes(x, w);
    } else {
      AndHigh(x / 2, w - 1, k - 1);
      AndHighStep(x, Pow2(k - 1), Pow2(w - 1) - Pow2(k - 1), Pow2(k));
    }
  }

  lemma AndHighStep(x: nat, p: nat, m: nat, d: nat)
    requires p > 0 && d == 2 * p && And(x / 2, m) == x / 2 / p * p
    ensures And(x, 2 * m) == x / d * d
  {
    EvenMask(x, m);
    DivTwice(x, p, d);
    Regroup(x / d, p, d);
  }

  lemma Regroup(q: int, p: nat, d: nat)
    requires d == 2 * p
    ensures 2 * (q * p) == q * d
  {}

  lemma EvenMask(x: nat, m: nat)
    ensures And(x, 2 * m) == 2 * And(x / 2, m)
  {
    var d := 2 * m;
    assert d / 2 == m && d % 2 == 0;
    if x == 1 { assert And(1, d) == 2 * And(0, m); }
  }

  lemma DivTwice(x: nat, p: nat, d: nat)
    requires p > 0 && d == 2 * p
    ensures x / d == x / 2 / p
  {
    var y := x / 2;
    var q, s := y / p, y % p;
    DivMod(y, p);
    Regroup(q, p, d);
    QuotientIs(x, d, q, 2 * s + x % 2);
  }

  lemma DivMod(y: nat, p: nat)
    requires p > 0
    ensures y == y / p * p + y % p && 0 <= y / p && 0 <= y % p < p
  {}

  /** Two numbers agree above bit k exactly when they agree in every bit from k on. */
  lemma {:induction false} BitsAgree(x: nat, y: nat, k: nat, w: nat)
    requires k <= w && x < Pow2(w) && y < Pow2(w)
    ensures x / Pow2(k) == y / Pow2(k) <==> forall i | k <= i < w :: HasBit(x, i) == HasBit(y, i)
    decreases w - k
  {
    if k == w {
      QuotientIs(x, Pow2(w), 0, x);
      QuotientIs(y, Pow2(w), 0, y);
    } else {
      BitsAgree(x, y, k + 1, w);
      HalfOf(x, Pow2(k));
      HalfOf(y, Pow2(k));
      assert Pow2(k + 1) == 2 * Pow2(k);
      assert HasBit(x, k) == (x / Pow2(k) % 2 == 1) && HasBit(y, k) == (y / Pow2(k) % 2 == 1);
    }
  }

  /** One byte under a prefix mask byte. */
  lemma ByteUnderPrefix(x: u8, y: u8, bits: nat)
    requires bits <= 8
    ensures And(x, TopOnes(bits)) == And(y, TopOnes(bits)) <==>
            forall i | 8 - bits <= i < 8 :: HasBit(x, i) == HasBit(y, i)
  {
    assert Pow2(8) == 256;
    var k := 8 - bits;
    HighPart(x, k);
    HighPart(y, k);
    BitsAgree(x, y, k, 8);
    SameMultiple(x / Pow2(k), y / Pow2(k), Pow2(k));
  }

  lemma HighPart(x: u8, k: nat)
    requires k <= 8
    ensures And(x, TopOnes(8 - k)) == x / Pow2(k) * Pow2(k)
  {
    assert Pow2(8) == 256;
    AndHigh(x, 8, k);
  }

  lemma SameMultiple(a: int, b: int, p: nat)
    requires p > 0
    ensures a * p == b * p <==> a == b
  {
    MulGrows(a - b, p);
  }

  /** Matching a prefix of length L is agreeing in the first L bits of the address. */
  lemma PrefixMeansBits(addr: Addr6, net: Addr6, prefix: nat)
    requires prefix <= 128
    ensures AddrMatches(addr, V6Prefix(net, PrefixMask(prefix))) <==>
            forall j | 0 <= j < prefix :: AddrBit(addr, j) == AddrBit(net, j)
  {
    var m := PrefixMask(prefix);
    forall i | 0 <= i < 16
      ensures And(addr[i], m[i]) == And(net[i], m[i])
         <==> forall b | 8 - Covered(prefix, i) <= b < 8 :: HasBit(addr[i], b) == HasBit(net[i], b)
    {
      ByteUnderPrefix(addr[i], net[i], Covered(prefix, i));
    }
    if AddrMatches(addr, V6Prefix(net, m)) {
      forall j | 0 <= j < prefix ensures AddrBit(addr, j) == AddrBit(net, j) {
        var i, b := j / 8, 7 - j % 8;
        assert And(addr[i], m[i]) == And(net[i], m[i]);
        assert 8 - Covered(prefix, i) <= b < 8;
      }
    }
    if forall j | 0 <= j < prefix :: AddrBit(addr, j) == AddrBit(net, j) {
      forall i | 0 <= i < 16 ensures And(addr[i], m[i]) == And(net[i], m[i]) {
        forall b | 8 - Covered(prefix, i) <= b < 8 ensures HasBit(addr[i], b) == HasBit(net[i], b) {
          var j := 8 * i + 7 - b;
          assert j / 8 == i && 7 - j % 8 == b;
          assert AddrBit(addr, j) == AddrBit(net, j);
        }
      }
    }
  }
}
