/** Numbers and byte strings bit by bit: what masking, selecting and shifting do to each bit. */
module Bits {
  import opened Basics

  /** Bit i of a big-endian byte string, 0 being the least significant. */
  predicate BitAt(x: Bytes, i: nat)
    requires i < 8 * |x|
  {
    HasBit(x[|x| - 1 - i / 8], i % 8)
  }

  // ---- one step ----------------------------------------------------------------------

  /** The same, by halving. */
  predicate Bit(x: nat, i: nat) { if i == 0 then x % 2 == 1 else Bit(x / 2, i - 1) }

  lemma Quotient(x: nat, d: nat)
    requires d > 0
    ensures x / d >= 0
  {}

  /** The value without its low k bits. */
  function Shifted(x: nat, k: nat): nat {
    Quotient(x, Pow2(k));
    x / Pow2(k)
  }

  lemma HalveFirst(x: nat, k: nat)
    requires k > 0
    ensures Shifted(x, k) == Shifted(x / 2, k - 1)
  {
    var p, h := Pow2(k - 1), x / 2;
    var q, r := h / p, h % p;
    assert x == q * (2 * p) + (2 * r + x % 2);
    Quotient(h, p);
    QuotientIs(x, 2 * p, q, 2 * r + x % 2);
  }

  lemma {:induction false} ByHalving(x: nat, i: nat)
    ensures HasBit(x, i) == Bit(x, i)
  {
    assert HasBit(x, i) == (Shifted(x, i) % 2 == 1);
    if i > 0 {
      HalveFirst(x, i);
      ByHalving(x / 2, i - 1);
      assert HasBit(x / 2, i - 1) == (Shifted(x / 2, i - 1) % 2 == 1);
    }
  }

  // ---- the operators -----------------------------------------------------------------

  lemma {:induction false} BitOfZero(i: nat)
    ensures !Bit(0, i)
  {
    if i > 0 { BitOfZero(i - 1); }
  }

  /** What one bit in front of a value does. */
  lemma BitOf(h: nat, b: nat, i: nat)
    requires b < 2
    ensures Bit(2 * h + b, i) == if i == 0 then b == 1 else Bit(h, i - 1)
  {
    assert (2 * h + b) / 2 == h;
  }

  lemma {:induction false} BitOfSelect(base: nat, mask: nat, rot: nat, i: nat)
    ensures Bit(Select(base, mask, rot), i) == if Bit(mask, i) then Bit(rot, i) else Bit(base, i)
    decreases mask
  {
    if mask == 0 {
      BitOfZero(i);
    } else {
      BitOf(Select(base / 2, mask / 2, rot / 2), if mask % 2 == 1 then rot % 2 else base % 2, i);
      if i > 0 { BitOfSelect(base / 2, mask / 2, rot / 2, i - 1); }
    }
  }

  lemma {:induction false} BitOfXor(a: nat, b: nat, i: nat)
    ensures Bit(Xor(a, b), i) == (Bit(a, i) != Bit(b, i))
  {
    if a == 0 || b == 0 {
      BitOfZero(i);
    } else {
      BitOf(Xor(a / 2, b / 2), if a % 2 != b % 2 then 1 else 0, i);
      if i > 0 { BitOfXor(a / 2, b / 2, i - 1); }
    }
  }

  lemma {:induction false} BitOfAnd(a: nat, b: nat, i: nat)
    ensures Bit(And(a, b), i) == (Bit(a, i) && Bit(b, i))
  {
    if a == 0 || b == 0 {
      BitOfZero(i);
    } else {
      BitOf(And(a / 2, b / 2), if a % 2 == 1 && b % 2 == 1 then 1 else 0, i);
      if i > 0 { BitOfAnd(a / 2, b / 2, i - 1); }
    }
  }

  lemma {:induction false} BitOfAndNot(a: nat, b: nat, i: nat)
    ensures Bit(AndNot(a, b), i) == (Bit(a, i) && !Bit(b, i))
  {
    if a == 0 || b == 0 {
      BitOfZero(i);
    } else {
      BitOf(AndNot(a / 2, b / 2), if a % 2 == 1 && b % 2 == 0 then 1 else 0, i);
      if i > 0 { BitOfAndNot(a / 2, b / 2, i - 1); }
    }
  }

  lemma SelectBit(base: nat, mask: nat, rot: nat, i: nat)
    ensures HasBit(Select(base, mask, rot), i) == if HasBit(mask, i) then HasBit(rot, i) else HasBit(base, i)
  {
    ByHalving(base, i);
    ByHalving(mask, i);
    ByHalving(rot, i);
    ByHalving(Select(base, mask, rot), i);
    BitOfSelect(base, mask, rot, i);
  }

  lemma XorBit(a: nat, b: nat, i: nat)
    ensures HasBit(Xor(a, b), i) == (HasBit(a, i) != HasBit(b, i))
  {
    ByHalving(a, i);
    ByHalving(b, i);
    ByHalving(Xor(a, b), i);
    BitOfXor(a, b, i);
  }

  lemma AndBit(a: nat, b: nat, i: nat)
    ensures HasBit(And(a, b), i) == (HasBit(a, i) && HasBit(b, i))
  {
    ByHalving(a, i);
    ByHalving(b, i);
    ByHalving(And(a, b), i);
    BitOfAnd(a, b, i);
  }

  lemma AndNotBit(a: nat, b: nat, i: nat)
    ensures HasBit(AndNot(a, b), i) == (HasBit(a, i) && !HasBit(b, i))
  {
    ByHalving(a, i);
    ByHalving(b, i);
    ByHalving(AndNot(a, b), i);
    BitOfAndNot(a, b, i);
  }

  lemma {:induction false} OnesBit(k: nat, i: nat)
    requires i < k
    ensures Bit(Pow2(k) - 1, i)
  {
    BitOf(Pow2(k - 1) - 1, 1, i);
    if i > 0 { OnesBit(k - 1, i - 1); }
  }

  lemma ByteOnes(i: nat)
    requires i < 8
    ensures HasBit(0xFF, i) && !HasBit(0, i)
  {
    assert Pow2(8) == 256;
    OnesBit(8, i);
    BitOfZero(i);
    ByHalving(0xFF, i);
    ByHalving(0, i);
  }

  // ---- shifts ------------------------------------------------------------------------

  lemma {:induction false} BitOfLeft(x: nat, k: nat, i: nat)
    ensures Bit(x * Pow2(k), i) == (i >= k && Bit(x, i - k))
  {
    if k > 0 {
      var y := x * Pow2(k - 1);
      assert x * Pow2(k) == 2 * y;
      BitOf(y, 0, i);
      if i > 0 { BitOfLeft(x, k - 1, i - 1); }
    }
  }

  lemma {:induction false} BitOfRight(x: nat, k: nat, i: nat)
    ensures Bit(Shifted(x, k), i) == Bit(x, i + k)
  {
    if k > 0 {
      HalveFirst(x, k);
      BitOfRight(x / 2, k - 1, i);
    }
  }

  lemma LeftBit(x: nat, k: nat, i: nat)
    ensures HasBit(x * Pow2(k), i) == (i >= k && HasBit(x, i - k))
  {
    ByHalving(x * Pow2(k), i);
    BitOfLeft(x, k, i);
    if i >= k { ByHalving(x, i - k); }
  }

  lemma RightBit(x: nat, k: nat, i: nat)
    ensures HasBit(Shifted(x, k), i) == HasBit(x, i + k)
  {
    ByHalving(Shifted(x, k), i);
    BitOfRight(x, k, i);
    ByHalving(x, i + k);
  }

  lemma ModHalves(x: nat, w: nat)
    requires w > 0
    ensures x % Pow2(w) == 2 * (x / 2 % Pow2(w - 1)) + x % 2
  {
    var p, h := Pow2(w - 1), x / 2;
    var q, r := h / p, h % p;
    assert x == q * (2 * p) + (2 * r + x % 2);
    Quotient(h, p);
    QuotientIs(x, 2 * p, q, 2 * r + x % 2);
  }

  lemma {:induction false} BitOfLow(x: nat, w: nat, i: nat)
    ensures Bit(x % Pow2(w), i) == (i < w && Bit(x, i))
  {
    if w == 0 {
      BitOfZero(i);
    } else {
      ModHalves(x, w);
      BitOf(x / 2 % Pow2(w - 1), x % 2, i);
      if i > 0 { BitOfLow(x / 2, w - 1, i - 1); }
    }
  }

  lemma LowBit(x: nat, w: nat, i: nat)
    ensures HasBit(x % Pow2(w), i) == (i < w && HasBit(x, i))
  {
    ByHalving(x % Pow2(w), i);
    ByHalving(x, i);
    BitOfLow(x, w, i);
  }

  /** Two numbers leave the same remainder modulo 2^w exactly if their low w bits agree. */
  lemma {:induction false} LowBitsAgree(x: nat, y: nat, w: nat)
    ensures x % Pow2(w) == y % Pow2(w) <==> forall i | 0 <= i < w :: HasBit(x, i) == HasBit(y, i)
  {
    if x % Pow2(w) == y % Pow2(w) {
      forall i | 0 <= i < w ensures HasBit(x, i) == HasBit(y, i) {
        LowBit(x, w, i);
        LowBit(y, w, i);
      }
    } else {
      LowBitDiffers(x, y, w);
    }
  }

  lemma {:induction false} LowBitDiffers(x: nat, y: nat, w: nat)
    requires x % Pow2(w) != y % Pow2(w)
    ensures exists i :: 0 <= i < w && HasBit(x, i) != HasBit(y, i)
  {
    if w > 0 {
      ByHalving(x, 0);
      ByHalving(y, 0);
      if x % 2 == y % 2 {
        ModHalves(x, w);
        ModHalves(y, w);
        LowBitDiffers(x / 2, y / 2, w - 1);
        var i :| 0 <= i < w - 1 && HasBit(x / 2, i) != HasBit(y / 2, i);
        ByHalving(x, i + 1);
        ByHalving(y, i + 1);
        ByHalving(x / 2, i);
        ByHalving(y / 2, i);
      }
    }
  }

  /** Bytes are equal exactly if all eight bits are. */
  lemma ByteByBits(a: u8, b: u8)
    ensures a == b <==> forall i | 0 <= i < 8 :: HasBit(a, i) == HasBit(b, i)
  {
    assert Pow2(8) == 256;
    LowBitsAgree(a, b, 8);
  }

  /** Byte strings are equal exactly if all their bits are. */
  lemma BytesByBits(x: Bytes, y: Bytes)
    requires |x| == |y|
    ensures x == y <==> forall i | 0 <= i < 8 * |x| :: BitAt(x, i) == BitAt(y, i)
  {
    if forall i | 0 <= i < 8 * |x| :: BitAt(x, i) == BitAt(y, i) {
      forall k | 0 <= k < |x| ensures x[k] == y[k] {
        forall j | 0 <= j < 8 ensures HasBit(x[k], j) == HasBit(y[k], j) {
          var i := 8 * (|x| - 1 - k) + j;
          assert BitAt(x, i) == BitAt(y, i);
        }
        ByteByBits(x[k], y[k]);
      }
    }
  }

  // ---- numbers as bytes --------------------------------------------------------------

  /** Bit i of byte j of a number, its least significant byte being byte 0. */
  lemma ByteBit(n: nat, j: nat, i: nat)
    requires i < 8
    ensures HasBit(Shifted(n, 8 * j) % 256, i) == HasBit(n, 8 * j + i)
  {
    assert Pow2(8) == 256;
    LowBit(Shifted(n, 8 * j), 8, i);
    RightBit(n, 8 * j, i);
  }

  lemma HalfBit(n: u16, i: nat)
    requires i < 16
    ensures BitAt(Half16(n), i) == HasBit(n, i)
  {
    assert Pow2(0) == 1 && Pow2(8) == 0x100;
    assert Shifted(n, 0) == n && Shifted(n, 8) == n / 0x100;
    ByteBit(n, i / 8, i % 8);
    assert i / 8 == 0 || i / 8 == 1;
  }

  lemma WordBit(n: u32, i: nat)
    requires i < 32
    ensures BitAt(Word32(n), i) == HasBit(n, i)
  {
    var b := Word32(n);
    assert Pow2(0) == 1 && Pow2(8) == 0x100 && Pow2(16) == 0x1_0000 && Pow2(24) == 0x100_0000;
    assert Shifted(n, 0) == n && Shifted(n, 8) == n / 0x100;
    assert Shifted(n, 16) == n / 0x1_0000 && Shifted(n, 24) == n / 0x100_0000;
    WordBytes(n);
    ByteBit(n, i / 8, i % 8);
    assert i / 8 == 0 || i / 8 == 1 || i / 8 == 2 || i / 8 == 3;
  }

  lemma WordBytes(n: u32)
    ensures var b := Word32(n);
            && b[3] as int == n % 0x100 && b[2] as int == n / 0x100 % 0x100
            && b[1] as int == n / 0x1_0000 % 0x100 && b[0] as int == n / 0x100_0000 % 0x100
  {}

  /** The bits of two byte strings behind each other. */
  lemma JoinedBit(a: Bytes, b: Bytes, i: nat)
    requires i < 8 * (|a| + |b|)
    ensures BitAt(a + b, i) == if i < 8 * |b| then BitAt(b, i) else BitAt(a, i - 8 * |b|)
  {
    var j := |a| + |b| - 1 - i / 8;
    if i < 8 * |b| {
      assert (a + b)[j] == b[j - |a|];
    } else {
      assert (i - 8 * |b|) / 8 == i / 8 - |b| && (i - 8 * |b|) % 8 == i % 8;
      assert (a + b)[j] == a[j];
    }
  }

  /** A bit of a slice. */
  lemma SliceBit(x: Bytes, a: nat, b: nat, i: nat)
    requires a <= b <= |x| && i < 8 * (b - a)
    ensures BitAt(x[a..b], i) == BitAt(x, 8 * (|x| - b) + i)
  {}
}
