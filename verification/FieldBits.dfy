/**
 The varying fields of packet n, bit by bit in the frame itself: which bits are the configured
 ones, which count with n, and which are scrambled.
 */
module FieldBits {
  import opened Basics
  import opened Bits
  import opened Config
  import opened HashKeys
  import opened Modifiers
  import opened Frames

  // ---- one xorshift round over 32 bits, x ^= x << 13, x ^= x >> 17, x ^= x << 5 ----------------------

  predicate Mixed13(x: nat, i: nat) { HasBit(x, i) != (i >= 13 && HasBit(x, i - 13)) }
  predicate Mixed17(x: nat, i: nat) { Mixed13(x, i) != (i + 17 < 32 && Mixed13(x, i + 17)) }
  predicate Mixed(x: nat, i: nat) { Mixed17(x, i) != (i >= 5 && Mixed17(x, i - 5)) }

  lemma {:induction false} PowAdd(a: nat, b: nat)
    ensures Pow2(a + b) == Pow2(a) * Pow2(b)
  {
    if a > 0 { PowAdd(a - 1, b); }
  }

  lemma Pow32()
    ensures Pow2(32) == M32
  {
    assert Pow2(8) == 0x100;
    PowAdd(8, 8);
    PowAdd(16, 16);
  }

  /** x ^ (x << k) in 32-bit arithmetic. */
  lemma LeftRound(x: u32, k: nat, p: nat, i: nat)
    requires p == Pow2(k) && i < 32
    ensures HasBit(Xor(x, x * p % M32) % M32, i) == (HasBit(x, i) != (i >= k && HasBit(x, i - k)))
  {
    Pow32();
    LeftBit(x, k, i);
    LowBit(x * p, 32, i);
    XorBit(x, x * p % M32, i);
    LowBit(Xor(x, x * p % M32), 32, i);
  }

  /** x ^ (x >> k). */
  lemma RightRound(x: u32, k: nat, p: nat, i: nat)
    requires p == Pow2(k) && i < 32
    ensures HasBit(Xor(x, Shifted(x, k)) % M32, i) == (HasBit(x, i) != (i + k < 32 && HasBit(x, i + k)))
  {
    Pow32();
    RightBit(x, k, i);
    NoHighBit(x, i + k);
    XorBit(x, Shifted(x, k), i);
    LowBit(Xor(x, Shifted(x, k)), 32, i);
  }

  lemma NoHighBit(x: u32, i: nat)
    ensures i >= 32 ==> !HasBit(x, i)
  {
    Pow32();
    LowBit(x, 32, i);
  }

  lemma ScrambleBit(x: u32, i: nat)
    requires i < 32
    ensures HasBit(Scramble(x), i) == Mixed(x, i)
  {
    assert Pow2(13) == 0x2000 && Pow2(17) == 0x2_0000 && Pow2(5) == 0x20;
    var a := Xor(x, x * 0x2000 % M32) % M32;
    var b := Xor(a, a / 0x2_0000) % M32;
    assert Shifted(a, 17) == a / 0x2_0000;
    forall j: nat | j < 32 ensures HasBit(a, j) == Mixed13(x, j) { LeftRound(x, 13, 0x2000, j); }
    forall j: nat | j < 32 ensures HasBit(b, j) == Mixed17(x, j) { RightRound(a, 17, 0x2_0000, j); }
    LeftRound(b, 5, 0x20, i);
  }

  // ---- what a masked bit carries -------------------------------------------------------------------

  /** The kinds of field: 16 bits, 32, 48, and 128 as four lanes with a salt. */
  datatype Width = W16 | W32 | W48 | W128(salt: u32)

  /** The salt of a lane of a 128-bit field. */
  function LaneSalt(l: nat): nat {
    if l == 0 then 0 else if l == 1 then 0x9E37_79B1 else if l == 2 then 0x85EB_CA77 else 0xC2B2_AE3D
  }

  /**
   Bit i of what varies: the counter, or in mode 2 the counter scrambled. A 16-bit field takes the
   scrambled counter from its fourth bit on, a MAC address has the 32-bit counter in its low bits,
   and each lane of an IPv6 address counts from an offset of its own.
   */
  predicate Wanted(w: Width, mode: u8, n: u32, i: nat) {
    match w
    case W16 => if mode == 2 then Mixed(n, i + 3) else HasBit(n, i)
    case W32 => if mode == 2 then Mixed(n, i) else HasBit(n, i)
    case W48 => i < 32 && if mode == 2 then Mixed(n, i) else HasBit(n, i)
    case W128(salt) =>
      if mode == 2 then Mixed(Xor(Xor(n, salt), LaneSalt(i / 32)), i % 32)
      else HasBit((n + i / 32 * 0x1000_0000) % 0x1_0000_0000, i % 32)
  }

  /** The field carries the configured bits outside the mask, and the varying ones inside it. */
  predicate Varies(x: Bytes, w: Width, mode: u8, base: Bytes, mask: Bytes, n: u32) {
    && |x| == |base| <= |mask|
    && forall i: nat | i < 8 * |x| ::
         BitAt(x, i) == if mode != 0 && BitAt(mask, i) then Wanted(w, mode, n, i) else BitAt(base, i)
  }

  // ---- the rotating values -------------------------------------------------------------------------

  lemma Rot16Bit(mode: u8, n: u32, i: nat)
    requires i < 16
    ensures BitAt(Rot16(mode, n), i) == Wanted(W16, mode, n, i)
  {
    assert Pow2(16) == 0x1_0000 && Pow2(3) == 8;
    if mode == 2 {
      var s := Scramble(n);
      assert Shifted(s, 3) == s / 8;
      HalfBit(s / 8 % 0x1_0000, i);
      LowBit(s / 8, 16, i);
      RightBit(s, 3, i);
      ScrambleBit(n, i + 3);
    } else {
      HalfBit(n % 0x1_0000, i);
      LowBit(n, 16, i);
    }
  }

  lemma Rot32Bit(mode: u8, n: u32, i: nat)
    requires i < 32
    ensures BitAt(Rot32(mode, n), i) == Wanted(W32, mode, n, i)
  {
    WordBit(if mode == 2 then Scramble(n) else n, i);
    ScrambleBit(n, i);
  }

  lemma Rot48Bit(mode: u8, n: u32, i: nat)
    requires i < 48
    ensures BitAt(Rot48(mode, n), i) == Wanted(W48, mode, n, i)
  {
    ScrambleZero();
    JoinedBit([0, 0], Rot32(mode, n), i);
    if i < 32 { Rot32Bit(mode, n, i); } else { ZeroByte(i - 32); }
  }

  lemma ScrambleZero()
    ensures Scramble(0) == 0
  {}

  lemma ZeroByte(i: nat)
    requires i < 16
    ensures !BitAt([0, 0], i)
  {
    ByHalving(0, i % 8);
    BitOfZero(i % 8);
  }

  lemma LaneBit(mode: u8, n: u32, salt: u32, l: nat, i: nat)
    requires l < 4 && i < 32
    ensures BitAt(RotLane(mode, n, salt, l), i) == Wanted(W128(salt), mode, n, 32 * l + i)
  {
    assert (32 * l + i) / 32 == l && (32 * l + i) % 32 == i;
    var x := Xor(Xor(n, salt), LANE_SALT[l]);
    if mode == 2 {
      assert LANE_SALT[l] == LaneSalt(l);
      WordBit(Scramble(x % M32), i);
      ScrambleBit(x % M32, i);
      MixedLow(x, i);
    } else {
      assert LANE_OFFSET[l] == l * 0x1000_0000;
      WordBit((n + LANE_OFFSET[l]) % M32, i);
    }
  }

  /** Only the low 32 bits are mixed. */
  lemma MixedLow(x: nat, i: nat)
    requires i < 32
    ensures Mixed(x % M32, i) == Mixed(x, i)
  {
    Pow32();
    forall j: nat | j < 32 ensures HasBit(x % M32, j) == HasBit(x, j) { LowBit(x, 32, j); }
  }

  lemma Rot128Bit(mode: u8, n: u32, salt: u32, i: nat)
    requires i < 128
    ensures BitAt(Rot128(mode, n, salt), i) == Wanted(W128(salt), mode, n, i)
  {
    var l, j := i / 32, i % 32;
    JoinedLanes(RotLane(mode, n, salt, 3), RotLane(mode, n, salt, 2), RotLane(mode, n, salt, 1),
                RotLane(mode, n, salt, 0), i);
    LaneBit(mode, n, salt, l, j);
    assert 32 * l + j == i;
  }

  /** Bit i of four words behind each other is bit i % 32 of one of them. */
  lemma JoinedLanes(x3: Word, x2: Word, x1: Word, x0: Word, i: nat)
    requires i < 128
    ensures var x := if i / 32 == 0 then x0 else if i / 32 == 1 then x1 else if i / 32 == 2 then x2 else x3;
            BitAt(x3 + x2 + x1 + x0, i) == BitAt(x, i % 32)
  {
    JoinedBit(x3 + x2 + x1, x0, i);
    if i >= 32 {
      assert (i - 32) / 32 == i / 32 - 1 && (i - 32) % 32 == i % 32;
      HighLanes(x3, x2, x1, i - 32);
    }
  }

  lemma HighLanes(x3: Word, x2: Word, x1: Word, i: nat)
    requires i < 96
    ensures var x := if i / 32 == 0 then x1 else if i / 32 == 1 then x2 else x3;
            BitAt(x3 + x2 + x1, i) == BitAt(x, i % 32)
  {
    JoinedBit(x3 + x2, x1, i);
    if i >= 32 {
      assert (i - 32) / 32 == i / 32 - 1 && (i - 32) % 32 == i % 32;
      JoinedBit(x3, x2, i - 32);
    }
  }

  // ---- fields ----------------------------------------------------------------------------------------

  predicate Rotates(rot: Bytes, w: Width, mode: u8, n: u32) {
    forall i: nat | i < 8 * |rot| :: BitAt(rot, i) == Wanted(w, mode, n, i)
  }

  lemma ModifiedVaries(w: Width, mode: u8, base: Bytes, mask: Bytes, long: Bytes, rot: Bytes, n: u32)
    requires |base| == |mask| == |rot| <= |long| && mask == long[|long| - |mask|..] && Rotates(rot, w, mode, n)
    ensures Varies(Modified(mode, base, mask, rot), w, mode, base, long, n)
  {
    var x := Modified(mode, base, mask, rot);
    forall i: nat | i < 8 * |x|
      ensures BitAt(x, i) == if mode != 0 && BitAt(long, i) then Wanted(w, mode, n, i) else BitAt(base, i)
    {
      var k := |x| - 1 - i / 8;
      SliceBit(long, |long| - |mask|, |long|, i);
      assert BitAt(rot, i) == Wanted(w, mode, n, i);
      if mode != 0 { SelectBit(base[k], mask[k], rot[k], i % 8); }
    }
  }

  lemma MacVaries(m: FieldMod, base: Mac, n: u32)
    ensures Varies(Modified(m.mode, base, Low48(m.mask), Rot48(m.mode, n)), W48, m.mode, base, m.mask, n)
  {
    var rot := Rot48(m.mode, n);
    forall i: nat | i < 8 * |rot| ensures BitAt(rot, i) == Wanted(W48, m.mode, n, i) { Rot48Bit(m.mode, n, i); }
    ModifiedVaries(W48, m.mode, base, Low48(m.mask), m.mask, rot, n);
  }

  lemma PortVaries(m: FieldMod, base: Half, n: u32)
    ensures Varies(Modified(m.mode, base, Low16(m.mask), Rot16(m.mode, n)), W16, m.mode, base, m.mask, n)
  {
    var rot := Rot16(m.mode, n);
    forall i: nat | i < 8 * |rot| ensures BitAt(rot, i) == Wanted(W16, m.mode, n, i) { Rot16Bit(m.mode, n, i); }
    ModifiedVaries(W16, m.mode, base, Low16(m.mask), m.mask, rot, n);
  }

  lemma Ip4Varies(m: FieldMod, base: Word, n: u32)
    ensures Varies(Modified(m.mode, base, Low32(m.mask), Rot32(m.mode, n)), W32, m.mode, base, m.mask, n)
  {
    var rot := Rot32(m.mode, n);
    forall i: nat | i < 8 * |rot| ensures BitAt(rot, i) == Wanted(W32, m.mode, n, i) { Rot32Bit(m.mode, n, i); }
    ModifiedVaries(W32, m.mode, base, Low32(m.mask), m.mask, rot, n);
  }

  lemma Ip6Varies(mode: u8, base: Addr6, mask: Addr6, n: u32, salt: u32)
    ensures Varies(Modified(mode, base, mask, Rot128(mode, n, salt)), W128(salt), mode, base, mask, n)
  {
    var rot := Rot128(mode, n, salt);
    forall i: nat | i < 8 * |rot| ensures BitAt(rot, i) == Wanted(W128(salt), mode, n, i) {
      Rot128Bit(mode, n, salt, i);
    }
    ModifiedVaries(W128(salt), mode, base, mask, mask, rot, n);
  }

  // ---- in the frame ----------------------------------------------------------------------------------

  /** The 802.1Q tag: the priority in the top three bits, a clear bit, and the 12-bit id, which varies. */
  predicate TagVaries(t: Bytes, l2: L2, m: FieldMod, n: u32) {
    && |t| == 2 && !BitAt(t, 12)
    && (forall j: nat | j < 3 :: BitAt(t, 13 + j) == HasBit(l2.pcp, j))
    && (forall i: nat | i < 12 ::
          BitAt(t, i) == if m.mode != 0 && BitAt(m.mask, i) then Wanted(W16, m.mode, n, i) else BitAt(l2.vlan, i))
  }

  /** MAC addresses and tag at the front of a frame. */
  predicate HeadVaries(b: Bytes, f: Flow, n: u32) {
    && |b| >= 12 + (if f.l2.vlanSet then 4 else 0)
    && Varies(b[0..6], W48, f.mods.dstMac.mode, f.l2.dstMac, f.mods.dstMac.mask, n)
    && Varies(b[6..12], W48, f.mods.srcMac.mode, f.l2.srcMac, f.mods.srcMac.mask, n)
    && (f.l2.vlanSet ==> b[12] == 0x81 && b[13] == 0x00 && TagVaries(b[14..16], f.l2, f.mods.vlan, n))
  }

  /** The addresses of the IP header at o. IPv6 addresses take their mode from the IPv4 modifiers. */
  predicate AddressesVary(b: Bytes, o: nat, f: Flow, n: u32) {
    match f.ip6
    case Some(x) =>
      && o + 40 <= |b|
      && Varies(b[o + 8..o + 24], W128(0), f.mods.srcIp.mode, x.src, f.mods.srcIp6Mask, n)
      && Varies(b[o + 24..o + 40], W128(0x5A5A_5A5A), f.mods.dstIp.mode, x.dst, f.mods.dstIp6Mask, n)
    case None =>
      && o + 20 <= |b|
      && Varies(b[o + 12..o + 16], W32, f.mods.srcIp.mode, f.ip4.src, f.mods.srcIp.mask, n)
      && Varies(b[o + 16..o + 20], W32, f.mods.dstIp.mode, f.ip4.dst, f.mods.dstIp.mask, n)
  }

  /** The ports of the transport header at o. */
  predicate PortsVary(b: Bytes, o: nat, f: Flow, n: u32) {
    && o + 4 <= |b|
    && Varies(b[o..o + 2], W16, f.mods.udpSrc.mode, f.l4.srcPort, f.mods.udpSrc.mask, n)
    && Varies(b[o + 2..o + 4], W16, f.mods.udpDst.mode, f.l4.dstPort, f.mods.udpDst.mask, n)
  }

  /** The low 12 bits of a VLAN id. */
  predicate IdVaries(v: Bytes, vlan: Half, m: FieldMod, n: u32) {
    && |v| == 2
    && forall i: nat | i < 12 ::
         BitAt(v, i) == if m.mode != 0 && BitAt(m.mask, i) then Wanted(W16, m.mode, n, i) else BitAt(vlan, i)
  }

  lemma TagIs(l2: L2, m: FieldMod, v: Half, n: u32)
    requires IdVaries(v, l2.vlan, m, n)
    ensures TagVaries(Tci(l2.pcp, [v[0] % 16, v[1]]), l2, m, n)
  {
    var t := Tci(l2.pcp, [v[0] % 16, v[1]]);
    assert t[0] as int == l2.pcp % 8 * 32 + v[0] % 16;
    TagTop(l2.pcp, v[0] % 16);
    forall j: nat | j < 3 ensures BitAt(t, 13 + j) == HasBit(l2.pcp, j) { assert (13 + j) / 8 == 1; }
    forall i: nat | i < 12 ensures BitAt(t, i) == BitAt(v, i) { TagLow(l2.pcp, v, i); }
  }

  lemma IdIs(vlan: Half, m: FieldMod, n: u32)
    ensures IdVaries(Modified(m.mode, [vlan[0] % 16, vlan[1]], [m.mask[6] % 16, m.mask[7]], Rot16(m.mode, n)),
                     vlan, m, n)
  {
    var v := Modified(m.mode, [vlan[0] % 16, vlan[1]], [m.mask[6] % 16, m.mask[7]], Rot16(m.mode, n));
    forall i: nat | i < 12
      ensures BitAt(v, i) == if m.mode != 0 && BitAt(m.mask, i) then Wanted(W16, m.mode, n, i) else BitAt(vlan, i)
    {
      IdBit(vlan, m, v, n, i);
    }
  }

  /** Priority and the clear bit. */
  lemma TagTop(pcp: u8, id: nat)
    requires id < 16
    ensures var x := pcp % 8 * 32 + id;
            !HasBit(x, 4) && forall j: nat | j < 3 :: HasBit(x, 5 + j) == HasBit(pcp, j)
  {
    var x := pcp % 8 * 32 + id;
    assert Pow2(3) == 8 && Pow2(4) == 16 && Pow2(5) == 32;
    assert x / 16 % 2 == 0;
    assert Shifted(x, 5) == pcp % 8;
    forall j: nat | j < 3 ensures HasBit(x, 5 + j) == HasBit(pcp, j) {
      RightBit(x, 5, j);
      LowBit(pcp, 3, j);
    }
  }

  lemma TagLow(pcp: u8, v: Half, i: nat)
    requires i < 12
    ensures BitAt(Tci(pcp, [v[0] % 16, v[1]]), i) == BitAt(v, i)
  {
    if i >= 8 {
      assert i / 8 == 1;
      var x := pcp % 8 * 32 + v[0] % 16 % 16;
      assert x % 16 == v[0] % 16;
      NibbleBit(x, i - 8);
      NibbleBit(v[0], i - 8);
    }
  }

  lemma IdBit(vlan: Half, m: FieldMod, v: Half, n: u32, i: nat)
    requires v == Modified(m.mode, [vlan[0] % 16, vlan[1]], [m.mask[6] % 16, m.mask[7]], Rot16(m.mode, n)) && i < 12
    ensures BitAt(v, i) == if m.mode != 0 && BitAt(m.mask, i) then Wanted(W16, m.mode, n, i) else BitAt(vlan, i)
  {
    var rot := Rot16(m.mode, n);
    Rot16Bit(m.mode, n, i);
    if i >= 8 {
      assert i / 8 == 1 && i % 8 == i - 8;
      NibbleBit(vlan[0], i - 8);
      NibbleBit(m.mask[6], i - 8);
      SelectBit(vlan[0] % 16, m.mask[6] % 16, rot[0], i - 8);
    } else {
      SelectBit(vlan[1], m.mask[7], rot[1], i);
    }
  }

  lemma NibbleBit(x: nat, i: nat)
    requires i < 4
    ensures HasBit(x % 16, i) == HasBit(x, i)
  {
    assert Pow2(4) == 16;
    LowBit(x, 4, i);
  }

  lemma MacsAre(e: Bytes, f: Flow, n: u32)
    requires e == EthHead(f, n)
    ensures e[0..6] == DstMac(f, n) && e[6..12] == SrcMac(f, n)
    ensures f.l2.vlanSet ==> e[12] == 0x81 && e[13] == 0x00 && e[14..16] == Tci(f.l2.pcp, VlanId(f, n))
  {}

  lemma TagOf(f: Flow, n: u32)
    ensures TagVaries(Tci(f.l2.pcp, VlanId(f, n)), f.l2, f.mods.vlan, n)
  {
    var m := f.mods.vlan;
    IdIs(f.l2.vlan, m, n);
    TagIs(f.l2, m,
          Modified(m.mode, [f.l2.vlan[0] % 16, f.l2.vlan[1]], [m.mask[6] % 16, m.mask[7]], Rot16(m.mode, n)), n);
  }

  /** The front of a frame that begins with the flow's Ethernet header. */
  lemma HeadIs(b: Bytes, f: Flow, n: u32)
    requires At(b, 0, EthHead(f, n))
    ensures HeadVaries(b, f, n)
  {
    var e := EthHead(f, n);
    MacsAre(e, f, n);
    HeadFrom(b, e, f, n);
  }

  lemma HeadFrom(b: Bytes, e: Bytes, f: Flow, n: u32)
    requires At(b, 0, e) && |e| == 12 + (if f.l2.vlanSet then 4 else 0)
    requires e[0..6] == DstMac(f, n) && e[6..12] == SrcMac(f, n)
    requires f.l2.vlanSet ==> e[12] == 0x81 && e[13] == 0x00 && e[14..16] == Tci(f.l2.pcp, VlanId(f, n))
    ensures HeadVaries(b, f, n)
  {
    AtSlice(b, 0, e, 0, 6);
    AtSlice(b, 0, e, 6, 12);
    MacVaries(f.mods.dstMac, f.l2.dstMac, n);
    MacVaries(f.mods.srcMac, f.l2.srcMac, n);
    if f.l2.vlanSet { TagFrom(b, e, f, n); }
  }

  lemma TagFrom(b: Bytes, e: Bytes, f: Flow, n: u32)
    requires At(b, 0, e) && |e| == 16
    requires e[12] == 0x81 && e[13] == 0x00 && e[14..16] == Tci(f.l2.pcp, VlanId(f, n))
    ensures b[12] == 0x81 && b[13] == 0x00 && TagVaries(b[14..16], f.l2, f.mods.vlan, n)
  {
    TagOf(f, n);
    AtSlice(b, 0, e, 14, 16);
    AtByte(b, 0, e, 12);
    AtByte(b, 0, e, 13);
  }

  lemma AddressesAre(b: Bytes, f: Flow, n: u32)
    requires !f.traffic.template.L2Raw? && At(b, Prefix(f), InnerIp(f, n))
    ensures AddressesVary(b, Prefix(f), f, n)
  {
    if f.ip6.Some? {
      InnerIp6Is(f, n);
      Addresses6From(b, Prefix(f), InnerIp(f, n), f, n);
    } else {
      InnerIp4Is(f, n);
      Addresses4From(b, Prefix(f), InnerIp(f, n), f, n);
    }
  }

  lemma Addresses6From(b: Bytes, o: nat, h: Bytes, f: Flow, n: u32)
    requires f.ip6.Some? && At(b, o, h) && |h| == 40 && h[8..24] == SrcIp6(f, n) && h[24..40] == DstIp6(f, n)
    ensures AddressesVary(b, o, f, n)
  {
    Ip6Varies(f.mods.srcIp.mode, f.ip6.value.src, f.mods.srcIp6Mask, n, 0);
    Ip6Varies(f.mods.dstIp.mode, f.ip6.value.dst, f.mods.dstIp6Mask, n, 0x5A5A_5A5A);
    AtSlice(b, o, h, 8, 24);
    AtSlice(b, o, h, 24, 40);
  }

  lemma Addresses4From(b: Bytes, o: nat, h: Bytes, f: Flow, n: u32)
    requires f.ip6.None? && At(b, o, h) && |h| == 20 && h[12..16] == SrcIp4(f, n) && h[16..20] == DstIp4(f, n)
    ensures AddressesVary(b, o, f, n)
  {
    Ip4Varies(f.mods.srcIp, f.ip4.src, n);
    Ip4Varies(f.mods.dstIp, f.ip4.dst, n);
    AtSlice(b, o, h, 12, 16);
    AtSlice(b, o, h, 16, 20);
  }

  /** The flow's ports at o. */
  predicate PortsIn(b: Bytes, o: nat, f: Flow, n: u32) {
    o + 4 <= |b| && b[o..o + 2] == SrcPort(f, n) && b[o + 2..o + 4] == DstPort(f, n)
  }

  /** The transport header begins with the flow's ports. */
  lemma PortsAt(b: Bytes, o: nat, f: Flow, n: u32)
    requires !f.traffic.template.L2Raw? && !f.traffic.template.L3Raw? && At(b, o, Segment(f, n))
    ensures PortsIn(b, o, f, n)
  {
    SegmentReady(f, n);
    L4HeaderFields(f, n);
    FrontOf(b, o, Segment(f, n), L4Header(f, n), L4Tail(f, n), CsumAt(f),
            PseudoSum(IpProto(f), IpPayloadLen(f), Addresses(f, n)));
  }

  lemma FrontOf(b: Bytes, o: nat, s: Bytes, h: Bytes, t: Bytes, c: nat, init: nat)
    requires IsSegment(s, h, t, c, init) && c >= 6 && |h| >= 8 && At(b, o, s)
    ensures o + 4 <= |b| && b[o..o + 2] == h[0..2] && b[o + 2..o + 4] == h[2..4]
  {
    AtSlice(b, o, s, 0, 2);
    AtSlice(b, o, s, 2, 4);
  }

  lemma PortsAre(b: Bytes, o: nat, f: Flow, n: u32)
    requires PortsIn(b, o, f, n)
    ensures PortsVary(b, o, f, n)
  {
    PortVaries(f.mods.udpSrc, f.l4.srcPort, n);
    PortVaries(f.mods.udpDst, f.l4.dstPort, n);
  }

  // Every varying field of packet n: each bit outside the modifier's mask is the configured one, and
  // each bit inside it is the counter's or the scrambled counter's.

  /** MAC addresses and tag of every frame on the wire, raw or not. */
  lemma HeadOnWire(b: Bytes, f: Flow, n: u32)
    requires b == Emitted(f, n)
    ensures HeadVaries(b, f, n)
  {
    if f.traffic.template.L2Raw? {
      RawHead(EthHead(f, n), RawEtherType(f), WireLen(f));
    } else {
      FramePieces(f, n);
    }
    HeadIs(b, f, n);
  }

  /** The addresses of the only or inner IP header. */
  lemma AddressesOnWire(b: Bytes, f: Flow, n: u32)
    requires !f.traffic.template.L2Raw? && b == Frame(f, n)
    ensures AddressesVary(b, Prefix(f), f, n)
  {
    FramePieces(f, n);
    AddressesAre(b, f, n);
  }

  /** The ports. */
  lemma PortsOnWire(b: Bytes, o: nat, f: Flow, n: u32)
    requires !f.traffic.template.L2Raw? && !f.traffic.template.L3Raw?
    requires b == Frame(f, n) && o == Prefix(f) + InnerIpLen(f)
    ensures PortsVary(b, o, f, n)
  {
    BodyAt(f, n);
    PortsBehind(b, o, f, n);
  }

  lemma PortsBehind(b: Bytes, o: nat, f: Flow, n: u32)
    requires !f.traffic.template.L2Raw? && !f.traffic.template.L3Raw? && At(b, o, Body(f, n))
    ensures PortsVary(b, o, f, n)
  {
    PortsAt(b, o, f, n);
    PortsAre(b, o, f, n);
  }

  lemma RawHead(e: Bytes, t: Bytes, len: nat)
    requires |e| <= len
    ensures At((e + t + Zeros(len))[..len], 0, e)
  {
    assert (e + t + Zeros(len))[..len][..|e|] == e;
  }

  // ---- which packets look alike ------------------------------------------------------------------------

  /** The packets agree in every masked bit that varies. */
  predicate AgreeUnder(mask: Bytes, bits: nat, w: Width, mode: u8, n: u32, m: u32)
    requires bits <= 8 * |mask|
  {
    forall i: nat | i < bits && BitAt(mask, i) :: Wanted(w, mode, n, i) == Wanted(w, mode, m, i)
  }

  /** Two packets of a flow carry the same value in a field exactly if they agree under its mask. */
  lemma SameIffAgree(x: Bytes, y: Bytes, w: Width, mode: u8, base: Bytes, mask: Bytes, n: u32, m: u32)
    requires Varies(x, w, mode, base, mask, n) && Varies(y, w, mode, base, mask, m)
    ensures x == y <==> mode == 0 || AgreeUnder(mask, 8 * |x|, w, mode, n, m)
  {
    BytesByBits(x, y);
    if x == y && mode != 0 {
      forall i: nat | i < 8 * |x| && BitAt(mask, i) ensures Wanted(w, mode, n, i) == Wanted(w, mode, m, i) {
        assert BitAt(x, i) == BitAt(y, i);
      }
    }
  }

  /** A port or IPv4 address that counts in its low k bits repeats after exactly 2^k packets. */
  lemma SweepPeriod(x: Bytes, y: Bytes, w: Width, mode: u8, base: Bytes, mask: Bytes, n: u32, m: u32, k: nat)
    requires Varies(x, w, mode, base, mask, n) && Varies(y, w, mode, base, mask, m)
    requires (w.W16? || w.W32?) && mode != 0 && mode != 2
    requires k <= 8 * |x| && forall i: nat | i < 8 * |x| :: BitAt(mask, i) <==> i < k
    ensures x == y <==> n % Pow2(k) == m % Pow2(k)
  {
    SameIffAgree(x, y, w, mode, base, mask, n, m);
    LowBitsAgree(n, m, k);
    if AgreeUnder(mask, 8 * |x|, w, mode, n, m) {
      forall i | 0 <= i < k ensures HasBit(n, i) == HasBit(m, i) {
        assert BitAt(mask, i);
        assert Wanted(w, mode, n, i) == Wanted(w, mode, m, i);
      }
    }
  }
}
