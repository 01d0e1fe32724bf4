/** Per-packet field modifiers (frame_preview.c): how sequence number `seq` varies a flow's header fields. */
module Modifiers {
  import opened Basics
  import opened Config
  import opened Classifier
  import opened HashKeys

  const M32 := 0x1_0000_0000

  /** pv_scramble: one xorshift round in 32-bit arithmetic. */
  function Scramble(x: u32): u32 {
    var a := Xor(x, x * 0x2000 % M32) % M32;
    var b := Xor(a, a / 0x2_0000) % M32;
    Xor(b, b * 0x20 % M32) % M32
  }

  function SelectByteOf(base: u8, mask: u8, rot: u8): u8 {
    assert Pow2(8) == 256;
    SelectByte(base, mask, rot, 8);
    Select(base, mask, rot)
  }

  /** The modified field: masked bits from rot, the others from base; mode 0 leaves it alone. */
  function Modified(mode: u8, base: Bytes, mask: Bytes, rot: Bytes): (r: Bytes)
    requires |base| == |mask| == |rot|
    ensures |r| == |base|
    ensures forall i | 0 <= i < |base| :: r[i] == if mode == 0 then base[i] else Select(base[i], mask[i], rot[i])
  {
    if mode == 0 then base else seq(|base|, i requires 0 <= i < |base| => SelectByteOf(base[i], mask[i], rot[i]))
  }

  function Rot16(mode: u8, n: u32): Half { Half16(if mode == 2 then Scramble(n) / 8 % 0x1_0000 else n % 0x1_0000) }
  function Rot32(mode: u8, n: u32): Word { Word32(if mode == 2 then Scramble(n) else n) }
  /** Bits 47..32 come from the high half of the 64-bit counter, which is 0 here. */
  function Rot48(mode: u8, n: u32): Mac {
    (if mode == 2 then Half16(Scramble(0) % 0x1_0000) else [0, 0]) + Rot32(mode, n)
  }

  const LANE_SALT: seq<u32> := [0, 0x9E37_79B1, 0x85EB_CA77, 0xC2B2_AE3D]
  const LANE_OFFSET: seq<u32> := [0, 0x1000_0000, 0x2000_0000, 0x3000_0000]

  /** Lane l of a 128-bit field, lane 0 being the low 32 bits. */
  function RotLane(mode: u8, n: u32, salt: u32, l: nat): Word
    requires l < 4
  {
    Word32(if mode == 2 then Scramble(Xor(Xor(n, salt), LANE_SALT[l]) % M32) else (n + LANE_OFFSET[l]) % M32)
  }

  function Rot128(mode: u8, n: u32, salt: u32): Addr6 {
    RotLane(mode, n, salt, 3) + RotLane(mode, n, salt, 2) + RotLane(mode, n, salt, 1) + RotLane(mode, n, salt, 0)
  }

  /** pv_mod128: four independent 32-bit lanes. */
  method Mod128(mode: u8, base: Addr6, mask: Addr6, n: u32, salt: u32) returns (out: Addr6)
    ensures out == Modified(mode, base, mask, Rot128(mode, n, salt))
  {
    out := base;
    var rot := Rot128(mode, n, salt);
    for l := 0 to 4
      invariant out == base[..16 - 4 * l] + Modified(mode, base, mask, rot)[16 - 4 * l..]
    {
      var p := (3 - l) * 4;
      var e := Modified(mode, base[p..p + 4], mask[p..p + 4], RotLane(mode, n, salt, l));
      LaneAt(mode, n, salt, l);
      LaneOf(mode, base, mask, rot, p);
      ghost var was := out;
      out := out[..p] + e + out[p + 4..];
      LaneStored(base, Modified(mode, base, mask, rot), was, p, e);
    }
  }

  lemma LaneStored(base: Bytes, m: Bytes, was: Bytes, p: nat, e: Bytes)
    requires |base| == |m| == 16 && p + 4 <= 16 && was == base[..p + 4] + m[p + 4..] && e == m[p..p + 4]
    ensures was[..p] + e + was[p + 4..] == base[..p] + m[p..]
  {}

  /** Modifying a lane by itself is modifying the whole field. */
  lemma LaneOf(mode: u8, base: Bytes, mask: Bytes, rot: Bytes, p: nat)
    requires |base| == |mask| == |rot| && p + 4 <= |base|
    ensures Modified(mode, base[p..p + 4], mask[p..p + 4], rot[p..p + 4]) == Modified(mode, base, mask, rot)[p..p + 4]
  {}

  lemma LaneAt(mode: u8, n: u32, salt: u32, l: nat)
    requires l < 4
    ensures Rot128(mode, n, salt)[(3 - l) * 4..(3 - l) * 4 + 4] == RotLane(mode, n, salt, l)
  {}

  /** A key mask that avoids the modifier's bits cannot see the modification. */
  lemma ModKeeps(mode: u8, base: Bytes, mask: Bytes, rot: Bytes, keep: Bytes)
    requires |base| == |mask| == |rot| == |keep| && (mode != 0 ==> Disjoint(keep, mask))
    ensures AndAll(Modified(mode, base, mask, rot), keep) == AndAll(base, keep)
  {
    forall i | 0 <= i < |base| ensures And(Modified(mode, base, mask, rot)[i], keep[i]) == And(base[i], keep[i]) {
      if mode != 0 { SelectKeeps(base[i], mask[i], rot[i], keep[i]); }
    }
  }

  // ---- the effective fields of packet n of a flow ----------------------------------------------------

  const SALT_SRC: u32 := 0
  const SALT_DST: u32 := 0x5A5A_5A5A

  function Low48(m: Mask64): Mac { m[2..8] }

  function DstMac(f: Flow, n: u32): Mac {
    var m := f.mods.dstMac;
    Modified(m.mode, f.l2.dstMac, Low48(m.mask), Rot48(m.mode, n))
  }

  function SrcMac(f: Flow, n: u32): Mac {
    var m := f.mods.srcMac;
    Modified(m.mode, f.l2.srcMac, Low48(m.mask), Rot48(m.mode, n))
  }

  /** The 12-bit VLAN id. */
  function VlanId(f: Flow, n: u32): Half {
    var m := f.mods.vlan;
    var v := Modified(m.mode, [f.l2.vlan[0] % 16, f.l2.vlan[1]], [m.mask[6] % 16, m.mask[7]], Rot16(m.mode, n));
    [v[0] % 16, v[1]]
  }

  function SrcPort(f: Flow, n: u32): Half {
    var m := f.mods.udpSrc;
    Modified(m.mode, f.l4.srcPort, Low16(m.mask), Rot16(m.mode, n))
  }

  function DstPort(f: Flow, n: u32): Half {
    var m := f.mods.udpDst;
    Modified(m.mode, f.l4.dstPort, Low16(m.mask), Rot16(m.mode, n))
  }

  function SrcIp4(f: Flow, n: u32): Word {
    var m := f.mods.srcIp;
    Modified(m.mode, f.ip4.src, Low32(m.mask), Rot32(m.mode, n))
  }

  function DstIp4(f: Flow, n: u32): Word {
    var m := f.mods.dstIp;
    Modified(m.mode, f.ip4.dst, Low32(m.mask), Rot32(m.mode, n))
  }

  /** The IPv6 fields share the mode of the IPv4 slots and have their own 128-bit masks. */
  function SrcIp6(f: Flow, n: u32): Addr6 {
    var m := f.mods.srcIp;
    Modified(m.mode, Src6(f), f.mods.srcIp6Mask, Rot128(m.mode, n, SALT_SRC))
  }

  function DstIp6(f: Flow, n: u32): Addr6 {
    var m := f.mods.dstIp;
    Modified(m.mode, Dst6(f), f.mods.dstIp6Mask, Rot128(m.mode, n, SALT_DST))
  }
}
