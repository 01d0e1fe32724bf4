/**
 Why per-packet modifiers never break classification: the key of every generated frame, under
 the card's key mask, is the key the flow is stored under.
 */
module FlowMatching {
  import opened Basics
  import opened Config
  import opened Classifier
  import opened CardBuilder
  import opened RuleSources
  import opened FlowRows
  import opened HashKeys
  import opened ModifierParse
  import opened FlowSlots
  import opened FlowCompiler
  import opened Registers
  import opened TableWrites
  import opened CardMeaning
  import opened EndToEnd
  import opened Modifiers
  import opened Frames
  import opened Parser
  import opened FrameKeys
  import Validate

  // ---- bits the mask always keeps -----------------------------------------------------------------------

  /** The ethertype half of word 9 and the protocol word are compared in full. */
  predicate KeepsType(mask: KeyWords) { mask[9][2] == 0xFF && mask[9][3] == 0xFF && mask[10] == FULL_WORD }

  predicate Gentle(e: Edit) { e.i != 10 && (e.i == 9 ==> e.Drop? && e.bits[2] == 0 && e.bits[3] == 0) }

  lemma StatementIsGentle(f: Flow, i: nat, e: Edit)
    requires e in Statement(f, i)
    ensures Gentle(e)
  {}

  lemma {:induction false} EditsAreGentle(f: Flow, n: nat, e: Edit)
    requires e in EditsUpTo(f, n)
    ensures Gentle(e)
  {
    if e in Statement(f, n - 1) { StatementIsGentle(f, n - 1, e); } else { EditsAreGentle(f, n - 1, e); }
  }

  lemma {:induction false} GentleKeeps(mask: KeyWords, es: seq<Edit>)
    requires KeepsType(mask) && forall e | e in es :: Gentle(e)
    ensures KeepsType(ApplyAll(mask, es))
    decreases |es|
  {
    if es != [] {
      assert Gentle(es[0]);
      assert AndNot(0xFF, 0) == 0xFF;
      GentleKeeps(Apply(mask, es[0]), es[1..]);
    }
  }

  lemma {:induction false} MaskKeepsType(cfg: Config, id: u16, n: nat)
    requires n <= |cfg.flows|
    ensures KeepsType(MaskFor(cfg, id, n))
  {
    if n > 0 {
      MaskKeepsType(cfg, id, n - 1);
      var f := cfg.flows[n - 1];
      forall e | e in Edits(f) ensures Gentle(e) { EditsAreGentle(f, STATEMENTS, e); }
      GentleKeeps(MaskFor(cfg, id, n - 1), Edits(f));
    }
  }

  // ---- bits the mask avoids -------------------------------------------------------------------------------

  lemma Avoided(mask: KeyWords, f: Flow, i: nat, e: Edit)
    requires Avoids(mask, f) && i < STATEMENTS && e in Statement(f, i) && e.Drop?
    ensures Disjoint(mask[e.i], e.bits)
  {
    StatementInEdits(f, i, STATEMENTS, e);
    assert Clear(mask, e.i, e.bits);
  }

  /** Mask words base..base+3 avoid the four words of a 128-bit modifier mask. */
  predicate AddrAvoided(mask: KeyWords, base: nat, m: Addr6)
    requires base + 4 <= KEY_WORDS
  {
    && Disjoint(mask[base], AddrWord(m, 3)) && Disjoint(mask[base + 1], AddrWord(m, 2))
    && Disjoint(mask[base + 2], AddrWord(m, 1)) && Disjoint(mask[base + 3], AddrWord(m, 0))
  }

  lemma DstAvoided(mask: KeyWords, f: Flow)
    requires Avoids(mask, f) && f.ip6.Some? && f.mods.dstIp.mode != 0 && LowMaskShared(f)
    ensures AddrAvoided(mask, 0, f.mods.dstIp6Mask)
  {
    var m := f.mods.dstIp6Mask;
    Avoided(mask, f, 0, Drop(0, Low32(f.mods.dstIp.mask)));
    var high := Statement(f, 3);
    assert high == [Drop(1, AddrWord(m, 2)), Drop(2, AddrWord(m, 1)), Drop(3, AddrWord(m, 0))];
    Avoided(mask, f, 3, high[0]);
    Avoided(mask, f, 3, high[1]);
    Avoided(mask, f, 3, high[2]);
  }

  lemma SrcAvoided(mask: KeyWords, f: Flow)
    requires Avoids(mask, f) && f.ip6.Some? && f.mods.srcIp.mode != 0 && LowMaskShared(f)
    ensures AddrAvoided(mask, 4, f.mods.srcIp6Mask)
  {
    var m := f.mods.srcIp6Mask;
    Avoided(mask, f, 2, Drop(4, Low32(f.mods.srcIp.mask)));
    var high := Statement(f, 4);
    assert high == [Drop(5, AddrWord(m, 2)), Drop(6, AddrWord(m, 1)), Drop(7, AddrWord(m, 0))];
    Avoided(mask, f, 4, high[0]);
    Avoided(mask, f, 4, high[1]);
    Avoided(mask, f, 4, high[2]);
  }

  /** One 32-bit word of a modified address, under its mask word. */
  lemma AddrWordKept(mode: u8, base: Addr6, m: Addr6, rot: Addr6, w: nat, keep: Word)
    requires w < 4 && (mode != 0 ==> Disjoint(keep, AddrWord(m, w)))
    ensures AndAll(AddrWord(Modified(mode, base, m, rot), w), keep) == AndAll(AddrWord(base, w), keep)
  {
    ModKeeps(mode, AddrWord(base, w), AddrWord(m, w), AddrWord(rot, w), keep);
    assert AddrWord(Modified(mode, base, m, rot), w)
             == Modified(mode, AddrWord(base, w), AddrWord(m, w), AddrWord(rot, w));
  }

  lemma Addr6Agrees(mode: u8, a4: Word, b4: Word, a: Addr6, m: Addr6, r: Addr6, mask: KeyWords, base: nat, w: nat)
    requires base + 4 <= KEY_WORDS && w < 4 && (mode != 0 ==> AddrAvoided(mask, base, m))
    ensures AndAll(AddrKey(true, a4, Modified(mode, a, m, r))[w], mask[base + w])
              == AndAll(AddrKey(true, b4, a)[w], mask[base + w])
  {
    if w == 0 { AddrWordKept(mode, a, m, r, 3, mask[base]); }
    else if w == 1 { AddrWordKept(mode, a, m, r, 2, mask[base + 1]); }
    else if w == 2 { AddrWordKept(mode, a, m, r, 1, mask[base + 2]); }
    else { AddrWordKept(mode, a, m, r, 0, mask[base + 3]); }
  }

  lemma Addr4Agrees(mode: u8, a: Word, m: Word, r: Word, a6: Addr6, b6: Addr6, mask: KeyWords, base: nat, w: nat)
    requires base + 4 <= KEY_WORDS && w < 4 && (mode != 0 ==> Disjoint(mask[base], m))
    ensures AndAll(AddrKey(false, Modified(mode, a, m, r), a6)[w], mask[base + w])
              == AndAll(AddrKey(false, a, b6)[w], mask[base + w])
  {
    if w == 0 { ModKeeps(mode, a, m, r, mask[base]); }
  }

  lemma PortsAgree(f: Flow, n: u32, mask: KeyWords)
    requires Avoids(mask, f)
    ensures AndAll(SrcPort(f, n) + DstPort(f, n), mask[8]) == AndAll(f.l4.srcPort + f.l4.dstPort, mask[8])
  {
    var s, d, k := f.mods.udpSrc, f.mods.udpDst, mask[8];
    if s.mode != 0 {
      Avoided(mask, f, 9, Drop(8, Low16(s.mask) + [0, 0]));
      HalvesDisjoint(k, Low16(s.mask), [0, 0]);
    }
    if d.mode != 0 {
      Avoided(mask, f, 7, Drop(8, [0, 0] + Low16(d.mask)));
      HalvesDisjoint(k, [0, 0], Low16(d.mask));
    }
    ModKeeps(s.mode, f.l4.srcPort, Low16(s.mask), Rot16(s.mode, n), k[0..2]);
    ModKeeps(d.mode, f.l4.dstPort, Low16(d.mask), Rot16(d.mode, n), k[2..4]);
    AndHalves(SrcPort(f, n), DstPort(f, n), k);
    AndHalves(f.l4.srcPort, f.l4.dstPort, k);
  }

  lemma HalvesDisjoint(k: Word, a: Half, b: Half)
    requires Disjoint(k, a + b)
    ensures Disjoint(k[0..2], a) && Disjoint(k[2..4], b)
  {
    var m := a + b;
    assert And(k[0], m[0]) == 0 && And(k[1], m[1]) == 0 && And(k[2], m[2]) == 0 && And(k[3], m[3]) == 0;
  }

  lemma AndHalves(a: Half, b: Half, k: Word)
    ensures AndAll(a + b, k) == AndAll(a, k[0..2]) + AndAll(b, k[2..4])
  {}

  /** The modified VLAN id under the mask of word 9. */
  lemma VlanAgrees(f: Flow, n: u32, mask: KeyWords)
    requires Avoids(mask, f) && f.l2.vlanSet
    ensures AndAll(VlanId(f, n), mask[9][0..2]) == AndAll(VlanKey(f), mask[9][0..2])
  {
    var m, k := f.mods.vlan, mask[9];
    var base: Half, bits: Half := [f.l2.vlan[0] % 16, f.l2.vlan[1]], [m.mask[6] % 16, m.mask[7]];
    if m.mode != 0 {
      Avoided(mask, f, 10, Drop(9, VlanModWord(m.mask)));
      assert VlanModWord(m.mask) == bits + [0, 0];
      HalvesDisjoint(k, bits, [0, 0]);
    }
    ModKeeps(m.mode, base, bits, Rot16(m.mode, n), k[0..2]);
    TwelveBits(m.mode, base, bits, Rot16(m.mode, n));
  }

  /** Modifying twelve bits leaves twelve bits. */
  lemma TwelveBits(mode: u8, base: Half, bits: Half, rot: Half)
    requires base[0] < 16 && bits[0] < 16
    ensures var v := Modified(mode, base, bits, rot); [v[0] % 16, v[1]] == v
  {
    NibbleStays(base[0], bits[0], rot[0]);
  }

  lemma NibbleStays(base: u8, mask: u8, rot: u8)
    requires base < 16 && mask < 16
    ensures Select(base, mask, rot) < 16
  {
    assert Pow2(4) == 16;
    SelectByte(base, mask, rot, 4);
  }

  // ---- key words ------------------------------------------------------------------------------------------

  /** A key laid out as destination, source, ports, VLAN and type, protocol. */
  predicate LaidOut(k: KeyWords, dst: seq<Word>, src: seq<Word>, ports: Word, vlan: Half, et: Half, proto: u8) {
    && |dst| == 4 && |src| == 4
    && (forall w | 0 <= w < 4 :: k[w] == dst[w]) && (forall w | 4 <= w < 8 :: k[w] == src[w - 4])
    && k[8] == ports && k[9] == vlan + et && k[10] == [0, 0, 0, proto]
  }

  /** The address words of the key of packet n, and those the flow is stored under. */
  function FrameDst(f: Flow, n: u32): seq<Word> { AddrKey(f.ip6.Some?, L3Key(f, n).dst4, L3Key(f, n).dst6) }
  function FrameSrc(f: Flow, n: u32): seq<Word> { AddrKey(f.ip6.Some?, L3Key(f, n).src4, L3Key(f, n).src6) }
  function StoredDst(f: Flow): seq<Word> { AddrKey(f.ip6.Some?, f.ip4.dst, Dst6(f)) }
  function StoredSrc(f: Flow): seq<Word> { AddrKey(f.ip6.Some?, f.ip4.src, Src6(f)) }

  lemma FrameLayout(f: Flow, n: u32, ingress: u4, window: Bytes)
    requires !f.traffic.template.L2Raw?
    ensures LaidOut(Assemble(FlowKey(f, n, ingress, window)),
                    FrameDst(f, n), FrameSrc(f, n),
                    if HasL4(f) then SrcPort(f, n) + DstPort(f, n) else ZERO_WORD,
                    KeyVlan(f, n), OuterType(f), IpProto(f))
  {
    var k := FlowKey(f, n, ingress, window);
    assert VlanLane(k) == KeyVlan(f, n) by { VlanIdSmall(f, n); }
  }

  lemma VlanIdSmall(f: Flow, n: u32)
    ensures [KeyVlan(f, n)[0] % 16, KeyVlan(f, n)[1]] == KeyVlan(f, n)
  {}

  function StoredProto(f: Flow): u8 { if f.l4.proto != 0 then f.l4.proto else 17 }

  lemma StoredLayout(f: Flow)
    requires !f.traffic.template.L2Raw?
    ensures LaidOut(HashWords(f), StoredDst(f), StoredSrc(f),
                    if HasL4(f) then f.l4.srcPort + f.l4.dstPort else ZERO_WORD,
                    VlanKey(f), InnerType(f), StoredProto(f))
  {}

  lemma DstAgrees(f: Flow, n: u32, mask: KeyWords, w: nat)
    requires Avoids(mask, f) && LowMaskShared(f) && w < 4
    ensures AndAll(FrameDst(f, n)[w], mask[w]) == AndAll(StoredDst(f)[w], mask[w])
  {
    if f.ip6.Some? { Dst6Agrees(f, n, mask, w); } else { Dst4Agrees(f, n, mask, w); }
  }

  lemma Dst6Agrees(f: Flow, n: u32, mask: KeyWords, w: nat)
    requires Avoids(mask, f) && LowMaskShared(f) && w < 4 && f.ip6.Some?
    ensures AndAll(FrameDst(f, n)[w], mask[w]) == AndAll(StoredDst(f)[w], mask[w])
  {
    var m := f.mods.dstIp;
    if m.mode != 0 { DstAvoided(mask, f); }
    Addr6Agrees(m.mode, ZERO_WORD, f.ip4.dst, Dst6(f), f.mods.dstIp6Mask, Rot128(m.mode, n, SALT_DST), mask, 0, w);
  }

  lemma Dst4Agrees(f: Flow, n: u32, mask: KeyWords, w: nat)
    requires Avoids(mask, f) && w < 4 && f.ip6.None?
    ensures AndAll(FrameDst(f, n)[w], mask[w]) == AndAll(StoredDst(f)[w], mask[w])
  {
    var m := f.mods.dstIp;
    if m.mode != 0 { Avoided(mask, f, 0, Drop(0, Low32(m.mask))); }
    Addr4Agrees(m.mode, f.ip4.dst, Low32(m.mask), Rot32(m.mode, n), ZERO_ADDR, Dst6(f), mask, 0, w);
  }

  lemma SrcAgrees(f: Flow, n: u32, mask: KeyWords, w: nat)
    requires Avoids(mask, f) && LowMaskShared(f) && w < 4
    ensures AndAll(FrameSrc(f, n)[w], mask[4 + w]) == AndAll(StoredSrc(f)[w], mask[4 + w])
  {
    if f.ip6.Some? { Src6Agrees(f, n, mask, w); } else { Src4Agrees(f, n, mask, w); }
  }

  lemma Src6Agrees(f: Flow, n: u32, mask: KeyWords, w: nat)
    requires Avoids(mask, f) && LowMaskShared(f) && w < 4 && f.ip6.Some?
    ensures AndAll(FrameSrc(f, n)[w], mask[4 + w]) == AndAll(StoredSrc(f)[w], mask[4 + w])
  {
    var m := f.mods.srcIp;
    if m.mode != 0 { SrcAvoided(mask, f); }
    Addr6Agrees(m.mode, ZERO_WORD, f.ip4.src, Src6(f), f.mods.srcIp6Mask, Rot128(m.mode, n, SALT_SRC), mask, 4, w);
  }

  lemma Src4Agrees(f: Flow, n: u32, mask: KeyWords, w: nat)
    requires Avoids(mask, f) && w < 4 && f.ip6.None?
    ensures AndAll(FrameSrc(f, n)[w], mask[4 + w]) == AndAll(StoredSrc(f)[w], mask[4 + w])
  {
    var m := f.mods.srcIp;
    if m.mode != 0 { Avoided(mask, f, 2, Drop(4, Low32(m.mask))); }
    Addr4Agrees(m.mode, f.ip4.src, Low32(m.mask), Rot32(m.mode, n), ZERO_ADDR, Src6(f), mask, 4, w);
  }

  /** Word 9 agrees when VLAN and ethertype do, and only then if the whole ethertype is compared. */
  lemma TypeWord(v: Half, et: Half, v': Half, et': Half, k: Word)
    requires k[2] == 0xFF && k[3] == 0xFF
    ensures AndAll(v + et, k) == AndAll(v' + et', k) <==> AndAll(v, k[0..2]) == AndAll(v', k[0..2]) && et == et'
  {
    AndHalves(v, et, k);
    AndHalves(v', et', k);
    FullHalf(et, k[2..4]);
    FullHalf(et', k[2..4]);
    var a, b, c, d := AndAll(v, k[0..2]), AndAll(et, k[2..4]), AndAll(v', k[0..2]), AndAll(et', k[2..4]);
    assert (a + b)[..2] == a && (a + b)[2..] == b && (c + d)[..2] == c && (c + d)[2..] == d;
  }

  lemma FullHalf(x: Half, k: Half)
    requires k == [0xFF, 0xFF]
    ensures AndAll(x, k) == x
  {
    ByteMask(x[0]);
    ByteMask(x[1]);
  }

  lemma ProtoWord(p: u8, q: u8)
    ensures AndAll([0, 0, 0, p], FULL_WORD) == AndAll([0, 0, 0, q], FULL_WORD) <==> p == q
  {
    ByteMask(p);
    ByteMask(q);
    var a, b := AndAll([0, 0, 0, p], FULL_WORD), AndAll([0, 0, 0, q], FULL_WORD);
    assert a[3] == p && b[3] == q;
  }

  /** Two laid-out keys agree under the mask exactly when their parts do. */
  lemma LayoutsAgree(a: KeyWords, b: KeyWords, mask: KeyWords, d: seq<Word>, s: seq<Word>, d': seq<Word>, s': seq<Word>,
                     p: Word, p': Word, v: Half, v': Half, et: Half, et': Half, proto: u8, proto': u8)
    requires LaidOut(a, d, s, p, v, et, proto) && LaidOut(b, d', s', p', v', et', proto') && KeepsType(mask)
    requires forall w | 0 <= w < 4 :: AndAll(d[w], mask[w]) == AndAll(d'[w], mask[w])
    requires forall w | 4 <= w < 8 :: AndAll(s[w - 4], mask[w]) == AndAll(s'[w - 4], mask[w])
    requires AndAll(p, mask[8]) == AndAll(p', mask[8]) && AndAll(v, mask[9][0..2]) == AndAll(v', mask[9][0..2])
    ensures Masked(a, mask) == Masked(b, mask) <==> et == et' && proto == proto'
  {
    TypeWord(v, et, v', et', mask[9]);
    ProtoWord(proto, proto');
    var x, y := Masked(a, mask), Masked(b, mask);
    assert x[9] == AndAll(v + et, mask[9]) && y[9] == AndAll(v' + et', mask[9]);
    assert x[10] == AndAll([0, 0, 0, proto], FULL_WORD) && y[10] == AndAll([0, 0, 0, proto'], FULL_WORD);
    forall w | 0 <= w < 9 ensures x[w] == y[w] {}
  }

  /**
   A frame with an IP header has the flow's key exactly when its protocol is the stored one and
   the ethertype in front of it, the outer one of a tunnel, is that of the inner header.
   */
  lemma IpFrameMatches(f: Flow, n: u32, ingress: u4, window: Bytes, mask: KeyWords)
    requires Avoids(mask, f) && KeepsType(mask) && LowMaskShared(f) && !f.traffic.template.L2Raw?
    ensures LooksLike(f, FlowKey(f, n, ingress, window), mask)
       <==> IpProto(f) == StoredProto(f) && OuterType(f) == InnerType(f)
  {
    FrameLayout(f, n, ingress, window);
    StoredLayout(f);
    AddrsAgree(f, n, mask);
    PortsAgree(f, n, mask);
    if f.l2.vlanSet { VlanAgrees(f, n, mask); }
    LayoutsAgree(Assemble(FlowKey(f, n, ingress, window)), HashWords(f), mask,
                 FrameDst(f, n), FrameSrc(f, n), StoredDst(f), StoredSrc(f),
                 if HasL4(f) then SrcPort(f, n) + DstPort(f, n) else ZERO_WORD,
                 if HasL4(f) then f.l4.srcPort + f.l4.dstPort else ZERO_WORD,
                 KeyVlan(f, n), VlanKey(f), OuterType(f), InnerType(f), IpProto(f), StoredProto(f));
  }

  lemma AddrsAgree(f: Flow, n: u32, mask: KeyWords)
    requires Avoids(mask, f) && LowMaskShared(f)
    ensures forall w | 0 <= w < 4 :: AndAll(FrameDst(f, n)[w], mask[w]) == AndAll(StoredDst(f)[w], mask[w])
    ensures forall w | 4 <= w < 8 :: AndAll(FrameSrc(f, n)[w - 4], mask[w]) == AndAll(StoredSrc(f)[w - 4], mask[w])
  {
    forall w | 0 <= w < 4 ensures AndAll(FrameDst(f, n)[w], mask[w]) == AndAll(StoredDst(f)[w], mask[w]) {
      DstAgrees(f, n, mask, w);
    }
    forall w | 4 <= w < 8 ensures AndAll(FrameSrc(f, n)[w - 4], mask[w]) == AndAll(StoredSrc(f)[w - 4], mask[w]) {
      SrcAgrees(f, n, mask, w - 4);
    }
  }

  // ---- raw Ethernet frames -----------------------------------------------------------------------------

  /** Only zeros from offset o on. */
  predicate ZeroFrom(b: Bytes, o: nat) { forall i | o <= i < |b| :: b[i] == 0 }

  lemma ZeroCut(b: Bytes, was: Bytes, o: nat, i: nat, n: nat)
    requires ZeroFrom(b, o) && o <= i && i + n <= |b| && i + n <= HDR_BYTES
    ensures Cut(b, was, i, n) == Zeros(n)
  {}

  /** An all-zero IP header announces no tunnel. */
  lemma ZeroDescends(b: Bytes, was: Bytes, l3: nat, v4: bool, v6: bool)
    requires (v4 || v6 ==> ZeroFrom(b, l3)) && l3 <= 18
    ensures Descend(b, was, l3, v4, v6) == Inner(l3, v4, v6)
  {}

  /** ... and has no addresses and no transport header. */
  lemma ZeroL3(b: Bytes, was: Bytes, l3: nat, v4: bool, v6: bool, et: Half)
    requires (v4 || v6 ==> ZeroFrom(b, l3)) && l3 <= 18
    ensures var p := ParseL3(b, was, Inner(l3, v4, v6), et);
            && p.proto == 0 && p.src4 == p.dst4 == ZERO_WORD && p.src6 == p.dst6 == ZERO_ADDR && p.l4 == None
  {
    if v6 && |b| >= l3 + 40 {
      ZeroCut(b, was, l3, l3 + 8, 16);
      ZeroCut(b, was, l3, l3 + 24, 16);
    } else if v4 && |b| >= l3 + 20 {
      ZeroCut(b, was, l3, l3 + 12, 4);
      ZeroCut(b, was, l3, l3 + 16, 4);
    }
  }

  const ZERO_ADDR_KEY: seq<Word> := [ZERO_WORD, ZERO_WORD, ZERO_WORD, ZERO_WORD]

  lemma ZeroAddrKey(v6: bool)
    ensures AddrKey(v6, ZERO_WORD, ZERO_ADDR) == ZERO_ADDR_KEY
  {
    assert AddrWord(ZERO_ADDR, 0) == AddrWord(ZERO_ADDR, 1) == AddrWord(ZERO_ADDR, 2) == AddrWord(ZERO_ADDR, 3)
             == ZERO_WORD;
  }

  /** The key of a frame with nothing behind its L2 head. */
  lemma RawKey(b: Bytes, was: Bytes, ingress: u4, l2: L2Info)
    requires |b| >= 14 && ParseL2(b, was) == l2 && l2.l3 <= 18 && !l2.innerVlan && l2.vlanId[0] < 16
    requires l2.ethertype == [0x81, 0x00] || ZeroFrom(b, l2.l3)
    ensures var p := Parse(b, was, ingress);
            && p.Some? && !p.value.key.isTest
            && LaidOut(Assemble(p.value.key), ZERO_ADDR_KEY, ZERO_ADDR_KEY, ZERO_WORD, l2.vlanId, l2.ethertype, 0)
  {
    var v4, v6 := l2.ethertype == [0x08, 0x00], l2.ethertype == [0x86, 0xDD];
    ZeroDescends(b, was, l2.l3, v4, v6);
    ZeroL3(b, was, l2.l3, v4, v6, l2.ethertype);
    var l3 := ParseL3(b, was, Inner(l2.l3, v4, v6), l2.ethertype);
    ParseIs(b, was, ingress, l2, Inner(l2.l3, v4, v6), l3);
    RawLayout(b, was, ingress, l2, Inner(l2.l3, v4, v6), l3);
  }

  lemma RawLayout(b: Bytes, was: Bytes, ingress: u4, l2: L2Info, inn: Inner, l3: L3Info)
    requires l3.proto == 0 && l3.src4 == l3.dst4 == ZERO_WORD && l3.src6 == l3.dst6 == ZERO_ADDR && l3.l4 == None
    requires !l2.innerVlan && l2.vlanId[0] < 16
    ensures !KeyOf(b, was, ingress, l2, inn, l3).key.isTest
    ensures LaidOut(Assemble(KeyOf(b, was, ingress, l2, inn, l3).key), ZERO_ADDR_KEY, ZERO_ADDR_KEY, ZERO_WORD,
                    l2.vlanId, l2.ethertype, 0)
  {
    ZeroAddrKey(inn.v6);
    var k := KeyOf(b, was, ingress, l2, inn, l3).key;
    assert VlanLane(k) == l2.vlanId;
  }

  lemma RawStored(f: Flow)
    requires f.traffic.template.L2Raw?
    ensures LaidOut(HashWords(f), ZERO_ADDR_KEY, ZERO_ADDR_KEY, ZERO_WORD, VlanKey(f), RawEtherType(f), 0)
  {}

  /** The bytes of a raw frame. */
  lemma RawFrame(f: Flow, n: u32)
    requires f.traffic.template.L2Raw?
    ensures var b, h := Emitted(f, n), EthHead(f, n) + RawEtherType(f);
            && |b| == WireLen(f) >= |h| && ZeroFrom(b, |h|)
            && forall i | 0 <= i < |h| :: b[i] == h[i]
  {}

  /** What the parser sees at the front of a raw frame. */
  function RawL2(f: Flow, n: u32): L2Info {
    var et := RawEtherType(f);
    if f.l2.vlanSet then L2Info(true, VlanId(f, n), false, et, 18)
    else if et == [0x81, 0x00] && WireLen(f) >= 18 then L2Info(true, [0, 0], false, [0, 0], 18)
    else L2Info(false, [0, 0], false, et, 14)
  }

  lemma RawUntagged(f: Flow, b: Bytes, was: Bytes, et: Half)
    requires 14 <= |b| && b[12..14] == et && ZeroFrom(b, 14)
    ensures ParseL2(b, was) == if et == [0x81, 0x00] && |b| >= 18 then L2Info(true, [0, 0], false, [0, 0], 18)
                               else L2Info(false, [0, 0], false, et, 14)
  {
    if et == [0x81, 0x00] && |b| >= 18 {
      assert b[14..16] == [0, 0] && b[16..18] == [0, 0];
      TaggedL2(b, was, [0, 0], [0, 0]);
    } else {
      if |b| >= 22 { assert b[16..18] == [0, 0]; }
      UntaggedL2(b, was, et);
    }
  }

  lemma RawL2Parses(f: Flow, n: u32, was: Bytes)
    requires f.traffic.template.L2Raw?
    ensures ParseL2(Emitted(f, n), was) == RawL2(f, n)
    ensures ZeroFrom(Emitted(f, n), L3Off(f))
  {
    RawFrame(f, n);
    var b, e, et := Emitted(f, n), EthHead(f, n), RawEtherType(f);
    HeadSlices(b, e, et);
    if f.l2.vlanSet {
      TagBytes(f, n);
      TciId(f.l2.pcp, VlanId(f, n));
      TaggedL2(b, was, Tci(f.l2.pcp, VlanId(f, n)), et);
    } else {
      RawUntagged(f, b, was, et);
    }
  }

  lemma HeadSlices(b: Bytes, e: Bytes, et: Half)
    requires (|e| == 12 || |e| == 16) && |b| >= |e| + 2 && forall i | 0 <= i < |e| + 2 :: b[i] == (e + et)[i]
    ensures |e| == 12 ==> b[12..14] == et
    ensures |e| == 16 ==> b[12..14] == e[12..14] && b[14..16] == e[14..16] && b[16..18] == et
  {
    assert b[12] == (e + et)[12] && b[13] == (e + et)[13];
    if |e| == 16 {
      assert b[14] == (e + et)[14] && b[15] == (e + et)[15] && b[16] == (e + et)[16] && b[17] == (e + et)[17];
    }
  }

  /** A raw flow keeps its key unless it is untagged and its frames look tagged. */
  predicate RawRecognisable(f: Flow) { f.l2.vlanSet || RawEtherType(f) != [0x81, 0x00] || WireLen(f) < 18 }

  lemma RawFrameMatches(f: Flow, n: u32, was: Bytes, ingress: u4, mask: KeyWords)
    requires Avoids(mask, f) && KeepsType(mask) && f.traffic.template.L2Raw?
    ensures var p := Parse(Emitted(f, n), was, ingress);
            p.Some? && !p.value.key.isTest && (LooksLike(f, p.value.key, mask) <==> RawRecognisable(f))
  {
    RawL2Parses(f, n, was);
    var l2 := RawL2(f, n);
    VlanIdSmall(f, n);
    RawKey(Emitted(f, n), was, ingress, l2);
    RawStored(f);
    if f.l2.vlanSet { VlanAgrees(f, n, mask); }
    RawAgree(Assemble(Parse(Emitted(f, n), was, ingress).value.key), HashWords(f), mask,
             l2.vlanId, VlanKey(f), l2.ethertype, RawEtherType(f));
  }

  lemma RawAgree(a: KeyWords, b: KeyWords, mask: KeyWords, v: Half, v': Half, et: Half, et': Half)
    requires LaidOut(a, ZERO_ADDR_KEY, ZERO_ADDR_KEY, ZERO_WORD, v, et, 0)
    requires LaidOut(b, ZERO_ADDR_KEY, ZERO_ADDR_KEY, ZERO_WORD, v', et', 0)
    requires KeepsType(mask)
    ensures Masked(a, mask) == Masked(b, mask) <==> AndAll(v, mask[9][0..2]) == AndAll(v', mask[9][0..2]) && et == et'
  {
    TypeWord(v, et, v', et', mask[9]);
    var x, y := Masked(a, mask), Masked(b, mask);
    assert x[9] == AndAll(v + et, mask[9]) && y[9] == AndAll(v' + et', mask[9]);
    forall w | 0 <= w < 11 && w != 9 ensures x[w] == y[w] {}
  }

  // ---- end to end -----------------------------------------------------------------------------------------

  /** A tunnel, if there is one, is of the inner header's own family. */
  predicate FamilyKept(f: Flow) { f.encap.Some? ==> f.encap.value.outer.Outer6? == f.ip6.Some? }

  /**
   The flows whose frames keep the stored key. The compiler stores protocol 6 or 17 while the
   builder puts 0xFD into an IP frame without transport header, so such a flow is recognised
   only if 0xFD was asked for; and it stores the inner ethertype while the parser keys on the
   outer one, so a tunnel between families is not recognised.
   */
  predicate Recognisable(f: Flow) {
    match f.traffic.template
    case Test => FamilyKept(f) && (f.l4.proto == 0 || f.l4.proto == 6 || f.l4.proto == 17)
    case L4Raw => FamilyKept(f) && (f.l4.proto == 0 || f.l4.proto == 6 || f.l4.proto == 17)
    case L3Raw => FamilyKept(f) && f.l4.proto == 0xFD
    case L2Raw => RawRecognisable(f)
  }

  lemma OuterTypeKept(f: Flow)
    requires !f.traffic.template.L2Raw?
    ensures OuterType(f) == InnerType(f) <==> FamilyKept(f)
  {}

  /** For every sequence number, the masked key of the emitted frame is the stored key, or for none. */
  lemma FrameMatches(f: Flow, n: u32, was: Bytes, ingress: u4, mask: KeyWords)
    requires Avoids(mask, f) && KeepsType(mask) && LowMaskShared(f)
    ensures var p := Parse(Emitted(f, n), was, ingress);
            p.Some? && (LooksLike(f, p.value.key, mask) <==> Recognisable(f))
  {
    if f.traffic.template.L2Raw? {
      RawFrameMatches(f, n, was, ingress, mask);
    } else {
      ParseRecovers(f, n, was, ingress);
      IpFrameMatches(f, n, ingress, Cut(Frame(f, n), was, 0, HDR_BYTES), mask);
      OuterTypeKept(f);
    }
  }

  /** An IP frame without transport header, configured as UDP, is never recognised. */
  lemma IpTemplateIsLost(f: Flow, n: u32, was: Bytes, ingress: u4, mask: KeyWords)
    requires Avoids(mask, f) && KeepsType(mask) && LowMaskShared(f)
    requires f.traffic.template.L3Raw? && f.l4.proto == 17
    ensures var p := Parse(Emitted(f, n), was, ingress); p.Some? && !LooksLike(f, p.value.key, mask)
  {
    FrameMatches(f, n, was, ingress, mask);
  }

  /** Nor is a test flow with an IPv6 header inside an IPv4 tunnel. */
  lemma MixedTunnelIsLost(f: Flow, n: u32, was: Bytes, ingress: u4, mask: KeyWords)
    requires Avoids(mask, f) && KeepsType(mask) && LowMaskShared(f)
    requires f.traffic.template.Test? && f.ip6.Some? && f.encap.Some? && f.encap.value.outer.Outer4?
    ensures var p := Parse(Emitted(f, n), was, ingress); p.Some? && !LooksLike(f, p.value.key, mask)
  {
    FrameMatches(f, n, was, ingress, mask);
  }

  // ---- any frame length -------------------------------------------------------------------------------------

  lemma {:induction false} SameEdits(f: Flow, len: u16, n: nat)
    ensures EditsUpTo(WithLen(f, len), n) == EditsUpTo(f, n)
  {
    if n > 0 {
      SameEdits(f, len, n - 1);
      assert Statement(WithLen(f, len), n - 1) == Statement(f, n - 1);
    }
  }

  /** The same at every frame length the flow sweeps through. */
  lemma FrameMatchesAt(f: Flow, len: u16, n: u32, was: Bytes, ingress: u4, mask: KeyWords)
    requires Avoids(mask, f) && KeepsType(mask) && LowMaskShared(f)
    ensures var p := Parse(Emitted(WithLen(f, len), n), was, ingress);
            p.Some? && (LooksLike(f, p.value.key, mask) <==> Recognisable(WithLen(f, len)))
  {
    SameEdits(f, len, STATEMENTS);
    assert HashWords(WithLen(f, len)) == HashWords(f);
    FrameMatches(WithLen(f, len), n, was, ingress, mask);
  }

  /** The mask of a compiled card is one that the theorem above is about. */
  lemma CardMaskAvoids(cfg: Config, t: seq<CardTables>, prog: Program, c: nat, i: nat)
    requires CompiledFrom(cfg, t, prog) && AllResolve(cfg) && c < |prog.cards| && i < |cfg.flows| && HashedOn(cfg, i, c)
    ensures Avoids(prog.cards[c].hashMask, cfg.flows[i]) && KeepsType(prog.cards[c].hashMask)
  {
    var e := EntryOfFlow(cfg, t, prog, c, i);
    var id := prog.cards[c].cardId;
    assert Finished(cfg, t[c], prog.cards[c]);
    assert id == cfg.cards[c].id;
    MaskAvoids(cfg, id, |cfg.flows|, i);
    MaskKeepsType(cfg, id, |cfg.flows|);
  }

  /** A frame of this flow, at this length, is sent to the flow's slot if and only if the flow is recognisable. */
  predicate ByHash(f: Flow, slot: u32, r: RegFile, len: u16, n: u32, was: Bytes, ingress: u4)
    requires Sized(r)
  {
    var p := Parse(Emitted(WithLen(f, len), n), was, ingress);
    p.Some? && (CardHash(r, p.value.key) == Some(slot) <==> Recognisable(WithLen(f, len)))
  }

  /**
   Every frame a header-classified flow emits, at any length and whatever its modifiers make of
   it, is sent by its receive card's hash table to the flow's own slot; the exceptions are
   exactly the flows that are not recognisable, and those lose all their frames.
   */
  lemma FramesReachTheirSlot(cfg: Config, t: seq<CardTables>, prog: Program, c: nat, i: nat,
                             r: RegFile, len: u16, n: u32, was: Bytes, ingress: u4)
    requires CompiledFrom(cfg, t, prog) && AllResolve(cfg) && c < |prog.cards| && i < |cfg.flows|
    requires TablesHold(r, prog.cards[c]) && HashedOn(cfg, i, c) && LowMaskShared(cfg.flows[i])
    ensures ByHash(cfg.flows[i], prog.meta[i].rxLocal, r, len, n, was, ingress)
  {
    var f := cfg.flows[i];
    CardMaskAvoids(cfg, t, prog, c, i);
    FrameMatchesAt(f, len, n, was, ingress, prog.cards[c].hashMask);
    HashReachesSlot(cfg, t, prog, c, i, r, Parse(Emitted(WithLen(f, len), n), was, ingress).value.key);
  }

  /** A frame of this test flow is found by its flow id exactly where `here` says. */
  predicate ByFlowId(f: Flow, slot: u32, here: bool, r: RegFile, len: u16, n: u32, was: Bytes, ingress: u4)
    requires Sized(r)
  {
    var p := Parse(Emitted(WithLen(f, len), n), was, ingress);
    p.Some? && CardMap(r, p.value.key) == if here then Some(slot) else None
  }

  /** Every test frame, tunnelled or not, is found by its flow id: in its own slot, and on no other card. */
  lemma TestFramesReachTheirSlot(cfg: Config, t: seq<CardTables>, prog: Program, c: nat, i: nat,
                                 r: RegFile, len: u16, n: u32, was: Bytes, ingress: u4)
    requires CompiledFrom(cfg, t, prog) && AllResolve(cfg) && c < |prog.cards| && i < |cfg.flows|
    requires TablesHold(r, prog.cards[c]) && cfg.flows[i].traffic.template.Test?
    ensures ByFlowId(cfg.flows[i], prog.meta[i].rxLocal, MappedOn(cfg, i, c), r, len, n, was, ingress)
  {
    var f := WithLen(cfg.flows[i], len);
    ParseRecovers(f, n, was, ingress);
    TestFrameReachesSlot(cfg, t, prog, c, i, r, Parse(Emitted(f, n), was, ingress).value.key);
  }

  // ---- what becomes of every frame of a flow ------------------------------------------------------------

  /** Flow i is measured, and received on card c. */
  predicate ReceivedOn(cfg: Config, i: nat, c: nat)
    requires AllResolve(cfg) && i < |cfg.flows|
  {
    MappedOn(cfg, i, c) || HashedOn(cfg, i, c)
  }

  /** A frame of this flow is counted in the flow's slot, if and only if it is found by id or recognisable. */
  predicate Reaches(f: Flow, slot: u32, r: RegFile, len: u16, n: u32, was: Bytes, ingress: u4)
    requires Sized(r)
  {
    var p := Parse(Emitted(WithLen(f, len), n), was, ingress);
    p.Some? && (CardAction(r, p.value.key) == TestRx(slot) <==> !f.classifyHeader || Recognisable(WithLen(f, len)))
  }

  /** Only test frames carry a test header. */
  lemma OnlyTestIsTest(f: Flow, n: u32, was: Bytes, ingress: u4)
    requires !f.traffic.template.Test?
    ensures var p := Parse(Emitted(f, n), was, ingress); p.Some? && !p.value.key.isTest
  {
    if f.traffic.template.L2Raw? {
      RawL2Parses(f, n, was);
      VlanIdSmall(f, n);
      RawKey(Emitted(f, n), was, ingress, RawL2(f, n));
    } else {
      ParseRecovers(f, n, was, ingress);
    }
  }

  /** The flow-id map does not answer for a header-classified flow's frames. */
  lemma HeaderFlowUnmapped(cfg: Config, t: seq<CardTables>, prog: Program, c: nat, i: nat,
                           r: RegFile, len: u16, n: u32, was: Bytes, ingress: u4)
    requires CompiledFrom(cfg, t, prog) && AllResolve(cfg) && c < |prog.cards| && i < |cfg.flows|
    requires TablesHold(r, prog.cards[c]) && cfg.flows[i].classifyHeader
    ensures var p := Parse(Emitted(WithLen(cfg.flows[i], len), n), was, ingress);
            p.Some? && CardMap(r, p.value.key) == None
  {
    if cfg.flows[i].traffic.template.Test? {
      TestFramesReachTheirSlot(cfg, t, prog, c, i, r, len, n, was, ingress);
    } else {
      OnlyTestIsTest(WithLen(cfg.flows[i], len), n, was, ingress);
    }
  }

  lemma ByHashThenAction(f: Flow, slot: u32, r: RegFile, k: MatchKey, found: bool)
    requires Sized(r) && CardMap(r, k) == None && (CardHash(r, k) == Some(slot) <==> found)
    ensures CardAction(r, k) == TestRx(slot) <==> found
  {}

  /**
   Every frame of a measured flow, at every length and through every stage of its receive card, is
   counted in the flow's own slot, unless the flow is classified by a header it does not keep.
   */
  lemma MeasuredFramesAreCounted(cfg: Config, t: seq<CardTables>, prog: Program, c: nat, i: nat,
                                 r: RegFile, len: u16, n: u32, was: Bytes, ingress: u4)
    requires CompiledFrom(cfg, t, prog) && AllResolve(cfg) && c < |prog.cards| && i < |cfg.flows|
    requires TablesHold(r, prog.cards[c]) && ReceivedOn(cfg, i, c) && LowMaskShared(cfg.flows[i])
    ensures Reaches(cfg.flows[i], prog.meta[i].rxLocal, r, len, n, was, ingress)
  {
    var f, slot := cfg.flows[i], prog.meta[i].rxLocal;
    if f.classifyHeader {
      HeaderFlowUnmapped(cfg, t, prog, c, i, r, len, n, was, ingress);
      FramesReachTheirSlot(cfg, t, prog, c, i, r, len, n, was, ingress);
      ByHashThenAction(f, slot, r, Parse(Emitted(WithLen(f, len), n), was, ingress).value.key,
                       Recognisable(WithLen(f, len)));
    } else {
      assert Validate.FlowOk(cfg, i);
      TestFramesReachTheirSlot(cfg, t, prog, c, i, r, len, n, was, ingress);
    }
  }

  // ---- frames of others that a flow swallows --------------------------------------------------------------

  /** An ethertype behind which the parser looks for nothing. */
  predicate Opaque(et: Half) {
    && et != [0x08, 0x00] && et != [0x86, 0xDD] && et != [0x81, 0x00] && et != [0x88, 0xA8] && et != [0x91, 0x00]
    && et != [0, 0]
  }

  /** The key of any untagged frame of such an ethertype: nothing but the ethertype. */
  lemma OpaqueKey(b: Bytes, was: Bytes, ingress: u4, et: Half)
    requires |b| >= 14 && b[12..14] == et && Opaque(et)
    ensures var p := Parse(b, was, ingress);
            && p.Some? && p.value.key.valid && p.value.key.ingress == ingress && p.value.key.ethertype == et
            && !p.value.key.isTest && p.value.key.vlanId == [0, 0]
            && LaidOut(Assemble(p.value.key), ZERO_ADDR_KEY, ZERO_ADDR_KEY, ZERO_WORD, [0, 0], et, 0)
  {
    CutIs(b, was, 12, 2);
    var l2 := L2Info(false, [0, 0], false, et, 14);
    var inn := Inner(14, false, false);
    var l3 := ParseL3(b, was, inn, et);
    ParseIs(b, was, ingress, l2, inn, l3);
    RawLayout(b, was, ingress, l2, inn, l3);
  }

  /** The frame looks like every untagged raw Ethernet flow of that ethertype. */
  lemma OpaqueLooksLike(f: Flow, b: Bytes, was: Bytes, ingress: u4, mask: KeyWords)
    requires f.traffic.template.L2Raw? && !f.l2.vlanSet && Opaque(RawEtherType(f))
    requires |b| >= 14 && b[12..14] == RawEtherType(f)
    ensures var p := Parse(b, was, ingress); p.Some? && LooksLike(f, p.value.key, mask)
  {
    OpaqueKey(b, was, ingress, RawEtherType(f));
    RawStored(f);
    SameLayout(Assemble(Parse(b, was, ingress).value.key), HashWords(f), RawEtherType(f));
  }

  lemma SameLayout(a: KeyWords, b: KeyWords, et: Half)
    requires LaidOut(a, ZERO_ADDR_KEY, ZERO_ADDR_KEY, ZERO_WORD, [0, 0], et, 0)
    requires LaidOut(b, ZERO_ADDR_KEY, ZERO_ADDR_KEY, ZERO_WORD, [0, 0], et, 0)
    ensures a == b
  {
    forall w | 0 <= w < 11 ensures a[w] == b[w] {}
  }

  /**
   The hash key has neither port nor MAC. So a card that receives an untagged raw Ethernet flow
   counts every untagged frame of its ethertype as that flow's, on every port and from anybody.
   */
  lemma RawFlowSwallows(cfg: Config, t: seq<CardTables>, prog: Program, c: nat, i: nat,
                        r: RegFile, b: Bytes, was: Bytes, ingress: u4)
    requires CompiledFrom(cfg, t, prog) && AllResolve(cfg) && c < |prog.cards| && i < |cfg.flows|
    requires TablesHold(r, prog.cards[c]) && HashedOn(cfg, i, c)
    requires cfg.flows[i].traffic.template.L2Raw? && !cfg.flows[i].l2.vlanSet && Opaque(RawEtherType(cfg.flows[i]))
    requires |b| >= 14 && b[12..14] == RawEtherType(cfg.flows[i])
    ensures var p := Parse(b, was, ingress);
            p.Some? && CardAction(r, p.value.key) == TestRx(prog.meta[i].rxLocal)
  {
    OpaqueKey(b, was, ingress, RawEtherType(cfg.flows[i]));
    OpaqueLooksLike(cfg.flows[i], b, was, ingress, prog.cards[c].hashMask);
    HashReachesSlot(cfg, t, prog, c, i, r, Parse(b, was, ingress).value.key);
  }

  /**
   For instance ARP: the rule stage names a configured ARP punt, or a rule preferred to it, for
   every untagged ARP frame on its port, and the card applies neither.
   */
  lemma ArpPuntSwallowed(cfg: Config, t: seq<CardTables>, prog: Program, c: nat, i: nat,
                         r: RegFile, b: Bytes, was: Bytes, ingress: u4, x: nat, lif: u32)
    requires CompiledFrom(cfg, t, prog) && AllResolve(cfg) && c < |prog.cards| && i < |cfg.flows|
    requires TablesHold(r, prog.cards[c]) && NoneFrom(r, |prog.cards[c].rules|) && HashedOn(cfg, i, c)
    requires cfg.flows[i].traffic.template.L2Raw? && !cfg.flows[i].l2.vlanSet
    requires RawEtherType(cfg.flows[i]) == [0x08, 0x06] && |b| >= 14 && b[12..14] == [0x08, 0x06]
    requires var s := Sources(cfg, prog.cards[c].cardId); x < |s| && s[x] == Punt(Arp, ingress, [0, 0], lif)
    ensures var p := Parse(b, was, ingress);
            && p.Some? && CardRule(r, p.value.key).Some?
            && Chosen(Sources(cfg, prog.cards[c].cardId), p.value.key, CardRule(r, p.value.key).value)
            && CardAction(r, p.value.key) == TestRx(prog.meta[i].rxLocal)
  {
    RawFlowSwallows(cfg, t, prog, c, i, r, b, was, ingress);
    OpaqueKey(b, was, ingress, [0x08, 0x06]);
    ArpIsChosen(cfg, t, prog, c, r, Parse(b, was, ingress).value.key, x, lif);
  }

  lemma ArpIsChosen(cfg: Config, t: seq<CardTables>, prog: Program, c: nat, r: RegFile, k: MatchKey, x: nat, lif: u32)
    requires CompiledFrom(cfg, t, prog) && c < |prog.cards|
    requires TablesHold(r, prog.cards[c]) && NoneFrom(r, |prog.cards[c].rules|)
    requires k.valid && k.ethertype == [0x08, 0x06]
    requires var s := Sources(cfg, prog.cards[c].cardId); x < |s| && s[x] == Punt(Arp, k.ingress, [0, 0], lif)
    ensures CardRule(r, k).Some? && Chosen(Sources(cfg, prog.cards[c].cardId), k, CardRule(r, k).value)
  {
    RuleStageChooses(cfg, t, prog, c, r, k);
    SomeRuleChosen(Sources(cfg, prog.cards[c].cardId), k, CardRule(r, k), x, lif);
  }

  lemma SomeRuleChosen(s: seq<RuleSource>, k: MatchKey, win: Option<nat>, x: nat, lif: u32)
    requires AnswersFor(s, k, win) && x < |s| && s[x] == Punt(Arp, k.ingress, [0, 0], lif)
    requires k.ethertype == [0x08, 0x06]
    ensures win.Some? && Chosen(s, k, win.value)
  {
    assert SourceMatches(s[x], k);
  }
}
