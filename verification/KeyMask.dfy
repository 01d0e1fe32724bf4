/** The card's key mask bit by bit: which header bits the hash table compares, and which it leaves out. */
module KeyMask {
  import opened Basics
  import opened Bits
  import opened Config
  import opened Classifier
  import opened HashKeys
  import opened FlowCompiler

  /**
   Bit b of word w of an address key survives a flow: the flow's modifier does not vary it, and
   the flow's own IPv6 match mask, if it has one, asks for it. The lowest word is varied under the
   IPv4 modifier's mask, the others only in an IPv6 flow.
   */
  predicate AddrKeeps(w: nat, b: nat, m: FieldMod, v6: bool, mask6: Addr6, narrow: Option<Addr6>)
    requires w < 4 && b < 32
  {
    && !(m.mode != 0 && if w == 0 then BitAt(m.mask, b) else v6 && BitAt(mask6, 32 * w + b))
    && (narrow.Some? ==> BitAt(narrow.value, 32 * w + b))
  }

  /**
   Bit b of key word k survives a flow. Words 0 to 3 are the destination address, 4 to 7 the
   source, 8 the ports with the source port on top, 9 the VLAN id on top of the ethertype, and 10
   the protocol.
   */
  predicate FlowKeeps(f: Flow, k: KeyIndex, b: nat)
    requires b < 32
  {
    if k < 4 then
      && AddrKeeps(k, b, f.mods.dstIp, f.ip6.Some?, f.mods.dstIp6Mask, f.narrow.ipv6Dst)
      && (k == 0 ==> BitAt(f.narrow.ipv4DstMask, b))
    else if k < 8 then AddrKeeps(k - 4, b, f.mods.srcIp, f.ip6.Some?, f.mods.srcIp6Mask, f.narrow.ipv6Src)
    else if k == 8 then
      if b < 16 then !(f.mods.udpDst.mode != 0 && BitAt(f.mods.udpDst.mask, b)) && BitAt(f.narrow.udpDstMask, b)
      else !(f.mods.udpSrc.mode != 0 && BitAt(f.mods.udpSrc.mask, b - 16))
    else if k == 9 then 16 <= b < 28 ==> !(f.mods.vlan.mode != 0 && BitAt(f.mods.vlan.mask, b - 16))
    else true
  }

  // ---- edits -----------------------------------------------------------------------------------------

  predicate EditKeeps(e: Edit, k: KeyIndex, b: nat)
    requires b < 32
  {
    e.i == k ==> if e.Drop? then !BitAt(e.bits, b) else BitAt(e.bits, b)
  }

  predicate AllKeep(es: seq<Edit>, k: KeyIndex, b: nat)
    requires b < 32
  {
    forall e | e in es :: EditKeeps(e, k, b)
  }

  lemma ApplyBit(mask: KeyWords, e: Edit, k: KeyIndex, b: nat)
    requires b < 32
    ensures BitAt(Apply(mask, e)[k], b) == (BitAt(mask[k], b) && EditKeeps(e, k, b))
  {
    var j := 3 - b / 8;
    if e.i == k {
      AndBit(mask[k][j], e.bits[j], b % 8);
      AndNotBit(mask[k][j], e.bits[j], b % 8);
    }
  }

  lemma {:induction false} ApplyAllBit(mask: KeyWords, es: seq<Edit>, k: KeyIndex, b: nat)
    requires b < 32
    ensures BitAt(ApplyAll(mask, es)[k], b) == (BitAt(mask[k], b) && AllKeep(es, k, b))
    decreases |es|
  {
    if es != [] {
      ApplyBit(mask, es[0], k, b);
      ApplyAllBit(Apply(mask, es[0]), es[1..], k, b);
      FrontKeeps(es, k, b);
    }
  }

  lemma FrontKeeps(es: seq<Edit>, k: KeyIndex, b: nat)
    requires b < 32 && es != []
    ensures AllKeep(es, k, b) == (EditKeeps(es[0], k, b) && AllKeep(es[1..], k, b))
  {
    assert es == [es[0]] + es[1..];
  }

  lemma JoinKeeps(x: seq<Edit>, y: seq<Edit>, k: KeyIndex, b: nat)
    requires b < 32
    ensures AllKeep(x + y, k, b) == (AllKeep(x, k, b) && AllKeep(y, k, b))
  {
    if AllKeep(x + y, k, b) {
      forall e | e in x ensures EditKeeps(e, k, b) { assert e in x + y; }
      forall e | e in y ensures EditKeeps(e, k, b) { assert e in x + y; }
    }
  }

  lemma OneKeeps(c: bool, e: Edit, k: KeyIndex, b: nat)
    requires b < 32
    ensures AllKeep(When(c, e), k, b) == (c ==> EditKeeps(e, k, b))
  {
    if c { assert e in When(c, e); }
  }

  /** Statement i keeps the bit. */
  predicate Kept(f: Flow, i: nat, k: KeyIndex, b: nat)
    requires b < 32
  {
    AllKeep(Statement(f, i), k, b)
  }

  predicate KeptUpTo(f: Flow, n: nat, k: KeyIndex, b: nat)
    requires b < 32
  {
    n == 0 || (KeptUpTo(f, n - 1, k, b) && Kept(f, n - 1, k, b))
  }

  lemma {:induction false} StatementsKeep(f: Flow, n: nat, k: KeyIndex, b: nat)
    requires b < 32
    ensures AllKeep(EditsUpTo(f, n), k, b) == KeptUpTo(f, n, k, b)
  {
    if n > 0 {
      StatementsKeep(f, n - 1, k, b);
      JoinKeeps(EditsUpTo(f, n - 1), Statement(f, n - 1), k, b);
    }
  }

  // ---- one statement after the other -------------------------------------------------------------------

  lemma WordOfAddr(a: Addr6, w: nat, b: nat)
    requires w < 4 && b < 32
    ensures BitAt(AddrWord(a, 3 - w), b) == BitAt(a, 32 * w + b)
  {
    SliceBit(a, 4 * (3 - w), 4 * (3 - w) + 4, b);
  }

  lemma DropHighKeeps(c: bool, base: KeyIndex, m: Addr6, k: KeyIndex, b: nat)
    requires base <= 4 && b < 32
    ensures AllKeep(DropHigh(c, base, m), k, b) == (c && base < k < base + 4 ==> !BitAt(m, 32 * (k - base) + b))
  {
    if c {
      forall w: nat | 1 <= w < 4 ensures BitAt(AddrWord(m, 3 - w), b) == BitAt(m, 32 * w + b) { WordOfAddr(m, w, b); }
      ThreeKeep(Drop(base + 1, AddrWord(m, 2)), Drop(base + 2, AddrWord(m, 1)), Drop(base + 3, AddrWord(m, 0)), k, b);
    }
  }

  lemma ThreeKeep(x: Edit, y: Edit, z: Edit, k: KeyIndex, b: nat)
    requires b < 32
    ensures AllKeep([x, y, z], k, b) == (EditKeeps(x, k, b) && EditKeeps(y, k, b) && EditKeeps(z, k, b))
  {
    assert x in [x, y, z] && y in [x, y, z] && z in [x, y, z];
  }

  lemma KeepAddrKeeps(p: Option<Addr6>, base: KeyIndex, k: KeyIndex, b: nat)
    requires base <= 4 && b < 32
    ensures AllKeep(KeepAddr(p, base), k, b) ==
            (p.Some? && base <= k < base + 4 ==> BitAt(p.value, 32 * (k - base) + b))
  {
    if p.Some? {
      var m := p.value;
      forall w: nat | w < 4 ensures BitAt(AddrWord(m, 3 - w), b) == BitAt(m, 32 * w + b) { WordOfAddr(m, w, b); }
      var x, y := Keep(base, AddrWord(m, 3)), [Keep(base + 1, AddrWord(m, 2)), Keep(base + 2, AddrWord(m, 1)),
                                                Keep(base + 3, AddrWord(m, 0))];
      ThreeKeep(y[0], y[1], y[2], k, b);
      OneKeeps(true, x, k, b);
      JoinKeeps([x], y, k, b);
      assert [x] + y == KeepAddr(p, base);
    }
  }

  lemma FullBit(b: nat)
    requires b < 32
    ensures BitAt(FULL_WORD, b)
  {
    ByteOnes(b % 8);
  }

  lemma HalvesBit(i: nat)
    requires i < 16
    ensures !BitAt([0, 0], i) && BitAt([0xFF, 0xFF], i)
  {
    ByteOnes(i % 8);
  }

  /** Statements 0 to 2: the lowest word of either address. */
  lemma DropLowKeeps(m: FieldMod, i: KeyIndex, k: KeyIndex, b: nat)
    requires b < 32
    ensures AllKeep(When(m.mode != 0, Drop(i, Low32(m.mask))), k, b) == (k == i && m.mode != 0 ==> !BitAt(m.mask, b))
  {
    SliceBit(m.mask, 4, 8, b);
    OneKeeps(m.mode != 0, Drop(i, Low32(m.mask)), k, b);
  }

  lemma MatchKeeps(u: Word, k: KeyIndex, b: nat)
    requires b < 32
    ensures AllKeep(When(u != FULL_WORD, Keep(0, u)), k, b) == (k == 0 ==> BitAt(u, b))
  {
    FullBit(b);
    OneKeeps(u != FULL_WORD, Keep(0, u), k, b);
  }

  /** A modifier mask in the lower and in the upper half of a word, and a match mask in the lower. */
  lemma LowerHalf(m: Mask64, b: nat)
    requires b < 32
    ensures BitAt([0, 0] + Low16(m), b) == (b < 16 && BitAt(m, b))
  {
    JoinedBit([0, 0], Low16(m), b);
    if b < 16 { SliceBit(m, 6, 8, b); } else { HalvesBit(b - 16); }
  }

  lemma UpperHalf(m: Mask64, b: nat)
    requires b < 32
    ensures BitAt(Low16(m) + [0, 0], b) == (b >= 16 && BitAt(m, b - 16))
  {
    JoinedBit(Low16(m), [0, 0], b);
    if b < 16 { HalvesBit(b); } else { SliceBit(m, 6, 8, b - 16); }
  }

  lemma LowerMatch(u: Half, b: nat)
    requires b < 32
    ensures BitAt([0xFF, 0xFF] + u, b) == (b < 16 ==> BitAt(u, b))
    ensures u == [0xFF, 0xFF] && b < 16 ==> BitAt(u, b)
  {
    JoinedBit([0xFF, 0xFF], u, b);
    if b < 16 { HalvesBit(b); } else { HalvesBit(b - 16); }
  }

  /** Statements 7 to 9: the ports. */
  lemma PortsKeep(f: Flow, k: KeyIndex, b: nat)
    requires b < 32
    ensures AllKeep(Statement(f, 7), k, b) ==
            (k == 8 && b < 16 && f.mods.udpDst.mode != 0 ==> !BitAt(f.mods.udpDst.mask, b))
    ensures AllKeep(Statement(f, 8), k, b) == (k == 8 && b < 16 ==> BitAt(f.narrow.udpDstMask, b))
    ensures AllKeep(Statement(f, 9), k, b) ==
            (k == 8 && b >= 16 && f.mods.udpSrc.mode != 0 ==> !BitAt(f.mods.udpSrc.mask, b - 16))
  {
    var d, s, u := f.mods.udpDst, f.mods.udpSrc, f.narrow.udpDstMask;
    LowerHalf(d.mask, b);
    UpperHalf(s.mask, b);
    LowerMatch(u, b);
    OneKeeps(d.mode != 0, Drop(8, [0, 0] + Low16(d.mask)), k, b);
    OneKeeps(u != [0xFF, 0xFF], Keep(8, [0xFF, 0xFF] + u), k, b);
    OneKeeps(s.mode != 0, Drop(8, Low16(s.mask) + [0, 0]), k, b);
  }

  /** Statement 10: the VLAN id. */
  lemma VlanKeeps(f: Flow, k: KeyIndex, b: nat)
    requires b < 32
    ensures AllKeep(Statement(f, 10), k, b) ==
            (k == 9 && 16 <= b < 28 && f.mods.vlan.mode != 0 ==> !BitAt(f.mods.vlan.mask, b - 16))
  {
    var m := f.mods.vlan.mask;
    VlanWordBit(m, b);
    OneKeeps(f.mods.vlan.mode != 0, Drop(9, VlanModWord(m)), k, b);
  }

  lemma VlanWordBit(m: Mask64, b: nat)
    requires b < 32
    ensures BitAt(VlanModWord(m), b) == (16 <= b < 28 && BitAt(m, b - 16))
  {
    assert Pow2(4) == 16;
    ByHalving(0, b % 8);
    BitOfZero(b % 8);
    LowBit(m[6], 4, b % 8);
    assert b >= 16 ==> (b - 16) / 8 == b / 8 - 2 && (b - 16) % 8 == b % 8;
  }

  // ---- one flow ------------------------------------------------------------------------------------------

  /** The statements about one address, in words base to base + 3. */
  lemma AddressKeeps(m: FieldMod, v6: bool, mask6: Addr6, narrow: Option<Addr6>, base: KeyIndex, k: KeyIndex, b: nat)
    requires base <= 4 && b < 32
    ensures (&& AllKeep(When(m.mode != 0, Drop(base, Low32(m.mask))), k, b)
             && AllKeep(DropHigh(v6 && m.mode != 0, base, mask6), k, b)
             && AllKeep(KeepAddr(narrow, base), k, b)) ==
            (base <= k < base + 4 ==> AddrKeeps(k - base, b, m, v6, mask6, narrow))
  {
    DropLowKeeps(m, base, k, b);
    DropHighKeeps(v6 && m.mode != 0, base, mask6, k, b);
    KeepAddrKeeps(narrow, base, k, b);
  }

  lemma DstKeeps(f: Flow, k: KeyIndex, b: nat)
    requires b < 32
    ensures (Kept(f, 0, k, b) && Kept(f, 1, k, b) && Kept(f, 3, k, b) && Kept(f, 5, k, b)) ==
            (&& (k < 4 ==> AddrKeeps(k, b, f.mods.dstIp, f.ip6.Some?, f.mods.dstIp6Mask, f.narrow.ipv6Dst))
             && (k == 0 ==> BitAt(f.narrow.ipv4DstMask, b)))
  {
    AddressKeeps(f.mods.dstIp, f.ip6.Some?, f.mods.dstIp6Mask, f.narrow.ipv6Dst, 0, k, b);
    MatchKeeps(f.narrow.ipv4DstMask, k, b);
  }

  lemma SrcKeeps(f: Flow, k: KeyIndex, b: nat)
    requires b < 32
    ensures (Kept(f, 2, k, b) && Kept(f, 4, k, b) && Kept(f, 6, k, b)) ==
            (4 <= k < 8 ==> AddrKeeps(k - 4, b, f.mods.srcIp, f.ip6.Some?, f.mods.srcIp6Mask, f.narrow.ipv6Src))
  {
    AddressKeeps(f.mods.srcIp, f.ip6.Some?, f.mods.srcIp6Mask, f.narrow.ipv6Src, 4, k, b);
  }

  lemma RestKeeps(f: Flow, k: KeyIndex, b: nat)
    requires b < 32
    ensures (Kept(f, 7, k, b) && Kept(f, 8, k, b) && Kept(f, 9, k, b) && Kept(f, 10, k, b)) ==
            (k >= 8 ==> FlowKeeps(f, k, b))
  {
    PortsKeep(f, k, b);
    VlanKeeps(f, k, b);
  }

  lemma AllKept(f: Flow, k: KeyIndex, b: nat)
    requires b < 32
    ensures AllKeep(Edits(f), k, b) <==>
            && (Kept(f, 0, k, b) && Kept(f, 1, k, b) && Kept(f, 3, k, b) && Kept(f, 5, k, b))
            && (Kept(f, 2, k, b) && Kept(f, 4, k, b) && Kept(f, 6, k, b))
            && (Kept(f, 7, k, b) && Kept(f, 8, k, b) && Kept(f, 9, k, b) && Kept(f, 10, k, b))
  {
    StatementsKeep(f, STATEMENTS, k, b);
    OneByOne(f, 0, k, b);
    OneByOne(f, 4, k, b);
    assert KeptUpTo(f, 9, k, b) == (KeptUpTo(f, 8, k, b) && Kept(f, 8, k, b));
    assert KeptUpTo(f, 10, k, b) == (KeptUpTo(f, 9, k, b) && Kept(f, 9, k, b));
    assert KeptUpTo(f, 11, k, b) == (KeptUpTo(f, 10, k, b) && Kept(f, 10, k, b));
  }

  lemma OneByOne(f: Flow, n: nat, k: KeyIndex, b: nat)
    requires b < 32
    ensures KeptUpTo(f, n + 4, k, b) ==
            (&& KeptUpTo(f, n, k, b)
             && Kept(f, n, k, b) && Kept(f, n + 1, k, b) && Kept(f, n + 2, k, b) && Kept(f, n + 3, k, b))
  {
    assert KeptUpTo(f, n + 1, k, b) == (KeptUpTo(f, n, k, b) && Kept(f, n, k, b));
    assert KeptUpTo(f, n + 2, k, b) == (KeptUpTo(f, n + 1, k, b) && Kept(f, n + 1, k, b));
    assert KeptUpTo(f, n + 3, k, b) == (KeptUpTo(f, n + 2, k, b) && Kept(f, n + 2, k, b));
  }

  /** A flow's statements keep exactly the bits the flow keeps. */
  lemma EditsKeep(f: Flow, k: KeyIndex, b: nat)
    requires b < 32
    ensures AllKeep(Edits(f), k, b) == FlowKeeps(f, k, b)
  {
    AllKept(f, k, b);
    DstKeeps(f, k, b);
    SrcKeeps(f, k, b);
    RestKeeps(f, k, b);
  }

  /** One flow clears exactly the bits it does not keep. */
  lemma RelaxBit(mask: KeyWords, f: Flow, k: KeyIndex, b: nat)
    requires b < 32
    ensures BitAt(RelaxMask(mask, f)[k], b) == (BitAt(mask[k], b) && FlowKeeps(f, k, b))
  {
    ApplyAllBit(mask, Edits(f), k, b);
    EditsKeep(f, k, b);
  }

  /** Every header-classified flow received on the card, of the first n, keeps the bit. */
  predicate AllFlowsKeep(cfg: Config, id: u16, n: nat, k: KeyIndex, b: nat)
    requires n <= |cfg.flows| && b < 32
  {
    forall i | 0 <= i < n && KeyedOn(cfg, cfg.flows[i], id) :: FlowKeeps(cfg.flows[i], k, b)
  }

  lemma OneMoreFlow(cfg: Config, id: u16, n: nat, k: KeyIndex, b: nat)
    requires 0 < n <= |cfg.flows| && b < 32
    ensures AllFlowsKeep(cfg, id, n, k, b) ==
            (&& AllFlowsKeep(cfg, id, n - 1, k, b)
             && (KeyedOn(cfg, cfg.flows[n - 1], id) ==> FlowKeeps(cfg.flows[n - 1], k, b)))
  {}

  /** The card's mask compares a bit exactly if every header-classified flow received there keeps it. */
  lemma {:induction false} MaskBit(cfg: Config, id: u16, n: nat, k: KeyIndex, b: nat)
    requires n <= |cfg.flows| && b < 32
    ensures BitAt(MaskFor(cfg, id, n)[k], b) == AllFlowsKeep(cfg, id, n, k, b)
  {
    if n == 0 {
      FullBit(b);
    } else {
      MaskBit(cfg, id, n - 1, k, b);
      OneMoreFlow(cfg, id, n, k, b);
      MaskBitStep(cfg, id, n, k, b);
    }
  }

  lemma MaskBitStep(cfg: Config, id: u16, n: nat, k: KeyIndex, b: nat)
    requires 0 < n <= |cfg.flows| && b < 32
    ensures var f := cfg.flows[n - 1];
            BitAt(MaskFor(cfg, id, n)[k], b) ==
            (BitAt(MaskFor(cfg, id, n - 1)[k], b) && (KeyedOn(cfg, f, id) ==> FlowKeeps(f, k, b)))
  {
    MaskStep(cfg, id, n);
    RelaxBit(MaskFor(cfg, id, n - 1), cfg.flows[n - 1], k, b);
  }
}
