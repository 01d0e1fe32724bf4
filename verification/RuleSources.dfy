/**
 What a punt or forward rule of the configuration asks for, in the terms of a received
 frame, and the list of comparator conditions the compiler emits for it.
 */
module RuleSources {
  import opened Basics
  import opened Config
  import opened Classifier

  datatype PuntKind = Arp | Nd | Lldp | Icmp | BgpDst4 | BgpSrc4 | Ospf4 | Ospf6 | BgpDst6 | BgpSrc6 | IsIs

  datatype RuleSource =
    | Punt(kind: PuntKind, port: u8, vlan: Half, lif: u32)
    | Forward(port: u8, egress: u8, rule: ForwardRule)

  function PuntWhen(want: bool, kind: PuntKind, port: u8, l: LogicalIf): seq<RuleSource> {
    if want then [Punt(kind, port, l.vlan, l.id)] else []
  }

  /** The PUNT(...) lines, in order. */
  const PUNT_ORDER: seq<PuntKind> :=
    [Arp, Nd, Lldp, Icmp, BgpDst4, BgpSrc4, Ospf4, Ospf6, BgpDst6, BgpSrc6, IsIs]
  const PUNT_LINES := |PUNT_ORDER|

  /** The flag and the kind of the i-th PUNT(...) line. */
  function PuntLine(p: PuntFlags, i: nat): (bool, PuntKind) {
    match i
    case 0 => (p.arp, Arp)
    case 1 => (p.ipv6Nd, Nd)
    case 2 => (p.lldp, Lldp)
    case 3 => (p.icmp, Icmp)
    case 4 => (p.bgp, BgpDst4)
    case 5 => (p.bgp, BgpSrc4)
    case 6 => (p.ospf, Ospf4)
    case 7 => (p.ospf && p.ipv6Nd, Ospf6)
    case 8 => (p.bgp && p.ipv6Nd, BgpDst6)
    case 9 => (p.bgp && p.ipv6Nd, BgpSrc6)
    case _ => (p.isIs, IsIs)
  }

  /** The rules the first n lines emit for one logical interface, behind those of `before`. */
  function LifSources(before: seq<RuleSource>, port: u8, l: LogicalIf, n: nat): seq<RuleSource> {
    if n == 0 then before
    else
      var line := PuntLine(l.punt, n - 1);
      LifSources(before, port, l, n - 1) + PuntWhen(line.0, line.1, port, l)
  }

  // ---- meaning ------------------------------------------------------------------

  predicate Tcp179(k: MatchKey, ethertype: Half, port: Half) {
    k.ethertype == ethertype && k.l3Proto == 6 && port == [0, 179]
  }

  predicate KindMatches(kind: PuntKind, k: MatchKey) {
    match kind
    case Arp => k.ethertype == [0x08, 0x06]
    case Nd => k.ethertype == [0x86, 0xDD] && k.l3Proto == 58
    case Lldp => k.ethertype == [0x88, 0xCC]
    case Icmp => k.ethertype == [0x08, 0x00] && k.l3Proto == 1
    case BgpDst4 => Tcp179(k, [0x08, 0x00], k.l4Dst)
    case BgpSrc4 => Tcp179(k, [0x08, 0x00], k.l4Src)
    case Ospf4 => k.ethertype == [0x08, 0x00] && k.l3Proto == 89
    case Ospf6 => k.ethertype == [0x86, 0xDD] && k.l3Proto == 89
    case BgpDst6 => Tcp179(k, [0x86, 0xDD], k.l4Dst)
    case BgpSrc6 => Tcp179(k, [0x86, 0xDD], k.l4Src)
    // IS-IS rides 802.3/LLC: DSAP = SSAP = 0xFE at the start of the LLC header.
    case IsIs => WindowByte(k, k.base) == 0xFE && WindowByte(k, k.base + 1) == 0xFE
  }

  /** Bitwise prefix match over all 128 bits. */
  predicate AddrMatches(addr: Addr6, p: V6Prefix) { MaskEq(addr, p.mask, p.addr) }

  /** The port number is four bits wide in the hardware, the VLAN id twelve. */
  predicate OnPort(k: MatchKey, port: u8) { k.ingress == port % 16 }
  predicate OnVlan(k: MatchKey, vlan: Half) {
    vlan != [0, 0] ==> k.vlanId[0] % 16 == vlan[0] % 16 && k.vlanId[1] == vlan[1]
  }

  /** Does the source rule ask for this frame? 0 in a field of the configuration means "any". */
  predicate SourceMatches(s: RuleSource, k: MatchKey) {
    match s
    case Punt(kind, port, vlan, _) => OnPort(k, port) && OnVlan(k, vlan) && KindMatches(kind, k)
    case Forward(port, _, r) =>
      && OnPort(k, port)
      && OnVlan(k, r.vlan)
      && (r.ethertype != [0, 0] ==> k.ethertype == r.ethertype)
      && (r.ipProto != 0 ==> k.l3Proto == r.ipProto)
      && (r.udpDst != [0, 0] ==> k.l4Dst == r.udpDst)
      && (r.ipv6Dst.Some? || r.ipv6Src.Some? ==> k.isIpv6)
      && (r.ipv6Dst.Some? ==> AddrMatches(k.ipv6Dst, r.ipv6Dst.value))
      && (r.ipv6Src.Some? ==> AddrMatches(k.ipv6Src, r.ipv6Src.value))
  }

  function SourcePrio(s: RuleSource): u8 {
    match s
    case Punt(kind, _, _, _) =>
      (match kind
       case Arp => 20
       case Nd => 20
       case Lldp => 20
       case Icmp => 25
       case _ => 30)
    case Forward(_, _, r) => r.priority
  }

  /** The rule row fields other than the care mask. */
  predicate RuleFields(r: Rule, s: RuleSource) {
    && r.lfid == ZERO_WORD
    && r.prio == SourcePrio(s)
    && match s
       case Punt(_, _, _, lif) => r.action == ACT_PUNT && r.egress == 0 && r.lif == Word32(lif)
       case Forward(_, egress, _) => r.action == ACT_FORWARD && r.egress == egress && r.lif == ZERO_WORD
  }

  // ---- conditions -----------------------------------------------------------------

  datatype Cond = Field(c: Cmp) | Window(u: Udf)

  predicate Holds(c: Cond, k: MatchKey) {
    match c
    case Field(c) => CmpHit(c, k)
    case Window(u) => UdfHit(u, k)
  }

  predicate AllHold(cs: seq<Cond>, k: MatchKey) { forall i | 0 <= i < |cs| :: Holds(cs[i], k) }

  function OnlyIf(b: bool, c: Cond): seq<Cond> { if b then [c] else [] }

  function PortCond(port: u8): Cond { Field(Cmp(SRC_INGRESS, [0, 0, 0, 0x0F], [0, 0, 0, port])) }
  function VlanCond(vlan: Half): Cond { Field(Cmp(SRC_VLAN, [0, 0, 0x0F, 0xFF], [0, 0] + vlan)) }
  function EthCond(eth: Half): Cond { Field(Cmp(SRC_ETHERTYPE, [0, 0, 0xFF, 0xFF], [0, 0] + eth)) }
  function ProtoCond(p: u8): Cond { Field(Cmp(SRC_L3_PROTO, [0, 0, 0, 0xFF], [0, 0, 0, p])) }
  function L4Cond(lane: u8, p: Half): Cond { Field(Cmp(lane, [0, 0, 0xFF, 0xFF], [0, 0] + p)) }
  function UdfCond(off: u16, v: Word): Cond { Window(Udf(off, [0xFF, 0xFF, 0, 0], v)) }
  function Ipv6Cond(): Cond { Field(Cmp(SRC_FLAGS, FLAG_IS_IPV6, FLAG_IS_IPV6)) }

  /** The arguments one PUNT(...) line passes to add_punt_rule. */
  datatype PuntArgs = PuntArgs(eth: Half, proto: u8, lane: u8, l4Port: Half, udfOff: u16, udfVal: Word, prio: u8)

  function ArgsOf(kind: PuntKind): PuntArgs {
    match kind
    case Arp => PuntArgs([0x08, 0x06], 0, 0, [0, 0], 0, ZERO_WORD, 20)
    case Nd => PuntArgs([0x86, 0xDD], 58, 0, [0, 0], 0, ZERO_WORD, 20)
    case Lldp => PuntArgs([0x88, 0xCC], 0, 0, [0, 0], 0, ZERO_WORD, 20)
    case Icmp => PuntArgs([0x08, 0x00], 1, 0, [0, 0], 0, ZERO_WORD, 25)
    case BgpDst4 => PuntArgs([0x08, 0x00], 6, SRC_L4_DST, [0, 179], 0, ZERO_WORD, 30)
    case BgpSrc4 => PuntArgs([0x08, 0x00], 6, SRC_L4_SRC, [0, 179], 0, ZERO_WORD, 30)
    case Ospf4 => PuntArgs([0x08, 0x00], 89, 0, [0, 0], 0, ZERO_WORD, 30)
    case Ospf6 => PuntArgs([0x86, 0xDD], 89, 0, [0, 0], 0, ZERO_WORD, 30)
    case BgpDst6 => PuntArgs([0x86, 0xDD], 6, SRC_L4_DST, [0, 179], 0, ZERO_WORD, 30)
    case BgpSrc6 => PuntArgs([0x86, 0xDD], 6, SRC_L4_SRC, [0, 179], 0, ZERO_WORD, 30)
    case IsIs => PuntArgs([0, 0], 0, 0, [0, 0], 0, [0xFE, 0xFE, 0, 0], 30)
  }

  /** The conditions every rule can have: ingress port, VLAN, ethertype, protocol, one L4 port. */
  function HeadConds(port: u8, vlan: Half, eth: Half, proto: u8, lane: u8, l4: Half): seq<Cond> {
    [PortCond(port)] + OnlyIf(vlan != [0, 0], VlanCond(vlan)) + OnlyIf(eth != [0, 0], EthCond(eth))
    + OnlyIf(proto != 0, ProtoCond(proto)) + OnlyIf(l4 != [0, 0], L4Cond(lane, l4))
  }

  function PuntConds(port: u8, vlan: Half, a: PuntArgs): seq<Cond> {
    HeadConds(port, vlan, a.eth, a.proto, a.lane, a.l4Port)
    + OnlyIf(a.udfVal != ZERO_WORD, UdfCond(a.udfOff, a.udfVal))
  }

  const DST_SEL: seq<u8> := [SRC_IPV6_DST_3, SRC_IPV6_DST_2, SRC_IPV6_DST_1, SRC_IPV6_DST_0]
  const SRC_SEL: seq<u8> := [SRC_IPV6_SRC_3, SRC_IPV6_SRC_2, SRC_IPV6_SRC_1, SRC_IPV6_SRC_0]

  function AddrCond(p: V6Prefix, sel: seq<u8>, w: nat): Cond
    requires w < 4 == |sel|
  {
    var m := AddrWord(p.mask, w);
    Field(Cmp(sel[w], m, AndAll(AddrWord(p.addr, w), m)))
  }

  /** One comparator per address word, none for a word whose mask is zero. */
  function AddrConds(p: V6Prefix, sel: seq<u8>, n: nat): seq<Cond>
    requires n <= 4 == |sel|
  {
    if n == 0 then []
    else AddrConds(p, sel, n - 1) + OnlyIf(AddrWord(p.mask, n - 1) != ZERO_WORD, AddrCond(p, sel, n - 1))
  }

  function PrefixConds(p: Option<V6Prefix>, sel: seq<u8>): seq<Cond>
    requires |sel| == 4
  {
    if p.Some? then AddrConds(p.value, sel, |sel|) else []
  }

  function ForwardConds(port: u8, r: ForwardRule): seq<Cond> {
    HeadConds(port, r.vlan, r.ethertype, r.ipProto, SRC_L4_DST, r.udpDst)
    + OnlyIf(r.ipv6Dst.Some? || r.ipv6Src.Some?, Ipv6Cond())
    + PrefixConds(r.ipv6Dst, DST_SEL) + PrefixConds(r.ipv6Src, SRC_SEL)
  }

  function SourceConds(s: RuleSource): seq<Cond> {
    match s
    case Punt(kind, port, vlan, _) => PuntConds(port, vlan, ArgsOf(kind))
    case Forward(port, _, r) => ForwardConds(port, r)
  }

  // ---- conditions mean what the source asks ---------------------------------------

  lemma AllHoldConcat(a: seq<Cond>, b: seq<Cond>, k: MatchKey)
    ensures AllHold(a + b, k) <==> AllHold(a, k) && AllHold(b, k)
  {
    forall i | 0 <= i < |a| ensures (a + b)[i] == a[i] {}
    forall i | 0 <= i < |b| ensures (a + b)[|a| + i] == b[i] {}
    if AllHold(a + b, k) {
      forall i | 0 <= i < |b| ensures Holds(b[i], k) { assert Holds((a + b)[|a| + i], k); }
      forall i | 0 <= i < |a| ensures Holds(a[i], k) { assert Holds((a + b)[i], k); }
    }
  }

  lemma AllHoldOnlyIf(b: bool, c: Cond, k: MatchKey)
    ensures AllHold(OnlyIf(b, c), k) <==> (b ==> Holds(c, k))
  {
    if b && AllHold(OnlyIf(b, c), k) {
      assert Holds(OnlyIf(b, c)[0], k);
    }
  }

  lemma AllHoldSnoc(cs: seq<Cond>, b: bool, c: Cond, k: MatchKey)
    ensures AllHold(cs + OnlyIf(b, c), k) <==> AllHold(cs, k) && (b ==> Holds(c, k))
  {
    AllHoldConcat(cs, OnlyIf(b, c), k);
    AllHoldOnlyIf(b, c, k);
  }

  /** A comparison of the low byte under mask m. */
  lemma ByteCondMeans(x: u8, m: u8, y: u8)
    ensures MaskEq([0, 0, 0, x], [0, 0, 0, m], [0, 0, 0, y]) <==> And(x, m) == And(y, m)
  {
    var a, mm, b := [0, 0, 0, x], [0, 0, 0, m], [0, 0, 0, y];
    assert MaskEq(a, mm, b) <==> And(a[3], mm[3]) == And(b[3], mm[3]);
  }

  lemma NibbleEq(x: u8, y: u8)
    ensures And(x, 0x0F) == And(y, 0x0F) <==> x % 16 == y % 16
  {
    NibbleMask(x);
    NibbleMask(y);
  }

  lemma LowNibbleMeans(x: u8, y: u8)
    ensures MaskEq([0, 0, 0, x], [0, 0, 0, 0x0F], [0, 0, 0, y]) <==> x % 16 == y % 16
  {
    ByteCondMeans(x, 0x0F, y);
    NibbleEq(x, y);
  }

  lemma LowByteMeans(x: u8, y: u8)
    ensures MaskEq([0, 0, 0, x], [0, 0, 0, 0xFF], [0, 0, 0, y]) <==> x == y
  {
    ByteCondMeans(x, 0xFF, y);
    ByteMask(x);
    ByteMask(y);
  }

  lemma LowTwelveMeans(x: Half, y: Half)
    ensures MaskEq([0, 0] + x, [0, 0, 0x0F, 0xFF], [0, 0] + y) <==> x[0] % 16 == y[0] % 16 && x[1] == y[1]
  {
    HalfCondMeans(x, 0x0F, y);
    NibbleEq(x[0], y[0]);
  }

  lemma PortCondMeans(k: MatchKey, port: u8)
    ensures Holds(PortCond(port), k) <==> OnPort(k, port)
  {
    LowNibbleMeans(k.ingress, port);
    LanesAre(k);
  }

  /** The lanes the head conditions look at. */
  lemma LanesAre(k: MatchKey)
    ensures Lane(k, SRC_INGRESS) == [0, 0, 0, k.ingress] && Lane(k, SRC_VLAN) == [0, 0] + VlanLane(k)
  {}

  lemma VlanCondMeans(k: MatchKey, vlan: Half)
    ensures Holds(VlanCond(vlan), k) <==> k.vlanId[0] % 16 == vlan[0] % 16 && k.vlanId[1] == vlan[1]
  {
    var v := VlanLane(k);
    LanesAre(k);
    LowTwelveMeans(v, vlan);
    VlanLaneId(k);
  }

  lemma VlanLaneId(k: MatchKey)
    ensures VlanLane(k)[0] % 16 == k.vlanId[0] % 16 && VlanLane(k)[1] == k.vlanId[1]
  {}

  /** A comparison of the low 16 bits, the high one of the two bytes under mask m. */
  lemma HalfCondMeans(x: Half, m: u8, y: Half)
    ensures MaskEq([0, 0] + x, [0, 0, m, 0xFF], [0, 0] + y) <==> And(x[0], m) == And(y[0], m) && x[1] == y[1]
  {
    var a, mm, b := [0, 0] + x, [0, 0, m, 0xFF], [0, 0] + y;
    ByteMask(x[1]);
    ByteMask(y[1]);
    assert a[2] == x[0] && a[3] == x[1] && b[2] == y[0] && b[3] == y[1];
    assert MaskEq(a, mm, b) <==> And(a[2], mm[2]) == And(b[2], mm[2]) && And(a[3], mm[3]) == And(b[3], mm[3]);
  }

  lemma FullHalfMeans(x: Half, y: Half)
    ensures MaskEq([0, 0] + x, [0, 0, 0xFF, 0xFF], [0, 0] + y) <==> x == y
  {
    HalfCondMeans(x, 0xFF, y);
    ByteMask(x[0]);
    ByteMask(y[0]);
  }

  lemma FieldCondMeans(k: MatchKey, x: Half, p: u8)
    ensures Holds(EthCond(x), k) <==> k.ethertype == x
    ensures Holds(ProtoCond(p), k) <==> k.l3Proto == p
    ensures Holds(L4Cond(SRC_L4_DST, x), k) <==> k.l4Dst == x
    ensures Holds(L4Cond(SRC_L4_SRC, x), k) <==> k.l4Src == x
  {
    FullHalfMeans(k.ethertype, x);
    FullHalfMeans(k.l4Dst, x);
    FullHalfMeans(k.l4Src, x);
    LowByteMeans(k.l3Proto, p);
  }

  lemma HighHalfMeans(a: Word, x: u8, y: u8)
    ensures MaskEq(a, [0xFF, 0xFF, 0, 0], [x, y, 0, 0]) <==> a[0] == x && a[1] == y
  {
    var m, b := [0xFF, 0xFF, 0, 0], [x, y, 0, 0];
    ByteMask(a[0]);
    ByteMask(a[1]);
    ByteMask(x);
    ByteMask(y);
    assert MaskEq(a, m, b) <==> And(a[0], m[0]) == And(b[0], m[0]) && And(a[1], m[1]) == And(b[1], m[1]);
  }

  lemma UdfCondMeans(k: MatchKey)
    ensures Holds(UdfCond(0, [0xFE, 0xFE, 0, 0]), k) <==> KindMatches(IsIs, k)
  {
    HighHalfMeans(UdfLane(k, 0), 0xFE, 0xFE);
  }

  lemma Ipv6CondMeans(k: MatchKey)
    ensures Holds(Ipv6Cond(), k) <==> k.isIpv6
  {
    var l := Lane(k, SRC_FLAGS);
    var c := Ipv6Cond().c;
    assert l == [0, 0, FlagsHigh(k), FlagsLow(k)];
    FlagBit(k);
    BitThree(0, 1, 0);
    assert Holds(Ipv6Cond(), k) <==> And(l[3], c.mask[3]) == And(c.value[3], c.mask[3]);
  }

  lemma FlagBit(k: MatchKey)
    ensures And(FlagsLow(k), 8) == Flag(k.isIpv6, 8)
  {
    var low := Flag(k.isTest, 0x1) + Flag(k.isArp, 0x2) + Flag(k.isIpv4, 0x4);
    var high := Flag(k.isTcp, 1) + Flag(k.isUdp, 2) + Flag(k.isIcmp, 4) + Flag(k.isIcmp6, 8);
    BitThree(low, if k.isIpv6 then 1 else 0, high);
  }

  lemma BitThree(low: nat, bit: nat, high: nat)
    requires low < 8 && bit < 2
    ensures And(low + 8 * bit + 16 * high, 8) == 8 * bit
  {
    var f := low + 8 * bit + 16 * high;
    var f1 := f / 2;
    var f2 := f1 / 2;
    var f3 := f2 / 2;
    assert f3 == bit + 2 * high;
    assert And(f3, 1) == bit;
    assert And(f2, 2) == 2 * And(f3, 1);
    assert And(f1, 4) == 2 * And(f2, 2);
  }

  /** The selectors name the four words of this address, highest first. */
  predicate Selects(k: MatchKey, sel: seq<u8>, addr: Addr6) {
    |sel| == 4 && forall w | 0 <= w < 4 :: Lane(k, sel[w]) == AddrWord(addr, w)
  }

  /** One address word's comparator, or its absence when the mask word is zero. */
  lemma AddrCondMeans(k: MatchKey, addr: Addr6, p: V6Prefix, sel: seq<u8>, w: nat)
    requires w < 4 && Selects(k, sel, addr)
    ensures (AddrWord(p.mask, w) != ZERO_WORD ==> Holds(AddrCond(p, sel, w), k))
            <==> WordMatches(addr, p, w)
  {
    var m, a := AddrWord(p.mask, w), AddrWord(p.addr, w);
    forall i | 0 <= i < 4 ensures And(AndAll(a, m)[i], m[i]) == And(a[i], m[i]) {
      AndTwice(a[i], m[i]);
    }
  }

  predicate WordMatches(addr: Addr6, p: V6Prefix, w: nat)
    requires w < 4
  {
    MaskEq(AddrWord(addr, w), AddrWord(p.mask, w), AddrWord(p.addr, w))
  }

  /** The first n words match. */
  predicate WordsMatch(addr: Addr6, p: V6Prefix, n: nat)
    requires n <= 4
  {
    forall w | 0 <= w < n :: WordMatches(addr, p, w)
  }

  lemma WordsMatchStep(addr: Addr6, p: V6Prefix, n: nat)
    requires 0 < n <= 4
    ensures WordsMatch(addr, p, n) <==> WordsMatch(addr, p, n - 1) && WordMatches(addr, p, n - 1)
  {}

  lemma {:induction false} AddrCondsMean(k: MatchKey, addr: Addr6, p: V6Prefix, sel: seq<u8>, n: nat)
    requires n <= 4 && Selects(k, sel, addr)
    ensures AllHold(AddrConds(p, sel, n), k) <==> WordsMatch(addr, p, n)
  {
    if n > 0 {
      AddrCondsMean(k, addr, p, sel, n - 1);
      AllHoldSnoc(AddrConds(p, sel, n - 1), AddrWord(p.mask, n - 1) != ZERO_WORD, AddrCond(p, sel, n - 1), k);
      AddrCondMeans(k, addr, p, sel, n - 1);
      WordsMatchStep(addr, p, n);
    }
  }

  /** The at most four 32-bit comparators together are the 128-bit prefix match. */
  lemma PrefixMeans(k: MatchKey, addr: Addr6, p: Option<V6Prefix>, sel: seq<u8>)
    requires Selects(k, sel, addr)
    ensures AllHold(PrefixConds(p, sel), k) <==> (p.Some? ==> AddrMatches(addr, p.value))
  {
    if p.Some? {
      AddrCondsMean(k, addr, p.value, sel, |sel|);
      WordsCover(addr, p.value);
    }
  }

  lemma WordsCover(addr: Addr6, p: V6Prefix)
    ensures WordsMatch(addr, p, 4) <==> AddrMatches(addr, p)
  {
    if WordsMatch(addr, p, 4) {
      forall i | 0 <= i < 16 ensures And(addr[i], p.mask[i]) == And(p.addr[i], p.mask[i]) {
        var w, j := i / 4, i % 4;
        assert WordMatches(addr, p, w);
        assert AddrWord(addr, w)[j] == addr[i] && AddrWord(p.mask, w)[j] == p.mask[i]
                 && AddrWord(p.addr, w)[j] == p.addr[i];
      }
    }
  }

  lemma HeadMeans(port: u8, vlan: Half, eth: Half, proto: u8, lane: u8, l4: Half, k: MatchKey)
    requires lane == SRC_L4_DST || lane == SRC_L4_SRC
    ensures AllHold(HeadConds(port, vlan, eth, proto, lane, l4), k) <==>
            && OnPort(k, port)
            && OnVlan(k, vlan)
            && (eth != [0, 0] ==> k.ethertype == eth)
            && (proto != 0 ==> k.l3Proto == proto)
            && (l4 != [0, 0] ==> (if lane == SRC_L4_DST then k.l4Dst else k.l4Src) == l4)
  {
    var c0 := [PortCond(port)];
    var c1 := c0 + OnlyIf(vlan != [0, 0], VlanCond(vlan));
    var c2 := c1 + OnlyIf(eth != [0, 0], EthCond(eth));
    var c3 := c2 + OnlyIf(proto != 0, ProtoCond(proto));
    AllHoldOnlyIf(true, PortCond(port), k);
    AllHoldSnoc(c0, vlan != [0, 0], VlanCond(vlan), k);
    AllHoldSnoc(c1, eth != [0, 0], EthCond(eth), k);
    AllHoldSnoc(c2, proto != 0, ProtoCond(proto), k);
    AllHoldSnoc(c3, l4 != [0, 0], L4Cond(lane, l4), k);
    PortCondMeans(k, port);
    VlanCondMeans(k, vlan);
    FieldCondMeans(k, eth, proto);
    FieldCondMeans(k, l4, proto);
  }

  /** What the arguments of a PUNT line ask for, beside port and VLAN. */
  predicate ArgsHold(a: PuntArgs, k: MatchKey) {
    && (a.eth != [0, 0] ==> k.ethertype == a.eth)
    && (a.proto != 0 ==> k.l3Proto == a.proto)
    && (a.l4Port != [0, 0] ==> (if a.lane == SRC_L4_DST then k.l4Dst else k.l4Src) == a.l4Port)
    && (a.udfVal != ZERO_WORD ==> Holds(UdfCond(a.udfOff, a.udfVal), k))
  }

  predicate LaneOk(a: PuntArgs) { a.lane == SRC_L4_DST || a.lane == SRC_L4_SRC }

  lemma PuntCondsMean(port: u8, vlan: Half, a: PuntArgs, k: MatchKey)
    requires LaneOk(a)
    ensures AllHold(PuntConds(port, vlan, a), k) <==> OnPort(k, port) && OnVlan(k, vlan) && ArgsHold(a, k)
  {
    HeadMeans(port, vlan, a.eth, a.proto, a.lane, a.l4Port, k);
    AllHoldSnoc(HeadConds(port, vlan, a.eth, a.proto, a.lane, a.l4Port), a.udfVal != ZERO_WORD,
                UdfCond(a.udfOff, a.udfVal), k);
  }

  /** Each PUNT line's arguments describe its protocol. */
  lemma ArgsMean(kind: PuntKind, k: MatchKey)
    ensures LaneOk(ArgsOf(kind)) && (ArgsHold(ArgsOf(kind), k) <==> KindMatches(kind, k))
  {
    UdfCondMeans(k);
  }

  lemma PuntMeans(kind: PuntKind, port: u8, vlan: Half, lif: u32, k: MatchKey)
    ensures AllHold(SourceConds(Punt(kind, port, vlan, lif)), k) <==> SourceMatches(Punt(kind, port, vlan, lif), k)
  {
    PuntCondsMean(port, vlan, ArgsOf(kind), k);
    ArgsMean(kind, k);
  }

  lemma SelectorsNameAddresses(k: MatchKey)
    ensures Selects(k, DST_SEL, k.ipv6Dst) && Selects(k, SRC_SEL, k.ipv6Src)
  {}

  /** The IPv6 part of a forward rule, behind any other conditions. */
  lemma V6TailMeans(c4: seq<Cond>, r: ForwardRule, k: MatchKey)
    ensures AllHold(c4 + OnlyIf(r.ipv6Dst.Some? || r.ipv6Src.Some?, Ipv6Cond())
                    + PrefixConds(r.ipv6Dst, DST_SEL) + PrefixConds(r.ipv6Src, SRC_SEL), k) <==>
            && AllHold(c4, k)
            && (r.ipv6Dst.Some? || r.ipv6Src.Some? ==> k.isIpv6)
            && (r.ipv6Dst.Some? ==> AddrMatches(k.ipv6Dst, r.ipv6Dst.value))
            && (r.ipv6Src.Some? ==> AddrMatches(k.ipv6Src, r.ipv6Src.value))
  {
    var v6 := r.ipv6Dst.Some? || r.ipv6Src.Some?;
    var c5 := c4 + OnlyIf(v6, Ipv6Cond());
    var d, s := PrefixConds(r.ipv6Dst, DST_SEL), PrefixConds(r.ipv6Src, SRC_SEL);
    AllHoldSnoc(c4, v6, Ipv6Cond(), k);
    AllHoldConcat(c5, d, k);
    AllHoldConcat(c5 + d, s, k);
    Ipv6CondMeans(k);
    SelectorsNameAddresses(k);
    PrefixMeans(k, k.ipv6Dst, r.ipv6Dst, DST_SEL);
    PrefixMeans(k, k.ipv6Src, r.ipv6Src, SRC_SEL);
  }

  lemma ForwardMeans(port: u8, egress: u8, r: ForwardRule, k: MatchKey)
    ensures AllHold(SourceConds(Forward(port, egress, r)), k) <==> SourceMatches(Forward(port, egress, r), k)
  {
    HeadMeans(port, r.vlan, r.ethertype, r.ipProto, SRC_L4_DST, r.udpDst, k);
    V6TailMeans(HeadConds(port, r.vlan, r.ethertype, r.ipProto, SRC_L4_DST, r.udpDst), r, k);
  }

  /** The comparators emitted for a rule hold together exactly when the rule asks for the frame. */
  lemma SourceMeans(s: RuleSource, k: MatchKey)
    ensures AllHold(SourceConds(s), k) <==> SourceMatches(s, k)
  {
    match s
    case Punt(kind, port, vlan, lif) => PuntMeans(kind, port, vlan, lif, k);
    case Forward(port, egress, r) => ForwardMeans(port, egress, r, k);
  }
}
