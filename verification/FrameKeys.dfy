/**
 What the receive parser makes of a generated frame: it recovers exactly the fields the
 generator put in, through tag and tunnel.
 */
module FrameKeys {
  import opened Basics
  import opened Config
  import opened Classifier
  import opened HashKeys
  import opened FlowRows
  import opened Modifiers
  import opened Frames
  import opened Parser

  // ---- L2 -----------------------------------------------------------------------------------------------

  /** An Ethernet head as generated: MACs, optional tag, ethertype. */
  lemma UntaggedL2(b: Bytes, was: Bytes, et: Half)
    requires |b| >= 14 && b[12..14] == et
    requires et != [0x81, 0x00] || |b| < 18
    requires (et == [0x88, 0xA8] || et == [0x91, 0x00]) && |b| >= 22 ==> b[16..18] != [0x81, 0x00]
    ensures ParseL2(b, was) == L2Info(false, [0, 0], false, et, 14)
  {
    CutIs(b, was, 12, 2);
    if |b| >= 22 { CutIs(b, was, 16, 2); }
  }

  lemma TaggedL2(b: Bytes, was: Bytes, tci: Half, et: Half)
    requires |b| >= 18 && b[12..14] == [0x81, 0x00] && b[14..16] == tci && b[16..18] == et
    ensures ParseL2(b, was) == L2Info(true, [tci[0] % 16, tci[1]], false, et, 18)
  {
    CutIs(b, was, 12, 2);
    CutIs(b, was, 16, 2);
    assert b[14] == tci[0] && b[15] == tci[1] by { assert b[14..16][0] == b[14] && b[14..16][1] == b[15]; }
  }

  /** The VLAN id the key carries: 0 for an untagged flow. */
  function KeyVlan(f: Flow, n: u32): Half { if f.l2.vlanSet then VlanId(f, n) else [0, 0] }

  function OuterType(f: Flow): Half {
    if Tunnelled(f) then EtherTypeOf(f.encap.value.outer.Outer6?) else InnerType(f)
  }

  /** The four bytes of a tag, when there is one. */
  lemma TagBytes(f: Flow, n: u32)
    requires f.l2.vlanSet
    ensures EthHead(f, n)[12..14] == [0x81, 0x00] && EthHead(f, n)[14..16] == Tci(f.l2.pcp, VlanId(f, n))
  {
    var m, t := DstMac(f, n) + SrcMac(f, n), Tci(f.l2.pcp, VlanId(f, n));
    assert EthHead(f, n) == m + ([0x81, 0x00] + t);
  }

  lemma TciId(pcp: u8, vlan: Half)
    requires vlan[0] < 16
    ensures var t := Tci(pcp, vlan); [t[0] % 16, t[1]] == vlan
  {}

  lemma MiddleType(f: Flow)
    requires !f.traffic.template.L2Raw?
    ensures Middle(f)[0..2] == OuterType(f)
  {
    if Tunnelled(f) { assert Middle(f) == OuterType(f) + (OuterIp(f) + Tunnel(f)); }
  }

  lemma L2Parses(f: Flow, n: u32, b: Bytes, was: Bytes)
    requires !f.traffic.template.L2Raw? && At(b, 0, EthHead(f, n)) && At(b, 12 + TagLen(f), Middle(f))
    ensures ParseL2(b, was) == L2Info(f.l2.vlanSet, KeyVlan(f, n), false, OuterType(f), L3Off(f))
  {
    MiddleType(f);
    AtSlice(b, 12 + TagLen(f), Middle(f), 0, 2);
    if f.l2.vlanSet {
      TagBytes(f, n);
      AtSlice(b, 0, EthHead(f, n), 12, 14);
      AtSlice(b, 0, EthHead(f, n), 14, 16);
      TciId(f.l2.pcp, VlanId(f, n));
      TaggedL2(b, was, Tci(f.l2.pcp, VlanId(f, n)), OuterType(f));
    } else {
      UntaggedL2(b, was, OuterType(f));
    }
  }

  // ---- descent --------------------------------------------------------------------------------------------

  /** No descent for a transport protocol or the experimental one. */
  lemma NoTunnel(b: Bytes, was: Bytes, l3: nat, v6: bool, proto: u8)
    requires l3 + IpHeaderLen(v6) <= |b| && l3 + 40 <= HDR_BYTES && ProtoAt(b, l3, v6) == proto
    requires proto == 6 || proto == 17 || proto == 0xFD
    ensures Descend(b, was, l3, !v6, v6) == Inner(l3, !v6, v6)
  {}

  lemma IntoTunnel(b: Bytes, was: Bytes, l3: nat, v6: bool, kind: EncapKind, inner6: bool, t: Bytes)
    requires l3 <= 18 && l3 + IpHeaderLen(v6) + |t| <= |b| && |t| == TunnelLen(kind)
    requires !v6 ==> b[l3] == 0x45
    requires At(b, l3 + IpHeaderLen(v6), t)
    requires ProtoAt(b, l3, v6) == match kind case Ipip => (if inner6 then 41 else 4) case Gre => 47 case EtherIp => 97
    requires kind == Gre ==> t[0] == 0 && t[1] == 0 && t[2..4] == EtherTypeOf(inner6)
    requires kind == EtherIp ==> t[14..16] == EtherTypeOf(inner6)
    ensures Descend(b, was, l3, !v6, v6) == Inner(l3 + IpHeaderLen(v6) + |t|, !inner6, inner6)
  {
    OuterHeadIs(b, was, l3, v6);
    match kind {
      case Ipip =>
      case Gre => GreHead(b, was, l3 + IpHeaderLen(v6), t);
      case EtherIp => EtherIpHead(b, was, l3 + IpHeaderLen(v6), t);
    }
  }

  lemma OuterHeadIs(b: Bytes, was: Bytes, l3: nat, v6: bool)
    requires l3 <= 18 && l3 + IpHeaderLen(v6) <= |b| && (!v6 ==> b[l3] == 0x45)
    ensures OuterHead(b, was, l3, !v6, v6) == (ProtoAt(b, l3, v6), IpHeaderLen(v6))
  {}

  lemma GreHead(b: Bytes, was: Bytes, o: nat, t: Bytes)
    requires o <= 60 && |t| == 4 && At(b, o, t) && t[0] == 0 && t[1] == 0
    ensures Hdr(b, was, o) == 0 && Hdr(b, was, o + 1) == 0 && Cut(b, was, o + 2, 2) == t[2..4]
  {
    AtByte(b, o, t, 0);
    AtByte(b, o, t, 1);
    AtSlice(b, o, t, 2, 4);
    CutIs(b, was, o + 2, 2);
  }

  lemma EtherIpHead(b: Bytes, was: Bytes, o: nat, t: Bytes)
    requires o <= 60 && |t| == 16 && At(b, o, t)
    ensures Cut(b, was, o + 14, 2) == t[14..16]
  {
    AtSlice(b, o, t, 14, 16);
    CutIs(b, was, o + 14, 2);
  }

  lemma TunnelFields(f: Flow)
    requires f.encap.Some?
    ensures var t, kind := Tunnel(f), f.encap.value.kind;
            && (kind == Gre ==> t[0] == 0 && t[1] == 0 && t[2..4] == InnerType(f))
            && (kind == EtherIp ==> t[14..16] == InnerType(f))
  {
    if f.encap.value.kind == EtherIp {
      assert Tunnel(f) == [0x30, 0x00] + InnerMacs(f) + InnerType(f);
    }
  }

  lemma DescendsTo(f: Flow, n: u32, b: Bytes, was: Bytes)
    requires !f.traffic.template.L2Raw? && |b| == FrameLen(f)
    requires At(b, Prefix(f), InnerIp(f, n))
    requires Tunnelled(f) ==>
               At(b, L3Off(f), OuterIp(f)) && At(b, L3Off(f) + OuterHeaderLen(f.encap.value.outer), Tunnel(f))
    ensures Descend(b, was, L3Off(f), OuterType(f) == [0x08, 0x00], OuterType(f) == [0x86, 0xDD])
         == Inner(Prefix(f), f.ip6.None?, f.ip6.Some?)
  {
    if Tunnelled(f) {
      var v6 := f.encap.value.outer.Outer6?;
      OuterIpValid(f, b);
      TunnelFields(f);
      IntoTunnel(b, was, L3Off(f), v6, f.encap.value.kind, f.ip6.Some?, Tunnel(f));
    } else {
      InnerIpValid(f, n, b);
      NoTunnel(b, was, L3Off(f), f.ip6.Some?, IpProto(f));
    }
  }

  // ---- inner L3 and L4 -------------------------------------------------------------------------------------

  predicate HasL4(f: Flow) { !f.traffic.template.L2Raw? && !f.traffic.template.L3Raw? }

  function L4Off(f: Flow): nat { Prefix(f) + InnerIpLen(f) }

  function L3Key(f: Flow, n: u32): L3Info {
    var l4 := if HasL4(f) then Some(L4Off(f)) else None;
    if f.ip6.Some? then L3Info(true, IpProto(f), ZERO_WORD, ZERO_WORD, SrcIp6(f, n), DstIp6(f, n), l4)
    else L3Info(true, IpProto(f), SrcIp4(f, n), DstIp4(f, n), ZERO_ADDR, ZERO_ADDR, l4)
  }

  function L4Behind(proto: u8, off: nat): Option<nat> { if proto == 6 || proto == 17 then Some(off) else None }

  lemma Ip4Parses(b: Bytes, was: Bytes, e: nat, src: Word, dst: Word, et: Half)
    requires e <= 80 && Ip4Valid(b, e) && AddressesAt(b, e, false) == src + dst
    ensures ParseL3(b, was, Inner(e, true, false), et)
         == L3Info(true, ProtoAt(b, e, false), src, dst, ZERO_ADDR, ZERO_ADDR, L4Behind(ProtoAt(b, e, false), e + 20))
  {
    CutIs(b, was, e + 12, 4);
    CutIs(b, was, e + 16, 4);
    var a := b[e + 12..e + 20];
    assert b[e + 12..e + 16] == a[..4] && b[e + 16..e + 20] == a[4..];
  }

  lemma Ip6Parses(b: Bytes, was: Bytes, e: nat, src: Addr6, dst: Addr6, et: Half)
    requires e <= 80 && Ip6Valid(b, e) && AddressesAt(b, e, true) == src + dst
    ensures ParseL3(b, was, Inner(e, false, true), et)
         == L3Info(true, ProtoAt(b, e, true), ZERO_WORD, ZERO_WORD, src, dst, L4Behind(ProtoAt(b, e, true), e + 40))
  {
    CutIs(b, was, e + 8, 16);
    CutIs(b, was, e + 24, 16);
    var a := b[e + 8..e + 40];
    assert b[e + 8..e + 24] == a[..16] && b[e + 24..e + 40] == a[16..];
  }

  lemma L3Parses(f: Flow, n: u32, b: Bytes, was: Bytes, et: Half)
    requires !f.traffic.template.L2Raw? && |b| == FrameLen(f) && At(b, Prefix(f), InnerIp(f, n))
    ensures ParseL3(b, was, Inner(Prefix(f), f.ip6.None?, f.ip6.Some?), et) == L3Key(f, n)
  {
    InnerIpValid(f, n, b);
    if f.ip6.Some? {
      Ip6Parses(b, was, Prefix(f), SrcIp6(f, n), DstIp6(f, n), et);
    } else {
      Ip4Parses(b, was, Prefix(f), SrcIp4(f, n), DstIp4(f, n), et);
    }
  }

  /** The ports, from the first four bytes of the segment. */
  lemma PortsParse(b: Bytes, was: Bytes, l: nat, s: Bytes, h: Bytes, t: Bytes, c: nat, init: nat)
    requires l <= 120 && At(b, l, s) && IsSegment(s, h, t, c, init) && c >= 6
    ensures Ports(b, was, Some(l)) == (h[0..2], h[2..4])
  {
    AtSlice(b, l, s, 0, 2);
    AtSlice(b, l, s, 2, 4);
    CutIs(b, was, l, 2);
    CutIs(b, was, l + 2, 2);
    assert s[0..2] == h[0..2] && s[2..4] == h[2..4];
  }

  /** The payload behind the transport header is found at its offset. */
  lemma TailAt(b: Bytes, l: nat, s: Bytes, h: Bytes, t: Bytes, c: nat, init: nat)
    requires At(b, l, s) && IsSegment(s, h, t, c, init)
    ensures At(b, l + |h|, t)
  {
    AtSlice(b, l, s, |h|, |s|);
    assert s[|h|..|s|] == t;
  }

  /** Magic, flow id and sequence number of a test header. */
  lemma TestParses(b: Bytes, was: Bytes, po: nat, t: Bytes)
    requires po + 32 <= HDR_BYTES && |t| == 32 && At(b, po, t)
    ensures Cut(b, was, po, 4) == t[0..4] && Cut(b, was, po + 8, 4) == t[8..12] && Cut(b, was, po + 12, 8) == t[12..20]
  {
    AtSlice(b, po, t, 0, 4);
    AtSlice(b, po, t, 8, 12);
    AtSlice(b, po, t, 12, 20);
    CutIs(b, was, po, 4);
    CutIs(b, was, po + 8, 4);
    CutIs(b, was, po + 12, 8);
  }

  lemma TestFields(f: Flow, n: u32)
    ensures var t := TestHeader(f, n);
            t[0..4] == TEST_MAGIC && t[8..12] == Word32(f.id) && t[12..20] == [0, 0, 0, 0] + Word32(n)
  {}

  /** What the parser finds behind the transport header: the test header, or only padding. */
  lemma PayloadParses(f: Flow, n: u32, b: Bytes, was: Bytes)
    requires HasL4(f) && |b| == FrameLen(f) && At(b, L4Off(f), Segment(f, n))
    ensures Ports(b, was, Some(L4Off(f))) == (SrcPort(f, n), DstPort(f, n))
    ensures At(b, L4Off(f) + L4HeaderLen(f), L4Tail(f, n))
  {
    SegmentFacts(f, n);
    L4HeaderFields(f, n);
    var init := PseudoSum(IpProto(f), IpPayloadLen(f), Addresses(f, n));
    PortsParse(b, was, L4Off(f), Segment(f, n), L4Header(f, n), L4Tail(f, n), CsumAt(f), init);
    TailAt(b, L4Off(f), Segment(f, n), L4Header(f, n), L4Tail(f, n), CsumAt(f), init);
  }

  lemma TestRecovered(f: Flow, n: u32, b: Bytes, was: Bytes)
    requires f.traffic.template.Test? && |b| == FrameLen(f) && At(b, L4Off(f) + L4HeaderLen(f), L4Tail(f, n))
    ensures var po := L4Off(f) + L4HeaderLen(f);
            && TestOff(b, Some(L4Off(f)), IsTcp(f)) == Some(po)
            && Cut(b, was, po, 4) == TEST_MAGIC && Cut(b, was, po + 8, 4) == Word32(f.id)
            && Cut(b, was, po + 12, 8) == [0, 0, 0, 0] + Word32(n)
  {
    var po, h := L4Off(f) + L4HeaderLen(f), TestHeader(f, n);
    var z := Zeros(IpPayloadLen(f) - L4HeaderLen(f) - 32);
    AtMiddle([], h, z);
    assert [] + h + z == h + z;
    AtTrans(b, po, L4Tail(f, n), 0, h);
    TestParses(b, was, po, h);
    TestFields(f, n);
  }

  /** Padding is not mistaken for a test header. */
  lemma PaddingIsNoTest(f: Flow, n: u32, b: Bytes, was: Bytes)
    requires f.traffic.template.L4Raw? && |b| == FrameLen(f) && At(b, L4Off(f) + L4HeaderLen(f), L4Tail(f, n))
    ensures var po := TestOff(b, Some(L4Off(f)), IsTcp(f));
            po.Some? ==> Cut(b, was, po.value, 4) == ZERO_WORD && Cut(b, was, po.value + 8, 4) == ZERO_WORD
  {
    var po, t := L4Off(f) + L4HeaderLen(f), L4Tail(f, n);
    if TestOff(b, Some(L4Off(f)), IsTcp(f)).Some? {
      AtSlice(b, po, t, 0, 4);
      AtSlice(b, po, t, 8, 12);
      CutIs(b, was, po, 4);
      CutIs(b, was, po + 8, 4);
    }
  }

  // ---- the key of a generated frame ----------------------------------------------------------------------

  /** The match key of packet n of a flow, from the flow's (modified) fields alone. */
  function FlowKey(f: Flow, n: u32, ingress: u4, window: Bytes): MatchKey {
    IpKey(ingress, L2Of(f, n), InnerOf(f), L3Key(f, n),
          if HasL4(f) then SrcPort(f, n) else [0, 0], if HasL4(f) then DstPort(f, n) else [0, 0],
          f.traffic.template.Test?, KeyFlowId(f), window)
  }

  /** A key with no ARP, ICMP or OSPF about it. */
  function IpKey(ingress: u4, l2: L2Info, inn: Inner, l3: L3Info, sp: Half, dp: Half, test: bool, id: Word,
                 window: Bytes): MatchKey {
    MatchKey(true, ingress, l2.vlanValid, l2.vlanId, l2.innerVlan, l2.ethertype, false, inn.v4, inn.v6,
             l3.proto == 6, l3.proto == 17, false, false, false, test,
             l3.proto, l3.src4, l3.dst4, l3.src6, l3.dst6, sp, dp, id, window, inn.off % 0x1_0000)
  }

  lemma SequenceFromParts(f: Flow, n: u32, b: Bytes, was: Bytes, ingress: u4, l2: L2Info, inn: Inner, l3: L3Info)
    requires f.traffic.template.Test? && |b| == FrameLen(f)
    requires At(b, L4Off(f) + L4HeaderLen(f), L4Tail(f, n))
    requires l3.l4 == Some(L4Off(f)) && l3.proto == IpProto(f)
    ensures KeyOf(b, was, ingress, l2, inn, l3).sequence == [0, 0, 0, 0] + Word32(n)
  {
    TestFound(f, n, b, was);
    SequenceIs(b, was, ingress, l2, inn, l3, TestOff(b, l3.l4, l3.proto == 6).value);
  }

  lemma SequenceIs(b: Bytes, was: Bytes, ingress: u4, l2: L2Info, inn: Inner, l3: L3Info, po: nat)
    requires TestOff(b, l3.l4, l3.proto == 6) == Some(po)
    ensures KeyOf(b, was, ingress, l2, inn, l3).sequence == Cut(b, was, po + 12, 8)
  {}

  lemma FieldsFromParts(f: Flow, n: u32, b: Bytes, was: Bytes, ingress: u4)
    requires !f.traffic.template.L2Raw? && |b| == FrameLen(f)
    requires HasL4(f) ==> Ports(b, was, Some(L4Off(f))) == (SrcPort(f, n), DstPort(f, n))
    requires HasL4(f) ==> At(b, L4Off(f) + L4HeaderLen(f), L4Tail(f, n))
    ensures KeyOf(b, was, ingress, L2Of(f, n), InnerOf(f), L3Key(f, n)).key
         == FlowKey(f, n, ingress, Cut(b, was, 0, HDR_BYTES))
  {
    TestFound(f, n, b, was);
    var sp, dp := if HasL4(f) then SrcPort(f, n) else [0, 0], if HasL4(f) then DstPort(f, n) else [0, 0];
    KeyOfIs(b, was, ingress, L2Of(f, n), InnerOf(f), L3Key(f, n), sp, dp, f.traffic.template.Test?, KeyFlowId(f));
  }

  lemma KeyFromParts(f: Flow, n: u32, b: Bytes, was: Bytes, ingress: u4)
    requires !f.traffic.template.L2Raw? && |b| == FrameLen(f)
    requires HasL4(f) ==> Ports(b, was, Some(L4Off(f))) == (SrcPort(f, n), DstPort(f, n))
    requires HasL4(f) ==> At(b, L4Off(f) + L4HeaderLen(f), L4Tail(f, n))
    ensures var p := KeyOf(b, was, ingress, L2Of(f, n), InnerOf(f), L3Key(f, n));
            && p.key == FlowKey(f, n, ingress, Cut(b, was, 0, HDR_BYTES))
            && (f.traffic.template.Test? ==> p.sequence == [0, 0, 0, 0] + Word32(n))
  {
    FieldsFromParts(f, n, b, was, ingress);
    if f.traffic.template.Test? { SequenceFromParts(f, n, b, was, ingress, L2Of(f, n), InnerOf(f), L3Key(f, n)); }
  }

  function KeyFlowId(f: Flow): Word { if f.traffic.template.Test? then Word32(f.id) else ZERO_WORD }

  /** Whether the parser takes what is behind the transport header for a test header, and the flow id it reads. */
  predicate TestSeen(b: Bytes, was: Bytes, po: Option<nat>, test: bool, id: Word) {
    && (test <==> po.Some? && Cut(b, was, po.value, 4) == TEST_MAGIC)
    && id == if po.Some? then Cut(b, was, po.value + 8, 4) else ZERO_WORD
  }

  lemma TestFound(f: Flow, n: u32, b: Bytes, was: Bytes)
    requires !f.traffic.template.L2Raw? && |b| == FrameLen(f)
    requires HasL4(f) ==> At(b, L4Off(f) + L4HeaderLen(f), L4Tail(f, n))
    ensures var po := TestOff(b, if HasL4(f) then Some(L4Off(f)) else None, IpProto(f) == 6);
            && TestSeen(b, was, po, f.traffic.template.Test?, KeyFlowId(f))
            && (f.traffic.template.Test? ==> po.Some? && Cut(b, was, po.value + 12, 8) == [0, 0, 0, 0] + Word32(n))
  {
    if f.traffic.template.Test? { TestRecovered(f, n, b, was); }
    if f.traffic.template.L4Raw? { PaddingIsNoTest(f, n, b, was); }
  }

  /** The key of an IP frame with a transport protocol, or the experimental one, from its parts. */
  lemma KeyOfIs(b: Bytes, was: Bytes, ingress: u4, l2: L2Info, inn: Inner, l3: L3Info, sp: Half, dp: Half, test: bool,
                id: Word)
    requires inn.v4 == !inn.v6 && |b| >= inn.off + IpHeaderLen(inn.v6) && inn.off < 0x1_0000
    requires l3.valid && (l3.proto == 6 || l3.proto == 17 || l3.proto == 0xFD) && l2.ethertype != [0x08, 0x06]
    requires Ports(b, was, l3.l4) == (sp, dp) && TestSeen(b, was, TestOff(b, l3.l4, l3.proto == 6), test, id)
    ensures KeyOf(b, was, ingress, l2, inn, l3).key
              == IpKey(ingress, l2, inn, l3, sp, dp, test, id, Cut(b, was, 0, HDR_BYTES))
  {}

  /**
   Build and decode round trip: for every flow with an IP header, with or without tag and
   tunnel, and every sequence number, the parser recovers exactly the MACs, VLAN id, addresses,
   ports, protocol, flow id and sequence number the generator put in, whatever its capture
   buffer held before.
   */
  lemma ParseRecovers(f: Flow, n: u32, was: Bytes, ingress: u4)
    requires !f.traffic.template.L2Raw?
    ensures var b := Frame(f, n);
            var p := Parse(b, was, ingress);
            && p.Some? && p.value.key == FlowKey(f, n, ingress, Cut(b, was, 0, HDR_BYTES))
            && (f.traffic.template.Test? ==> p.value.sequence == [0, 0, 0, 0] + Word32(n))
            && At(b, 0, DstMac(f, n)) && At(b, 6, SrcMac(f, n))
  {
    FramePieces(f, n);
    if Tunnelled(f) { TunnelPieces(f, Frame(f, n)); }
    MacsAt(f, n, Frame(f, n));
    ParseStages(f, n, Frame(f, n), was, ingress);
    KeyGenerated(f, n, Frame(f, n), was, ingress);
  }

  lemma MacsAt(f: Flow, n: u32, b: Bytes)
    requires At(b, 0, EthHead(f, n))
    ensures At(b, 0, DstMac(f, n)) && At(b, 6, SrcMac(f, n))
  {
    var d: Bytes, s: Bytes, t: Bytes := DstMac(f, n), SrcMac(f, n), EthHead(f, n)[12..];
    assert EthHead(f, n) == d + s + t;
    AtMiddle([], d, s + t);
    assert [] + d + (s + t) == d + s + t;
    AtMiddle(d, s, t);
    AtTrans(b, 0, EthHead(f, n), 0, d);
    AtTrans(b, 0, EthHead(f, n), 6, s);
  }

  /** The pieces of a generated frame are where they belong. */
  predicate Generated(f: Flow, n: u32, b: Bytes) {
    && !f.traffic.template.L2Raw? && |b| == FrameLen(f)
    && At(b, 0, EthHead(f, n)) && At(b, 12 + TagLen(f), Middle(f)) && At(b, Prefix(f), InnerIp(f, n))
    && At(b, Prefix(f) + InnerIpLen(f), Body(f, n))
    && (Tunnelled(f) ==>
          At(b, L3Off(f), OuterIp(f)) && At(b, L3Off(f) + OuterHeaderLen(f.encap.value.outer), Tunnel(f)))
  }

  function L2Of(f: Flow, n: u32): L2Info { L2Info(f.l2.vlanSet, KeyVlan(f, n), false, OuterType(f), L3Off(f)) }
  function InnerOf(f: Flow): Inner { Inner(Prefix(f), f.ip6.None?, f.ip6.Some?) }

  lemma ParseStages(f: Flow, n: u32, b: Bytes, was: Bytes, ingress: u4)
    requires Generated(f, n, b)
    ensures Parse(b, was, ingress) == Some(KeyOf(b, was, ingress, L2Of(f, n), InnerOf(f), L3Key(f, n)))
  {
    L2Parses(f, n, b, was);
    DescendsTo(f, n, b, was);
    L3Parses(f, n, b, was, OuterType(f));
    ParseIs(b, was, ingress, L2Of(f, n), InnerOf(f), L3Key(f, n));
  }

  lemma PartsGenerated(f: Flow, n: u32, b: Bytes, was: Bytes)
    requires Generated(f, n, b) && HasL4(f)
    ensures Ports(b, was, Some(L4Off(f))) == (SrcPort(f, n), DstPort(f, n))
    ensures At(b, L4Off(f) + L4HeaderLen(f), L4Tail(f, n))
  {
    PayloadParses(f, n, b, was);
  }

  lemma KeyGenerated(f: Flow, n: u32, b: Bytes, was: Bytes, ingress: u4)
    requires Generated(f, n, b)
    ensures var p := KeyOf(b, was, ingress, L2Of(f, n), InnerOf(f), L3Key(f, n));
            && p.key == FlowKey(f, n, ingress, Cut(b, was, 0, HDR_BYTES))
            && (f.traffic.template.Test? ==> p.sequence == [0, 0, 0, 0] + Word32(n))
  {
    if HasL4(f) { PartsGenerated(f, n, b, was); }
    KeyFromParts(f, n, b, was, ingress);
  }

  lemma ParseIs(b: Bytes, was: Bytes, ingress: u4, l2: L2Info, inn: Inner, l3: L3Info)
    requires |b| >= 14 && ParseL2(b, was) == l2 && ParseL3(b, was, inn, l2.ethertype) == l3
    requires Descend(b, was, l2.l3, l2.ethertype == [0x08, 0x00], l2.ethertype == [0x86, 0xDD]) == inn
    ensures Parse(b, was, ingress) == Some(KeyOf(b, was, ingress, l2, inn, l3))
  {}
}
