/** The header bytes of a flow's frames that neither the checksums nor the parser look at. */
module FrameHeaders {
  import opened Basics
  import opened Config
  import opened FlowRows
  import opened Modifiers
  import opened Frames
  import opened Classifier

  /** Type of service, don't-fragment, time to live (64 if none is configured) and addresses of an IPv4 header at o. */
  predicate Ip4Head(b: Bytes, o: nat, dscp: u8, ttl: u8, src: Word, dst: Word) {
    && o + 20 <= |b| && b[o] == 0x45 && b[o + 1] as int == dscp * 4 % 256
    && b[o + 4] == 0 && b[o + 5] == 0 && b[o + 6] == 0x40 && b[o + 7] == 0
    && b[o + 8] == (if ttl == 0 then 64 else ttl)
    && b[o + 12..o + 16] == src && b[o + 16..o + 20] == dst
  }

  /** Version, traffic class, flow label, hop limit (64 if none is configured) and addresses of an IPv6 header at o. */
  predicate Ip6Head(b: Bytes, o: nat, dscp: u8, hop: u8, src: Addr6, dst: Addr6) {
    && o + 40 <= |b| && b[o] as int == Or(0x60, dscp / 4) && b[o + 1] as int == dscp % 4 * 64
    && b[o + 2] == 0 && b[o + 3] == 0
    && b[o + 7] == (if hop == 0 then 64 else hop)
    && b[o + 8..o + 24] == src && b[o + 24..o + 40] == dst
  }

  lemma Ip4HeadAt(b: Bytes, o: nat, dscp: u8, total: u16, ttl: u8, proto: u8, src: Word, dst: Word)
    requires At(b, o, Ip4Bytes(dscp, total, ttl, proto, src, dst))
    ensures Ip4Head(b, o, dscp, ttl, src, dst)
  {
    var r, h := Ip4Raw(dscp, total, ttl, proto, src, dst), Ip4Bytes(dscp, total, ttl, proto, src, dst);
    Ip4Fields(dscp, total, ttl, proto, src, dst);
    Ip4Front(dscp, total, ttl, proto, src, dst);
    assert h[..10] == r[..10];
    SamePrefix(h, r, 10);
    AtByte(b, o, h, 0);
    AtByte(b, o, h, 1);
    AtByte(b, o, h, 4);
    AtByte(b, o, h, 5);
    AtByte(b, o, h, 6);
    AtByte(b, o, h, 7);
    AtByte(b, o, h, 8);
    AtSlice(b, o, h, 12, 16);
    AtSlice(b, o, h, 16, 20);
  }

  lemma Ip4Front(dscp: u8, total: u16, ttl: u8, proto: u8, src: Word, dst: Word)
    ensures var r := Ip4Raw(dscp, total, ttl, proto, src, dst);
            && r[0] == 0x45 && r[1] as int == dscp * 4 % 256 && r[4] == 0 && r[5] == 0 && r[6] == 0x40 && r[7] == 0
            && r[8] == if ttl == 0 then 64 else ttl
  {}

  lemma Ip6HeadAt(b: Bytes, o: nat, dscp: u8, payload: u16, next: u8, hop: u8, src: Addr6, dst: Addr6)
    requires At(b, o, Ip6Bytes(dscp, payload, next, hop, src, dst))
    ensures Ip6Head(b, o, dscp, hop, src, dst)
  {
    var h := Ip6Bytes(dscp, payload, next, hop, src, dst);
    Ip6Fields(dscp, payload, next, hop, src, dst);
    forall i | 0 <= i < 8 ensures b[o + i] == h[i] { AtByte(b, o, h, i); }
    AtSlice(b, o, h, 8, 24);
    AtSlice(b, o, h, 24, 40);
  }

  /** The outer header of a tunnel carries its configured addresses, class and lifetime, and names the tunnel. */
  predicate TunnelIp(b: Bytes, o: nat, e: Encap, v6: bool) {
    && (match e.outer
        case Outer4(x) => Ip4Head(b, o, x.dscp, x.ttl, x.src, x.dst)
        case Outer6(x) => Ip6Head(b, o, x.dscp, x.hopLimit, x.src, x.dst))
    && ProtoAt(b, o, e.outer.Outer6?) == (match e.kind
                                          case Ipip => if v6 then 41 else 4
                                          case Gre => 47
                                          case EtherIp => 97)
  }

  lemma TunnelIpIs(f: Flow, b: Bytes)
    requires Tunnelled(f) && |b| == FrameLen(f) && At(b, L3Off(f), OuterIp(f))
    ensures TunnelIp(b, L3Off(f), f.encap.value, f.ip6.Some?)
  {
    OuterIpValid(f, b);
    OuterFields(f, b, L3Off(f));
  }

  lemma OuterFields(f: Flow, b: Bytes, o: nat)
    requires Tunnelled(f) && At(b, o, OuterIp(f))
    ensures match f.encap.value.outer
            case Outer4(x) => Ip4Head(b, o, x.dscp, x.ttl, x.src, x.dst)
            case Outer6(x) => Ip6Head(b, o, x.dscp, x.hopLimit, x.src, x.dst)
  {
    var p := OuterProto(f);
    match f.encap.value.outer {
      case Outer4(x) =>
        var len := Clip16(FrameLen(f) - L3Off(f));
        assert OuterIp(f) == Ip4Bytes(x.dscp, len, x.ttl, p, x.src, x.dst);
        Ip4HeadAt(b, o, x.dscp, len, x.ttl, p, x.src, x.dst);
      case Outer6(x) =>
        var len := Clip16(FrameLen(f) - L3Off(f) - 40);
        assert OuterIp(f) == Ip6Bytes(x.dscp, len, p, x.hopLimit, x.src, x.dst);
        Ip6HeadAt(b, o, x.dscp, len, p, x.hopLimit, x.src, x.dst);
    }
  }

  /** The only or inner header carries its configured class and lifetime, and the addresses of packet n. */
  predicate FlowIp(b: Bytes, o: nat, f: Flow, n: u32) {
    && (match f.ip6
        case None => Ip4Head(b, o, f.ip4.dscp, f.ip4.ttl, SrcIp4(f, n), DstIp4(f, n))
        case Some(x) => Ip6Head(b, o, x.dscp, x.hopLimit, SrcIp6(f, n), DstIp6(f, n)))
    && ProtoAt(b, o, f.ip6.Some?) == if f.traffic.template.L3Raw? then 253 else if f.l4.proto == 6 then 6 else 17
  }

  lemma FlowIpIs(f: Flow, n: u32, b: Bytes)
    requires !f.traffic.template.L2Raw? && |b| == FrameLen(f) && At(b, Prefix(f), InnerIp(f, n))
    ensures FlowIp(b, Prefix(f), f, n)
  {
    InnerIpValid(f, n, b);
    match f.ip6 {
      case None =>
        Ip4HeadAt(b, Prefix(f), f.ip4.dscp, Clip16(20 + IpPayloadLen(f)), f.ip4.ttl, IpProto(f),
                  SrcIp4(f, n), DstIp4(f, n));
      case Some(x) =>
        Ip6HeadAt(b, Prefix(f), x.dscp, Clip16(IpPayloadLen(f)), IpProto(f), x.hopLimit, SrcIp6(f, n), DstIp6(f, n));
    }
  }

  /** What stands between the headers: nothing, a GRE header, or EtherIP with an Ethernet header that does not vary. */
  predicate TunnelHead(b: Bytes, o: nat, e: Encap, l2: L2, v6: bool) {
    match e.kind
    case Ipip => true
    case Gre => o + 4 <= |b| && b[o..o + 2] == [0, 0] && b[o + 2..o + 4] == (if v6 then [0x86, 0xDD] else [0x08, 0x00])
    case EtherIp =>
      && o + 16 <= |b| && b[o..o + 2] == [0x30, 0x00]
      && b[o + 2..o + 8] == (if e.innerMac.Some? then e.innerMac.value.dst else l2.dstMac)
      && b[o + 8..o + 14] == (if e.innerMac.Some? then e.innerMac.value.src else l2.srcMac)
      && b[o + 14..o + 16] == if v6 then [0x86, 0xDD] else [0x08, 0x00]
  }

  lemma TunnelHeadIs(f: Flow, b: Bytes, o: nat)
    requires f.encap.Some? && At(b, o, Tunnel(f))
    ensures TunnelHead(b, o, f.encap.value, f.l2, f.ip6.Some?)
  {
    var t := Tunnel(f);
    match f.encap.value.kind {
      case Ipip =>
      case Gre =>
        AtSlice(b, o, t, 0, 2);
        AtSlice(b, o, t, 2, 4);
      case EtherIp =>
        AtSlice(b, o, t, 0, 2);
        AtSlice(b, o, t, 2, 8);
        AtSlice(b, o, t, 8, 14);
        AtSlice(b, o, t, 14, 16);
        EtherIpParts(InnerMacs(f), InnerType(f));
    }
  }

  lemma EtherIpParts(m: Bytes, t: Half)
    requires |m| == 12
    ensures var h := [0x30, 0x00] + m + t;
            h[0..2] == [0x30, 0x00] && h[2..8] == m[0..6] && h[8..14] == m[6..12] && h[14..16] == t
  {}

  /** The rest of a TCP header: sequence number, no options, flags (SYN if none is configured), full window. */
  predicate TcpHead(b: Bytes, o: nat, n: u32, flags: u8) {
    && o + 20 <= |b| && b[o + 4..o + 8] == Word32(n) && b[o + 8..o + 12] == [0, 0, 0, 0]
    && b[o + 12] == 0x50 && b[o + 13] == (if flags == 0 then 0x02 else flags)
    && b[o + 14] == 0xFF && b[o + 15] == 0xFF && b[o + 18] == 0 && b[o + 19] == 0
  }

  /** The test header: magic, version 1, the flow and the sequence number, and room for the time stamp. */
  predicate TestHead(b: Bytes, o: nat, id: u32, n: u32) {
    && o + 32 <= |b| && b[o..o + 4] == TEST_MAGIC && b[o + 4..o + 8] == [0, 1, 0, 0] && b[o + 8..o + 12] == Word32(id)
    && b[o + 12..o + 16] == [0, 0, 0, 0] && b[o + 16..o + 20] == Word32(n)
    && b[o + 20..o + 32] == Zeros(12)
  }

  /** What follows the ports: the rest of the TCP header, the test header, and zeros up to the end. */
  predicate PayloadIs(b: Bytes, o: nat, f: Flow, n: u32) {
    var p := o + if f.l4.proto == 6 then 20 else 8;
    var q := p + if f.traffic.template.Test? then 32 else 0;
    && q <= |b|
    && (f.l4.proto == 6 ==> TcpHead(b, o, n, f.l4.tcpFlags))
    && (f.traffic.template.Test? ==> TestHead(b, p, f.id, n))
    && forall i | q <= i < |b| :: b[i] == 0
  }

  lemma TcpHeadIs(b: Bytes, o: nat, s: Bytes, t: Bytes, src: Half, dst: Half, n: u32, flags: u8, init: nat)
    requires At(b, o, s) && IsSegment(s, TcpBytes(src, dst, n, OrDefault(flags, 0x02)), t, 16, init)
    ensures TcpHead(b, o, n, flags)
  {
    var h := TcpBytes(src, dst, n, OrDefault(flags, 0x02));
    forall i | 0 <= i < 20 && i != 16 && i != 17 ensures b[o + i] == h[i] { AtByte(b, o, s, i); }
    assert h[4..8] == Word32(n) && h[8..12] == [0, 0, 0, 0];
    AtSlice(b, o, s, 4, 8);
    AtSlice(b, o, s, 8, 12);
    assert s[4..8] == h[4..8] && s[8..12] == h[8..12];
  }

  lemma TestHeadIs(b: Bytes, o: nat, f: Flow, n: u32)
    requires At(b, o, TestHeader(f, n))
    ensures TestHead(b, o, f.id, n)
  {
    var h := TestHeader(f, n);
    TestParts(Word32(f.id), Word32(n));
    AtSlice(b, o, h, 0, 4);
    AtSlice(b, o, h, 4, 8);
    AtSlice(b, o, h, 8, 12);
    AtSlice(b, o, h, 12, 16);
    AtSlice(b, o, h, 16, 20);
    AtSlice(b, o, h, 20, 32);
  }

  lemma TestParts(id: Word, n: Word)
    ensures var h := TEST_MAGIC + [0x00, 0x01, 0, 0] + id + [0, 0, 0, 0] + n + Zeros(12);
            && h[0..4] == TEST_MAGIC && h[4..8] == [0x00, 0x01, 0, 0] && h[8..12] == id && h[12..16] == [0, 0, 0, 0]
            && h[16..20] == n && h[20..32] == Zeros(12)
  {}

  /** The tail of a segment is found behind its header. */
  lemma TailAt(b: Bytes, o: nat, s: Bytes, h: Bytes, t: Bytes, c: nat, init: nat)
    requires At(b, o, s) && IsSegment(s, h, t, c, init)
    ensures At(b, o + |h|, t)
  {
    AtSlice(b, o, s, |h|, |s|);
  }

  /** A tail that ends the frame is the test header, if there is one, and zeros. */
  lemma TailIs(b: Bytes, p: nat, f: Flow, n: u32)
    requires !f.traffic.template.L2Raw? && !f.traffic.template.L3Raw?
    requires At(b, p, L4Tail(f, n)) && p + |L4Tail(f, n)| == |b|
    ensures var q := p + if f.traffic.template.Test? then 32 else 0;
            && q <= |b| && (f.traffic.template.Test? ==> TestHead(b, p, f.id, n))
            && forall i | q <= i < |b| :: b[i] == 0
  {
    var t := L4Tail(f, n);
    var q := p + if f.traffic.template.Test? then 32 else 0;
    if f.traffic.template.Test? {
      AtMiddle([], TestHeader(f, n), t[32..]);
      assert [] + TestHeader(f, n) + t[32..] == t;
      AtTrans(b, p, t, 0, TestHeader(f, n));
      TestHeadIs(b, p, f, n);
    }
    forall i | q <= i < |b| ensures b[i] == 0 { AtByte(b, p, t, i - p); }
  }

  lemma PayloadAt(b: Bytes, o: nat, f: Flow, n: u32)
    requires !f.traffic.template.L2Raw? && !f.traffic.template.L3Raw?
    requires At(b, o, Segment(f, n)) && o + IpPayloadLen(f) == |b|
    ensures PayloadIs(b, o, f, n)
  {
    var init := PseudoSum(IpProto(f), IpPayloadLen(f), Addresses(f, n));
    SegmentFacts(f, n);
    TailAt(b, o, Segment(f, n), L4Header(f, n), L4Tail(f, n), CsumAt(f), init);
    TailIs(b, o + L4HeaderLen(f), f, n);
    if IsTcp(f) {
      TcpHeadIs(b, o, Segment(f, n), L4Tail(f, n), SrcPort(f, n), DstPort(f, n), n, f.l4.tcpFlags, init);
    }
  }

  /** The outer header and what follows it. */
  predicate TunnelIs(b: Bytes, o: nat, e: Encap, l2: L2, v6: bool) {
    TunnelIp(b, o, e, v6) && TunnelHead(b, o + (if e.outer.Outer6? then 40 else 20), e, l2, v6)
  }

  /** What follows the inner IP header: zeros if the template ends there, and otherwise the payload. */
  predicate BodyIs(b: Bytes, o: nat, f: Flow, n: u32) {
    if f.traffic.template.L3Raw? then forall i | o <= i < |b| :: b[i] == 0 else PayloadIs(b, o, f, n)
  }

  lemma TunnelIn(b: Bytes, f: Flow)
    requires Tunnelled(f) && |b| == FrameLen(f) && At(b, 12 + TagLen(f), Middle(f))
    ensures TunnelIs(b, L3Off(f), f.encap.value, f.l2, f.ip6.Some?)
  {
    TunnelPieces(f, b);
    TunnelIpIs(f, b);
    TunnelHeadIs(f, b, L3Off(f) + OuterHeaderLen(f.encap.value.outer));
  }

  lemma BodyIn(b: Bytes, o: nat, f: Flow, n: u32)
    requires !f.traffic.template.L2Raw? && o + IpPayloadLen(f) == |b| && At(b, o, Body(f, n))
    ensures BodyIs(b, o, f, n)
  {
    if f.traffic.template.L3Raw? {
      var z := Zeros(IpPayloadLen(f));
      forall i | o <= i < |b| ensures b[i] == 0 { AtByte(b, o, z, i - o); }
    } else {
      PayloadAt(b, o, f, n);
    }
  }

  // The IP headers of a frame, what stands between them, and what follows, byte by byte.

  lemma FlowIpOf(b: Bytes, f: Flow, n: u32)
    requires !f.traffic.template.L2Raw? && b == Frame(f, n)
    ensures FlowIp(b, Prefix(f), f, n)
  {
    FramePieces(f, n);
    FlowIpIs(f, n, b);
  }

  lemma TunnelOf(b: Bytes, f: Flow, n: u32)
    requires Tunnelled(f) && b == Frame(f, n)
    ensures TunnelIs(b, L3Off(f), f.encap.value, f.l2, f.ip6.Some?)
  {
    FramePieces(f, n);
    TunnelIn(b, f);
  }

  lemma BodyOf(b: Bytes, o: nat, f: Flow, n: u32)
    requires !f.traffic.template.L2Raw? && b == Frame(f, n) && o == Prefix(f) + InnerIpLen(f)
    ensures BodyIs(b, o, f, n)
  {
    BodyAt(f, n);
    BodyIn(b, o, f, n);
  }
}
