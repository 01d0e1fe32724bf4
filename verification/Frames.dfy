/**
 The frames a flow puts on the wire (the reference form of pw_flow_build_preview), piece by
 piece, and the facts a receiver relies on: checksums and length fields.
 */
module Frames {
  import opened Basics
  import opened Config
  import opened Classifier
  import opened HashKeys
  import opened FlowRows
  import opened Modifiers
  import opened Checksum
  import Validate

  function Zeros(n: nat): (b: Bytes)
    ensures |b| == n && forall i | 0 <= i < n :: b[i] == 0
  {
    seq(n, i => 0)
  }

  // ---- sizes ------------------------------------------------------------------------------------------

  /** A tunnel is built unless the template is the raw Ethernet one. */
  predicate Tunnelled(f: Flow) { f.encap.Some? && !f.traffic.template.L2Raw? }

  function TagLen(f: Flow): nat { if f.l2.vlanSet then 4 else 0 }

  /** Offset of the outer (or only) IP header. */
  function L3Off(f: Flow): nat { 14 + TagLen(f) }

  /** Offset of the inner IP header. */
  function Prefix(f: Flow): nat {
    L3Off(f) + if Tunnelled(f) then OuterHeaderLen(f.encap.value.outer) + TunnelLen(f.encap.value.kind) else 0
  }

  predicate IsTcp(f: Flow) { f.l4.proto == 6 }

  function L4HeaderLen(f: Flow): nat { if f.traffic.template.L3Raw? then 0 else if IsTcp(f) then 20 else 8 }
  function InnerIpLen(f: Flow): nat { IpHeaderLen(f.ip6.Some?) }

  /** The shortest frame that holds all headers, and the test header if there is one. */
  function Floor(f: Flow): nat {
    Prefix(f) + InnerIpLen(f) + L4HeaderLen(f) + if f.traffic.template.Test? then 32 else 0
  }

  function ConfiguredLen(f: Flow): nat { if f.traffic.fixedSet then f.traffic.fixedLen else f.traffic.lenMin }

  function FrameLen(f: Flow): nat {
    if f.traffic.template.L2Raw? then ConfiguredLen(f) else Max(ConfiguredLen(f), Floor(f))
  }

  /** A configured length the builder accepts. */
  predicate LenOk(f: Flow) { 14 <= ConfiguredLen(f) <= 9100 }

  /** The builder's clamp is the compiler's minimum frame, for every validated flow but the raw Ethernet template. */
  lemma FloorIsMinLegal(cfg: Config, i: nat)
    requires i < |cfg.flows| && Validate.FlowOk(cfg, i) && !cfg.flows[i].traffic.template.L2Raw?
    ensures Floor(cfg.flows[i]) == MinLegalFrame(cfg.flows[i])
  {}

  /** Bytes after the inner IP header. */
  function IpPayloadLen(f: Flow): (r: nat)
    requires !f.traffic.template.L2Raw?
    ensures r + Prefix(f) + InnerIpLen(f) == FrameLen(f) <= 0xFFFF
  {
    FrameLen(f) - Prefix(f) - InnerIpLen(f)
  }

  function Clip16(n: nat): u16 { n % 0x1_0000 }

  // ---- pieces -------------------------------------------------------------------------------------------

  function OrDefault(v: u8, d: u8): u8 { if v != 0 then v else d }

  function Ip4Raw(dscp: u8, total: u16, ttl: u8, proto: u8, src: Word, dst: Word): (b: Bytes)
    ensures |b| == 20 && b[10] == 0 && b[11] == 0
  {
    [0x45, dscp * 4 % 0x100] + Half16(total) + [0, 0, 0x40, 0] + [OrDefault(ttl, 64), proto, 0, 0] + src + dst
  }

  function Ip4Bytes(dscp: u8, total: u16, ttl: u8, proto: u8, src: Word, dst: Word): (b: Bytes)
    ensures |b| == 20
  {
    Checksummed(Ip4Raw(dscp, total, ttl, proto, src, dst), 10, 0)
  }

  function Ip6Bytes(dscp: u8, payload: u16, next: u8, hop: u8, src: Addr6, dst: Addr6): (b: Bytes)
    ensures |b| == 40
  {
    [Or(0x60, dscp / 4), dscp % 4 * 0x40, 0, 0] + Half16(payload) + [next, OrDefault(hop, 64)] + src + dst
  }

  function Tci(pcp: u8, vlan: Half): Half { [pcp % 8 * 32 + vlan[0] % 16, vlan[1]] }

  /** MACs and the optional tag. */
  function EthHead(f: Flow, n: u32): (b: Bytes)
    ensures |b| == 12 + TagLen(f)
  {
    DstMac(f, n) + SrcMac(f, n) + if f.l2.vlanSet then [0x81, 0x00] + Tci(f.l2.pcp, VlanId(f, n)) else []
  }

  function InnerType(f: Flow): Half { EtherTypeOf(f.ip6.Some?) }

  function OuterProto(f: Flow): u8
    requires f.encap.Some?
  {
    match f.encap.value.kind
    case Ipip => if f.ip6.Some? then 41 else 4
    case Gre => 47
    case EtherIp => 97
  }

  function OuterIp(f: Flow): (b: Bytes)
    requires Tunnelled(f)
    ensures |b| == OuterHeaderLen(f.encap.value.outer)
  {
    match f.encap.value.outer
    case Outer4(x) => Ip4Bytes(x.dscp, Clip16(FrameLen(f) - L3Off(f)), x.ttl, OuterProto(f), x.src, x.dst)
    case Outer6(x) => Ip6Bytes(x.dscp, Clip16(FrameLen(f) - L3Off(f) - 40), OuterProto(f), x.hopLimit, x.src, x.dst)
  }

  function InnerMacs(f: Flow): (b: Bytes)
    requires f.encap.Some?
    ensures |b| == 12
  {
    match f.encap.value.innerMac
    case Some(m) => m.dst + m.src
    case None => f.l2.dstMac + f.l2.srcMac
  }

  function Tunnel(f: Flow): (b: Bytes)
    requires f.encap.Some?
    ensures |b| == TunnelLen(f.encap.value.kind)
  {
    match f.encap.value.kind
    case Ipip => []
    case Gre => [0, 0] + InnerType(f)
    case EtherIp => [0x30, 0x00] + InnerMacs(f) + InnerType(f)
  }

  /** From the ethertype up to the inner IP header. */
  function Middle(f: Flow): (b: Bytes)
    requires !f.traffic.template.L2Raw?
    ensures |b| == 2 + Prefix(f) - L3Off(f)
  {
    if Tunnelled(f) then EtherTypeOf(f.encap.value.outer.Outer6?) + OuterIp(f) + Tunnel(f) else InnerType(f)
  }

  /** 0xFD is reserved for experiments: an IP frame with no transport header. */
  function IpProto(f: Flow): u8 { if f.traffic.template.L3Raw? then 0xFD else if IsTcp(f) then 6 else 17 }

  function InnerIp(f: Flow, n: u32): (b: Bytes)
    requires !f.traffic.template.L2Raw?
    ensures |b| == InnerIpLen(f)
  {
    match f.ip6
    case None => Ip4Bytes(f.ip4.dscp, Clip16(20 + IpPayloadLen(f)), f.ip4.ttl, IpProto(f), SrcIp4(f, n), DstIp4(f, n))
    case Some(x) => Ip6Bytes(x.dscp, Clip16(IpPayloadLen(f)), IpProto(f), x.hopLimit, SrcIp6(f, n), DstIp6(f, n))
  }

  function L4Header(f: Flow, n: u32): (b: Bytes)
    requires !f.traffic.template.L2Raw? && !f.traffic.template.L3Raw?
    ensures |b| == L4HeaderLen(f)
  {
    if IsTcp(f) then TcpBytes(SrcPort(f, n), DstPort(f, n), n, OrDefault(f.l4.tcpFlags, 0x02))
    else UdpBytes(SrcPort(f, n), DstPort(f, n), Clip16(IpPayloadLen(f)))
  }

  /** A TCP header without options, with an empty checksum field. */
  function TcpBytes(src: Half, dst: Half, n: u32, flags: u8): (b: Bytes)
    ensures |b| == 20
  {
    src + dst + Word32(n) + [0, 0, 0, 0] + [0x50, flags, 0xFF, 0xFF, 0, 0, 0, 0]
  }

  function UdpBytes(src: Half, dst: Half, len: u16): (b: Bytes)
    ensures |b| == 8
  {
    src + dst + Half16(len) + [0, 0]
  }

  function TestHeader(f: Flow, n: u32): (b: Bytes)
    ensures |b| == 32
  {
    TEST_MAGIC + [0x00, 0x01, 0, 0] + Word32(f.id) + [0, 0, 0, 0] + Word32(n) + Zeros(12)
  }

  /** The transport segment with an empty checksum field. */
  function SegmentRaw(f: Flow, n: u32): (b: Bytes)
    requires !f.traffic.template.L2Raw? && !f.traffic.template.L3Raw?
    ensures |b| == IpPayloadLen(f)
  {
    L4Header(f, n) + L4Tail(f, n)
  }

  /** What follows the transport header: the test header if there is one, and padding. */
  function L4Tail(f: Flow, n: u32): (b: Bytes)
    requires !f.traffic.template.L2Raw? && !f.traffic.template.L3Raw?
    ensures |b| == IpPayloadLen(f) - L4HeaderLen(f)
  {
    if f.traffic.template.Test? then TestHeader(f, n) + Zeros(IpPayloadLen(f) - L4HeaderLen(f) - 32)
    else Zeros(IpPayloadLen(f) - L4HeaderLen(f))
  }

  function CsumAt(f: Flow): nat { if IsTcp(f) then 16 else 6 }

  /** Source and destination address as they go into the pseudo-header. */
  function Addresses(f: Flow, n: u32): Bytes {
    if f.ip6.Some? then SrcIp6(f, n) + DstIp6(f, n) else SrcIp4(f, n) + DstIp4(f, n)
  }

  /** The pseudo-header's contribution to the transport checksum. */
  function PseudoSum(proto: u8, len: nat, addresses: Bytes): nat { proto + len + Sum16(addresses) }

  function Segment(f: Flow, n: u32): (b: Bytes)
    requires !f.traffic.template.L2Raw? && !f.traffic.template.L3Raw?
    ensures |b| == IpPayloadLen(f)
  {
    Sealed(L4Header(f, n), L4Tail(f, n), CsumAt(f), PseudoSum(IpProto(f), IpPayloadLen(f), Addresses(f, n)))
  }

  /** Header and tail, with the checksum at offset c filled in. */
  function Sealed(h: Bytes, t: Bytes, c: nat, init: nat): (b: Bytes)
    requires c + 2 <= |h|
    ensures |b| == |h| + |t|
  {
    Checksummed(h + t, c, init)
  }

  function Body(f: Flow, n: u32): (b: Bytes)
    requires !f.traffic.template.L2Raw?
    ensures |b| == IpPayloadLen(f)
  {
    if f.traffic.template.L3Raw? then Zeros(IpPayloadLen(f)) else Segment(f, n)
  }

  /** A raw Ethernet frame of this length, cut off if its headers are longer. */
  function RawBytes(f: Flow, n: u32, len: nat): (b: Bytes)
    ensures |b| == len
  {
    (EthHead(f, n) + RawEtherType(f) + Zeros(len))[..len]
  }

  /** Packet n of the flow as the builder lays it out, without FCS. */
  function Frame(f: Flow, n: u32): (b: Bytes)
    ensures |b| == FrameLen(f)
  {
    if f.traffic.template.L2Raw? then
      RawBytes(f, n, FrameLen(f))
    else Join4(EthHead(f, n), Middle(f), InnerIp(f, n), Body(f, n))
  }

  /** The generator clamps every frame, raw ones too, up to its headers. */
  function WireLen(f: Flow): nat {
    if f.traffic.template.L2Raw? then Max(ConfiguredLen(f), L3Off(f)) else FrameLen(f)
  }

  /** Packet n of the flow as it goes on the wire, but for the time stamp and what depends on it. */
  function Emitted(f: Flow, n: u32): (b: Bytes)
    ensures |b| == WireLen(f)
  {
    if f.traffic.template.L2Raw? then RawBytes(f, n, WireLen(f)) else Frame(f, n)
  }

  /** The flow with its frames at one length of its sweep. */
  function WithLen(f: Flow, len: u16): Flow { f.(traffic := f.traffic.(fixedSet := true, fixedLen := len)) }

  /** Every emitted frame has the configured length or the compiler's minimum, whichever is larger. */
  lemma WireLenIs(cfg: Config, i: nat, len: u16)
    requires i < |cfg.flows| && Validate.FlowOk(cfg, i)
    ensures WireLen(WithLen(cfg.flows[i], len)) == Max(len, MinLegalFrame(cfg.flows[i]))
  {}

  /** The preview is the emitted frame, or its front if a raw frame is configured shorter than its headers. */
  lemma PreviewOfEmitted(f: Flow, n: u32)
    ensures FrameLen(f) <= WireLen(f) && Frame(f, n) == Emitted(f, n)[..FrameLen(f)]
    ensures Frame(f, n) == Emitted(f, n) <==> !(f.traffic.template.L2Raw? && ConfiguredLen(f) < L3Off(f))
  {
    if f.traffic.template.L2Raw? {
      var h, a, b := EthHead(f, n) + RawEtherType(f), FrameLen(f), WireLen(f);
      RawPrefix(h, a, b);
    }
  }

  lemma RawPrefix(h: Bytes, a: nat, b: nat)
    requires a <= b
    ensures (h + Zeros(a))[..a] == (h + Zeros(b))[..b][..a]
  {}

  function Join4(e: Bytes, m: Bytes, i: Bytes, d: Bytes): Bytes { e + m + i + d }

  // ---- where the pieces are -----------------------------------------------------------------------------

  /** x is found in s at offset o. */
  predicate At(s: Bytes, o: nat, x: Bytes) { o + |x| <= |s| && s[o..o + |x|] == x }

  lemma AtByte(s: Bytes, o: nat, x: Bytes, i: nat)
    requires At(s, o, x) && i < |x|
    ensures o + i < |s| && s[o + i] == x[i]
  {
    assert s[o..o + |x|][i] == s[o + i];
  }

  lemma AtSlice(s: Bytes, o: nat, x: Bytes, i: nat, j: nat)
    requires At(s, o, x) && i <= j <= |x|
    ensures o + j <= |s| && s[o + i..o + j] == x[i..j]
  {
    forall k | i <= k < j ensures s[o + k] == x[k] { AtByte(s, o, x, k); }
  }

  lemma AtMiddle(a: Bytes, x: Bytes, b: Bytes)
    ensures At(a + x + b, |a|, x)
  {
    assert (a + x + b)[|a|..|a| + |x|] == x;
  }

  /** A piece of a piece. */
  lemma AtTrans(s: Bytes, o: nat, x: Bytes, p: nat, y: Bytes)
    requires At(s, o, x) && At(x, p, y)
    ensures At(s, o + p, y)
  {
    AtSlice(s, o, x, p, p + |y|);
  }

  lemma FramePieces(f: Flow, n: u32)
    requires !f.traffic.template.L2Raw?
    ensures var b := Frame(f, n);
            && At(b, 0, EthHead(f, n)) && At(b, 12 + TagLen(f), Middle(f))
            && At(b, Prefix(f), InnerIp(f, n)) && At(b, Prefix(f) + InnerIpLen(f), Body(f, n))
  {
    FourPieces(EthHead(f, n), Middle(f), InnerIp(f, n), Body(f, n));
  }

  lemma BodyAt(f: Flow, n: u32)
    requires !f.traffic.template.L2Raw?
    ensures At(Frame(f, n), Prefix(f) + InnerIpLen(f), Body(f, n))
  {
    FramePieces(f, n);
  }

  lemma FourPieces(e: Bytes, m: Bytes, i: Bytes, d: Bytes)
    ensures var b := Join4(e, m, i, d);
            At(b, 0, e) && At(b, |e|, m) && At(b, |e| + |m|, i) && At(b, |e| + |m| + |i|, d)
  {
    var b := e + m + i + d;
    AtMiddle([], e, m + i + d);
    assert [] + e + (m + i + d) == b;
    AtMiddle(e, m, i + d);
    assert e + m + (i + d) == b;
    AtMiddle(e + m, i, d);
    AtMiddle(e + m + i, d, []);
    assert e + m + i + d + [] == b;
  }

  /** The outer IP header and the tunnel header. */
  lemma TunnelPieces(f: Flow, b: Bytes)
    requires Tunnelled(f) && At(b, 12 + TagLen(f), Middle(f))
    ensures At(b, L3Off(f), OuterIp(f)) && At(b, L3Off(f) + OuterHeaderLen(f.encap.value.outer), Tunnel(f))
  {
    MiddleParts(f);
    InMiddle(b, 12 + TagLen(f), Middle(f), EtherTypeOf(f.encap.value.outer.Outer6?), OuterIp(f), Tunnel(f));
  }

  lemma MiddleParts(f: Flow)
    requires Tunnelled(f)
    ensures Middle(f) == EtherTypeOf(f.encap.value.outer.Outer6?) + OuterIp(f) + Tunnel(f)
  {}

  lemma InMiddle(s: Bytes, o: nat, m: Bytes, a: Bytes, b: Bytes, c: Bytes)
    requires At(s, o, m) && m == a + b + c
    ensures At(s, o + |a|, b) && At(s, o + |a| + |b|, c)
  {
    ThreePieces(a, b, c);
    AtTrans(s, o, m, |a|, b);
    AtTrans(s, o, m, |a| + |b|, c);
  }

  lemma ThreePieces(a: Bytes, b: Bytes, c: Bytes)
    ensures At(a + b + c, |a|, b) && At(a + b + c, |a| + |b|, c)
  {
    AtMiddle(a, b, c);
    AtMiddle(a + b, c, []);
    assert a + b + c + [] == a + b + c;
  }

  // ---- checksums and lengths ----------------------------------------------------------------------------

  /** A well-formed IPv4 header at o: it sums to all ones and its total length reaches the end of the frame. */
  predicate Ip4Valid(b: Bytes, o: nat) {
    && o + 20 <= |b| && b[o] == 0x45
    && SumsToOnes(b[o..o + 20], 0) && BE16(b, o + 2) == |b| - o
  }

  /** A well-formed IPv6 header at o: its payload length reaches the end of the frame. */
  predicate Ip6Valid(b: Bytes, o: nat) { o + 40 <= |b| && BE16(b, o + 4) == |b| - o - 40 }

  /** The addresses and the protocol of the IP header at o, as found in the frame. */
  function AddressesAt(b: Bytes, o: nat, v6: bool): Bytes
    requires o + IpHeaderLen(v6) <= |b|
  {
    if v6 then b[o + 8..o + 40] else b[o + 12..o + 20]
  }

  function ProtoAt(b: Bytes, o: nat, v6: bool): u8
    requires o + IpHeaderLen(v6) <= |b|
  {
    if v6 then b[o + 6] else b[o + 9]
  }

  /** A well-formed transport segment behind the IP header at o. */
  predicate L4Valid(b: Bytes, o: nat, v6: bool) {
    var l := o + IpHeaderLen(v6);
    && l + 8 <= |b|
    && SumsToOnes(b[l..], PseudoSum(ProtoAt(b, o, v6), |b| - l, AddressesAt(b, o, v6)))
    && (ProtoAt(b, o, v6) == 17 ==> BE16(b, l + 4) == |b| - l)
  }

  // Facts about the pieces, each stated without the others.

  /** A 20-byte header with these fields and a valid checksum. */
  predicate IsIp4(h: Bytes, total: u16, proto: u8, src: Word, dst: Word) {
    && |h| == 20 && h[0] == 0x45 && BE16(h, 2) == total && h[9] == proto && h[12..16] == src && h[16..20] == dst
    && SumsToOnes(h, 0)
  }

  predicate IsIp6(h: Bytes, payload: u16, next: u8, src: Addr6, dst: Addr6) {
    |h| == 40 && BE16(h, 4) == payload && h[6] == next && h[8..24] == src && h[24..40] == dst
  }

  lemma Ip4Fields(dscp: u8, total: u16, ttl: u8, proto: u8, src: Word, dst: Word)
    ensures IsIp4(Ip4Bytes(dscp, total, ttl, proto, src, dst), total, proto, src, dst)
  {
    var r := Ip4Raw(dscp, total, ttl, proto, src, dst);
    ChecksummedIsValid(r, 10, 0);
    var h := Ip4Bytes(dscp, total, ttl, proto, src, dst);
    assert h[..10] == r[..10] && h[12..] == r[12..];
    assert BE16(r, 2) == Num16(Half16(total));
    assert h[12..16] == r[12..][..4] && h[16..20] == r[12..][4..];
    SamePrefix(h, r, 10);
  }

  lemma SamePrefix(h: Bytes, r: Bytes, k: nat)
    requires k <= |r| == |h| && h[..k] == r[..k]
    ensures forall i | 0 <= i < k :: h[i] == r[i]
  {
    forall i | 0 <= i < k ensures h[i] == r[i] { assert h[..k][i] == r[..k][i]; }
  }

  lemma Ip6Fields(dscp: u8, payload: u16, next: u8, hop: u8, src: Addr6, dst: Addr6)
    ensures IsIp6(Ip6Bytes(dscp, payload, next, hop, src, dst), payload, next, src, dst)
  {
    assert Num16(Half16(payload)) == payload;
  }

  /** A header found in a frame is well-formed if its length field is right. */
  lemma Ip4InFrame(b: Bytes, o: nat, h: Bytes, total: u16, proto: u8, src: Word, dst: Word)
    requires At(b, o, h) && IsIp4(h, total, proto, src, dst) && total as int == |b| - o
    ensures Ip4Valid(b, o) && ProtoAt(b, o, false) == proto && AddressesAt(b, o, false) == src + dst
  {
    AtByte(b, o, h, 0);
    AtByte(b, o, h, 2);
    AtByte(b, o, h, 3);
    AtByte(b, o, h, 9);
    AtSlice(b, o, h, 12, 20);
    assert h[12..20] == h[12..16] + h[16..20];
  }

  lemma Ip6InFrame(b: Bytes, o: nat, h: Bytes, payload: u16, next: u8, src: Addr6, dst: Addr6)
    requires At(b, o, h) && IsIp6(h, payload, next, src, dst) && payload as int == |b| - o - 40
    ensures Ip6Valid(b, o) && ProtoAt(b, o, true) == next && AddressesAt(b, o, true) == src + dst
  {
    AtByte(b, o, h, 4);
    AtByte(b, o, h, 5);
    AtByte(b, o, h, 6);
    AtSlice(b, o, h, 8, 40);
    assert h[8..40] == h[8..24] + h[24..40];
  }

  /** A transport segment of this header and this tail, checksum at c filled in. */
  predicate IsSegment(s: Bytes, h: Bytes, t: Bytes, c: nat, init: nat) {
    && c + 2 <= |h| && |s| == |h| + |t|
    && (forall i | 0 <= i < |h| && i != c && i != c + 1 :: s[i] == h[i])
    && s[|h|..] == t && SumsToOnes(s, init)
  }

  lemma SegmentOf(h: Bytes, t: Bytes, c: nat, init: nat)
    requires c % 2 == 0 && c + 2 <= |h| && h[c] == 0 && h[c + 1] == 0
    ensures IsSegment(Sealed(h, t, c, init), h, t, c, init)
  {
    var r := h + t;
    var s := Checksummed(r, c, init);
    assert r[c] == h[c] && r[c + 1] == h[c + 1];
    ChecksummedIsValid(r, c, init);
    assert s[..c] == r[..c] && s[c + 2..] == r[c + 2..];
    forall i | 0 <= i < |r| && i != c && i != c + 1 ensures s[i] == r[i] {
      if i < c { assert s[..c][i] == r[..c][i]; } else { assert s[c + 2..][i - c - 2] == r[c + 2..][i - c - 2]; }
    }
    assert s[|h|..] == t;
  }

  /** The four bytes of ports, the empty checksum field and, for UDP, the length. */
  lemma L4HeaderFields(f: Flow, n: u32)
    requires !f.traffic.template.L2Raw? && !f.traffic.template.L3Raw?
    ensures var h, c := L4Header(f, n), CsumAt(f);
            && |h| == L4HeaderLen(f) && h[c] == 0 && h[c + 1] == 0
            && h[0..2] == SrcPort(f, n) && h[2..4] == DstPort(f, n)
            && (!IsTcp(f) ==> BE16(h, 4) == IpPayloadLen(f))
  {
    if IsTcp(f) {
      TcpFields(SrcPort(f, n), DstPort(f, n), n, OrDefault(f.l4.tcpFlags, 0x02));
    } else {
      UdpFields(SrcPort(f, n), DstPort(f, n), Clip16(IpPayloadLen(f)));
    }
  }

  lemma TcpFields(src: Half, dst: Half, n: u32, flags: u8)
    ensures var h := TcpBytes(src, dst, n, flags); h[16] == 0 && h[17] == 0 && h[0..2] == src && h[2..4] == dst
  {}

  lemma UdpFields(src: Half, dst: Half, len: u16)
    ensures var h := UdpBytes(src, dst, len);
            h[6] == 0 && h[7] == 0 && h[0..2] == src && h[2..4] == dst && BE16(h, 4) == len
  {
    assert Num16(Half16(len)) == len;
  }

  lemma SegmentFacts(f: Flow, n: u32)
    requires !f.traffic.template.L2Raw? && !f.traffic.template.L3Raw?
    ensures IsSegment(Segment(f, n), L4Header(f, n), L4Tail(f, n), CsumAt(f),
                      PseudoSum(IpProto(f), IpPayloadLen(f), Addresses(f, n)))
  {
    L4HeaderFields(f, n);
    SegmentIsSealed(f, n);
    var init := PseudoSum(IpProto(f), IpPayloadLen(f), Addresses(f, n));
    SealedIs(Segment(f, n), L4Header(f, n), L4Tail(f, n), CsumAt(f), init);
  }

  lemma SegmentIsSealed(f: Flow, n: u32)
    requires !f.traffic.template.L2Raw? && !f.traffic.template.L3Raw?
    ensures CsumAt(f) + 2 <= |L4Header(f, n)|
    ensures Segment(f, n)
              == Sealed(L4Header(f, n), L4Tail(f, n), CsumAt(f),
                        PseudoSum(IpProto(f), IpPayloadLen(f), Addresses(f, n)))
  {}

  lemma SealedIs(s: Bytes, h: Bytes, t: Bytes, c: nat, init: nat)
    requires c % 2 == 0 && c + 2 <= |h| && h[c] == 0 && h[c + 1] == 0 && s == Sealed(h, t, c, init)
    ensures IsSegment(s, h, t, c, init)
  {
    SegmentOf(h, t, c, init);
  }

  /** A segment at the end of a frame whose IP header has these addresses is well-formed. */
  lemma SegmentInFrame(b: Bytes, o: nat, v6: bool, s: Bytes, h: Bytes, t: Bytes, c: nat, proto: u8, len: nat,
                       addrs: Bytes)
    requires o + IpHeaderLen(v6) + len == |b| && |s| == len && At(b, o + IpHeaderLen(v6), s)
    requires IsSegment(s, h, t, c, PseudoSum(proto, len, addrs)) && |h| >= 8 && c >= 6
    requires ProtoAt(b, o, v6) == proto && AddressesAt(b, o, v6) == addrs
    requires proto == 17 ==> BE16(h, 4) == len
    ensures L4Valid(b, o, v6)
  {
    var l := o + IpHeaderLen(v6);
    assert b[l..] == b[l..l + |s|] == s;
    AtByte(b, l, s, 4);
    AtByte(b, l, s, 5);
  }

  /** The inner IP header of a flow. */
  lemma InnerIp4Is(f: Flow, n: u32)
    requires !f.traffic.template.L2Raw? && f.ip6.None?
    ensures IsIp4(InnerIp(f, n), 20 + IpPayloadLen(f), IpProto(f), SrcIp4(f, n), DstIp4(f, n))
  {
    InnerIp4Unfolds(f, n);
    Ip4Fields(f.ip4.dscp, 20 + IpPayloadLen(f), f.ip4.ttl, IpProto(f), SrcIp4(f, n), DstIp4(f, n));
  }

  lemma InnerIp4Unfolds(f: Flow, n: u32)
    requires !f.traffic.template.L2Raw? && f.ip6.None?
    ensures InnerIp(f, n)
            == Ip4Bytes(f.ip4.dscp, 20 + IpPayloadLen(f), f.ip4.ttl, IpProto(f), SrcIp4(f, n), DstIp4(f, n))
  {
    var len: u16 := 20 + IpPayloadLen(f);
    assert Clip16(20 + IpPayloadLen(f)) == len;
  }

  lemma InnerIp6Is(f: Flow, n: u32)
    requires !f.traffic.template.L2Raw? && f.ip6.Some?
    ensures IsIp6(InnerIp(f, n), IpPayloadLen(f), IpProto(f), SrcIp6(f, n), DstIp6(f, n))
  {
    var x := f.ip6.value;
    var p: u16 := IpPayloadLen(f);
    assert Clip16(IpPayloadLen(f)) == p;
    Ip6Fields(x.dscp, p, IpProto(f), x.hopLimit, SrcIp6(f, n), DstIp6(f, n));
  }

  lemma OuterIp4Is(f: Flow)
    requires Tunnelled(f) && f.encap.value.outer.Outer4?
    ensures var x := f.encap.value.outer.ip4; IsIp4(OuterIp(f), FrameLen(f) - L3Off(f), OuterProto(f), x.src, x.dst)
  {
    var x := f.encap.value.outer.ip4;
    var len: u16, proto := FrameLen(f) - L3Off(f), OuterProto(f);
    assert OuterIp(f) == Ip4Bytes(x.dscp, len, x.ttl, proto, x.src, x.dst);
    Ip4Fields(x.dscp, len, x.ttl, proto, x.src, x.dst);
  }

  lemma OuterIp6Is(f: Flow)
    requires Tunnelled(f) && f.encap.value.outer.Outer6?
    ensures var x := f.encap.value.outer.ip6;
            IsIp6(OuterIp(f), FrameLen(f) - L3Off(f) - 40, OuterProto(f), x.src, x.dst)
  {
    var x := f.encap.value.outer.ip6;
    Ip6Fields(x.dscp, Clip16(FrameLen(f) - L3Off(f) - 40), OuterProto(f), x.hopLimit, x.src, x.dst);
  }

  // ---- whole frames -----------------------------------------------------------------------------------

  lemma InnerIpValid(f: Flow, n: u32, b: Bytes)
    requires !f.traffic.template.L2Raw? && |b| == FrameLen(f) && At(b, Prefix(f), InnerIp(f, n))
    ensures if f.ip6.Some? then Ip6Valid(b, Prefix(f)) else Ip4Valid(b, Prefix(f))
    ensures ProtoAt(b, Prefix(f), f.ip6.Some?) == IpProto(f)
    ensures AddressesAt(b, Prefix(f), f.ip6.Some?) == Addresses(f, n)
  {
    if f.ip6.Some? {
      InnerIp6Is(f, n);
      Ip6InFrame(b, Prefix(f), InnerIp(f, n), IpPayloadLen(f), IpProto(f), SrcIp6(f, n), DstIp6(f, n));
    } else {
      InnerIp4Is(f, n);
      Ip4InFrame(b, Prefix(f), InnerIp(f, n), 20 + IpPayloadLen(f), IpProto(f), SrcIp4(f, n), DstIp4(f, n));
    }
  }

  lemma OuterIpValid(f: Flow, b: Bytes)
    requires Tunnelled(f) && |b| == FrameLen(f) && At(b, L3Off(f), OuterIp(f))
    ensures if f.encap.value.outer.Outer6? then Ip6Valid(b, L3Off(f)) else Ip4Valid(b, L3Off(f))
    ensures ProtoAt(b, L3Off(f), f.encap.value.outer.Outer6?) == OuterProto(f)
  {
    match f.encap.value.outer {
      case Outer4(x) =>
        OuterIp4Is(f);
        Ip4InFrame(b, L3Off(f), OuterIp(f), FrameLen(f) - L3Off(f), OuterProto(f), x.src, x.dst);
      case Outer6(x) =>
        OuterIp6Is(f);
        Ip6InFrame(b, L3Off(f), OuterIp(f), FrameLen(f) - L3Off(f) - 40, OuterProto(f), x.src, x.dst);
    }
  }

  lemma SegmentReady(f: Flow, n: u32)
    requires !f.traffic.template.L2Raw? && !f.traffic.template.L3Raw?
    ensures var h := L4Header(f, n);
            && IsSegment(Segment(f, n), h, L4Tail(f, n), CsumAt(f),
                         PseudoSum(IpProto(f), IpPayloadLen(f), Addresses(f, n)))
            && |h| >= 8 && CsumAt(f) >= 6 && (IpProto(f) == 17 ==> BE16(h, 4) == IpPayloadLen(f))
  {
    SegmentFacts(f, n);
    L4HeaderFields(f, n);
  }

  lemma L4IsValid(f: Flow, n: u32, b: Bytes)
    requires !f.traffic.template.L2Raw? && !f.traffic.template.L3Raw? && |b| == FrameLen(f)
    requires At(b, Prefix(f), InnerIp(f, n)) && At(b, Prefix(f) + InnerIpLen(f), Segment(f, n))
    ensures L4Valid(b, Prefix(f), f.ip6.Some?)
  {
    InnerIpValid(f, n, b);
    SegmentReady(f, n);
    SegmentInFrame(b, Prefix(f), f.ip6.Some?, Segment(f, n), L4Header(f, n), L4Tail(f, n), CsumAt(f), IpProto(f),
                   IpPayloadLen(f), Addresses(f, n));
  }

  /**
   Every frame the builder makes is well-formed: each IPv4 header (section 3.1 of RFC 791) and
   each UDP or TCP segment with its pseudo-header (RFC 768, section 3.1 of RFC 9293, section 8.1
   of RFC 8200) sums to 0xFFFF, and each length field reaches the end of the frame.
   */
  lemma FrameIsValid(f: Flow, n: u32)
    requires !f.traffic.template.L2Raw?
    ensures var b, v6 := Frame(f, n), f.ip6.Some?;
            && |b| == FrameLen(f)
            && (if v6 then Ip6Valid(b, Prefix(f)) else Ip4Valid(b, Prefix(f)))
            && (!f.traffic.template.L3Raw? ==> L4Valid(b, Prefix(f), v6))
            && (Tunnelled(f) ==> if f.encap.value.outer.Outer6? then Ip6Valid(b, L3Off(f)) else Ip4Valid(b, L3Off(f)))
  {
    FramePieces(f, n);
    InnerIpValid(f, n, Frame(f, n));
    if !f.traffic.template.L3Raw? { L4IsValid(f, n, Frame(f, n)); }
    if Tunnelled(f) {
      TunnelPieces(f, Frame(f, n));
      OuterIpValid(f, Frame(f, n));
    }
  }
}
