/** pw_flow_build_preview: the frame of packet n, written into a buffer through a cursor. */
module FrameBuilder {
  import opened Basics
  import opened Config
  import opened Classifier
  import opened HashKeys
  import opened FlowRows
  import opened Modifiers
  import opened Checksum
  import opened Frames

  /** The buffer starts with p and is zero behind it. */
  ghost predicate Holds(buf: array<u8>, p: Bytes)
    reads buf
  {
    |p| <= buf.Length && buf[..] == p + Zeros(buf.Length - |p|)
  }

  method Clear(buf: array<u8>)
    modifies buf
    ensures Holds(buf, [])
  {
    for i := 0 to buf.Length
      invariant forall j | 0 <= j < i :: buf[j] == 0
    {
      buf[i] := 0;
    }
    assert buf[..] == [] + Zeros(buf.Length);
  }

  /** PUT, for every byte of b: refused as soon as the cursor reaches the end of the buffer. */
  method Put(buf: array<u8>, o: nat, b: Bytes, ghost p: Bytes) returns (ok: bool, o': nat)
    requires Holds(buf, p) && o == |p|
    modifies buf
    ensures ok <==> o + |b| <= buf.Length
    ensures ok ==> o' == o + |b| && Holds(buf, p + b)
  {
    o' := o;
    for i := 0 to |b|
      invariant o' == o + i <= buf.Length && Holds(buf, p + b[..i])
    {
      if o' >= buf.Length { return false, o'; }
      ghost var q := p + b[..i];
      buf[o'] := b[i];
      o' := o' + 1;
      assert buf[..] == (q + [b[i]]) + Zeros(buf.Length - o');
      assert q + [b[i]] == p + b[..i + 1];
    }
    assert b[..|b|] == b;
    ok := true;
  }

  /** wbe16 into bytes already written. */
  method Store16(buf: array<u8>, at: nat, c: u16, ghost p: Bytes)
    requires Holds(buf, p) && at + 2 <= |p|
    modifies buf
    ensures Holds(buf, Put16(p, at, c))
  {
    var h := Half16(c);
    buf[at] := h[0];
    buf[at + 1] := h[1];
    assert buf[..] == Put16(p, at, c) + Zeros(buf.Length - |p|);
  }

  lemma PutBehind(p: Bytes, h: Bytes, at: nat, c: u16)
    requires at + 2 <= |h|
    ensures Put16(p + h, |p| + at, c) == p + Put16(h, at, c)
  {}

  /** An IPv4 header: written with an empty checksum, which is then computed from the buffer. */
  method PutIp4(buf: array<u8>, o: nat, dscp: u8, total: u16, ttl: u8, proto: u8, src: Word, dst: Word, ghost p: Bytes)
    returns (ok: bool, o': nat)
    requires Holds(buf, p) && o == |p|
    modifies buf
    ensures ok <==> o + 20 <= buf.Length
    ensures ok ==> o' == o + 20 && Holds(buf, p + Ip4Bytes(dscp, total, ttl, proto, src, dst))
  {
    var h := Ip4Raw(dscp, total, ttl, proto, src, dst);
    ok, o' := Put(buf, o, h, p);
    if !ok { return; }
    SealHeader(buf, o, p, h);
  }

  /** Fill in the checksum of the 20-byte header just written. */
  method SealHeader(buf: array<u8>, o: nat, ghost p: Bytes, ghost h: Bytes)
    requires Holds(buf, p + h) && o == |p| && |h| == 20
    modifies buf
    ensures Holds(buf, p + Checksummed(h, 10, 0))
  {
    SliceIs(buf, p, h);
    var c := OnesCsum(buf, o, 20, 0);
    Store16(buf, o + 10, c, p + h);
    PutBehind(p, h, 10, c);
  }

  lemma SliceIs(buf: array<u8>, p: Bytes, h: Bytes)
    requires Holds(buf, p + h)
    ensures buf[|p|..|p| + |h|] == h
  {
    assert buf[|p|..|p| + |h|] == buf[..][|p|..|p| + |h|];
  }

  /** MACs and tag. */
  method PutEth(f: Flow, n: u32, buf: array<u8>) returns (ok: bool, o: nat)
    requires Holds(buf, [])
    modifies buf
    ensures ok <==> 12 + TagLen(f) <= buf.Length
    ensures ok ==> o == 12 + TagLen(f) && Holds(buf, EthHead(f, n))
  {
    var d: Bytes, m: Bytes := DstMac(f, n), SrcMac(f, n);
    var tag: Bytes := if f.l2.vlanSet then [0x81, 0x00] + Tci(f.l2.pcp, VlanId(f, n)) else [];
    ok, o := Put(buf, 0, d, []);
    if !ok { return; }
    ok, o := Put(buf, o, m, [] + d);
    if !ok { return; }
    ok, o := Put(buf, o, tag, [] + d + m);
    Assoc([], d, m, tag);
  }

  method PutOuterIp(f: Flow, buf: array<u8>, o: nat, ghost p: Bytes) returns (ok: bool, o': nat)
    requires Tunnelled(f) && Holds(buf, p) && o == |p|
    modifies buf
    ensures ok <==> o + OuterHeaderLen(f.encap.value.outer) <= buf.Length
    ensures ok ==> o' == o + OuterHeaderLen(f.encap.value.outer) && Holds(buf, p + OuterIp(f))
  {
    match f.encap.value.outer {
      case Outer4(x) =>
        ok, o' := PutIp4(buf, o, x.dscp, Clip16(FrameLen(f) - L3Off(f)), x.ttl, OuterProto(f), x.src, x.dst, p);
      case Outer6(x) =>
        ok, o' := Put(buf, o, Ip6Bytes(x.dscp, Clip16(FrameLen(f) - L3Off(f) - 40), OuterProto(f), x.hopLimit,
                                       x.src, x.dst), p);
    }
  }

  lemma Assoc(p: Bytes, a: Bytes, b: Bytes, c: Bytes)
    ensures p + a + b + c == p + (a + b + c)
  {}

  /** Ethertype, outer IP header and tunnel header. */
  method PutOuter(f: Flow, buf: array<u8>, o: nat, ghost p: Bytes) returns (ok: bool, o': nat)
    requires Tunnelled(f) && Holds(buf, p) && o == |p|
    modifies buf
    ensures ok <==> o + 2 + Prefix(f) - L3Off(f) <= buf.Length
    ensures ok ==> o' == o + 2 + Prefix(f) - L3Off(f) && Holds(buf, p + Middle(f))
  {
    var et: Bytes := EtherTypeOf(f.encap.value.outer.Outer6?);
    ok, o' := Put(buf, o, et, p);
    if !ok { return; }
    ok, o' := PutOuterIp(f, buf, o', p + et);
    if !ok { return; }
    ok, o' := Put(buf, o', Tunnel(f), p + et + OuterIp(f));
    Assoc(p, et, OuterIp(f), Tunnel(f));
  }

  method PutMiddle(f: Flow, buf: array<u8>, o: nat, ghost p: Bytes) returns (ok: bool, o': nat)
    requires !f.traffic.template.L2Raw? && Holds(buf, p) && o == |p|
    modifies buf
    ensures ok <==> o + 2 + Prefix(f) - L3Off(f) <= buf.Length
    ensures ok ==> o' == o + 2 + Prefix(f) - L3Off(f) && Holds(buf, p + Middle(f))
  {
    if Tunnelled(f) {
      ok, o' := PutOuter(f, buf, o, p);
    } else {
      ok, o' := Put(buf, o, InnerType(f), p);
    }
  }

  method PutInnerIp(f: Flow, n: u32, buf: array<u8>, o: nat, ghost p: Bytes) returns (ok: bool, o': nat)
    requires !f.traffic.template.L2Raw? && Holds(buf, p) && o == |p|
    modifies buf
    ensures ok <==> o + InnerIpLen(f) <= buf.Length
    ensures ok ==> o' == o + InnerIpLen(f) && Holds(buf, p + InnerIp(f, n))
  {
    match f.ip6 {
      case None =>
        ok, o' := PutIp4(buf, o, f.ip4.dscp, Clip16(20 + IpPayloadLen(f)), f.ip4.ttl, IpProto(f), SrcIp4(f, n),
                         DstIp4(f, n), p);
      case Some(x) =>
        var src := Mod128(f.mods.srcIp.mode, Src6(f), f.mods.srcIp6Mask, n, SALT_SRC);
        var dst := Mod128(f.mods.dstIp.mode, Dst6(f), f.mods.dstIp6Mask, n, SALT_DST);
        ok, o' := Put(buf, o, Ip6Bytes(x.dscp, Clip16(IpPayloadLen(f)), IpProto(f), x.hopLimit, src, dst), p);
    }
  }

  /** The zeros behind what was written can be counted in. */
  lemma PadIsThere(buf: array<u8>, p: Bytes, k: nat)
    requires Holds(buf, p) && |p| + k <= buf.Length
    ensures Holds(buf, p + Zeros(k))
  {
    assert Zeros(buf.Length - |p|) == Zeros(k) + Zeros(buf.Length - |p| - k);
  }

  lemma Regroup(p: Bytes, a: Bytes, b: Bytes, c: Bytes)
    ensures p + a + b + c == p + (a + (b + c))
  {}

  /** Headers of the segment, as PUT: transport header and test header. */
  method PutL4(f: Flow, n: u32, buf: array<u8>, o: nat, ghost p: Bytes) returns (ok: bool, o': nat)
    requires !f.traffic.template.L2Raw? && !f.traffic.template.L3Raw? && LenOk(f)
    requires Holds(buf, p) && o == |p| && o + IpPayloadLen(f) <= buf.Length
    modifies buf
    ensures ok && o' == o + L4HeaderLen(f) + (if f.traffic.template.Test? then 32 else 0)
    ensures Holds(buf, p + SegmentRaw(f, n))
  {
    ghost var z := IpPayloadLen(f) - L4HeaderLen(f);
    if f.traffic.template.Test? {
      ok, o' := PutTest(buf, o, L4Header(f, n), TestHeader(f, n), z - 32, p);
    } else {
      ok, o' := PutPlain(buf, o, L4Header(f, n), z, p);
    }
  }

  /** A transport header with padding behind it, which the buffer already holds. */
  method PutPlain(buf: array<u8>, o: nat, h: Bytes, ghost z: nat, ghost p: Bytes) returns (ok: bool, o': nat)
    requires Holds(buf, p) && o == |p| && o + |h| + z <= buf.Length
    modifies buf
    ensures ok && o' == o + |h| && Holds(buf, p + (h + Zeros(z)))
  {
    ok, o' := Put(buf, o, h, p);
    PadIsThere(buf, p + h, z);
    JoinAssoc(p, h, Zeros(z));
  }

  /** ... and with the test header in between. */
  method PutTest(buf: array<u8>, o: nat, h: Bytes, t: Bytes, ghost z: nat, ghost p: Bytes) returns (ok: bool, o': nat)
    requires Holds(buf, p) && o == |p| && o + |h| + |t| + z <= buf.Length
    modifies buf
    ensures ok && o' == o + |h| + |t| && Holds(buf, p + (h + (t + Zeros(z))))
  {
    ok, o' := Put(buf, o, h, p);
    ok, o' := Put(buf, o', t, p + h);
    PadIsThere(buf, p + h + t, z);
    Regroup(p, h, t, Zeros(z));
  }

  lemma PseudoSmall(f: Flow, n: u32)
    ensures |Addresses(f, n)| <= 32 && Sum16(Addresses(f, n)) <= 0xFFFF * 16
  {
    SumBound(Addresses(f, n));
  }

  /** The whole transport segment, checksum computed over the buffer. */
  method PutSegment(f: Flow, n: u32, buf: array<u8>, o: nat, ghost p: Bytes) returns (o': nat)
    requires !f.traffic.template.L2Raw? && !f.traffic.template.L3Raw? && LenOk(f)
    requires Holds(buf, p) && o == |p| && o + IpPayloadLen(f) <= buf.Length
    modifies buf
    ensures o' == o + L4HeaderLen(f) + (if f.traffic.template.Test? then 32 else 0)
    ensures Holds(buf, p + Segment(f, n))
  {
    var ok;
    ok, o' := PutL4(f, n, buf, o, p);
    PseudoSmall(f, n);
    FillChecksum(buf, o, CsumAt(f), IpPayloadLen(f), IpProto(f), Addresses(f, n), p, SegmentRaw(f, n));
  }

  /** Compute the transport checksum over the segment in the buffer and store it. */
  method FillChecksum(buf: array<u8>, o: nat, at: nat, len: nat, proto: u8, addrs: Bytes, ghost p: Bytes,
                      ghost raw: Bytes)
    requires Holds(buf, p + raw) && o == |p| && |raw| == len <= 9100 && at + 2 <= len
    requires |addrs| <= 32 && Sum16(addrs) <= 0xFFFF * 16
    modifies buf
    ensures Holds(buf, p + Checksummed(raw, at, PseudoSum(proto, len, addrs)))
  {
    SliceIs(buf, p, raw);
    var init := AddWords(addrs, proto + len);
    var c := OnesCsum(buf, o, len, init);
    Store16(buf, o + at, c, p + raw);
    PutBehind(p, raw, at, c);
  }

  /** Bytes of headers, including the test header: what the caller may want to show. */
  function BuiltLen(f: Flow): nat { if f.traffic.template.L2Raw? then L3Off(f) else Floor(f) }

  /** The buffer has room for the frame, and for the headers of a raw frame shorter than them. */
  predicate Fits(f: Flow, cap: nat) {
    ConfiguredLen(f) <= cap && if f.traffic.template.L2Raw? then L3Off(f) <= cap else FrameLen(f) <= cap
  }

  method PutRaw(f: Flow, n: u32, buf: array<u8>, o: nat) returns (ok: bool, built: nat)
    requires f.traffic.template.L2Raw? && LenOk(f) && Holds(buf, EthHead(f, n)) && o == 12 + TagLen(f)
    requires ConfiguredLen(f) <= buf.Length
    modifies buf
    ensures ok <==> L3Off(f) <= buf.Length
    ensures ok ==> built == BuiltLen(f) && buf[..FrameLen(f)] == Frame(f, n)
  {
    ok, built := Put(buf, o, RawEtherType(f), EthHead(f, n));
    if ok {
      ghost var h := EthHead(f, n) + RawEtherType(f);
      RawPrefix(buf[..], h, FrameLen(f));
    }
  }

  lemma RawPrefix(b: Bytes, h: Bytes, len: nat)
    requires |h| <= |b| && len <= |b| && b == h + Zeros(|b| - |h|)
    ensures b[..len] == (h + Zeros(len))[..len]
  {}

  method PutIpFrame(f: Flow, n: u32, buf: array<u8>, o: nat) returns (built: nat)
    requires !f.traffic.template.L2Raw? && LenOk(f) && Holds(buf, EthHead(f, n)) && o == 12 + TagLen(f)
    requires FrameLen(f) <= buf.Length
    modifies buf
    ensures built == BuiltLen(f) && Holds(buf, Frame(f, n))
  {
    ghost var e := EthHead(f, n);
    var ok, o' := PutMiddle(f, buf, o, e);
    ok, o' := PutInnerIp(f, n, buf, o', e + Middle(f));
    ghost var q := e + Middle(f) + InnerIp(f, n);
    if f.traffic.template.L3Raw? {
      PadIsThere(buf, q, IpPayloadLen(f));
      built := o';
    } else {
      built := PutSegment(f, n, buf, o', q);
    }
  }

  /**
   pw_flow_build_preview. It refuses exactly the lengths outside 14..9100 and the frames that do
   not fit the buffer; otherwise the buffer starts with the frame.
   */
  method BuildPreview(f: Flow, n: u32, buf: array<u8>) returns (len: int, built: nat)
    modifies buf
    ensures len == if LenOk(f) && Fits(f, buf.Length) then FrameLen(f) else -1
    ensures len >= 0 ==> buf[..len] == Frame(f, n) && built == BuiltLen(f)
  {
    built := 0;
    Clear(buf);
    var want := ConfiguredLen(f);
    if want < 14 || want > 9100 || want > buf.Length { return -1, 0; }
    var ok, o := PutEth(f, n, buf);
    if !ok { return -1, 0; }
    if f.traffic.template.L2Raw? {
      ok, built := PutRaw(f, n, buf, o);
      if !ok { return -1, 0; }
      return want, built;
    }
    len := FrameLen(f);
    if len > buf.Length { return -1, 0; }
    built := PutIpFrame(f, n, buf, o);
    assert buf[..][..len] == Frame(f, n);
    assert buf[..len] == buf[..][..len];
  }
}
