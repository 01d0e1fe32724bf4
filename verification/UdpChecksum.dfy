/**
 When a built UDP frame has the checksum 0, which RFC 768 reserves for "no checksum" and
 section 8.1 of RFC 8200 forbids: the builder writes what it computes.
 */
module UdpChecksum {
  import opened Basics
  import opened Config
  import opened Classifier
  import opened Modifiers
  import opened Checksum
  import opened Frames

  predicate IsUdp(f: Flow) { (f.traffic.template.Test? || f.traffic.template.L4Raw?) && !IsTcp(f) }

  /** What the checksum of packet n is computed over. */
  function UdpSum(f: Flow, n: u32): nat
    requires IsUdp(f)
  {
    PseudoSum(17, IpPayloadLen(f), Addresses(f, n)) + Sum16(SegmentRaw(f, n))
  }

  /** Offset of the UDP checksum in the frame. */
  function UdpCsumOff(f: Flow): nat { Prefix(f) + InnerIpLen(f) + 6 }

  lemma StoredAt(b: Bytes, at: nat, c: u16)
    requires at + 2 <= |b|
    ensures BE16(Put16(b, at, c), at) == c
  {
    assert Num16(Half16(c)) == c;
  }

  /** The checksum field of a sealed segment found in a frame. */
  lemma SealedField(b: Bytes, o: nat, h: Bytes, t: Bytes, init: nat)
    requires |h| == 8 && At(b, o, Sealed(h, t, 6, init))
    ensures o + 8 <= |b| && BE16(b, o + 6) == Csum(h + t, init)
  {
    var s := Sealed(h, t, 6, init);
    StoredAt(h + t, 6, Csum(h + t, init));
    AtByte(b, o, s, 6);
    AtByte(b, o, s, 7);
  }

  lemma FieldIsCsum(f: Flow, n: u32, b: Bytes)
    requires IsUdp(f) && At(b, Prefix(f) + InnerIpLen(f), Body(f, n))
    ensures UdpCsumOff(f) + 2 <= |b|
    ensures BE16(b, UdpCsumOff(f)) == Csum(SegmentRaw(f, n), PseudoSum(17, IpPayloadLen(f), Addresses(f, n)))
  {
    SealedField(b, Prefix(f) + InnerIpLen(f), L4Header(f, n), L4Tail(f, n),
                PseudoSum(17, IpPayloadLen(f), Addresses(f, n)));
  }

  lemma FieldFits(f: Flow)
    requires IsUdp(f)
    ensures UdpCsumOff(f) + 2 <= FrameLen(f)
  {}

  /** The checksum field of a frame of this flow. */
  function FieldOf(f: Flow, b: Bytes): nat
    requires IsUdp(f) && |b| == FrameLen(f)
  {
    FieldFits(f);
    BE16(b, UdpCsumOff(f))
  }

  lemma ZeroIn(f: Flow, n: u32, b: Bytes)
    requires IsUdp(f) && |b| == FrameLen(f) && At(b, Prefix(f) + InnerIpLen(f), Body(f, n))
    ensures FieldOf(f, b) == 0 <==> UdpSum(f, n) % 0xFFFF == 0
  {
    FieldIsCsum(f, n, b);
    CsumZero(FieldOf(f, b), SegmentRaw(f, n), PseudoSum(17, IpPayloadLen(f), Addresses(f, n)), UdpSum(f, n));
  }

  lemma CsumZero(field: nat, raw: Bytes, init: nat, sum: nat)
    requires field == Csum(raw, init) && init > 0 && sum == init + Sum16(raw)
    ensures field == 0 <==> sum % 0xFFFF == 0
  {
    ZeroChecksum(raw, init);
  }

  lemma BodyAt(f: Flow, n: u32, b: Bytes)
    requires IsUdp(f) && b == Frame(f, n)
    ensures |b| == FrameLen(f) && At(b, Prefix(f) + InnerIpLen(f), Body(f, n))
  {
    FramePieces(f, n);
  }

  /** The checksum field of packet n is 0 exactly when its sum is a multiple of 0xFFFF. */
  lemma ZeroExactly(f: Flow, n: u32, b: Bytes)
    requires IsUdp(f) && b == Frame(f, n)
    ensures |b| == FrameLen(f) && (FieldOf(f, b) == 0 <==> UdpSum(f, n) % 0xFFFF == 0)
  {
    BodyAt(f, n, b);
    ZeroIn(f, n, b);
  }

  // ---- it happens to every plain test flow ------------------------------------------------------------

  /** A UDP test flow whose ports and addresses do not vary. */
  predicate Plain(f: Flow) {
    && IsUdp(f) && f.traffic.template.Test?
    && f.mods.udpSrc.mode == f.mods.udpDst.mode == f.mods.srcIp.mode == f.mods.dstIp.mode == 0
  }

  lemma PlainFields(f: Flow, n: u32)
    requires Plain(f)
    ensures Addresses(f, n) == Addresses(f, 0) && L4Header(f, n) == L4Header(f, 0)
  {}

  /** The test header's sum grows with the low half of the sequence number. */
  lemma TailSum(f: Flow, n: u16)
    requires Plain(f)
    ensures Sum16(L4Tail(f, n)) == Sum16(L4Tail(f, 0)) + n
  {
    var z := Zeros(IpPayloadLen(f) - L4HeaderLen(f) - 32);
    TestTail(Word32(f.id), n, z);
    TestTail(Word32(f.id), 0, z);
    TailIs(f, n, z);
    TailIs(f, 0, z);
  }

  lemma TailIs(f: Flow, n: u32, z: Bytes)
    requires Plain(f) && z == Zeros(IpPayloadLen(f) - L4HeaderLen(f) - 32)
    ensures L4Tail(f, n) == TestBytes(Word32(f.id), n) + z
  {}

  function TestBytes(id: Word, n: u32): (b: Bytes)
    ensures |b| == 32
  {
    TEST_MAGIC + [0x00, 0x01, 0, 0] + id + [0, 0, 0, 0] + Word32(n) + Zeros(12)
  }

  lemma TestTail(id: Word, n: u16, z: Bytes)
    ensures Sum16(TestBytes(id, n) + z) == Sum16(TestBytes(id, 0) + z) + n
  {
    var h := TEST_MAGIC + [0x00, 0x01, 0, 0] + id + [0, 0, 0, 0];
    SumWithWord(h, n, Zeros(12) + z);
    SumWithWord(h, 0, Zeros(12) + z);
    assert TestBytes(id, n) + z == h + (Word32(n) + (Zeros(12) + z));
    assert TestBytes(id, 0) + z == h + (Word32(0) + (Zeros(12) + z));
  }

  lemma SmallWord(n: u16)
    ensures Word32(n) == [0, 0] + Half16(n)
  {}

  lemma SumWithWord(h: Bytes, n: u16, t: Bytes)
    requires |h| % 2 == 0
    ensures Sum16(h + (Word32(n) + t)) == Sum16(h) + n + Sum16(t)
  {
    SumConcat(h, Word32(n) + t);
    SmallWord(n);
    assert [0, 0] + Half16(n) + t == [0, 0] + (Half16(n) + t);
    HalfSum([0, 0], Half16(n) + t);
    HalfSum(Half16(n), t);
  }

  lemma SumGrows(f: Flow, n: u16)
    requires Plain(f)
    ensures UdpSum(f, n) == UdpSum(f, 0) + n
  {
    PlainFields(f, n);
    TailSum(f, n);
    SumConcat(L4Header(f, n), L4Tail(f, n));
    SumConcat(L4Header(f, 0), L4Tail(f, 0));
  }

  /** The sequence number below 0xFFFF at which it happens. */
  function ZeroSeq(f: Flow): (n: u16)
    requires IsUdp(f)
    ensures n < 0xFFFF
  {
    (0xFFFF - UdpSum(f, 0) % 0xFFFF) % 0xFFFF
  }

  lemma MultipleOnce(s: nat, n: nat)
    requires n < 0xFFFF
    ensures (s + n) % 0xFFFF == 0 <==> n == (0xFFFF - s % 0xFFFF) % 0xFFFF
  {}

  /** Of the first 65535 frames of every plain UDP test flow exactly one has checksum 0. */
  lemma EveryFlowHasOne(f: Flow, n: u16, b: Bytes)
    requires Plain(f) && n < 0xFFFF && b == Frame(f, n)
    ensures |b| == FrameLen(f) && (FieldOf(f, b) == 0 <==> n == ZeroSeq(f))
  {
    ZeroExactly(f, n, b);
    OnceIn(f, n);
  }

  lemma OnceIn(f: Flow, n: u16)
    requires Plain(f) && n < 0xFFFF
    ensures UdpSum(f, n) % 0xFFFF == 0 <==> n == ZeroSeq(f)
  {
    SumGrows(f, n);
    MultipleOnce(UdpSum(f, 0), n);
  }
}
