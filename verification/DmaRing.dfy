/**
 The C2H circular DMA ring (backend_bar.c): the pool layout, the descriptor ring as bytes in
 host memory, the engine that walks it, and the host that reaps completed frames.
 */
module DmaRing {
  import opened Basics

  const RING := 16
  const FRAME_CAP := 16384
  const HDR_LEN := 8
  const DESC := 32
  const OFF_RING := 64
  const OFF_TX := (OFF_RING + RING * DESC + 63) / 64 * 64
  const OFF_RX := OFF_TX + FRAME_CAP
  const POOL := 1024 + (1 + RING) * FRAME_CAP
  const WRAP := 0x1_0000_0000
  const M64 := 0x1_0000_0000_0000_0000

  // ---- bytes in memory --------------------------------------------------------------------------

  /** The k-byte little-endian form of n. */
  function LE(n: nat, k: nat): (b: Bytes)
    ensures |b| == k
  {
    if k == 0 then [] else [n % 0x100] + LE(n / 0x100, k - 1)
  }

  function FromLE(b: Bytes): nat {
    if b == [] then 0 else b[0] + 0x100 * FromLE(b[1..])
  }

  function Pow256(k: nat): (r: nat)
    ensures r > 0
  {
    if k == 0 then 1 else 0x100 * Pow256(k - 1)
  }

  lemma {:induction false} LERound(n: nat, k: nat)
    requires n < Pow256(k)
    ensures FromLE(LE(n, k)) == n
  {
    if k > 0 {
      LERound(n / 0x100, k - 1);
      assert LE(n, k)[1..] == LE(n / 0x100, k - 1);
    }
  }

  /** A 64-bit address in a descriptor. */
  const ADDR_BYTES := 8
  function Addr64(n: nat): (b: Bytes)
    ensures |b| == 8
  {
    LE(n, ADDR_BYTES)
  }

  /** A 32-bit length in a descriptor, for lengths below 2^16. */
  function Size32(n: u16): (b: Bytes)
    ensures |b| == 4
  {
    [n % 0x100, n / 0x100, 0, 0]
  }

  lemma Addr64Round(n: nat)
    requires n < M64
    ensures FromLE(Addr64(n)) == n
  {
    assert Pow256(4) == 0x1_0000_0000;
    assert Pow256(8) == 0x1_0000 * 0x1_0000 * Pow256(4);
    LERound(n, 8);
  }

  function Store(mem: Bytes, off: nat, b: Bytes): (r: Bytes)
    requires off + |b| <= |mem|
    ensures |r| == |mem|
    ensures r[..off] == mem[..off] && r[off..off + |b|] == b && r[off + |b|..] == mem[off + |b|..]
  {
    mem[..off] + b + mem[off + |b|..]
  }

  // ---- the pool -----------------------------------------------------------------------------------

  /** The regions of the pool, as (start, length): descriptors, transmit buffer, receive buffer i. */
  function Region(i: nat): (int, int) {
    if i == 0 then (0, DESC)
    else if i == 1 then (OFF_RING, RING * DESC)
    else if i == 2 then (OFF_TX, FRAME_CAP)
    else (OFF_RX + (i - 3) * FRAME_CAP, FRAME_CAP)
  }

  /** All regions lie in the pool and no two overlap. */
  lemma LayoutDisjoint(i: nat, j: nat)
    requires i < j < 3 + RING
    ensures Region(i).0 + Region(i).1 <= Region(j).0
    ensures Region(j).0 + Region(j).1 <= POOL && Region(j).0 % 64 == 0
  {
    if i >= 3 {
      assert (j - 3) * FRAME_CAP >= (i - 3) * FRAME_CAP + FRAME_CAP;
    }
  }

  function DescOff(i: nat): nat { OFF_RING + i * DESC }
  function BufOff(i: nat): nat { OFF_RX + i * FRAME_CAP }

  /** Destination and next-descriptor addresses of the descriptor at byte offset o. */
  function DstAt(mem: Bytes, o: nat): nat
    requires o + DESC <= |mem|
  {
    FromLE(mem[o + 16..o + 24])
  }

  function NextAt(mem: Bytes, o: nat): nat
    requires o + DESC <= |mem|
  {
    FromLE(mem[o + 24..o + 32])
  }

  /** A descriptor: control word with its magic, transfer length, source, destination and next descriptor. */
  function DescBytes(flags: u8, bytes: u16, src: nat, dst: nat, next: nat): (b: Bytes)
    ensures |b| == DESC && b[16..24] == Addr64(dst) && b[24..32] == Addr64(next)
    ensures b[0] == flags && b[1..4] == [0x00, 0x4B, 0xAD] && b[4..8] == Size32(bytes) && b[8..16] == Addr64(src)
  {
    FiveParts([flags, 0x00, 0x4B, 0xAD], Size32(bytes), Addr64(src), Addr64(dst), Addr64(next));
    [flags, 0x00, 0x4B, 0xAD] + Size32(bytes) + Addr64(src) + Addr64(dst) + Addr64(next)
  }

  lemma FiveParts(a: Bytes, b: Bytes, c: Bytes, d: Bytes, e: Bytes)
    requires |a| == |b| == 4 && |c| == |d| == |e| == 8
    ensures var s := a + b + c + d + e;
            |s| == DESC && s[0] == a[0] && s[1..4] == a[1..4] && s[4..8] == b && s[8..16] == c && s[16..24] == d
            && s[24..32] == e
  {
    var s := a + b + c + d + e;
    assert s[1..4] == a[1..4] && s[4..8] == b;
    assert s[8..16] == c;
    assert s[16..24] == d;
    assert s[24..32] == e;
  }

  // Flags: stop after this descriptor, report completion, end of packet.
  const STOP_FLAG := 0x01
  const COMPLETED_FLAG := 0x02
  const EOP_FLAG := 0x10

  /** The transmit descriptor for a buffer of this many bytes. */
  function TxDesc(iova: nat, bytes: u16): Bytes {
    DescBytes(STOP_FLAG + COMPLETED_FLAG + EOP_FLAG, bytes, iova + OFF_TX, 0, 0)
  }

  /** The descriptor of receive buffer i. */
  function RxDesc(iova: nat, i: nat): Bytes {
    DescBytes(COMPLETED_FLAG, FRAME_CAP, 0, iova + BufOff(i), iova + DescOff((i + 1) % RING))
  }

  /** Control word and length of a receive descriptor: 0xAD4B0002, no stop flag, and 16384 bytes, little-endian. */
  const RX_FRONT: Bytes := [0x02, 0x00, 0x4B, 0xAD, 0x00, 0x40, 0x00, 0x00]

  /** Control word of the transmit descriptor, 0xAD4B0013: stop, completion, end of packet. */
  const TX_FRONT: Bytes := [0x13, 0x00, 0x4B, 0xAD]

  /** One descriptor that sends these many bytes from the transmit buffer, and no other after it. */
  predicate Sends(d: Bytes, iova: nat, bytes: nat) {
    && |d| == 32 && d[0..4] == TX_FRONT
    && d[4] as int + 0x100 * d[5] as int == bytes && d[6] == 0 && d[7] == 0
    && FromLE(d[8..16]) == iova + OFF_TX && FromLE(d[16..24]) == 0 && FromLE(d[24..32]) == 0
  }

  lemma TxSends(iova: nat, bytes: u16)
    requires iova + OFF_TX < M64
    ensures Sends(TxDesc(iova, bytes), iova, bytes)
  {
    var d := TxDesc(iova, bytes);
    Addr64Round(iova + OFF_TX);
    Addr64Round(0);
    assert d[0..4] == [d[0]] + d[1..4];
    assert d[4..8][0] == d[4] && d[4..8][1] == d[5] && d[4..8][2] == d[6] && d[4..8][3] == d[7];
  }

  /** Descriptor i delivers up to 16384 bytes into buffer i and leads to descriptor i + 1, around the ring. */
  predicate Linked(mem: Bytes, iova: nat, i: nat) {
    && |mem| == POOL && i < RING
    && mem[DescOff(i)..DescOff(i) + 8] == RX_FRONT
    && DstAt(mem, DescOff(i)) == iova + BufOff(i)
    && NextAt(mem, DescOff(i)) == iova + DescOff((i + 1) % RING)
  }

  predicate LinkedUpTo(mem: Bytes, iova: nat, n: nat) { forall i | 0 <= i < n :: Linked(mem, iova, i) }

  predicate RingOk(mem: Bytes, iova: nat) { forall i | 0 <= i < RING :: Linked(mem, iova, i) }

  /** The ring depends only on its own bytes. */
  lemma RingStays(m0: Bytes, m1: Bytes, iova: nat)
    requires |m0| == |m1| == POOL && RingOk(m0, iova) && m1[OFF_RING..OFF_TX] == m0[OFF_RING..OFF_TX]
    ensures RingOk(m1, iova)
  {
    forall i | 0 <= i < RING ensures Linked(m1, iova, i) {
      assert Linked(m0, iova, i);
      SliceAgrees(m0, m1, DescOff(i));
      SliceAgrees(m0, m1, DescOff(i) + 16);
      SliceAgrees(m0, m1, DescOff(i) + 24);
    }
  }

  lemma SliceAgrees(m0: Bytes, m1: Bytes, o: nat)
    requires |m0| == |m1| == POOL && m1[OFF_RING..OFF_TX] == m0[OFF_RING..OFF_TX]
    requires OFF_RING <= o && o + 8 <= OFF_TX
    ensures m1[o..o + 8] == m0[o..o + 8]
  {
    forall k | o <= k < o + 8 ensures m1[k] == m0[k] {
      assert m1[OFF_RING..OFF_TX][k - OFF_RING] == m0[OFF_RING..OFF_TX][k - OFF_RING];
    }
  }

  // ---- frames ---------------------------------------------------------------------------------------

  /** A punted frame as the data plane hands it over. */
  datatype Punt = Punt(lif: u32, frame: Bytes)

  predicate Fits(p: Punt) { HDR_LEN + |p.frame| <= FRAME_CAP }

  /** The in-band header: logical interface, and the length when the bitstream carries it. */
  function Image(p: Punt, carriesLen: bool): (b: Bytes)
    ensures |b| == HDR_LEN + |p.frame|
  {
    LE(p.lif, 4) + [0] + (if carriesLen then LE(|p.frame|, 2) else [0, 0]) + [0] + p.frame
  }

  /** punt_frame_len: the length the frame's own headers give, 0 if unrecognised. */
  function PuntFrameLen(f: Bytes, cap: nat): nat
    requires |f| >= 20
  {
    var et := BE16(f, 12);
    var len := if et < 0x0600 then 14 + et
               else if et == 0x0800 then 14 + BE16(f, 16)
               else if et == 0x86DD then 54 + BE16(f, 18)
               else if et == 0x0806 then 42
               else 0;
    if len > cap then cap else len
  }

  /** The bytes the host derives the length from are all the frame's own. */
  predicate Known(p: Punt, carriesLen: bool) { if carriesLen then |p.frame| > 0 else |p.frame| >= 20 }

  /** The length the host then takes it to have. */
  function HostLen(p: Punt, carriesLen: bool): nat
    requires Known(p, carriesLen)
  {
    if carriesLen then |p.frame| else PuntFrameLen(p.frame, FRAME_CAP - HDR_LEN)
  }

  /** The host can tell how long this frame is. */
  predicate Measurable(p: Punt, carriesLen: bool) {
    Known(p, carriesLen) && HostLen(p, carriesLen) == |p.frame|
  }

  /**
   The frame's own headers say it is n bytes long: an IPv4 frame whose total length reaches that
   far behind the 14 bytes of Ethernet, an IPv6 frame whose payload length does behind 54, an
   802.3 frame whose length field does behind 14, or an ARP frame of 42 bytes.
   */
  predicate Tells(f: Bytes, n: nat) {
    && |f| >= 20
    && (|| (f[12] == 0x08 && f[13] == 0x00 && n == 14 + 256 * f[16] as int + f[17])
        || (f[12] == 0x86 && f[13] == 0xDD && n == 14 + 40 + 256 * f[18] as int + f[19])
        || (f[12] < 0x06 && n == 14 + 256 * f[12] as int + f[13])
        || (f[12] == 0x08 && f[13] == 0x06 && n == 42))
  }

  /** The host takes a frame to be as long as its headers say, or as the buffer holds. */
  lemma TakesAsTold(p: Punt, n: nat)
    requires Tells(p.frame, n)
    ensures HostLen(p, false) == Min(n, FRAME_CAP - HDR_LEN)
  {}

  /** It can tell the length of exactly the frames whose headers reach their end, or pass it in a full buffer. */
  lemma MeasurableExactly(p: Punt)
    requires Fits(p)
    ensures Measurable(p, false) <==> exists n: nat :: Tells(p.frame, n) && Min(n, FRAME_CAP - HDR_LEN) == |p.frame|
    ensures Tells(p.frame, |p.frame|) ==> Measurable(p, false)
  {
    if Measurable(p, false) {
      var f := p.frame;
      var et := BE16(f, 12);
      var n := if et < 0x0600 then 14 + 256 * f[12] as int + f[13]
               else if et == 0x0800 then 14 + 256 * f[16] as int + f[17]
               else if et == 0x86DD then 54 + 256 * f[18] as int + f[19]
               else 42;
      assert Tells(f, n);
    }
  }

  /** A frame whose headers tell its length, with or without padding behind, is handed over in that length. */
  lemma ToldIsDelivered(p: Punt, buflen: nat, r: Reaped, n: nat)
    requires Copied(p, false, buflen, r) && Tells(p.frame, n) && n <= |p.frame| && Fits(p)
    ensures r.data == p.frame[..Min(n, buflen)]
  {
    TakesAsTold(p, n);
    assert |r.data| == Min(n, buflen);
  }

  /** Without a length in the header, a frame of any other ethertype, such as LLDP, is taken to be empty. */
  lemma UnknownTypeIsEmpty(p: Punt)
    requires |p.frame| >= 20
    ensures HostLen(p, false) == 0 <==>
              var et := BE16(p.frame, 12); et >= 0x0600 && et != 0x0800 && et != 0x86DD && et != 0x0806
  {}

  const LLDP_FRAME: Bytes := [0x01, 0x80, 0xC2, 0, 0, 0x0E, 2, 0, 0, 0, 0, 1, 0x88, 0xCC, 2, 7, 4, 2, 0, 0, 0, 0, 0, 0]

  lemma LldpIsEmpty(lif: u32)
    ensures HostLen(Punt(lif, LLDP_FRAME), false) == 0 && HostLen(Punt(lif, LLDP_FRAME), true) == |LLDP_FRAME|
  {
    assert BE16(LLDP_FRAME, 12) == 0x88CC;
  }

  /** What the host reads out of one buffer. */
  function ReadLif(rb: Bytes): nat
    requires |rb| == FRAME_CAP
  {
    FromLE(rb[0..4])
  }

  function PayloadLen(rb: Bytes): nat
    requires |rb| == FRAME_CAP
  {
    var h := FromLE(rb[5..7]);
    Min(if h != 0 then h else PuntFrameLen(rb[HDR_LEN..], FRAME_CAP - HDR_LEN), FRAME_CAP - HDR_LEN)
  }

  lemma ImageParts(p: Punt, carriesLen: bool, rb: Bytes)
    requires |rb| == FRAME_CAP && Fits(p) && Image(p, carriesLen) <= rb
    ensures rb[0..4] == LE(p.lif, 4)
    ensures rb[5..7] == if carriesLen then LE(|p.frame|, 2) else [0, 0]
    ensures rb[HDR_LEN..][..|p.frame|] == p.frame
  {
    var im := Image(p, carriesLen);
    assert rb[0..4] == im[0..4] && rb[5..7] == im[5..7];
    assert rb[HDR_LEN..][..|p.frame|] == im[HDR_LEN..];
  }

  /** Reading back an undisturbed buffer gives the frame. */
  lemma ReadsBack(p: Punt, carriesLen: bool, rb: Bytes)
    requires |rb| == FRAME_CAP && Fits(p) && Image(p, carriesLen) <= rb
    ensures ReadLif(rb) == p.lif
    ensures Known(p, carriesLen) ==> PayloadLen(rb) == HostLen(p, carriesLen)
    ensures forall n | 0 <= n <= |p.frame| :: rb[HDR_LEN..HDR_LEN + n] == p.frame[..n]
  {
    ImageParts(p, carriesLen, rb);
    assert Pow256(2) == 0x1_0000 && Pow256(4) == 0x1_0000_0000;
    LERound(p.lif, 4);
    LERound(|p.frame|, 2);
    if !carriesLen && |p.frame| >= 20 {
      var f := rb[HDR_LEN..];
      assert forall k | 0 <= k < 20 :: f[k] == f[..|p.frame|][k];
      var z: Bytes := [0, 0];
      assert z[1..] == [0] && FromLE(z) == 0;
    }
    forall n | 0 <= n <= |p.frame| ensures rb[HDR_LEN..HDR_LEN + n] == p.frame[..n] {
      assert rb[HDR_LEN..][..|p.frame|][..n] == rb[HDR_LEN..HDR_LEN + n];
    }
  }

  // ---- ring arithmetic --------------------------------------------------------------------------------

  /** Two completions less than a ring apart use different buffers. */
  lemma SlotsDiffer(j: nat, t: nat)
    requires j < t < j + RING
    ensures j % RING != t % RING
  {}

  lemma BuffersApart(i: nat, j: nat)
    requires i != j
    ensures BufOff(i) + FRAME_CAP <= BufOff(j) || BufOff(j) + FRAME_CAP <= BufOff(i)
  {
    if i < j {
      assert (j - i) * FRAME_CAP >= FRAME_CAP;
    } else {
      assert (i - j) * FRAME_CAP >= FRAME_CAP;
    }
  }

  function Buf(mem: Bytes, i: nat): (b: Bytes)
    requires |mem| == POOL && i < RING
    ensures |b| == FRAME_CAP
  {
    mem[BufOff(i)..BufOff(i) + FRAME_CAP]
  }

  /** Writing into buffer i leaves every other buffer and the ring alone. */
  lemma StoreInBuf(mem: Bytes, i: nat, b: Bytes, j: nat)
    requires |mem| == POOL && i < RING && j < RING && |b| <= FRAME_CAP
    ensures var m := Store(mem, BufOff(i), b);
            && m[OFF_RING..OFF_TX] == mem[OFF_RING..OFF_TX]
            && (j != i ==> Buf(m, j) == Buf(mem, j))
            && b <= Buf(m, i)
  {
    StoreOutside(mem, BufOff(i), b, OFF_RING, OFF_TX);
    if j != i {
      BuffersApart(i, j);
      StoreOutside(mem, BufOff(i), b, BufOff(j), BufOff(j) + FRAME_CAP);
    }
    StorePrefix(mem, BufOff(i), b, FRAME_CAP);
  }

  /** A store leaves every range it does not touch alone. */
  lemma StoreOutside(mem: Bytes, o: nat, b: Bytes, lo: nat, hi: nat)
    requires o + |b| <= |mem| && lo <= hi <= |mem| && (hi <= o || o + |b| <= lo)
    ensures Store(mem, o, b)[lo..hi] == mem[lo..hi]
  {
    var m, z := Store(mem, o, b), o + |b|;
    if hi <= o {
      assert m[..o][lo..hi] == m[lo..hi] && mem[..o][lo..hi] == mem[lo..hi];
    } else {
      assert m[z..][lo - z..hi - z] == m[lo..hi] && mem[z..][lo - z..hi - z] == mem[lo..hi];
    }
  }

  lemma StorePrefix(mem: Bytes, o: nat, b: Bytes, n: nat)
    requires |b| <= n && o + n <= |mem|
    ensures b <= Store(mem, o, b)[o..o + n]
  {
    var m := Store(mem, o, b);
    assert m[o..o + n][..|b|] == m[o..o + |b|];
  }

  /** The host's difference of the two 32-bit counters. */
  lemma DoneIs(base: u32, t: nat)
    ensures ((base + t) % WRAP - base) % WRAP == t % WRAP
  {
    var q := (base + t) / WRAP;
    ShiftWrap(t, -q);
    assert (base + t) % WRAP - base == t + -q * WRAP;
  }

  lemma ShiftWrap(x: int, k: int)
    ensures (x + k * WRAP) % WRAP == x % WRAP
  {
    var q, r := x / WRAP, x % WRAP;
    assert x + k * WRAP == (q + k) * WRAP + r;
  }

  /** Of two counters, the one the next reap delivers: the oldest one whose buffer is certainly untouched. */
  function NextFrame(consumed: nat, done: nat): nat {
    if done - consumed >= RING then done - (RING - 1) else consumed
  }

  /** With `read` completions behind the host and `total` made, the 32-bit comparison shows that one waits. */
  predicate Shows(read: nat, total: nat) { read % WRAP < total % WRAP }

  /** The completion that is then delivered. */
  function Target(read: nat, total: nat): nat
    requires Shows(read, total)
  {
    total - total % WRAP + NextFrame(read % WRAP, total % WRAP)
  }

  /** The completions passed over in a reap: those counted as overrun, and those lost to the counters' wrap. */
  function Skips(read: nat, total: nat): nat
    requires Shows(read, total)
  {
    NextFrame(read % WRAP, total % WRAP) - read % WRAP
  }

  function Jumps(read: nat, total: nat): int { total - total % WRAP - (read - read % WRAP) }

  /** The counters' present turn, and what was jumped over to get there. */
  lemma TurnIs(read: nat, total: nat)
    requires read <= total
    ensures total - total % WRAP == total / WRAP * WRAP && total / WRAP >= read / WRAP
    ensures Jumps(read, total) == (total / WRAP - read / WRAP) * WRAP && Jumps(read, total) % WRAP == 0
    ensures Jumps(read, total) == 0 <==> read / WRAP == total / WRAP
  {
    ShiftWrap(0, total / WRAP - read / WRAP);
  }

  lemma InTurn(e: nat, n: nat)
    requires n + 1 < WRAP
    ensures (e * WRAP + n + 1) % WRAP == n + 1 && (e * WRAP + n) % RING == n % RING
  {
    ShiftWrap(n + 1, e);
    ShiftRing(n, e * (WRAP / RING));
    assert e * WRAP == e * (WRAP / RING) * RING;
  }

  lemma ShiftRing(x: nat, k: nat)
    ensures (x + k * RING) % RING == x % RING
  {
    var q, r := x / RING, x % RING;
    assert x + k * RING == (q + k) * RING + r;
  }

  lemma TargetIs(read: nat, total: nat)
    requires read <= total && Shows(read, total)
    ensures read <= Target(read, total) < total < Target(read, total) + RING
    ensures Target(read, total) == read + Skips(read, total) + Jumps(read, total) && Jumps(read, total) >= 0
    ensures Jumps(read, total) % WRAP == 0 && (Jumps(read, total) == 0 <==> read / WRAP == total / WRAP)
    ensures (Target(read, total) + 1) % WRAP == NextFrame(read % WRAP, total % WRAP) + 1
    ensures Target(read, total) % RING == NextFrame(read % WRAP, total % WRAP) % RING
  {
    TurnIs(read, total);
    InTurn(total / WRAP, NextFrame(read % WRAP, total % WRAP));
  }

  /**
   The comparison of the two 32-bit counters is exact only within one turn of them: with fewer
   than 2^32 completions waiting, a reap claims there is none exactly when a multiple of 2^32
   lies in (read, total].
   */
  lemma StallsAcrossWrap(read: nat, total: nat)
    requires read < total < read + WRAP
    ensures Shows(read, total) <==> read / WRAP == total / WRAP
  {
    if read / WRAP == total / WRAP {
      assert total % WRAP - read % WRAP == total - read;
    } else {
      assert total / WRAP == read / WRAP + 1;
      assert read % WRAP - total % WRAP == read + WRAP - total;
    }
  }

  /** For instance the frame completed as number 2^32 after 2^32 - 1 were consumed. */
  lemma StallExample()
    ensures !Shows(WRAP - 1, WRAP)
  {}

  /** A host that has consumed 2^32 - 1 frames, modulo 2^32, is never shown another one. */
  lemma StallsForGood(read: nat, total: nat)
    requires read % WRAP == WRAP - 1
    ensures !Shows(read, total)
  {}

  /** What a reap hands to the caller. */
  datatype Reaped = Reaped(lif: nat, data: Bytes)

  /** The data is this frame as far as both go, in the length the host took it to have, cut to the caller's buffer. */
  predicate Copied(p: Punt, carriesLen: bool, buflen: nat, r: Reaped) {
    && r.lif == p.lif
    && (Known(p, carriesLen) ==> |r.data| == Min(HostLen(p, carriesLen), buflen))
    && (forall k | 0 <= k < |r.data| && k < |p.frame| :: r.data[k] == p.frame[k])
  }

  /** A measurable frame is delivered whole, up to the caller's buffer. */
  lemma MeasurableIsWhole(p: Punt, carriesLen: bool, buflen: nat, r: Reaped)
    requires Copied(p, carriesLen, buflen, r) && Measurable(p, carriesLen)
    ensures r.data == p.frame[..Min(|p.frame|, buflen)]
  {
    assert |r.data| == Min(|p.frame|, buflen);
  }

  /**
   A frame is handed over whole, up to the caller's buffer, if the header carries its length, and
   otherwise as far as the length its own headers tell.
   */
  predicate Whole(p: Punt, carriesLen: bool, buflen: nat, r: Reaped) {
    if carriesLen then p.frame != [] ==> r.data == p.frame[..Min(|p.frame|, buflen)]
    else forall n: nat | Tells(p.frame, n) && n <= |p.frame| :: r.data == p.frame[..Min(n, buflen)]
  }

  lemma DeliveredWhole(p: Punt, carriesLen: bool, buflen: nat, r: Reaped)
    requires Copied(p, carriesLen, buflen, r) && Fits(p)
    ensures Whole(p, carriesLen, buflen, r)
  {
    if carriesLen {
      if p.frame != [] { MeasurableIsWhole(p, carriesLen, buflen, r); }
    } else {
      forall n: nat | Tells(p.frame, n) && n <= |p.frame| ensures r.data == p.frame[..Min(n, buflen)] {
        ToldIsDelivered(p, buflen, r, n);
      }
    }
  }

  /** One completion consumed: which one, the caller's buffer, and the result. */
  datatype Taken = Taken(index: nat, buflen: nat, n: nat)

  /** How many of them gave the caller a positive result. */
  function Positive(ts: seq<Taken>): (r: nat)
    ensures r <= |ts|
  {
    if ts == [] then 0 else Positive(ts[..|ts| - 1]) + if ts[|ts| - 1].n > 0 then 1 else 0
  }

  lemma PositiveStep(ts: seq<Taken>, t: Taken)
    ensures Positive(ts + [t]) == Positive(ts) + if t.n > 0 then 1 else 0
  {
    assert (ts + [t])[..|ts|] == ts;
  }

  lemma {:induction false} AllPositive(ts: seq<Taken>)
    ensures Positive(ts) == |ts| <==> forall i | 0 <= i < |ts| :: ts[i].n > 0
  {
    if ts != [] { AllPositive(ts[..|ts| - 1]); }
  }

  /** What the host can know of the result beforehand. */
  predicate TakenOk(history: seq<Punt>, carriesLen: bool, t: Taken) {
    && t.index < |history| && t.n <= t.buflen
    && (Known(history[t.index], carriesLen) ==> t.n == Min(HostLen(history[t.index], carriesLen), t.buflen))
  }

  lemma CountStep(base: nat, t: nat)
    ensures ((base + t) % WRAP + 1) % WRAP == (base + t + 1) % WRAP
  {}

  /** Every value is above all before it and below n. */
  predicate IncreasingBelow(s: seq<nat>, n: nat) {
    && (forall i, j | 0 <= i < j < |s| :: s[i] < s[j])
    && (forall i | 0 <= i < |s| :: s[i] < n)
  }

  /** The buffer of completion j still holds its frame. */
  predicate Intact(mem: Bytes, history: seq<Punt>, carriesLen: bool, j: nat)
    requires |mem| == POOL && j < |history|
  {
    Fits(history[j]) && Image(history[j], carriesLen) <= Buf(mem, j % RING)
  }

  /** All buffers but the one in flight hold the frames of the latest completions. */
  predicate BuffersOk(mem: Bytes, history: seq<Punt>, carriesLen: bool)
    requires |mem| == POOL
  {
    forall j | 0 <= j < |history| < j + RING :: Intact(mem, history, carriesLen, j)
  }

  /** Writing into the buffer in flight disturbs neither the ring nor any completed frame. */
  lemma InFlightIsFree(mem: Bytes, history: seq<Punt>, carriesLen: bool, iova: nat, b: Bytes)
    requires |mem| == POOL && BuffersOk(mem, history, carriesLen) && RingOk(mem, iova) && |b| <= FRAME_CAP
    ensures var m := Store(mem, BufOff(|history| % RING), b);
            BuffersOk(m, history, carriesLen) && RingOk(m, iova) && b <= Buf(m, |history| % RING)
  {
    var t := |history| % RING;
    var m := Store(mem, BufOff(t), b);
    StoreInBuf(mem, t, b, t);
    RingStays(mem, m, iova);
    forall j | 0 <= j < |history| < j + RING ensures Intact(m, history, carriesLen, j) {
      assert Intact(mem, history, carriesLen, j);
      SlotsDiffer(j, |history|);
      StoreInBuf(mem, t, b, j % RING);
    }
  }

  lemma OneMoreFrame(mem: Bytes, history: seq<Punt>, carriesLen: bool, p: Punt)
    requires |mem| == POOL && BuffersOk(mem, history, carriesLen)
    requires Fits(p) && Image(p, carriesLen) <= Buf(mem, |history| % RING)
    ensures BuffersOk(mem, history + [p], carriesLen)
    ensures (|history| % RING + 1) % RING == |history + [p]| % RING
  {
    var h := history + [p];
    forall j | 0 <= j < |h| < j + RING ensures Intact(mem, h, carriesLen, j) {
      if j < |history| { assert Intact(mem, history, carriesLen, j) && h[j] == history[j]; }
    }
  }

  lemma TakenStay(history: seq<Punt>, carriesLen: bool, taken: seq<Taken>, p: Punt)
    requires forall i | 0 <= i < |taken| :: TakenOk(history, carriesLen, taken[i])
    ensures forall i | 0 <= i < |taken| :: TakenOk(history + [p], carriesLen, taken[i])
  {
    forall i | 0 <= i < |taken| ensures TakenOk(history + [p], carriesLen, taken[i]) {
      assert (history + [p])[taken[i].index] == history[taken[i].index];
    }
  }

  /** Output k is the frame delivered k-th, and the delivered frames follow completion order. */
  predicate Delivers(out: seq<Reaped>, history: seq<Punt>, delivered: seq<nat>, carriesLen: bool) {
    && |out| == |delivered| && IncreasingBelow(delivered, |history|)
    && forall k | 0 <= k < |out| :: DeliveredAs(out[k], history[delivered[k]], carriesLen)
  }

  /** Some buffer length makes this the copy of that frame. */
  predicate DeliveredAs(r: Reaped, p: Punt, carriesLen: bool) {
    |r.data| > 0 && Copied(p, carriesLen, |r.data|, r)
  }

  /** Steps of the engine and of the host. */
  datatype Event = Partial(part: Bytes) | Completed(p: Punt) | Inject(egress: u8, frame: Bytes) | Reap(buflen: nat) {
    predicate Possible() { (Partial? ==> |part| <= FRAME_CAP) && (Completed? ==> Fits(p)) }
  }

  /** Completion j was the from[j]-th event, and reap i that took a frame the when[i]-th. */
  predicate CompletedBy(history: seq<Punt>, events: seq<Event>, from: seq<nat>) {
    |from| == |history| && forall j | 0 <= j < |from| :: from[j] < |events| && events[from[j]] == Completed(history[j])
  }

  predicate ReapedBy(taken: seq<Taken>, events: seq<Event>, when: seq<nat>) {
    |when| == |taken| && forall i | 0 <= i < |when| :: when[i] < |events| && events[when[i]] == Reap(taken[i].buflen)
  }

  /** A reap with this buffer took one more frame. */
  predicate TookOne(t0: seq<Taken>, t1: seq<Taken>, buflen: nat) {
    |t1| == |t0| + 1 && t0 <= t1 && t1[|t0|].buflen == buflen
  }

  /** A frame the host takes to have a length; a reap with a buffer. */
  predicate Plain(e: Event, carriesLen: bool) {
    && (e.Completed? ==> Known(e.p, carriesLen) && HostLen(e.p, carriesLen) > 0)
    && (e.Reap? ==> e.buflen > 0)
  }

  predicate KnownTaken(history: seq<Punt>, carriesLen: bool, t: Taken) {
    t.index < |history| && Known(history[t.index], carriesLen)
  }

  /** Everything is accounted for, exactly if every frame taken has a length and its reap a buffer. */
  predicate AllAccounted(taken: seq<Taken>, all: bool, history: seq<Punt>, carriesLen: bool) {
    (forall i | 0 <= i < |taken| :: KnownTaken(history, carriesLen, taken[i])) ==>
      (all <==> forall i | 0 <= i < |taken| ::
                  KnownTaken(history, carriesLen, taken[i])
                  && HostLen(history[taken[i].index], carriesLen) > 0 && taken[i].buflen > 0)
  }

  lemma Accounted(history: seq<Punt>, carriesLen: bool, taken: seq<Taken>, all: bool)
    requires forall i | 0 <= i < |taken| :: TakenOk(history, carriesLen, taken[i])
    requires all <==> Positive(taken) == |taken|
    ensures AllAccounted(taken, all, history, carriesLen)
  {
    AllPositive(taken);
  }

  lemma PlainRuns(history: seq<Punt>, carriesLen: bool, taken: seq<Taken>, events: seq<Event>,
                  from: seq<nat>, when: seq<nat>)
    requires forall i | 0 <= i < |taken| :: TakenOk(history, carriesLen, taken[i])
    requires CompletedBy(history, events, from) && ReapedBy(taken, events, when)
    requires forall i | 0 <= i < |events| :: Plain(events[i], carriesLen)
    ensures Positive(taken) == |taken|
  {
    forall i | 0 <= i < |taken| ensures taken[i].n > 0 {
      assert Plain(events[when[i]], carriesLen) && Plain(events[from[taken[i].index]], carriesLen);
    }
    AllPositive(taken);
  }

  lemma NoWholeTurn(jumped: nat, read: nat, total: nat)
    requires jumped % WRAP == 0 && jumped <= read <= total
    ensures total < WRAP ==> jumped == 0
  {}

  class Ring {
    /** Where the pool starts in the device's address space, and what the bitstream's header carries. */
    const iova: nat
    const carriesLen: bool
    var mem: Bytes
    /** The engine: its completed-descriptor counter and the descriptor it will use next. */
    var count: u32
    var cur: nat
    // struct dma_state.
    var armed: bool
    var base: u32
    var consumed: u32
    var overrun: u64
    /** Every frame completed since arming. */
    ghost var history: seq<Punt>
    /** How many completions the host has left behind: those it took, skipped or jumped over. */
    ghost var read: nat
    ghost var taken: seq<Taken>
    ghost var skipped: nat
    ghost var jumped: nat
    /** The completions that gave the caller a positive result. */
    ghost var delivered: seq<nat>

    ghost predicate EngineOk()
      reads this
    {
      && |mem| == POOL && iova + POOL < M64
      && (armed ==> RingOk(mem, iova) && cur == iova + DescOff(|history| % RING))
      && (armed ==> count as int == (base + |history|) % WRAP)
      && BuffersOk(mem, history, carriesLen)
    }

    /** The accounting: taken, skipped and jumped-over completions are those left behind, never more than were made. */
    ghost predicate HostOk()
      reads this
    {
      && read <= |history| && consumed as int == read % WRAP
      && |taken| + skipped + jumped == read && jumped % WRAP == 0 && overrun as int == skipped % M64
      && (forall i | 0 <= i < |taken| :: TakenOk(history, carriesLen, taken[i]))
      && |delivered| == Positive(taken) && IncreasingBelow(delivered, read)
      && (!armed ==> history == [])
    }

    ghost predicate Valid()
      reads this
    {
      EngineOk() && HostOk()
    }

    constructor (mem: Bytes, iova: nat, carriesLen: bool, count: u32)
      requires |mem| == POOL && iova + POOL < M64
      ensures Valid() && !armed
    {
      this.mem, this.iova, this.carriesLen, this.count := mem, iova, carriesLen, count;
      armed, base, consumed, overrun, cur := false, 0, 0, 0, 0;
      history, delivered, taken, read, skipped, jumped := [], [], [], 0, 0, 0;
    }

    // ---- engine steps ---------------------------------------------------------------------------

    /** The engine has written some bytes of the frame in flight. */
    method Fill(part: Bytes)
      requires Valid() && armed && |part| <= FRAME_CAP
      modifies this`mem
      ensures Valid()
    {
      assert Linked(mem, iova, |history| % RING);
      WriteBuf(part);
    }

    /** Write into the buffer of the current descriptor, found through that descriptor's bytes. */
    method WriteBuf(b: Bytes)
      requires Valid() && armed && |b| <= FRAME_CAP
      modifies this`mem
      ensures Valid() && b <= Buf(mem, |history| % RING)
    {
      assert Linked(mem, iova, |history| % RING);
      InFlightIsFree(mem, history, carriesLen, iova, b);
      var dst := DstAt(mem, cur - iova);
      mem := Store(mem, dst - iova, b);
    }

    /** The engine completes a frame and follows the descriptor's next pointer. */
    method Complete(p: Punt)
      requires Valid() && armed && Fits(p)
      modifies this`mem, this`count, this`cur, this`history
      ensures Valid() && history == old(history) + [p]
    {
      WriteBuf(Image(p, carriesLen));
      Advance(p);
    }

    /** ... once the frame is in its buffer. */
    method Advance(p: Punt)
      requires Valid() && armed && Fits(p) && Image(p, carriesLen) <= Buf(mem, |history| % RING)
      modifies this`count, this`cur, this`history
      ensures Valid() && history == old(history) + [p]
    {
      assert Linked(mem, iova, |history| % RING);
      cur := NextAt(mem, cur - iova);
      count := (count + 1) % WRAP;
      OneMoreFrame(mem, history, carriesLen, p);
      CountStep(base, |history|);
      TakenStay(history, carriesLen, taken, p);
      history := history + [p];
    }

    // ---- host steps -------------------------------------------------------------------------------

    /** dma_slow_path_tx: header and frame into the transmit buffer, then the descriptor; IO if it does not complete. */
    method Inject(egress: u8, frame: Bytes) returns (st: Status)
      requires Valid()
      modifies this`mem
      ensures Valid()
      ensures st == OK || st == IO <==> 0 < |frame| && |frame| + HDR_LEN <= FRAME_CAP
      ensures st == OK || st == IO ==> Sends(mem[..DESC], iova, HDR_LEN + |frame|)
      ensures st == OK || st == IO ==> mem[OFF_TX..OFF_TX + HDR_LEN + |frame|] == [egress, 0, 0, 0, 0, 0, 0, 0] + frame
      ensures st != OK && st != IO ==> st == Inval && mem == old(mem)
      ensures mem[OFF_RING..OFF_TX] == old(mem[OFF_RING..OFF_TX]) && mem[OFF_RX..] == old(mem[OFF_RX..])
    {
      if |frame| == 0 || |frame| + HDR_LEN > FRAME_CAP { return Inval; }
      PutTx([egress, 0, 0, 0, 0, 0, 0, 0] + frame);
      var completed: bool := *;
      st := if completed then OK else IO;
    }

    /** Header and frame into the transmit buffer, and the descriptor for them. */
    method PutTx(b: Bytes)
      requires Valid() && |b| <= FRAME_CAP
      modifies this`mem
      ensures Valid() && Sends(mem[..DESC], iova, |b|) && mem[OFF_TX..OFF_TX + |b|] == b
      ensures mem[OFF_RING..OFF_TX] == old(mem[OFF_RING..OFF_TX]) && mem[OFF_RX..] == old(mem[OFF_RX..])
    {
      ghost var m0 := mem;
      TxPut(mem, iova, b);
      mem := Store(mem, OFF_TX, b);
      mem := Store(mem, 0, TxDesc(iova, |b|));
      TxStays(m0);
      forall j | 0 <= j < |history| < j + RING ensures Intact(mem, history, carriesLen, j) {
        assert Intact(m0, history, carriesLen, j);
      }
    }

    /** The descriptor loop of dma_arm_c2h. */
    method LinkAll()
      requires |mem| == POOL && iova + POOL < M64
      modifies this`mem
      ensures RingOk(mem, iova)
      ensures |mem| == POOL
    {
      for i := 0 to RING
        invariant |mem| == POOL && LinkedUpTo(mem, iova, i)
      {
        LinkOne(i);
      }
    }

    method LinkOne(i: nat)
      requires |mem| == POOL && iova + POOL < M64 && i < RING && LinkedUpTo(mem, iova, i)
      modifies this`mem
      ensures |mem| == POOL && LinkedUpTo(mem, iova, i + 1)
    {
      ghost var m := mem;
      var d := RxDesc(iova, i);
      RxFront(iova, i);
      mem := Store(mem, DescOff(i), d);
      forall k | 0 <= k < i + 1 ensures Linked(mem, iova, k) {
        LinkDesc(m, mem, iova, i, k, d);
      }
    }

    /** dma_arm_c2h: link the descriptors into a ring, read the counter baseline, run. */
    method Arm()
      requires Valid() && !armed
      modifies this`mem, this`armed, this`base, this`cur, this`consumed
      ensures Valid() && armed && consumed == old(consumed)
    {
      LinkAll();
      consumed := 0;
      base := count;
      cur := iova + DescOff(0);
      armed := true;
    }

    /**
     dma_slow_path_rx: the number of bytes copied, 0 for none. What is copied is exactly completion
     number Target, and when the host fell a ring behind, the frames that may have been overwritten
     are skipped and counted. The result is 0 exactly when the counters show no frame, the frame is
     taken to be empty, or the buffer is; in the last two cases the frame is consumed all the same.
     */
    method Reap(buflen: nat) returns (n: nat, r: Option<Reaped>)
      requires Valid()
      modifies this`mem, this`armed, this`base, this`cur, this`consumed, this`overrun,
               this`read, this`taken, this`skipped, this`jumped, this`delivered
      ensures Valid() && armed && history == old(history)
      ensures r.Some? <==> Shows(old(read), |history|)
      ensures r.None? ==> n == 0 && read == old(read) && skipped == old(skipped) && jumped == old(jumped)
      ensures r.None? ==> taken == old(taken) && delivered == old(delivered)
      ensures r.Some? ==> var t := Target(old(read), |history|);
                && t < |history| && n == |r.value.data| && Copied(history[t], carriesLen, buflen, r.value)
                && n == Min(PayloadLen(Buf(mem, t % RING)), buflen) && Whole(history[t], carriesLen, buflen, r.value)
                && read == t + 1 && taken == old(taken) + [Taken(t, buflen, n)]
                && delivered == old(delivered) + if n > 0 then [t] else []
      ensures r.Some? ==> skipped == old(skipped) + Skips(old(read), |history|)
                          && jumped == old(jumped) + Jumps(old(read), |history|)
    {
      if !armed { Arm(); }
      n, r := ReapArmed(buflen);
    }

    /** ... once the ring is armed. */
    method ReapArmed(buflen: nat) returns (n: nat, r: Option<Reaped>)
      requires Valid() && armed
      modifies this`consumed, this`overrun, this`read, this`taken, this`skipped, this`jumped, this`delivered
      ensures Valid()
      ensures r.Some? <==> Shows(old(read), |history|)
      ensures r.None? ==> n == 0 && read == old(read) && skipped == old(skipped) && jumped == old(jumped)
      ensures r.None? ==> taken == old(taken) && delivered == old(delivered)
      ensures r.Some? ==> var t := Target(old(read), |history|);
                && t < |history| && n == |r.value.data| && Copied(history[t], carriesLen, buflen, r.value)
                && n == Min(PayloadLen(Buf(mem, t % RING)), buflen) && Whole(history[t], carriesLen, buflen, r.value)
                && read == t + 1 && taken == old(taken) + [Taken(t, buflen, n)]
                && delivered == old(delivered) + if n > 0 then [t] else []
      ensures r.Some? ==> skipped == old(skipped) + Skips(old(read), |history|)
                          && jumped == old(jumped) + Jumps(old(read), |history|)
    {
      var shown, done := Look();
      n, r := 0, None;
      if shown {
        var got := TakeNext(done, buflen);
        n, r := |got.data|, Some(got);
      }
    }

    /** Whether the counters show a frame. */
    method Look() returns (shown: bool, done: u32)
      requires Valid() && armed
      ensures done as int == |history| % WRAP && shown == Shows(read, |history|)
    {
      done := Done();
      shown := consumed < done;
    }

    /** Completions since arming, as the two 32-bit counters show them. */
    method Done() returns (done: u32)
      requires Valid() && armed
      ensures done as int == |history| % WRAP
    {
      DoneIs(base, |history|);
      done := (count - base) % WRAP;
    }

    /** Skip what may have been overwritten, copy the next frame out and consume it. */
    method TakeNext(done: u32, buflen: nat) returns (got: Reaped)
      requires Valid() && armed && done as int == |history| % WRAP && Shows(read, |history|)
      modifies this`consumed, this`overrun, this`read, this`taken, this`skipped, this`jumped, this`delivered
      ensures Valid()
      ensures var t := Target(old(read), |history|);
                && t < |history| && Copied(history[t], carriesLen, buflen, got)
                && |got.data| == Min(PayloadLen(Buf(mem, t % RING)), buflen)
                && Whole(history[t], carriesLen, buflen, got)
                && read == t + 1 && taken == old(taken) + [Taken(t, buflen, |got.data|)]
                && delivered == old(delivered) + if |got.data| > 0 then [t] else []
      ensures skipped == old(skipped) + Skips(old(read), |history|)
              && jumped == old(jumped) + Jumps(old(read), |history|)
    {
      TargetIs(read, |history|);
      ghost var t := Target(read, |history|);
      OverrunAdds(overrun, skipped, Skips(read, |history|));
      SkipLost(done);
      got := PeekFrame(t, buflen);
      Account(t, buflen, |got.data|, Skips(read, |history|), Jumps(read, |history|));
      consumed := consumed + 1;
    }

    method SkipLost(done: u32)
      requires consumed < done
      modifies this`consumed, this`overrun
      ensures consumed as int == NextFrame(old(consumed), done)
      ensures overrun as int == (old(overrun) + NextFrame(old(consumed), done) - old(consumed)) % M64
    {
      if done - consumed >= RING {
        overrun := (overrun + (done - consumed - (RING - 1))) % M64;
        consumed := done - (RING - 1);
      }
    }

    method PeekFrame(ghost t: nat, buflen: nat) returns (got: Reaped)
      requires EngineOk() && t < |history| < t + RING && consumed % RING == t % RING
      ensures Copied(history[t], carriesLen, buflen, got) && |got.data| == Min(PayloadLen(Buf(mem, t % RING)), buflen)
      ensures Whole(history[t], carriesLen, buflen, got)
    {
      PeekIs(t, buflen);
      got := Peek(buflen);
      assert Intact(mem, history, carriesLen, t);
      DeliveredWhole(history[t], carriesLen, buflen, got);
    }

    /** One more completion left behind. */
    ghost method Account(t: nat, buflen: nat, n: nat, skips: nat, jumps: nat)
      requires read <= t < |history| && t == read + skips + jumps && jumps % WRAP == 0
      requires |taken| + skipped + jumped == read && jumped % WRAP == 0
      requires (forall i | 0 <= i < |taken| :: TakenOk(history, carriesLen, taken[i]))
      requires |delivered| == Positive(taken) && IncreasingBelow(delivered, read)
      requires TakenOk(history, carriesLen, Taken(t, buflen, n))
      modifies this`read, this`taken, this`skipped, this`jumped, this`delivered
      ensures read == t + 1 && taken == old(taken) + [Taken(t, buflen, n)]
      ensures skipped == old(skipped) + skips && jumped == old(jumped) + jumps
      ensures delivered == old(delivered) + if n > 0 then [t] else []
      ensures |taken| + skipped + jumped == read && jumped % WRAP == 0
      ensures (forall i | 0 <= i < |taken| :: TakenOk(history, carriesLen, taken[i]))
      ensures |delivered| == Positive(taken) && IncreasingBelow(delivered, read)
    {
      PositiveStep(taken, Taken(t, buflen, n));
      ModSum(jumped, jumps);
      taken := taken + [Taken(t, buflen, n)];
      delivered := delivered + if n > 0 then [t] else [];
      skipped, jumped, read := skipped + skips, jumped + jumps, t + 1;
    }

    /** Read the frame of completion `consumed` out of its buffer. */
    function Peek(buflen: nat): (r: Reaped)
      requires |mem| == POOL
      reads this
    {
      var rb := Buf(mem, consumed % RING);
      Reaped(ReadLif(rb), rb[HDR_LEN..HDR_LEN + Min(PayloadLen(rb), buflen)])
    }

    lemma PeekIs(t: nat, buflen: nat)
      requires EngineOk() && t < |history| < t + RING && consumed % RING == t % RING
      ensures Copied(history[t], carriesLen, buflen, Peek(buflen))
    {
      assert Intact(mem, history, carriesLen, t);
      BufferCopied(history[t], carriesLen, Buf(mem, consumed % RING), buflen);
    }

    /** Engine events before the ring is armed do not happen. */
    method Apply(e: Event) returns (r: Option<Reaped>)
      requires Valid() && e.Possible()
      modifies this
      ensures Valid() && old(history) <= history && old(delivered) <= delivered
      ensures history == old(history) || (e.Completed? && history == old(history) + [e.p])
      ensures taken == old(taken) || (e.Reap? && TookOne(old(taken), taken, e.buflen))
      ensures r.None? ==> delivered == old(delivered)
      ensures r.Some? ==> |delivered| == old(|delivered|) + 1
      ensures r.Some? ==> DeliveredAs(r.value, history[delivered[|delivered| - 1]], carriesLen)
    {
      r := None;
      match e {
        case Partial(part) => if armed { Fill(part); }
        case Completed(p) => if armed { Complete(p); }
        case Inject(egress, frame) => var st := Inject(egress, frame);
        case Reap(buflen) =>
          var n, got := Reap(buflen);
          if n > 0 { r := got; }
      }
    }

    method PlayOne(events: seq<Event>, i: nat, out: seq<Reaped>, ghost from: seq<nat>, ghost when: seq<nat>)
      returns (out': seq<Reaped>, ghost from': seq<nat>, ghost when': seq<nat>)
      requires Valid() && i < |events| && events[i].Possible() && Delivers(out, history, delivered, carriesLen)
      requires CompletedBy(history, events, from) && ReapedBy(taken, events, when)
      modifies this
      ensures Valid() && Delivers(out', history, delivered, carriesLen)
      ensures CompletedBy(history, events, from') && ReapedBy(taken, events, when')
    {
      ghost var h, d := history, delivered;
      out', from', when' := out, from, when;
      var r := Apply(events[i]);
      if r.Some? {
        out' := out + [r.value];
      }
      if |h| < |history| { from' := from + [i]; }
      if |when| < |taken| { when' := when + [i]; }
      DeliversMore(out', h, history, d, delivered, carriesLen, read);
    }

    /**
     Any interleaving of engine and host steps. The host gets frames of the history in completion
     order, each at most once and never torn. Every completion left behind is delivered, skipped or
     jumped over, exactly if every frame taken has a length to the host and its reap a buffer (for
     frames whose length the host reads from the frame's own bytes); so always if that holds of
     all completions and reaps among the events.
     */
    method Play(events: seq<Event>) returns (out: seq<Reaped>, ghost from: seq<nat>, ghost when: seq<nat>)
      requires Valid() && !armed && delivered == []
      requires forall i | 0 <= i < |events| :: events[i].Possible()
      modifies this
      ensures Valid() && Delivers(out, history, delivered, carriesLen)
      ensures CompletedBy(history, events, from) && ReapedBy(taken, events, when)
      ensures |taken| + skipped + jumped == read <= |history|
      ensures AllAccounted(taken, |out| + skipped + jumped == read, history, carriesLen)
      ensures (forall i | 0 <= i < |events| :: Plain(events[i], carriesLen)) ==> |out| + skipped + jumped == read
      ensures |history| < WRAP ==> jumped == 0
    {
      out, from, when := PlayAll(events);
      Accounted(history, carriesLen, taken, |out| + skipped + jumped == read);
      if forall i | 0 <= i < |events| :: Plain(events[i], carriesLen) {
        PlainRuns(history, carriesLen, taken, events, from, when);
      }
      NoWholeTurn(jumped, read, |history|);
    }

    method PlayAll(events: seq<Event>) returns (out: seq<Reaped>, ghost from: seq<nat>, ghost when: seq<nat>)
      requires Valid() && !armed && delivered == []
      requires forall i | 0 <= i < |events| :: events[i].Possible()
      modifies this
      ensures Valid() && Delivers(out, history, delivered, carriesLen)
      ensures CompletedBy(history, events, from) && ReapedBy(taken, events, when)
    {
      out, from, when := [], [], [];
      for i := 0 to |events|
        invariant Valid() && Delivers(out, history, delivered, carriesLen)
        invariant CompletedBy(history, events, from) && ReapedBy(taken, events, when)
      {
        out, from, when := PlayOne(events, i, out, from, when);
      }
    }

    /** Injecting does not disturb what the engine and the reaper rely on. */
    lemma TxStays(m0: Bytes)
      requires |m0| == |mem| == POOL && mem[OFF_RING..OFF_TX] == m0[OFF_RING..OFF_TX] && mem[OFF_RX..] == m0[OFF_RX..]
      ensures RingOk(m0, iova) ==> RingOk(mem, iova)
      ensures forall i | 0 <= i < RING :: Buf(mem, i) == Buf(m0, i)
    {
      if RingOk(m0, iova) { RingStays(m0, mem, iova); }
      forall i | 0 <= i < RING ensures Buf(mem, i) == Buf(m0, i) {
        SliceOfTail(mem, OFF_RX, BufOff(i) - OFF_RX, FRAME_CAP);
        SliceOfTail(m0, OFF_RX, BufOff(i) - OFF_RX, FRAME_CAP);
      }
    }
  }

  lemma TxPut(m0: Bytes, iova: nat, b: Bytes)
    requires |m0| == POOL && iova + POOL < M64 && |b| <= FRAME_CAP
    ensures var m := Store(Store(m0, OFF_TX, b), 0, TxDesc(iova, |b|));
            && |m| == POOL && Sends(m[..DESC], iova, |b|) && m[OFF_TX..OFF_TX + |b|] == b
            && m[OFF_RING..OFF_TX] == m0[OFF_RING..OFF_TX] && m[OFF_RX..] == m0[OFF_RX..]
  {
    var d := TxDesc(iova, |b|);
    var m1 := Store(m0, OFF_TX, b);
    TxSends(iova, |b|);
    TxKeeps(m0, m1, Store(m1, 0, d), b, d);
  }

  lemma SliceOfTail(m: Bytes, a: nat, o: nat, n: nat)
    requires a + o + n <= |m|
    ensures m[a..][o..o + n] == m[a + o..a + o + n]
  {}

  lemma OverrunAdds(overrun: u64, skipped: nat, x: nat)
    requires overrun as int == skipped % M64
    ensures (overrun + x) % M64 == (skipped + x) % M64
  {
    var q := skipped / M64;
    assert skipped + x == overrun + x + q * M64;
    ShiftLong(overrun + x, q);
  }

  lemma ShiftLong(x: int, k: int)
    ensures (x + k * M64) % M64 == x % M64
  {
    var q, r := x / M64, x % M64;
    assert x + k * M64 == (q + k) * M64 + r;
  }

  lemma ModSum(a: nat, b: nat)
    requires a % WRAP == 0 && b % WRAP == 0
    ensures (a + b) % WRAP == 0
  {
    assert a + b == (a / WRAP + b / WRAP) * WRAP;
  }

  /** A longer history keeps what was delivered from it. */
  lemma DeliversMore(out: seq<Reaped>, h0: seq<Punt>, h1: seq<Punt>, d0: seq<nat>, d1: seq<nat>, carriesLen: bool,
                     read: nat)
    requires h0 <= h1 && d0 <= d1 && |out| == |d1| <= |d0| + 1 && IncreasingBelow(d1, read) && read <= |h1|
    requires Delivers(out[..|d0|], h0, d0, carriesLen)
    requires |d0| < |d1| ==> DeliveredAs(out[|d0|], h1[d1[|d0|]], carriesLen)
    ensures Delivers(out, h1, d1, carriesLen)
  {
    forall k | 0 <= k < |out| ensures DeliveredAs(out[k], h1[d1[k]], carriesLen) {
      if k < |d0| { assert out[..|d0|][k] == out[k] && h1[d1[k]] == h0[d0[k]]; }
    }
  }

  /** The bytes copied out of an undisturbed buffer. */
  lemma BufferCopied(p: Punt, carriesLen: bool, rb: Bytes, buflen: nat)
    requires |rb| == FRAME_CAP && Fits(p) && Image(p, carriesLen) <= rb
    ensures Copied(p, carriesLen, buflen, Reaped(ReadLif(rb), rb[HDR_LEN..HDR_LEN + Min(PayloadLen(rb), buflen)]))
  {
    ReadsBack(p, carriesLen, rb);
    var d := rb[HDR_LEN..HDR_LEN + Min(PayloadLen(rb), buflen)];
    forall k | 0 <= k < |d| && k < |p.frame| ensures d[k] == p.frame[k] {
      assert rb[HDR_LEN..HDR_LEN + |p.frame|] == p.frame[..|p.frame|];
      assert rb[HDR_LEN..HDR_LEN + |p.frame|][k] == rb[HDR_LEN + k];
    }
  }

  /** Writing descriptor i links it and leaves the descriptors before it linked. */
  lemma LinkDesc(mem: Bytes, m: Bytes, iova: nat, i: nat, k: nat, d: Bytes)
    requires |mem| == POOL && k <= i < RING && iova + POOL < M64
    requires k < i ==> Linked(mem, iova, k)
    requires |d| == DESC && d[0..8] == RX_FRONT
    requires d[16..24] == Addr64(iova + BufOff(i)) && d[24..32] == Addr64(iova + DescOff((i + 1) % RING))
    requires m == Store(mem, DescOff(i), d)
    ensures Linked(m, iova, k)
  {
    if k == i {
      DescStored(mem, DescOff(i), d, iova + BufOff(i), iova + DescOff((i + 1) % RING));
    } else {
      LinkStays(mem, iova, i, d, k);
    }
  }

  lemma LinkStays(mem: Bytes, iova: nat, i: nat, b: Bytes, k: nat)
    requires |mem| == POOL && k < i < RING && |b| == DESC && Linked(mem, iova, k)
    ensures Linked(Store(mem, DescOff(i), b), iova, k)
  {
    BelowStore(mem, DescOff(i), b, DescOff(k));
    BelowStore(mem, DescOff(i), b, DescOff(k) + 16);
    BelowStore(mem, DescOff(i), b, DescOff(k) + 24);
  }

  lemma RxFront(iova: nat, i: nat)
    ensures RxDesc(iova, i)[0..8] == RX_FRONT
  {
    var d := RxDesc(iova, i);
    assert d[0..8] == [d[0]] + d[1..4] + d[4..8];
  }

  lemma DescStored(mem: Bytes, o: nat, d: Bytes, dst: nat, next: nat)
    requires o + DESC <= |mem| && dst < M64 && next < M64
    requires |d| == DESC && d[16..24] == Addr64(dst) && d[24..32] == Addr64(next)
    ensures var m := Store(mem, o, d); m[o..o + 8] == d[0..8] && DstAt(m, o) == dst && NextAt(m, o) == next
  {
    var m := Store(mem, o, d);
    Addr64Round(dst);
    Addr64Round(next);
    assert d[0..8] == m[o..o + 8] by { assert m[o..o + DESC] == d; }
    assert d[16..24] == m[o + 16..o + 24] by { assert m[o..o + DESC] == d; }
    assert d[24..32] == m[o + 24..o + 32] by { assert m[o..o + DESC] == d; }
  }

  lemma BelowStore(mem: Bytes, o: nat, b: Bytes, e: nat)
    requires o + |b| <= |mem| && e + 8 <= o
    ensures Store(mem, o, b)[e..e + 8] == mem[e..e + 8]
  {
    StoreOutside(mem, o, b, e, e + 8);
  }

  lemma TxKeeps(m0: Bytes, m1: Bytes, m2: Bytes, b: Bytes, d: Bytes)
    requires |m0| == POOL && |b| <= FRAME_CAP && |d| == DESC && m1 == Store(m0, OFF_TX, b) && m2 == Store(m1, 0, d)
    ensures m2[OFF_RING..OFF_TX] == m0[OFF_RING..OFF_TX] && m2[OFF_RX..] == m0[OFF_RX..]
    ensures m2[OFF_TX..OFF_TX + |b|] == b && m2[..DESC] == d
  {
    StoreOutside(m1, 0, d, OFF_RING, OFF_TX);
    StoreOutside(m0, OFF_TX, b, OFF_RING, OFF_TX);
    StoreOutside(m1, 0, d, OFF_RX, POOL);
    StoreOutside(m0, OFF_TX, b, OFF_RX, POOL);
    StoreOutside(m1, 0, d, OFF_TX, OFF_TX + |b|);
    assert m2[OFF_RX..] == m2[OFF_RX..POOL] && m0[OFF_RX..] == m0[OFF_RX..POOL];
  }
}
