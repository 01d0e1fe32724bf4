/**
 The receive parser of the data plane: from the bytes of a frame to the match key, through an
 optional 802.1Q tag (or two) and an IP-in-IP, GRE or EtherIP tunnel.
 */
module Parser {
  import opened Basics
  import opened Config
  import opened Classifier

  /** The match key and the test header's 64-bit sequence number. */
  datatype Parsed = Parsed(key: MatchKey, sequence: Bytes)

  /** Captured header byte i; past the frame's end it still holds what earlier frames left there. */
  function Hdr(b: Bytes, was: Bytes, i: nat): u8 {
    if i < |b| && i < HDR_BYTES then b[i] else if i < |was| then was[i] else 0
  }

  function Cut(b: Bytes, was: Bytes, i: nat, n: nat): (r: Bytes)
    ensures |r| == n && forall j | 0 <= j < n :: r[j] == Hdr(b, was, i + j)
  {
    seq<u8>(n, j requires 0 <= j < n => Hdr(b, was, i + j))
  }

  /** Inside the frame and the capture window the parser sees the frame's own bytes. */
  lemma CutIs(b: Bytes, was: Bytes, i: nat, n: nat)
    requires i + n <= |b| && i + n <= HDR_BYTES
    ensures Cut(b, was, i, n) == b[i..i + n]
  {}

  // ---- stage A: L2 framing and the descent into a tunnel --------------------------------------------

  datatype L2Info = L2Info(vlanValid: bool, vlanId: Half, innerVlan: bool, ethertype: Half, l3: nat)

  function ParseL2(b: Bytes, was: Bytes): (r: L2Info) {
    var et := Cut(b, was, 12, 2);
    var id := [Hdr(b, was, 14) % 16, Hdr(b, was, 15)];
    if (et == [0x88, 0xA8] || et == [0x91, 0x00]) && |b| >= 22 && Cut(b, was, 16, 2) == [0x81, 0x00] then
      L2Info(true, id, true, Cut(b, was, 20, 2), 22)
    else if et == [0x81, 0x00] && |b| >= 18 then L2Info(true, id, false, Cut(b, was, 16, 2), 18)
    else L2Info(false, [0, 0], false, et, 14)
  }

  /** Where the parse goes on, and as which family. */
  datatype Inner = Inner(off: nat, v4: bool, v6: bool)

  /** Protocol and length of the outer IP header. */
  function OuterHead(b: Bytes, was: Bytes, l3: nat, v4: bool, v6: bool): (u8, int) {
    if v6 && |b| >= l3 + 40 then (Hdr(b, was, l3 + 6), 40)
    else if v4 && |b| >= l3 + 20 then (Hdr(b, was, l3 + 9), Hdr(b, was, l3) % 16 * 4)
    else (0, 20)
  }

  /** Length of the tunnel header a protocol number announces, if it announces one. */
  function TunnelHead(proto: u8): Option<nat> {
    if proto == 4 || proto == 41 then Some(0)
    else if proto == 47 then Some(4)
    else if proto == 97 then Some(16)
    else None
  }

  function ByType(off: nat, et: Bytes): Inner { Inner(off, et == [0x08, 0x00], et == [0x86, 0xDD]) }

  function Descend(b: Bytes, was: Bytes, l3: nat, v4: bool, v6: bool): Inner {
    var h := OuterHead(b, was, l3, v4, v6);
    var t := TunnelHead(h.0);
    if t.None? || !(v4 || v6) || h.1 < 20 || |b| < l3 + h.1 + t.value then Inner(l3, v4, v6)
    else
      var o := l3 + h.1;
      if h.0 == 47 then
        if Hdr(b, was, o) / 16 != 0 || Hdr(b, was, o + 1) % 8 != 0 then Inner(l3, v4, v6)
        else ByType(o + 4, Cut(b, was, o + 2, 2))
      else if h.0 == 97 then ByType(o + 16, Cut(b, was, o + 14, 2))
      else Inner(o, h.0 == 4, h.0 == 41)
  }

  // ---- stage A2: inner L3 and L4 ----------------------------------------------------------------------

  datatype L3Info = L3Info(valid: bool, proto: u8, src4: Word, dst4: Word, src6: Addr6, dst6: Addr6, l4: Option<nat>)

  /** The inner IP header; l4 = offset of a TCP or UDP header behind it. */
  function ParseL3(b: Bytes, was: Bytes, inn: Inner, ethertype: Half): L3Info {
    var e := inn.off;
    if inn.v6 && |b| >= e + 40 then
      var p := Hdr(b, was, e + 6);
      L3Info(true, p, ZERO_WORD, ZERO_WORD, Cut(b, was, e + 8, 16), Cut(b, was, e + 24, 16),
             if p == 6 || p == 17 then Some(e + 40) else None)
    else if inn.v4 && |b| >= e + 20 then
      var p, hl := Hdr(b, was, e + 9), Hdr(b, was, e) % 16 * 4;
      L3Info(true, p, Cut(b, was, e + 12, 4), Cut(b, was, e + 16, 4), ZERO_ADDR, ZERO_ADDR,
             if (p == 6 || p == 17) && hl >= 20 then Some(e + hl) else None)
    else L3Info(ethertype != [0, 0], 0, ZERO_WORD, ZERO_WORD, ZERO_ADDR, ZERO_ADDR, None)
  }

  /** Source and destination port. */
  function Ports(b: Bytes, was: Bytes, l4: Option<nat>): (Half, Half) {
    if l4.Some? && |b| >= l4.value + 4 then (Cut(b, was, l4.value, 2), Cut(b, was, l4.value + 2, 2))
      else ([0, 0], [0, 0])
  }

  /** Offset of the test header, when there is room for one. */
  function TestOff(b: Bytes, l4: Option<nat>, tcp: bool): Option<nat> {
    if l4.None? then None
    else
      var po := l4.value + (if tcp then 20 else 8);
      if |b| >= po + 32 && po + 32 <= HDR_BYTES then Some(po) else None
  }

  // ---- the key ------------------------------------------------------------------------------------------

  function KeyOf(b: Bytes, was: Bytes, ingress: u4, l2: L2Info, inn: Inner, l3: L3Info): Parsed {
    var p := Ports(b, was, l3.l4);
    var po := TestOff(b, l3.l4, l3.proto == 6);
    var magic := if po.Some? then Cut(b, was, po.value, 4) else ZERO_WORD;
    var ip := (inn.v6 && |b| >= inn.off + 40) || (inn.v4 && |b| >= inn.off + 20);
    var v6 := inn.v6 && |b| >= inn.off + 40;
    Parsed(
      MatchKey(l3.valid, ingress, l2.vlanValid, l2.vlanId, l2.innerVlan, l2.ethertype,
               l2.ethertype == [0x08, 0x06], inn.v4, inn.v6,
               ip && l3.proto == 6, ip && l3.proto == 17, ip && !v6 && l3.proto == 1, v6 && l3.proto == 58,
               ip && !v6 && l3.proto == 89, magic == TEST_MAGIC,
               l3.proto, l3.src4, l3.dst4, l3.src6, l3.dst6, p.0, p.1,
               if po.Some? then Cut(b, was, po.value + 8, 4) else ZERO_WORD,
               Cut(b, was, 0, HDR_BYTES), inn.off % 0x1_0000),
      if po.Some? then Cut(b, was, po.value + 12, 8) else [])
  }

  /** A frame of at least 14 bytes; shorter ones give no key. */
  function Parse(b: Bytes, was: Bytes, ingress: u4): Option<Parsed> {
    if |b| < 14 then None
    else
      var l2 := ParseL2(b, was);
      var inn := Descend(b, was, l2.l3, l2.ethertype == [0x08, 0x00], l2.ethertype == [0x86, 0xDD]);
      Some(KeyOf(b, was, ingress, l2, inn, ParseL3(b, was, inn, l2.ethertype)))
  }
}
