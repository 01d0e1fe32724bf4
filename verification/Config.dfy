/** The in-memory configuration (config.h) and port resolution (config.c). */
module Config {
  import opened Basics

  /** A 128-bit address or mask, network byte order. */
  type Addr6 = s: Bytes | |s| == 16 witness [0, 0, 0, 0, 0, 0, 0, 0, 0, 0, 0, 0, 0, 0, 0, 0]
  type Mac = s: Bytes | |s| == 6 witness [0, 0, 0, 0, 0, 0]

  datatype PortRef = PortRef(cardId: u16, localPort: u8, globalPort: u16)
  datatype CardPort = CardPort(localPort: u8, globalPort: u16)
  datatype Card = Card(id: u16, pci: string, ports: seq<CardPort>)

  datatype PuntFlags = PuntFlags(arp: bool, ipv6Nd: bool, lldp: bool, icmp: bool,
                                 bgp: bool, ospf: bool, isIs: bool)
  datatype LogicalIf = LogicalIf(id: u32, name: string, globalPort: u16, vlan: Half,
                                 mac: Mac, netns: string, punt: PuntFlags)

  datatype L2 = L2(srcMac: Mac, dstMac: Mac, vlanSet: bool, vlan: Half, pcp: u8, ethertype: Half)
  datatype Ipv4 = Ipv4(src: Word, dst: Word, ttl: u8, dscp: u8)
  datatype Ipv6 = Ipv6(src: Addr6, dst: Addr6, hopLimit: u8, dscp: u8)
  datatype L4 = L4(srcPort: Half, dstPort: Half, proto: u8, tcpFlags: u8)

  /** enum pw_frame_template. */
  datatype Template = Test | L4Raw | L3Raw | L2Raw
  /** enum pw_encap_kind, without the NONE member: an absent tunnel is `encap.None?`. */
  datatype EncapKind = Ipip | Gre | EtherIp
  datatype Outer = Outer4(ip4: Ipv4) | Outer6(ip6: Ipv6)
  datatype InnerMac = InnerMac(src: Mac, dst: Mac)
  datatype Encap = Encap(kind: EncapKind, outer: Outer, innerMac: Option<InnerMac>)

  datatype Traffic = Traffic(template: Template, fixedSet: bool, fixedLen: u16,
                             lenMin: u16, lenMax: u16, lenStep: u16,
                             rateBps: u64, ratePps: u64, burstSize: u32)
  datatype Meas = Meas(loss: bool, latency: bool, jitter: bool)

  /** A 64-bit modifier mask, network byte order: a port uses its last 2 bytes, an IPv4 address its last 4. */
  type Mask64 = s: Bytes | |s| == 8 witness [0, 0, 0, 0, 0, 0, 0, 0]
  /** mode 0 = static, 2 = random, any other value counts up. */
  datatype FieldMod = FieldMod(mode: u8, mask: Mask64)
  datatype Modifiers = Modifiers(srcIp: FieldMod, dstIp: FieldMod, udpSrc: FieldMod, udpDst: FieldMod,
                                 srcMac: FieldMod, dstMac: FieldMod, vlan: FieldMod,
                                 srcIp6Mask: Addr6, dstIp6Mask: Addr6)
  datatype Match = Match(udpDstMask: Half, ipv4DstMask: Word,
                         ipv6Dst: Option<Addr6>, ipv6Src: Option<Addr6>)

  datatype Flow = Flow(id: u32, txPort: u16, rxPort: u16, logicalIfId: u32,
                       l2: L2, ip4: Ipv4, ip6: Option<Ipv6>, l4: L4,
                       traffic: Traffic, meas: Meas, mods: Modifiers,
                       background: bool, encap: Option<Encap>,
                       narrow: Match, classifyHeader: bool)

  datatype V6Prefix = V6Prefix(addr: Addr6, mask: Addr6)
  datatype ForwardRule = ForwardRule(ingress: u16, egress: u16, priority: u8,
                                     ethertype: Half, ipProto: u8, udpDst: Half, vlan: Half,
                                     ipv6Dst: Option<V6Prefix>, ipv6Src: Option<V6Prefix>)

  datatype Config = Config(cards: seq<Card>, lifs: seq<LogicalIf>,
                           flows: seq<Flow>, forwards: seq<ForwardRule>)

  function RefAt(cards: seq<Card>, c: nat, p: nat): (r: PortRef)
    requires c < |cards| && p < |cards[c].ports|
  {
    PortRef(cards[c].id, cards[c].ports[p].localPort, cards[c].ports[p].globalPort)
  }

  /** First port of `ports` from p on whose global number is gp. */
  function FindPort(ports: seq<CardPort>, gp: u16, p: nat): (r: Option<nat>)
    requires p <= |ports|
    ensures r.Some? ==> p <= r.value < |ports|
    decreases |ports| - p
  {
    if p == |ports| then None
    else if ports[p].globalPort == gp then Some(p)
    else FindPort(ports, gp, p + 1)
  }

  lemma {:induction false} FindPortIs(ports: seq<CardPort>, gp: u16, p: nat)
    requires p <= |ports|
    ensures var r := FindPort(ports, gp, p);
            && (r.Some? ==> ports[r.value].globalPort == gp)
            && (r.None? ==> forall q | p <= q < |ports| :: ports[q].globalPort != gp)
    decreases |ports| - p
  {
    if p < |ports| { FindPortIs(ports, gp, p + 1); }
  }

  /** The (card, local port) a global port number names: the first declaration of it. */
  function Resolve(cards: seq<Card>, gp: u16, c: nat := 0): (r: Option<PortRef>)
    requires c <= |cards|
    decreases |cards| - c
  {
    if c == |cards| then None
    else
      var q := FindPort(cards[c].ports, gp, 0);
      if q.Some? then Some(RefAt(cards, c, q.value)) else Resolve(cards, gp, c + 1)
  }

  /** What resolves is a declared port with that number. */
  lemma {:induction false} ResolveSound(cards: seq<Card>, gp: u16, c: nat) returns (i: nat, p: nat)
    requires c <= |cards| && Resolve(cards, gp, c).Some?
    ensures c <= i < |cards| && p < |cards[i].ports| && cards[i].ports[p].globalPort == gp
    ensures Resolve(cards, gp, c).value == RefAt(cards, i, p)
    decreases |cards| - c
  {
    var q := FindPort(cards[c].ports, gp, 0);
    FindPortIs(cards[c].ports, gp, 0);
    if q.Some? {
      return c, q.value;
    }
    i, p := ResolveSound(cards, gp, c + 1);
  }

  /** What does not resolve is declared nowhere. */
  lemma {:induction false} ResolveComplete(cards: seq<Card>, gp: u16, c: nat, i: nat, p: nat)
    requires c <= i < |cards| && p < |cards[i].ports| && cards[i].ports[p].globalPort == gp
    ensures Resolve(cards, gp, c).Some?
    decreases |cards| - c
  {
    FindPortIs(cards[c].ports, gp, 0);
    if FindPort(cards[c].ports, gp, 0).None? { ResolveComplete(cards, gp, c + 1, i, p); }
  }

  /** pw_config_resolve_port: the nested search loop. */
  method ResolvePort(cfg: Config, gp: u16) returns (st: Status, out: PortRef)
    ensures st == OK <==> Resolve(cfg.cards, gp).Some?
    ensures st == OK ==> out == Resolve(cfg.cards, gp).value
    ensures st != OK ==> st == UnknownGlobalPort
  {
    out := PortRef(0, 0, 0);
    for i := 0 to |cfg.cards|
      invariant Resolve(cfg.cards, gp) == Resolve(cfg.cards, gp, i)
    {
      var c := cfg.cards[i];
      for j := 0 to |c.ports|
        invariant FindPort(c.ports, gp, 0) == FindPort(c.ports, gp, j)
      {
        if c.ports[j].globalPort == gp {
          return OK, PortRef(c.id, c.ports[j].localPort, gp);
        }
      }
    }
    st := UnknownGlobalPort;
  }
}
