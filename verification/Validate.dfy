/** Static validation (validate.c): what a configuration must satisfy before it is compiled. */
module Validate {
  import opened Basics
  import opened Config

  /** A logical interface name becomes a TAP device name, at most 15 characters. */
  const TAP_IFNAME_MAX := 16

  predicate DistinctCards(cards: seq<Card>) {
    forall i, j | 0 <= i < j < |cards| :: cards[i].id != cards[j].id && cards[i].pci != cards[j].pci
  }

  /** No global port number is declared twice, on one card or across cards. */
  predicate DistinctGlobalPorts(cards: seq<Card>) {
    && (forall i, j | 0 <= i < j < |cards| :: NoneShared(cards[i].ports, cards[j].ports))
    && (forall i | 0 <= i < |cards| :: DistinctWithinCard(cards[i].ports))
  }

  /** No port number of a occurs in b. */
  predicate NoneShared(a: seq<CardPort>, b: seq<CardPort>) {
    forall p, q | 0 <= p < |a| && 0 <= q < |b| :: a[p].globalPort != b[q].globalPort
  }

  predicate DistinctWithinCard(ports: seq<CardPort>) {
    forall p, q | 0 <= p < q < |ports| :: ports[p].globalPort != ports[q].globalPort
  }

  predicate DistinctLocalPorts(ports: seq<CardPort>) {
    forall p, q | 0 <= p < q < |ports| :: ports[p].localPort != ports[q].localPort
  }

  predicate LogicalIfOk(cfg: Config, i: nat)
    requires i < |cfg.lifs|
  {
    && |cfg.lifs[i].name| < TAP_IFNAME_MAX
    && cfg.lifs[i].netns == ""
    && (forall j | i < j < |cfg.lifs| :: cfg.lifs[i].id != cfg.lifs[j].id && cfg.lifs[i].name != cfg.lifs[j].name)
    && Resolve(cfg.cards, cfg.lifs[i].globalPort).Some?
  }

  predicate MeasuresAny(f: Flow) {
    f.meas.loss || f.meas.latency || f.meas.jitter
  }

  predicate FlowOk(cfg: Config, i: nat)
    requires i < |cfg.flows|
  {
    var f := cfg.flows[i];
    && (forall j | i < j < |cfg.flows| :: f.id != cfg.flows[j].id)
    && Resolve(cfg.cards, f.txPort).Some?
    && Resolve(cfg.cards, f.rxPort).Some?
    && (f.logicalIfId != 0 ==> exists l | 0 <= l < |cfg.lifs| :: cfg.lifs[l].id == f.logicalIfId)
    && (f.traffic.fixedSet <==> f.traffic.lenMax == 0)
    && (f.traffic.rateBps == 0 <==> f.traffic.ratePps != 0)
    && (!f.traffic.template.Test? ==> !MeasuresAny(f) && f.classifyHeader && f.encap.None?)
    && (f.background ==> !MeasuresAny(f))
  }

  predicate ForwardOk(cfg: Config, fr: ForwardRule) {
    && Resolve(cfg.cards, fr.ingress).Some?
    && Resolve(cfg.cards, fr.egress).Some?
    && Resolve(cfg.cards, fr.ingress).value.cardId == Resolve(cfg.cards, fr.egress).value.cardId
  }

  predicate Valid(cfg: Config) {
    && DistinctCards(cfg.cards)
    && DistinctGlobalPorts(cfg.cards)
    && (forall i | 0 <= i < |cfg.cards| :: DistinctLocalPorts(cfg.cards[i].ports))
    && (forall i | 0 <= i < |cfg.lifs| :: LogicalIfOk(cfg, i))
    && (forall i | 0 <= i < |cfg.flows| :: FlowOk(cfg, i))
    && (forall i | 0 <= i < |cfg.forwards| :: ForwardOk(cfg, cfg.forwards[i]))
  }

  method CheckCards(cards: seq<Card>) returns (st: Status)
    ensures st == OK <==> DistinctCards(cards)
  {
    for i := 0 to |cards|
      invariant forall a, b | 0 <= a < i && a < b < |cards| ::
                  cards[a].id != cards[b].id && cards[a].pci != cards[b].pci
    {
      for j := i + 1 to |cards|
        invariant forall b | i < b < j :: cards[i].id != cards[b].id && cards[i].pci != cards[b].pci
      {
        if cards[i].id == cards[j].id || cards[i].pci == cards[j].pci { return DupCardId; }
      }
    }
    st := OK;
  }

  method ClashWithin(a: seq<CardPort>) returns (clash: bool)
    ensures clash <==> !DistinctWithinCard(a)
  {
    for p := 0 to |a|
      invariant forall x, y | 0 <= x < p && x < y < |a| :: a[x].globalPort != a[y].globalPort
    {
      for q := p + 1 to |a|
        invariant forall y | p < y < q :: a[p].globalPort != a[y].globalPort
      {
        if a[p].globalPort == a[q].globalPort { return true; }
      }
    }
    clash := false;
  }

  method ClashBetween(a: seq<CardPort>, b: seq<CardPort>) returns (clash: bool)
    ensures clash <==> !NoneShared(a, b)
  {
    for p := 0 to |a|
      invariant forall x, y | 0 <= x < p && 0 <= y < |b| :: a[x].globalPort != b[y].globalPort
    {
      for q := 0 to |b|
        invariant forall y | 0 <= y < q :: a[p].globalPort != b[y].globalPort
      {
        if a[p].globalPort == b[q].globalPort { return true; }
      }
    }
    clash := false;
  }

  method ClashLocal(a: seq<CardPort>) returns (clash: bool)
    ensures clash <==> !DistinctLocalPorts(a)
  {
    for p := 0 to |a|
      invariant forall x, y | 0 <= x < p && x < y < |a| :: a[x].localPort != a[y].localPort
    {
      for q := p + 1 to |a|
        invariant forall y | p < y < q :: a[p].localPort != a[y].localPort
      {
        if a[p].localPort == a[q].localPort { return true; }
      }
    }
    clash := false;
  }

  /** Card by card: its global numbers against its own and every later card's, then its local numbers. */
  method CheckPorts(cards: seq<Card>) returns (st: Status)
    ensures st == OK <==>
            DistinctGlobalPorts(cards) && forall i | 0 <= i < |cards| :: DistinctLocalPorts(cards[i].ports)
  {
    for i := 0 to |cards|
      invariant forall a, b | 0 <= a < i && a < b < |cards| :: NoneShared(cards[a].ports, cards[b].ports)
      invariant forall a | 0 <= a < i :: DistinctWithinCard(cards[a].ports) && DistinctLocalPorts(cards[a].ports)
    {
      var clash := ClashWithin(cards[i].ports);
      if clash { return DupGlobalPort; }
      for j := i + 1 to |cards|
        invariant forall b | i < b < j :: NoneShared(cards[i].ports, cards[b].ports)
      {
        clash := ClashBetween(cards[i].ports, cards[j].ports);
        if clash { return DupGlobalPort; }
      }
      clash := ClashLocal(cards[i].ports);
      if clash {
        assert !DistinctLocalPorts(cards[i].ports);
        return DupGlobalPort;
      }
    }
    st := OK;
  }

  method CheckLogicalIfs(cfg: Config) returns (st: Status)
    ensures st == OK <==> forall i | 0 <= i < |cfg.lifs| :: LogicalIfOk(cfg, i)
  {
    for i := 0 to |cfg.lifs|
      invariant forall a | 0 <= a < i :: LogicalIfOk(cfg, a)
    {
      var l := cfg.lifs[i];
      if |l.name| >= TAP_IFNAME_MAX || l.netns != "" {
        assert !LogicalIfOk(cfg, i);
        return Inval;
      }
      for j := i + 1 to |cfg.lifs|
        invariant forall b | i < b < j :: l.id != cfg.lifs[b].id && l.name != cfg.lifs[b].name
      {
        if l.id == cfg.lifs[j].id || l.name == cfg.lifs[j].name {
          assert !LogicalIfOk(cfg, i);
          return DupLogicalIf;
        }
      }
      var r, _ := ResolvePort(cfg, l.globalPort);
      if r != OK {
        assert !LogicalIfOk(cfg, i);
        return UnknownGlobalPort;
      }
    }
    st := OK;
  }

  method CheckFlow(cfg: Config, i: nat) returns (st: Status)
    requires i < |cfg.flows|
    ensures st == OK <==> FlowOk(cfg, i)
  {
    var f := cfg.flows[i];
    for j := i + 1 to |cfg.flows|
      invariant forall b | i < b < j :: f.id != cfg.flows[b].id
    {
      if f.id == cfg.flows[j].id { return DupFlowId; }
    }
    var rt, _ := ResolvePort(cfg, f.txPort);
    if rt != OK { return UnknownGlobalPort; }
    var rr, _ := ResolvePort(cfg, f.rxPort);
    if rr != OK { return UnknownGlobalPort; }
    if f.logicalIfId != 0 && !exists l | 0 <= l < |cfg.lifs| :: cfg.lifs[l].id == f.logicalIfId {
      return UnknownLogicalIf;
    }
    if f.traffic.fixedSet && f.traffic.lenMax != 0 { return Inval; }
    if !f.traffic.fixedSet && f.traffic.lenMax == 0 { return MissingField; }
    if f.traffic.rateBps == 0 && f.traffic.ratePps == 0 { return MissingField; }
    if f.traffic.rateBps != 0 && f.traffic.ratePps != 0 { return Inval; }
    if !f.traffic.template.Test? && (MeasuresAny(f) || !f.classifyHeader || f.encap.Some?) { return Inval; }
    if f.background && MeasuresAny(f) { return Inval; }
    st := OK;
  }

  /** pw_config_validate accepts exactly the valid configurations. */
  method CheckConfig(cfg: Config) returns (st: Status)
    ensures st == OK <==> Valid(cfg)
  {
    st := CheckCards(cfg.cards);
    if st != OK { return; }
    st := CheckPorts(cfg.cards);
    if st != OK { return; }
    st := CheckLogicalIfs(cfg);
    if st != OK { return; }
    for i := 0 to |cfg.flows|
      invariant forall a | 0 <= a < i :: FlowOk(cfg, a)
    {
      st := CheckFlow(cfg, i);
      if st != OK { return; }
    }
    for i := 0 to |cfg.forwards|
      invariant forall a | 0 <= a < i :: ForwardOk(cfg, cfg.forwards[a])
    {
      var fr := cfg.forwards[i];
      var ri, ing := ResolvePort(cfg, fr.ingress);
      if ri != OK { return UnknownGlobalPort; }
      var re, egr := ResolvePort(cfg, fr.egress);
      if re != OK { return UnknownGlobalPort; }
      if ing.cardId != egr.cardId { return Inval; }
    }
    st := OK;
  }

  /** In a valid configuration every declared port resolves to itself: the first declaration is the only one. */
  lemma {:induction false} ResolveUnique(cards: seq<Card>, i: nat, p: nat, c: nat)
    requires DistinctGlobalPorts(cards)
    requires c <= i < |cards| && p < |cards[i].ports|
    ensures Resolve(cards, cards[i].ports[p].globalPort, c) == Some(RefAt(cards, i, p))
    decreases |cards| - c
  {
    var gp := cards[i].ports[p].globalPort;
    var q := FindPort(cards[c].ports, gp, 0);
    FindPortIs(cards[c].ports, gp, 0);
    if c < i {
      assert q.None?;
      ResolveUnique(cards, i, p, c + 1);
    } else {
      assert q == Some(p);
    }
  }
}
