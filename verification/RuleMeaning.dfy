/**
 What the configuration's punt flags and forward rules ask for, written out in flags, port and
 protocol numbers, and that a programmed card does exactly that with every frame no flow claims.
 */
module RuleMeaning {
  import opened Basics
  import opened Config
  import opened Classifier
  import opened RuleSources
  import opened CardBuilder
  import opened FlowSlots
  import opened FlowCompiler
  import opened Registers
  import opened TableWrites
  import opened CardMeaning
  import opened EndToEnd
  import Validate

  // ---- punt flags ---------------------------------------------------------------------------------------

  /** The frames a logical interface's flags ask for. Over IPv6, OSPF and BGP also need the ND flag. */
  predicate FlagsAsk(p: PuntFlags, k: MatchKey) {
    var v4, v6 := k.ethertype == [0x08, 0x00], k.ethertype == [0x86, 0xDD];
    || (p.arp && k.ethertype == [0x08, 0x06])
    || (p.ipv6Nd && v6 && k.l3Proto == 58)
    || (p.lldp && k.ethertype == [0x88, 0xCC])
    || (p.icmp && v4 && k.l3Proto == 1)
    || (p.bgp && (v4 || (v6 && p.ipv6Nd)) && k.l3Proto == 6 && (k.l4Dst == [0, 179] || k.l4Src == [0, 179]))
    || (p.ospf && (v4 || (v6 && p.ipv6Nd)) && k.l3Proto == 89)
    || (p.isIs && WindowByte(k, k.base) == 0xFE && WindowByte(k, k.base + 1) == 0xFE)
  }

  /** Logical interface l, on local port `port`, asks for this frame. */
  predicate LifAsks(l: LogicalIf, port: u8, k: MatchKey) {
    && k.ingress == port % 16
    && (l.vlan == [0, 0] || (k.vlanId[0] % 16 == l.vlan[0] % 16 && k.vlanId[1] == l.vlan[1]))
    && FlagsAsk(l.punt, k)
  }

  predicate LineAsks(p: PuntFlags, k: MatchKey, i: nat) { PuntLine(p, i).0 && KindMatches(PuntLine(p, i).1, k) }

  /** The eleven lines together ask for exactly those frames. */
  lemma LinesMean(p: PuntFlags, k: MatchKey)
    ensures (exists i | 0 <= i < 11 :: LineAsks(p, k, i)) <==> FlagsAsk(p, k)
  {
    if FlagsAsk(p, k) { var i := LineFor(p, k); }
  }

  /** A line that asks for the frame. */
  lemma LineFor(p: PuntFlags, k: MatchKey) returns (i: nat)
    requires FlagsAsk(p, k)
    ensures i < 11 && LineAsks(p, k, i)
  {
    var v4, v6 := k.ethertype == [0x08, 0x00], k.ethertype == [0x86, 0xDD];
    if p.bgp && (v4 || (v6 && p.ipv6Nd)) && k.l3Proto == 6 && (k.l4Dst == [0, 179] || k.l4Src == [0, 179]) {
      i := BgpLine(p, k, v4);
    } else if p.ospf && (v4 || (v6 && p.ipv6Nd)) && k.l3Proto == 89 {
      i := if v4 then 6 else 7;
    } else if p.arp && k.ethertype == [0x08, 0x06] {
      i := 0;
    } else if p.ipv6Nd && v6 && k.l3Proto == 58 {
      i := 1;
    } else if p.lldp && k.ethertype == [0x88, 0xCC] {
      i := 2;
    } else if p.icmp && v4 && k.l3Proto == 1 {
      i := 3;
    } else {
      i := 10;
    }
  }

  lemma BgpLine(p: PuntFlags, k: MatchKey, v4: bool) returns (i: nat)
    requires p.bgp && (if v4 then k.ethertype == [0x08, 0x00] else p.ipv6Nd && k.ethertype == [0x86, 0xDD])
    requires k.l3Proto == 6 && (k.l4Dst == [0, 179] || k.l4Src == [0, 179])
    ensures i < 11 && LineAsks(p, k, i)
  {
    i := (if v4 then 4 else 8) + if k.l4Dst == [0, 179] then 0 else 1;
  }

  /** The rule of line i of an interface. */
  function LineSource(l: LogicalIf, port: u8, i: nat): RuleSource { Punt(PuntLine(l.punt, i).1, port, l.vlan, l.id) }

  predicate IsLine(l: LogicalIf, port: u8, n: nat, x: RuleSource) {
    exists i | 0 <= i < n :: PuntLine(l.punt, i).0 && x == LineSource(l, port, i)
  }

  /** The rules of an interface are those of the lines whose flag is set. */
  lemma {:induction false} LifRules(before: seq<RuleSource>, port: u8, l: LogicalIf, n: nat, x: RuleSource)
    ensures x in LifSources(before, port, l, n) <==> x in before || IsLine(l, port, n, x)
  {
    if n > 0 {
      LifRules(before, port, l, n - 1, x);
      var line := PuntLine(l.punt, n - 1);
      assert x in PuntWhen(line.0, line.1, port, l) <==> line.0 && x == LineSource(l, port, n - 1);
    }
  }

  /** Rule x of card id comes from logical interface i. */
  predicate FromLif(cfg: Config, id: u16, i: nat, x: RuleSource)
    requires i < |cfg.lifs|
  {
    var l := cfg.lifs[i];
    LifOn(cfg, l, id) && IsLine(l, Resolve(cfg.cards, l.globalPort).value.localPort, PUNT_LINES, x)
  }

  lemma {:induction false} PuntRules(cfg: Config, id: u16, n: nat, x: RuleSource)
    requires n <= |cfg.lifs|
    ensures x in PuntSources(cfg, id, n) <==> exists i | 0 <= i < n :: FromLif(cfg, id, i, x)
  {
    if n > 0 {
      PuntRules(cfg, id, n - 1, x);
      var l := cfg.lifs[n - 1];
      if LifOn(cfg, l, id) {
        LifRules(PuntSources(cfg, id, n - 1), Resolve(cfg.cards, l.globalPort).value.localPort, l, PUNT_LINES, x);
      }
      assert FromLif(cfg, id, n - 1, x) ==> exists i | 0 <= i < n :: FromLif(cfg, id, i, x);
    }
  }

  // ---- forward rules ------------------------------------------------------------------------------------

  /** Forward rule q is for a port of card id. */
  predicate ForwardHere(cfg: Config, id: u16, q: nat)
    requires q < |cfg.forwards|
  {
    var i, e := Resolve(cfg.cards, cfg.forwards[q].ingress), Resolve(cfg.cards, cfg.forwards[q].egress);
    i.Some? && e.Some? && i.value.cardId == id
  }

  predicate Rising(at: seq<nat>, n: nat) {
    (forall i, j | 0 <= i < j < |at| :: at[i] < at[j]) && (forall i | 0 <= i < |at| :: at[i] < n)
  }

  /** The rules at[0], at[1], ... of the configuration, with the local ports they resolve to. */
  predicate ForwardList(cfg: Config, id: u16, at: seq<nat>, s: seq<RuleSource>) {
    && |s| == |at|
    && forall j | 0 <= j < |at| :: at[j] < |cfg.forwards| && ForwardHere(cfg, id, at[j])
         && var fr := cfg.forwards[at[j]];
            s[j] == Forward(Resolve(cfg.cards, fr.ingress).value.localPort,
                            Resolve(cfg.cards, fr.egress).value.localPort, fr)
  }

  /** A card's rules: its punts, then exactly the forward rules whose ingress is one of its ports, in their order. */
  lemma {:induction false} ForwardRules(cfg: Config, id: u16, n: nat) returns (at: seq<nat>)
    requires n <= |cfg.forwards|
    ensures Rising(at, n) && forall q | 0 <= q < n :: q in at <==> ForwardHere(cfg, id, q)
    ensures var p := PuntSources(cfg, id, |cfg.lifs|);
            p <= ForwardSources(cfg, id, n) && ForwardList(cfg, id, at, ForwardSources(cfg, id, n)[|p|..])
  {
    at := [];
    if n > 0 {
      at := ForwardRules(cfg, id, n - 1);
      var p, s := PuntSources(cfg, id, |cfg.lifs|), ForwardSources(cfg, id, n - 1);
      if ForwardHere(cfg, id, n - 1) {
        var x := ForwardSource(cfg, cfg.forwards[n - 1]);
        OneMoreForward(cfg, id, at, s[|p|..], n - 1, x);
        assert (s + [x])[|p|..] == s[|p|..] + [x];
        at := at + [n - 1];
      }
    }
  }

  lemma OneMoreForward(cfg: Config, id: u16, at: seq<nat>, s: seq<RuleSource>, q: nat, x: RuleSource)
    requires ForwardList(cfg, id, at, s) && q < |cfg.forwards| && ForwardHere(cfg, id, q) && Rising(at, q)
    requires x == ForwardSource(cfg, cfg.forwards[q])
    ensures ForwardList(cfg, id, at + [q], s + [x]) && Rising(at + [q], q + 1)
  {}

  /** Forward rule q, on card id, asks for this frame; 0 in a field means any. */
  predicate ForwardAsks(cfg: Config, id: u16, q: nat, k: MatchKey)
    requires q < |cfg.forwards|
  {
    var r := cfg.forwards[q];
    && ForwardHere(cfg, id, q)
    && k.ingress == Resolve(cfg.cards, r.ingress).value.localPort % 16
    && (r.vlan == [0, 0] || (k.vlanId[0] % 16 == r.vlan[0] % 16 && k.vlanId[1] == r.vlan[1]))
    && (r.ethertype == [0, 0] || k.ethertype == r.ethertype)
    && (r.ipProto == 0 || k.l3Proto == r.ipProto)
    && (r.udpDst == [0, 0] || k.l4Dst == r.udpDst)
    && (r.ipv6Dst.Some? ==> k.isIpv6 && MaskEq(k.ipv6Dst, r.ipv6Dst.value.mask, r.ipv6Dst.value.addr))
    && (r.ipv6Src.Some? ==> k.isIpv6 && MaskEq(k.ipv6Src, r.ipv6Src.value.mask, r.ipv6Src.value.addr))
  }

  /** Logical interface j lives on card id and asks for this frame. */
  predicate PuntAsks(cfg: Config, id: u16, j: nat, k: MatchKey)
    requires j < |cfg.lifs|
  {
    var ref := Resolve(cfg.cards, cfg.lifs[j].globalPort);
    ref.Some? && ref.value.cardId == id && LifAsks(cfg.lifs[j], ref.value.localPort, k)
  }

  // ---- all rules of a card ------------------------------------------------------------------------------

  lemma LineMatches(l: LogicalIf, port: u8, i: nat, k: MatchKey)
    ensures SourceMatches(LineSource(l, port, i), k) <==>
            && k.ingress == port % 16
            && (l.vlan == [0, 0] || (k.vlanId[0] % 16 == l.vlan[0] % 16 && k.vlanId[1] == l.vlan[1]))
            && KindMatches(PuntLine(l.punt, i).1, k)
  {}

  /** A punt rule that matches belongs to an interface that asks for the frame. */
  lemma PuntRuleAsked(cfg: Config, id: u16, x: RuleSource, k: MatchKey) returns (j: nat)
    requires x in PuntSources(cfg, id, |cfg.lifs|) && SourceMatches(x, k)
    ensures j < |cfg.lifs| && PuntAsks(cfg, id, j, k) && x.Punt? && x.lif == cfg.lifs[j].id
  {
    PuntRules(cfg, id, |cfg.lifs|, x);
    j :| 0 <= j < |cfg.lifs| && FromLif(cfg, id, j, x);
    var l := cfg.lifs[j];
    var port := Resolve(cfg.cards, l.globalPort).value.localPort;
    var i :| 0 <= i < PUNT_LINES && PuntLine(l.punt, i).0 && x == LineSource(l, port, i);
    LineMatches(l, port, i, k);
    assert LineAsks(l.punt, k, i);
    LinesMean(l.punt, k);
  }

  /** An interface that asks for the frame has a punt rule that matches. */
  lemma AskedHasPuntRule(cfg: Config, id: u16, j: nat, k: MatchKey) returns (x: RuleSource)
    requires j < |cfg.lifs| && PuntAsks(cfg, id, j, k)
    ensures x in PuntSources(cfg, id, |cfg.lifs|) && SourceMatches(x, k) && x.Punt? && x.lif == cfg.lifs[j].id
  {
    var l := cfg.lifs[j];
    var port := Resolve(cfg.cards, l.globalPort).value.localPort;
    var i := LineFor(l.punt, k);
    x := LineSource(l, port, i);
    LineMatches(l, port, i, k);
    assert IsLine(l, port, PUNT_LINES, x);
    assert FromLif(cfg, id, j, x);
    PuntRules(cfg, id, |cfg.lifs|, x);
  }

  /** Every rule of a card is one of its punts or one of its forwards. */
  lemma PuntOrForward(cfg: Config, id: u16, x: RuleSource)
    ensures x in Sources(cfg, id) <==>
            || x in PuntSources(cfg, id, |cfg.lifs|)
            || exists q | 0 <= q < |cfg.forwards| :: ForwardHere(cfg, id, q) && x == ForwardSource(cfg, cfg.forwards[q])
  {
    var at := ForwardRules(cfg, id, |cfg.forwards|);
    var p, s := PuntSources(cfg, id, |cfg.lifs|), Sources(cfg, id);
    InEitherPart(s, p, x);
    ListedForward(cfg, id, at, s[|p|..], x);
  }

  lemma InEitherPart(s: seq<RuleSource>, p: seq<RuleSource>, x: RuleSource)
    requires p <= s
    ensures x in s <==> x in p || x in s[|p|..]
  {
    assert s == p + s[|p|..];
  }

  lemma ListedForward(cfg: Config, id: u16, at: seq<nat>, s: seq<RuleSource>, x: RuleSource)
    requires ForwardList(cfg, id, at, s) && Rising(at, |cfg.forwards|)
    requires forall q | 0 <= q < |cfg.forwards| :: q in at <==> ForwardHere(cfg, id, q)
    ensures x in s <==>
            exists q | 0 <= q < |cfg.forwards| :: ForwardHere(cfg, id, q) && x == ForwardSource(cfg, cfg.forwards[q])
  {
    if x in s {
      var j :| 0 <= j < |s| && s[j] == x;
      assert ForwardHere(cfg, id, at[j]);
    }
    if q :| 0 <= q < |cfg.forwards| && ForwardHere(cfg, id, q) && x == ForwardSource(cfg, cfg.forwards[q]) {
      assert q in at;
      var j :| 0 <= j < |at| && at[j] == q;
      assert s[j] == x;
    }
  }

  lemma ForwardMatches(cfg: Config, id: u16, q: nat, k: MatchKey)
    requires q < |cfg.forwards| && ForwardHere(cfg, id, q)
    ensures SourceMatches(ForwardSource(cfg, cfg.forwards[q]), k) <==> ForwardAsks(cfg, id, q, k)
  {}

  /**
   For every frame: some punt rule of the card for interface j matches exactly if j lives there
   and its flags ask for the frame.
   */
  lemma PuntFlagsMean(cfg: Config, id: u16, j: nat, k: MatchKey)
    requires Validate.Valid(cfg) && j < |cfg.lifs|
    ensures (exists x | x in Sources(cfg, id) :: x.Punt? && x.lif == cfg.lifs[j].id && SourceMatches(x, k))
       <==> PuntAsks(cfg, id, j, k)
  {
    if x :| x in Sources(cfg, id) && x.Punt? && x.lif == cfg.lifs[j].id && SourceMatches(x, k) {
      PuntOrForward(cfg, id, x);
      var i := PuntRuleAsked(cfg, id, x, k);
      assert Validate.LogicalIfOk(cfg, i) && Validate.LogicalIfOk(cfg, j);
    }
    if PuntAsks(cfg, id, j, k) {
      var x := AskedHasPuntRule(cfg, id, j, k);
      PuntOrForward(cfg, id, x);
    }
  }

  // ---- what becomes of a frame ----------------------------------------------------------------------------

  /** The effect on a frame that no flow claims, in the configuration's own terms. */
  predicate AsAsked(cfg: Config, id: u16, k: MatchKey, e: Effect) {
    match e
    case Counted(_) => false
    case Punted(w) => exists j | 0 <= j < |cfg.lifs| :: w == Word32(cfg.lifs[j].id) && PuntAsks(cfg, id, j, k)
    case Forwarded(p) => exists q | 0 <= q < |cfg.forwards| :: ForwardGoes(cfg, id, q, k, p)
    case Ignored =>
      && (forall j | 0 <= j < |cfg.lifs| :: !PuntAsks(cfg, id, j, k))
      && (forall q | 0 <= q < |cfg.forwards| :: !ForwardAsks(cfg, id, q, k))
  }

  predicate ForwardGoes(cfg: Config, id: u16, q: nat, k: MatchKey, p: nat)
    requires q < |cfg.forwards|
  {
    ForwardAsks(cfg, id, q, k) && p == Resolve(cfg.cards, cfg.forwards[q].egress).value.localPort % 16
  }

  /** What a rule of the table does, when it realises this source. */
  lemma SourceEffect(cfg: Config, id: u16, s: RuleSource, rule: Rule, k: MatchKey)
    requires s in Sources(cfg, id) && SourceMatches(s, k) && RuleFields(rule, s)
    ensures var e := if Clipped(rule).action == ACT_PUNT then Punted(rule.lif) else Forwarded(Clipped(rule).egress);
            AsAsked(cfg, id, k, e) && (Clipped(rule).action == ACT_PUNT || Clipped(rule).action == ACT_FORWARD)
  {
    PuntOrForward(cfg, id, s);
    if s in PuntSources(cfg, id, |cfg.lifs|) {
      var j := PuntRuleAsked(cfg, id, s, k);
    } else {
      var q :| 0 <= q < |cfg.forwards| && ForwardHere(cfg, id, q) && s == ForwardSource(cfg, cfg.forwards[q]);
      ForwardMatches(cfg, id, q, k);
      assert ForwardGoes(cfg, id, q, k, rule.egress % 16);
    }
  }

  lemma NoneAsked(cfg: Config, id: u16, k: MatchKey)
    requires forall x | x in Sources(cfg, id) :: !SourceMatches(x, k)
    ensures AsAsked(cfg, id, k, Ignored)
  {
    forall j | 0 <= j < |cfg.lifs| ensures !PuntAsks(cfg, id, j, k) {
      if PuntAsks(cfg, id, j, k) {
        var x := AskedHasPuntRule(cfg, id, j, k);
        PuntOrForward(cfg, id, x);
      }
    }
    forall q | 0 <= q < |cfg.forwards| ensures !ForwardAsks(cfg, id, q, k) {
      if ForwardHere(cfg, id, q) {
        ForwardMatches(cfg, id, q, k);
        PuntOrForward(cfg, id, ForwardSource(cfg, cfg.forwards[q]));
      }
    }
  }

  /**
   A programmed card punts a frame that no flow claims only to an interface whose flags ask for
   it, forwards it only by a forward rule that asks for it, and ignores it exactly if nothing does.
   */
  lemma CardDoesAsAsked(cfg: Config, t: seq<CardTables>, prog: Program, c: nat, r: RegFile, k: MatchKey)
    requires CompiledFrom(cfg, t, prog) && c < |prog.cards| && k.valid
    requires TablesHold(r, prog.cards[c]) && NoneFrom(r, |prog.cards[c].rules|)
    ensures AllResolve(cfg)
    ensures !Claimed(cfg, c, prog.cards[c].hashMask, k) ==> AsAsked(cfg, prog.cards[c].cardId, k, CardEffect(r, k))
  {
    CardAppliesChosenRule(cfg, t, prog, c, r, k);
    if !Claimed(cfg, c, prog.cards[c].hashMask, k) {
      CompiledFits(cfg, t, prog, c);
      assert Finished(cfg, t[c], prog.cards[c]);
      UnclaimedEffect(cfg, prog.cards[c], r, k);
    }
  }

  lemma UnclaimedEffect(cfg: Config, cp: CardTables, r: RegFile, k: MatchKey)
    requires WellFormed(cp) && TablesHold(r, cp) && RulesRealise(cp.cmps, cp.udfs, cp.rules, Sources(cfg, cp.cardId))
    requires !CardAction(r, k).TestRx? && AnswersFor(Sources(cfg, cp.cardId), k, RuleOfAction(CardAction(r, k)))
    ensures AsAsked(cfg, cp.cardId, k, CardEffect(r, k))
  {
    var s, a := Sources(cfg, cp.cardId), CardAction(r, k);
    if a.ByRule? {
      ProgrammedRule(r, cp, a.rule);
      SourceEffect(cfg, cp.cardId, s[a.rule], cp.rules[a.rule], k);
    } else {
      NoneAsked(cfg, cp.cardId, k);
    }
  }
}
