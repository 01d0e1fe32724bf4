/** pw_flow_compile: from a configuration to the per-card programs. */
module FlowCompiler {
  import opened Basics
  import opened Config
  import opened Classifier
  import opened RuleSources
  import opened CardBuilder
  import opened FlowRows
  import opened HashKeys
  import opened FlowSlots
  import opened Pools
  import opened Capacity
  import Validate

  /** struct pw_program. */
  datatype Program = Program(cards: seq<CardTables>, meta: seq<Meta>)

  // ---- what the classifier rules come from ----------------------------------------------

  predicate LifOn(cfg: Config, l: LogicalIf, id: u16) {
    var r := Resolve(cfg.cards, l.globalPort);
    r.Some? && r.value.cardId == id
  }

  /** The punt rules of the first n logical interfaces that live on this card. */
  function PuntSources(cfg: Config, id: u16, n: nat): seq<RuleSource>
    requires n <= |cfg.lifs|
  {
    if n == 0 then []
    else
      var l := cfg.lifs[n - 1];
      var before := PuntSources(cfg, id, n - 1);
      if LifOn(cfg, l, id) then LifSources(before, Resolve(cfg.cards, l.globalPort).value.localPort, l, PUNT_LINES)
      else before
  }

  predicate ForwardOn(cfg: Config, fr: ForwardRule, id: u16) {
    var i, e := Resolve(cfg.cards, fr.ingress), Resolve(cfg.cards, fr.egress);
    i.Some? && e.Some? && i.value.cardId == id
  }

  function ForwardSource(cfg: Config, fr: ForwardRule): RuleSource
    requires Resolve(cfg.cards, fr.ingress).Some? && Resolve(cfg.cards, fr.egress).Some?
  {
    Forward(Resolve(cfg.cards, fr.ingress).value.localPort, Resolve(cfg.cards, fr.egress).value.localPort, fr)
  }

  /** All punt rules of the card, then its first n forward rules. */
  function ForwardSources(cfg: Config, id: u16, n: nat): seq<RuleSource>
    requires n <= |cfg.forwards|
  {
    if n == 0 then PuntSources(cfg, id, |cfg.lifs|)
    else
      var fr := cfg.forwards[n - 1];
      var before := ForwardSources(cfg, id, n - 1);
      if ForwardOn(cfg, fr, id) then before + [ForwardSource(cfg, fr)] else before
  }

  /** Every rule the configuration asks this card for, in table order. */
  function Sources(cfg: Config, id: u16): seq<RuleSource> { ForwardSources(cfg, id, |cfg.forwards|) }

  // ---- the hash pass --------------------------------------------------------------------

  predicate KeyedOn(cfg: Config, f: Flow, id: u16) {
    var r := Resolve(cfg.cards, f.rxPort);
    f.classifyHeader && r.Some? && r.value.cardId == id
  }

  /** The card's key mask after the first n flows have relaxed it. */
  function MaskFor(cfg: Config, id: u16, n: nat): KeyWords
    requires n <= |cfg.flows|
  {
    if n == 0 then FULL_MASK
    else if KeyedOn(cfg, cfg.flows[n - 1], id) then RelaxMask(MaskFor(cfg, id, n - 1), cfg.flows[n - 1])
    else MaskFor(cfg, id, n - 1)
  }

  /** The finished mask avoids the modifier bits of every header-classified flow of the card. */
  lemma {:induction false} MaskAvoids(cfg: Config, id: u16, n: nat, k: nat)
    requires k < n <= |cfg.flows| && KeyedOn(cfg, cfg.flows[k], id)
    ensures Avoids(MaskFor(cfg, id, n), cfg.flows[k])
    decreases n
  {
    MaskStep(cfg, id, n);
    if k == n - 1 {
      RelaxAvoids(MaskFor(cfg, id, n - 1), cfg.flows[k]);
    } else {
      MaskAvoids(cfg, id, n - 1, k);
      RelaxKeepsAvoiding(MaskFor(cfg, id, n - 1), cfg.flows[k], cfg.flows[n - 1]);
    }
  }

  lemma MaskStep(cfg: Config, id: u16, n: nat)
    requires 0 < n <= |cfg.flows|
    ensures var f := cfg.flows[n - 1];
            MaskFor(cfg, id, n) == if KeyedOn(cfg, f, id) then RelaxMask(MaskFor(cfg, id, n - 1), f)
              else MaskFor(cfg, id, n - 1)
  {}

  /** The hash part of a finished card: the same entries, masked and placed without collisions. */
  predicate Hashed(cfg: Config, was: CardTables, now: CardTables) {
    && now.hashMask == MaskFor(cfg, now.cardId, |cfg.flows|)
    && |now.hashEntries| == |was.hashEntries|
    && (forall i | 0 <= i < |was.hashEntries| ::
          && now.hashEntries[i].localId == was.hashEntries[i].localId
          && now.hashEntries[i].key == Masked(was.hashEntries[i].key, now.hashMask))
    && WellPlaced(now.hashEntries, now.hashSeed)
  }

  ghost predicate Finished(cfg: Config, was: CardTables, now: CardTables) {
    && now.cardId == was.cardId && now.rows == was.rows && now.maps == was.maps
    && |now.cmps| <= NUM_CMP && LanesOk(now.cmps) && |now.udfs| <= NUM_UDF && |now.rules| <= NUM_RULE
    && RulesRealise(now.cmps, now.udfs, now.rules, Sources(cfg, now.cardId))
    && |was.hashEntries| <= HASH_DEPTH
    && (if was.hashEntries == [] then now.hashEntries == [] else Hashed(cfg, was, now))
  }

  /** `prog` is a correct compilation of `cfg`; t are the tables before the hash pass. */
  ghost predicate CompiledFrom(cfg: Config, t: seq<CardTables>, prog: Program) {
    && Validate.Valid(cfg)
    && Slots(cfg, t, prog.meta, |cfg.flows|)
    && AllFinished(cfg, t, prog.cards)
  }

  class Compiler {
    const cards: seq<Builder>
    var meta: seq<Meta>

    ghost predicate NoAlias() {
      forall i, j | 0 <= i < j < |cards| :: cards[i] != cards[j]
    }

    function Tabs(): (r: seq<CardTables>)
      reads cards
      ensures |r| == |cards| && forall c | 0 <= c < |cards| :: r[c] == cards[c].Tables()
    {
      seq(|cards|, c requires 0 <= c < |cards| reads cards => cards[c].Tables())
    }

    ghost predicate PuntsDone(cfg: Config, p: nat)
      requires p <= |cfg.lifs|
      reads cards
    {
      forall c | 0 <= c < |cards| :: cards[c].Holds(PuntSources(cfg, cards[c].cardId, p))
    }

    ghost predicate ForwardsDone(cfg: Config, q: nat)
      requires q <= |cfg.forwards|
      reads cards
    {
      forall c | 0 <= c < |cards| :: cards[c].Holds(ForwardSources(cfg, cards[c].cardId, q))
    }

    /** The cards are the configured ones, in order. */
    ghost predicate CardsOf(cfg: Config) {
      && NoAlias() && |cards| == |cfg.cards| && Validate.DistinctCards(cfg.cards)
      && forall c | 0 <= c < |cards| :: cards[c].cardId == cfg.cards[c].id
    }

    constructor (cfg: Config)
      requires Validate.DistinctCards(cfg.cards)
      ensures CardsOf(cfg) && fresh(cards)
      ensures |meta| == |cfg.flows| && TablesOk(cfg, Tabs())
      ensures forall c | 0 <= c < |cards| ::
                cards[c].PoolOk() && cards[c].rows == [] && cards[c].maps == [] && cards[c].hashEntries == []
                && cards[c].cmps == [] && cards[c].udfs == [] && cards[c].rules == []
    {
      var bs: seq<Builder> := [];
      for i := 0 to |cfg.cards|
        invariant |bs| == i && fresh(bs)
        invariant forall a, b | 0 <= a < b < i :: bs[a] != bs[b]
        invariant forall a | 0 <= a < i :: bs[a].cardId == cfg.cards[a].id
        invariant forall a | 0 <= a < i ::
                    bs[a].PoolOk() && bs[a].rows == [] && bs[a].maps == [] && bs[a].hashEntries == []
                    && bs[a].cmps == [] && bs[a].udfs == [] && bs[a].rules == []
      {
        var b := new Builder(cfg.cards[i].id);
        bs := bs + [b];
      }
      cards := bs;
      meta := seq(|cfg.flows|, k => ZERO_META);
    }

    /** card_slot: the index of the card with this id. */
    method CardSlot(cfg: Config, id: u16) returns (c: Option<nat>)
      requires CardsOf(cfg)
      ensures c == IndexOf(cfg.cards, id)
    {
      for i := 0 to |cards|
        invariant IndexOf(cfg.cards, id) == IndexOf(cfg.cards, id, i)
      {
        if cards[i].cardId == id { return Some(i); }
      }
      c := None;
    }

    /** Resolve a port and find its card. */
    method CardOfPort(cfg: Config, gp: u16) returns (st: Status, ref: PortRef, c: nat)
      requires CardsOf(cfg)
      ensures st == OK ==> Resolve(cfg.cards, gp) == Some(ref) && c < |cards|
      ensures st == OK ==> IndexOf(cfg.cards, ref.cardId) == Some(c)
      ensures st == OK ==> forall d | 0 <= d < |cards| :: cards[d].cardId == ref.cardId <==> d == c
      ensures st == OK <==> Resolve(cfg.cards, gp).Some?
    {
      c := 0;
      st, ref := ResolvePort(cfg, gp);
      if st != OK { return; }
      ResolvedCardExists(cfg.cards, gp);
      var slot := CardSlot(cfg, ref.cardId);
      if slot.None? {
        st := UnknownCard;
        return;
      }
      c := slot.value;
    }

    /** compile_one_flow: resolve both ports, check capacity, then emit rows, meta record and classification entry. */
    method CompileOneFlow(cfg: Config, i: nat) returns (st: Status)
      requires i < |cfg.flows| && CardsOf(cfg)
      requires Slots(cfg, Tabs(), meta, i)
      modifies this`meta, cards`rows, cards`maps, cards`hashEntries
      ensures st == OK <==> Fits(cfg, old(Tabs()), cfg.flows[i])
      ensures st == OK ==> Slots(cfg, Tabs(), meta, i + 1) && Tabs() == AfterFlow(cfg, old(Tabs()), cfg.flows[i])
    {
      var f := cfg.flows[i];
      assert Resolves(cfg, f);
      var tx, rx, tc, rc;
      st, tx, tc := CardOfPort(cfg, f.txPort);
      if st != OK { return; }
      st, rx, rc := CardOfPort(cfg, f.rxPort);
      if st != OK { return; }
      if |cards[tc].rows| >= FLOW_TABLE_ROWS { return NoResources; }
      if tx.cardId != rx.cardId && !f.background && |cards[rc].rows| >= FLOW_TABLE_ROWS { return NoResources; }
      ghost var t0, m0 := Tabs(), meta;
      st := AddFlow(cfg, i, tx, rx, cards[tc], cards[rc], t0);
      if st == OK {
        SlotsStep(cfg, t0, m0, i);
      }
    }

    method AddFlow(cfg: Config, i: nat, tx: PortRef, rx: PortRef, txCp: Builder, rxCp: Builder,
                   ghost t0: seq<CardTables>)
      returns (st: Status)
      requires CardsOf(cfg) && TablesOk(cfg, t0) && t0 == Tabs() && i < |cfg.flows| == |meta|
      requires var f := cfg.flows[i];
               && Resolves(cfg, f) && tx == TxRef(cfg, f) && rx == RxRef(cfg, f)
               && txCp == cards[TxIdx(cfg, f)] && rxCp == cards[RxIdx(cfg, f)]
      requires |txCp.rows| < FLOW_TABLE_ROWS
      requires tx.cardId != rx.cardId && !cfg.flows[i].background ==> |rxCp.rows| < FLOW_TABLE_ROWS
      modifies this`meta, cards`rows, cards`maps, cards`hashEntries
      ensures var f := cfg.flows[i];
              st == OK ==> && Tabs() == AfterFlow(cfg, t0, f) && meta == old(meta)[i := MetaOf(cfg, t0, f)]
      ensures st == OK <==> Fits(cfg, t0, cfg.flows[i])
    {
      var txLocal, rxLocal;
      st, txLocal, rxLocal := EmitFlow(cfg, i, tx, rx, txCp, rxCp, t0);
      if st != OK { return; }
      RecordMeta(cfg, i, tx, rx, txLocal, rxLocal, t0);
    }

    /** The meta record the daemon finds the flow's rows by. */
    method RecordMeta(cfg: Config, i: nat, tx: PortRef, rx: PortRef, txLocal: u32, rxLocal: u32,
                      ghost t0: seq<CardTables>)
      requires i < |cfg.flows| == |meta| && Resolves(cfg, cfg.flows[i]) && TablesOk(cfg, t0)
      requires tx == TxRef(cfg, cfg.flows[i]) && rx == RxRef(cfg, cfg.flows[i])
      requires txLocal == TxLocal(cfg, t0, cfg.flows[i]) && rxLocal == RxLocal(cfg, t0, cfg.flows[i])
      modifies this`meta
      ensures meta == old(meta)[i := MetaOf(cfg, t0, cfg.flows[i])]
    {
      var f := cfg.flows[i];
      meta := meta[i := Meta(f.id, tx.cardId, rx.cardId, txLocal, rxLocal,
                             tx.cardId == rx.cardId && !f.background, !f.background)];
    }

    /** The rows and the classification entry of one flow. */
    method EmitFlow(cfg: Config, i: nat, tx: PortRef, rx: PortRef, txCp: Builder, rxCp: Builder,
                    ghost t0: seq<CardTables>)
      returns (st: Status, txLocal: u32, rxLocal: u32)
      requires CardsOf(cfg) && TablesOk(cfg, t0) && t0 == Tabs() && i < |cfg.flows|
      requires var f := cfg.flows[i];
               && Resolves(cfg, f) && tx == TxRef(cfg, f) && rx == RxRef(cfg, f)
               && txCp == cards[TxIdx(cfg, f)] && rxCp == cards[RxIdx(cfg, f)]
      requires |txCp.rows| < FLOW_TABLE_ROWS
      requires tx.cardId != rx.cardId && !cfg.flows[i].background ==> |rxCp.rows| < FLOW_TABLE_ROWS
      modifies cards`rows, cards`maps, cards`hashEntries
      ensures st == OK <==> Fits(cfg, t0, cfg.flows[i])
      ensures var f := cfg.flows[i];
              st == OK ==> && Tabs() == AfterFlow(cfg, t0, f)
                           && txLocal == TxLocal(cfg, t0, f) && rxLocal == RxLocal(cfg, t0, f)
    {
      var f := cfg.flows[i];
      SameCardIsSameIndex(cfg, f);
      ghost var rc := RxIdx(cfg, f);
      assert t0[TxIdx(cfg, f)] == txCp.Tables() && t0[rc] == rxCp.Tables();
      txLocal := |txCp.rows|;
      rxLocal := if tx.cardId == rx.cardId || f.background then txLocal else |rxCp.rows|;
      EmitRows(cfg, i, tx, rx, txCp, rxCp, txLocal, rxLocal);
      st := OK;
      if !f.background {
        st := EmitEntry(f, rxCp, rxLocal, rc);
      }
    }

    /** The generator row and, for a measured flow between two cards, the checker row. */
    method EmitRows(cfg: Config, i: nat, tx: PortRef, rx: PortRef, txCp: Builder, rxCp: Builder, txLocal: u32,
                    rxLocal: u32)
      requires CardsOf(cfg) && TablesOk(cfg, Tabs()) && i < |cfg.flows|
      requires var f := cfg.flows[i];
               && Resolves(cfg, f) && tx == TxRef(cfg, f) && rx == RxRef(cfg, f)
               && txCp == cards[TxIdx(cfg, f)] && rxCp == cards[RxIdx(cfg, f)]
               && txLocal == TxLocal(cfg, Tabs(), f) && rxLocal == RxLocal(cfg, Tabs(), f)
      modifies cards`rows
      ensures Tabs() == if cfg.flows[i].background then AfterTx(cfg, old(Tabs()), cfg.flows[i])
                        else AfterRx(cfg, old(Tabs()), cfg.flows[i])
    {
      var f := cfg.flows[i];
      ghost var t0 := Tabs();
      assert t0[TxIdx(cfg, f)] == txCp.Tables();
      var same := tx.cardId == rx.cardId;
      SameCardIsSameIndex(cfg, f);
      txCp.AppendFlow(TxRow(f, tx.localPort, txLocal, same));
      assert Tabs() == AfterTx(cfg, t0, f);
      if !same && !f.background {
        assert AfterTx(cfg, t0, f)[RxIdx(cfg, f)] == rxCp.Tables();
        rxCp.AppendFlow(RxRow(f, rx.localPort, rxLocal));
        assert Tabs() == AfterRx(cfg, t0, f);
      }
    }

    method EmitEntry(f: Flow, rxCp: Builder, rxLocal: u32, ghost rc: nat) returns (st: Status)
      requires NoAlias() && rc < |cards| && rxCp == cards[rc]
      modifies rxCp`maps, rxCp`hashEntries
      ensures st == OK ==> Tabs() == WithEntry(old(Tabs()), rc, f, rxLocal)
      ensures st == OK <==> if f.classifyHeader then |old(rxCp.hashEntries)| < HASH_DEPTH else f.id < MAP_DEPTH
    {
      if f.classifyHeader {
        st := rxCp.AppendHashEntry(HashWords(f), rxLocal);
        if st != OK { return; }
      } else {
        if f.id >= MAP_DEPTH { return Inval; }
        rxCp.AppendMap(f.id, rxLocal);
        st := OK;
      }
      assert Tabs() == WithEntry(old(Tabs()), rc, f, rxLocal);
    }

    /** compile_punt_rules, one logical interface. */
    method CompilePuntsOf(cfg: Config, i: nat) returns (st: Status)
      requires CardsOf(cfg) && i < |cfg.lifs| && Validate.LogicalIfOk(cfg, i) && PuntsDone(cfg, i)
      modifies cards`cmps, cards`udfs, cards`rules
      ensures st == OK ==> PuntsDone(cfg, i + 1)
      ensures st != OK ==> !RulesFit(cfg)
    {
      var ref, c;
      st, ref, c := CardOfPort(cfg, cfg.lifs[i].globalPort);
      if st != OK { return; }
      forall d | 0 <= d < |cards| ensures LifOn(cfg, cfg.lifs[i], cards[d].cardId) <==> d == c {}
      st := PuntsOnCard(cfg, i, ref, c);
    }

    method PuntsOnCard(cfg: Config, i: nat, ref: PortRef, c: nat) returns (st: Status)
      requires CardsOf(cfg) && i < |cfg.lifs| && PuntsDone(cfg, i) && c < |cards|
      requires Resolve(cfg.cards, cfg.lifs[i].globalPort) == Some(ref)
      requires forall d | 0 <= d < |cards| :: LifOn(cfg, cfg.lifs[i], cards[d].cardId) <==> d == c
      modifies cards`cmps, cards`udfs, cards`rules
      ensures st == OK ==> PuntsDone(cfg, i + 1)
      ensures st != OK ==> !RulesFit(cfg)
    {
      ghost var id := cards[c].cardId;
      PuntsStep(cfg, id, i, ref);
      st := PuntOn(cards[c], ref, cfg.lifs[i], PuntSources(cfg, id, i), PuntSources(cfg, id, i + 1));
      if st != OK { PuntsNoRoom(cfg, c, i + 1); }
    }

    /** The lines of one logical interface, on its card. */
    method PuntOn(b: Builder, ref: PortRef, l: LogicalIf, ghost before: seq<RuleSource>, ghost after: seq<RuleSource>)
      returns (st: Status)
      requires b.Holds(before) && AllLines(before, ref.localPort, l, after)
      modifies b`cmps, b`udfs, b`rules
      ensures st == OK ==> b.Holds(after)
      ensures st != OK ==> !Suffice(after)
    {
      var i: nat := 0;
      NoLines(before, ref.localPort, l, i);
      LinesEnd(before, ref.localPort, l, i + 11, after);
      st := b.ElevenLines(i, i + 11, ref.localPort, l, before);
    }

    method CompilePuntRules(cfg: Config) returns (st: Status)
      requires CardsOf(cfg) && PuntsDone(cfg, 0) && forall i | 0 <= i < |cfg.lifs| :: Validate.LogicalIfOk(cfg, i)
      modifies cards`cmps, cards`udfs, cards`rules
      ensures st == OK ==> PuntsDone(cfg, |cfg.lifs|)
      ensures st != OK ==> !RulesFit(cfg)
    {
      for i := 0 to |cfg.lifs|
        invariant PuntsDone(cfg, i)
      {
        st := CompilePuntsOf(cfg, i);
        if st != OK { return; }
      }
      st := OK;
    }

    /** compile_forward_rules, one rule. */
    method CompileForward(cfg: Config, i: nat) returns (st: Status)
      requires CardsOf(cfg) && i < |cfg.forwards| && Validate.ForwardOk(cfg, cfg.forwards[i]) && ForwardsDone(cfg, i)
      modifies cards`cmps, cards`rules
      ensures st == OK ==> ForwardsDone(cfg, i + 1)
      ensures st != OK ==> !RulesFit(cfg)
    {
      var fr := cfg.forwards[i];
      var ing, c;
      st, ing, c := CardOfPort(cfg, fr.ingress);
      if st != OK { return; }
      var r', egr := ResolvePort(cfg, fr.egress);
      if r' != OK { return r'; }
      if ing.cardId != egr.cardId { return Inval; }
      var b := cards[c];
      st := b.AddForwardRule(ing.localPort, egr.localPort, fr, ForwardSources(cfg, b.cardId, i));
      if st != OK { ForwardsNoRoom(cfg, c, i + 1); }
    }

    method CompileForwardRules(cfg: Config) returns (st: Status)
      requires CardsOf(cfg) && ForwardsDone(cfg, 0)
      requires forall i | 0 <= i < |cfg.forwards| :: Validate.ForwardOk(cfg, cfg.forwards[i])
      modifies cards`cmps, cards`rules
      ensures st == OK ==> ForwardsDone(cfg, |cfg.forwards|)
      ensures st != OK ==> !RulesFit(cfg)
    {
      for i := 0 to |cfg.forwards|
        invariant ForwardsDone(cfg, i)
      {
        st := CompileForward(cfg, i);
        if st != OK { return; }
      }
      st := OK;
    }

    /** Both rule passes, on cards that have no rules yet: they succeed exactly if the pools suffice on every card. */
    method CompileRules(cfg: Config) returns (st: Status)
      requires CardsOf(cfg) && RulesOk(cfg)
      requires forall c | 0 <= c < |cards| ::
                 cards[c].PoolOk() && cards[c].rules == [] && cards[c].cmps == [] && cards[c].udfs == []
      modifies cards`cmps, cards`udfs, cards`rules
      ensures st == OK ==> forall c | 0 <= c < |cards| :: cards[c].Realises(Sources(cfg, cards[c].cardId))
      ensures st == OK <==> RulesFit(cfg)
    {
      st := CompilePuntRules(cfg);
      if st != OK { return; }
      st := CompileForwardRules(cfg);
      if st == OK {
        forall c | 0 <= c < |cfg.cards| ensures Suffice(Sources(cfg, cfg.cards[c].id)) {
          assert cards[c].Holds(ForwardSources(cfg, cards[c].cardId, |cfg.forwards|));
          PooledSuffices(cards[c].cmps, cards[c].udfs, Sources(cfg, cfg.cards[c].id));
        }
      }
    }

    /** The global key mask of one card: every keyed bit, less what its header-classified flows vary or ignore. */
    method BuildMask(cfg: Config, b: Builder) returns (mask: KeyWords)
      ensures mask == MaskFor(cfg, b.cardId, |cfg.flows|)
    {
      mask := FULL_MASK;
      for i := 0 to |cfg.flows|
        invariant mask == MaskFor(cfg, b.cardId, i)
      {
        var f := cfg.flows[i];
        if f.classifyHeader {
          var r, rx := ResolvePort(cfg, f.rxPort);
          if r == OK && rx.cardId == b.cardId {
            mask := RelaxMask(mask, f);
          }
        }
      }
    }

    /** The post-pass over one card's hash entries: mask the keys, reject indistinguishable ones, place the rest. */
    method PlaceHash(cfg: Config, b: Builder) returns (st: Status)
      modifies b`hashMask, b`hashEntries, b`hashSeed
      ensures st == OK ==> Hashed(cfg, old(b.Tables()), b.Tables())
      ensures st == OK <==> Placeable(MaskedKeys(KeysOf(old(b.hashEntries)), MaskFor(cfg, b.cardId, |cfg.flows|)))
      ensures st == Inval <==> !Distinct(MaskedKeys(KeysOf(old(b.hashEntries)), MaskFor(cfg, b.cardId, |cfg.flows|)))
      ensures st != OK && st != Inval ==> st == NoResources
    {
      var mask := BuildMask(cfg, b);
      b.hashMask := mask;
      var keys := MaskedKeys(KeysOf(b.hashEntries), mask);
      for i := 0 to |keys|
        invariant forall x, y | 0 <= x < y < i :: keys[x] != keys[y]
      {
        for j := 0 to i
          invariant forall x | 0 <= x < j :: keys[x] != keys[i]
        {
          if keys[i] == keys[j] {
            DuplicatesCollide(keys);
            return Inval;
          }
        }
      }
      var seed, indices;
      st, seed, indices := PlaceKeys(keys);
      if st != OK { return; }
      b.hashEntries := PlaceEntries(b.hashEntries, keys, indices);
      b.hashSeed := seed;
    }

    /** The first n flows are placed, and everything they need is counted. */
    ghost predicate FlowsDone(cfg: Config, n: nat)
      requires AllResolve(cfg) && n <= |cfg.flows|
      reads this, cards
    {
      && Slots(cfg, Tabs(), meta, n) && Counted(cfg, Tabs(), n)
      && forall j | 0 <= j < n :: IdFits(cfg.flows[j])
    }

    method NextFlow(cfg: Config, i: nat) returns (st: Status)
      requires CardsOf(cfg) && AllResolve(cfg) && i < |cfg.flows| && FlowsDone(cfg, i)
      modifies this`meta, cards`rows, cards`maps, cards`hashEntries
      ensures st == OK ==> FlowsDone(cfg, i + 1)
      ensures st != OK ==> !FlowsFit(cfg)
    {
      ghost var t := Tabs();
      st := CompileOneFlow(cfg, i);
      if st == OK {
        CountStep(cfg, t, i);
      } else {
        UnfitFlow(cfg, t, i);
      }
    }

    /** The flow pass: it succeeds exactly if all flows fit. */
    method CompileFlows(cfg: Config) returns (st: Status)
      requires CardsOf(cfg) && TablesOk(cfg, Tabs()) && AllResolve(cfg) && |meta| == |cfg.flows|
      requires forall c | 0 <= c < |cards| :: cards[c].rows == [] && cards[c].maps == [] && cards[c].hashEntries == []
      modifies this`meta, cards`rows, cards`maps, cards`hashEntries
      ensures st == OK ==> FlowsDone(cfg, |cfg.flows|)
      ensures st == OK <==> FlowsFit(cfg)
    {
      for i := 0 to |cfg.flows|
        invariant FlowsDone(cfg, i)
      {
        st := NextFlow(cfg, i);
        if st != OK { return; }
      }
      st := OK;
      PlacedFit(cfg, Tabs());
    }

    /** The card still has its flow tables, and the rules the configuration asks for. */
    ghost predicate RulesOver(cfg: Config, was: CardTables, b: Builder)
      reads b
    {
      && b.Realises(Sources(cfg, b.cardId))
      && b.cardId == was.cardId && b.rows == was.rows && b.maps == was.maps
      && b.hashEntries == was.hashEntries && |was.hashEntries| <= HASH_DEPTH
    }

    method HashOne(cfg: Config, ghost was: CardTables, b: Builder) returns (st: Status)
      requires RulesOver(cfg, was, b)
      modifies b`hashMask, b`hashEntries, b`hashSeed
      ensures st == OK ==> Finished(cfg, was, b.Tables())
      ensures st == OK <==> Hashable(cfg, was.cardId, KeysOf(was.hashEntries))
    {
      st := OK;
      if b.hashEntries != [] {
        st := PlaceHash(cfg, b);
      }
    }

    /** The first n cards are finished; the others still have what the earlier passes left. */
    ghost predicate HashedUpTo(cfg: Config, t: seq<CardTables>, n: nat)
      requires n <= |cards| == |t|
      reads cards
    {
      && (forall d | 0 <= d < n :: Finished(cfg, t[d], cards[d].Tables()))
      && (forall d | n <= d < |cards| :: RulesOver(cfg, t[d], cards[d]))
    }

    method HashNext(cfg: Config, ghost t: seq<CardTables>, c: nat) returns (st: Status)
      requires NoAlias() && c < |cards| == |t| && HashedUpTo(cfg, t, c) && HashableUpTo(cfg, t, c)
      modifies cards`hashMask, cards`hashEntries, cards`hashSeed
      ensures st == OK ==> HashedUpTo(cfg, t, c + 1) && HashableUpTo(cfg, t, c + 1)
      ensures st != OK ==> !HashableUpTo(cfg, t, |t|)
    {
      st := HashOne(cfg, t[c], cards[c]);
      HashableStep(cfg, t, c, st == OK);
    }

    method HashAll(cfg: Config, ghost t: seq<CardTables>) returns (st: Status)
      requires NoAlias() && |cards| == |t| && HashedUpTo(cfg, t, 0)
      modifies cards`hashMask, cards`hashEntries, cards`hashSeed
      ensures st == OK ==> AllFinished(cfg, t, Tabs())
      ensures st == OK <==> HashableUpTo(cfg, t, |t|)
    {
      for c := 0 to |cards|
        invariant HashedUpTo(cfg, t, c) && HashableUpTo(cfg, t, c)
      {
        st := HashNext(cfg, t, c);
        if st != OK { return; }
      }
      st := OK;
    }

    /** No rules and no comparators yet. */
    ghost predicate NoRules()
      reads cards
    {
      forall c | 0 <= c < |cards| ::
        cards[c].PoolOk() && cards[c].rules == [] && cards[c].cmps == [] && cards[c].udfs == []
    }

    /** The rule passes leave the flow tables as they are. */
    method RulePass(cfg: Config, ghost t: seq<CardTables>) returns (st: Status)
      requires CardsOf(cfg) && RulesOk(cfg) && TablesOk(cfg, t) && t == Tabs() && NoRules()
      modifies cards`cmps, cards`udfs, cards`rules
      ensures st == OK ==> |cards| == |t| && HashedUpTo(cfg, t, 0)
      ensures st == OK <==> RulesFit(cfg)
    {
      assert forall c | 0 <= c < |cards| :: t[c] == cards[c].Tables();
      st := CompileRules(cfg);
      if st == OK {
        forall d | 0 <= d < |cards| ensures RulesOver(cfg, t[d], cards[d]) {
          assert t[d].rows == cards[d].rows && t[d].maps == cards[d].maps && t[d].hashEntries == cards[d].hashEntries;
        }
      }
    }

    /** The rule and hash passes, the flows being placed. */
    method FinishAll(cfg: Config, ghost t: seq<CardTables>) returns (st: Status)
      requires CardsOf(cfg) && RulesOk(cfg) && TablesOk(cfg, t) && t == Tabs() && NoRules()
      requires AllResolve(cfg) && Counted(cfg, t, |cfg.flows|)
      modifies cards`cmps, cards`udfs, cards`rules, cards`hashMask, cards`hashEntries, cards`hashSeed
      ensures st == OK ==> AllFinished(cfg, t, Tabs())
      ensures st == OK <==> RulesFit(cfg) && KeysFit(cfg)
    {
      KeysFitIs(cfg, t);
      st := RulePass(cfg, t);
      if st != OK { return; }
      st := HashAll(cfg, t);
    }

    /** The flow pass leaves the rules alone. */
    method FlowPass(cfg: Config) returns (st: Status, ghost t: seq<CardTables>)
      requires CardsOf(cfg) && TablesOk(cfg, Tabs()) && AllResolve(cfg) && |meta| == |cfg.flows| && NoRules()
      requires forall c | 0 <= c < |cards| :: cards[c].rows == [] && cards[c].maps == [] && cards[c].hashEntries == []
      modifies this`meta, cards`rows, cards`maps, cards`hashEntries
      ensures NoRules() && t == Tabs()
      ensures st == OK ==> Slots(cfg, t, meta, |cfg.flows|) && Counted(cfg, t, |cfg.flows|)
      ensures st == OK <==> FlowsFit(cfg)
    {
      st := CompileFlows(cfg);
      t := Tabs();
    }

    /** The three passes over freshly created cards. */
    method CompileAll(cfg: Config) returns (st: Status, ghost t: seq<CardTables>)
      requires CardsOf(cfg) && TablesOk(cfg, Tabs()) && AllResolve(cfg) && |meta| == |cfg.flows| && RulesOk(cfg)
      requires NoRules()
      requires forall c | 0 <= c < |cards| :: cards[c].rows == [] && cards[c].maps == [] && cards[c].hashEntries == []
      modifies this`meta, cards
      ensures st == OK ==> Slots(cfg, t, meta, |cfg.flows|) && AllFinished(cfg, t, Tabs())
      ensures st == OK <==> FlowsFit(cfg) && RulesFit(cfg) && KeysFit(cfg)
    {
      st, t := FlowPass(cfg);
      if st != OK { return; }
      st := FinishAll(cfg, t);
    }
  }

  // ---- when compilation succeeds ----------------------------------------------------------------------

  function MaskedKeys(ks: seq<KeyWords>, mask: KeyWords): (r: seq<KeyWords>)
    ensures |r| == |ks| && forall i | 0 <= i < |ks| :: r[i] == Masked(ks[i], mask)
  {
    seq(|ks|, i requires 0 <= i < |ks| => Masked(ks[i], mask))
  }

  /** One of the seeds tried sends all keys to different buckets. */
  predicate Placeable(keys: seq<KeyWords>) { exists a | 0 <= a < MAX_ATTEMPTS :: Places(keys, Seed(a)) }

  /** Which no seed does for two equal keys. */
  lemma DuplicatesCollide(keys: seq<KeyWords>)
    requires !Distinct(keys)
    ensures !Placeable(keys)
  {}

  /** Card id's keys, masked, can be placed. */
  predicate Hashable(cfg: Config, id: u16, keys: seq<KeyWords>) {
    keys != [] ==> Placeable(MaskedKeys(keys, MaskFor(cfg, id, |cfg.flows|)))
  }

  predicate HashableAt(cfg: Config, t: seq<CardTables>, c: nat)
    requires c < |t|
  {
    Hashable(cfg, t[c].cardId, KeysOf(t[c].hashEntries))
  }

  predicate KeysFit(cfg: Config)
    requires AllResolve(cfg)
  {
    forall c | 0 <= c < |cfg.cards| :: Hashable(cfg, cfg.cards[c].id, KeysOn(cfg, c, |cfg.flows|))
  }

  predicate HashableUpTo(cfg: Config, t: seq<CardTables>, n: nat)
    requires n <= |t|
  {
    forall c | 0 <= c < n :: HashableAt(cfg, t, c)
  }

  lemma HashableStep(cfg: Config, t: seq<CardTables>, c: nat, ok: bool)
    requires c < |t| && HashableUpTo(cfg, t, c) && (ok <==> Hashable(cfg, t[c].cardId, KeysOf(t[c].hashEntries)))
    ensures if ok then HashableUpTo(cfg, t, c + 1) else !HashableUpTo(cfg, t, |t|)
  {
    assert ok <==> HashableAt(cfg, t, c);
  }

  lemma KeysFitIs(cfg: Config, t: seq<CardTables>)
    requires AllResolve(cfg) && TablesOk(cfg, t) && Counted(cfg, t, |cfg.flows|)
    ensures KeysFit(cfg) <==> HashableUpTo(cfg, t, |t|)
  {
    forall c | 0 <= c < |t|
      ensures HashableAt(cfg, t, c) <==> Hashable(cfg, cfg.cards[c].id, KeysOn(cfg, c, |cfg.flows|))
    {
      assert CountedAt(cfg, t[c], c, |cfg.flows|);
    }
  }

  /** The classifier of every card has room for the rules the configuration asks it for. */
  predicate RulesFit(cfg: Config) { forall c | 0 <= c < |cfg.cards| :: Suffice(Sources(cfg, cfg.cards[c].id)) }

  /** The part of validity the rule passes need. */
  predicate RulesOk(cfg: Config) {
    && (forall i | 0 <= i < |cfg.lifs| :: Validate.LogicalIfOk(cfg, i))
    && (forall i | 0 <= i < |cfg.forwards| :: Validate.ForwardOk(cfg, cfg.forwards[i]))
  }

  /** All PUNT lines of one logical interface, behind earlier rules. */
  predicate AllLines(before: seq<RuleSource>, port: u8, l: LogicalIf, after: seq<RuleSource>) {
    after == LifSources(before, port, l, PUNT_LINES)
  }

  lemma NoLines(before: seq<RuleSource>, port: u8, l: LogicalIf, i: nat)
    requires i == 0
    ensures LifSources(before, port, l, i) == before
  {}

  lemma LinesEnd(before: seq<RuleSource>, port: u8, l: LogicalIf, n: nat, after: seq<RuleSource>)
    requires AllLines(before, port, l, after) && n == 11
    ensures LifSources(before, port, l, n) == after
  {
    assert n == PUNT_LINES;
  }

  lemma PuntsStep(cfg: Config, id: u16, i: nat, ref: PortRef)
    requires i < |cfg.lifs| && LifOn(cfg, cfg.lifs[i], id) && Resolve(cfg.cards, cfg.lifs[i].globalPort) == Some(ref)
    ensures AllLines(PuntSources(cfg, id, i), ref.localPort, cfg.lifs[i], PuntSources(cfg, id, i + 1))
  {}

  lemma {:induction false} PuntsGrow(cfg: Config, id: u16, m: nat, n: nat)
    requires m <= n <= |cfg.lifs|
    ensures PuntSources(cfg, id, m) <= PuntSources(cfg, id, n)
  {
    if m < n {
      PuntsGrow(cfg, id, m, n - 1);
      var l := cfg.lifs[n - 1];
      if LifOn(cfg, l, id) {
        LifGrows(PuntSources(cfg, id, n - 1), Resolve(cfg.cards, l.globalPort).value.localPort, l, 0, PUNT_LINES);
      }
    }
  }

  lemma {:induction false} ForwardsGrow(cfg: Config, id: u16, m: nat, n: nat)
    requires m <= n <= |cfg.forwards|
    ensures ForwardSources(cfg, id, m) <= ForwardSources(cfg, id, n)
  {
    if m < n { ForwardsGrow(cfg, id, m, n - 1); }
  }

  /** No room for the first rules of a card is no room for all of them. */
  lemma ForwardsNoRoom(cfg: Config, c: nat, n: nat)
    requires c < |cfg.cards| && n <= |cfg.forwards| && !Suffice(ForwardSources(cfg, cfg.cards[c].id, n))
    ensures !RulesFit(cfg)
  {
    var id := cfg.cards[c].id;
    ForwardsGrow(cfg, id, n, |cfg.forwards|);
    if RulesFit(cfg) {
      assert Suffice(Sources(cfg, id));
      SufficeShrinks(ForwardSources(cfg, id, n), Sources(cfg, id));
    }
  }

  lemma PuntsNoRoom(cfg: Config, c: nat, n: nat)
    requires c < |cfg.cards| && n <= |cfg.lifs| && !Suffice(PuntSources(cfg, cfg.cards[c].id, n))
    ensures !RulesFit(cfg)
  {
    var id := cfg.cards[c].id;
    PuntsGrow(cfg, id, n, |cfg.lifs|);
    if Suffice(PuntSources(cfg, id, |cfg.lifs|)) {
      SufficeShrinks(PuntSources(cfg, id, n), PuntSources(cfg, id, |cfg.lifs|));
    }
    ForwardsNoRoom(cfg, c, 0);
  }

  /** What a configuration must satisfy to be compiled: it is valid and everything fits. */
  predicate Compilable(cfg: Config) {
    && Validate.Valid(cfg)
    && (ValidResolves(cfg); FlowsFit(cfg) && RulesFit(cfg) && KeysFit(cfg))
  }

  function PlaceEntries(es: seq<HashEntry>, keys: seq<KeyWords>, indices: seq<nat>): (r: seq<HashEntry>)
    requires |es| == |keys| == |indices|
    ensures |r| == |es| && forall i | 0 <= i < |es| :: r[i] == HashEntry(indices[i], keys[i], es[i].localId)
  {
    seq(|es|, i requires 0 <= i < |es| => HashEntry(indices[i], keys[i], es[i].localId))
  }

  /** The compiled program, card by card, before and after the hash pass. */
  ghost predicate AllFinished(cfg: Config, t: seq<CardTables>, cards: seq<CardTables>) {
    |t| == |cards| && forall c | 0 <= c < |t| :: Finished(cfg, t[c], cards[c])
  }

  lemma ValidResolves(cfg: Config)
    requires Validate.Valid(cfg)
    ensures AllResolve(cfg) && DistinctFlowIds(cfg)
  {
    forall k | 0 <= k < |cfg.flows| ensures Resolves(cfg, cfg.flows[k]) {
      assert Validate.FlowOk(cfg, k);
    }
    forall i, j | 0 <= i < j < |cfg.flows| ensures cfg.flows[i].id != cfg.flows[j].id {
      assert Validate.FlowOk(cfg, i);
    }
  }

  /**
   pw_flow_compile. It succeeds exactly if the configuration is valid, its flows fit the cards'
   tables, its rules fit the classifiers, counting every comparator once, and a seed places each
   card's keys. Then every flow has its own slots, every card's rules hit exactly the frames the
   configuration asks for, and every card's hash keys are masked and placed.
   */
  method Compile(cfg: Config) returns (st: Status, prog: Program, ghost t: seq<CardTables>)
    ensures st == OK ==> CompiledFrom(cfg, t, prog)
    ensures st == OK <==> Compilable(cfg)
  {
    prog, t := Program([], []), [];
    st := Validate.CheckConfig(cfg);
    if st != OK { return; }
    ValidResolves(cfg);
    var k := new Compiler(cfg);
    st, t := k.CompileAll(cfg);
    if st != OK { return; }
    prog := Program(k.Tabs(), k.meta);
  }
}
