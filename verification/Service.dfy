/**
 What a card whose registers hold a compiled program does for the configuration it was compiled
 from, whichever generators run.
 */
module Service {
  import opened Basics
  import opened Config
  import opened Classifier
  import opened RuleSources
  import opened CardBuilder
  import opened ModifierParse
  import opened FlowSlots
  import opened FlowCompiler
  import opened Registers
  import opened TableWrites
  import opened CardMeaning
  import opened EndToEnd
  import opened RuleMeaning
  import opened Frames
  import opened FlowMatching

  /** Every frame a measured flow claims is counted there, and no other frame is. */
  ghost predicate CountsAll(cfg: Config, meta: seq<Meta>, c: nat, mask: KeyWords, r: RegFile)
    requires Sized(r) && AllResolve(cfg) && |cfg.flows| == |meta|
  {
    forall k: MatchKey :: Counts(cfg, meta, c, mask, k, CardAction(r, k))
  }

  /** ... and every other frame gets the preferred rule that matches it, if any, and so what was asked for it. */
  ghost predicate ActsOnAll(cfg: Config, meta: seq<Meta>, c: nat, cp: CardTables, r: RegFile)
    requires Sized(r) && AllResolve(cfg) && |cfg.flows| == |meta|
  {
    forall k: MatchKey | k.valid :: ActsOn(cfg, meta, c, cp, r, k)
  }

  ghost predicate ActsOn(cfg: Config, meta: seq<Meta>, c: nat, cp: CardTables, r: RegFile, k: MatchKey)
    requires Sized(r) && AllResolve(cfg) && |cfg.flows| == |meta|
  {
    && Acts(cfg, meta, c, cp, k, CardAction(r, k))
    && (!Claimed(cfg, c, cp.hashMask, k) ==> AsAsked(cfg, cp.cardId, k, CardEffect(r, k)))
  }

  /** Every frame of flow i, at every length, is counted in the slot the program gave the flow, or is lost as stated. */
  ghost predicate FindsFlow(cfg: Config, meta: seq<Meta>, c: nat, r: RegFile, i: nat)
    requires Sized(r) && AllResolve(cfg) && i < |cfg.flows| == |meta|
  {
    var f, slot := cfg.flows[i], meta[i].rxLocal;
    && (ReceivedOn(cfg, i, c) ==>
          forall len: u16, n: u32, was: Bytes, port: u4 :: Reaches(f, slot, r, len, n, was, port))
    && (f.traffic.template.Test? ==>
          forall len: u16, n: u32, was: Bytes, port: u4 :: ByFlowId(f, slot, MappedOn(cfg, i, c), r, len, n, was, port))
  }

  ghost predicate FindsFrames(cfg: Config, meta: seq<Meta>, c: nat, r: RegFile)
    requires Sized(r) && AllResolve(cfg) && |cfg.flows| == |meta|
  {
    forall i | 0 <= i < |cfg.flows| :: FindsFlow(cfg, meta, c, r, i)
  }

  lemma FlowFound(cfg: Config, t: seq<CardTables>, base: Program, c: nat, r: RegFile, i: nat)
    requires CompiledFrom(cfg, t, base) && AllResolve(cfg) && c < |base.cards| && i < |cfg.flows| == |base.meta|
    requires TablesHold(r, base.cards[c]) && LowMaskShared(cfg.flows[i])
    ensures FindsFlow(cfg, base.meta, c, r, i)
  {
    var f, slot := cfg.flows[i], base.meta[i].rxLocal;
    if ReceivedOn(cfg, i, c) {
      forall len: u16, n: u32, was: Bytes, port: u4 ensures Reaches(f, slot, r, len, n, was, port) {
        MeasuredFramesAreCounted(cfg, t, base, c, i, r, len, n, was, port);
      }
    }
    if f.traffic.template.Test? {
      forall len: u16, n: u32, was: Bytes, port: u4
        ensures ByFlowId(f, slot, MappedOn(cfg, i, c), r, len, n, was, port)
      {
        TestFramesReachTheirSlot(cfg, t, base, c, i, r, len, n, was, port);
      }
    }
  }

  lemma AllFound(cfg: Config, t: seq<CardTables>, base: Program, c: nat, r: RegFile)
    requires CompiledFrom(cfg, t, base) && c < |base.cards| && TablesHold(r, base.cards[c]) && MasksShared(cfg.flows)
    ensures AllResolve(cfg) && |cfg.flows| == |base.meta| && FindsFrames(cfg, base.meta, c, r)
  {
    ValidResolves(cfg);
    forall i | 0 <= i < |cfg.flows| ensures FindsFlow(cfg, base.meta, c, r, i) {
      FlowFound(cfg, t, base, c, r, i);
    }
  }

  lemma AllCounted(cfg: Config, t: seq<CardTables>, base: Program, c: nat, r: RegFile)
    requires CompiledFrom(cfg, t, base) && c < |base.cards| && TablesHold(r, base.cards[c])
    ensures AllResolve(cfg) && |cfg.flows| == |base.meta|
    ensures CountsAll(cfg, base.meta, c, base.cards[c].hashMask, r)
    ensures NoneFrom(r, |base.cards[c].rules|) ==> ActsOnAll(cfg, base.meta, c, base.cards[c], r)
  {
    ValidResolves(cfg);
    forall k: MatchKey ensures Counts(cfg, base.meta, c, base.cards[c].hashMask, k, CardAction(r, k)) {
      CardCounts(cfg, t, base, c, r, k);
    }
    if NoneFrom(r, |base.cards[c].rules|) {
      forall k: MatchKey | k.valid ensures ActsOn(cfg, base.meta, c, base.cards[c], r, k) {
        CardAppliesChosenRule(cfg, t, base, c, r, k);
        CardDoesAsAsked(cfg, t, base, c, r, k);
      }
    }
  }

  /**
   A card holding the compiled tables, whose last enabled rule slot is the t0-th, serves the
   configuration: with its own rules exactly if t0 is at most their number.
   */
  lemma CardServes(cfg: Config, t: seq<CardTables>, base: Program, c: nat, r: RegFile, t0: nat)
    requires CompiledFrom(cfg, t, base) && c < |base.cards| && TablesHold(r, base.cards[c]) && Level(r, t0)
    requires MasksShared(cfg.flows)
    ensures AllResolve(cfg) && |cfg.flows| == |base.meta| && FindsFrames(cfg, base.meta, c, r)
    ensures CountsAll(cfg, base.meta, c, base.cards[c].hashMask, r)
    ensures |base.cards[c].rules| <= NUM_RULE
    ensures r.rules == RuleTableOf(base.cards[c].rules) <==> t0 <= |base.cards[c].rules|
    ensures t0 <= |base.cards[c].rules| ==> ActsOnAll(cfg, base.meta, c, base.cards[c], r)
  {
    AllFound(cfg, t, base, c, r);
    AllCounted(cfg, t, base, c, r);
    CompiledFits(cfg, t, base, c);
    LevelExact(r, base.cards[c], t0);
  }
}
