/**
 From the configuration to the wire: what a card programmed with a compiled configuration
 does with every frame, in the configuration's own terms.
 */
module EndToEnd {
  import opened Basics
  import opened Config
  import opened Classifier
  import opened RuleSources
  import opened CardBuilder
  import opened HashKeys
  import opened FlowSlots
  import opened FlowCompiler
  import opened Registers
  import opened TableWrites
  import opened CardMeaning
  import Validate

  lemma MapsFit(cfg: Config, t: seq<CardTables>, meta: seq<Meta>, c: nat, i: nat)
    requires Slots(cfg, t, meta, |cfg.flows|) && c < |t| && i < |t[c].maps|
    ensures t[c].maps[i].flowId < MAP_DEPTH && t[c].maps[i].localId < FLOW_TABLE_ROWS
  {
    assert CardOwned(cfg, t[c], meta, |cfg.flows|, c);
    assert MapClaimed(cfg, meta, |cfg.flows|, c, t[c].maps[i]);
    var k :| 0 <= k < |cfg.flows| && MapOf(cfg, meta, k, c, t[c].maps[i]);
    assert Placed(cfg, t, meta, k);
  }

  lemma HashFits(cfg: Config, t: seq<CardTables>, meta: seq<Meta>, c: nat, i: nat)
    requires Slots(cfg, t, meta, |cfg.flows|) && c < |t| && i < |t[c].hashEntries|
    ensures t[c].hashEntries[i].localId < FLOW_TABLE_ROWS
  {
    assert CardOwned(cfg, t[c], meta, |cfg.flows|, c);
    assert HashClaimed(cfg, meta, |cfg.flows|, c, t[c].hashEntries[i]);
    var k :| 0 <= k < |cfg.flows| && HashOf(cfg, meta, k, c, t[c].hashEntries[i]);
    assert Placed(cfg, t, meta, k);
  }

  /** The compiler only produces programs that fit the registers they are written to. */
  lemma CompiledFits(cfg: Config, t: seq<CardTables>, prog: Program, c: nat)
    requires CompiledFrom(cfg, t, prog) && c < |prog.cards|
    ensures WellFormed(prog.cards[c]) && WellPlaced(prog.cards[c].hashEntries, prog.cards[c].hashSeed)
  {
    var was, now := t[c], prog.cards[c];
    assert Finished(cfg, was, now);
    forall i | 0 <= i < |now.maps| ensures now.maps[i].flowId < MAP_DEPTH && now.maps[i].localId < VALID {
      MapsFit(cfg, t, prog.meta, c, i);
    }
    forall i | 0 <= i < |now.hashEntries|
      ensures now.hashEntries[i].index < HASH_DEPTH && now.hashEntries[i].localId < VALID
    {
      HashFits(cfg, t, prog.meta, c, i);
    }
  }

  /** Source j is preferred to source i: lower priority number, ties to the earlier one. */
  predicate Preferred(s: seq<RuleSource>, j: nat, i: nat)
    requires j < |s| && i < |s|
  {
    SourcePrio(s[j]) < SourcePrio(s[i]) || (SourcePrio(s[j]) == SourcePrio(s[i]) && j < i)
  }

  /** The source rule a frame belongs to: it asks for the frame and no preferred one does. */
  predicate Chosen(s: seq<RuleSource>, k: MatchKey, i: nat) {
    && i < |s| && SourceMatches(s[i], k)
    && forall j | 0 <= j < |s| && j != i && SourceMatches(s[j], k) :: !Preferred(s, j, i)
  }

  /** Rule j of the program is enabled and hits exactly when source j asks for the frame. */
  lemma HitIsMatch(cp: CardTables, s: seq<RuleSource>, k: MatchKey, j: nat)
    requires RulesRealise(cp.cmps, cp.udfs, cp.rules, s) && |cp.rules| <= NUM_RULE && k.valid
    ensures RuleHit(cp.cmps, cp.udfs, RuleTableOf(cp.rules), k, j) <==> j < |s| && SourceMatches(s[j], k)
  {
    if j < |cp.rules| {
      RuleHitsItsSource(cp.cmps, cp.udfs, cp.rules, s, j, k);
    }
  }

  /** The classifier's answer, in terms of the sources. */
  predicate AnswersFor(s: seq<RuleSource>, k: MatchKey, win: Option<nat>) {
    match win
    case Some(i) => Chosen(s, k, i)
    case None => forall j | 0 <= j < |s| :: !SourceMatches(s[j], k)
  }

  lemma ProgramChooses(cp: CardTables, s: seq<RuleSource>, k: MatchKey)
    requires RulesRealise(cp.cmps, cp.udfs, cp.rules, s) && |cp.rules| <= NUM_RULE && k.valid
    ensures AnswersFor(s, k, Classify(cp.cmps, cp.udfs, RuleTableOf(cp.rules), k))
  {
    var rt := RuleTableOf(cp.rules);
    forall j: nat
      ensures RuleHit(cp.cmps, cp.udfs, rt, k, j) <==> j < |s| && SourceMatches(s[j], k)
    {
      HitIsMatch(cp, s, k, j);
    }
    var win := Classify(cp.cmps, cp.udfs, rt, k);
    if win.Some? {
      var i := win.value;
      assert RuleHit(cp.cmps, cp.udfs, rt, k, i);
      forall j | 0 <= j < |s| && j != i && SourceMatches(s[j], k) ensures !Preferred(s, j, i) {
        assert RuleHit(cp.cmps, cp.udfs, rt, k, j);
        assert !Beats(rt, j, i);
      }
    }
  }

  /** The rule stage of a programmed card names the preferred rule that matches, and none if none does. */
  lemma RuleStageChooses(cfg: Config, t: seq<CardTables>, prog: Program, c: nat, r: RegFile, k: MatchKey)
    requires CompiledFrom(cfg, t, prog) && c < |prog.cards| && k.valid
    requires TablesHold(r, prog.cards[c]) && NoneFrom(r, |prog.cards[c].rules|)
    ensures AnswersFor(Sources(cfg, prog.cards[c].cardId), k, CardRule(r, k))
  {
    var cp := prog.cards[c];
    CompiledFits(cfg, t, prog, c);
    ProgrammedRules(r, cp, k);
    assert Finished(cfg, t[c], cp);
    ProgramChooses(cp, Sources(cfg, cp.cardId), k);
  }

  lemma {:induction false} MapFindIs(maps: seq<MapEntry>, id: nat, l: u32)
    requires forall i | 0 <= i < |maps| && maps[i].flowId == id :: maps[i].localId == l
    ensures MapFind(maps, id) == if exists i | 0 <= i < |maps| :: maps[i].flowId == id then Some(l) else None
  {
    if maps != [] {
      var n := |maps| - 1;
      if maps[n].flowId != id {
        MapFindIs(maps[..n], id, l);
        if i :| 0 <= i < |maps| && maps[i].flowId == id {
          assert maps[..n][i].flowId == id;
        }
      }
    }
  }

  /** Flow i is measured, found by its test header, and received on card c. */
  predicate MappedOn(cfg: Config, i: nat, c: nat)
    requires AllResolve(cfg) && i < |cfg.flows|
  {
    var f := cfg.flows[i];
    !f.background && !f.classifyHeader && c == RxIdx(cfg, f)
  }

  /** A test frame of flow i reaches flow i's own slot on its receive card, and no slot on any other card. */
  lemma TestFrameReachesSlot(cfg: Config, t: seq<CardTables>, prog: Program, c: nat, i: nat,
                             r: RegFile, k: MatchKey)
    requires CompiledFrom(cfg, t, prog) && c < |prog.cards| && i < |cfg.flows|
    requires TablesHold(r, prog.cards[c]) && k.isTest && Num32(k.testFlowId) == cfg.flows[i].id
    ensures AllResolve(cfg)
    ensures CardMap(r, k) == if MappedOn(cfg, i, c) then Some(prog.meta[i].rxLocal) else None
  {
    ValidResolves(cfg);
    CompiledFits(cfg, t, prog, c);
    var cp, id := prog.cards[c], cfg.flows[i].id;
    assert Finished(cfg, t[c], cp);
    ProgrammedMap(r, cp, k);
    forall e | 0 <= e < |cp.maps| && cp.maps[e].flowId == id
      ensures cp.maps[e].localId == prog.meta[i].rxLocal && MappedOn(cfg, i, c)
    {
      MapSendsHome(cfg, t, prog.meta, i, c, e);
    }
    MapFindIs(cp.maps, id, prog.meta[i].rxLocal);
    if MappedOn(cfg, i, c) {
      assert Placed(cfg, t, prog.meta, i);
      assert MapEntry(id, prog.meta[i].rxLocal) in t[c].maps;
    }
  }

  /** Flow i is measured, found by its header, and received on card c. */
  predicate HashedOn(cfg: Config, i: nat, c: nat)
    requires AllResolve(cfg) && i < |cfg.flows|
  {
    var f := cfg.flows[i];
    !f.background && f.classifyHeader && c == RxIdx(cfg, f)
  }

  /** The stored entry of a header-classified flow. */
  lemma EntryOfFlow(cfg: Config, t: seq<CardTables>, prog: Program, c: nat, i: nat) returns (e: nat)
    requires CompiledFrom(cfg, t, prog) && AllResolve(cfg) && c < |prog.cards| && i < |cfg.flows| && HashedOn(cfg, i, c)
    ensures var cp := prog.cards[c];
            && e < |cp.hashEntries| && cp.hashEntries[e].localId == prog.meta[i].rxLocal
            && cp.hashEntries[e].key == Masked(HashWords(cfg.flows[i]), cp.hashMask)
            && cp.hashMask == MaskFor(cfg, cp.cardId, |cfg.flows|)
  {
    var f := cfg.flows[i];
    assert Placed(cfg, t, prog.meta, i);
    var h := HashEntry(0, HashWords(f), prog.meta[i].rxLocal);
    e :| 0 <= e < |t[c].hashEntries| && t[c].hashEntries[e] == h;
    assert Finished(cfg, t[c], prog.cards[c]);
  }

  /** Every entry of a card belongs to a header-classified flow received there. */
  lemma FlowOfEntry(cfg: Config, t: seq<CardTables>, prog: Program, c: nat, e: nat) returns (i: nat)
    requires CompiledFrom(cfg, t, prog) && AllResolve(cfg) && c < |prog.cards| && e < |prog.cards[c].hashEntries|
    ensures i < |cfg.flows| && HashedOn(cfg, i, c)
    ensures var cp := prog.cards[c];
            && cp.hashEntries[e].localId == prog.meta[i].rxLocal
            && cp.hashEntries[e].key == Masked(HashWords(cfg.flows[i]), cp.hashMask)
  {
    assert Finished(cfg, t[c], prog.cards[c]);
    assert CardOwned(cfg, t[c], prog.meta, |cfg.flows|, c);
    assert HashClaimed(cfg, prog.meta, |cfg.flows|, c, t[c].hashEntries[e]);
    i :| 0 <= i < |cfg.flows| && HashOf(cfg, prog.meta, i, c, t[c].hashEntries[e]);
  }

  /** A frame whose masked key is that of the flow's header. */
  predicate LooksLike(f: Flow, k: MatchKey, mask: KeyWords) {
    Masked(Assemble(k), mask) == Masked(HashWords(f), mask)
  }

  /**
   The hash table sends a frame to a flow's slot exactly when the frame looks like that flow's
   header under the card mask, and then no other header-classified flow of the card claims it.
   */
  lemma HashReachesSlot(cfg: Config, t: seq<CardTables>, prog: Program, c: nat, i: nat,
                        r: RegFile, k: MatchKey)
    requires CompiledFrom(cfg, t, prog) && AllResolve(cfg) && c < |prog.cards| && i < |cfg.flows|
    requires TablesHold(r, prog.cards[c]) && HashedOn(cfg, i, c)
    ensures CardHash(r, k) == Some(prog.meta[i].rxLocal) <==> LooksLike(cfg.flows[i], k, prog.cards[c].hashMask)
  {
    CompiledFits(cfg, t, prog, c);
    var cp := prog.cards[c];
    var es, m := cp.hashEntries, Masked(Assemble(k), cp.hashMask);
    ProgrammedHash(r, cp, k);
    var e := EntryOfFlow(cfg, t, prog, c, i);
    if es[e].key == m {
      SearchPlaced(es, cp.hashSeed, m, e);
    } else if a :| 0 <= a < |es| && es[a].key == m {
      SearchPlaced(es, cp.hashSeed, m, a);
      var g := FlowOfEntry(cfg, t, prog, c, a);
      ValidResolves(cfg);
      RxSlots(cfg, t, prog, c, i, g);
    } else {
      SearchMisses(es, m);
    }
  }

  lemma SearchPlaced(es: seq<HashEntry>, seed: u32, m: KeyWords, e: nat)
    requires WellPlaced(es, seed) && e < |es| && es[e].key == m
    ensures Search(es, m) == Some(es[e].localId)
  {
    forall j | 0 <= j < |es| && j != e ensures es[j].key != m {}
    SearchFinds(es, m, e);
  }

  /** Two header-classified flows of one card with the same slot are the same flow. */
  lemma RxSlots(cfg: Config, t: seq<CardTables>, prog: Program, c: nat, i: nat, g: nat)
    requires CompiledFrom(cfg, t, prog) && AllResolve(cfg) && DistinctFlowIds(cfg)
    requires i < |cfg.flows| && g < |cfg.flows| && HashedOn(cfg, i, c) && HashedOn(cfg, g, c)
    ensures prog.meta[i].rxLocal == prog.meta[g].rxLocal ==> i == g
  {
    assert Placed(cfg, t, prog.meta, i) && Placed(cfg, t, prog.meta, g);
    if i != g { RxSlotsDisjoint(cfg, t, prog.meta, i, g); }
  }

  // ---- the three paths together -----------------------------------------------------------------------

  /** Flow i is found on card c by the test header of this frame. */
  predicate MappedBy(cfg: Config, c: nat, k: MatchKey, i: nat)
    requires AllResolve(cfg) && i < |cfg.flows|
  {
    MappedOn(cfg, i, c) && k.isTest && Num32(k.testFlowId) == cfg.flows[i].id
  }

  /** Flow i is found on card c by the header of this frame. */
  predicate HeadedBy(cfg: Config, c: nat, mask: KeyWords, k: MatchKey, i: nat)
    requires AllResolve(cfg) && i < |cfg.flows|
  {
    HashedOn(cfg, i, c) && LooksLike(cfg.flows[i], k, mask)
  }

  predicate AnyMapped(cfg: Config, c: nat, k: MatchKey)
    requires AllResolve(cfg)
  {
    exists i | 0 <= i < |cfg.flows| :: MappedBy(cfg, c, k, i)
  }

  predicate AnyHeaded(cfg: Config, c: nat, mask: KeyWords, k: MatchKey)
    requires AllResolve(cfg)
  {
    exists i | 0 <= i < |cfg.flows| :: HeadedBy(cfg, c, mask, k, i)
  }

  /** What the flow-id map answers for any frame at all. */
  predicate MapSays(cfg: Config, meta: seq<Meta>, c: nat, k: MatchKey, a: Option<u32>)
    requires AllResolve(cfg) && |meta| == |cfg.flows|
  {
    && (a.Some? <==> AnyMapped(cfg, c, k))
    && forall i | 0 <= i < |cfg.flows| && MappedBy(cfg, c, k, i) :: a == Some(meta[i].rxLocal)
  }

  predicate HashSays(cfg: Config, meta: seq<Meta>, c: nat, mask: KeyWords, k: MatchKey, a: Option<u32>)
    requires AllResolve(cfg) && |meta| == |cfg.flows|
  {
    && (a.Some? <==> AnyHeaded(cfg, c, mask, k))
    && forall i | 0 <= i < |cfg.flows| && HeadedBy(cfg, c, mask, k, i) :: a == Some(meta[i].rxLocal)
  }

  /** An id no flow has is in no map. */
  lemma UnknownIdUnmapped(cfg: Config, t: seq<CardTables>, prog: Program, c: nat, r: RegFile, k: MatchKey)
    requires CompiledFrom(cfg, t, prog) && c < |prog.cards| && TablesHold(r, prog.cards[c])
    requires forall i | 0 <= i < |cfg.flows| :: cfg.flows[i].id != Num32(k.testFlowId)
    ensures CardMap(r, k) == None
  {
    CompiledFits(cfg, t, prog, c);
    var cp, id := prog.cards[c], Num32(k.testFlowId);
    assert Finished(cfg, t[c], cp);
    ProgrammedMap(r, cp, k);
    forall e | 0 <= e < |cp.maps| ensures cp.maps[e].flowId != id {
      assert CardOwned(cfg, t[c], prog.meta, |cfg.flows|, c);
      assert MapClaimed(cfg, prog.meta, |cfg.flows|, c, t[c].maps[e]);
      var j :| 0 <= j < |cfg.flows| && MapOf(cfg, prog.meta, j, c, t[c].maps[e]);
    }
    MapFindIs(cp.maps, id, 0);
  }

  lemma MapAnswers(cfg: Config, t: seq<CardTables>, prog: Program, c: nat, r: RegFile, k: MatchKey)
    requires CompiledFrom(cfg, t, prog) && c < |prog.cards| && TablesHold(r, prog.cards[c])
    ensures AllResolve(cfg) && |prog.meta| == |cfg.flows| && MapSays(cfg, prog.meta, c, k, CardMap(r, k))
  {
    ValidResolves(cfg);
    if k.isTest {
      if i :| 0 <= i < |cfg.flows| && cfg.flows[i].id == Num32(k.testFlowId) {
        TestFrameReachesSlot(cfg, t, prog, c, i, r, k);
        assert MappedOn(cfg, i, c) ==> MappedBy(cfg, c, k, i);
      } else {
        UnknownIdUnmapped(cfg, t, prog, c, r, k);
      }
    }
  }

  lemma HashAnswers(cfg: Config, t: seq<CardTables>, prog: Program, c: nat, r: RegFile, k: MatchKey)
    requires CompiledFrom(cfg, t, prog) && c < |prog.cards| && TablesHold(r, prog.cards[c])
    ensures AllResolve(cfg) && |prog.meta| == |cfg.flows|
    ensures HashSays(cfg, prog.meta, c, prog.cards[c].hashMask, k, CardHash(r, k))
  {
    ValidResolves(cfg);
    var mask := prog.cards[c].hashMask;
    forall i | 0 <= i < |cfg.flows| && HeadedBy(cfg, c, mask, k, i)
      ensures CardHash(r, k) == Some(prog.meta[i].rxLocal)
    {
      HashReachesSlot(cfg, t, prog, c, i, r, k);
    }
    if CardHash(r, k).Some? { SomeFlowHeaded(cfg, t, prog, c, r, k); }
  }

  /** Whatever the hash table finds is a flow the frame looks like. */
  lemma SomeFlowHeaded(cfg: Config, t: seq<CardTables>, prog: Program, c: nat, r: RegFile, k: MatchKey)
    requires CompiledFrom(cfg, t, prog) && AllResolve(cfg) && c < |prog.cards| && TablesHold(r, prog.cards[c])
    requires CardHash(r, k).Some?
    ensures AnyHeaded(cfg, c, prog.cards[c].hashMask, k)
  {
    CompiledFits(cfg, t, prog, c);
    var cp := prog.cards[c];
    var es, m := cp.hashEntries, Masked(Assemble(k), cp.hashMask);
    ProgrammedHash(r, cp, k);
    if e :| 0 <= e < |es| && es[e].key == m {
      var g := FlowOfEntry(cfg, t, prog, c, e);
      assert HeadedBy(cfg, c, cp.hashMask, k, g);
    } else {
      SearchMisses(es, m);
    }
  }

  /** A measured flow of the card claims the frame: by its test header, or by looking like its header. */
  predicate Claimed(cfg: Config, c: nat, mask: KeyWords, k: MatchKey)
    requires AllResolve(cfg)
  {
    AnyMapped(cfg, c, k) || AnyHeaded(cfg, c, mask, k)
  }

  /** Claimed frames, and only those, are counted, in the slot of the flow that claims them, test headers first. */
  predicate Counts(cfg: Config, meta: seq<Meta>, c: nat, mask: KeyWords, k: MatchKey, a: Action)
    requires AllResolve(cfg) && |meta| == |cfg.flows|
  {
    && (a.TestRx? <==> Claimed(cfg, c, mask, k))
    && (forall i | 0 <= i < |cfg.flows| && MappedBy(cfg, c, k, i) :: a == TestRx(meta[i].rxLocal))
    && (!AnyMapped(cfg, c, k) ==>
          forall i | 0 <= i < |cfg.flows| && HeadedBy(cfg, c, mask, k, i) :: a == TestRx(meta[i].rxLocal))
  }

  function RuleOfAction(a: Action): Option<nat> { if a.ByRule? then Some(a.rule) else None }

  /** ... and every frame no flow claims gets the configuration's preferred rule that matches, or none. */
  predicate Acts(cfg: Config, meta: seq<Meta>, c: nat, cp: CardTables, k: MatchKey, a: Action)
    requires AllResolve(cfg) && |meta| == |cfg.flows|
  {
    && Counts(cfg, meta, c, cp.hashMask, k, a)
    && (!Claimed(cfg, c, cp.hashMask, k) ==> AnswersFor(Sources(cfg, cp.cardId), k, RuleOfAction(a)))
  }

  lemma CardCounts(cfg: Config, t: seq<CardTables>, prog: Program, c: nat, r: RegFile, k: MatchKey)
    requires CompiledFrom(cfg, t, prog) && c < |prog.cards| && TablesHold(r, prog.cards[c])
    ensures AllResolve(cfg) && |prog.meta| == |cfg.flows|
    ensures Counts(cfg, prog.meta, c, prog.cards[c].hashMask, k, CardAction(r, k))
  {
    MapAnswers(cfg, t, prog, c, r, k);
    HashAnswers(cfg, t, prog, c, r, k);
    Combines(cfg, prog.meta, c, prog.cards[c].hashMask, k, CardMap(r, k), CardHash(r, k), CardAction(r, k));
  }

  /** The precedence of the two counting paths. */
  lemma Combines(cfg: Config, meta: seq<Meta>, c: nat, mask: KeyWords, k: MatchKey,
                 m: Option<u32>, h: Option<u32>, a: Action)
    requires AllResolve(cfg) && |meta| == |cfg.flows|
    requires MapSays(cfg, meta, c, k, m) && HashSays(cfg, meta, c, mask, k, h)
    requires if m.Some? then a == TestRx(m.value) else if h.Some? then a == TestRx(h.value) else !a.TestRx?
    ensures Counts(cfg, meta, c, mask, k, a)
  {
    forall i | 0 <= i < |cfg.flows| && MappedBy(cfg, c, k, i) ensures m.Some? {}
  }

  /**
   What a programmed card does with any frame: if a measured flow of the card claims it, it is
   counted there; exactly otherwise the preferred punt or forward rule that matches is applied,
   and none exactly when none matches.
   */
  lemma CardAppliesChosenRule(cfg: Config, t: seq<CardTables>, prog: Program, c: nat,
                              r: RegFile, k: MatchKey)
    requires CompiledFrom(cfg, t, prog) && c < |prog.cards| && k.valid
    requires TablesHold(r, prog.cards[c]) && NoneFrom(r, |prog.cards[c].rules|)
    ensures AllResolve(cfg) && |prog.meta| == |cfg.flows|
    ensures Acts(cfg, prog.meta, c, prog.cards[c], k, CardAction(r, k))
  {
    CardCounts(cfg, t, prog, c, r, k);
    RuleStageChooses(cfg, t, prog, c, r, k);
    RuleWhenUnclaimed(r, k, CardAction(r, k));
  }

  lemma RuleWhenUnclaimed(r: RegFile, k: MatchKey, a: Action)
    requires Sized(r) && a == CardAction(r, k)
    ensures !a.TestRx? ==> RuleOfAction(a) == CardRule(r, k)
  {}
}
