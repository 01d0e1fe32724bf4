/**
 One card's program while it is being compiled (struct pw_card_program) and the operations
 that append to it: the shared, deduplicated comparator pool and the rules over it.
 */
module CardBuilder {
  import opened Basics
  import opened Config
  import opened Classifier
  import opened RuleSources
  import opened Pools

  /** Rows the flow-table window can address. */
  const FLOW_TABLE_ROWS := 64

  /**
   A flow-table row (struct pwfpga_flow_config). The columns the model computes with are
   spelled out; the header columns are straight copies of the flow and are kept as `flow`.
   */
  datatype Row = Row(enable: bool, txEnable: bool, rxCheck: bool, egress: u8,
                     flowId: u32, localId: u32, logicalIfId: u32,
                     lenMin: u16, lenMax: u16, lenStep: u16,
                     tokensPerTick: u32, burstBytes: u16, flow: Option<Flow>)

  const ZERO_ROW := Row(false, false, false, 0, 0, 0, 0, 0, 0, 0, 0, 0, None)

  datatype MapEntry = MapEntry(flowId: u32, localId: u32)
  datatype HashEntry = HashEntry(index: nat, key: KeyWords, localId: u32)

  /** A finished card program: what programming.c writes to the card. */
  datatype CardTables = CardTables(cardId: u16, rows: seq<Row>, maps: seq<MapEntry>,
                                   cmps: seq<Cmp>, udfs: seq<Udf>, rules: seq<Rule>,
                                   hashSeed: u32, hashMask: KeyWords, hashEntries: seq<HashEntry>)

  /** The care mask, over this pool, holds for exactly the frames that meet all the conditions. */
  ghost predicate Means(cmps: seq<Cmp>, udfs: seq<Udf>, care: set<nat>, conds: seq<Cond>) {
    && CareInPool(cmps, udfs, care)
    && forall k: MatchKey :: CareHit(cmps, udfs, care, k) <==> AllHold(conds, k)
  }

  lemma MeansNothing(cmps: seq<Cmp>, udfs: seq<Udf>)
    ensures Means(cmps, udfs, {}, [])
  {}

  lemma MeansStable(c0: seq<Cmp>, u0: seq<Udf>, c1: seq<Cmp>, u1: seq<Udf>, care: set<nat>, conds: seq<Cond>)
    requires c0 <= c1 && u0 <= u1 && Means(c0, u0, care, conds)
    ensures Means(c1, u1, care, conds)
  {
    forall k: MatchKey ensures CareHit(c1, u1, care, k) <==> AllHold(conds, k) {
      CareHitStable(c0, u0, c1, u1, care, k);
    }
    assert CareInPool(c1, u1, care) by {
      forall i | i in care ensures BitInPool(c1, u1, i) { assert BitInPool(c0, u0, i); }
    }
  }

  /** The condition comparator bit i tests. */
  function BitCond(cmps: seq<Cmp>, udfs: seq<Udf>, i: nat): Cond
    requires BitInPool(cmps, udfs, i)
  {
    if i < NUM_CMP then Field(cmps[i]) else Window(udfs[i - NUM_CMP])
  }

  /** Setting one more care bit adds exactly that bit's condition. */
  lemma MeansAnd(c0: seq<Cmp>, u0: seq<Udf>, c1: seq<Cmp>, u1: seq<Udf>, care: set<nat>, conds: seq<Cond>, bit: nat)
    requires c0 <= c1 && u0 <= u1 && Means(c0, u0, care, conds) && BitInPool(c1, u1, bit)
    ensures Means(c1, u1, care + {bit}, conds + [BitCond(c1, u1, bit)])
  {
    MeansStable(c0, u0, c1, u1, care, conds);
    var c := BitCond(c1, u1, bit);
    forall k: MatchKey ensures CareHit(c1, u1, care + {bit}, k) <==> AllHold(conds + [c], k) {
      AllHoldSnoc(conds, true, c, k);
      assert BitHit(c1, u1, bit, k) <==> Holds(c, k);
      if CareHit(c1, u1, care + {bit}, k) {
        assert CareHit(c1, u1, care, k) by {
          forall i | i in care ensures BitHit(c1, u1, i, k) { assert i in care + {bit}; }
        }
        assert bit in care + {bit};
      }
    }
  }

  /** Rule i of the card is what source i asks for, and it hits exactly the frames that source matches. */
  ghost predicate RulesRealise(cmps: seq<Cmp>, udfs: seq<Udf>, rules: seq<Rule>, sources: seq<RuleSource>) {
    && |rules| == |sources|
    && forall i | 0 <= i < |rules| ::
         RuleFields(rules[i], sources[i]) && Means(cmps, udfs, rules[i].care, SourceConds(sources[i]))
  }

  lemma RulesStable(c0: seq<Cmp>, u0: seq<Udf>, c1: seq<Cmp>, u1: seq<Udf>, rules: seq<Rule>, sources: seq<RuleSource>)
    requires c0 <= c1 && u0 <= u1 && RulesRealise(c0, u0, rules, sources)
    ensures RulesRealise(c1, u1, rules, sources)
  {
    forall i | 0 <= i < |rules| ensures Means(c1, u1, rules[i].care, SourceConds(sources[i])) {
      MeansStable(c0, u0, c1, u1, rules[i].care, SourceConds(sources[i]));
    }
  }

  /** The meaning, spelled out per frame. */
  lemma RuleHitsItsSource(cmps: seq<Cmp>, udfs: seq<Udf>, rules: seq<Rule>, sources: seq<RuleSource>, i: nat,
                          k: MatchKey)
    requires RulesRealise(cmps, udfs, rules, sources) && i < |rules|
    ensures CareHit(cmps, udfs, rules[i].care, k) <==> SourceMatches(sources[i], k)
  {
    SourceMeans(sources[i], k);
  }

  /** Every comparator selects one of the hardware's lanes. */
  predicate LanesOk(cmps: seq<Cmp>) { forall i | 0 <= i < |cmps| :: cmps[i].src < 32 }

  predicate SelectsLanes(sel: seq<u8>) { forall w | 0 <= w < |sel| :: sel[w] < 32 }

  lemma AddrCondsStep(conds: seq<Cond>, p: V6Prefix, sel: seq<u8>, w: nat)
    requires w < 4 == |sel|
    ensures conds + AddrConds(p, sel, w + 1)
         == conds + AddrConds(p, sel, w) + OnlyIf(AddrWord(p.mask, w) != ZERO_WORD, AddrCond(p, sel, w))
  {}

  function PortConds(port: u8, vlan: Half): seq<Cond> { [PortCond(port)] + OnlyIf(vlan != [0, 0], VlanCond(vlan)) }

  /** No room for the first words of a prefix is no room for it all. */
  lemma {:induction false} AddrFails(p: V6Prefix, sel: seq<u8>, n: nat, c0: seq<Cmp>, c1: seq<Cmp>)
    requires n <= 4 == |sel| && Added(c0, c1, AddrConds(p, sel, n), false)
    ensures Added(c0, c1, AddrConds(p, sel, |sel|), false)
    decreases 4 - n
  {
    if n < 4 {
      AddedFails(c0, c1, c1, AddrConds(p, sel, n), OnlyIf(AddrWord(p.mask, n) != ZERO_WORD, AddrCond(p, sel, n)));
      AddrFails(p, sel, n + 1, c0, c1);
    }
  }

  lemma ThreeFail(c0: seq<Cmp>, c1: seq<Cmp>, a: seq<Cond>, b: seq<Cond>, c: seq<Cond>, d: seq<Cond>)
    requires Added(c0, c1, a, false)
    ensures Added(c0, c1, a + b + c + d, false)
  {
    AddedFails(c0, c1, c1, a, b);
    AddedFails(c0, c1, c1, a + b, c);
    AddedFails(c0, c1, c1, a + b + c, d);
  }

  class Builder {
    const cardId: u16
    var rows: seq<Row>
    var maps: seq<MapEntry>
    var cmps: seq<Cmp>
    var udfs: seq<Udf>
    var rules: seq<Rule>
    var hashSeed: u32
    var hashMask: KeyWords
    var hashEntries: seq<HashEntry>

    constructor (id: u16)
      ensures cardId == id && PoolOk()
      ensures rows == [] && maps == [] && cmps == [] && udfs == [] && rules == [] && hashEntries == []
    {
      cardId := id;
      rows, maps, cmps, udfs, rules, hashEntries := [], [], [], [], [], [];
      hashSeed := 0;
      hashMask := [ZERO_WORD, ZERO_WORD, ZERO_WORD, ZERO_WORD, ZERO_WORD, ZERO_WORD, ZERO_WORD, ZERO_WORD, ZERO_WORD,
                   ZERO_WORD, ZERO_WORD];
    }

    /** The finished program. */
    function Tables(): CardTables
      reads this
    {
      CardTables(cardId, rows, maps, cmps, udfs, rules, hashSeed, hashMask, hashEntries)
    }

    /** Within capacity, and no comparator is stored twice. */
    ghost predicate PoolOk()
      reads this
    {
      && |cmps| <= NUM_CMP && Distinct(cmps) && LanesOk(cmps)
      && |udfs| <= NUM_UDF && Distinct(udfs)
      && |rules| <= NUM_RULE
    }

    /** Within capacity, and the rules are exactly what the sources ask for. */
    ghost predicate Realises(sources: seq<RuleSource>)
      reads this
    {
      PoolOk() && RulesRealise(cmps, udfs, rules, sources)
    }

    method AppendFlow(r: Row)
      modifies this`rows
      ensures rows == old(rows) + [r]
    {
      rows := rows + [r];
    }

    method AppendMap(flowId: u32, localId: u32)
      modifies this`maps
      ensures maps == old(maps) + [MapEntry(flowId, localId)]
    {
      maps := maps + [MapEntry(flowId, localId)];
    }

    /** append_hash_entry: the bucket index is assigned later, by the seed search. */
    method AppendHashEntry(key: KeyWords, localId: u32) returns (st: Status)
      modifies this`hashEntries
      ensures st == OK <==> |old(hashEntries)| < HASH_DEPTH
      ensures st == OK ==> hashEntries == old(hashEntries) + [HashEntry(0, key, localId)]
      ensures st != OK ==> st == NoResources && hashEntries == old(hashEntries)
    {
      if |hashEntries| >= HASH_DEPTH { return NoResources; }
      hashEntries := hashEntries + [HashEntry(0, key, localId)];
      return OK;
    }

    /** append_fc_cmp: the index of this comparator, appending it only if it is not there yet. */
    method AppendFcCmp(c: Cmp) returns (st: Status, bit: nat)
      requires PoolOk() && c.src < 32
      modifies this`cmps
      ensures PoolOk()
      ensures st == OK ==> bit < |cmps| && cmps[bit] == c
      ensures st == OK ==> cmps == if c in old(cmps) then old(cmps) else old(cmps) + [c]
      ensures st != OK ==> st == NoResources && cmps == old(cmps)
      ensures st != OK <==> c !in old(cmps) && |old(cmps)| == NUM_CMP
    {
      bit := 0;
      for i := 0 to |cmps|
        invariant forall j | 0 <= j < i :: cmps[j] != c
      {
        if cmps[i] == c { return OK, i; }
      }
      if |cmps| >= NUM_CMP { return NoResources, 0; }
      cmps := cmps + [c];
      return OK, |cmps| - 1;
    }

    /** append_fc_udf: as above for the two UDF comparators, whose bits follow the field comparators. */
    method AppendFcUdf(u: Udf) returns (st: Status, bit: nat)
      requires PoolOk()
      modifies this`udfs
      ensures PoolOk()
      ensures st == OK ==> NUM_CMP <= bit < NUM_CMP + |udfs| && udfs[bit - NUM_CMP] == u
      ensures st == OK ==> udfs == if u in old(udfs) then old(udfs) else old(udfs) + [u]
      ensures st != OK ==> st == NoResources && udfs == old(udfs)
      ensures st != OK <==> u !in old(udfs) && |old(udfs)| == NUM_UDF
    {
      bit := 0;
      for i := 0 to |udfs|
        invariant forall j | 0 <= j < i :: udfs[j] != u
      {
        if udfs[i] == u { return OK, NUM_CMP + i; }
      }
      if |udfs| >= NUM_UDF { return NoResources, 0; }
      udfs := udfs + [u];
      return OK, NUM_CMP + |udfs| - 1;
    }

    method AppendFcRule(r: Rule) returns (st: Status)
      requires PoolOk()
      modifies this`rules
      ensures PoolOk()
      ensures st == OK ==> rules == old(rules) + [r]
      ensures st != OK ==> st == NoResources && rules == old(rules) && |rules| == NUM_RULE
      ensures st == OK ==> |old(rules)| < NUM_RULE
    {
      if |rules| >= NUM_RULE { return NoResources; }
      rules := rules + [r];
      return OK;
    }

    /** The recurring triple: append a comparator, check, set its care bit. */
    method Care(c: Cmp, care: set<nat>, ghost conds: seq<Cond>) returns (st: Status, care': set<nat>)
      requires PoolOk() && c.src < 32 && Means(cmps, udfs, care, conds)
      modifies this`cmps
      ensures PoolOk() && old(cmps) <= cmps
      ensures st == OK ==> Means(cmps, udfs, care', conds + [Field(c)])
      ensures st != OK ==> st == NoResources
      ensures Added(old(cmps), cmps, [Field(c)], st == OK)
    {
      var bit;
      st, bit := AppendFcCmp(c);
      AddedOne(old(cmps), cmps, c, st == OK);
      care' := care;
      if st != OK { return; }
      care' := care + {bit};
      MeansAnd(old(cmps), udfs, cmps, udfs, care, conds, bit);
    }

    /** The same under a configuration field that may be 0 = any. */
    method CareIf(want: bool, c: Cmp, care: set<nat>, ghost conds: seq<Cond>) returns (st: Status, care': set<nat>)
      requires PoolOk() && c.src < 32 && Means(cmps, udfs, care, conds)
      modifies this`cmps
      ensures PoolOk() && old(cmps) <= cmps
      ensures st == OK ==> Means(cmps, udfs, care', conds + OnlyIf(want, Field(c)))
      ensures st != OK ==> st == NoResources
      ensures Added(old(cmps), cmps, OnlyIf(want, Field(c)), st == OK)
    {
      if want {
        st, care' := Care(c, care, conds);
      } else {
        st, care' := OK, care;
        assert conds + [] == conds;
        AddedNone(cmps);
      }
    }

    /** append_ipv6_cmps: up to four comparators for a 128-bit prefix, none for an all-zero mask word. */
    method AppendIpv6Cmps(p: V6Prefix, sel: seq<u8>, care: set<nat>, ghost conds: seq<Cond>)
      returns (st: Status, care': set<nat>)
      requires |sel| == 4 && SelectsLanes(sel) && PoolOk() && Means(cmps, udfs, care, conds)
      modifies this`cmps
      ensures PoolOk() && old(cmps) <= cmps
      ensures st == OK ==> Means(cmps, udfs, care', conds + AddrConds(p, sel, |sel|))
      ensures st != OK ==> st == NoResources
      ensures Added(old(cmps), cmps, AddrConds(p, sel, |sel|), st == OK)
    {
      care' := care;
      ghost var cs := conds;
      AddedNone(cmps);
      for w := 0 to |sel|
        invariant PoolOk() && old(cmps) <= cmps
        invariant Means(cmps, udfs, care', cs) && cs == conds + AddrConds(p, sel, w)
        invariant Added(old(cmps), cmps, AddrConds(p, sel, w), true)
      {
        var m := AddrWord(p.mask, w);
        ghost var c0 := cmps;
        st, care' := CareIf(m != ZERO_WORD, Cmp(sel[w], m, AndAll(AddrWord(p.addr, w), m)), care', cs);
        AddedThen(old(cmps), c0, cmps, AddrConds(p, sel, w), OnlyIf(m != ZERO_WORD, AddrCond(p, sel, w)), st == OK);
        if st != OK {
          AddrFails(p, sel, w + 1, old(cmps), cmps);
          return;
        }
        cs := cs + OnlyIf(m != ZERO_WORD, AddrCond(p, sel, w));
        AddrCondsStep(conds, p, sel, w);
      }
      st := OK;
    }

    /** Ingress port and VLAN. */
    method PortCare(port: u8, vlan: Half) returns (st: Status, care: set<nat>)
      requires PoolOk()
      modifies this`cmps
      ensures PoolOk() && old(cmps) <= cmps
      ensures st == OK ==> Means(cmps, udfs, care, PortConds(port, vlan))
      ensures st != OK ==> st == NoResources
      ensures Added(old(cmps), cmps, PortConds(port, vlan), st == OK)
    {
      MeansNothing(cmps, udfs);
      ghost var v := OnlyIf(vlan != [0, 0], VlanCond(vlan));
      st, care := Care(PortCond(port).c, {}, []);
      assert [] + [PortCond(port)] == [PortCond(port)];
      if st != OK {
        AddedFails(old(cmps), cmps, cmps, [PortCond(port)], v);
        return;
      }
      ghost var c1 := cmps;
      st, care := CareIf(vlan != [0, 0], VlanCond(vlan).c, care, [PortCond(port)]);
      AddedThen(old(cmps), c1, cmps, [PortCond(port)], v, st == OK);
    }

    /** One more optional comparator, behind conditions whose comparators were added to `base`. */
    method CareNext(want: bool, c: Cmp, care: set<nat>, ghost base: seq<Cmp>, ghost conds: seq<Cond>)
      returns (st: Status, care': set<nat>)
      requires PoolOk() && c.src < 32 && Means(cmps, udfs, care, conds) && Added(base, cmps, conds, true)
      modifies this`cmps
      ensures PoolOk() && old(cmps) <= cmps
      ensures st == OK ==> Means(cmps, udfs, care', conds + OnlyIf(want, Field(c)))
      ensures st != OK ==> st == NoResources
      ensures Added(base, cmps, conds + OnlyIf(want, Field(c)), st == OK)
    {
      st, care' := CareIf(want, c, care, conds);
      AddedThen(base, old(cmps), cmps, conds, OnlyIf(want, Field(c)), st == OK);
    }

    /** Two more optional comparators. */
    method CareTwo(w1: bool, c1: Cmp, w2: bool, c2: Cmp, care: set<nat>, ghost base: seq<Cmp>, ghost conds: seq<Cond>)
      returns (st: Status, care': set<nat>)
      requires PoolOk() && c1.src < 32 && c2.src < 32 && Means(cmps, udfs, care, conds)
      requires Added(base, cmps, conds, true)
      modifies this`cmps
      ensures PoolOk() && old(cmps) <= cmps
      ensures st == OK ==> Means(cmps, udfs, care', conds + OnlyIf(w1, Field(c1)) + OnlyIf(w2, Field(c2)))
      ensures st != OK ==> st == NoResources
      ensures Added(base, cmps, conds + OnlyIf(w1, Field(c1)) + OnlyIf(w2, Field(c2)), st == OK)
    {
      st, care' := CareNext(w1, c1, care, base, conds);
      if st != OK {
        AddedFails(base, cmps, cmps, conds + OnlyIf(w1, Field(c1)), OnlyIf(w2, Field(c2)));
        return;
      }
      st, care' := CareNext(w2, c2, care', base, conds + OnlyIf(w1, Field(c1)));
    }

    /** Three more optional comparators. */
    method CareThree(w1: bool, c1: Cmp, w2: bool, c2: Cmp, w3: bool, c3: Cmp, care: set<nat>,
                     ghost base: seq<Cmp>, ghost conds: seq<Cond>) returns (st: Status, care': set<nat>)
      requires PoolOk() && c1.src < 32 && c2.src < 32 && c3.src < 32
      requires Means(cmps, udfs, care, conds) && Added(base, cmps, conds, true)
      modifies this`cmps
      ensures PoolOk() && old(cmps) <= cmps
      ensures st == OK ==>
                Means(cmps, udfs, care', conds + OnlyIf(w1, Field(c1)) + OnlyIf(w2, Field(c2)) + OnlyIf(w3, Field(c3)))
      ensures st != OK ==> st == NoResources
      ensures Added(base, cmps, conds + OnlyIf(w1, Field(c1)) + OnlyIf(w2, Field(c2)) + OnlyIf(w3, Field(c3)), st == OK)
    {
      ghost var cs := conds + OnlyIf(w1, Field(c1)) + OnlyIf(w2, Field(c2));
      st, care' := CareTwo(w1, c1, w2, c2, care, base, conds);
      if st != OK {
        AddedFails(base, cmps, cmps, cs, OnlyIf(w3, Field(c3)));
        return;
      }
      st, care' := CareNext(w3, c3, care', base, cs);
    }

    /** The comparators common to punt and forward rules. */
    method HeadCare(port: u8, vlan: Half, eth: Half, proto: u8, lane: u8, l4: Half)
      returns (st: Status, care: set<nat>)
      requires PoolOk() && lane < 32
      modifies this`cmps
      ensures PoolOk() && old(cmps) <= cmps
      ensures st == OK ==> Means(cmps, udfs, care, HeadConds(port, vlan, eth, proto, lane, l4))
      ensures st != OK ==> st == NoResources
      ensures Added(old(cmps), cmps, HeadConds(port, vlan, eth, proto, lane, l4), st == OK)
    {
      ghost var c0 := cmps;
      st, care := PortCare(port, vlan);
      if st != OK {
        ThreeFail(c0, cmps, PortConds(port, vlan), OnlyIf(eth != [0, 0], EthCond(eth)),
                  OnlyIf(proto != 0, ProtoCond(proto)), OnlyIf(l4 != [0, 0], L4Cond(lane, l4)));
        return;
      }
      st, care := CareThree(eth != [0, 0], EthCond(eth).c, proto != 0, ProtoCond(proto).c, 
                            l4 != [0, 0], L4Cond(lane, l4).c, care, c0, PortConds(port, vlan));
    }

    /** The UDF comparator of a punt rule, if it has one. */
    method WindowCare(a: PuntArgs, care: set<nat>, ghost conds: seq<Cond>, ghost sources: seq<RuleSource>)
      returns (st: Status, care': set<nat>)
      requires PoolOk() && Means(cmps, udfs, care, conds) && RulesRealise(cmps, udfs, rules, sources)
      modifies this`udfs
      ensures PoolOk() && RulesRealise(cmps, udfs, rules, sources)
      ensures st == OK ==> Means(cmps, udfs, care', conds + OnlyIf(a.udfVal != ZERO_WORD, UdfCond(a.udfOff, a.udfVal)))
      ensures st == OK ==>
                Elems(udfs) == Elems(old(udfs)) + if a.udfVal != ZERO_WORD then {UdfCond(a.udfOff, a.udfVal).u} else {}
      ensures st != OK ==> && st == NoResources && a.udfVal != ZERO_WORD && udfs == old(udfs)
                           && UdfCond(a.udfOff, a.udfVal).u !in udfs && |udfs| == NUM_UDF
    {
      if a.udfVal != ZERO_WORD {
        var bit;
        ghost var u0 := udfs;
        st, bit := AppendFcUdf(UdfCond(a.udfOff, a.udfVal).u);
        care' := care;
        RulesStable(cmps, u0, cmps, udfs, rules, sources);
        if st != OK { return; }
        MeansAnd(cmps, u0, cmps, udfs, care, conds, bit);
        care' := care + {bit};
      } else {
        st, care' := OK, care;
        assert conds + [] == conds;
      }
    }

    /** The rules are exactly what the sources ask for, and the pool is exactly what they need. */
    ghost predicate Holds(sources: seq<RuleSource>)
      reads this
    {
      Realises(sources) && Pooled(cmps, udfs, sources)
    }

    /** All conditions of a punt rule. */
    method PuntCare(port: u8, vlan: Half, a: PuntArgs, ghost sources: seq<RuleSource>)
      returns (st: Status, care: set<nat>)
      requires PoolOk() && a.lane < 32 && RulesRealise(cmps, udfs, rules, sources)
      modifies this`cmps, this`udfs
      ensures PoolOk() && RulesRealise(cmps, udfs, rules, sources)
      ensures st == OK ==> Means(cmps, udfs, care, PuntConds(port, vlan, a))
      ensures st == OK ==> Added(old(cmps), cmps, PuntConds(port, vlan, a), true)
      ensures st == OK ==> Elems(udfs) == Elems(old(udfs)) + UdfsIn(PuntConds(port, vlan, a))
      ensures st != OK ==> st == NoResources
      ensures st != OK ==> Added(old(cmps), cmps, PuntConds(port, vlan, a), false)
                           || FullFor(old(udfs), PuntConds(port, vlan, a))
    {
      ghost var u0 := udfs;
      st, care := HeadCare(port, vlan, a.eth, a.proto, a.lane, a.l4Port);
      RulesStable(old(cmps), udfs, cmps, udfs, rules, sources);
      PuntAdded(old(cmps), cmps, port, vlan, a, st == OK);
      if st != OK { return; }
      st, care := WindowCare(a, care, HeadConds(port, vlan, a.eth, a.proto, a.lane, a.l4Port), sources);
      if st != OK { assert UdfCond(a.udfOff, a.udfVal).u in UdfsIn(PuntConds(port, vlan, a)); }
    }

    /** add_punt_rule: it succeeds exactly if there is room. */
    method AddPuntRule(port: u8, vlan: Half, lif: u32, kind: PuntKind, ghost sources: seq<RuleSource>)
      returns (st: Status)
      requires Holds(sources)
      modifies this`cmps, this`udfs, this`rules
      ensures st == OK ==> Holds(sources + [Punt(kind, port, vlan, lif)])
      ensures st == OK <==> Suffice(sources + [Punt(kind, port, vlan, lif)])
      ensures st != OK ==> st == NoResources && Realises(sources)
    {
      var a := ArgsOf(kind);
      ghost var x := Punt(kind, port, vlan, lif);
      ghost var c0, u0 := cmps, udfs;
      var care;
      st, care := PuntCare(port, vlan, a, sources);
      if st != OK {
        NoRoom(c0, cmps, u0, sources, x);
        return;
      }
      PooledStep(c0, cmps, u0, udfs, sources, x);
      st := FinishRule(Rule(care, ACT_PUNT, 0, ZERO_WORD, Word32(lif), a.prio), x, sources);
    }

    /** The rule itself, its comparators being there. */
    method FinishRule(r: Rule, ghost x: RuleSource, ghost sources: seq<RuleSource>) returns (st: Status)
      requires Realises(sources) && Pooled(cmps, udfs, sources + [x])
      requires RuleFields(r, x) && Means(cmps, udfs, r.care, SourceConds(x))
      modifies this`rules
      ensures st == OK ==> Holds(sources + [x])
      ensures st == OK <==> Suffice(sources + [x])
      ensures st != OK ==> st == NoResources && Realises(sources)
    {
      st := AppendFcRule(r);
      if st == OK { PooledSuffices(cmps, udfs, sources + [x]); }
    }

    /** One PUNT(...) line behind its flag. */
    method PuntIf(want: bool, kind: PuntKind, port: u8, l: LogicalIf, ghost sources: seq<RuleSource>)
      returns (st: Status)
      requires Holds(sources)
      modifies this`cmps, this`udfs, this`rules
      ensures st == OK ==> Holds(sources + PuntWhen(want, kind, port, l))
      ensures st != OK ==> st == NoResources && !Suffice(sources + PuntWhen(want, kind, port, l))
    {
      if want {
        st := AddPuntRule(port, l.vlan, l.id, kind, sources);
      } else {
        st := OK;
        assert sources + [] == sources;
      }
    }

    /** The i-th of n PUNT(...) lines of one logical interface. */
    method PuntLineOf(i: nat, ghost n: nat, port: u8, l: LogicalIf, ghost sources: seq<RuleSource>) returns (st: Status)
      requires Holds(LifSources(sources, port, l, i)) && i < n
      modifies this`cmps, this`udfs, this`rules
      ensures st == OK ==> Holds(LifSources(sources, port, l, i + 1))
      ensures st != OK ==> st == NoResources && !Suffice(LifSources(sources, port, l, n))
    {
      var line := PuntLine(l.punt, i);
      LifStep(sources, port, l, i, line.0, line.1);
      st := PuntIf(line.0, line.1, port, l, LifSources(sources, port, l, i));
      if st != OK { LifNoRoom(sources, port, l, i + 1, n); }
    }

    /** Three lines, from line i on. */
    method ThreeLines(i: nat, ghost n: nat, port: u8, l: LogicalIf, ghost sources: seq<RuleSource>) returns (st: Status)
      requires Holds(LifSources(sources, port, l, i)) && i + 3 <= n
      modifies this`cmps, this`udfs, this`rules
      ensures st == OK ==> Holds(LifSources(sources, port, l, i + 3))
      ensures st != OK ==> st == NoResources && !Suffice(LifSources(sources, port, l, n))
    {
      st := PuntLineOf(i, n, port, l, sources);
      if st != OK { return; }
      st := PuntLineOf(i + 1, n, port, l, sources);
      if st != OK { return; }
      st := PuntLineOf(i + 2, n, port, l, sources);
    }

    /** Six lines. */
    method SixLines(i: nat, ghost n: nat, port: u8, l: LogicalIf, ghost sources: seq<RuleSource>) returns (st: Status)
      requires Holds(LifSources(sources, port, l, i)) && i + 6 <= n
      modifies this`cmps, this`udfs, this`rules
      ensures st == OK ==> Holds(LifSources(sources, port, l, i + 6))
      ensures st != OK ==> st == NoResources && !Suffice(LifSources(sources, port, l, n))
    {
      st := ThreeLines(i, n, port, l, sources);
      if st != OK { return; }
      st := ThreeLines(i + 3, n, port, l, sources);
    }

    /** Five lines. */
    method FiveLines(i: nat, ghost n: nat, port: u8, l: LogicalIf, ghost sources: seq<RuleSource>) returns (st: Status)
      requires Holds(LifSources(sources, port, l, i)) && i + 5 <= n
      modifies this`cmps, this`udfs, this`rules
      ensures st == OK ==> Holds(LifSources(sources, port, l, i + 5))
      ensures st != OK ==> st == NoResources && !Suffice(LifSources(sources, port, l, n))
    {
      st := ThreeLines(i, n, port, l, sources);
      if st != OK { return; }
      st := PuntLineOf(i + 3, n, port, l, sources);
      if st != OK { return; }
      st := PuntLineOf(i + 4, n, port, l, sources);
    }

    /** The loop body of compile_punt_rules: ARP to BGP over IPv4, then OSPF to IS-IS. */
    method ElevenLines(i: nat, ghost n: nat, port: u8, l: LogicalIf, ghost sources: seq<RuleSource>)
      returns (st: Status)
      requires Holds(LifSources(sources, port, l, i)) && i + 11 <= n
      modifies this`cmps, this`udfs, this`rules
      ensures st == OK ==> Holds(LifSources(sources, port, l, i + 11))
      ensures st != OK ==> st == NoResources && !Suffice(LifSources(sources, port, l, n))
    {
      st := SixLines(i, n, port, l, sources);
      if st != OK { return; }
      st := FiveLines(i + 6, n, port, l, sources);
    }

    /** The prefixes of a forward rule. */
    method PrefixesCare(r: ForwardRule, care: set<nat>, ghost conds: seq<Cond>, ghost sources: seq<RuleSource>)
      returns (st: Status, care': set<nat>)
      requires PoolOk() && Means(cmps, udfs, care, conds) && RulesRealise(cmps, udfs, rules, sources)
      modifies this`cmps
      ensures PoolOk() && old(cmps) <= cmps && RulesRealise(cmps, udfs, rules, sources)
      ensures st == OK ==> Means(cmps, udfs, care', conds + PrefixConds(r.ipv6Dst, DST_SEL)
                                 + PrefixConds(r.ipv6Src, SRC_SEL))
      ensures st != OK ==> st == NoResources
      ensures Added(old(cmps), cmps, PrefixConds(r.ipv6Dst, DST_SEL) + PrefixConds(r.ipv6Src, SRC_SEL), st == OK)
    {
      st, care' := TwoPrefixes(r.ipv6Dst, DST_SEL, r.ipv6Src, SRC_SEL, care, conds, sources);
    }

    method TwoPrefixes(p: Option<V6Prefix>, selP: seq<u8>, q: Option<V6Prefix>, selQ: seq<u8>, care: set<nat>,
                       ghost conds: seq<Cond>, ghost sources: seq<RuleSource>)
      returns (st: Status, care': set<nat>)
      requires |selP| == 4 == |selQ| && SelectsLanes(selP) && SelectsLanes(selQ)
      requires PoolOk() && Means(cmps, udfs, care, conds) && RulesRealise(cmps, udfs, rules, sources)
      modifies this`cmps
      ensures PoolOk() && old(cmps) <= cmps && RulesRealise(cmps, udfs, rules, sources)
      ensures st == OK ==> Means(cmps, udfs, care', conds + PrefixConds(p, selP) + PrefixConds(q, selQ))
      ensures st != OK ==> st == NoResources
      ensures Added(old(cmps), cmps, PrefixConds(p, selP) + PrefixConds(q, selQ), st == OK)
    {
      ghost var a, b := PrefixConds(p, selP), PrefixConds(q, selQ);
      st, care' := PrefixCare(p, selP, care, conds, sources);
      if st != OK {
        AddedFails(old(cmps), cmps, cmps, a, b);
        return;
      }
      ghost var c1 := cmps;
      st, care' := PrefixCare(q, selQ, care', conds + a, sources);
      AddedThen(old(cmps), c1, cmps, a, b, st == OK);
    }

    /** All conditions of a forward rule. */
    method ForwardCare(port: u8, r: ForwardRule, ghost sources: seq<RuleSource>) returns (st: Status, care: set<nat>)
      requires PoolOk() && RulesRealise(cmps, udfs, rules, sources)
      modifies this`cmps
      ensures PoolOk() && old(cmps) <= cmps && RulesRealise(cmps, udfs, rules, sources)
      ensures st == OK ==> Means(cmps, udfs, care, ForwardConds(port, r))
      ensures st != OK ==> st == NoResources
      ensures Added(old(cmps), cmps, ForwardConds(port, r), st == OK)
    {
      var v6 := r.ipv6Dst.Some? || r.ipv6Src.Some?;
      ghost var h := HeadConds(port, r.vlan, r.ethertype, r.ipProto, SRC_L4_DST, r.udpDst);
      ghost var v, d, s := OnlyIf(v6, Ipv6Cond()), PrefixConds(r.ipv6Dst, DST_SEL), PrefixConds(r.ipv6Src, SRC_SEL);
      ForwardIs(h, v, d, s);
      st, care := HeadCare(port, r.vlan, r.ethertype, r.ipProto, SRC_L4_DST, r.udpDst);
      RulesStable(old(cmps), udfs, cmps, udfs, rules, sources);
      if st != OK {
        AddedFails(old(cmps), cmps, cmps, h, v);
        AddedFails(old(cmps), cmps, cmps, h + v, d + s);
        return;
      }
      ghost var c1 := cmps;
      st, care := CareIf(v6, Ipv6Cond().c, care, h);
      RulesStable(c1, udfs, cmps, udfs, rules, sources);
      AddedThen(old(cmps), c1, cmps, h, v, st == OK);
      if st != OK {
        AddedFails(old(cmps), cmps, cmps, h + v, d + s);
        return;
      }
      ghost var c2 := cmps;
      st, care := PrefixesCare(r, care, h + v, sources);
      AddedThen(old(cmps), c2, cmps, h + v, d + s, st == OK);
    }

    /** The loop body of compile_forward_rules: it succeeds exactly if there is room. */
    method AddForwardRule(port: u8, egress: u8, r: ForwardRule, ghost sources: seq<RuleSource>) returns (st: Status)
      requires Holds(sources)
      modifies this`cmps, this`rules
      ensures st == OK ==> Holds(sources + [Forward(port, egress, r)])
      ensures st == OK <==> Suffice(sources + [Forward(port, egress, r)])
      ensures st != OK ==> st == NoResources && Realises(sources)
    {
      ghost var x := Forward(port, egress, r);
      var care;
      st, care := ForwardCare(port, r, sources);
      if st != OK {
        NoRoom(old(cmps), cmps, udfs, sources, x);
        return;
      }
      ForwardUdfs(port, r);
      PooledStep(old(cmps), cmps, udfs, udfs, sources, x);
      st := FinishRule(Rule(care, ACT_FORWARD, egress, ZERO_WORD, ZERO_WORD, r.priority), x, sources);
    }

    method PrefixCare(p: Option<V6Prefix>, sel: seq<u8>, care: set<nat>, ghost conds: seq<Cond>,
                      ghost sources: seq<RuleSource>)
      returns (st: Status, care': set<nat>)
      requires |sel| == 4 && SelectsLanes(sel) && PoolOk() && Means(cmps, udfs, care, conds)
      requires RulesRealise(cmps, udfs, rules, sources)
      modifies this`cmps
      ensures PoolOk() && old(cmps) <= cmps && RulesRealise(cmps, udfs, rules, sources)
      ensures st == OK ==> Means(cmps, udfs, care', conds + PrefixConds(p, sel))
      ensures st != OK ==> st == NoResources
      ensures Added(old(cmps), cmps, PrefixConds(p, sel), st == OK)
    {
      if p.Some? {
        st, care' := AppendIpv6Cmps(p.value, sel, care, conds);
        RulesStable(old(cmps), udfs, cmps, udfs, rules, sources);
      } else {
        st, care' := OK, care;
        assert conds + [] == conds;
        AddedNone(cmps);
      }
    }
  }

  lemma ForwardIs(h: seq<Cond>, v: seq<Cond>, d: seq<Cond>, s: seq<Cond>)
    ensures h + v + d + s == h + v + (d + s)
  {}

  lemma {:induction false} LifGrows(sources: seq<RuleSource>, port: u8, l: LogicalIf, i: nat, n: nat)
    requires i <= n
    ensures LifSources(sources, port, l, i) <= LifSources(sources, port, l, n)
  {
    if i < n { LifGrows(sources, port, l, i, n - 1); }
  }

  lemma LifStep(sources: seq<RuleSource>, port: u8, l: LogicalIf, i: nat, want: bool, kind: PuntKind)
    requires PuntLine(l.punt, i) == (want, kind)
    ensures LifSources(sources, port, l, i + 1) == LifSources(sources, port, l, i) + PuntWhen(want, kind, port, l)
  {}

  lemma LifNoRoom(sources: seq<RuleSource>, port: u8, l: LogicalIf, i: nat, n: nat)
    requires i <= n && !Suffice(LifSources(sources, port, l, i))
    ensures !Suffice(LifSources(sources, port, l, n))
  {
    LifGrows(sources, port, l, i, n);
    NoRoomGrows(LifSources(sources, port, l, i), LifSources(sources, port, l, n));
  }
}
