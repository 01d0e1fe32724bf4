/**
 What a programmed card does with a frame: its hash and map paths and its generators are those
 of the program, whatever the registers and rows held before; so is its rule path, exactly if
 no rule slot beyond the program's was enabled before.
 */
module CardMeaning {
  import opened Basics
  import opened Config
  import opened Classifier
  import opened CardBuilder
  import opened HashKeys
  import opened RuleSources
  import opened Registers
  import opened TableWrites

  lemma {:induction false} CareBit(care: set<nat>, n: nat, i: nat)
    requires i < n
    ensures HasBit(CareNum(care, n), i) <==> i in care
  {
    var low := CareNum(care, n - 1);
    if i < n - 1 {
      CareBit(care, n - 1, i);
      if n - 1 in care {
        HighBitIrrelevant(low, n - 1, i);
      }
    } else {
      TopBit(low, n - 1);
    }
  }

  lemma {:induction false} PowDivides(n: nat, i: nat)
    requires i < n
    ensures Pow2(n) == 2 * Pow2(n - 1 - i) * Pow2(i)
  {
    if i > 0 { PowDivides(n - 1, i - 1); }
  }

  /** Adding a higher power of two does not change bit i. */
  lemma HighBitIrrelevant(x: nat, n: nat, i: nat)
    requires i < n
    ensures HasBit(x + Pow2(n), i) <==> HasBit(x, i)
  {
    PowDivides(n, i);
    EvenShift(x, Pow2(n - 1 - i), Pow2(i), Pow2(n));
  }

  lemma EvenShift(x: nat, q: nat, p: nat, m: nat)
    requires p > 0 && m == 2 * q * p
    ensures (x + m) / p % 2 == x / p % 2
  {
    AddMultiple(x, 2 * q, p);
  }

  lemma AddMultiple(x: nat, k: nat, p: nat)
    requires p > 0
    ensures (x + k * p) / p == x / p + k
  {
    var q, r := x / p, x % p;
    assert x + k * p == (q + k) * p + r;
    QuotientIs(x + k * p, p, q + k, r);
  }

  lemma TopBit(x: nat, n: nat)
    requires x < Pow2(n)
    ensures HasBit(x + Pow2(n), n) && !HasBit(x, n)
  {
    QuotientIs(x, Pow2(n), 0, x);
    QuotientIs(x + Pow2(n), Pow2(n), 1, x);
  }

  /** Reading back a packed rule word gives the rule, in the widths the hardware keeps. */
  lemma RuleWordRound(r: Rule)
    requires forall i | i in r.care :: i < NUM_BITS
    ensures RuleOf(RuleWord(r), r.lfid, r.lif) == Some(Clipped(r))
  {
    assert Pow2(14) == 0x4000;
    var c := CareNum(r.care, NUM_BITS);
    var n := c + 0x4000 * (r.action % 8) + 0x2_0000 * (r.egress % 16) + 0x20_0000 * r.prio + VALID;
    assert Num32(RuleWord(r)) == n;
    UnpackFields(c, r.action % 8, r.egress % 16, r.prio);
    assert BitsOf(c) == r.care by {
      forall i: nat ensures i in BitsOf(c) <==> i in r.care {
        if i < NUM_BITS { CareBit(r.care, NUM_BITS, i); }
      }
    }
  }

  lemma UnpackFields(c: nat, a: nat, e: nat, p: nat)
    requires c < 0x4000 && a < 8 && e < 16 && p < 256
    ensures var n := c + 0x4000 * a + 0x2_0000 * e + 0x20_0000 * p + VALID;
            n % 0x4000 == c && n / 0x4000 % 8 == a && n / 0x2_0000 % 16 == e && n / 0x20_0000 % 256 == p
              && n / VALID == 1
  {
    var n := c + 0x4000 * a + 0x2_0000 * e + 0x20_0000 * p + VALID;
    QuotientIs(n, 0x4000, a + 8 * e + 0x80 * p + 0x2_0000, c);
    QuotientIs(n, 0x2_0000, e + 16 * p + 0x4000, c + 0x4000 * a);
    QuotientIs(n, 0x20_0000, p + 0x400, c + 0x4000 * a + 0x2_0000 * e);
  }

  /** The registers hold the program's comparators first, in the program's order. */
  lemma ProgrammedPool(r: RegFile, cp: CardTables)
    requires WellFormed(cp) && TablesHold(r, cp)
    ensures cp.cmps <= r.cmps && cp.udfs <= r.udfs
  {
    forall i | 0 <= i < |cp.cmps| ensures r.cmps[i] == cp.cmps[i] {
      assert cp.cmps[i].src % 32 == cp.cmps[i].src;
    }
  }

  lemma ProgrammedRule(r: RegFile, cp: CardTables, i: nat)
    requires WellFormed(cp) && TablesHold(r, cp) && i < |cp.rules|
    ensures r.rules[i] == Some(Clipped(cp.rules[i]))
  {
    forall j | j in cp.rules[i].care ensures j < NUM_BITS {
      assert BitInPool(cp.cmps, cp.udfs, j);
    }
    RuleWordRound(cp.rules[i]);
  }

  /** The rule table is the program's exactly when no slot beyond it is enabled. */
  lemma RuleTableExact(r: RegFile, cp: CardTables)
    requires WellFormed(cp) && TablesHold(r, cp)
    ensures r.rules == RuleTableOf(cp.rules) <==> NoneFrom(r, |cp.rules|)
  {
    var t := RuleTableOf(cp.rules);
    forall i | 0 <= i < |cp.rules| ensures r.rules[i] == t[i] { ProgrammedRule(r, cp, i); }
    if NoneFrom(r, |cp.rules|) {
      forall i | 0 <= i < NUM_RULE ensures r.rules[i] == t[i] {}
    } else {
      var i :| |cp.rules| <= i < |r.rules| && r.rules[i].Some?;
      assert t[i].None?;
    }
  }

  /** Programming leaves the table exact exactly when no slot beyond the program was enabled before. */
  lemma ExactAfter(r0: RegFile, r1: RegFile, cp: CardTables)
    requires WellFormed(cp) && TablesHold(r1, cp) && SameFrom(r0, r1, |cp.rules|)
    ensures r1.rules == RuleTableOf(cp.rules) <==> NoneFrom(r0, |cp.rules|)
  {
    RuleTableExact(r1, cp);
    if NoneFrom(r1, |cp.rules|) {
      forall i | |cp.rules| <= i < |r0.rules| ensures r0.rules[i].None? { assert r1.rules[i] == r0.rules[i]; }
    }
  }

  /** Reprogramming an exact card keeps it exact exactly when the new program has no fewer rules. */
  lemma ExactReload(r0: RegFile, cp0: CardTables, r1: RegFile, cp1: CardTables)
    requires WellFormed(cp0) && TablesHold(r0, cp0) && NoneFrom(r0, |cp0.rules|)
    requires WellFormed(cp1) && TablesHold(r1, cp1) && SameFrom(r0, r1, |cp1.rules|)
    ensures r1.rules == RuleTableOf(cp1.rules) <==> |cp0.rules| <= |cp1.rules|
  {
    ExactAfter(r0, r1, cp1);
    if |cp1.rules| < |cp0.rules| {
      ProgrammedRule(r0, cp0, |cp1.rules|);
      assert r0.rules[|cp1.rules|].Some?;
    }
  }

  /** The last enabled slot is the t-th: none from t on is enabled. */
  predicate Level(r: RegFile, t: nat) {
    t <= |r.rules| && NoneFrom(r, t) && (t > 0 ==> r.rules[t - 1].Some?)
  }

  /** Every register file has a level, whatever it holds. */
  function LevelUpTo(rules: RuleTable, n: nat): (t: nat)
    requires n <= |rules|
    ensures t <= n && (forall i | t <= i < n :: rules[i].None?) && (t > 0 ==> rules[t - 1].Some?)
  {
    if n == 0 then 0 else if rules[n - 1].Some? then n else LevelUpTo(rules, n - 1)
  }

  function LevelOf(r: RegFile): (t: nat)
    ensures Level(r, t)
  {
    LevelUpTo(r.rules, |r.rules|)
  }

  /** A configured rule is an enabled one. */
  lemma WrittenRule(r: RegFile, rules: seq<Rule>, i: nat)
    requires RulesWritten(r, rules, |rules|) && i < |rules|
    ensures r.rules[i].Some?
  {
    assert Num32(RuleWord(rules[i])) >= VALID;
  }

  lemma LevelCovers(r: RegFile, rules: seq<Rule>, t: nat)
    requires RulesWritten(r, rules, |rules|) && Level(r, t)
    ensures |rules| <= t
  {
    if t < |rules| { WrittenRule(r, rules, |rules| - 1); }
  }

  /** Programming n rules leaves the last enabled slot where it was, or makes it the n-th. */
  lemma LevelAfter(r0: RegFile, r1: RegFile, rules: seq<Rule>, t: nat)
    requires Sized(r0) && Level(r0, t) && RulesWritten(r1, rules, |rules|) && SameFrom(r0, r1, |rules|)
    ensures Level(r1, Max(t, |rules|))
  {
    if t <= |rules| && rules != [] { WrittenRule(r1, rules, |rules| - 1); }
  }

  /** The table is the program's exactly when the enabled slots do not reach beyond its rules. */
  lemma LevelExact(r: RegFile, cp: CardTables, t: nat)
    requires WellFormed(cp) && TablesHold(r, cp) && Level(r, t)
    ensures NoneFrom(r, |cp.rules|) <==> t <= |cp.rules|
    ensures r.rules == RuleTableOf(cp.rules) <==> t <= |cp.rules|
  {
    RuleTableExact(r, cp);
    if |cp.rules| < t { assert r.rules[t - 1].Some?; }
  }

  /** Comparators left over from earlier programs never reach a rule of the program. */
  lemma ProgrammedHit(r: RegFile, cp: CardTables, k: MatchKey, i: nat)
    requires WellFormed(cp) && TablesHold(r, cp) && i < |cp.rules|
    ensures RuleHit(r.cmps, r.udfs, r.rules, k, i) <==> RuleHit(cp.cmps, cp.udfs, RuleTableOf(cp.rules), k, i)
  {
    ProgrammedPool(r, cp);
    ProgrammedRule(r, cp, i);
    CareHitStable(cp.cmps, cp.udfs, r.cmps, r.udfs, cp.rules[i].care, k);
  }

  lemma ProgrammedRules(r: RegFile, cp: CardTables, k: MatchKey)
    requires WellFormed(cp) && TablesHold(r, cp) && NoneFrom(r, |cp.rules|)
    ensures CardRule(r, k) == Classify(cp.cmps, cp.udfs, RuleTableOf(cp.rules), k)
  {
    var t := RuleTableOf(cp.rules);
    RuleTableExact(r, cp);
    forall i | 0 <= i < NUM_RULE
      ensures RuleHit(r.cmps, r.udfs, r.rules, k, i) == RuleHit(cp.cmps, cp.udfs, t, k, i)
    {
      if i < |cp.rules| { ProgrammedHit(r, cp, k, i); }
    }
    BestAgrees(r.cmps, r.udfs, r.rules, cp.cmps, cp.udfs, t, k, NUM_RULE);
  }

  lemma {:induction false} MapWordIs(maps: seq<MapEntry>, id: nat)
    requires forall i | 0 <= i < |maps| :: maps[i].localId < VALID
    ensures var n := Num32(MapWord(maps, id));
            MapFind(maps, id) == if n < VALID then None else Some(n - VALID)
  {
    if maps != [] && maps[|maps| - 1].flowId != id { MapWordIs(maps[..|maps| - 1], id); }
  }

  /** What the flow-id map answers for a frame. */
  function MapAnswer(maps: seq<MapEntry>, k: MatchKey): Option<u32> {
    if k.isTest && Num32(k.testFlowId) < MAP_DEPTH then MapFind(maps, Num32(k.testFlowId)) else None
  }

  lemma ProgrammedMap(r: RegFile, cp: CardTables, k: MatchKey)
    requires WellFormed(cp) && TablesHold(r, cp)
    ensures CardMap(r, k) == MapAnswer(cp.maps, k)
  {
    var id := Num32(k.testFlowId);
    if id < MAP_DEPTH {
      MapWordIs(cp.maps, id);
      assert r.maps[id] == MapWord(cp.maps, id);
    }
  }

  /** What a search of the program's hash entries answers for a frame. */
  function HashAnswer(cp: CardTables, k: MatchKey): Option<u32> {
    Search(cp.hashEntries, Masked(Assemble(k), cp.hashMask))
  }

  lemma ValidBucket(key: KeyWords, localId: u32)
    requires localId < VALID
    ensures BucketOf(key, ValidWord(localId)) == Some(Bucket(key, localId))
  {}

  lemma BucketsAreEntries(r: RegFile, cp: CardTables)
    requires WellFormed(cp) && BucketsWritten(r, cp.hashEntries)
    ensures BucketsHold(r.buckets, cp.hashEntries)
  {
    var es := cp.hashEntries;
    forall i | 0 <= i < |es| ensures r.buckets[es[i].index] == Some(Bucket(es[i].key, es[i].localId)) {
      assert EntryWritten(r, es[i]);
      ValidBucket(es[i].key, es[i].localId);
    }
    forall b | 0 <= b < HASH_DEPTH && r.buckets[b].Some? ensures exists i | 0 <= i < |es| :: es[i].index == b {
      assert !Unused(es, b);
    }
  }

  lemma ProgrammedHash(r: RegFile, cp: CardTables, k: MatchKey)
    requires WellFormed(cp) && TablesHold(r, cp) && WellPlaced(cp.hashEntries, cp.hashSeed)
    ensures CardHash(r, k) == HashAnswer(cp, k)
  {
    BucketsAreEntries(r, cp);
    ProbeIsSearch(r.buckets, cp.hashEntries, r.mask, Num32(r.seed), Assemble(k));
  }

  /**
   A programmed card sends every frame where the program says by hash and by flow id, and runs
   exactly the program's generators. Neither side mentions what the card held before: stale
   comparators, mask and seed and the keys of invalid buckets have no influence. Its rule path
   is the program's too if no slot beyond the program's rules is enabled.
   */
  lemma ProgrammedBehaves(r: RegFile, live: seq<Row>, cp: CardTables, k: MatchKey, row: nat)
    requires WellFormed(cp) && WellPlaced(cp.hashEntries, cp.hashSeed) && Programmed(r, live, cp)
    ensures CardHash(r, k) == HashAnswer(cp, k)
    ensures CardMap(r, k) == MapAnswer(cp.maps, k)
    ensures row < |live| && Active(live[row]) <==> row < |cp.rows| && Active(cp.rows[row])
    ensures NoneFrom(r, |cp.rules|) ==> CardRule(r, k) == Classify(cp.cmps, cp.udfs, RuleTableOf(cp.rules), k)
  {
    ProgrammedHash(r, cp, k);
    ProgrammedMap(r, cp, k);
    if NoneFrom(r, |cp.rules|) { ProgrammedRules(r, cp, k); }
  }

  /**
   Two cards given the same program cannot be told apart by any frame through hash, map or
   generators, whatever they held before; their rule tables are equal exactly when they had
   the same rules in the slots beyond the program.
   */
  lemma StateIndependent(a0: RegFile, a: RegFile, liveA: seq<Row>, b0: RegFile, b: RegFile, liveB: seq<Row>,
                         cp: CardTables, k: MatchKey, row: nat)
    requires WellFormed(cp) && WellPlaced(cp.hashEntries, cp.hashSeed)
    requires Programmed(a, liveA, cp) && Programmed(b, liveB, cp)
    requires SameFrom(a0, a, |cp.rules|) && SameFrom(b0, b, |cp.rules|)
    ensures CardHash(a, k) == CardHash(b, k) && CardMap(a, k) == CardMap(b, k)
    ensures row < |liveA| && Active(liveA[row]) <==> row < |liveB| && Active(liveB[row])
    ensures a.rules == b.rules <==> SameFrom(a0, b0, |cp.rules|)
    ensures NoneFrom(a0, |cp.rules|) && NoneFrom(b0, |cp.rules|) ==> CardRule(a, k) == CardRule(b, k)
  {
    ProgrammedBehaves(a, liveA, cp, k, row);
    ProgrammedBehaves(b, liveB, cp, k, row);
    TailsDecide(a0, a, b0, b, cp);
  }

  lemma TailsDecide(a0: RegFile, a: RegFile, b0: RegFile, b: RegFile, cp: CardTables)
    requires WellFormed(cp) && TablesHold(a, cp) && TablesHold(b, cp)
    requires SameFrom(a0, a, |cp.rules|) && SameFrom(b0, b, |cp.rules|)
    ensures a.rules == b.rules <==> SameFrom(a0, b0, |cp.rules|)
    ensures NoneFrom(a0, |cp.rules|) ==> NoneFrom(a, |cp.rules|)
    ensures NoneFrom(b0, |cp.rules|) ==> NoneFrom(b, |cp.rules|)
  {
    var n := |cp.rules|;
    forall i | 0 <= i < n ensures a.rules[i] == b.rules[i] {
      ProgrammedRule(a, cp, i);
      ProgrammedRule(b, cp, i);
    }
    if a.rules == b.rules {
      forall i | n <= i < NUM_RULE ensures b0.rules[i] == a0.rules[i] {
        assert a.rules[i] == a0.rules[i] && b.rules[i] == b0.rules[i];
      }
    }
    if SameFrom(a0, b0, n) {
      forall i | 0 <= i < NUM_RULE ensures a.rules[i] == b.rules[i] {
        if n <= i { assert a.rules[i] == a0.rules[i] && b.rules[i] == b0.rules[i]; }
      }
    }
  }

  /**
   In general the rule path after reprogramming is that of the program's rules followed by the
   slots it left alone, over the program's comparators followed by those it left alone.
   */
  lemma RulePathAfter(r0: RegFile, r1: RegFile, cp: CardTables, k: MatchKey)
    requires WellFormed(cp) && TablesHold(r1, cp) && LeftAlone(r0, r1, cp)
    ensures CardRule(r1, k) == Classify(cp.cmps + r0.cmps[|cp.cmps|..], cp.udfs + r0.udfs[|cp.udfs|..],
                                        RuleTableOf(cp.rules)[..|cp.rules|] + r0.rules[|cp.rules|..], k)
  {
    ProgrammedPool(r1, cp);
    forall i | 0 <= i < |cp.rules| ensures r1.rules[i] == RuleTableOf(cp.rules)[i] { ProgrammedRule(r1, cp, i); }
    assert r1.rules == RuleTableOf(cp.rules)[..|cp.rules|] + r0.rules[|cp.rules|..];
    assert r1.cmps == cp.cmps + r0.cmps[|cp.cmps|..] && r1.udfs == cp.udfs + r0.udfs[|cp.udfs|..];
  }

  // ---- a rule that outlives its configuration ---------------------------------------------------

  const NO_KEY: KeyWords := [ZERO_WORD, ZERO_WORD, ZERO_WORD, ZERO_WORD, ZERO_WORD, ZERO_WORD, ZERO_WORD, ZERO_WORD,
                             ZERO_WORD, ZERO_WORD, ZERO_WORD]

  /** The tables of a card that punts ARP from port 0 to logical interface 7, and of one with nothing configured. */
  const ARP_RULE := Rule({0, 1}, ACT_PUNT, 0, ZERO_WORD, Word32(7), 20)
  const ARP_ONLY := CardTables(1, [], [], [PortCond(0).c, EthCond([0x08, 0x06]).c], [], [ARP_RULE], 0, NO_KEY, [])
  const NOTHING := CardTables(1, [], [], [], [], [], 0, NO_KEY, [])

  /** After the card is reprogrammed with nothing, it still punts every ARP frame from port 0. */
  lemma StillPunts(r0: RegFile, r1: RegFile, k: MatchKey)
    requires TablesHold(r0, ARP_ONLY) && NoneFrom(r0, 1)
    requires TablesHold(r1, NOTHING) && LeftAlone(r0, r1, NOTHING)
    requires k.valid && k.ingress == 0 && k.ethertype == [0x08, 0x06]
    ensures CardAction(r1, k) == ByRule(0) && r1.rules[0] == Some(ARP_RULE)
  {
    ArpTables(r0);
    ArpHits(r1, k);
    OnlyRuleWins(r1, k);
    NothingCounted(r1, k);
  }

  /** With no flows configured no frame is counted. */
  lemma NothingCounted(r: RegFile, k: MatchKey)
    requires TablesHold(r, NOTHING)
    ensures CardMap(r, k) == None && CardHash(r, k) == None
  {
    ProgrammedMap(r, NOTHING, k);
    assert MapFind([], Num32(k.testFlowId)) == None;
    ProgrammedHash(r, NOTHING, k);
  }

  lemma ArpTables(r: RegFile)
    requires TablesHold(r, ARP_ONLY)
    ensures r.rules[0] == Some(ARP_RULE) && r.cmps[0] == PortCond(0).c && r.cmps[1] == EthCond([0x08, 0x06]).c
  {
    ArpWord();
    assert ARP_ONLY.rules[0] == ARP_RULE;
  }

  lemma ArpWord()
    ensures RuleOf(RuleWord(ARP_RULE), ARP_RULE.lfid, ARP_RULE.lif) == Some(ARP_RULE)
  {
    forall j | j in ARP_RULE.care ensures j < NUM_BITS {}
    RuleWordRound(ARP_RULE);
  }

  lemma ArpHits(r: RegFile, k: MatchKey)
    requires Sized(r) && r.rules[0] == Some(ARP_RULE)
    requires r.cmps[0] == PortCond(0).c && r.cmps[1] == EthCond([0x08, 0x06]).c
    requires k.valid && k.ingress == 0 && k.ethertype == [0x08, 0x06]
    ensures RuleHit(r.cmps, r.udfs, r.rules, k, 0)
  {
    PortCondMeans(k, 0);
    FieldCondMeans(k, [0x08, 0x06], 0);
    forall i | i in ARP_RULE.care ensures BitHit(r.cmps, r.udfs, i, k) {}
  }

  lemma OnlyRuleWins(r: RegFile, k: MatchKey)
    requires Sized(r) && RuleHit(r.cmps, r.udfs, r.rules, k, 0) && NoneFrom(r, 1)
    ensures CardRule(r, k) == Some(0)
  {}
}
