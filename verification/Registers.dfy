/**
 The register windows a card's classification tables are written through, as the register
 file decodes them: which words only stage a value, and which one commits the entry.
 */
module Registers {
  import opened Basics
  import opened Classifier

  // Word addresses of the register windows.
  const MAP_W := 0x100
  const CMP_W := 0x800
  const UDF_W := 0x840
  const RULE_W := 0x880
  const RULE_END := RULE_W + 4 * NUM_RULE
  const MASK_W := 0xBC0
  const SEED_W := 0xBFF
  const HASH_W := 0xC00
  const HASH_END := HASH_W + 16 * HASH_DEPTH
  /** Words in the 64 KB register window. */
  const REG_WORDS := 0x4000

  const VALID := 0x8000_0000

  // ---- register packing -----------------------------------------------------------------

  /** The care mask as a number: bit i for every i < n in the set. */
  function CareNum(care: set<nat>, n: nat): (r: nat)
    ensures r < Pow2(n)
  {
    if n == 0 then 0 else CareNum(care, n - 1) + if n - 1 in care then Pow2(n - 1) else 0
  }

  /** PWFPGA_FC_RULE_W0 of an enabled rule. */
  function RuleWord(r: Rule): Word {
    assert Pow2(14) == 0x4000;
    Word32(CareNum(r.care, NUM_BITS) + 0x4000 * (r.action % 8) + 0x2_0000 * (r.egress % 16)
           + 0x20_0000 * r.prio + VALID)
  }

  /** A valid map or hash control word: the valid bit ORed onto the local id. */
  function ValidWord(localId: u32): Word { Word32(if localId < VALID then VALID + localId else localId) }

  function BitsOf(n: nat): set<nat> { set i: nat | i < NUM_BITS && HasBit(n, i) }

  /** The rule that three words describe: None when the enable bit is clear. */
  function RuleOf(head: Word, lfid: Word, lif: Word): Option<Rule> {
    var n := Num32(head);
    if n / VALID == 0 then None
    else Some(Rule(BitsOf(n % 0x4000), n / 0x4000 % 8, n / 0x2_0000 % 16, lfid, lif, n / 0x20_0000 % 256))
  }

  function BucketOf(key: KeyWords, ctrl: Word): Option<Bucket> {
    if Num32(ctrl) < VALID then None else Some(Bucket(key, Num32(ctrl) - VALID))
  }

  // ---- the register file ------------------------------------------------------------------

  /**
   The committed tables, and the accumulators their windows share: the first two words of a
   comparator, UDF or rule and the key words of a bucket are staged, the last word commits.
   */
  datatype RegFile = RegFile(
    maps: seq<Word>,
    cmpSrc: u8, cmpMask: Word, cmps: seq<Cmp>,
    udfOffset: u16, udfMask: Word, udfs: seq<Udf>,
    ruleHead: Word, ruleLfid: Word, rules: RuleTable,
    mask: KeyWords, seed: Word, hashKey: KeyWords, buckets: seq<Option<Bucket>>)

  predicate Sized(r: RegFile) {
    && |r.maps| == MAP_DEPTH && |r.cmps| == NUM_CMP && |r.udfs| == NUM_UDF
    && |r.rules| == NUM_RULE && |r.buckets| == HASH_DEPTH
  }

  function PokeCmp(r: RegFile, i: nat, sub: nat, v: Word): RegFile
    requires Sized(r) && i < NUM_CMP
  {
    if sub == 0 then r.(cmpSrc := v[3] % 32)
    else if sub == 1 then r.(cmpMask := v)
    else if sub == 2 then r.(cmps := r.cmps[i := Cmp(r.cmpSrc, r.cmpMask, v)])
    else r
  }

  function PokeUdf(r: RegFile, i: nat, sub: nat, v: Word): RegFile
    requires Sized(r) && i < NUM_UDF
  {
    if sub == 0 then r.(udfOffset := Num16(v[2..]))
    else if sub == 1 then r.(udfMask := v)
    else if sub == 2 then r.(udfs := r.udfs[i := Udf(r.udfOffset, r.udfMask, v)])
    else r
  }

  function PokeRule(r: RegFile, i: nat, sub: nat, v: Word): RegFile
    requires Sized(r) && i < NUM_RULE
  {
    if sub == 0 then r.(ruleHead := v)
    else if sub == 1 then r.(ruleLfid := v)
    else if sub == 2 then r.(rules := r.rules[i := RuleOf(r.ruleHead, r.ruleLfid, v)])
    else r
  }

  function PokeHash(r: RegFile, b: nat, sub: nat, v: Word): RegFile
    requires Sized(r) && b < HASH_DEPTH
  {
    if sub < KEY_WORDS then r.(hashKey := r.hashKey[sub := v])
    else if sub == KEY_WORDS then r.(buckets := r.buckets[b := BucketOf(r.hashKey, v)])
    else r
  }

  /** One 32-bit write to word w. */
  function Poke(r: RegFile, w: nat, v: Word): (r': RegFile)
    requires Sized(r)
    ensures Sized(r')
    ensures w < MAP_W || HASH_END <= w ==> r' == r
  {
    if MAP_W <= w < MAP_W + MAP_DEPTH then r.(maps := r.maps[w - MAP_W := v])
    else if CMP_W <= w < CMP_W + 4 * NUM_CMP then PokeCmp(r, (w - CMP_W) / 4, (w - CMP_W) % 4, v)
    else if UDF_W <= w < UDF_W + 4 * NUM_UDF then PokeUdf(r, (w - UDF_W) / 4, (w - UDF_W) % 4, v)
    else if RULE_W <= w < RULE_END then PokeRule(r, (w - RULE_W) / 4, (w - RULE_W) % 4, v)
    else if MASK_W <= w < MASK_W + KEY_WORDS then r.(mask := r.mask[w - MASK_W := v])
    else if w == SEED_W then r.(seed := v)
    else if HASH_W <= w < HASH_END then PokeHash(r, (w - HASH_W) / 16, (w - HASH_W) % 16, v)
    else r
  }

  /** Which entry a word of a window belongs to. */
  lemma PokesCmp(r: RegFile, i: nat, sub: nat, v: Word)
    requires Sized(r) && i < NUM_CMP && sub < 4
    ensures Poke(r, CMP_W + 4 * i + sub, v) == PokeCmp(r, i, sub, v)
  {}

  lemma PokesHash(r: RegFile, b: nat, sub: nat, v: Word)
    requires Sized(r) && b < HASH_DEPTH && sub < 16
    ensures Poke(r, HASH_W + 16 * b + sub, v) == PokeHash(r, b, sub, v)
  {}

  lemma PokesUdf(r: RegFile, i: nat, sub: nat, v: Word)
    requires Sized(r) && i < NUM_UDF && sub < 4
    ensures Poke(r, UDF_W + 4 * i + sub, v) == PokeUdf(r, i, sub, v)
  {}

  lemma PokesRule(r: RegFile, i: nat, sub: nat, v: Word)
    requires Sized(r) && i < NUM_RULE && sub < 4
    ensures Poke(r, RULE_W + 4 * i + sub, v) == PokeRule(r, i, sub, v)
  {}

  /** Three words from w on. */
  function Poke3(r: RegFile, w: nat, a: Word, b: Word, c: Word): RegFile
    requires Sized(r)
  {
    Poke(Poke(Poke(r, w, a), w + 1, b), w + 2, c)
  }

  /** An offset in the low half of a word. */
  function OffsetWord(n: u16): (w: Word)
    ensures Num16(w[2..]) == n
  {
    var w := [0, 0] + Half16(n);
    assert w[2..] == Half16(n);
    w
  }

  /** Three writes store one comparator or UDF; three writes commit one rule. */
  lemma CmpThrice(r: RegFile, i: nat, s: Word, m: Word, v: Word)
    requires Sized(r) && i < NUM_CMP
    ensures Poke3(r, CMP_W + 4 * i, s, m, v)
         == r.(cmpSrc := s[3] % 32, cmpMask := m, cmps := r.cmps[i := Cmp(s[3] % 32, m, v)])
  {
    PokesCmp(r, i, 0, s);
    var r1 := PokeCmp(r, i, 0, s);
    PokesCmp(r1, i, 1, m);
    PokesCmp(PokeCmp(r1, i, 1, m), i, 2, v);
  }

  lemma UdfThrice(r: RegFile, i: nat, o: Word, m: Word, v: Word)
    requires Sized(r) && i < NUM_UDF
    ensures Poke3(r, UDF_W + 4 * i, o, m, v)
         == r.(udfOffset := Num16(o[2..]), udfMask := m, udfs := r.udfs[i := Udf(Num16(o[2..]), m, v)])
  {
    PokesUdf(r, i, 0, o);
    var r1 := PokeUdf(r, i, 0, o);
    PokesUdf(r1, i, 1, m);
    PokesUdf(PokeUdf(r1, i, 1, m), i, 2, v);
  }

  lemma RuleThrice(r: RegFile, i: nat, h: Word, l: Word, v: Word)
    requires Sized(r) && i < NUM_RULE
    ensures Poke3(r, RULE_W + 4 * i, h, l, v)
         == r.(ruleHead := h, ruleLfid := l, rules := r.rules[i := RuleOf(h, l, v)])
    ensures Poke(Poke(r, RULE_W + 4 * i, h), RULE_W + 4 * i + 1, l).rules == r.rules
  {
    PokesRule(r, i, 0, h);
    var r1 := PokeRule(r, i, 0, h);
    PokesRule(r1, i, 1, l);
    PokesRule(PokeRule(r1, i, 1, l), i, 2, v);
  }

  // ---- classification -----------------------------------------------------------------------

  /** The three classification paths of the data plane, for a frame key. */
  function CardRule(r: RegFile, k: MatchKey): Option<nat> { Classify(r.cmps, r.udfs, r.rules, k) }

  function CardHash(r: RegFile, k: MatchKey): Option<u32>
    requires Sized(r)
  {
    Probe(r.buckets, r.mask, Num32(r.seed), Assemble(k))
  }

  function CardMap(r: RegFile, k: MatchKey): Option<u32>
    requires Sized(r)
  {
    var id := Num32(k.testFlowId);
    if !k.isTest || id >= MAP_DEPTH || Num32(r.maps[id]) < VALID then None
    else Some(Num32(r.maps[id]) - VALID)
  }

  /** What the data plane does with a frame: count it in a checker slot, apply a rule, or nothing. */
  datatype Action = TestRx(slot: u32) | ByRule(rule: nat) | NoMatch

  /** The stage that combines the three: the flow-id map comes before the hash table, and that before the rules. */
  function CardAction(r: RegFile, k: MatchKey): Action
    requires Sized(r)
  {
    if CardMap(r, k).Some? then TestRx(CardMap(r, k).value)
    else if CardHash(r, k).Some? then TestRx(CardHash(r, k).value)
    else if CardRule(r, k).Some? then ByRule(CardRule(r, k).value)
    else NoMatch
  }

  /** ... and what that comes to: the frame is counted, punted to a logical interface, forwarded, or neither. */
  datatype Effect = Counted(slot: u32) | Punted(lif: Word) | Forwarded(port: nat) | Ignored

  function CardEffect(r: RegFile, k: MatchKey): Effect
    requires Sized(r)
  {
    var a := CardAction(r, k);
    if a.TestRx? then Counted(a.slot)
    else if a.NoMatch? || a.rule >= NUM_RULE || r.rules[a.rule].None? then Ignored
    else
      var rule := r.rules[a.rule].value;
      if rule.action == ACT_PUNT then Punted(rule.lif)
      else if rule.action == ACT_FORWARD then Forwarded(rule.egress)
      else Ignored
  }

  /** No rule slot from n on is enabled. */
  predicate NoneFrom(r: RegFile, n: nat) { forall i | n <= i < |r.rules| :: r.rules[i].None? }

  /** The comparators from n on, and the UDF comparators from m on, are the same in both. */
  predicate SamePoolFrom(r0: RegFile, r1: RegFile, n: nat, m: nat) {
    && |r0.cmps| == |r1.cmps| && |r0.udfs| == |r1.udfs|
    && (forall i | n <= i < |r0.cmps| :: r1.cmps[i] == r0.cmps[i])
    && (forall i | m <= i < |r0.udfs| :: r1.udfs[i] == r0.udfs[i])
  }

  /** The rule slots from n on are the same in both. */
  predicate SameFrom(r0: RegFile, r1: RegFile, n: nat) {
    |r0.rules| == |r1.rules| && forall i | n <= i < |r0.rules| :: r1.rules[i] == r0.rules[i]
  }
}
