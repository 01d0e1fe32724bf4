/**
 The card's packet classification, as the hardware performs it: the field/UDF comparator
 bank with its priority rules, the hash exact table and the flow-id map.
 */
module Classifier {
  import opened Basics
  import opened Config

  const NUM_CMP := 12
  const NUM_UDF := 2
  const NUM_RULE := 32
  const NUM_BITS := NUM_CMP + NUM_UDF
  const HASH_DEPTH := 128
  const KEY_WORDS := 11
  const MAP_DEPTH := 256
  /** Bytes of header the parser captures. */
  const HDR_BYTES := 176

  type u4 = x: int | 0 <= x < 16

  /** What the parser extracts from one frame. */
  datatype MatchKey = MatchKey(
    valid: bool, ingress: u4,
    vlanValid: bool, vlanId: Half, innerVlan: bool, ethertype: Half,
    isArp: bool, isIpv4: bool, isIpv6: bool,
    isTcp: bool, isUdp: bool, isIcmp: bool, isIcmp6: bool, isOspf: bool, isTest: bool,
    l3Proto: u8, ipv4Src: Word, ipv4Dst: Word, ipv6Src: Addr6, ipv6Dst: Addr6,
    l4Src: Half, l4Dst: Half, testFlowId: Word,
    window: Bytes, base: u16)

  // Comparator source selectors.
  const SRC_L4_DST: u8 := 0
  const SRC_L4_SRC: u8 := 1
  const SRC_IPV6_DST_3: u8 := 4
  const SRC_IPV6_DST_2: u8 := 5
  const SRC_IPV6_DST_1: u8 := 6
  const SRC_IPV6_DST_0: u8 := 7
  const SRC_ETHERTYPE: u8 := 8
  const SRC_L3_PROTO: u8 := 9
  const SRC_VLAN: u8 := 10
  const SRC_FLAGS: u8 := 12
  const SRC_INGRESS: u8 := 13
  const SRC_IPV6_SRC_0: u8 := 14
  const SRC_IPV6_SRC_3: u8 := 15
  const SRC_IPV6_SRC_1: u8 := 16
  const SRC_IPV6_SRC_2: u8 := 17
  const FLAG_IS_IPV6: Word := [0, 0, 0, 0x8]

  // Classifier actions.
  const ACT_PUNT: u8 := 2
  const ACT_FORWARD: u8 := 4

  const ZERO_WORD: Word := [0, 0, 0, 0]
  const ZERO_ADDR: Addr6 := [0, 0, 0, 0, 0, 0, 0, 0, 0, 0, 0, 0, 0, 0, 0, 0]

  /** The first four bytes of a test header. */
  const TEST_MAGIC: Word := [0xA5, 0x02, 0x7E, 0x57]

  /** 32-bit word w of an address, w = 0 being bytes 0..3 (bits 127..96). */
  function AddrWord(a: Addr6, w: nat): Word
    requires w < 4
  {
    a[4 * w..4 * w + 4]
  }

  function Flag(b: bool, bit: u8): int { if b then bit else 0 }

  function FlagsLow(k: MatchKey): u8 {
    Flag(k.isTest, 0x1) + Flag(k.isArp, 0x2) + Flag(k.isIpv4, 0x4) + Flag(k.isIpv6, 0x8)
    + Flag(k.isTcp, 0x10) + Flag(k.isUdp, 0x20) + Flag(k.isIcmp, 0x40) + Flag(k.isIcmp6, 0x80)
  }

  function FlagsHigh(k: MatchKey): u8 {
    Flag(k.isOspf, 0x1) + Flag(k.vlanValid, 0x2) + Flag(k.valid, 0x4)
  }

  /** {0, inner_vlan_valid, vlan_id[11:0]} in 16 bits. */
  function VlanLane(k: MatchKey): Half {
    [k.vlanId[0] % 16 + Flag(k.innerVlan, 0x10), k.vlanId[1]]
  }

  /** src_lane: the 32-bit value a field comparator sees for selector sel. */
  function Lane(k: MatchKey, sel: u8): Word {
    match sel
    case 0 => [0, 0] + k.l4Dst
    case 1 => [0, 0] + k.l4Src
    case 2 => k.ipv4Dst
    case 3 => k.ipv4Src
    case 4 => AddrWord(k.ipv6Dst, 0)
    case 5 => AddrWord(k.ipv6Dst, 1)
    case 6 => AddrWord(k.ipv6Dst, 2)
    case 7 => AddrWord(k.ipv6Dst, 3)
    case 8 => [0, 0] + k.ethertype
    case 9 => [0, 0, 0, k.l3Proto]
    case 10 => [0, 0] + VlanLane(k)
    case 11 => k.testFlowId
    case 12 => [0, 0, FlagsHigh(k), FlagsLow(k)]
    case 13 => [0, 0, 0, k.ingress]
    case 14 => AddrWord(k.ipv6Src, 3)
    case 15 => AddrWord(k.ipv6Src, 0)
    case 16 => AddrWord(k.ipv6Src, 2)
    case 17 => AddrWord(k.ipv6Src, 1)
    case _ => ZERO_WORD
  }

  /** One captured byte; anything outside the captured window reads as 0. */
  function WindowByte(k: MatchKey, off: nat): u8 {
    var b := off % 0x1_0000;
    if b < HDR_BYTES && b < |k.window| then k.window[b] else 0
  }

  function UdfLane(k: MatchKey, offset: u16): Word {
    var o := k.base + offset;
    [WindowByte(k, o), WindowByte(k, o + 1), WindowByte(k, o + 2), WindowByte(k, o + 3)]
  }

  datatype Cmp = Cmp(src: u8, mask: Word, value: Word)
  datatype Udf = Udf(offset: u16, mask: Word, value: Word)

  predicate CmpHit(c: Cmp, k: MatchKey) { MaskEq(Lane(k, c.src), c.mask, c.value) }
  predicate UdfHit(u: Udf, k: MatchKey) { MaskEq(UdfLane(k, u.offset), u.mask, u.value) }

  /**
   A rule. `care` is the 14-bit mask of comparator bits as the set of its bit positions:
   bit i < 12 is field comparator i, bit 12 + j is UDF comparator j.
   */
  datatype Rule = Rule(care: set<nat>, action: u8, egress: u8, lfid: Word, lif: Word, prio: u8)

  /** Every comparator bit the rule cares about is a comparator of this pool, and it matches. */
  predicate CareHit(cmps: seq<Cmp>, udfs: seq<Udf>, care: set<nat>, k: MatchKey) {
    forall i | i in care :: BitHit(cmps, udfs, i, k)
  }

  predicate BitHit(cmps: seq<Cmp>, udfs: seq<Udf>, i: nat, k: MatchKey) {
    if i < NUM_CMP then i < |cmps| && CmpHit(cmps[i], k)
    else i - NUM_CMP < |udfs| && UdfHit(udfs[i - NUM_CMP], k)
  }

  /** The comparator bits that name a comparator present in the pool. */
  predicate BitInPool(cmps: seq<Cmp>, udfs: seq<Udf>, i: nat) {
    if i < NUM_CMP then i < |cmps| else i - NUM_CMP < |udfs|
  }

  predicate CareInPool(cmps: seq<Cmp>, udfs: seq<Udf>, care: set<nat>) {
    forall i | i in care :: BitInPool(cmps, udfs, i)
  }

  /** The rule table as the priority stage sees it: None is a disabled slot. */
  type RuleTable = seq<Option<Rule>>

  predicate RuleHit(cmps: seq<Cmp>, udfs: seq<Udf>, rules: RuleTable, k: MatchKey, i: nat) {
    k.valid && i < |rules| && rules[i].Some? && CareHit(cmps, udfs, rules[i].value.care, k)
  }

  /** Rule j is preferred to rule i: lower priority number, ties to the lower index. */
  predicate Beats(rules: RuleTable, j: nat, i: nat)
    requires j < |rules| && i < |rules| && rules[j].Some? && rules[i].Some?
  {
    rules[j].value.prio < rules[i].value.prio
    || (rules[j].value.prio == rules[i].value.prio && j < i)
  }

  /** The hardware's winner: it hits and no other hitting rule beats it. */
  predicate IsWinner(cmps: seq<Cmp>, udfs: seq<Udf>, rules: RuleTable, k: MatchKey, i: nat) {
    && RuleHit(cmps, udfs, rules, k, i)
    && forall j | 0 <= j < |rules| && j != i && RuleHit(cmps, udfs, rules, k, j) :: !Beats(rules, j, i)
  }

  /** The best hitting rule among the first n, by one scan. */
  function Best(cmps: seq<Cmp>, udfs: seq<Udf>, rules: RuleTable, k: MatchKey, n: nat): (r: Option<nat>)
    requires n <= |rules|
    ensures r.Some? ==> r.value < n && RuleHit(cmps, udfs, rules, k, r.value)
    ensures r.Some? ==> forall j | 0 <= j < n && j != r.value && RuleHit(cmps, udfs, rules, k, j) ::
              !Beats(rules, j, r.value)
    ensures r.None? ==> forall j | 0 <= j < n :: !RuleHit(cmps, udfs, rules, k, j)
  {
    if n == 0 then None
    else
      var b := Best(cmps, udfs, rules, k, n - 1);
      if !RuleHit(cmps, udfs, rules, k, n - 1) then b
      else if b.None? || Beats(rules, n - 1, b.value) then Some(n - 1)
      else b
  }

  /** At most one rule wins, so the scan and the hardware's all-pairs comparison agree. */
  lemma WinnerUnique(cmps: seq<Cmp>, udfs: seq<Udf>, rules: RuleTable, k: MatchKey, i: nat, j: nat)
    requires IsWinner(cmps, udfs, rules, k, i) && IsWinner(cmps, udfs, rules, k, j)
    ensures i == j
  {}

  function Classify(cmps: seq<Cmp>, udfs: seq<Udf>, rules: RuleTable, k: MatchKey): (r: Option<nat>)
    ensures r.Some? ==> IsWinner(cmps, udfs, rules, k, r.value)
    ensures r.None? ==> forall i :: !RuleHit(cmps, udfs, rules, k, i)
  {
    Best(cmps, udfs, rules, k, |rules|)
  }

  /** A rule table reacts to a key only through which rules hit and their order. */
  lemma {:induction false} BestAgrees(c0: seq<Cmp>, u0: seq<Udf>, r0: RuleTable,
                                      c1: seq<Cmp>, u1: seq<Udf>, r1: RuleTable, k: MatchKey, n: nat)
    requires n <= |r0| == |r1|
    requires forall i | 0 <= i < n :: RuleHit(c0, u0, r0, k, i) == RuleHit(c1, u1, r1, k, i)
    requires forall i | 0 <= i < n && r0[i].Some? && r1[i].Some? :: r0[i].value.prio == r1[i].value.prio
    ensures Best(c0, u0, r0, k, n) == Best(c1, u1, r1, k, n)
  {
    if n > 0 {
      BestAgrees(c0, u0, r0, c1, u1, r1, k, n - 1);
    }
  }

  /** Adding comparators behind the existing ones never changes what an earlier care mask means. */
  lemma CareHitStable(c0: seq<Cmp>, u0: seq<Udf>, c1: seq<Cmp>, u1: seq<Udf>, care: set<nat>, k: MatchKey)
    requires c0 <= c1 && u0 <= u1 && CareInPool(c0, u0, care)
    ensures CareInPool(c1, u1, care)
    ensures CareHit(c0, u0, care, k) <==> CareHit(c1, u1, care, k)
  {
    forall i | i in care
      ensures BitInPool(c1, u1, i) && BitHit(c0, u0, i, k) == BitHit(c1, u1, i, k)
    {
      assert BitInPool(c0, u0, i);
    }
  }

  // ---- hash exact table -------------------------------------------------------

  type KeyWords = w: seq<Word> | |w| == KEY_WORDS
    witness [ZERO_WORD, ZERO_WORD, ZERO_WORD, ZERO_WORD, ZERO_WORD, ZERO_WORD, ZERO_WORD, ZERO_WORD, ZERO_WORD,
             ZERO_WORD, ZERO_WORD]

  /** The four address words of the key, lowest 32 bits first; an IPv4 address fills only the first. */
  function AddrKey(v6: bool, a4: Word, a6: Addr6): seq<Word> {
    if v6 then [AddrWord(a6, 3), AddrWord(a6, 2), AddrWord(a6, 1), AddrWord(a6, 0)]
    else [a4, ZERO_WORD, ZERO_WORD, ZERO_WORD]
  }

  /** assemble: the 11 key words of a frame. */
  function Assemble(k: MatchKey): KeyWords {
    AddrKey(k.isIpv6, k.ipv4Dst, k.ipv6Dst) + AddrKey(k.isIpv6, k.ipv4Src, k.ipv6Src)
    + [k.l4Src + k.l4Dst, VlanLane(k) + k.ethertype, [0, 0, 0, k.l3Proto]]
  }

  function Masked(w: KeyWords, mask: KeyWords): (r: KeyWords)
    ensures forall i | 0 <= i < KEY_WORDS :: r[i] == AndAll(w[i], mask[i])
  {
    seq(KEY_WORDS, i requires 0 <= i < KEY_WORDS => AndAll(w[i], mask[i]))
  }

  /** XOR-fold of the first n words. */
  function Fold(w: seq<Word>, n: nat): nat
    requires n <= |w|
  {
    if n == 0 then 0 else Xor(Fold(w, n - 1), Num32(w[n - 1]))
  }

  /** Multiply-shift of the XOR-folded key: the top 7 bits of the 32-bit product. */
  function HashIndex(w: KeyWords, seed: u32): (r: nat)
    ensures r < HASH_DEPTH
  {
    Fold(w, KEY_WORDS) * Or(seed, 1) % 0x1_0000_0000 / 0x200_0000
  }

  datatype Bucket = Bucket(key: KeyWords, lfid: u32)

  /** One probe: mask, hash to one bucket, compare the full key. */
  function Probe(buckets: seq<Option<Bucket>>, mask: KeyWords, seed: u32, w: KeyWords): (r: Option<u32>)
    requires |buckets| == HASH_DEPTH
  {
    var m := Masked(w, mask);
    var b := buckets[HashIndex(m, seed)];
    if b.Some? && b.value.key == m then Some(b.value.lfid) else None
  }
}
