/**
 pw_program_card_tables: the complete write sequence that puts a compiled card program into a
 card's registers and flow table.
 */
module TableWrites {
  import opened Basics
  import opened Classifier
  import opened CardBuilder
  import opened HashKeys
  import opened Registers
  import opened Device

  /** The generator of row r is running. */
  predicate Active(r: Row) { r.enable && r.txEnable }

  // ---- what the program says ----------------------------------------------------------------

  /** The rule as the hardware's field widths keep it. */
  function Clipped(r: Rule): Rule { r.(action := r.action % 8, egress := r.egress % 16) }

  function RuleTableOf(rules: seq<Rule>): (r: RuleTable)
    requires |rules| <= NUM_RULE
    ensures |r| == NUM_RULE
    ensures forall i | 0 <= i < NUM_RULE :: r[i] == if i < |rules| then Some(Clipped(rules[i])) else None
  {
    seq(NUM_RULE, i requires 0 <= i < NUM_RULE => if i < |rules| then Some(Clipped(rules[i])) else None)
  }

  /** The last map entry for this flow id. */
  function MapFind(maps: seq<MapEntry>, id: nat): Option<u32> {
    if maps == [] then None
    else if maps[|maps| - 1].flowId == id then Some(maps[|maps| - 1].localId)
    else MapFind(maps[..|maps| - 1], id)
  }

  /** The counts and indices checked before anything is written. */
  predicate CountsOk(cp: CardTables) {
    && |cp.rows| <= FLOW_TABLE_ROWS && |cp.cmps| <= NUM_CMP && |cp.udfs| <= NUM_UDF && |cp.rules| <= NUM_RULE
    && |cp.hashEntries| <= HASH_DEPTH
    && (forall i | 0 <= i < |cp.maps| :: cp.maps[i].flowId < MAP_DEPTH)
    && (forall i | 0 <= i < |cp.hashEntries| :: cp.hashEntries[i].index < HASH_DEPTH)
  }

  /** No two hash entries share a bucket. */
  predicate DistinctBuckets(es: seq<HashEntry>) {
    forall i, j | 0 <= i < j < |es| :: es[i].index != es[j].index
  }

  /** What the compiler's programs satisfy beyond the checked counts: values within the hardware's fields. */
  predicate WellFormed(cp: CardTables) {
    && CountsOk(cp)
    && (forall i | 0 <= i < |cp.cmps| :: cp.cmps[i].src < 32)
    && (forall i | 0 <= i < |cp.rules| :: CareInPool(cp.cmps, cp.udfs, cp.rules[i].care))
    && (forall i | 0 <= i < |cp.maps| :: cp.maps[i].localId < VALID)
    && (forall i | 0 <= i < |cp.hashEntries| :: cp.hashEntries[i].localId < VALID)
    && DistinctBuckets(cp.hashEntries)
  }

  // ---- the written tables ---------------------------------------------------------------------

  function MapWord(maps: seq<MapEntry>, id: nat): Word {
    if maps == [] then ZERO_WORD
    else if maps[|maps| - 1].flowId == id then ValidWord(maps[|maps| - 1].localId)
    else MapWord(maps[..|maps| - 1], id)
  }

  predicate MapsWritten(r: RegFile, maps: seq<MapEntry>) {
    Sized(r) && forall id | 0 <= id < MAP_DEPTH :: r.maps[id] == MapWord(maps, id)
  }

  predicate CmpsWritten(r: RegFile, cmps: seq<Cmp>, n: nat) {
    && Sized(r) && n <= |cmps| <= NUM_CMP
    && forall i | 0 <= i < n :: r.cmps[i] == Cmp(cmps[i].src % 32, cmps[i].mask, cmps[i].value)
  }

  predicate UdfsWritten(r: RegFile, udfs: seq<Udf>, n: nat) {
    Sized(r) && n <= |udfs| <= NUM_UDF && forall i | 0 <= i < n :: r.udfs[i] == udfs[i]
  }

  /** The first n configured rules are committed. */
  predicate RulesWritten(r: RegFile, rules: seq<Rule>, n: nat) {
    && Sized(r) && n <= |rules| <= NUM_RULE
    && forall i | 0 <= i < n :: r.rules[i] == RuleOf(RuleWord(rules[i]), rules[i].lfid, rules[i].lif)
  }

  /** Bucket of entry e: its key and its local id. */
  predicate EntryWritten(r: RegFile, e: HashEntry) {
    Sized(r) && e.index < HASH_DEPTH && r.buckets[e.index] == BucketOf(e.key, ValidWord(e.localId))
  }

  /** No entry of es lives in bucket b. */
  predicate Unused(es: seq<HashEntry>, b: nat) { forall i | 0 <= i < |es| :: es[i].index != b }

  predicate BucketsWritten(r: RegFile, es: seq<HashEntry>) {
    && Sized(r) && (forall i | 0 <= i < |es| :: EntryWritten(r, es[i]))
    && (forall b | 0 <= b < HASH_DEPTH && Unused(es, b) :: r.buckets[b] == None)
  }

  predicate HashWritten(r: RegFile, cp: CardTables) {
    && BucketsWritten(r, cp.hashEntries)
    && (cp.hashEntries != [] ==> r.mask == cp.hashMask && r.seed == Word32(cp.hashSeed))
  }

  /** The registers hold this program; rule slots it does not use are not spoken of. */
  predicate TablesHold(r: RegFile, cp: CardTables) {
    && MapsWritten(r, cp.maps) && CmpsWritten(r, cp.cmps, |cp.cmps|) && UdfsWritten(r, cp.udfs, |cp.udfs|)
    && RulesWritten(r, cp.rules, |cp.rules|) && HashWritten(r, cp)
  }

  /** Comparators and rule slots the program does not use are exactly what they were. */
  predicate LeftAlone(r0: RegFile, r1: RegFile, cp: CardTables) {
    SameFrom(r0, r1, |cp.rules|) && SamePoolFrom(r0, r1, |cp.cmps|, |cp.udfs|)
  }

  /** Configured rows live, every other row dead. */
  predicate RowsWritten(live: seq<Row>, rows: seq<Row>) {
    && |rows| <= |live|
    && forall r | 0 <= r < |live| :: live[r] == if r < |rows| then rows[r] else ZERO_ROW
  }

  /** The card holds this program. */
  predicate Programmed(r: RegFile, live: seq<Row>, cp: CardTables) { RowsWritten(live, cp.rows) && TablesHold(r, cp) }

  // ---- the write sequence ---------------------------------------------------------------------

  /** CHK: keep the first hard status; NotImplemented is soft. */
  function Chk(worst: Status, s: Status): Status {
    if s != OK && s != NotImplemented && worst == OK then s else worst
  }

  /** One checked register write. */
  method Put(card: Card, w: nat, v: Word, worst: Status) returns (worst': Status)
    requires card.Ok() && w < REG_WORDS
    modifies card`regs
    ensures card.Ok()
    ensures worst' == OK ==> worst == OK
    ensures card.Reliable() && worst == OK ==> worst' == OK
    ensures worst' == OK && !card.partial ==> card.regs == Poke(old(card.regs), w, v)
    ensures w < MAP_W || HASH_END <= w ==> card.regs == old(card.regs)
  {
    var s := card.Write32(w, v);
    worst' := Chk(worst, s);
  }

  /** Three checked writes to consecutive words. */
  method Put3(card: Card, w: nat, a: Word, b: Word, c: Word, worst: Status) returns (worst': Status)
    requires card.Ok() && w + 2 < REG_WORDS
    modifies card`regs
    ensures card.Ok()
    ensures worst' == OK ==> worst == OK
    ensures card.Reliable() && worst == OK ==> worst' == OK
    ensures worst' == OK && !card.partial ==> card.regs == Poke3(old(card.regs), w, a, b, c)
  {
    worst' := Put(card, w, a, worst);
    worst' := Put(card, w + 1, b, worst');
    worst' := Put(card, w + 2, c, worst');
  }

  /** The flow-id map: every entry invalidated, then the configured ones written. */
  method WriteMaps(card: Card, maps: seq<MapEntry>, worst: Status) returns (worst': Status)
    requires card.Ok() && forall i | 0 <= i < |maps| :: maps[i].flowId < MAP_DEPTH
    modifies card`regs
    ensures card.Ok()
    ensures worst' == OK ==> worst == OK
    ensures card.Reliable() && worst == OK ==> worst' == OK
    ensures worst' == OK && !card.partial ==> MapsWritten(card.regs, maps)
    ensures worst' == OK && !card.partial ==> card.regs == old(card.regs).(maps := card.regs.maps)
  {
    worst' := worst;
    for i := 0 to MAP_DEPTH
      invariant card.Ok()
      invariant worst' == OK ==> worst == OK
      invariant card.Reliable() && worst == OK ==> worst' == OK
      invariant worst' == OK && !card.partial ==> forall id | 0 <= id < i :: card.regs.maps[id] == ZERO_WORD
      invariant worst' == OK && !card.partial ==> card.regs == old(card.regs).(maps := card.regs.maps)
    {
      worst' := Put(card, MAP_W + i, ZERO_WORD, worst');
    }
    assert maps[..0] == [];
    for m := 0 to |maps|
      invariant card.Ok()
      invariant worst' == OK ==> worst == OK
      invariant card.Reliable() && worst == OK ==> worst' == OK
      invariant worst' == OK && !card.partial ==> MapsWritten(card.regs, maps[..m])
      invariant worst' == OK && !card.partial ==> card.regs == old(card.regs).(maps := card.regs.maps)
    {
      worst' := Put(card, MAP_W + maps[m].flowId, ValidWord(maps[m].localId), worst');
      assert maps[..m + 1][..m] == maps[..m];
    }
    assert maps[..|maps|] == maps;
  }

  /** The register file after comparators were written. */
  function WithCmps(r: RegFile, r': RegFile): RegFile {
    r.(cmpSrc := r'.cmpSrc, cmpMask := r'.cmpMask, cmps := r'.cmps)
  }

  method WriteCmp(card: Card, i: nat, c: Cmp, worst: Status) returns (worst': Status)
    requires card.Ok() && i < NUM_CMP
    modifies card`regs
    ensures card.Ok()
    ensures worst' == OK ==> worst == OK
    ensures card.Reliable() && worst == OK ==> worst' == OK
    ensures worst' == OK && !card.partial ==>
              && card.regs == WithCmps(old(card.regs), card.regs)
              && card.regs.cmps == old(card.regs.cmps)[i := Cmp(c.src % 32, c.mask, c.value)]
  {
    var src: Word := [0, 0, 0, c.src];
    CmpThrice(card.regs, i, src, c.mask, c.value);
    worst' := Put3(card, CMP_W + 4 * i, src, c.mask, c.value, worst);
  }

  method WriteCmps(card: Card, cmps: seq<Cmp>, worst: Status) returns (worst': Status)
    requires card.Ok() && |cmps| <= NUM_CMP
    modifies card`regs
    ensures card.Ok()
    ensures worst' == OK ==> worst == OK
    ensures card.Reliable() && worst == OK ==> worst' == OK
    ensures worst' == OK && !card.partial ==> CmpsWritten(card.regs, cmps, |cmps|)
    ensures worst' == OK && !card.partial ==> SamePoolFrom(old(card.regs), card.regs, |cmps|, 0)
    ensures worst' == OK && !card.partial ==> card.regs == WithCmps(old(card.regs), card.regs)
  {
    worst' := worst;
    for i := 0 to |cmps|
      invariant card.Ok()
      invariant worst' == OK ==> worst == OK
      invariant card.Reliable() && worst == OK ==> worst' == OK
      invariant worst' == OK && !card.partial ==> CmpsWritten(card.regs, cmps, i)
      invariant worst' == OK && !card.partial ==> SamePoolFrom(old(card.regs), card.regs, i, 0)
      invariant worst' == OK && !card.partial ==> card.regs == WithCmps(old(card.regs), card.regs)
    {
      worst' := WriteCmp(card, i, cmps[i], worst');
    }
  }

  function WithUdfs(r: RegFile, r': RegFile): RegFile {
    r.(udfOffset := r'.udfOffset, udfMask := r'.udfMask, udfs := r'.udfs)
  }

  method WriteUdf(card: Card, i: nat, u: Udf, worst: Status) returns (worst': Status)
    requires card.Ok() && i < NUM_UDF
    modifies card`regs
    ensures card.Ok()
    ensures worst' == OK ==> worst == OK
    ensures card.Reliable() && worst == OK ==> worst' == OK
    ensures worst' == OK && !card.partial ==>
              card.regs == WithUdfs(old(card.regs), card.regs) && card.regs.udfs == old(card.regs.udfs)[i := u]
  {
    var o := OffsetWord(u.offset);
    UdfThrice(card.regs, i, o, u.mask, u.value);
    worst' := Put3(card, UDF_W + 4 * i, o, u.mask, u.value, worst);
  }

  method WriteUdfs(card: Card, udfs: seq<Udf>, worst: Status) returns (worst': Status)
    requires card.Ok() && |udfs| <= NUM_UDF
    modifies card`regs
    ensures card.Ok()
    ensures worst' == OK ==> worst == OK
    ensures card.Reliable() && worst == OK ==> worst' == OK
    ensures worst' == OK && !card.partial ==> UdfsWritten(card.regs, udfs, |udfs|)
    ensures worst' == OK && !card.partial ==> SamePoolFrom(old(card.regs), card.regs, 0, |udfs|)
    ensures worst' == OK && !card.partial ==> card.regs == WithUdfs(old(card.regs), card.regs)
  {
    worst' := worst;
    for i := 0 to |udfs|
      invariant card.Ok()
      invariant worst' == OK ==> worst == OK
      invariant card.Reliable() && worst == OK ==> worst' == OK
      invariant worst' == OK && !card.partial ==> UdfsWritten(card.regs, udfs, i)
      invariant worst' == OK && !card.partial ==> SamePoolFrom(old(card.regs), card.regs, 0, i)
      invariant worst' == OK && !card.partial ==> card.regs == WithUdfs(old(card.regs), card.regs)
    {
      worst' := WriteUdf(card, i, udfs[i], worst');
    }
  }

  function WithRules(r: RegFile, r': RegFile): RegFile {
    r.(ruleHead := r'.ruleHead, ruleLfid := r'.ruleLfid, rules := r'.rules)
  }

  /** A configured rule: all three words, the last of which commits it. */
  method WriteRule(card: Card, i: nat, x: Rule, worst: Status) returns (worst': Status)
    requires card.Ok() && i < NUM_RULE
    modifies card`regs
    ensures card.Ok()
    ensures worst' == OK ==> worst == OK
    ensures card.Reliable() && worst == OK ==> worst' == OK
    ensures worst' == OK && !card.partial ==>
              && card.regs == WithRules(old(card.regs), card.regs)
              && card.regs.rules == old(card.regs.rules)[i := RuleOf(RuleWord(x), x.lfid, x.lif)]
  {
    RuleThrice(card.regs, i, RuleWord(x), x.lfid, x.lif);
    worst' := Put3(card, RULE_W + 4 * i, RuleWord(x), x.lfid, x.lif, worst);
  }

  /** A rule slot meant to be disabled: only its first word is written, so nothing is committed. */
  method SkipRule(card: Card, i: nat, worst: Status) returns (worst': Status)
    requires card.Ok() && i < NUM_RULE
    modifies card`regs
    ensures card.Ok()
    ensures worst' == OK ==> worst == OK
    ensures card.Reliable() && worst == OK ==> worst' == OK
    ensures worst' == OK && !card.partial ==>
              card.regs == WithRules(old(card.regs), card.regs) && card.regs.rules == old(card.regs.rules)
  {
    worst' := Put(card, RULE_W + 4 * i, ZERO_WORD, worst);
  }

  /** All rule slots in turn. The configured ones are committed; the others stay as they were. */
  method WriteRules(card: Card, rules: seq<Rule>, worst: Status) returns (worst': Status)
    requires card.Ok() && |rules| <= NUM_RULE
    modifies card`regs
    ensures card.Ok()
    ensures worst' == OK ==> worst == OK
    ensures card.Reliable() && worst == OK ==> worst' == OK
    ensures worst' == OK && !card.partial ==> RulesWritten(card.regs, rules, |rules|)
    ensures worst' == OK && !card.partial ==> SameFrom(old(card.regs), card.regs, |rules|)
    ensures worst' == OK && !card.partial ==> card.regs == WithRules(old(card.regs), card.regs)
  {
    worst' := worst;
    for i := 0 to NUM_RULE
      invariant card.Ok()
      invariant worst' == OK ==> worst == OK
      invariant card.Reliable() && worst == OK ==> worst' == OK
      invariant worst' == OK && !card.partial ==> RulesWritten(card.regs, rules, if i < |rules| then i else |rules|)
      invariant worst' == OK && !card.partial ==>
                  SameFrom(old(card.regs), card.regs, if i < |rules| then i else |rules|)
      invariant worst' == OK && !card.partial ==> card.regs == WithRules(old(card.regs), card.regs)
    {
      if i < |rules| {
        worst' := WriteRule(card, i, rules[i], worst');
      } else {
        worst' := SkipRule(card, i, worst');
      }
    }
  }

  function WithHash(r: RegFile, r': RegFile): RegFile {
    r.(mask := r'.mask, seed := r'.seed, hashKey := r'.hashKey, buckets := r'.buckets)
  }

  /** One hash entry: eleven key words staged, then the control word that commits the bucket. */
  method WriteEntry(card: Card, e: HashEntry, worst: Status) returns (worst': Status)
    requires card.Ok() && e.index < HASH_DEPTH
    modifies card`regs
    ensures card.Ok()
    ensures worst' == OK ==> worst == OK
    ensures card.Reliable() && worst == OK ==> worst' == OK
    ensures worst' == OK && !card.partial ==>
              card.regs == old(card.regs).(hashKey := e.key,
                buckets := old(card.regs.buckets)[e.index := BucketOf(e.key, ValidWord(e.localId))])
  {
    worst' := worst;
    var base := HASH_W + 16 * e.index;
    for w := 0 to KEY_WORDS
      invariant card.Ok()
      invariant worst' == OK ==> worst == OK
      invariant card.Reliable() && worst == OK ==> worst' == OK
      invariant worst' == OK && !card.partial ==> card.regs == old(card.regs).(hashKey := card.regs.hashKey)
      invariant worst' == OK && !card.partial ==> forall j | 0 <= j < w :: card.regs.hashKey[j] == e.key[j]
    {
      PokesHash(card.regs, e.index, w, e.key[w]);
      worst' := Put(card, base + w, e.key[w], worst');
    }
    assert worst' == OK && !card.partial ==> card.regs.hashKey == e.key;
    PokesHash(card.regs, e.index, KEY_WORDS, ValidWord(e.localId));
    worst' := Put(card, base + KEY_WORDS, ValidWord(e.localId), worst');
  }

  /** All buckets invalidated, whatever key is staged. */
  method ClearBuckets(card: Card, worst: Status) returns (worst': Status)
    requires card.Ok()
    modifies card`regs
    ensures card.Ok()
    ensures worst' == OK ==> worst == OK
    ensures card.Reliable() && worst == OK ==> worst' == OK
    ensures worst' == OK && !card.partial ==> BucketsWritten(card.regs, [])
    ensures worst' == OK && !card.partial ==> card.regs == old(card.regs).(buckets := card.regs.buckets)
  {
    worst' := worst;
    for b := 0 to HASH_DEPTH
      invariant card.Ok()
      invariant worst' == OK ==> worst == OK
      invariant card.Reliable() && worst == OK ==> worst' == OK
      invariant worst' == OK && !card.partial ==> forall a | 0 <= a < b :: card.regs.buckets[a] == None
      invariant worst' == OK && !card.partial ==> card.regs == old(card.regs).(buckets := card.regs.buckets)
    {
      worst' := Put(card, HASH_W + 16 * b + KEY_WORDS, ZERO_WORD, worst');
    }
  }

  method WriteMaskAndSeed(card: Card, mask: KeyWords, seed: u32, worst: Status) returns (worst': Status)
    requires card.Ok()
    modifies card`regs
    ensures card.Ok()
    ensures worst' == OK ==> worst == OK
    ensures card.Reliable() && worst == OK ==> worst' == OK
    ensures worst' == OK && !card.partial ==> card.regs == old(card.regs).(mask := mask, seed := Word32(seed))
  {
    worst' := worst;
    for w := 0 to KEY_WORDS
      invariant card.Ok()
      invariant worst' == OK ==> worst == OK
      invariant card.Reliable() && worst == OK ==> worst' == OK
      invariant worst' == OK && !card.partial ==> card.regs == old(card.regs).(mask := card.regs.mask)
      invariant worst' == OK && !card.partial ==> forall j | 0 <= j < w :: card.regs.mask[j] == mask[j]
    {
      worst' := Put(card, MASK_W + w, mask[w], worst');
    }
    assert worst' == OK && !card.partial ==> card.regs.mask == mask;
    worst' := Put(card, SEED_W, Word32(seed), worst');
  }

  /** Rewriting one bucket leaves the other entries as written. */
  lemma OtherEntriesStay(r0: RegFile, r1: RegFile, es: seq<HashEntry>, e: HashEntry)
    requires BucketsWritten(r0, es) && Sized(r1) && e.index < HASH_DEPTH && Unused(es, e.index)
    requires r1.buckets == r0.buckets[e.index := BucketOf(e.key, ValidWord(e.localId))]
    ensures BucketsWritten(r1, es + [e])
  {
    forall i | 0 <= i < |es| ensures EntryWritten(r1, es[i]) {
      assert EntryWritten(r0, es[i]);
    }
    forall b | 0 <= b < HASH_DEPTH && Unused(es + [e], b) ensures r1.buckets[b] == None {
      assert (es + [e])[|es|].index != b;
      forall i | 0 <= i < |es| ensures es[i].index != b { assert (es + [e])[i] == es[i]; }
      assert Unused(es, b);
    }
  }

  method WriteHash(card: Card, cp: CardTables, worst: Status) returns (worst': Status)
    requires card.Ok() && CountsOk(cp)
    modifies card`regs
    ensures card.Ok()
    ensures worst' == OK ==> worst == OK
    ensures card.Reliable() && worst == OK ==> worst' == OK
    ensures worst' == OK && !card.partial && DistinctBuckets(cp.hashEntries) ==> HashWritten(card.regs, cp)
    ensures worst' == OK && !card.partial ==> card.regs == WithHash(old(card.regs), card.regs)
  {
    var es := cp.hashEntries;
    worst' := ClearBuckets(card, worst);
    if es == [] { return; }
    worst' := WriteMaskAndSeed(card, cp.hashMask, cp.hashSeed, worst');
    worst' := WriteEntries(card, es, worst');
  }

  method WriteEntries(card: Card, es: seq<HashEntry>, worst: Status) returns (worst': Status)
    requires card.Ok() && forall i | 0 <= i < |es| :: es[i].index < HASH_DEPTH
    modifies card`regs
    ensures card.Ok()
    ensures worst' == OK ==> worst == OK
    ensures card.Reliable() && worst == OK ==> worst' == OK
    ensures worst' == OK && !card.partial && DistinctBuckets(es) && old(BucketsWritten(card.regs, [])) ==>
              BucketsWritten(card.regs, es)
    ensures worst' == OK && !card.partial ==>
              card.regs == old(card.regs).(hashKey := card.regs.hashKey, buckets := card.regs.buckets)
  {
    worst' := worst;
    assert es[..0] == [];
    for i := 0 to |es|
      invariant card.Ok()
      invariant worst' == OK ==> worst == OK
      invariant card.Reliable() && worst == OK ==> worst' == OK
      invariant worst' == OK && !card.partial && DistinctBuckets(es) && old(BucketsWritten(card.regs, [])) ==>
                  BucketsWritten(card.regs, es[..i])
      invariant worst' == OK && !card.partial ==>
                  card.regs == old(card.regs).(hashKey := card.regs.hashKey, buckets := card.regs.buckets)
    {
      ghost var r1 := card.regs;
      worst' := WriteEntry(card, es[i], worst');
      assert es[..i + 1] == es[..i] + [es[i]];
      if worst' == OK && !card.partial && DistinctBuckets(es) && old(BucketsWritten(card.regs, [])) {
        assert Unused(es[..i], es[i].index);
        OtherEntriesStay(r1, card.regs, es[..i], es[i]);
      }
    }
    assert es[..|es|] == es;
  }

  /** Flow rows: the configured ones, then dead rows up to the reported capacity, then the commit. */
  method WriteRows(card: Card, rows: seq<Row>, worst: Status) returns (worst': Status)
    requires card.Ok() && |rows| <= FLOW_TABLE_ROWS
    modifies card`staged, card`live
    ensures card.Ok()
    ensures worst' == OK ==> worst == OK
    ensures card.Reliable() && card.Complete() && |rows| <= card.rows && worst == OK ==> worst' == OK
    ensures worst' == OK && card.Complete() ==> RowsWritten(card.live, rows)
    ensures worst' == OK && card.Complete() ==> card.staged == card.live
  {
    worst' := worst;
    if card.hasFlowWrite {
      var n := if card.info.Some? && card.info.value > |rows| then card.info.value else |rows|;
      if n > FLOW_TABLE_ROWS { n := FLOW_TABLE_ROWS; }
      for r := 0 to n
        invariant card.Ok()
        invariant worst' == OK ==> worst == OK
        invariant card.Reliable() && card.Complete() && |rows| <= card.rows && worst == OK ==> worst' == OK
        invariant worst' == OK && card.Complete() ==> r <= |card.staged|
        invariant worst' == OK && card.Complete() ==>
                    forall j | 0 <= j < r :: card.staged[j] == if j < |rows| then rows[j] else ZERO_ROW
      {
        var s := card.FlowWrite(r, if r < |rows| then rows[r] else ZERO_ROW);
        worst' := Chk(worst', s);
      }
    }
    if card.hasFlowCommit {
      var s := card.FlowCommit();
      worst' := Chk(worst', s);
    }
  }

  /** More rows than the card reports to implement. */
  predicate OverCapacity(card: Card, cp: CardTables) {
    card.info.Some? && card.info.value != 0 && |cp.rows| > card.info.value
  }

  /** The register tables, in order: flow-id map, comparators, UDFs, rules, hash. */
  method WriteRegisters(card: Card, cp: CardTables, worst: Status) returns (worst': Status)
    requires card.Ok() && CountsOk(cp)
    modifies card`regs
    ensures card.Ok()
    ensures worst' == OK ==> worst == OK
    ensures card.Reliable() && worst == OK ==> worst' == OK
    ensures worst' == OK && !card.partial && DistinctBuckets(cp.hashEntries) ==> TablesHold(card.regs, cp)
    ensures worst' == OK && !card.partial ==> LeftAlone(old(card.regs), card.regs, cp)
  {
    worst' := WriteMaps(card, cp.maps, worst);
    worst' := WriteCmps(card, cp.cmps, worst');
    worst' := WriteUdfs(card, cp.udfs, worst');
    worst' := WriteRules(card, cp.rules, worst');
    worst' := WriteHash(card, cp, worst');
  }

  /**
   pw_program_card_tables. A program with a count or index out of range, or with more rows than
   the card implements, is rejected before any write. When a complete card reports OK it holds
   the program, whatever it held before, and the comparators and rule slots it does not use are exactly what they were.
   */
  method ProgramTables(card: Card, cp: CardTables) returns (worst: Status)
    requires card.Ok()
    modifies card`regs, card`staged, card`live
    ensures card.Ok()
    ensures !CountsOk(cp) ==> worst == Inval && unchanged(card)
    ensures CountsOk(cp) && OverCapacity(card, cp) ==> worst == NoResources && unchanged(card)
    ensures CountsOk(cp) && !OverCapacity(card, cp) && card.Reliable() && card.Complete() ==> worst == OK
    ensures worst == OK && card.Complete() && DistinctBuckets(cp.hashEntries) ==>
              Programmed(card.regs, card.live, cp) && card.staged == card.live
    ensures worst == OK && card.Complete() ==> LeftAlone(old(card.regs), card.regs, cp)
  {
    worst := OK;
    if |cp.rows| > FLOW_TABLE_ROWS || |cp.cmps| > NUM_CMP || |cp.udfs| > NUM_UDF || |cp.rules| > NUM_RULE
       || |cp.hashEntries| > HASH_DEPTH {
      return Inval;
    }
    for m := 0 to |cp.maps|
      invariant forall i | 0 <= i < m :: cp.maps[i].flowId < MAP_DEPTH
    {
      if cp.maps[m].flowId >= MAP_DEPTH { return Inval; }
    }
    for i := 0 to |cp.hashEntries|
      invariant forall j | 0 <= j < i :: cp.hashEntries[j].index < HASH_DEPTH
    {
      if cp.hashEntries[i].index >= HASH_DEPTH { return Inval; }
    }
    if card.info.Some? && card.info.value != 0 && |cp.rows| > card.info.value { return NoResources; }
    if |cp.rows| > 0 && (!card.hasFlowWrite || !card.hasFlowCommit) {
      worst := NotImplemented;
    }
    if !card.hasWrite32 && (cp.maps != [] || cp.cmps != [] || cp.udfs != [] || cp.rules != [] || cp.hashEntries != [])
       && worst == OK {
      worst := NotImplemented;
    }
    worst := WriteRows(card, cp.rows, worst);
    if card.hasWrite32 {
      worst := WriteRegisters(card, cp, worst);
    }
  }
}
