/**
 Header classification through the hash exact table: the key a flow is stored under, the
 card-wide key mask, and the search for a seed that places all keys in distinct buckets.
 */
module HashKeys {
  import opened Basics
  import opened Config
  import opened Classifier
  import opened CardBuilder

  const FULL_WORD: Word := [0xFF, 0xFF, 0xFF, 0xFF]
  const FULL_MASK: KeyWords := [FULL_WORD, FULL_WORD, FULL_WORD, FULL_WORD, FULL_WORD, FULL_WORD, FULL_WORD, FULL_WORD,
                                FULL_WORD, FULL_WORD, FULL_WORD]

  function EtherTypeOf(v6: bool): Half { if v6 then [0x86, 0xDD] else [0x08, 0x00] }

  /** The VLAN half of key word 9: the 12-bit id, or 0 for an untagged flow. */
  function VlanKey(f: Flow): Half { if f.l2.vlanSet then [f.l2.vlan[0] % 16, f.l2.vlan[1]] else [0, 0] }

  /** The ethertype a flow's frame carries behind its tag. */
  function RawEtherType(f: Flow): Half { if f.l2.ethertype != [0, 0] then f.l2.ethertype else EtherTypeOf(f.ip6.Some?) }

  function Dst6(f: Flow): Addr6 { if f.ip6.Some? then f.ip6.value.dst else ZERO_ADDR }
  function Src6(f: Flow): Addr6 { if f.ip6.Some? then f.ip6.value.src else ZERO_ADDR }

  /** pw_fc_hash_words: the key of the flow's unmodified header. */
  function HashWords(f: Flow): KeyWords {
    if f.traffic.template.L2Raw? then
      [ZERO_WORD, ZERO_WORD, ZERO_WORD, ZERO_WORD, ZERO_WORD, ZERO_WORD, ZERO_WORD, ZERO_WORD, ZERO_WORD,
       VlanKey(f) + RawEtherType(f), ZERO_WORD]
    else
      AddrKey(f.ip6.Some?, f.ip4.dst, Dst6(f)) + AddrKey(f.ip6.Some?, f.ip4.src, Src6(f))
      + [if f.traffic.template.L3Raw? then ZERO_WORD else f.l4.srcPort + f.l4.dstPort,
         VlanKey(f) + EtherTypeOf(f.ip6.Some?),
         [0, 0, 0, if f.l4.proto != 0 then f.l4.proto else 17]]
  }

  // ---- key mask ---------------------------------------------------------------------

  function Low32(m: Mask64): Word { m[4..8] }
  function Low16(m: Mask64): Half { m[6..8] }
  /** The VLAN modifier's 12 bits in the upper half of key word 9. */
  function VlanModWord(m: Mask64): Word { [m[6] % 16, m[7], 0, 0] }

  type KeyIndex = i: int | 0 <= i < KEY_WORDS

  /** One statement of pw_fc_relax_mask: mask[i] &= ~bits, or mask[i] &= bits. */
  datatype Edit = Drop(i: KeyIndex, bits: Word) | Keep(i: KeyIndex, bits: Word)

  function When(c: bool, e: Edit): seq<Edit> { if c then [e] else [] }

  /** The high three words of a 128-bit modifier mask. */
  function DropHigh(c: bool, base: KeyIndex, m: Addr6): seq<Edit>
    requires base <= 4
  {
    if c then [Drop(base + 1, AddrWord(m, 2)), Drop(base + 2, AddrWord(m, 1)), Drop(base + 3, AddrWord(m, 0))] else []
  }

  function KeepAddr(p: Option<Addr6>, base: KeyIndex): seq<Edit>
    requires base <= 4
  {
    if p.Some? then
      [Keep(base, AddrWord(p.value, 3)), Keep(base + 1, AddrWord(p.value, 2)),
       Keep(base + 2, AddrWord(p.value, 1)), Keep(base + 3, AddrWord(p.value, 0))]
    else []
  }

  const STATEMENTS := 11

  /** Statement i of pw_fc_relax_mask for this flow. */
  function Statement(f: Flow, i: nat): seq<Edit> {
    var d, s, v6 := f.mods.dstIp, f.mods.srcIp, f.ip6.Some?;
    match i
    case 0 => When(d.mode != 0, Drop(0, Low32(d.mask)))
    case 1 => When(f.narrow.ipv4DstMask != FULL_WORD, Keep(0, f.narrow.ipv4DstMask))
    case 2 => When(s.mode != 0, Drop(4, Low32(s.mask)))
    case 3 => DropHigh(v6 && d.mode != 0, 0, f.mods.dstIp6Mask)
    case 4 => DropHigh(v6 && s.mode != 0, 4, f.mods.srcIp6Mask)
    case 5 => KeepAddr(f.narrow.ipv6Dst, 0)
    case 6 => KeepAddr(f.narrow.ipv6Src, 4)
    case 7 => When(f.mods.udpDst.mode != 0, Drop(8, [0, 0] + Low16(f.mods.udpDst.mask)))
    case 8 => When(f.narrow.udpDstMask != [0xFF, 0xFF], Keep(8, [0xFF, 0xFF] + f.narrow.udpDstMask))
    case 9 => When(f.mods.udpSrc.mode != 0, Drop(8, Low16(f.mods.udpSrc.mask) + [0, 0]))
    case 10 => When(f.mods.vlan.mode != 0, Drop(9, VlanModWord(f.mods.vlan.mask)))
    case _ => []
  }

  /** The updates the first n statements make to the key mask. */
  function EditsUpTo(f: Flow, n: nat): seq<Edit> {
    if n == 0 then [] else EditsUpTo(f, n - 1) + Statement(f, n - 1)
  }

  function Edits(f: Flow): seq<Edit> { EditsUpTo(f, STATEMENTS) }

  lemma {:induction false} StatementInEdits(f: Flow, i: nat, n: nat, e: Edit)
    requires i < n && e in Statement(f, i)
    ensures e in EditsUpTo(f, n)
  {
    if i < n - 1 { StatementInEdits(f, i, n - 1, e); }
  }

  function Apply(mask: KeyWords, e: Edit): KeyWords {
    match e
    case Drop(i, bits) => mask[i := AndNotAll(mask[i], bits)]
    case Keep(i, bits) => mask[i := AndAll(mask[i], bits)]
  }

  function ApplyAll(mask: KeyWords, es: seq<Edit>): KeyWords
    decreases |es|
  {
    if es == [] then mask else ApplyAll(Apply(mask, es[0]), es[1..])
  }

  /** pw_fc_relax_mask: drop the bits the flow's modifiers vary and those its match masks ignore. */
  function RelaxMask(mask: KeyWords, f: Flow): KeyWords { ApplyAll(mask, Edits(f)) }

  /** Key word i of the mask keeps clear of the bits in m. */
  predicate Clear(mask: KeyWords, i: KeyIndex, m: Word) { Disjoint(mask[i], m) }

  /** Updates only ever clear bits, so what the mask avoids it goes on avoiding. */
  lemma {:induction false} ClearStays(mask: KeyWords, es: seq<Edit>, i: KeyIndex, m: Word)
    requires Clear(mask, i, m)
    ensures Clear(ApplyAll(mask, es), i, m)
    decreases |es|
  {
    if es != [] {
      DisjointStays(mask[i], es[0].bits, m);
      ClearStays(Apply(mask, es[0]), es[1..], i, m);
    }
  }

  lemma {:induction false} ClearMade(mask: KeyWords, es: seq<Edit>, i: KeyIndex, m: Word)
    requires Drop(i, m) in es
    ensures Clear(ApplyAll(mask, es), i, m)
    decreases |es|
  {
    if es[0] == Drop(i, m) {
      DisjointByClearing(mask[i], m);
      ClearStays(Apply(mask, es[0]), es[1..], i, m);
    } else {
      ClearMade(Apply(mask, es[0]), es[1..], i, m);
    }
  }

  /** The mask avoids every bit the flow's modifiers vary. */
  predicate Avoids(mask: KeyWords, f: Flow) {
    forall e | e in Edits(f) && e.Drop? :: Clear(mask, e.i, e.bits)
  }

  lemma RelaxAvoids(mask: KeyWords, f: Flow)
    ensures Avoids(RelaxMask(mask, f), f)
  {
    forall e | e in Edits(f) && e.Drop? ensures Clear(RelaxMask(mask, f), e.i, e.bits) {
      ClearMade(mask, Edits(f), e.i, e.bits);
    }
  }

  /** Relaxing the mask for one more flow breaks no earlier one. */
  lemma RelaxKeepsAvoiding(mask: KeyWords, f: Flow, g: Flow)
    requires Avoids(mask, f)
    ensures Avoids(RelaxMask(mask, g), f)
  {
    forall e | e in Edits(f) && e.Drop? ensures Clear(RelaxMask(mask, g), e.i, e.bits) {
      ClearStays(mask, Edits(g), e.i, e.bits);
    }
  }

  // ---- seed search ------------------------------------------------------------------

  const MAX_ATTEMPTS := 4096

  /** The seed of one attempt, in 32-bit arithmetic. */
  function Seed(attempt: nat): u32 { (0x9E37_79B1 * (attempt + 1) + 1) % 0x1_0000_0000 }

  /** Every key sits in its hashed bucket and no two share one. */
  predicate Places(keys: seq<KeyWords>, seed: u32) {
    forall i, j | 0 <= i < j < |keys| :: HashIndex(keys[i], seed) != HashIndex(keys[j], seed)
  }

  /** pw_fc_hash_index, the host's own computation: it names the bucket the hardware will probe. */
  method BucketIndex(w: KeyWords, seed: u32) returns (idx: nat)
    ensures idx == HashIndex(w, seed)
  {
    var k32 := 0;
    for i := 0 to 11
      invariant k32 == Fold(w, i)
    {
      k32 := Xor(k32, Num32(w[i]));
    }
    var prod := k32 * Or(seed, 1) % 0x1_0000_0000;
    idx := prod / 0x200_0000;
  }

  /** One attempt of the seed search: fill used[] until two keys collide. */
  method TrySeed(keys: seq<KeyWords>, seed: u32) returns (collision: bool, indices: seq<nat>)
    ensures collision <==> !Places(keys, seed)
    ensures !collision ==> |indices| == |keys| && forall i | 0 <= i < |keys| :: indices[i] == HashIndex(keys[i], seed)
  {
    var used := new bool[HASH_DEPTH](i => false);
    indices := [];
    for i := 0 to |keys|
      invariant |indices| == i && forall j | 0 <= j < i :: indices[j] == HashIndex(keys[j], seed)
      invariant forall a, b | 0 <= a < b < i :: HashIndex(keys[a], seed) != HashIndex(keys[b], seed)
      invariant forall x | 0 <= x < HASH_DEPTH :: used[x] <==> exists j | 0 <= j < i :: indices[j] == x
    {
      var idx := BucketIndex(keys[i], seed);
      if used[idx] {
        return true, [];
      }
      used[idx] := true;
      ghost var was := indices;
      indices := indices + [idx];
      forall x | 0 <= x < HASH_DEPTH ensures used[x] <==> exists j | 0 <= j < i + 1 :: indices[j] == x {
        if x == idx {
          assert indices[i] == x;
        } else if exists j | 0 <= j < i :: was[j] == x {
          var j :| 0 <= j < i && was[j] == x;
          assert indices[j] == x;
        }
      }
    }
    collision := false;
  }

  /** The seed search: the first of 4096 seeds that places all keys, or none of them does. */
  method PlaceKeys(keys: seq<KeyWords>) returns (st: Status, seed: u32, indices: seq<nat>)
    ensures st == OK <==> exists a | 0 <= a < MAX_ATTEMPTS :: Places(keys, Seed(a))
    ensures st == OK ==> Places(keys, seed)
    ensures st == OK ==> |indices| == |keys| && forall i | 0 <= i < |keys| :: indices[i] == HashIndex(keys[i], seed)
    ensures st != OK ==> st == NoResources
  {
    for attempt := 0 to MAX_ATTEMPTS
      invariant forall a | 0 <= a < attempt :: !Places(keys, Seed(a))
    {
      var collision;
      seed := (0x9E37_79B1 * (attempt + 1) + 1) % 0x1_0000_0000;
      assert seed == Seed(attempt);
      collision, indices := TrySeed(keys, seed);
      if !collision {
        return OK, seed, indices;
      }
    }
    return NoResources, 0, [];
  }

  // ---- the table is an index ----------------------------------------------------------

  /** Linear search: the first entry whose stored key is the masked frame key. */
  function Search(es: seq<HashEntry>, m: KeyWords): Option<u32> {
    if es == [] then None
    else if es[0].key == m then Some(es[0].localId)
    else Search(es[1..], m)
  }

  lemma {:induction false} SearchMisses(es: seq<HashEntry>, m: KeyWords)
    requires forall j | 0 <= j < |es| :: es[j].key != m
    ensures Search(es, m) == None
  {
    if es != [] { SearchMisses(es[1..], m); }
  }

  /** Every entry sits in the bucket its key hashes to, and no two entries share a bucket. */
  predicate WellPlaced(es: seq<HashEntry>, seed: u32) {
    && (forall i | 0 <= i < |es| :: es[i].index == HashIndex(es[i].key, seed))
    && (forall i, j | 0 <= i < j < |es| :: es[i].index != es[j].index)
  }

  /** The bucket array the entries describe. */
  predicate BucketsHold(buckets: seq<Option<Bucket>>, es: seq<HashEntry>) {
    && |buckets| == HASH_DEPTH
    && (forall i | 0 <= i < |es| ::
        es[i].index < HASH_DEPTH && buckets[es[i].index] == Some(Bucket(es[i].key, es[i].localId)))
    && (forall b | 0 <= b < HASH_DEPTH && buckets[b].Some? :: exists i | 0 <= i < |es| :: es[i].index == b)
  }

  lemma {:induction false} SearchFinds(es: seq<HashEntry>, m: KeyWords, i: nat)
    requires i < |es| && es[i].key == m
    requires forall j | 0 <= j < |es| && j != i :: es[j].key != m
    ensures Search(es, m) == Some(es[i].localId)
  {
    if i > 0 { SearchFinds(es[1..], m, i - 1); }
  }

  /**
   One probe of the hash table returns what a search of all entries returns, for every frame
   key, and at most one entry can match.
   */
  lemma {:induction false} ProbeIsSearch(buckets: seq<Option<Bucket>>, es: seq<HashEntry>, mask: KeyWords, seed: u32,
                                         w: KeyWords)
    requires WellPlaced(es, seed) && BucketsHold(buckets, es)
    ensures Probe(buckets, mask, seed, w) == Search(es, Masked(w, mask))
    ensures forall i, j | 0 <= i < |es| && 0 <= j < |es| && es[i].key == es[j].key == Masked(w, mask) :: i == j
  {
    var m := Masked(w, mask);
    var h := HashIndex(m, seed);
    if i :| 0 <= i < |es| && es[i].key == m {
      forall j | 0 <= j < |es| && es[j].key == m ensures j == i {
        assert es[i].index == h == es[j].index;
      }
      SearchFinds(es, m, i);
    } else {
      SearchMisses(es, m);
      if buckets[h].Some? {
        var i :| 0 <= i < |es| && es[i].index == h;
        assert buckets[h].value.key == es[i].key;
      }
    }
  }
}
