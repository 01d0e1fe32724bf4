/**
 Cross-card time synchronisation (gpio_sync.c and the latency servo of main.c): the cards latch
 their own counters at shared sync edges, the host reads the latches of two of them, and publishes
 the difference as a latency correction.
 */
module GpioSync {
  import opened Basics

  const M32 := 0x1_0000_0000
  const M64 := 0x1_0000_0000_0000_0000
  const SLOTS := 64
  const TRIES := 8

  /** What one sync edge makes each card latch. */
  type Latch = nat -> u64

  /** ... and two of them. */
  datatype Stamp = Stamp(tx: u64, rx: u64)

  function Pair(e: Latch, tx: nat, rx: nat): Stamp { Stamp(e(tx), e(rx)) }

  function Hi(x: u64): u32 { x / M32 }
  function Lo(x: u64): u32 { x % M32 }
  function Join(hi: u32, lo: u32): u64 { hi * M32 + lo }

  lemma JoinParts(x: u64)
    ensures Join(Hi(x), Lo(x)) == x
  {}

  /** Counting fewer than 2^32 edges, the 32-bit edge number returns to a value only if no edge came. */
  lemma SeqExact(a: nat, b: nat)
    requires a <= b < a + M32 && a % M32 == b % M32
    ensures a == b
  {}

  // ---- one attempt, as a script ---------------------------------------------------------------------

  // The eight register reads of an attempt, in order.
  const SEQ_TX_A := 0
  const SEQ_RX_A := 1
  const LOW_TX := 2
  const HIGH_TX := 3
  const LOW_RX := 4
  const HIGH_RX := 5
  const SEQ_TX_B := 6
  const SEQ_RX_B := 7
  const READS := 8

  /** Everything an attempt can meet: the edges just before each of its reads, and whether the read succeeds. */
  datatype Script = Script(gaps: seq<seq<Latch>>, oks: seq<bool>)

  predicate Full(p: Script) { |p.gaps| == READS == |p.oks| }

  type Plan = p: Script | Full(p)
    witness Script([[], [], [], [], [], [], [], []], [true, true, true, true, true, true, true, true])

  // How many edges of the attempt come before each reading of an edge number.
  function ToTxA(p: Plan): nat { |p.gaps[SEQ_TX_A]| }
  function ToRxA(p: Plan): nat { ToTxA(p) + |p.gaps[SEQ_RX_A]| }
  function Stamping(p: Plan): nat { |p.gaps[LOW_TX]| + |p.gaps[HIGH_TX]| + |p.gaps[LOW_RX]| + |p.gaps[HIGH_RX]| }
  function ToTxB(p: Plan): nat { ToRxA(p) + Stamping(p) + |p.gaps[SEQ_TX_B]| }
  function ToRxB(p: Plan): nat { ToTxB(p) + |p.gaps[SEQ_RX_B]| }

  /** How many edges fall after the first read. */
  function Disturbance(p: Plan): nat { ToRxB(p) - ToTxA(p) }

  predicate SeqReadsOk(p: Plan) { p.oks[SEQ_TX_A] && p.oks[SEQ_RX_A] && p.oks[SEQ_TX_B] && p.oks[SEQ_RX_B] }

  /** The attempt is accepted, when n edges were counted before it. */
  predicate Accepted(n: nat, p: Plan) {
    && SeqReadsOk(p) && (n + ToTxA(p)) % M32 != 0 && (n + ToRxA(p)) % M32 != 0
    && (n + ToTxA(p)) % M32 == (n + ToTxB(p)) % M32 && (n + ToRxA(p)) % M32 == (n + ToRxB(p)) % M32
  }

  /** With fewer than 2^32 edges in it, an attempt is accepted exactly if none disturbs it, after a first edge. */
  lemma AcceptedMeansQuiet(n: nat, p: Plan)
    requires Disturbance(p) < M32
    ensures Accepted(n, p) <==> SeqReadsOk(p) && Disturbance(p) == 0 && (n + ToTxA(p)) % M32 != 0
  {
    if Accepted(n, p) {
      SeqExact(n + ToTxA(p), n + ToTxB(p));
      SeqExact(n + ToRxA(p), n + ToRxB(p));
    }
  }

  /** What the two reads of a timestamp give: a failed one leaves a zero, and the high half is the one last latched. */
  function Taken(ts: u64, low: bool, high: bool, stale: u32): u64 {
    Join(if !high then 0 else if low then Hi(ts) else stale, if low then Lo(ts) else 0)
  }

  /** What failed reads take away from the halves of a timestamp. */
  function LostLow(ts: u64, low: bool): int { if low then 0 else Lo(ts) }

  function LostHigh(ts: u64, low: bool, high: bool, stale: u32): int {
    if !high then Hi(ts) else if low then 0 else Hi(ts) - stale
  }

  /** Failed timestamp reads take the same from both cards' low halves, and from their high halves modulo 2^32. */
  predicate Unharmed(s: Stamp, p: Plan, staleTx: u32, staleRx: u32) {
    && LostLow(s.tx, p.oks[LOW_TX]) == LostLow(s.rx, p.oks[LOW_RX])
    && (LostHigh(s.tx, p.oks[LOW_TX], p.oks[HIGH_TX], staleTx)
        - LostHigh(s.rx, p.oks[LOW_RX], p.oks[HIGH_RX], staleRx)) % M32 == 0
  }

  function TxTaken(s: Stamp, p: Plan, stale: u32): u64 { Taken(s.tx, p.oks[LOW_TX], p.oks[HIGH_TX], stale) }
  function RxTaken(s: Stamp, p: Plan, stale: u32): u64 { Taken(s.rx, p.oks[LOW_RX], p.oks[HIGH_RX], stale) }

  lemma TakenLoses(ts: u64, low: bool, high: bool, stale: u32)
    ensures Taken(ts, low, high, stale) as int == ts - LostHigh(ts, low, high, stale) * M32 - LostLow(ts, low)
  {
    JoinParts(ts);
  }

  /** Halves: a difference below 2^32 and a multiple of 2^32 vanish modulo 2^64 exactly if each does. */
  lemma HalvesVanish(h: int, l: int)
    requires -M32 < l < M32
    ensures (h * M32 + l) % M64 == 0 <==> l == 0 && h % M32 == 0
  {
    if l == 0 && h % M32 == 0 {
      assert h * M32 + l == h / M32 * M64;
      ShiftMod(0, h / M32);
    }
    if (h * M32 + l) % M64 == 0 {
      var k := (h * M32 + l) / M64;
      assert l == (k * M32 - h) * M32;
      assert k * M32 - h == 0;
      assert h % M32 == 0;
    }
  }

  lemma SameMod(x: int, y: int)
    ensures x % M64 == y % M64 <==> (x - y) % M64 == 0
  {
    var k := x / M64 - y / M64;
    if x % M64 == y % M64 { assert x - y == k * M64; ShiftMod(0, k); }
    if (x - y) % M64 == 0 { ShiftMod(y, (x - y) / M64); }
  }

  lemma DifferenceSurvives(tx: int, rx: int, ht: int, lt: int, hr: int, lr: int)
    requires 0 <= lt < M32 && 0 <= lr < M32
    ensures ((tx - ht * M32 - lt) - (rx - hr * M32 - lr)) % M64 == (tx - rx) % M64 <==> lt == lr && (ht - hr) % M32 == 0
  {
    SameMod(tx - rx, (tx - ht * M32 - lt) - (rx - hr * M32 - lr));
    HalvesVanish(ht - hr, lt - lr);
  }

  /** The difference of what was read is the edge's offset exactly if the failed reads leave it unharmed. */
  lemma OffsetSurvives(s: Stamp, p: Plan, staleTx: u32, staleRx: u32)
    ensures (TxTaken(s, p, staleTx) - RxTaken(s, p, staleRx)) % M64 == (s.tx - s.rx) % M64
       <==> Unharmed(s, p, staleTx, staleRx)
  {
    TakenLoses(s.tx, p.oks[LOW_TX], p.oks[HIGH_TX], staleTx);
    TakenLoses(s.rx, p.oks[LOW_RX], p.oks[HIGH_RX], staleRx);
    DifferenceSurvives(s.tx, s.rx,
                       LostHigh(s.tx, p.oks[LOW_TX], p.oks[HIGH_TX], staleTx), LostLow(s.tx, p.oks[LOW_TX]),
                       LostHigh(s.rx, p.oks[LOW_RX], p.oks[HIGH_RX], staleRx), LostLow(s.rx, p.oks[LOW_RX]));
  }

  /** The cards on one sync line, as their registers show it. */
  class Rig {
    /** Edge number, latched counter, and high half latched by the last read of the low one, of each card. */
    var seqNo: nat -> u32
    var ts: Latch
    var hi: nat -> u32
    /** Every sync edge since reset. */
    ghost var edges: seq<Latch>

    ghost predicate Ok()
      reads this
    {
      (forall c: nat :: seqNo(c) as int == |edges| % M32) && (edges != [] ==> ts == edges[|edges| - 1])
    }

    constructor ()
      ensures Ok() && edges == [] && forall c: nat :: hi(c) == 0
    {
      seqNo, ts, hi := c => 0, c => 0, c => 0;
      edges := [];
    }

    /** One edge reaches all cards at once. */
    method Edge(s: Latch)
      requires Ok()
      modifies this`seqNo, this`ts, this`edges
      ensures Ok() && edges == old(edges) + [s]
    {
      var was := seqNo;
      ts := s;
      seqNo := c => (was(c) + 1) % M32;
      edges := edges + [s];
    }

    /** These edges pass before the next register access. */
    method Pass(es: seq<Latch>)
      requires Ok()
      modifies this`seqNo, this`ts, this`edges
      ensures Ok() && edges == old(edges) + es
    {
      for i := 0 to |es|
        invariant Ok() && edges == old(edges) + es[..i]
      {
        Edge(es[i]);
        assert es[..i + 1] == es[..i] + [es[i]];
      }
      assert es[..|es|] == es;
    }

    /** SYNC_SEQ; a failed read leaves the caller's zero. */
    method ReadSeq(card: nat, ok: bool, gap: seq<Latch>) returns (v: u32)
      requires Ok()
      modifies this`seqNo, this`ts, this`edges
      ensures Ok() && edges == old(edges) + gap
      ensures v as int == if ok then |edges| % M32 else 0
    {
      Pass(gap);
      v := if ok then seqNo(card) else 0;
    }

    /** SYNC_TS_LOW: reading it latches the high half. */
    method ReadLow(card: nat, ok: bool) returns (v: u32)
      modifies this`hi
      ensures v == if ok then Lo(ts(card)) else 0
      ensures forall c: nat :: hi(c) == if ok && c == card then Hi(ts(c)) else old(hi)(c)
    {
      v := 0;
      if ok {
        var was, high := hi, Hi(ts(card));
        hi := c => if c == card then high else was(c);
        v := Lo(ts(card));
      }
    }

    method ReadHigh(card: nat, ok: bool) returns (v: u32)
      ensures v == if ok then hi(card) else 0
    {
      v := if ok then hi(card) else 0;
    }

    /** pw_gpio_sync_ts: whatever edges come, it is one edge's timestamp, less what its failed reads lose. */
    method SyncTs(card: nat, p: Plan, first: nat) returns (t: u64, ghost e: nat)
      requires Ok() && first + 1 < READS
      modifies this
      ensures Ok() && edges == old(edges) + p.gaps[first] + p.gaps[first + 1]
      ensures e == old(|edges|) + |p.gaps[first]|
      ensures e > 0 ==> t == Taken(edges[e - 1](card), p.oks[first], p.oks[first + 1], old(hi)(card))
      ensures forall c: nat | c != card :: hi(c) == old(hi)(c)
    {
      Pass(p.gaps[first]);
      e := |edges|;
      var lo := ReadLow(card, p.oks[first]);
      Pass(p.gaps[first + 1]);
      var high := ReadHigh(card, p.oks[first + 1]);
      t := Join(high, lo);
    }

    /** The two timestamps of an attempt. */
    method BothTs(tx: nat, rx: nat, p: Plan) returns (t: u64, r: u64)
      requires Ok() && tx != rx
      modifies this
      ensures Ok() && |edges| == old(|edges|) + Stamping(p)
      ensures old(edges) <= edges
      ensures edges == old(edges) != [] ==> var s := Pair(edges[|edges| - 1], tx, rx);
                t == TxTaken(s, p, old(hi)(tx)) && r == RxTaken(s, p, old(hi)(rx))
    {
      ghost var e;
      t, e := SyncTs(tx, p, LOW_TX);
      r, e := SyncTs(rx, p, LOW_RX);
    }

    /** One attempt of pw_gpio_sync_offset_coherent on cards tx and rx, whatever it meets. */
    method Attempt(tx: nat, rx: nat, p: Plan) returns (ok: bool, offset: u64)
      requires Ok() && tx != rx
      modifies this
      ensures Ok() && old(edges) <= edges && |edges| == old(|edges|) + ToRxB(p)
      ensures ok <==> Accepted(old(|edges|), p)
      ensures ok && Disturbance(p) == 0 ==> edges != [] && var s := Pair(edges[|edges| - 1], tx, rx);
                offset as int == (TxTaken(s, p, old(hi)(tx)) - RxTaken(s, p, old(hi)(rx))) % M64
    {
      var sTxA := ReadSeq(tx, p.oks[SEQ_TX_A], p.gaps[SEQ_TX_A]);
      var sRxA := ReadSeq(rx, p.oks[SEQ_RX_A], p.gaps[SEQ_RX_A]);
      ghost var before := edges;
      var t, r := BothTs(tx, rx, p);
      assert Disturbance(p) == 0 ==> edges == before;
      var sTxB := ReadSeq(tx, p.oks[SEQ_TX_B], p.gaps[SEQ_TX_B]);
      var sRxB := ReadSeq(rx, p.oks[SEQ_RX_B], p.gaps[SEQ_RX_B]);
      ok := sTxA != 0 && sRxA != 0 && sTxA == sTxB && sRxA == sRxB;
      offset := (t - r) % M64;
    }

    /** ... what its result means ... */
    method Judge(tx: nat, rx: nat, p: Plan) returns (ok: bool, offset: u64)
      requires Ok() && tx != rx
      modifies this
      ensures Ok() && old(edges) <= edges && |edges| == old(|edges|) + ToRxB(p)
      ensures ok <==> Accepted(old(|edges|), p)
      ensures ok && Disturbance(p) < M32 ==>
                edges != [] && Exact(Pair(edges[|edges| - 1], tx, rx), p, old(hi)(tx), old(hi)(rx), offset)
    {
      ghost var n, htx, hrx := |edges|, hi(tx), hi(rx);
      ok, offset := Attempt(tx, rx, p);
      if ok && Disturbance(p) < M32 {
        AcceptedMeansQuiet(n, p);
        OffsetSurvives(Pair(edges[|edges| - 1], tx, rx), p, htx, hrx);
      }
    }

    /** ... and the place it has in the series of attempts. */
    method Try(tx: nat, rx: nat, plans: seq<Plan>, i: nat, ghost n0: nat) returns (ok: bool, offset: u64)
      requires Ok() && tx != rx && i < |plans| && |edges| == n0 + Sum(plans, i) && NoneBefore(n0, plans, i)
      modifies this
      ensures Ok() && old(edges) <= edges && |edges| == n0 + Sum(plans, i + 1)
      ensures if ok then AcceptedAt(n0, plans, i) else NoneBefore(n0, plans, i + 1)
      ensures ok && Disturbance(plans[i]) < M32 ==>
                edges != [] && Exact(Pair(edges[|edges| - 1], tx, rx), plans[i], old(hi)(tx), old(hi)(rx), offset)
    {
      ok, offset := Judge(tx, rx, plans[i]);
    }

    /**
     pw_gpio_sync_offset_coherent, for any eight attempts it may meet: it takes the first accepted
     one. With fewer than 2^32 edges in that one, both timestamps are those of one and the same
     sync edge, and the offset is that edge's exactly if the failed timestamp reads, which the code
     does not look at, leave it unharmed.
     */
    method CoherentOffset(tx: nat, rx: nat, plans: seq<Plan>)
      returns (ok: bool, offset: u64, ghost used: nat, ghost htx: u32, ghost hrx: u32)
      requires Ok() && tx != rx && |plans| == TRIES
      modifies this
      ensures Ok() && old(edges) <= edges
      ensures ok ==> used < TRIES && AcceptedAt(old(|edges|), plans, used) && NoneBefore(old(|edges|), plans, used)
      ensures !ok ==> NoneBefore(old(|edges|), plans, TRIES)
      ensures ok && Disturbance(plans[used]) < M32 ==>
                edges != [] && Exact(Pair(edges[|edges| - 1], tx, rx), plans[used], htx, hrx, offset)
      ensures used == 0 ==> htx == old(hi)(tx) && hrx == old(hi)(rx)
    {
      used, htx, hrx := 0, hi(tx), hi(rx);
      ghost var n := |edges|;
      for tries := 0 to TRIES
        invariant Ok() && old(edges) <= edges && |edges| == n + Sum(plans, tries)
        invariant NoneBefore(n, plans, tries)
        invariant tries == 0 ==> hi(tx) == old(hi)(tx) && hi(rx) == old(hi)(rx)
      {
        used, htx, hrx := tries, hi(tx), hi(rx);
        ok, offset := Try(tx, rx, plans, tries, n);
        if ok { return; }
      }
      ok, offset, used := false, 0, TRIES;
    }
  }

  /** The offset is the edge's exactly if the failed reads left it unharmed. */
  predicate Exact(s: Stamp, p: Plan, staleTx: u32, staleRx: u32, offset: u64) {
    offset as int == (s.tx - s.rx) % M64 <==> Unharmed(s, p, staleTx, staleRx)
  }

  /** All edges of the first n plans. */
  function Sum(plans: seq<Plan>, n: nat): nat
    requires n <= |plans|
  {
    if n == 0 then 0 else Sum(plans, n - 1) + ToRxB(plans[n - 1])
  }

  /** Attempt i is accepted, when n edges were counted before the first attempt; none before attempt k is. */
  predicate AcceptedAt(n: nat, plans: seq<Plan>, i: nat)
    requires i < |plans|
  {
    Accepted(n + Sum(plans, i), plans[i])
  }

  predicate NoneBefore(n: nat, plans: seq<Plan>, k: nat)
    requires k <= |plans|
  {
    forall i | 0 <= i < k :: !AcceptedAt(n, plans, i)
  }

  /** An attempt undisturbed by edges in which only reading the transmit card's high half fails. */
  const HIGH_FAILS: Plan := Script([[], [], [], [], [], [], [], []], [true, true, true, false, true, true, true, true])

  /** After one edge at 2^32 on one card and 0 on the other, it is accepted with offset 0 in place of 2^32. */
  method WrongOffset() returns (ok: bool, offset: u64, s: Stamp)
    ensures ok && offset == 0 && (s.tx - s.rx) % M64 == M32
  {
    var rig := new Rig();
    var e: Latch := c => if c == 0 then M32 else 0;
    rig.Edge(e);
    s := Pair(e, 0, 1);
    ok, offset := rig.Attempt(0, 1, HIGH_FAILS);
  }

  // ---- the correction table -----------------------------------------------------------------------

  /** The receive card's correction slots and the one shared shadow of the low half. */
  class Corrections {
    /** No register write is lost. */
    const lossless: bool
    var table: seq<u64>
    var shadow: u32

    /** How many slots the bitstream implements. */
    ghost predicate Ok()
      reads this
    {
      |table| <= SLOTS
    }

    /** A register write lands or is lost; the caller is not told. */
    method WriteLow(v: u32) returns (ghost landed: bool)
      modifies this`shadow
      ensures shadow == if landed then v else old(shadow)
      ensures lossless ==> landed
    {
      var lost: bool := *;
      if lossless || !lost { shadow := v; }
      landed := lossless || !lost;
    }

    method WriteHigh(slot: nat, v: u32) returns (ghost landed: bool)
      modifies this`table
      ensures landed && slot < old(|table|) ==> table == old(table)[slot := Join(v, shadow)]
      ensures !landed || slot >= old(|table|) ==> table == old(table)
      ensures lossless ==> landed
    {
      var lost: bool := *;
      if (lossless || !lost) && slot < |table| { table := table[slot := Join(v, shadow)]; }
      landed := lossless || !lost;
    }

    /** pw_gpio_sync_write_correction: the low half stages, the high half commits both. */
    method WriteCorrection(slot: nat, corr: int) returns (ghost landed: bool)
      requires Ok()
      modifies this
      ensures Ok() && |table| == old(|table|)
      ensures slot >= SLOTS ==> table == old(table)
      ensures forall i | 0 <= i < |table| && i != slot :: table[i] == old(table)[i]
      ensures landed && slot < |table| ==> table[slot] as int == corr % M64
      ensures lossless && slot < SLOTS ==> landed
    {
      landed := false;
      if slot >= SLOTS { return; }
      var u: u64 := corr % M64;
      ghost var a, b;
      a := WriteLow(Lo(u));
      b := WriteHigh(slot, Hi(u));
      landed := a && b;
      JoinParts(u);
    }
  }

  // ---- what the correction is for -----------------------------------------------------------------

  /** xcard_cal_bias. */
  function CalBias(cal: int, txCard: u16, rxCard: u16): int {
    if cal == 0 || txCard == rxCard then 0 else if txCard < rxCard then cal else -cal
  }

  /** A card's counter at true time t: equal rate, its own phase. */
  function Counter(phase: u64, t: nat): u64 { (t + phase) % M64 }

  /** The latency the checker accumulates. */
  function Measured(rxTs: u64, corr: u64, txTs: u64): u64 { ((rxTs + corr) % M64 - txTs) % M64 }

  lemma ModAdd(a: int, b: int)
    ensures (a % M64 + b % M64) % M64 == (a + b) % M64
    ensures (a % M64 + b) % M64 == (a + b) % M64
    ensures (a - b % M64) % M64 == (a - b) % M64
  {
    var qa, qb := a / M64, b / M64;
    ShiftMod(a % M64 + b % M64, qa + qb);
    ShiftMod(a % M64 + b, qa);
    ShiftMod(a - b, qb);
    assert a - b % M64 == (a - b) + qb * M64;
  }

  lemma ShiftMod(x: int, k: int)
    ensures (x + k * M64) % M64 == x % M64
  {
    var q, r := x / M64, x % M64;
    assert x + k * M64 == (q + k) * M64 + r;
    QuotientUnique((x + k * M64) / M64, (x + k * M64) % M64, q + k, r);
  }

  lemma QuotientUnique(q: int, r: int, p: int, s: int)
    requires 0 <= r < M64 && 0 <= s < M64 && q * M64 + r == p * M64 + s
    ensures r == s
  {}

  /**
   A frame sent at true time a and received at true time b, corrected by the offset of any one
   edge, measures b - a modulo 2^64, plus the calibration bias if there is one.
   */
  lemma TrueLatency(pTx: u64, pRx: u64, edge: nat, a: nat, b: nat, bias: int, corr: u64)
    requires corr as int == (Counter(pTx, edge) - Counter(pRx, edge) + bias) % M64
    ensures Measured(Counter(pRx, b), corr, Counter(pTx, a)) as int == (b - a + bias) % M64
  {
    var k1, k2 := (edge + pTx) / M64, (edge + pRx) / M64;
    var k3 := (Counter(pTx, edge) - Counter(pRx, edge) + bias) / M64;
    var k4, k5 := (b + pRx) / M64, (a + pTx) / M64;
    var k6 := (Counter(pRx, b) + corr) / M64;
    ShiftMod(b - a + bias, k5 - k4 - k1 + k2 - k3 - k6);
  }

  /** The bias is antisymmetric: what it adds in one direction it takes away in the other. */
  lemma BiasCancels(cal: int, x: u16, y: u16)
    ensures CalBias(cal, x, y) + CalBias(cal, y, x) == 0
  {}

  /** The same when the edge was latched at time s on the sending card and at time t on the receiving one. */
  lemma SkewedLatency(pTx: u64, pRx: u64, s: nat, t: nat, a: nat, b: nat, bias: int, corr: u64)
    requires corr as int == (Counter(pTx, s) - Counter(pRx, t) + bias) % M64
    ensures Measured(Counter(pRx, b), corr, Counter(pTx, a)) as int == (b - a + s - t + bias) % M64
  {
    var k1, k2 := (s + pTx) / M64, (t + pRx) / M64;
    var k3 := (Counter(pTx, s) - Counter(pRx, t) + bias) / M64;
    var k4, k5 := (b + pRx) / M64, (a + pTx) / M64;
    var k6 := (Counter(pRx, b) + corr) / M64;
    ShiftMod(b - a + s - t + bias, k5 - k4 - k1 + k2 - k3 - k6);
  }

  /**
   What the bias is for: when the card with the higher id latches the edge d ticks later than the
   other one, flows from the lower to the higher id read d too little and flows back d too much,
   and both measure the true latency exactly if the calibration is d, modulo 2^64.
   */
  lemma CalibrationIsSkew(cal: int, d: nat, edge: nat, x: u16, y: u16, pTx: u64, pRx: u64, a: nat, b: nat, corr: u64)
    requires x != y
    requires var s, t := if x < y then edge else edge + d, if x < y then edge + d else edge;
             corr as int == (Counter(pTx, s) - Counter(pRx, t) + CalBias(cal, x, y)) % M64
    ensures Measured(Counter(pRx, b), corr, Counter(pTx, a)) as int
            == (b - a + if x < y then cal - d else d - cal) % M64
    ensures Measured(Counter(pRx, b), corr, Counter(pTx, a)) as int == (b - a) % M64 <==> (cal - d) % M64 == 0
  {
    var s, t := if x < y then edge else edge + d, if x < y then edge + d else edge;
    SkewedLatency(pTx, pRx, s, t, a, b, CalBias(cal, x, y), corr);
    SameRemainder(b - a, if x < y then cal - d else d - cal);
    Opposite(cal - d);
  }

  lemma SameRemainder(x: int, e: int)
    ensures (x + e) % M64 == x % M64 <==> e % M64 == 0
  {
    if e % M64 == 0 { ShiftMod(x, e / M64); }
    if (x + e) % M64 == x % M64 {
      assert e == ((x + e) / M64 - x / M64) * M64;
      ShiftMod(0, (x + e) / M64 - x / M64);
    }
  }

  lemma Opposite(e: int)
    ensures e % M64 == 0 <==> (-e) % M64 == 0
  {}

  /** With this correction every frame measures its true latency, plus the bias, modulo 2^64. */
  ghost predicate Calibrated(corr: u64, bias: int, pTx: u64, pRx: u64) {
    forall a: nat, b: nat :: Measured(Counter(pRx, b), corr, Counter(pTx, a)) as int == (b - a + bias) % M64
  }

  lemma EdgeCalibrates(s: Stamp, corr: u64, bias: int, pTx: u64, pRx: u64, t: nat)
    requires s == Stamp(Counter(pTx, t), Counter(pRx, t)) && corr as int == (s.tx - s.rx + bias) % M64
    ensures Calibrated(corr, bias, pTx, pRx)
  {
    forall a: nat, b: nat ensures Measured(Counter(pRx, b), corr, Counter(pTx, a)) as int == (b - a + bias) % M64 {
      TrueLatency(pTx, pRx, t, a, b, bias, corr);
    }
  }

  /** The correction is the edge's offset plus the bias, and calibrates counters that edge latched. */
  ghost predicate Follows(s: Stamp, corr: u64, bias: int) {
    && corr as int == (s.tx - s.rx + bias) % M64
    && forall pTx: u64, pRx: u64, t: nat | s == Stamp(Counter(pTx, t), Counter(pRx, t)) ::
      Calibrated(corr, bias, pTx, pRx)
  }

  lemma OffsetFollows(s: Stamp, offset: u64, corr: u64, bias: int)
    requires offset as int == (s.tx - s.rx) % M64 && corr as int == (offset + bias) % M64
    ensures Follows(s, corr, bias)
  {
    ModAdd(s.tx - s.rx, bias);
    forall pTx: u64, pRx: u64, t: nat | s == Stamp(Counter(pTx, t), Counter(pRx, t))
      ensures Calibrated(corr, bias, pTx, pRx)
    {
      EdgeCalibrates(s, corr, bias, pTx, pRx, t);
    }
  }

  /** Fewer than 2^32 edges came during the attempt, and failed timestamp reads left the offset unharmed. */
  predicate Trusted(edges: seq<Latch>, tx: nat, rx: nat, p: Plan, staleTx: u32, staleRx: u32) {
    Disturbance(p) < M32 && edges != [] && Unharmed(Pair(edges[|edges| - 1], tx, rx), p, staleTx, staleRx)
  }

  /**
   One step of the servo for a cross-card flow: read a coherent offset, publish it for the receive
   slot. If the accepted attempt is to be trusted and the writes landed, and the cards' counters
   run at one rate, every frame of the flow then measures its true latency plus the bias.
   */
  method ServoStep(rig: Rig, corr: Corrections, tx: nat, rx: nat, plans: seq<Plan>, slot: nat, bias: int)
    returns (wrote: bool, ghost used: nat, ghost htx: u32, ghost hrx: u32, ghost landed: bool)
    requires rig.Ok() && corr.Ok() && tx != rx && |plans| == TRIES
    modifies rig, corr
    ensures rig.Ok() && corr.Ok() && |corr.table| == old(|corr.table|) && old(rig.edges) <= rig.edges
    ensures !wrote ==> corr.table == old(corr.table) && NoneBefore(old(|rig.edges|), plans, TRIES)
    ensures wrote ==> used < TRIES && AcceptedAt(old(|rig.edges|), plans, used)
    ensures wrote && corr.lossless && slot < SLOTS ==> landed
    ensures forall i | 0 <= i < |corr.table| && i != slot :: corr.table[i] == old(corr.table)[i]
    ensures wrote && landed && slot < |corr.table| && Trusted(rig.edges, tx, rx, plans[used], htx, hrx) ==>
              Follows(Pair(rig.edges[|rig.edges| - 1], tx, rx), corr.table[slot], bias)
  {
    var ok, offset;
    ok, offset, used, htx, hrx := rig.CoherentOffset(tx, rx, plans);
    wrote, landed := ok, false;
    if ok {
      landed := corr.WriteCorrection(slot, offset + bias);
      if landed && slot < |corr.table| && Trusted(rig.edges, tx, rx, plans[used], htx, hrx) {
        OffsetFollows(Pair(rig.edges[|rig.edges| - 1], tx, rx), offset, corr.table[slot], bias);
      }
    }
  }
}
