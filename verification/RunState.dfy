/**
 The daemon's view of which flows are running: the enable bits of the staged generator rows
 of its compiled program.
 */
module RunState {
  import opened Basics
  import opened Config
  import opened CardBuilder
  import opened FlowRows
  import opened FlowSlots
  import opened FlowCompiler
  import opened TableWrites
  import EndToEnd

  // ---- find_tx_row ---------------------------------------------------------------------------

  /** First meta record of this flow id, from i on. */
  function FindMeta(meta: seq<Meta>, id: u32, i: nat := 0): (r: Option<nat>)
    requires i <= |meta|
    ensures r.Some? ==> i <= r.value < |meta| && meta[r.value].flowId == id
    decreases |meta| - i
  {
    if i == |meta| then None else if meta[i].flowId == id then Some(i) else FindMeta(meta, id, i + 1)
  }

  /** First row with this local id, from r on. */
  function FindRow(rows: seq<Row>, localId: u32, r: nat := 0): (q: Option<nat>)
    requires r <= |rows|
    ensures q.Some? ==> r <= q.value < |rows| && rows[q.value].localId == localId
    decreases |rows| - r
  {
    if r == |rows| then None else if rows[r].localId == localId then Some(r) else FindRow(rows, localId, r + 1)
  }

  datatype Spot = Spot(card: nat, row: nat)

  /** First row with this local id on a card with this card id, from card c on. */
  function FindSpot(cards: seq<CardTables>, cardId: u16, localId: u32, c: nat := 0): (s: Option<Spot>)
    requires c <= |cards|
    ensures s.Some? ==> s.value.card < |cards| && s.value.row < |cards[s.value.card].rows|
    decreases |cards| - c
  {
    if c == |cards| then None
    else if cards[c].cardId == cardId && FindRow(cards[c].rows, localId).Some? then
      Some(Spot(c, FindRow(cards[c].rows, localId).value))
    else FindSpot(cards, cardId, localId, c + 1)
  }

  function TxSpot(prog: Program, id: u32): (s: Option<Spot>)
    ensures s.Some? ==> s.value.card < |prog.cards| && s.value.row < |prog.cards[s.value.card].rows|
  {
    var m := FindMeta(prog.meta, id);
    if m.None? then None else FindSpot(prog.cards, prog.meta[m.value].txCard, prog.meta[m.value].txLocal)
  }

  /** find_tx_row: the three nested searches. */
  method FindTxRow(prog: Program, id: u32) returns (s: Option<Spot>)
    ensures s == TxSpot(prog, id)
  {
    var i := 0;
    while i < |prog.meta| && prog.meta[i].flowId != id
      invariant i <= |prog.meta| && FindMeta(prog.meta, id) == FindMeta(prog.meta, id, i)
    {
      i := i + 1;
    }
    if i == |prog.meta| { return None; }
    var m := prog.meta[i];
    for ci := 0 to |prog.cards|
      invariant TxSpot(prog, id) == FindSpot(prog.cards, m.txCard, m.txLocal, ci)
    {
      var cp := prog.cards[ci];
      if cp.cardId == m.txCard {
        for r := 0 to |cp.rows|
          invariant FindRow(cp.rows, m.txLocal) == FindRow(cp.rows, m.txLocal, r)
        {
          if cp.rows[r].localId == m.txLocal { return Some(Spot(ci, r)); }
        }
      }
    }
    s := None;
  }

  // ---- run state -------------------------------------------------------------------------------

  function SetRun(r: Row, on: bool): Row { r.(enable := on, txEnable := on) }

  /** The program with one row switched on or off. */
  function WithRun(prog: Program, s: Spot, on: bool): Program
    requires s.card < |prog.cards| && s.row < |prog.cards[s.card].rows|
  {
    var cp := prog.cards[s.card];
    prog.(cards := prog.cards[s.card := cp.(rows := cp.rows[s.row := SetRun(cp.rows[s.row], on)])])
  }

  /** flow_enabled: what flows and flow.stats report. */
  predicate Enabled(prog: Program, id: u32) {
    var s := TxSpot(prog, id);
    s.Some? && prog.cards[s.value.card].rows[s.value.row].txEnable
  }

  /** A row of the running program: the compiled one, its generator perhaps switched off. */
  predicate RowRuns(b: Row, p: Row) {
    p == b.(enable := if b.txEnable then p.txEnable else b.enable, txEnable := p.txEnable)
      && (p.txEnable ==> b.txEnable)
  }

  predicate CardRuns(b: CardTables, p: CardTables) {
    && p == b.(rows := p.rows) && |p.rows| == |b.rows|
    && forall r | 0 <= r < |b.rows| :: RowRuns(b.rows[r], p.rows[r])
  }

  /** Only generator enable bits differ between the compiled program and the running one. */
  predicate RunStateOf(base: Program, prog: Program) {
    && prog.meta == base.meta && |prog.cards| == |base.cards|
    && forall c | 0 <= c < |base.cards| :: CardRuns(base.cards[c], prog.cards[c])
  }

  // ---- what the run-state operations rely on ---------------------------------------------------

  /** Record k leads find_tx_row to a generator row of that flow, enabled as compiled. */
  predicate HasGenerator(p: Program, k: nat)
    requires k < |p.meta|
  {
    var s := TxSpot(p, p.meta[k].flowId);
    s.Some? && var r := p.cards[s.value.card].rows[s.value.row];
               r.enable && r.txEnable && r.flowId == p.meta[k].flowId
  }

  predicate LeadsTo(p: Program, k: nat, c: nat, r: nat)
    requires k < |p.meta|
  {
    TxSpot(p, p.meta[k].flowId) == Some(Spot(c, r))
  }

  /** Row r of card c is the generator row of some flow. */
  predicate IsGenerator(p: Program, c: nat, r: nat) {
    exists k | 0 <= k < |p.meta| :: LeadsTo(p, k, c, r)
  }

  predicate DistinctIds(meta: seq<Meta>) {
    forall i, j | 0 <= i < j < |meta| :: meta[i].flowId != meta[j].flowId
  }

  predicate CardSound(p: Program, c: nat)
    requires c < |p.cards|
  {
    && CountsOk(p.cards[c]) && DistinctBuckets(p.cards[c].hashEntries)
    && forall r | 0 <= r < |p.cards[c].rows| && p.cards[c].rows[r].txEnable :: IsGenerator(p, c, r)
  }

  /** A program as compiled: every flow has its own enabled generator row, and no other row generates. */
  predicate Sound(p: Program) {
    && DistinctIds(p.meta)
    && (forall k | 0 <= k < |p.meta| :: HasGenerator(p, k))
    && (forall c | 0 <= c < |p.cards| :: CardSound(p, c))
  }

  lemma {:induction false} FindRowIs(rows: seq<Row>, l: u32, r: nat)
    requires r <= l < |rows| && forall j | 0 <= j < |rows| :: rows[j].localId == j
    ensures FindRow(rows, l, r) == Some(l)
    decreases l - r
  {
    if r < l { FindRowIs(rows, l, r + 1); }
  }

  lemma {:induction false} FindMetaIs(meta: seq<Meta>, k: nat, i: nat)
    requires i <= k < |meta| && forall a, b | 0 <= a < b < |meta| :: meta[a].flowId != meta[b].flowId
    ensures FindMeta(meta, meta[k].flowId, i) == Some(k)
    decreases k - i
  {
    if i < k { FindMetaIs(meta, k, i + 1); }
  }

  lemma {:induction false} FindSpotIs(cards: seq<CardTables>, c: nat, l: u32, i: nat)
    requires i <= c < |cards| && forall a, b | 0 <= a < b < |cards| :: cards[a].cardId != cards[b].cardId
    requires l < |cards[c].rows| && forall j | 0 <= j < |cards[c].rows| :: cards[c].rows[j].localId == j
    ensures FindSpot(cards, cards[c].cardId, l, i) == Some(Spot(c, l))
    decreases c - i
  {
    if i < c { FindSpotIs(cards, c, l, i + 1); } else { FindRowIs(cards[c].rows, l, 0); }
  }

  lemma CompiledGenerator(cfg: Config, t: seq<CardTables>, base: Program, k: nat)
    requires CompiledFrom(cfg, t, base) && k < |base.meta|
    requires AllResolve(cfg) && |base.meta| == |cfg.flows| && DistinctIds(base.meta)
    ensures TxSpot(base, base.meta[k].flowId) == Some(Spot(TxIdx(cfg, cfg.flows[k]), base.meta[k].txLocal))
    ensures HasGenerator(base, k)
  {
    assert Placed(cfg, t, base.meta, k);
    var c := TxIdx(cfg, cfg.flows[k]);
    assert Finished(cfg, t[c], base.cards[c]);
    forall a | 0 <= a < |base.cards|
      ensures base.cards[a].cardId == cfg.cards[a].id
    {
      assert Finished(cfg, t[a], base.cards[a]);
    }
    FindMetaIs(base.meta, k, 0);
    FindSpotIs(base.cards, c, base.meta[k].txLocal, 0);
  }

  lemma CompiledMeta(cfg: Config, t: seq<CardTables>, base: Program)
    requires CompiledFrom(cfg, t, base)
    ensures AllResolve(cfg) && |base.meta| == |cfg.flows| && DistinctIds(base.meta)
    ensures forall k | 0 <= k < |cfg.flows| :: base.meta[k].flowId == cfg.flows[k].id
  {
    ValidResolves(cfg);
    forall k | 0 <= k < |cfg.flows| ensures base.meta[k].flowId == cfg.flows[k].id {
      assert Placed(cfg, t, base.meta, k);
    }
  }

  lemma CompiledCardSound(cfg: Config, t: seq<CardTables>, base: Program, c: nat)
    requires CompiledFrom(cfg, t, base) && c < |base.cards|
    requires AllResolve(cfg) && |base.meta| == |cfg.flows| && DistinctIds(base.meta)
    ensures CardSound(base, c)
  {
    EndToEnd.CompiledFits(cfg, t, base, c);
    assert Finished(cfg, t[c], base.cards[c]);
    forall r | 0 <= r < |base.cards[c].rows| && base.cards[c].rows[r].txEnable ensures IsGenerator(base, c, r) {
      var k := OneGeneratorRow(cfg, t, base.meta, c, r);
      CompiledGenerator(cfg, t, base, k);
      assert LeadsTo(base, k, c, r);
    }
  }

  /** The compiler's programs are sound, flow by flow and card by card. */
  lemma CompiledSound(cfg: Config, t: seq<CardTables>, base: Program)
    requires CompiledFrom(cfg, t, base)
    ensures Sound(base) && |base.meta| == |cfg.flows| && |base.cards| == |cfg.cards|
    ensures forall k | 0 <= k < |cfg.flows| :: base.meta[k].flowId == cfg.flows[k].id
  {
    CompiledMeta(cfg, t, base);
    forall k | 0 <= k < |base.meta| ensures HasGenerator(base, k) { CompiledGenerator(cfg, t, base, k); }
    forall c | 0 <= c < |base.cards| ensures CardSound(base, c) { CompiledCardSound(cfg, t, base, c); }
  }

  // ---- run states of a sound program -----------------------------------------------------------

  lemma {:induction false} FindRowStable(b: seq<Row>, p: seq<Row>, l: u32, r: nat)
    requires r <= |b| == |p| && forall j | 0 <= j < |b| :: RowRuns(b[j], p[j])
    ensures FindRow(p, l, r) == FindRow(b, l, r)
    decreases |b| - r
  {
    if r < |b| {
      assert RowRuns(b[r], p[r]);
      FindRowStable(b, p, l, r + 1);
    }
  }

  lemma {:induction false} FindSpotStable(b: seq<CardTables>, p: seq<CardTables>, id: u16, l: u32, c: nat)
    requires c <= |b| == |p| && forall j | 0 <= j < |b| :: CardRuns(b[j], p[j])
    ensures FindSpot(p, id, l, c) == FindSpot(b, id, l, c)
    decreases |b| - c
  {
    if c < |b| {
      assert CardRuns(b[c], p[c]);
      FindRowStable(b[c].rows, p[c].rows, l, 0);
      FindSpotStable(b, p, id, l, c + 1);
    }
  }

  /** Starting and stopping never moves a flow's generator row. */
  lemma SpotStable(base: Program, prog: Program, id: u32)
    requires RunStateOf(base, prog)
    ensures TxSpot(prog, id) == TxSpot(base, id)
  {
    var m := FindMeta(base.meta, id);
    if m.Some? { FindSpotStable(base.cards, prog.cards, base.meta[m.value].txCard, base.meta[m.value].txLocal, 0); }
  }

  lemma RunStateStep(base: Program, prog: Program, s: Spot, on: bool)
    requires RunStateOf(base, prog) && s.card < |prog.cards| && s.row < |prog.cards[s.card].rows|
    requires base.cards[s.card].rows[s.row].txEnable
    ensures RunStateOf(base, WithRun(prog, s, on))
  {
    var p := WithRun(prog, s, on);
    forall c | 0 <= c < |base.cards| ensures CardRuns(base.cards[c], p.cards[c]) {
      assert CardRuns(base.cards[c], prog.cards[c]);
      forall r | 0 <= r < |base.cards[c].rows| ensures RowRuns(base.cards[c].rows[r], p.cards[c].rows[r]) {
        assert RowRuns(base.cards[c].rows[r], prog.cards[c].rows[r]);
      }
    }
  }

  /** Switching a flow's generator row is a change of run state and nothing else. */
  lemma WithRunKeeps(base: Program, prog: Program, id: u32, on: bool)
    requires Sound(base) && RunStateOf(base, prog) && TxSpot(prog, id).Some?
    ensures RunStateOf(base, WithRun(prog, TxSpot(prog, id).value, on))
  {
    SpotStable(base, prog, id);
    var k := FindMeta(base.meta, id).value;
    assert HasGenerator(base, k);
    RunStateStep(base, prog, TxSpot(prog, id).value, on);
  }

  /** Switched the same way, a row is the same in any two run states. */
  lemma SameWhenSwitched(base: Program, p: Program, q: Program, s: Spot, on: bool)
    requires RunStateOf(base, p) && RunStateOf(base, q) && s.card < |base.cards| && s.row < |base.cards[s.card].rows|
    ensures SetRun(p.cards[s.card].rows[s.row], on) == SetRun(q.cards[s.card].rows[s.row], on)
  {
    assert CardRuns(base.cards[s.card], p.cards[s.card]) && CardRuns(base.cards[s.card], q.cards[s.card]);
    assert RowRuns(base.cards[s.card].rows[s.row], p.cards[s.card].rows[s.row]);
    assert RowRuns(base.cards[s.card].rows[s.row], q.cards[s.card].rows[s.row]);
  }

  predicate TxOn(prog: Program, s: Spot)
    requires s.card < |prog.cards| && s.row < |prog.cards[s.card].rows|
  {
    prog.cards[s.card].rows[s.row].txEnable
  }

  lemma RowAfter(prog: Program, s: Spot, on: bool, q: Spot)
    requires s.card < |prog.cards| && s.row < |prog.cards[s.card].rows|
    requires q.card < |prog.cards| && q.row < |prog.cards[q.card].rows|
    ensures var p := WithRun(prog, s, on);
            |p.cards[q.card].rows| == |prog.cards[q.card].rows| && TxOn(p, q) == if q == s then on else TxOn(prog, q)
  {}

  /** Starting or stopping one flow sets what is reported for it and for no other flow. */
  lemma WithRunReports(base: Program, prog: Program, k: nat, on: bool, j: nat)
    requires Sound(base) && RunStateOf(base, prog) && k < |prog.meta| && j < |prog.meta|
    ensures TxSpot(prog, prog.meta[k].flowId).Some?
    ensures var p := WithRun(prog, TxSpot(prog, prog.meta[k].flowId).value, on);
            Enabled(p, prog.meta[j].flowId) == if j == k then on else Enabled(prog, prog.meta[j].flowId)
  {
    var a, b := prog.meta[k].flowId, prog.meta[j].flowId;
    assert HasGenerator(base, k) && HasGenerator(base, j);
    SpotStable(base, prog, a);
    SpotStable(base, prog, b);
    WithRunKeeps(base, prog, a, on);
    var s, q := TxSpot(prog, a).value, TxSpot(prog, b).value;
    SpotStable(base, WithRun(prog, s, on), b);
    RowAfter(prog, s, on, q);
  }

  /** Row r of card c generates a flow that is reported enabled. */
  predicate Reported(prog: Program, c: nat, r: nat) {
    exists k | 0 <= k < |prog.meta| :: LeadsTo(prog, k, c, r) && Enabled(prog, prog.meta[k].flowId)
  }

  lemma EnabledIsActive(base: Program, prog: Program, k: nat)
    requires Sound(base) && RunStateOf(base, prog) && k < |prog.meta|
    ensures TxSpot(prog, prog.meta[k].flowId).Some?
    ensures var s := TxSpot(prog, prog.meta[k].flowId).value;
            Enabled(prog, prog.meta[k].flowId) <==> Active(prog.cards[s.card].rows[s.row])
  {
    assert HasGenerator(base, k);
    SpotStable(base, prog, prog.meta[k].flowId);
    var s := TxSpot(prog, prog.meta[k].flowId).value;
    assert CardRuns(base.cards[s.card], prog.cards[s.card]);
    assert RowRuns(base.cards[s.card].rows[s.row], prog.cards[s.card].rows[s.row]);
  }

  /** A staged row's generator is on exactly when its flow is reported enabled. */
  lemma ActiveIsReported(base: Program, prog: Program, c: nat, r: nat)
    requires Sound(base) && RunStateOf(base, prog) && c < |prog.cards| && r < |prog.cards[c].rows|
    ensures Active(prog.cards[c].rows[r]) <==> Reported(prog, c, r)
  {
    if Active(prog.cards[c].rows[r]) {
      assert CardRuns(base.cards[c], prog.cards[c]);
      assert RowRuns(base.cards[c].rows[r], prog.cards[c].rows[r]);
      assert CardSound(base, c);
      assert IsGenerator(base, c, r);
      var k :| 0 <= k < |base.meta| && LeadsTo(base, k, c, r);
      SpotStable(base, prog, base.meta[k].flowId);
      EnabledIsActive(base, prog, k);
      assert LeadsTo(prog, k, c, r);
    }
    if Reported(prog, c, r) {
      var k :| 0 <= k < |prog.meta| && LeadsTo(prog, k, c, r) && Enabled(prog, prog.meta[k].flowId);
      EnabledIsActive(base, prog, k);
    }
  }

  /** No flow is reported enabled. */
  predicate Idle(prog: Program) { AllReported(prog, |prog.meta|, false) }

  /** The first n flows are all reported as `on`. */
  predicate AllReported(prog: Program, n: nat, on: bool)
    requires n <= |prog.meta|
  {
    forall k | 0 <= k < n :: Enabled(prog, prog.meta[k].flowId) == on
  }

  /** stage_flow_run_state: force the run state of every flow's generator row, in memory only. */
  method StageRunState(prog: Program, on: bool, ghost base: Program) returns (prog': Program)
    requires Sound(base) && RunStateOf(base, prog)
    ensures RunStateOf(base, prog')
    ensures AllReported(prog', |prog'.meta|, on)
  {
    prog' := prog;
    for k := 0 to |prog.meta|
      invariant RunStateOf(base, prog') && prog'.meta == prog.meta
      invariant AllReported(prog', k, on)
    {
      var s := FindTxRow(prog', prog'.meta[k].flowId);
      forall j | 0 <= j < |prog.meta| ensures s.Some?
        ensures Enabled(WithRun(prog', s.value, on), prog.meta[j].flowId)
             == if j == k then on else Enabled(prog', prog.meta[j].flowId)
      {
        WithRunReports(base, prog', k, on, j);
      }
      if s.Some? {
        WithRunKeeps(base, prog', prog.meta[k].flowId, on);
        prog' := WithRun(prog', s.value, on);
      }
    }
  }

  /** A program in which no flow is reported enabled generates nothing at all. */
  lemma IdleGeneratesNothing(base: Program, prog: Program, c: nat, r: nat)
    requires Sound(base) && RunStateOf(base, prog) && Idle(prog) && c < |prog.cards| && r < |prog.cards[c].rows|
    ensures !Active(prog.cards[c].rows[r])
  {
    ActiveIsReported(base, prog, c, r);
  }
}
