/**
 The daemon's live state: the running configuration and program, the cards they are
 programmed into, and the commands that change them (test.*, flow.*, config.load).
 */
module Daemon {
  import opened Basics
  import opened Config
  import opened Classifier
  import opened CardBuilder
  import opened ModifierParse
  import opened FlowSlots
  import opened FlowCompiler
  import opened Registers
  import opened TableWrites
  import opened CardMeaning
  import opened Service
  import opened RunState
  import Device
  import EndToEnd

  const DP_RESET_W := 0x3FFD
  const STATS_CLEAR_W := 0x3FFE

  /** The body of a config.load request, read up to the flows' address modifiers; a test-only body has no cards. */
  datatype Payload = Payload(cards: seq<Card>, lifs: seq<LogicalIf>, flows: seq<FlowText>, forwards: seq<ForwardRule>)

  datatype Reply = Rejected | Loaded | RolledBack | OutOfSync

  datatype Command =
    | TestStart | TestStop | TestArm | StatsClear
    | FlowStart(id: u32) | FlowStop(id: u32)
    | ConfigLoad(body: Option<Payload>)

  predicate Starts(c: Command) { c.TestStart? || c.FlowStart? }

  /** What a command asks of the flow with this id, if anything. */
  function Asks(c: Command, id: u32): Option<bool> {
    if c.TestStart? || (c.FlowStart? && c.id == id) then Some(true)
    else if c.TestStop? || (c.FlowStop? && c.id == id) then Some(false)
    else None
  }

  /** What the last command concerning this flow asked, or how it was before. */
  function LastAsked(cmds: seq<Command>, id: u32, was: bool): bool {
    if cmds == [] then was
    else
      var a := Asks(cmds[|cmds| - 1], id);
      if a.Some? then a.value else LastAsked(cmds[..|cmds| - 1], id, was)
  }

  /** same_topology, for one logical interface. */
  predicate SameLif(a: LogicalIf, b: LogicalIf) {
    a.id == b.id && a.globalPort == b.globalPort && a.vlan == b.vlan && a.name == b.name && a.mac == b.mac
  }

  predicate SameTopology(a: Config, b: Payload) {
    && a.cards == b.cards && |a.lifs| == |b.lifs|
    && forall i | 0 <= i < |a.lifs| :: SameLif(a.lifs[i], b.lifs[i])
  }

  /** The running environment with the body's flows and forwards. */
  function Merged(cfg: Config, body: Payload): Config
    requires ParseFlows(body.flows).Some?
  {
    cfg.(flows := ParseFlows(body.flows).value, forwards := body.forwards)
  }

  /** A body that parses, keeps the topology, and compiles in the running environment. */
  predicate Acceptable(cfg: Config, body: Option<Payload>) {
    && body.Some? && ParseFlows(body.value.flows).Some?
    && (body.value.cards == [] || SameTopology(cfg, body.value))
    && Compilable(Merged(cfg, body.value))
  }

  /** The same cards, and interface by interface the same number, port, VLAN, name and address. */
  predicate SameEnvironment(cfg: Config, body: Payload) {
    && cfg.cards == body.cards && |cfg.lifs| == |body.lifs|
    && forall i | 0 <= i < |cfg.lifs| :: var x, y := cfg.lifs[i], body.lifs[i];
         (x.id, x.globalPort, x.vlan, x.name, x.mac) == (y.id, y.globalPort, y.vlan, y.name, y.mac)
  }

  lemma TopologyMeans(cfg: Config, body: Payload)
    ensures SameTopology(cfg, body) <==> SameEnvironment(cfg, body)
  {
    if SameEnvironment(cfg, body) {
      forall i | 0 <= i < |cfg.lifs| ensures SameLif(cfg.lifs[i], body.lifs[i]) {
        var x, y := cfg.lifs[i], body.lifs[i];
        assert (x.id, x.globalPort, x.vlan, x.name, x.mac) == (y.id, y.globalPort, y.vlan, y.name, y.mac);
      }
    }
  }

  lemma AcceptableMeans(cfg: Config, body: Payload)
    ensures Acceptable(cfg, Some(body)) ==>
              exists fs | FlowsParse(body.flows, fs) :: Compilable(Config(cfg.cards, cfg.lifs, fs, body.forwards))
    ensures forall fs | FlowsParse(body.flows, fs) ::
              Acceptable(cfg, Some(body)) <==>
              (body.cards == [] || SameEnvironment(cfg, body))
              && Compilable(Config(cfg.cards, cfg.lifs, fs, body.forwards))
  {
    TopologyMeans(cfg, body);
    if ParseFlows(body.flows).Some? {
      ParseFlowsIs(body.flows, ParseFlows(body.flows).value);
    }
    forall fs | FlowsParse(body.flows, fs) ensures ParseFlows(body.flows) == Some(fs) {
      ParseFlowsIs(body.flows, fs);
    }
  }

  /** A program determines every row of a card it is programmed into. */
  lemma RowsDetermined(live0: seq<Row>, live1: seq<Row>, rows: seq<Row>)
    requires |live0| == |live1| && RowsWritten(live0, rows) && RowsWritten(live1, rows)
    ensures live0 == live1
  {}

  /** Switching one row of a programmed card and of the program keeps them together. */
  lemma ProgrammedStep(regs: RegFile, live: seq<Row>, cp: CardTables, row: nat, r: Row)
    requires Programmed(regs, live, cp) && row < |cp.rows|
    ensures Programmed(regs, live[row := r], cp.(rows := cp.rows[row := r]))
  {
    var cp' := cp.(rows := cp.rows[row := r]);
    assert HashWritten(regs, cp');
  }

  predicate NoLoads(cmds: seq<Command>) { forall i | 0 <= i < |cmds| :: !cmds[i].ConfigLoad? }

  predicate NoStarts(cmds: seq<Command>) { forall i | 0 <= i < |cmds| :: !Starts(cmds[i]) }

  lemma NoStartsStep(done: seq<Command>, cmd: Command)
    requires NoStarts(done + [cmd])
    ensures NoStarts(done) && !Starts(cmd)
  {
    forall i | 0 <= i < |done| ensures !Starts(done[i]) { assert (done + [cmd])[i] == done[i]; }
    assert (done + [cmd])[|done|] == cmd;
  }

  lemma NoLoadsStep(done: seq<Command>, cmd: Command)
    requires NoLoads(done + [cmd])
    ensures NoLoads(done) && !cmd.ConfigLoad?
  {
    forall i | 0 <= i < |done| ensures !done[i].ConfigLoad? { assert (done + [cmd])[i] == done[i]; }
    assert (done + [cmd])[|done|] == cmd;
  }

  /** Every flow is reported as before or as the command wants it. */
  predicate MovedTowards(p0: Program, p1: Program, on: bool) {
    && p1.meta == p0.meta
    && forall k | 0 <= k < |p0.meta| :: Enabled(p1, p0.meta[k].flowId) == on
                                        || Enabled(p1, p0.meta[k].flowId) == Enabled(p0, p0.meta[k].flowId)
  }

  /** What is reported for every other flow is as before. */
  predicate OthersKeep(p0: Program, p1: Program, id: u32) {
    forall k | 0 <= k < |p0.meta| && p0.meta[k].flowId != id ::
      Enabled(p1, p0.meta[k].flowId) == Enabled(p0, p0.meta[k].flowId)
  }

  lemma NoChange(p: Program)
    requires Sound(p)
    ensures RunStateOf(p, p)
  {
    forall c | 0 <= c < |p.cards| ensures CardRuns(p.cards[c], p.cards[c]) {
      forall r | 0 <= r < |p.cards[c].rows| ensures RowRuns(p.cards[c].rows[r], p.cards[c].rows[r]) {
        SelfRun(p, c, r);
      }
    }
  }

  lemma SelfRun(p: Program, c: nat, r: nat)
    requires Sound(p) && c < |p.cards| && r < |p.cards[c].rows|
    ensures RowRuns(p.cards[c].rows[r], p.cards[c].rows[r])
  {
    if p.cards[c].rows[r].txEnable {
      assert CardSound(p, c);
      assert IsGenerator(p, c, r);
      var k :| 0 <= k < |p.meta| && LeadsTo(p, k, c, r);
      assert HasGenerator(p, k);
    }
  }

  lemma ReportedGrows(p0: Program, p1: Program, k: nat, on: bool)
    requires MovedTowards(p0, p1, on) && k < |p0.meta| && AllReported(p0, k, on)
    requires Enabled(p1, p0.meta[k].flowId) == on
    ensures AllReported(p1, k + 1, on)
  {}

  lemma TowardsTrans(p0: Program, p1: Program, p2: Program, on: bool)
    requires MovedTowards(p0, p1, on) && MovedTowards(p1, p2, on)
    ensures MovedTowards(p0, p2, on)
  {}

  /** Every program the daemon holds fits the cards' windows. */
  lemma RunStateFits(base: Program, prog: Program)
    requires Sound(base) && RunStateOf(base, prog)
    ensures forall c | 0 <= c < |prog.cards| :: CountsOk(prog.cards[c]) && DistinctBuckets(prog.cards[c].hashEntries)
  {
    forall c | 0 <= c < |prog.cards| ensures CountsOk(prog.cards[c]) && DistinctBuckets(prog.cards[c].hashEntries) {
      assert CardSound(base, c);
      assert CardRuns(base.cards[c], prog.cards[c]);
    }
  }

  /** What a card does with frames does not depend on its rows. */
  lemma SameActions(cfg: Config, meta: seq<Meta>, c: nat, a: CardTables, b: CardTables, r: RegFile)
    requires Sized(r) && AllResolve(cfg) && |cfg.flows| == |meta| && b == a.(rows := b.rows)
    ensures ActsOnAll(cfg, meta, c, a, r) ==> ActsOnAll(cfg, meta, c, b, r)
  {
    if ActsOnAll(cfg, meta, c, a, r) {
      forall k: MatchKey | k.valid ensures ActsOn(cfg, meta, c, b, r, k) {
        assert ActsOn(cfg, meta, c, a, r, k);
      }
    }
  }

  /** The last enabled rule slot of every card. */
  ghost function Levels(cards: seq<Device.Card>): (t: seq<nat>)
    reads cards
    ensures |t| == |cards| && forall c | 0 <= c < |cards| :: t[c] == LevelOf(cards[c].regs)
  {
    seq(|cards|, c requires 0 <= c < |cards| reads cards => LevelOf(cards[c].regs))
  }

  class Daemon {
    /** The card backends, parallel to the configured cards, and whether each could be opened. */
    const cards: seq<Device.Card>
    const open: seq<bool>
    var cfg: Config
    var prog: Program
    /** The compilation `prog` is a run state of. */
    ghost var base: Program
    ghost var tables: seq<CardTables>
    /** On every card that never fails, the number of its last enabled rule slot, counted from 1. */
    ghost var top: seq<nat>

    ghost predicate CardsOk()
      reads cards
    {
      && |open| == |cards|
      && (forall i, j | 0 <= i < j < |cards| :: cards[i] != cards[j])
      && (forall c | 0 <= c < |cards| :: cards[c].Ok())
    }

    /** An open card with every operation, none of which ever fails. */
    ghost predicate Steady(c: nat)
      requires c < |cards| == |open|
    {
      Answers(c) && cards[c].Reliable()
    }

    ghost predicate TopOk()
      requires |cards| == |open|
      reads this, cards
    {
      |top| == |cards| && forall c | 0 <= c < |cards| && Steady(c) :: Level(cards[c].regs, top[c])
    }

    /** The program is a sound one, in some run state, and the enabled rule slots are counted. */
    ghost predicate Inv()
      reads this, cards
    {
      CardsOk() && Sound(base) && RunStateOf(base, prog) && |prog.cards| == |cards| == |cfg.cards| && TopOk()
    }

    /** ... and it was compiled from the running configuration, which came from the parser. */
    ghost predicate Valid()
      reads this, cards
    {
      Inv() && CompiledFrom(cfg, tables, base) && MasksShared(cfg.flows)
    }

    /** What programming the first n cards with p does to the counts of enabled slots: they never fall. */
    ghost predicate RaisedUpTo(t0: seq<nat>, t1: seq<nat>, p: Program, n: nat)
      requires n <= |p.cards| == |cards| == |open|
    {
      && |t0| == |t1| == |cards|
      && forall c | 0 <= c < |cards| ::
           t1[c] == if c < n && open[c] && !OverCapacity(cards[c], p.cards[c])
                    then Max(t0[c], |p.cards[c].rules|) else t0[c]
    }

    ghost predicate Raised(t0: seq<nat>, t1: seq<nat>, p: Program)
      requires |p.cards| == |cards| == |open|
    {
      RaisedUpTo(t0, t1, p, |cards|)
    }

    /** Card c holds exactly this program, committed. */
    ghost predicate Holds(c: nat, cp: CardTables)
      requires c < |cards|
      reads cards
    {
      Programmed(cards[c].regs, cards[c].live, cp) && cards[c].staged == cards[c].live
    }

    /** A backend with every operation and a truthful capacity. */
    ghost predicate Answers(c: nat)
      requires c < |cards| == |open|
    {
      open[c] && cards[c].Complete()
    }

    /** ... whose operations do not fail and which can take this program. */
    ghost predicate Dependable(c: nat, cp: CardTables)
      requires c < |cards| == |open|
    {
      Answers(c) && cards[c].Reliable() && !OverCapacity(cards[c], cp)
    }

    /** Every dependable card holds this program. */
    ghost predicate SyncTo(p: Program)
      requires |p.cards| == |cards| == |open|
      reads cards
    {
      SyncUpTo(p, |cards|)
    }

    /** ... among the first n. */
    ghost predicate SyncUpTo(p: Program, n: nat)
      requires n <= |p.cards| == |cards| == |open|
      reads cards
    {
      forall c | 0 <= c < n && Dependable(c, p.cards[c]) :: Holds(c, p.cards[c])
    }

    /** Every card with all operations, among the first n, holds this program. */
    ghost predicate HeldUpTo(p: Program, n: nat)
      requires n <= |p.cards| == |cards| == |open|
      reads cards
    {
      forall c | 0 <= c < n && Answers(c) :: Holds(c, p.cards[c]) && !OverCapacity(cards[c], p.cards[c])
    }

    /** Every open card is dependable and can take this program. */
    ghost predicate AllDependable(p: Program)
      requires |p.cards| == |cards| == |open|
    {
      forall c | 0 <= c < |cards| && open[c] :: Dependable(c, p.cards[c])
    }

    ghost predicate InSync()
      requires |prog.cards| == |cards| == |open|
      reads this, cards
    {
      SyncTo(prog)
    }

    // ---- programming all cards ----------------------------------------------------------------

    /** Time-sync set-up and latency priming: they write registers outside the table windows only. */
    method TimeSync(card: Device.Card)
      requires card.Ok()
      modifies card`regs
      ensures card.regs == old(card.regs)
    {
      var writes: seq<(nat, Word)> := *;
      for i := 0 to |writes|
        invariant card.regs == old(card.regs)
      {
        var (w, v) := writes[i];
        if w < MAP_W || HASH_END <= w < REG_WORDS {
          var st := card.Write32(w, v);
        }
      }
    }

    method ProgramOne(card: Device.Card, cp: CardTables, worst: Status) returns (worst': Status)
      requires card.Ok() && CountsOk(cp) && DistinctBuckets(cp.hashEntries)
      modifies card`regs, card`staged, card`live
      ensures card.Ok()
      ensures worst' == OK ==> worst == OK
      ensures worst' == OK ==> !OverCapacity(card, cp)
      ensures OverCapacity(card, cp) ==> card.regs == old(card.regs)
      ensures card.Complete() && (worst' == OK || (card.Reliable() && !OverCapacity(card, cp))) ==>
                && Programmed(card.regs, card.live, cp) && card.staged == card.live
                && SameFrom(old(card.regs), card.regs, |cp.rules|)
      ensures worst == OK && card.Complete() && card.Reliable() && !OverCapacity(card, cp) ==> worst' == OK
    {
      worst' := worst;
      if card.hasWrite32 {
        worst' := Put(card, DP_RESET_W, Word32(1), worst');
      }
      var s := ProgramTables(card, cp);
      if s != OK && worst' == OK { worst' := s; }
    }

    /** Reset and program every open card. */
    method ProgramAll(p: Program) returns (worst: Status)
      requires CardsOk() && TopOk() && |p.cards| == |cards|
      requires forall c | 0 <= c < |cards| :: CountsOk(p.cards[c]) && DistinctBuckets(p.cards[c].hashEntries)
      modifies this`top, cards`regs, cards`staged, cards`live
      ensures CardsOk() && TopOk()
      ensures Raised(old(top), top, p)
      ensures worst == OK ==> HeldUpTo(p, |cards|)
      ensures SyncUpTo(p, |cards|)
      ensures AllDependable(p) ==> worst == OK
    {
      worst := OK;
      for ci := 0 to |cards|
        invariant CardsOk() && TopOk()
        invariant RaisedUpTo(old(top), top, p, ci)
        invariant AllDependable(p) ==> worst == OK
        invariant worst == OK ==> HeldUpTo(p, ci)
        invariant SyncUpTo(p, ci)
      {
        assert AllDependable(p) && open[ci] ==> Dependable(ci, p.cards[ci]);
        worst := ProgramNext(p, ci, worst);
      }
    }

    /** Program card ci if it is open, the cards before it being done. */
    method ProgramNext(p: Program, ci: nat, worst: Status) returns (worst': Status)
      requires CardsOk() && TopOk() && ci < |cards| == |p.cards|
      requires CountsOk(p.cards[ci]) && DistinctBuckets(p.cards[ci].hashEntries)
      requires SyncUpTo(p, ci) && (worst == OK ==> HeldUpTo(p, ci))
      modifies this`top, cards`regs, cards`staged, cards`live
      ensures CardsOk() && TopOk()
      ensures top == if open[ci] && !OverCapacity(cards[ci], p.cards[ci])
                     then old(top)[ci := Max(old(top)[ci], |p.cards[ci].rules|)] else old(top)
      ensures SyncUpTo(p, ci + 1) && (worst' == OK ==> HeldUpTo(p, ci + 1))
      ensures worst == OK && (open[ci] ==> Dependable(ci, p.cards[ci])) ==> worst' == OK
    {
      worst' := ProgramAt(p, ci, worst);
      if open[ci] && !OverCapacity(cards[ci], p.cards[ci]) {
        RaiseTop(ci, p.cards[ci].rules, old(cards[ci].regs));
      }
    }

    /** Card ci, which held r0, has been given these rules. */
    ghost method RaiseTop(ci: nat, rules: seq<Rule>, r0: RegFile)
      requires ci < |cards| == |open| == |top|
      requires forall c | 0 <= c < |cards| && c != ci && Steady(c) :: Level(cards[c].regs, top[c])
      requires Steady(ci) ==> Sized(r0) && Level(r0, top[ci])
      requires Steady(ci) ==> RulesWritten(cards[ci].regs, rules, |rules|) && SameFrom(r0, cards[ci].regs, |rules|)
      modifies this`top
      ensures TopOk() && top == old(top)[ci := Max(old(top)[ci], |rules|)]
    {
      if Steady(ci) { LevelAfter(r0, cards[ci].regs, rules, top[ci]); }
      top := top[ci := Max(top[ci], |rules|)];
    }

    method ProgramAt(p: Program, ci: nat, worst: Status) returns (worst': Status)
      requires CardsOk() && ci < |cards| == |p.cards|
      requires CountsOk(p.cards[ci]) && DistinctBuckets(p.cards[ci].hashEntries)
      requires SyncUpTo(p, ci) && (worst == OK ==> HeldUpTo(p, ci))
      modifies cards`regs, cards`staged, cards`live
      ensures CardsOk()
      ensures forall c | 0 <= c < |cards| && c != ci :: unchanged(cards[c])
      ensures !open[ci] || OverCapacity(cards[ci], p.cards[ci]) ==> cards[ci].regs == old(cards[ci].regs)
      ensures Dependable(ci, p.cards[ci]) ==> RulesWritten(cards[ci].regs, p.cards[ci].rules, |p.cards[ci].rules|)
      ensures Dependable(ci, p.cards[ci]) ==> SameFrom(old(cards[ci].regs), cards[ci].regs, |p.cards[ci].rules|)
      ensures SyncUpTo(p, ci + 1) && (worst' == OK ==> HeldUpTo(p, ci + 1))
      ensures worst == OK && (open[ci] ==> Dependable(ci, p.cards[ci])) ==> worst' == OK
    {
      worst' := worst;
      if open[ci] {
        worst' := ProgramOne(cards[ci], p.cards[ci], worst);
      }
    }

    /** program_backends: program every open card, then bring up time sync. */
    method ProgramBackends(p: Program) returns (worst: Status)
      requires CardsOk() && TopOk() && |p.cards| == |cards|
      requires forall c | 0 <= c < |cards| :: CountsOk(p.cards[c]) && DistinctBuckets(p.cards[c].hashEntries)
      modifies this`top, cards`regs, cards`staged, cards`live
      ensures CardsOk() && TopOk()
      ensures Raised(old(top), top, p)
      ensures worst == OK ==> HeldUpTo(p, |cards|)
      ensures SyncTo(p)
      ensures AllDependable(p) ==> worst == OK
    {
      worst := ProgramAll(p);
      SyncAll();
    }

    method SyncAll()
      requires CardsOk()
      modifies cards`regs
      ensures forall c | 0 <= c < |cards| :: cards[c].regs == old(cards[c].regs)
    {
      for ci := 0 to |cards|
        invariant forall c | 0 <= c < |cards| :: cards[c].regs == old(cards[c].regs)
      {
        if open[ci] {
          TimeSync(cards[ci]);
        }
      }
    }

    // ---- starting and stopping flows -----------------------------------------------------------

    /** Flow k is generated by a dependable card. */
    ghost predicate Reachable(k: nat)
      requires k < |base.meta| && |base.cards| == |cards| == |open|
      reads this
    {
      var s := TxSpot(base, base.meta[k].flowId);
      s.Some? && Dependable(s.value.card, base.cards[s.value.card])
    }

    lemma ReachableNow(k: nat)
      requires Inv() && k < |base.meta| && Reachable(k)
      ensures var s := TxSpot(prog, prog.meta[k].flowId);
              s.Some? && Dependable(s.value.card, prog.cards[s.value.card])
    {
      SpotStable(base, prog, base.meta[k].flowId);
      var s := TxSpot(base, base.meta[k].flowId).value;
      assert CardRuns(base.cards[s.card], prog.cards[s.card]);
    }

    /** The first n flows are reported as wanted, as far as dependable cards generate them. */
    ghost predicate Obeyed(n: nat, on: bool)
      requires n <= |base.meta| && |base.cards| == |cards| == |open|
      reads this
    {
      forall k | 0 <= k < n && Reachable(k) :: Enabled(prog, base.meta[k].flowId) == on
    }

    /** Write one row and commit it. */
    method PushRow(card: Device.Card, row: nat, r: Row) returns (st: Status)
      requires card.Ok()
      modifies card`staged, card`live
      ensures card.Ok()
      ensures st == OK && card.Complete() ==>
                row < |card.live| && card.staged == old(card.staged)[row := r] == card.live
      ensures card.Reliable() && card.Complete() && row < |card.live| ==> st == OK
    {
      st := NotImplemented;
      if card.hasFlowWrite {
        st := card.FlowWrite(row, r);
      }
      if st == OK && card.hasFlowCommit {
        st := card.FlowCommit();
      }
    }

    /** Push one row of program p, switched on or off, to its card; q is what the cards hold. */
    method PushSpot(p: Program, s: Spot, on: bool, ghost q: Program) returns (st: Status)
      requires CardsOk() && |p.cards| == |q.cards| == |cards| && s.card < |cards|
      requires s.row < |p.cards[s.card].rows| && s.row < |q.cards[s.card].rows|
      requires SetRun(p.cards[s.card].rows[s.row], on) == SetRun(q.cards[s.card].rows[s.row], on)
      modifies cards`staged, cards`live
      ensures CardsOk()
      ensures old(SyncTo(q)) ==> SyncTo(if st == OK then WithRun(q, s, on) else q)
      ensures !open[s.card] ==> st == NoCard
      ensures Dependable(s.card, q.cards[s.card]) ==> st == OK
    {
      if !open[s.card] { return NoCard; }
      var r := SetRun(p.cards[s.card].rows[s.row], on);
      st := PushRow(cards[s.card], s.row, r);
      ghost var now := if st == OK then WithRun(q, s, on) else q;
      if old(SyncTo(q)) {
        forall c | 0 <= c < |cards| && Dependable(c, now.cards[c]) ensures Holds(c, now.cards[c]) {
          assert old(Holds(c, q.cards[c]));
          if c == s.card {
            ProgrammedStep(cards[c].regs, old(cards[c].live), q.cards[c], s.row, r);
          }
        }
      }
    }

    /**
     set_flow_enable. The row goes to the card first; the staged row, which is what is reported,
     follows only after write and commit succeeded, and only when `persist` is set. The cards hold
     q, the running program unless flows were stopped behind its back.
     */
    method SetFlowEnable(id: u32, on: bool, persist: bool, ghost q: Program) returns (st: Status)
      requires Inv() && RunStateOf(base, q)
      modifies this`prog, cards`staged, cards`live
      ensures Inv()
      ensures st != OK || !persist ==> prog == old(prog)
      ensures TxSpot(old(prog), id).None? ==> st == Inval
      ensures TxSpot(old(prog), id).Some? ==> var c := TxSpot(old(prog), id).value.card;
                (!open[c] ==> st == NoCard) && (Dependable(c, old(prog).cards[c]) ==> st == OK)
      ensures st == OK && persist ==> prog == WithRun(old(prog), TxSpot(old(prog), id).value, on)
      ensures st == OK ==> TxSpot(q, id).Some?
      ensures old(SyncTo(q)) ==> SyncTo(if st == OK then WithRun(q, TxSpot(q, id).value, on) else q)
    {
      var s := FindTxRow(prog, id);
      if s.None? { return Inval; }
      WithRunKeeps(base, prog, id, on);
      SpotStable(base, prog, id);
      SpotStable(base, q, id);
      SameWhenSwitched(base, prog, q, s.value, on);
      assert CardRuns(base.cards[s.value.card], q.cards[s.value.card]);
      assert CardRuns(base.cards[s.value.card], prog.cards[s.value.card]);
      st := PushSpot(prog, s.value, on, q);
      if st == OK && persist {
        Report(WithRun(prog, s.value, on));
      }
    }

    /** The staged program follows the cards. */
    method Report(p: Program)
      requires Inv() && RunStateOf(base, p) && |p.cards| == |cards|
      modifies this`prog
      ensures Inv() && prog == p
    {
      prog := p;
    }

    /** test.start / test.stop: every flow in turn; a clean start re-primes time sync. */
    method TestRun(on: bool) returns (changed: nat, failed: nat)
      requires Inv()
      modifies this`prog, cards`regs, cards`staged, cards`live
      ensures Inv() && (old(InSync()) ==> InSync())
      ensures changed + failed == |prog.meta|
      ensures failed == 0 ==> AllReported(prog, |prog.meta|, on)
      ensures MovedTowards(old(prog), prog, on) && Obeyed(|base.meta|, on)
    {
      changed, failed := SwitchAll(on);
      if on && failed == 0 {
        SyncAll();
      }
    }

    method SwitchAll(on: bool) returns (changed: nat, failed: nat)
      requires Inv()
      modifies this`prog, cards`staged, cards`live
      ensures Inv() && (old(InSync()) ==> InSync())
      ensures changed + failed == |prog.meta|
      ensures failed == 0 ==> AllReported(prog, |prog.meta|, on)
      ensures MovedTowards(old(prog), prog, on) && Obeyed(|base.meta|, on)
    {
      changed, failed := 0, 0;
      for k := 0 to |prog.meta|
        invariant Inv() && MovedTowards(old(prog), prog, on) && Obeyed(k, on)
        invariant old(InSync()) ==> InSync()
        invariant changed + failed == k
        invariant failed == 0 ==> AllReported(prog, k, on)
      {
        ghost var p := prog;
        var st := SwitchFlow(prog.meta[k].flowId, on);
        if failed == 0 && st == OK { ReportedGrows(p, prog, k, on); }
        ObeyedStep(p, k, on, st);
        TowardsTrans(old(prog), p, prog, on);
        if st == OK { changed := changed + 1; } else { failed := failed + 1; }
      }
    }

    /** One more flow switched. */
    lemma ObeyedStep(p: Program, k: nat, on: bool, st: Status)
      requires Inv() && k < |base.meta| && p.meta == prog.meta && MovedTowards(p, prog, on)
      requires forall j | 0 <= j < k && Reachable(j) :: Enabled(p, base.meta[j].flowId) == on
      requires st == OK ==> Enabled(prog, base.meta[k].flowId) == on
      requires Reachable(k) ==> st == OK
      ensures Obeyed(k + 1, on)
    {
      forall j | 0 <= j < k + 1 && Reachable(j) ensures Enabled(prog, base.meta[j].flowId) == on {
        assert p.meta[j].flowId == base.meta[j].flowId;
      }
    }

    /** flow.start / flow.stop, and one flow of test.start / test.stop. */
    method SwitchFlow(id: u32, on: bool) returns (st: Status)
      requires Inv()
      modifies this`prog, cards`staged, cards`live
      ensures Inv() && (old(InSync()) ==> InSync())
      ensures st == OK ==> Enabled(prog, id) == on && OthersKeep(old(prog), prog, id)
      ensures st != OK ==> prog == old(prog)
      ensures forall k | 0 <= k < |base.meta| && base.meta[k].flowId == id && Reachable(k) :: st == OK
      ensures MovedTowards(old(prog), prog, on)
    {
      forall k | 0 <= k < |base.meta| && base.meta[k].flowId == id && Reachable(k) { ReachableNow(k); }
      st := SetFlowEnable(id, on, true, prog);
      if st == OK {
        ghost var k := FindMeta(old(prog).meta, id).value;
        forall j | 0 <= j < |prog.meta|
          ensures Enabled(prog, prog.meta[j].flowId) == if j == k then on else Enabled(old(prog), prog.meta[j].flowId)
        {
          WithRunReports(base, old(prog), k, on, j);
        }
      }
    }

    // ---- config.load -----------------------------------------------------------------------------

    /** Everything config.load does before it touches a card: parse result, topology, compile, stage idle. */
    method Prepare(body: Option<Payload>)
      returns (ok: bool, newCfg: Config, newProg: Program, ghost t: seq<CardTables>, ghost b: Program)
      ensures ok ==> body.Some? && ParseFlows(body.value.flows).Some? && newCfg == Merged(cfg, body.value)
      ensures ok ==> CompiledFrom(newCfg, t, b) && MasksShared(newCfg.flows)
      ensures ok ==> Sound(b) && RunStateOf(b, newProg) && Idle(newProg) && |newProg.cards| == |cfg.cards|
      ensures ok <==> Acceptable(cfg, body)
    {
      ok, newCfg, newProg, t, b := false, cfg, prog, [], prog;
      if body.None? || ParseFlows(body.value.flows).None? { return; }
      AllParsedShare(body.value.flows);
      if body.value.cards != [] && !SameTopology(cfg, body.value) { return; }
      newCfg := Merged(cfg, body.value);
      var st;
      st, newProg, t := Compile(newCfg);
      if st != OK { return; }
      b := newProg;
      CompiledSound(newCfg, t, b);
      NoChange(b);
      newProg := StageRunState(newProg, false, b);
      ok := true;
    }

    /** ... and exactly which bodies pass. */
    method Vet(body: Option<Payload>)
      returns (ok: bool, newCfg: Config, newProg: Program, ghost t: seq<CardTables>, ghost b: Program)
      ensures body.None? ==> !ok
      ensures ok ==> newCfg == Config(cfg.cards, cfg.lifs, newCfg.flows, body.value.forwards)
      ensures ok ==> FlowsParse(body.value.flows, newCfg.flows) && Compilable(newCfg)
      ensures ok && body.value.cards != [] ==> SameEnvironment(cfg, body.value)
      ensures ok ==> CompiledFrom(newCfg, t, b) && MasksShared(newCfg.flows)
      ensures ok ==> Sound(b) && RunStateOf(b, newProg) && Idle(newProg) && |newProg.cards| == |cfg.cards|
      ensures body.Some? && !ok ==> forall fs | FlowsParse(body.value.flows, fs) ::
                || (body.value.cards != [] && !SameEnvironment(cfg, body.value))
                || !Compilable(Config(cfg.cards, cfg.lifs, fs, body.value.forwards))
    {
      if body.Some? { AcceptableMeans(cfg, body.value); }
      ok, newCfg, newProg, t, b := Prepare(body);
      if ok { ParseFlowsIs(body.value.flows, newCfg.flows); }
    }

    /** The first n flows are off in q, as far as dependable cards generate them. */
    ghost predicate Stopped(q: Program, n: nat)
      requires n <= |base.meta| && |base.cards| == |cards| == |open|
      reads this
    {
      forall k | 0 <= k < n && Reachable(k) :: !Enabled(q, base.meta[k].flowId)
    }

    /**
     Stop the running flows on the cards without forgetting that they run; failures are ignored.
     Cards that were in sync then transmit nothing, whatever the daemon reports.
     */
    method Quiesce()
      requires Inv()
      modifies this`prog, cards`staged, cards`live
      ensures Inv() && prog == old(prog)
      ensures old(InSync()) ==> Silent()
    {
      ghost var q := prog;
      for k := 0 to |prog.meta|
        invariant Inv() && prog == old(prog) && RunStateOf(base, q) && Stopped(q, k)
        invariant old(InSync()) ==> SyncTo(q)
      {
        q := StopFlow(k, q);
      }
      if old(InSync()) { StoppedIsSilent(q); }
    }

    method StopFlow(k: nat, ghost q: Program) returns (ghost now: Program)
      requires Inv() && RunStateOf(base, q) && k < |prog.meta| && Stopped(q, k)
      modifies this`prog, cards`staged, cards`live
      ensures Inv() && prog == old(prog) && RunStateOf(base, now) && Stopped(now, k + 1)
      ensures old(SyncTo(q)) ==> SyncTo(now)
    {
      var id := prog.meta[k].flowId;
      if Reachable(k) { ReachableNow(k); }
      var st := SetFlowEnable(id, false, false, q);
      now := q;
      if st == OK {
        now := WithRun(q, TxSpot(q, id).value, false);
        WithRunKeeps(base, q, id, false);
        forall j | 0 <= j < |base.meta|
          ensures Enabled(now, base.meta[j].flowId) == if j == k then false else Enabled(q, base.meta[j].flowId)
        {
          WithRunReports(base, q, k, false, j);
        }
      }
    }

    lemma StoppedIsSilent(q: Program)
      requires Inv() && RunStateOf(base, q) && Stopped(q, |base.meta|) && SyncTo(q)
      ensures Silent()
    {
      forall c, r | 0 <= c < |cards| && Dependable(c, prog.cards[c]) && 0 <= r < |cards[c].live|
        ensures !Active(cards[c].live[r])
      {
        StoppedRow(q, c, r);
      }
    }

    lemma StoppedRow(q: Program, c: nat, r: nat)
      requires Inv() && RunStateOf(base, q) && Stopped(q, |base.meta|) && SyncTo(q)
      requires c < |cards| && Dependable(c, prog.cards[c]) && r < |cards[c].live|
      ensures !Active(cards[c].live[r])
    {
      assert CardRuns(base.cards[c], q.cards[c]) && CardRuns(base.cards[c], prog.cards[c]);
      assert Holds(c, q.cards[c]);
      if r < |q.cards[c].rows| {
        ActiveIsReported(base, q, c, r);
        forall k | 0 <= k < |q.meta| && LeadsTo(q, k, c, r) ensures !Enabled(q, q.meta[k].flowId) {
          SpotStable(base, q, base.meta[k].flowId);
          assert Reachable(k);
        }
      }
    }

    /** Every card with all operations holds this program. */
    ghost predicate AllHold(p: Program)
      requires |p.cards| == |cards| == |open|
      reads cards
    {
      HeldUpTo(p, |cards|)
    }

    /** The enabled rule slots after a load: the new program's, and after a failed one both programs', are added. */
    ghost predicate RulesLeft(t0: seq<nat>, t2: seq<nat>, newProg: Program, oldProg: Program, reply: Reply)
      requires |newProg.cards| == |oldProg.cards| == |cards| == |open|
    {
      if reply == Loaded then Raised(t0, t2, newProg)
      else exists t1 :: Raised(t0, t1, newProg) && Raised(t1, t2, oldProg)
    }

    /**
     A card whose rule table was exactly the running program's keeps an exact one exactly when the
     programs' rule counts allow it: a load must not have fewer rules than it replaces, and a load
     that fails must not have had more.
     */
    lemma ExactWhen(t0: seq<nat>, t2: seq<nat>, newProg: Program, oldProg: Program, reply: Reply, c: nat)
      requires c < |newProg.cards| == |oldProg.cards| == |cards| == |open|
      requires RulesLeft(t0, t2, newProg, oldProg, reply) && t0[c] == |oldProg.cards[c].rules|
      requires Dependable(c, newProg.cards[c]) && Dependable(c, oldProg.cards[c])
      ensures c < |t2| && var now, was := |newProg.cards[c].rules|, |oldProg.cards[c].rules|;
              if reply == Loaded then t2[c] <= now <==> was <= now else t2[c] <= was <==> now <= was
    {
      if reply != Loaded {
        var t1 :| Raised(t0, t1, newProg) && Raised(t1, t2, oldProg);
      }
    }

    /** With open cards that never fail: Loaded if they can all take the new program, RolledBack if only the old one. */
    ghost predicate ReplyIs(newProg: Program, oldProg: Program, reply: Reply)
      requires |newProg.cards| == |oldProg.cards| == |cards| == |open|
    {
      && (AllDependable(newProg) ==> reply == Loaded)
      && ((forall c | 0 <= c < |cards| && open[c] :: Steady(c)) && !AllDependable(newProg) && AllDependable(oldProg) ==>
            reply == RolledBack)
    }

    /** Program the staged configuration, or restore the running one. */
    method Stage(newProg: Program, ghost b: Program) returns (reply: Reply)
      requires Inv() && Sound(b) && RunStateOf(b, newProg) && |newProg.cards| == |cards|
      modifies this`top, cards`regs, cards`staged, cards`live
      ensures RulesLeft(old(top), top, newProg, old(prog), reply)
      ensures Inv()
      ensures reply != Rejected
      ensures reply == Loaded ==> AllHold(newProg) && SyncTo(newProg)
      ensures reply == RolledBack ==> AllHold(prog)
      ensures reply != Loaded ==> SyncTo(prog)
      ensures ReplyIs(newProg, prog, reply)
    {
      RunStateFits(b, newProg);
      RunStateFits(base, prog);
      var st := ProgramBackends(newProg);
      if st == OK { return Loaded; }
      st := ProgramBackends(prog);
      reply := if st == OK then RolledBack else OutOfSync;
    }

    /** The part of config.load that works on the cards, under the servo lock. */
    method Swap(newCfg: Config, newProg: Program, ghost t: seq<CardTables>, ghost b: Program) returns (reply: Reply)
      requires Inv() && Sound(b) && RunStateOf(b, newProg) && |newProg.cards| == |cards| == |newCfg.cards|
      modifies this, cards`regs, cards`staged, cards`live
      ensures Inv() && InSync() && reply != Rejected
      ensures reply == Loaded ==> cfg == newCfg && prog == newProg && tables == t && base == b
      ensures reply != Loaded ==> cfg == old(cfg) && prog == old(prog) && base == old(base) && tables == old(tables)
      ensures reply == Loaded || reply == RolledBack ==> AllHold(prog)
      ensures reply == RolledBack ==> RowsAsBefore(old(LiveRows()), old(HeldRows()))
      ensures RulesLeft(old(top), top, newProg, old(prog), reply) && ReplyIs(newProg, old(prog), reply)
    {
      reply := Reprogram(newProg, b);
      if reply == Loaded {
        Adopt(newCfg, newProg, t, b);
      }
    }

    /** The new configuration and its program become the running ones together. */
    method Adopt(newCfg: Config, newProg: Program, ghost t: seq<CardTables>, ghost b: Program)
      requires CardsOk() && TopOk() && Sound(b) && RunStateOf(b, newProg)
      requires |newProg.cards| == |cards| == |newCfg.cards| && SyncTo(newProg) && AllHold(newProg)
      modifies this`cfg, this`prog, this`tables, this`base
      ensures Inv() && InSync() && AllHold(prog)
      ensures cfg == newCfg && prog == newProg && tables == t && base == b
    {
      cfg, prog, tables, base := newCfg, newProg, t, b;
    }

    /** Quiesce, then stage. */
    method Reprogram(newProg: Program, ghost b: Program) returns (reply: Reply)
      requires Inv() && Sound(b) && RunStateOf(b, newProg) && |newProg.cards| == |cards|
      modifies this`prog, this`top, cards`regs, cards`staged, cards`live
      ensures RulesLeft(old(top), top, newProg, old(prog), reply) && ReplyIs(newProg, old(prog), reply)
      ensures Inv() && prog == old(prog) && reply != Rejected
      ensures reply == Loaded ==> AllHold(newProg) && SyncTo(newProg)
      ensures reply == RolledBack ==> AllHold(prog) && RowsAsBefore(old(LiveRows()), old(HeldRows()))
      ensures reply != Loaded ==> SyncTo(prog)
    {
      ghost var lives, held := LiveRows(), HeldRows();
      Quiesce();
      reply := Stage(newProg, b);
      if reply == RolledBack {
        forall c | 0 <= c < |cards| && Answers(c) && c in held ensures cards[c].live == lives[c] {
          RowsDetermined(cards[c].live, lives[c], prog.cards[c].rows);
        }
      }
    }

    /** The live rows of every card. */
    ghost function LiveRows(): (r: seq<seq<Row>>)
      reads cards
      ensures |r| == |cards| && forall c | 0 <= c < |cards| :: r[c] == cards[c].live
    {
      seq(|cards|, c requires 0 <= c < |cards| reads cards => cards[c].live)
    }

    /** The cards whose rows are the daemon's. */
    ghost function HeldRows(): (r: set<nat>)
      requires |prog.cards| == |cards|
      reads this, cards
      ensures forall c | c in r :: c < |cards| && RowsWritten(cards[c].live, prog.cards[c].rows)
      ensures forall c | 0 <= c < |cards| && RowsWritten(cards[c].live, prog.cards[c].rows) :: c in r
    {
      set c: nat | c < |cards| && RowsWritten(cards[c].live, prog.cards[c].rows)
    }

    /** A complete card that had the daemon's rows before has exactly those rows now. */
    ghost predicate RowsAsBefore(lives: seq<seq<Row>>, held: set<nat>)
      requires |lives| == |cards| == |open|
      reads cards
    {
      forall c | 0 <= c < |cards| && Answers(c) && c in held :: cards[c].live == lives[c]
    }

    /**
     config.load, for arbitrary write failures. Configuration and program are swapped together
     or not at all; `Loaded` means every complete open card holds the new program with every
     generator idle; `RolledBack` means every such card holds the old program, with exactly the
     rows it had if it held it before. A body is rejected, and nothing touched, exactly if it does
     not parse, has another topology or does not compile. Rule slots are only ever added: see
     RulesLeft. Which of the other replies open cards that never fail give is said by ReplyIs.
     */
    method Load(body: Option<Payload>) returns (reply: Reply, ghost staged: Program)
      requires Valid()
      modifies this, cards`regs, cards`staged, cards`live
      ensures Valid() && (old(InSync()) ==> InSync())
      ensures body.None? ==> reply == Rejected
      ensures body.Some? && reply != Rejected ==>
                exists fs | FlowsParse(body.value.flows, fs) ::
                  Compilable(Config(old(cfg).cards, old(cfg).lifs, fs, body.value.forwards))
      ensures body.Some? && reply != Rejected && body.value.cards != [] ==>
                SameEnvironment(old(cfg), body.value)
      ensures body.Some? && reply == Rejected ==> forall fs | FlowsParse(body.value.flows, fs) ::
                || (body.value.cards != [] && !SameEnvironment(old(cfg), body.value))
                || !Compilable(Config(old(cfg).cards, old(cfg).lifs, fs, body.value.forwards))
      ensures reply == Loaded ==> body.Some? && prog == staged
      ensures reply == Loaded ==> cfg.cards == old(cfg).cards && cfg.lifs == old(cfg).lifs
      ensures reply == Loaded ==> FlowsParse(body.value.flows, cfg.flows) && cfg.forwards == body.value.forwards
      ensures reply == Loaded ==> Idle(prog) && AllHold(prog)
      ensures reply != Loaded ==> cfg == old(cfg) && prog == old(prog) && base == old(base) && tables == old(tables)
      ensures reply == RolledBack ==> AllHold(prog)
      ensures reply == RolledBack ==> RowsAsBefore(old(LiveRows()), old(HeldRows()))
      ensures reply == Rejected ==> top == old(top) && forall c | 0 <= c < |cards| :: unchanged(cards[c])
      ensures reply != Rejected ==> |staged.cards| == |cards| && RulesLeft(old(top), top, staged, old(prog), reply)
      ensures reply != Rejected ==> ReplyIs(staged, old(prog), reply)
    {
      var ok, newCfg, newProg;
      ghost var t, b;
      ok, newCfg, newProg, t, b := Vet(body);
      staged := newProg;
      if !ok { return Rejected, staged; }
      reply := Swap(newCfg, newProg, t, b);
    }

    // ---- whole runs --------------------------------------------------------------------------------

    /** On a dependable card in sync, a row transmits exactly when its flow is reported enabled. */
    lemma LiveIsReported(c: nat, r: nat)
      requires Inv() && InSync() && c < |cards| && Dependable(c, prog.cards[c]) && r < |cards[c].live|
      ensures Active(cards[c].live[r]) <==> Reported(prog, c, r)
    {
      assert Holds(c, prog.cards[c]);
      if r < |prog.cards[c].rows| {
        ActiveIsReported(base, prog, c, r);
      }
    }

    /** No card that never fails and can take the program has another number of enabled rule slots. */
    ghost predicate TopKept(t0: seq<nat>)
      requires |base.cards| == |cards| == |open|
      reads this
    {
      |t0| == |top| == |cards| && forall c | 0 <= c < |cards| && Dependable(c, base.cards[c]) :: top[c] == t0[c]
    }

    /** Programming again what the cards hold enables no further slot. */
    lemma SyncedTop(t: seq<nat>)
      requires Inv() && InSync() && Raised(top, t, prog)
      ensures forall c | 0 <= c < |cards| && Dependable(c, base.cards[c]) :: t[c] == top[c]
    {
      forall c | 0 <= c < |cards| && Dependable(c, base.cards[c]) ensures t[c] == top[c] {
        assert CardRuns(base.cards[c], prog.cards[c]);
        assert Holds(c, prog.cards[c]);
        LevelCovers(cards[c].regs, prog.cards[c].rules, top[c]);
      }
    }

    /** test.arm: program again what is running, then clear the counters of every open card. */
    method Arm() returns (programmed: bool)
      requires Inv()
      modifies this`top, cards`regs, cards`staged, cards`live
      ensures Inv() && InSync() && Raised(old(top), top, prog)
      ensures programmed ==> AllHold(prog)
    {
      programmed := Reprogrammed();
      if programmed {
        ClearStats();
      }
    }

    /** Program every open card with what is running. */
    method Reprogrammed() returns (ok: bool)
      requires Inv()
      modifies this`top, cards`regs, cards`staged, cards`live
      ensures Inv() && InSync() && Raised(old(top), top, prog)
      ensures ok ==> AllHold(prog)
    {
      RunStateFits(base, prog);
      var st := ProgramBackends(prog);
      ok := st == OK;
    }

    /** stats.clear: a register outside the table windows, on every open card. */
    method ClearStats()
      requires CardsOk()
      modifies cards`regs
      ensures forall c | 0 <= c < |cards| :: cards[c].regs == old(cards[c].regs)
    {
      for ci := 0 to |cards|
        invariant forall c | 0 <= c < |cards| :: cards[c].regs == old(cards[c].regs)
      {
        if open[ci] && cards[ci].hasWrite32 {
          var st := cards[ci].Write32(STATS_CLEAR_W, Word32(1));
        }
      }
    }

    /** Only the flow with this id has another state, and that state if a dependable card generates it. */
    ghost predicate OneSwitched(p0: Program, id: u32, on: bool)
      requires |base.cards| == |cards| == |open|
      reads this
    {
      && OthersKeep(p0, prog, id)
      && forall k | 0 <= k < |base.meta| && base.meta[k].flowId == id && Reachable(k) :: Enabled(prog, id) == on
    }

    /** Every flow a dependable card generates is reported as this command asks, or as before. */
    ghost predicate Followed(p0: Program, cmd: Command)
      requires |base.cards| == |cards| == |open|
      reads this
    {
      forall k | 0 <= k < |base.meta| && Reachable(k) :: var id := base.meta[k].flowId;
        Enabled(prog, id) == if Asks(cmd, id).Some? then Asks(cmd, id).value else Enabled(p0, id)
    }

    lemma DrivenFollows(p0: Program, cmd: Command)
      requires Inv() && !cmd.ConfigLoad? && p0.meta == base.meta
      requires cmd.TestStart? ==> Obeyed(|base.meta|, true)
      requires cmd.TestStop? ==> Obeyed(|base.meta|, false)
      requires cmd.FlowStart? ==> OneSwitched(p0, cmd.id, true)
      requires cmd.FlowStop? ==> OneSwitched(p0, cmd.id, false)
      requires cmd.TestArm? || cmd.StatsClear? ==> prog == p0
      ensures Followed(p0, cmd)
    {
      forall k | 0 <= k < |base.meta| && Reachable(k)
        ensures var id := base.meta[k].flowId;
                Enabled(prog, id) == if Asks(cmd, id).Some? then Asks(cmd, id).value else Enabled(p0, id)
      {
        assert p0.meta[k].flowId == base.meta[k].flowId;
      }
    }

    /** Every command but config.load. */
    method Drive(cmd: Command)
      requires Inv() && !cmd.ConfigLoad?
      modifies this`prog, this`top, cards`regs, cards`staged, cards`live
      ensures Inv() && (old(InSync()) ==> InSync() && TopKept(old(top)))
      ensures !Starts(cmd) && old(Idle(prog)) ==> Idle(prog)
      ensures cmd.TestStart? ==> Obeyed(|base.meta|, true)
      ensures cmd.TestStop? ==> Obeyed(|base.meta|, false)
      ensures cmd.FlowStart? ==> OneSwitched(old(prog), cmd.id, true)
      ensures cmd.FlowStop? ==> OneSwitched(old(prog), cmd.id, false)
      ensures cmd.TestArm? || cmd.StatsClear? ==> prog == old(prog)
    {
      match cmd {
        case TestStart => var a, b := TestRun(true);
        case TestStop => var a, b := TestRun(false);
        case TestArm => Rearm();
        case StatsClear => ClearStats();
        case FlowStart(id) => var a := SwitchFlow(id, true);
        case FlowStop(id) => var a := SwitchFlow(id, false);
      }
    }

    method Rearm()
      requires Inv()
      modifies this`top, cards`regs, cards`staged, cards`live
      ensures Inv() && InSync() && (old(InSync()) ==> TopKept(old(top)))
    {
      forall t | InSync() && Raised(top, t, prog) { SyncedTop(t); }
      var a := Arm();
    }

    method Reload(body: Option<Payload>)
      requires Valid()
      modifies this, cards`regs, cards`staged, cards`live
      ensures Valid() && (old(InSync()) ==> InSync()) && (old(Idle(prog)) ==> Idle(prog))
      ensures prog == old(prog) || Idle(prog)
    {
      var a;
      ghost var b;
      a, b := Load(body);
    }

    method Handle(cmd: Command)
      requires Valid()
      modifies this, cards`regs, cards`staged, cards`live
      ensures Inv() && (old(InSync()) ==> InSync())
      ensures !Starts(cmd) && old(Idle(prog)) ==> Idle(prog)
      ensures cmd.ConfigLoad? ==> Valid()
      ensures !cmd.ConfigLoad? ==> cfg == old(cfg) && base == old(base) && tables == old(tables)
      ensures !cmd.ConfigLoad? && old(InSync()) ==> TopKept(old(top))
      ensures !cmd.ConfigLoad? ==> Followed(old(prog), cmd)
      ensures cmd.ConfigLoad? ==> prog == old(prog) || Idle(prog)
    {
      if cmd.ConfigLoad? {
        Reload(cmd.body);
      } else {
        ghost var p0 := prog;
        Drive(cmd);
        DrivenFollows(p0, cmd);
      }
    }

    /**
     Card c does what the configuration asks for: every frame of every flow is found in its slot,
     exactly the rows of the flows reported enabled transmit, and no other frame is counted. The
     rule table is the configuration's exactly as long as no slot beyond its rules is enabled,
     and then every frame that no flow claims gets the configuration's rule for it.
     */
    ghost predicate Serves(c: nat)
      requires c < |prog.cards| == |cards| == |open|
      reads this, cards
    {
      var regs, cp := cards[c].regs, prog.cards[c];
      && Sized(regs) && AllResolve(cfg) && |prog.meta| == |cfg.flows|
      && (forall r | 0 <= r < |cards[c].live| :: Active(cards[c].live[r]) <==> Reported(prog, c, r))
      && FindsFrames(cfg, prog.meta, c, regs) && CountsAll(cfg, prog.meta, c, cp.hashMask, regs)
      && |cp.rules| <= NUM_RULE && c < |top|
      && (regs.rules == RuleTableOf(cp.rules) <==> top[c] <= |cp.rules|)
      && (top[c] <= |cp.rules| ==> ActsOnAll(cfg, prog.meta, c, cp, regs))
    }

    lemma DependableServes(c: nat)
      requires Valid() && InSync() && c < |cards| && Dependable(c, prog.cards[c])
      ensures Serves(c)
    {
      forall r | 0 <= r < |cards[c].live| ensures Active(cards[c].live[r]) <==> Reported(prog, c, r) {
        LiveIsReported(c, r);
      }
      assert Holds(c, prog.cards[c]);
      assert Level(cards[c].regs, top[c]);
      assert CardRuns(base.cards[c], prog.cards[c]);
      CardServes(cfg, tables, base, c, cards[c].regs, top[c]);
      SameActions(cfg, prog.meta, c, base.cards[c], prog.cards[c], cards[c].regs);
    }

    lemma AllServe()
      requires Valid() && InSync()
      ensures forall c | 0 <= c < |cards| && Dependable(c, prog.cards[c]) :: Serves(c)
    {
      forall c | 0 <= c < |cards| && Dependable(c, prog.cards[c]) ensures Serves(c) {
        DependableServes(c);
      }
    }

    /** No row of a dependable card is active while no flow is reported enabled. */
    lemma IdleIsSilent()
      requires Inv() && InSync() && Idle(prog)
      ensures Silent()
    {
      forall c, r | 0 <= c < |cards| && Dependable(c, prog.cards[c]) && 0 <= r < |cards[c].live|
        ensures !Active(cards[c].live[r])
      {
        LiveIsReported(c, r);
      }
    }

    /** The commands in turn. */
    method HandleAll(cmds: seq<Command>)
      requires Valid() && InSync()
      modifies this, cards`regs, cards`staged, cards`live
      ensures Valid() && InSync()
      ensures NoLoads(cmds) ==> TopKept(old(top)) && base == old(base) && AsLastAsked(old(prog), cmds)
      ensures old(Idle(prog)) && NoStarts(cmds) ==> Idle(prog)
    {
      ghost var p0, t0, b0 := prog, top, base;
      NothingYet();
      assert cmds[..0] == [] && cmds[..|cmds|] == cmds;
      HandleFrom(p0, t0, b0, cmds, 0);
    }

    lemma NothingYet()
      requires Inv()
      ensures SoFar(prog, top, base, [])
    {}

    method HandleFrom(ghost p0: Program, ghost t0: seq<nat>, ghost b0: Program, cmds: seq<Command>, n: nat)
      requires n <= |cmds| && Valid() && InSync() && SoFar(p0, t0, b0, cmds[..n])
      modifies this, cards`regs, cards`staged, cards`live
      ensures Valid() && InSync() && SoFar(p0, t0, b0, cmds[..|cmds|])
      decreases |cmds| - n
    {
      if n < |cmds| {
        HandleNth(p0, t0, b0, cmds, n);
        HandleFrom(p0, t0, b0, cmds, n + 1);
      }
    }

    method HandleNth(ghost p0: Program, ghost t0: seq<nat>, ghost b0: Program, cmds: seq<Command>, n: nat)
      requires n < |cmds| && Valid() && InSync() && SoFar(p0, t0, b0, cmds[..n])
      modifies this, cards`regs, cards`staged, cards`live
      ensures Valid() && InSync() && SoFar(p0, t0, b0, cmds[..n + 1])
    {
      assert cmds[..n + 1] == cmds[..n] + [cmds[n]];
      HandleNext(p0, t0, b0, cmds[..n], cmds[n]);
    }

    /** What a run of commands has come to, from program p0, slot counts t0 and compilation b0 on. */
    ghost predicate SoFar(p0: Program, t0: seq<nat>, b0: Program, done: seq<Command>)
      requires |base.cards| == |cards| == |open|
      reads this
    {
      && (NoLoads(done) ==> TopKept(t0) && base == b0 && AsLastAsked(p0, done))
      && (Idle(p0) && NoStarts(done) ==> Idle(prog))
    }

    /** Every flow a dependable card generates is reported as the last command concerning it asked. */
    ghost predicate AsLastAsked(p0: Program, cmds: seq<Command>)
      requires |base.cards| == |cards| == |open|
      reads this
    {
      && p0.meta == base.meta
      && forall k | 0 <= k < |base.meta| && Reachable(k) :: var id := base.meta[k].flowId;
           Enabled(prog, id) == LastAsked(cmds, id, Enabled(p0, id))
    }

    lemma AskedStep(p0: Program, p1: Program, done: seq<Command>, cmd: Command)
      requires Inv() && p0.meta == base.meta && Followed(p1, cmd)
      requires forall k | 0 <= k < |base.meta| && Reachable(k) :: var id := base.meta[k].flowId;
                 Enabled(p1, id) == LastAsked(done, id, Enabled(p0, id))
      ensures AsLastAsked(p0, done + [cmd])
    {
      assert (done + [cmd])[..|done|] == done;
      forall k | 0 <= k < |base.meta| && Reachable(k)
        ensures var id := base.meta[k].flowId; Enabled(prog, id) == LastAsked(done + [cmd], id, Enabled(p0, id))
      {
        var id := base.meta[k].flowId;
        assert Enabled(p1, id) == LastAsked(done, id, Enabled(p0, id));
      }
    }

    method HandleNext(ghost p0: Program, ghost t0: seq<nat>, ghost b0: Program, ghost done: seq<Command>, cmd: Command)
      requires Valid() && InSync() && SoFar(p0, t0, b0, done)
      modifies this, cards`regs, cards`staged, cards`live
      ensures Valid() && InSync() && SoFar(p0, t0, b0, done + [cmd])
    {
      ghost var p1 := prog;
      Handle(cmd);
      if NoLoads(done + [cmd]) {
        NoLoadsStep(done, cmd);
        AskedStep(p0, p1, done, cmd);
      }
      if NoStarts(done + [cmd]) { NoStartsStep(done, cmd); }
    }

    /**
     Any run of commands, on any mixture of cards. A dependable card stays in step with what the
     daemon reports, whatever the other cards do, serves the running configuration, and transmits
     nothing before a start command. Without loads, every flow that such a card generates is
     reported, and transmits, exactly as the last command concerning it asked.
     */
    method Serve(cmds: seq<Command>)
      requires Valid() && InSync()
      modifies this, cards`regs, cards`staged, cards`live
      ensures Valid() && InSync()
      ensures forall c | 0 <= c < |cards| && Dependable(c, prog.cards[c]) :: Serves(c)
      ensures NoLoads(cmds) ==> TopKept(old(top)) && base == old(base) && AsLastAsked(old(prog), cmds)
      ensures NoLoads(cmds) ==> TransmitsAsAsked(old(prog), cmds)
      ensures old(Idle(prog)) && NoStarts(cmds) ==> Silent()
    {
      HandleAll(cmds);
      if NoLoads(cmds) { AskedIsTransmitted(old(prog), cmds); }
      AllServe();
      if Idle(prog) { IdleIsSilent(); }
    }

    /** ... and its generator row on the card transmits accordingly. */
    ghost predicate TransmitsAsAsked(p0: Program, cmds: seq<Command>)
      requires |base.cards| == |cards| == |open|
      reads this, cards
    {
      forall k | 0 <= k < |base.meta| && Reachable(k) ::
        var id := base.meta[k].flowId;
        var s := TxSpot(base, id).value;
        s.row < |cards[s.card].live| && (Active(cards[s.card].live[s.row]) <==> LastAsked(cmds, id, Enabled(p0, id)))
    }

    lemma AskedIsTransmitted(p0: Program, cmds: seq<Command>)
      requires Inv() && InSync() && AsLastAsked(p0, cmds)
      ensures TransmitsAsAsked(p0, cmds)
    {
      forall k | 0 <= k < |base.meta| && Reachable(k)
        ensures var id := base.meta[k].flowId;
                var s := TxSpot(base, id).value;
                && s.row < |cards[s.card].live|
                && (Active(cards[s.card].live[s.row]) <==> LastAsked(cmds, id, Enabled(p0, id)))
      {
        ReachableNow(k);
        SpotStable(base, prog, base.meta[k].flowId);
        EnabledIsActive(base, prog, k);
        var s := TxSpot(base, base.meta[k].flowId).value;
        assert Holds(s.card, prog.cards[s.card]);
      }
    }

    /** No dependable card transmits. */
    ghost predicate Silent()
      requires |prog.cards| == |cards| == |open|
      reads this, cards
    {
      forall c, r | 0 <= c < |cards| && Dependable(c, prog.cards[c]) && 0 <= r < |cards[c].live| ::
        !Active(cards[c].live[r])
    }

    /**
     Start-up: stage every generator idle unless autostart, then program the open cards. Whatever
     the hardware holds at that moment is accepted.
     */
    constructor (cfg: Config, compiled: Program, ghost texts: seq<FlowText>, ghost t: seq<CardTables>,
                 cards: seq<Device.Card>, open: seq<bool>, autostart: bool)
      requires CompiledFrom(cfg, t, compiled) && |cards| == |open| == |cfg.cards|
      requires ParseFlows(texts) == Some(cfg.flows)
      requires forall i, j | 0 <= i < j < |cards| :: cards[i] != cards[j]
      requires forall c | 0 <= c < |cards| :: cards[c].Ok()
      modifies cards`regs, cards`staged, cards`live
      ensures Valid() && InSync() && this.cards == cards && this.open == open && this.cfg == cfg
      ensures base == compiled && tables == t && Raised(old(Levels(cards)), this.top, prog)
      ensures AllReported(prog, |prog.meta|, autostart)
    {
      AllParsedShare(texts);
      var p := InitialProgram(cfg, compiled, t, autostart);
      this.cfg, this.cards, this.open, prog, base, tables := cfg, cards, open, p, compiled, t;
      new;
      Boot();
    }

    /** Everything but the count of enabled rule slots. */
    ghost predicate Assembled()
      reads this, cards
    {
      && CardsOk() && Sound(base) && RunStateOf(base, prog) && |prog.cards| == |cards| == |cfg.cards|
      && CompiledFrom(cfg, tables, base) && MasksShared(cfg.flows)
    }

    /** The first programming, whatever the cards hold. */
    method Boot()
      requires Assembled()
      modifies this`top, cards`regs, cards`staged, cards`live
      ensures Valid() && InSync() && Raised(old(Levels(cards)), top, prog)
    {
      CountSlots();
      var ok := Reprogrammed();
    }

    method CountSlots()
      requires CardsOk() && Sound(base) && RunStateOf(base, prog) && |prog.cards| == |cards| == |cfg.cards|
      modifies this`top
      ensures Inv() && top == Levels(cards)
    {
      ghost var t := Levels(cards);
      top := t;
    }
  }

  /** The compiled program, idle unless autostart. */
  method InitialProgram(cfg: Config, compiled: Program, ghost t: seq<CardTables>, autostart: bool) returns (p: Program)
    requires CompiledFrom(cfg, t, compiled)
    ensures Sound(compiled) && RunStateOf(compiled, p) && |p.cards| == |cfg.cards|
    ensures AllReported(p, |p.meta|, autostart)
  {
    CompiledSound(cfg, t, compiled);
    NoChange(compiled);
    p := compiled;
    forall k | 0 <= k < |p.meta| ensures Enabled(p, p.meta[k].flowId) { assert HasGenerator(p, k); }
    if !autostart {
      p := StageRunState(p, false, compiled);
    }
  }
}
