/**
 A pass of the latency servo (servo_lat_correction): every measured flow between two open cards
 gets its own slot of the receive card corrected, and keeps it while the others are served.
 */
module LatencyServo {
  import opened Basics
  import opened Config
  import CardBuilder
  import Validate
  import opened FlowSlots
  import opened FlowCompiler
  import opened GpioSync

  /** No two measured flows have the same slot of the same receive card. */
  predicate SlotsApart(meta: seq<Meta>) {
    forall i, j | 0 <= i < j < |meta| && meta[i].rxSlotValid && meta[j].rxSlotValid ::
      (meta[i].rxCard, meta[i].rxLocal) != (meta[j].rxCard, meta[j].rxLocal)
  }

  /** As in everything the compiler produces. */
  lemma CompiledApart(cfg: Config, t: seq<CardBuilder.CardTables>, prog: Program)
    requires CompiledFrom(cfg, t, prog)
    ensures SlotsApart(prog.meta)
  {
    ValidResolves(cfg);
    forall i, j | 0 <= i < j < |prog.meta| && prog.meta[i].rxSlotValid && prog.meta[j].rxSlotValid
      ensures (prog.meta[i].rxCard, prog.meta[i].rxLocal) != (prog.meta[j].rxCard, prog.meta[j].rxLocal)
    {
      RxSlotsDisjoint(cfg, t, prog.meta, i, j);
    }
  }

  /** The cards of a flow that is to be corrected: measured, from one open card to another. */
  function Ends(cards: seq<Card>, open: seq<bool>, m: Meta): (r: Option<(nat, nat)>)
    requires |open| == |cards|
    ensures r.Some? ==> r.value.0 < |cards| && r.value.1 < |cards| && r.value.0 != r.value.1
    ensures r.Some? ==> m.rxSlotValid && cards[r.value.1].id == m.rxCard
  {
    var tx, rx := IndexOf(cards, m.txCard), IndexOf(cards, m.rxCard);
    if !m.rxSlotValid || m.txCard == m.rxCard || tx.None? || rx.None? || !open[tx.value] || !open[rx.value] then None
    else Some((tx.value, rx.value))
  }

  /** With distinct card ids these are exactly the open card it is sent from and another open card it is received on. */
  lemma EndsExactly(cards: seq<Card>, open: seq<bool>, m: Meta, a: nat, b: nat)
    requires |open| == |cards| && a < |cards| && b < |cards| && Validate.DistinctCards(cards)
    ensures Ends(cards, open, m) == Some((a, b)) <==>
            m.rxSlotValid && a != b && cards[a].id == m.txCard && cards[b].id == m.rxCard && open[a] && open[b]
  {
    if cards[a].id == m.txCard { IndexOfFinds(cards, m.txCard, 0, a); }
    if cards[b].id == m.rxCard { IndexOfFinds(cards, m.rxCard, 0, b); }
  }

  /** What serving one flow came to, and all edges up to then. */
  datatype Outcome = Outcome(before: nat, wrote: bool, used: nat, htx: u32, hrx: u32, landed: bool, edges: seq<Latch>)

  const UNSERVED := Outcome(0, false, 0, 0, 0, false, [])

  /** The attempt that was published is to be trusted, and both words of the correction arrived. */
  predicate Sure(o: Outcome, tx: nat, rx: nat, plans: seq<Plan>) {
    o.wrote && o.landed && o.used < |plans| && Trusted(o.edges, tx, rx, plans[o.used], o.htx, o.hrx)
  }

  /** Whether a flow was published, and that its slot is then calibrated if the reading is sure. */
  ghost predicate Right(ends: (nat, nat), m: Meta, plans: seq<Plan>, o: Outcome, table: seq<u64>, cal: int)
    requires |plans| == TRIES
  {
    && (if o.wrote then o.used < TRIES && AcceptedAt(o.before, plans, o.used) else NoneBefore(o.before, plans, TRIES))
    && (Sure(o, ends.0, ends.1, plans) && m.rxLocal < |table| ==>
          Follows(Pair(o.edges[|o.edges| - 1], ends.0, ends.1), table[m.rxLocal], CalBias(cal, m.txCard, m.rxCard)))
  }

  ghost predicate RightAt(cards: seq<Card>, open: seq<bool>, meta: seq<Meta>, plans: seq<seq<Plan>>,
                          outs: seq<Outcome>, tables: seq<seq<u64>>, cal: int, k: nat)
    requires |open| == |cards| == |tables| && k < |outs| && k < |meta| == |plans| && |plans[k]| == TRIES
  {
    var e := Ends(cards, open, meta[k]);
    e.Some? ==> Right(e.value, meta[k], plans[k], outs[k], tables[e.value.1], cal)
  }

  /** Slot j of card d belongs to one of the first n flows that are corrected. */
  predicate Corrected(cards: seq<Card>, open: seq<bool>, meta: seq<Meta>, n: nat, d: nat, j: nat)
    requires |open| == |cards| && n <= |meta|
  {
    exists k | 0 <= k < n :: CorrectedBy(cards, open, meta[k], d, j)
  }

  predicate CorrectedBy(cards: seq<Card>, open: seq<bool>, m: Meta, d: nat, j: nat)
    requires |open| == |cards|
  {
    Ends(cards, open, m).Some? && Ends(cards, open, m).value.1 == d && m.rxLocal as int == j
  }

  /** Nothing but slot j of card d differs. */
  predicate OnlySlot(t0: seq<seq<u64>>, t1: seq<seq<u64>>, d: nat, j: nat) {
    && |t0| == |t1|
    && forall c | 0 <= c < |t0| :: |t1[c]| == |t0[c]|
         && forall i | 0 <= i < |t0[c]| && (c != d || i != j) :: t1[c][i] == t0[c][i]
  }

  /** Serving flow n leaves the slots of the flows before it alone. */
  lemma EarlierStay(cards: seq<Card>, open: seq<bool>, meta: seq<Meta>, plans: seq<seq<Plan>>, outs: seq<Outcome>,
                    t0: seq<seq<u64>>, t1: seq<seq<u64>>, cal: int, n: nat, k: nat)
    requires |open| == |cards| == |t0| && k < n < |meta| == |plans| && n <= |outs| && |plans[k]| == TRIES
    requires SlotsApart(meta) && Ends(cards, open, meta[n]).Some?
    requires OnlySlot(t0, t1, Ends(cards, open, meta[n]).value.1, meta[n].rxLocal)
    requires RightAt(cards, open, meta, plans, outs, t0, cal, k)
    ensures RightAt(cards, open, meta, plans, outs, t1, cal, k)
  {
    var e, e' := Ends(cards, open, meta[k]), Ends(cards, open, meta[n]);
    if e.Some? {
      assert (meta[k].rxCard, meta[k].rxLocal) != (meta[n].rxCard, meta[n].rxLocal);
      var c, j := e.value.1, meta[k].rxLocal;
      assert c != e'.value.1 || j != meta[n].rxLocal;
    }
  }

  /** The correction tables of all cards. */
  ghost function Tables(corrs: seq<Corrections>): (t: seq<seq<u64>>)
    reads corrs
    ensures |t| == |corrs| && forall c | 0 <= c < |corrs| :: t[c] == corrs[c].table
  {
    seq(|corrs|, c requires 0 <= c < |corrs| reads corrs => corrs[c].table)
  }

  ghost predicate RigOk(rig: Rig, corrs: seq<Corrections>)
    reads rig, corrs
  {
    && rig.Ok() && (forall i, j | 0 <= i < j < |corrs| :: corrs[i] != corrs[j])
    && forall c | 0 <= c < |corrs| :: corrs[c].Ok()
  }

  /** One flow of the pass. */
  method ServeFlow(rig: Rig, corrs: seq<Corrections>, ends: (nat, nat), m: Meta, plans: seq<Plan>, cal: int)
    returns (ghost o: Outcome)
    requires RigOk(rig, corrs) && ends.0 < |corrs| && ends.1 < |corrs| && ends.0 != ends.1 && |plans| == TRIES
    modifies rig, corrs
    ensures RigOk(rig, corrs) && OnlySlot(old(Tables(corrs)), Tables(corrs), ends.1, m.rxLocal)
    ensures Right(ends, m, plans, o, corrs[ends.1].table, cal)
  {
    ghost var before, t0 := |rig.edges|, Tables(corrs);
    var wrote;
    ghost var used, htx, hrx, landed;
    wrote, used, htx, hrx, landed := ServoStep(rig, corrs[ends.1], ends.0, ends.1, plans, m.rxLocal,
                                               CalBias(cal, m.txCard, m.rxCard));
    o := Outcome(before, wrote, used, htx, hrx, landed, rig.edges);
    forall c | 0 <= c < |t0|
      ensures |Tables(corrs)[c]| == |t0[c]|
              && forall i | 0 <= i < |t0[c]| && (c != ends.1 || i != m.rxLocal) :: Tables(corrs)[c][i] == t0[c][i]
    {
      assert c != ends.1 ==> corrs[c].table == t0[c];
    }
  }

  /** Slots that are not corrected have not changed. */
  predicate OthersKept(cards: seq<Card>, open: seq<bool>, meta: seq<Meta>, n: nat, t0: seq<seq<u64>>, t1: seq<seq<u64>>)
    requires |open| == |cards| && n <= |meta|
  {
    && |t0| == |t1|
    && forall d | 0 <= d < |t0| :: |t1[d]| == |t0[d]|
         && forall j | 0 <= j < |t0[d]| && !Corrected(cards, open, meta, n, d, j) :: t1[d][j] == t0[d][j]
  }

  lemma OthersStep(cards: seq<Card>, open: seq<bool>, meta: seq<Meta>, n: nat,
                   t0: seq<seq<u64>>, t1: seq<seq<u64>>, t2: seq<seq<u64>>)
    requires |open| == |cards| && n < |meta| && OthersKept(cards, open, meta, n, t0, t1)
    requires var e := Ends(cards, open, meta[n]);
             if e.Some? then OnlySlot(t1, t2, e.value.1, meta[n].rxLocal) else t2 == t1
    ensures OthersKept(cards, open, meta, n + 1, t0, t2)
  {
    forall d, j | 0 <= d < |t0| && 0 <= j < |t0[d]| && !Corrected(cards, open, meta, n + 1, d, j)
      ensures t2[d][j] == t0[d][j]
    {
      assert !CorrectedBy(cards, open, meta[n], d, j);
      if k :| 0 <= k < n && CorrectedBy(cards, open, meta[k], d, j) { assert false; }
      assert !Corrected(cards, open, meta, n, d, j);
    }
  }

  /**
   servo_lat_correction. Afterwards every flow that could be published with a sure reading has its
   own slot calibrated, whatever was served after it, and no slot of another flow has changed.
   */
  method ServoPass(cards: seq<Card>, meta: seq<Meta>, open: seq<bool>, rig: Rig, corrs: seq<Corrections>,
                   plans: seq<seq<Plan>>, cal: int)
    returns (ghost outs: seq<Outcome>)
    requires |open| == |cards| == |corrs| && |plans| == |meta| && (forall k | 0 <= k < |plans| :: |plans[k]| == TRIES)
    requires SlotsApart(meta) && RigOk(rig, corrs)
    modifies rig, corrs
    ensures RigOk(rig, corrs) && |outs| == |meta|
    ensures forall k | 0 <= k < |meta| :: RightAt(cards, open, meta, plans, outs, Tables(corrs), cal, k)
    ensures OthersKept(cards, open, meta, |meta|, old(Tables(corrs)), Tables(corrs))
  {
    outs := [];
    for n := 0 to |meta|
      invariant RigOk(rig, corrs) && |outs| == n
      invariant forall k | 0 <= k < n :: RightAt(cards, open, meta, plans, outs, Tables(corrs), cal, k)
      invariant OthersKept(cards, open, meta, n, old(Tables(corrs)), Tables(corrs))
    {
      var e := Ends(cards, open, meta[n]);
      ghost var t1, was := Tables(corrs), outs;
      ghost var o := UNSERVED;
      if e.Some? {
        o := ServeFlow(rig, corrs, e.value, meta[n], plans[n], cal);
        forall k | 0 <= k < n ensures RightAt(cards, open, meta, plans, was, Tables(corrs), cal, k) {
          EarlierStay(cards, open, meta, plans, was, t1, Tables(corrs), cal, n, k);
        }
      }
      outs := outs + [o];
      OthersStep(cards, open, meta, n, old(Tables(corrs)), t1, Tables(corrs));
      forall k | 0 <= k < n + 1 ensures RightAt(cards, open, meta, plans, outs, Tables(corrs), cal, k) {
        if k < n { assert RightAt(cards, open, meta, plans, was, Tables(corrs), cal, k) && outs[k] == was[k]; }
      }
    }
  }
}
