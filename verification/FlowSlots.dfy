/**
 Slot allocation (compile_one_flow): which table rows, map entries and hash entries a flow
 gets, and why no two flows ever share one.
 */
module FlowSlots {
  import opened Basics
  import opened Config
  import opened Classifier
  import opened CardBuilder
  import opened FlowRows
  import opened HashKeys
  import Validate

  datatype Meta = Meta(flowId: u32, txCard: u16, rxCard: u16, txLocal: u32, rxLocal: u32,
                       latencyValid: bool, rxSlotValid: bool)

  const ZERO_META := Meta(0, 0, 0, 0, 0, false, false)

  /** Position of the first card with this id, from c on. */
  function IndexOf(cards: seq<Card>, id: u16, c: nat := 0): (r: Option<nat>)
    requires c <= |cards|
    ensures r.Some? ==> c <= r.value < |cards| && cards[r.value].id == id
    decreases |cards| - c
  {
    if c == |cards| then None else if cards[c].id == id then Some(c) else IndexOf(cards, id, c + 1)
  }

  lemma {:induction false} IndexOfFinds(cards: seq<Card>, id: u16, c: nat, i: nat)
    requires c <= i < |cards| && cards[i].id == id
    ensures IndexOf(cards, id, c).Some?
    decreases |cards| - c
  {
    if cards[c].id != id { IndexOfFinds(cards, id, c + 1, i); }
  }

  /** Both ends of the flow are declared ports. */
  predicate Resolves(cfg: Config, f: Flow) {
    Resolve(cfg.cards, f.txPort).Some? && Resolve(cfg.cards, f.rxPort).Some?
  }

  function TxRef(cfg: Config, f: Flow): PortRef
    requires Resolves(cfg, f)
  {
    Resolve(cfg.cards, f.txPort).value
  }

  function RxRef(cfg: Config, f: Flow): PortRef
    requires Resolves(cfg, f)
  {
    Resolve(cfg.cards, f.rxPort).value
  }

  lemma ResolvedCardExists(cards: seq<Card>, gp: u16)
    requires Resolve(cards, gp).Some?
    ensures IndexOf(cards, Resolve(cards, gp).value.cardId).Some?
  {
    var i, p := ResolveSound(cards, gp, 0);
    IndexOfFinds(cards, cards[i].id, 0, i);
  }

  /** A resolved port's card is in the card list. */
  function TxIdx(cfg: Config, f: Flow): (r: nat)
    requires Resolves(cfg, f)
    ensures r < |cfg.cards| && cfg.cards[r].id == TxRef(cfg, f).cardId
  {
    ResolvedCardExists(cfg.cards, f.txPort);
    IndexOf(cfg.cards, TxRef(cfg, f).cardId).value
  }

  function RxIdx(cfg: Config, f: Flow): (r: nat)
    requires Resolves(cfg, f)
    ensures r < |cfg.cards| && cfg.cards[r].id == RxRef(cfg, f).cardId
  {
    ResolvedCardExists(cfg.cards, f.rxPort);
    IndexOf(cfg.cards, RxRef(cfg, f).cardId).value
  }

  predicate SameCard(cfg: Config, f: Flow)
    requires Resolves(cfg, f)
  {
    TxRef(cfg, f).cardId == RxRef(cfg, f).cardId
  }

  /** Tables of the configured cards, with every row's local id its own index. */
  predicate TablesOk(cfg: Config, tabs: seq<CardTables>) {
    && |tabs| == |cfg.cards|
    && forall c | 0 <= c < |tabs| ::
         && tabs[c].cardId == cfg.cards[c].id
         && |tabs[c].rows| <= FLOW_TABLE_ROWS
         && |tabs[c].hashEntries| <= HASH_DEPTH
         && forall j | 0 <= j < |tabs[c].rows| :: tabs[c].rows[j].localId == j
  }

  predicate AllResolve(cfg: Config) {
    forall k | 0 <= k < |cfg.flows| :: Resolves(cfg, cfg.flows[k])
  }

  /** Flow k's rows and classification entry are where its meta record says. */
  predicate Placed(cfg: Config, tabs: seq<CardTables>, meta: seq<Meta>, k: nat)
    requires AllResolve(cfg) && |tabs| == |cfg.cards| && k < |cfg.flows| == |meta|
  {
    var f, m := cfg.flows[k], meta[k];
    var tx, rx := tabs[TxIdx(cfg, f)], tabs[RxIdx(cfg, f)];
    var same := SameCard(cfg, f);
    && m.flowId == f.id
    && m.txCard == TxRef(cfg, f).cardId && m.rxCard == RxRef(cfg, f).cardId
    && m.latencyValid == (same && !f.background)
    && m.rxSlotValid == !f.background
    && m.txLocal < |tx.rows| && tx.rows[m.txLocal] == TxRow(f, TxRef(cfg, f).localPort, m.txLocal, same)
    && (f.background || same ==> m.rxLocal == m.txLocal)
    && (!f.background ==> m.rxLocal < |rx.rows| && rx.rows[m.rxLocal].flowId == f.id && rx.rows[m.rxLocal].rxCheck)
    && (!f.background && !same ==> rx.rows[m.rxLocal] == RxRow(f, RxRef(cfg, f).localPort, m.rxLocal))
    && (!f.background && !f.classifyHeader ==> f.id < MAP_DEPTH && MapEntry(f.id, m.rxLocal) in rx.maps)
    && (!f.background && f.classifyHeader ==> HashEntry(0, HashWords(f), m.rxLocal) in rx.hashEntries)
  }

  /** Row j of card c was written for flow k: its generator row, or its checker row. */
  predicate RowOf(cfg: Config, meta: seq<Meta>, k: nat, c: nat, j: nat) {
    && AllResolve(cfg) && k < |cfg.flows| == |meta|
    && var f := cfg.flows[k];
       || (c == TxIdx(cfg, f) && meta[k].txLocal == j)
       || (c == RxIdx(cfg, f) && meta[k].rxLocal == j && !f.background)
  }

  predicate MapOf(cfg: Config, meta: seq<Meta>, k: nat, c: nat, e: MapEntry) {
    && AllResolve(cfg) && k < |cfg.flows| == |meta|
    && var f := cfg.flows[k];
       c == RxIdx(cfg, f) && !f.background && !f.classifyHeader && e == MapEntry(f.id, meta[k].rxLocal)
  }

  predicate HashOf(cfg: Config, meta: seq<Meta>, k: nat, c: nat, e: HashEntry) {
    && AllResolve(cfg) && k < |cfg.flows| == |meta|
    && var f := cfg.flows[k];
       c == RxIdx(cfg, f) && !f.background && f.classifyHeader && e == HashEntry(0, HashWords(f), meta[k].rxLocal)
  }

  predicate RowClaimed(cfg: Config, meta: seq<Meta>, n: nat, c: nat, j: nat) {
    exists k | 0 <= k < n :: RowOf(cfg, meta, k, c, j)
  }

  predicate MapClaimed(cfg: Config, meta: seq<Meta>, n: nat, c: nat, e: MapEntry) {
    exists k | 0 <= k < n :: MapOf(cfg, meta, k, c, e)
  }

  predicate HashClaimed(cfg: Config, meta: seq<Meta>, n: nat, c: nat, e: HashEntry) {
    exists k | 0 <= k < n :: HashOf(cfg, meta, k, c, e)
  }

  predicate CardOwned(cfg: Config, t: CardTables, meta: seq<Meta>, n: nat, c: nat) {
    && (forall j | 0 <= j < |t.rows| :: RowClaimed(cfg, meta, n, c, j))
    && (forall i | 0 <= i < |t.maps| :: MapClaimed(cfg, meta, n, c, t.maps[i]))
    && (forall i | 0 <= i < |t.hashEntries| :: HashClaimed(cfg, meta, n, c, t.hashEntries[i]))
  }

  /** Everything in the tables was put there for one of the first n flows. */
  predicate Owned(cfg: Config, tabs: seq<CardTables>, meta: seq<Meta>, n: nat) {
    forall c | 0 <= c < |tabs| :: CardOwned(cfg, tabs[c], meta, n, c)
  }

  /** The state after the first n flows have been compiled. */
  predicate Slots(cfg: Config, tabs: seq<CardTables>, meta: seq<Meta>, n: nat) {
    && AllResolve(cfg) && TablesOk(cfg, tabs) && n <= |meta| == |cfg.flows|
    && (forall k | 0 <= k < n :: Placed(cfg, tabs, meta, k))
    && Owned(cfg, tabs, meta, n)
  }

  // ---- what one flow adds -------------------------------------------------------------

  function WithRow(tabs: seq<CardTables>, c: nat, r: Row): seq<CardTables>
    requires c < |tabs|
  {
    tabs[c := tabs[c].(rows := tabs[c].rows + [r])]
  }

  function WithEntry(tabs: seq<CardTables>, c: nat, f: Flow, localId: u32): seq<CardTables>
    requires c < |tabs|
  {
    if f.classifyHeader then
      tabs[c := tabs[c].(hashEntries := tabs[c].hashEntries + [HashEntry(0, HashWords(f), localId)])]
    else tabs[c := tabs[c].(maps := tabs[c].maps + [MapEntry(f.id, localId)])]
  }

  /** Tables and meta record after compiling flow f, when its card still has room. */
  function TxLocal(cfg: Config, tabs: seq<CardTables>, f: Flow): u32
    requires Resolves(cfg, f) && TablesOk(cfg, tabs)
  {
    |tabs[TxIdx(cfg, f)].rows|
  }

  function RxLocal(cfg: Config, tabs: seq<CardTables>, f: Flow): u32
    requires Resolves(cfg, f) && TablesOk(cfg, tabs)
  {
    if SameCard(cfg, f) || f.background then TxLocal(cfg, tabs, f) else |tabs[RxIdx(cfg, f)].rows|
  }

  function MetaOf(cfg: Config, tabs: seq<CardTables>, f: Flow): Meta
    requires Resolves(cfg, f) && TablesOk(cfg, tabs)
  {
    Meta(f.id, TxRef(cfg, f).cardId, RxRef(cfg, f).cardId, TxLocal(cfg, tabs, f), RxLocal(cfg, tabs, f),
         SameCard(cfg, f) && !f.background, !f.background)
  }

  function AfterTx(cfg: Config, tabs: seq<CardTables>, f: Flow): seq<CardTables>
    requires Resolves(cfg, f) && TablesOk(cfg, tabs)
  {
    WithRow(tabs, TxIdx(cfg, f), TxRow(f, TxRef(cfg, f).localPort, TxLocal(cfg, tabs, f), SameCard(cfg, f)))
  }

  function AfterRx(cfg: Config, tabs: seq<CardTables>, f: Flow): seq<CardTables>
    requires Resolves(cfg, f) && TablesOk(cfg, tabs)
  {
    var t := AfterTx(cfg, tabs, f);
    if SameCard(cfg, f) then t
    else WithRow(t, RxIdx(cfg, f), RxRow(f, RxRef(cfg, f).localPort, RxLocal(cfg, tabs, f)))
  }

  function AfterFlow(cfg: Config, tabs: seq<CardTables>, f: Flow): seq<CardTables>
    requires Resolves(cfg, f) && TablesOk(cfg, tabs)
  {
    if f.background then AfterTx(cfg, tabs, f)
    else WithEntry(AfterRx(cfg, tabs, f), RxIdx(cfg, f), f, RxLocal(cfg, tabs, f))
  }

  /** Tables only grow. */
  predicate Grows(t0: seq<CardTables>, t1: seq<CardTables>) {
    && |t0| == |t1|
    && forall c | 0 <= c < |t0| ::
         t0[c].rows <= t1[c].rows && t0[c].maps <= t1[c].maps && t0[c].hashEntries <= t1[c].hashEntries
  }

  lemma PlacedStays(cfg: Config, t0: seq<CardTables>, t1: seq<CardTables>, m0: seq<Meta>, m1: seq<Meta>, k: nat)
    requires AllResolve(cfg) && Grows(t0, t1) && |t0| == |cfg.cards| && k < |cfg.flows| == |m0| == |m1|
    requires m0[k] == m1[k] && Placed(cfg, t0, m0, k)
    ensures Placed(cfg, t1, m1, k)
  {
    var f := cfg.flows[k];
    assert t0[RxIdx(cfg, f)].rows <= t1[RxIdx(cfg, f)].rows;
    assert t0[TxIdx(cfg, f)].rows <= t1[TxIdx(cfg, f)].rows;
  }

  /** There is room for the flow's rows and for its classification entry. */
  predicate Fits(cfg: Config, tabs: seq<CardTables>, f: Flow)
    requires Resolves(cfg, f) && TablesOk(cfg, tabs)
  {
    && |tabs[TxIdx(cfg, f)].rows| < FLOW_TABLE_ROWS
    && (!f.background ==> |tabs[RxIdx(cfg, f)].rows| < FLOW_TABLE_ROWS)
    && (!f.background && !f.classifyHeader ==> f.id < MAP_DEPTH)
    && (!f.background && f.classifyHeader ==> |tabs[RxIdx(cfg, f)].hashEntries| < HASH_DEPTH)
  }

  lemma RowGrows(cfg: Config, tabs: seq<CardTables>, c: nat, r: Row)
    requires TablesOk(cfg, tabs) && c < |tabs|
    requires r.localId == |tabs[c].rows| < FLOW_TABLE_ROWS
    ensures TablesOk(cfg, WithRow(tabs, c, r)) && Grows(tabs, WithRow(tabs, c, r))
  {}

  lemma EntryGrows(cfg: Config, tabs: seq<CardTables>, c: nat, f: Flow, l: u32)
    requires TablesOk(cfg, tabs) && c < |tabs|
    requires f.classifyHeader ==> |tabs[c].hashEntries| < HASH_DEPTH
    ensures TablesOk(cfg, WithEntry(tabs, c, f, l)) && Grows(tabs, WithEntry(tabs, c, f, l))
  {}

  lemma GrowsTrans(a: seq<CardTables>, b: seq<CardTables>, c: seq<CardTables>)
    requires Grows(a, b) && Grows(b, c)
    ensures Grows(a, c)
  {}

  lemma SameCardIsSameIndex(cfg: Config, f: Flow)
    requires Resolves(cfg, f) && Validate.DistinctCards(cfg.cards)
    ensures SameCard(cfg, f) <==> TxIdx(cfg, f) == RxIdx(cfg, f)
  {}

  lemma AfterFlowGrows(cfg: Config, tabs: seq<CardTables>, f: Flow)
    requires Resolves(cfg, f) && TablesOk(cfg, tabs) && Validate.DistinctCards(cfg.cards) && Fits(cfg, tabs, f)
    ensures Grows(tabs, AfterFlow(cfg, tabs, f))
    ensures TablesOk(cfg, AfterFlow(cfg, tabs, f))
  {
    SameCardIsSameIndex(cfg, f);
    var t1, t2 := AfterTx(cfg, tabs, f), AfterRx(cfg, tabs, f);
    var l := RxLocal(cfg, tabs, f);
    RowGrows(cfg, tabs, TxIdx(cfg, f), TxRow(f, TxRef(cfg, f).localPort, TxLocal(cfg, tabs, f), SameCard(cfg, f)));
    if !f.background {
      if !SameCard(cfg, f) {
        RowGrows(cfg, t1, RxIdx(cfg, f), RxRow(f, RxRef(cfg, f).localPort, l));
        GrowsTrans(tabs, t1, t2);
      }
      EntryGrows(cfg, t2, RxIdx(cfg, f), f, l);
      GrowsTrans(tabs, t2, AfterFlow(cfg, tabs, f));
    }
  }

  lemma AfterFlowPlaces(cfg: Config, tabs: seq<CardTables>, m: seq<Meta>, n: nat)
    requires AllResolve(cfg) && TablesOk(cfg, tabs) && n < |m| == |cfg.flows| && Validate.DistinctCards(cfg.cards)
    requires Fits(cfg, tabs, cfg.flows[n]) && m[n] == MetaOf(cfg, tabs, cfg.flows[n])
    ensures Placed(cfg, AfterFlow(cfg, tabs, cfg.flows[n]), m, n)
  {
    var f := cfg.flows[n];
    SameCardIsSameIndex(cfg, f);
    var l, rx := RxLocal(cfg, tabs, f), AfterFlow(cfg, tabs, f)[RxIdx(cfg, f)];
    if !f.background {
      if f.classifyHeader {
        assert rx.hashEntries[|rx.hashEntries| - 1] == HashEntry(0, HashWords(f), l);
      } else {
        assert rx.maps[|rx.maps| - 1] == MapEntry(f.id, l);
      }
    }
  }

  /** A claim made for the first n flows still stands after flow n. */
  lemma ClaimsStay(cfg: Config, meta: seq<Meta>, m: Meta, n: nat, c: nat, t: CardTables)
    requires n < |meta| && CardOwned(cfg, t, meta, n, c)
    ensures CardOwned(cfg, t, meta[n := m], n + 1, c)
  {
    var m1, n1 := meta[n := m], n + 1;
    forall j | 0 <= j < |t.rows| ensures RowClaimed(cfg, m1, n1, c, j) {
      assert RowClaimed(cfg, meta, n, c, j);
      var k :| 0 <= k < n && RowOf(cfg, meta, k, c, j);
      assert RowOf(cfg, m1, k, c, j);
    }
    forall i | 0 <= i < |t.maps| ensures MapClaimed(cfg, m1, n1, c, t.maps[i]) {
      assert MapClaimed(cfg, meta, n, c, t.maps[i]);
      var k :| 0 <= k < n && MapOf(cfg, meta, k, c, t.maps[i]);
      assert MapOf(cfg, m1, k, c, t.maps[i]);
    }
    forall i | 0 <= i < |t.hashEntries| ensures HashClaimed(cfg, m1, n1, c, t.hashEntries[i]) {
      assert HashClaimed(cfg, meta, n, c, t.hashEntries[i]);
      var k :| 0 <= k < n && HashOf(cfg, meta, k, c, t.hashEntries[i]);
      assert HashOf(cfg, m1, k, c, t.hashEntries[i]);
    }
  }

  lemma OwnedStays(cfg: Config, tabs: seq<CardTables>, meta: seq<Meta>, m: Meta, n: nat)
    requires n < |meta| && Owned(cfg, tabs, meta, n)
    ensures Owned(cfg, tabs, meta[n := m], n + 1)
  {
    var m1, n1 := meta[n := m], n + 1;
    forall c | 0 <= c < |tabs| ensures CardOwned(cfg, tabs[c], m1, n1, c) {
      ClaimsStay(cfg, meta, m, n, c, tabs[c]);
    }
  }

  lemma OwnsRow(cfg: Config, tabs: seq<CardTables>, meta: seq<Meta>, n: nat, c: nat, r: Row, k: nat)
    requires c < |tabs| && Owned(cfg, tabs, meta, n) && k < n && RowOf(cfg, meta, k, c, |tabs[c].rows|)
    ensures Owned(cfg, WithRow(tabs, c, r), meta, n)
  {
    var t := WithRow(tabs, c, r);
    assert RowClaimed(cfg, meta, n, c, |tabs[c].rows|);
    forall d | 0 <= d < |t| ensures CardOwned(cfg, t[d], meta, n, d) {
      assert CardOwned(cfg, tabs[d], meta, n, d);
    }
  }

  lemma OwnsEntry(cfg: Config, tabs: seq<CardTables>, meta: seq<Meta>, n: nat, k: nat)
    requires AllResolve(cfg) && |tabs| == |cfg.cards| && k < n <= |cfg.flows| == |meta| && Owned(cfg, tabs, meta, n)
    requires !cfg.flows[k].background
    ensures var f := cfg.flows[k]; Owned(cfg, WithEntry(tabs, RxIdx(cfg, f), f, meta[k].rxLocal), meta, n)
  {
    var f, l := cfg.flows[k], meta[k].rxLocal;
    var c := RxIdx(cfg, f);
    var t := WithEntry(tabs, c, f, l);
    if f.classifyHeader {
      assert HashOf(cfg, meta, k, c, HashEntry(0, HashWords(f), l));
      assert HashClaimed(cfg, meta, n, c, HashEntry(0, HashWords(f), l));
    } else {
      assert MapOf(cfg, meta, k, c, MapEntry(f.id, l));
      assert MapClaimed(cfg, meta, n, c, MapEntry(f.id, l));
    }
    forall d | 0 <= d < |t| ensures CardOwned(cfg, t[d], meta, n, d) {
      assert CardOwned(cfg, tabs[d], meta, n, d);
    }
  }

  lemma AfterFlowOwned(cfg: Config, tabs: seq<CardTables>, m: seq<Meta>, n: nat)
    requires AllResolve(cfg) && TablesOk(cfg, tabs) && n < |m| == |cfg.flows| && Validate.DistinctCards(cfg.cards)
    requires m[n] == MetaOf(cfg, tabs, cfg.flows[n]) && Owned(cfg, tabs, m, n + 1)
    ensures Owned(cfg, AfterFlow(cfg, tabs, cfg.flows[n]), m, n + 1)
  {
    var f := cfg.flows[n];
    SameCardIsSameIndex(cfg, f);
    var tc, rc, same := TxIdx(cfg, f), RxIdx(cfg, f), SameCard(cfg, f);
    assert RowOf(cfg, m, n, tc, |tabs[tc].rows|);
    OwnsRow(cfg, tabs, m, n + 1, tc, TxRow(f, TxRef(cfg, f).localPort, TxLocal(cfg, tabs, f), same), n);
    if !f.background {
      var t1 := AfterTx(cfg, tabs, f);
      if !same {
        assert RowOf(cfg, m, n, rc, |t1[rc].rows|);
        OwnsRow(cfg, t1, m, n + 1, rc, RxRow(f, RxRef(cfg, f).localPort, RxLocal(cfg, tabs, f)), n);
      }
      OwnsEntry(cfg, AfterRx(cfg, tabs, f), m, n + 1, n);
    }
  }

  /** Compiling one more flow keeps every earlier flow in its slots and gives the new one slots of its own. */
  lemma SlotsStep(cfg: Config, tabs: seq<CardTables>, meta: seq<Meta>, n: nat)
    requires Slots(cfg, tabs, meta, n) && n < |cfg.flows| && Validate.DistinctCards(cfg.cards)
    requires Fits(cfg, tabs, cfg.flows[n])
    ensures var f := cfg.flows[n];
            Slots(cfg, AfterFlow(cfg, tabs, f), meta[n := MetaOf(cfg, tabs, f)], n + 1)
  {
    var f := cfg.flows[n];
    var t, m := AfterFlow(cfg, tabs, f), meta[n := MetaOf(cfg, tabs, f)];
    AfterFlowGrows(cfg, tabs, f);
    AfterFlowPlaces(cfg, tabs, m, n);
    OwnedStays(cfg, tabs, meta, MetaOf(cfg, tabs, f), n);
    AfterFlowOwned(cfg, tabs, m, n);
    forall k | 0 <= k < n ensures Placed(cfg, t, m, k) {
      PlacedStays(cfg, tabs, t, meta, m, k);
    }
  }

  // ---- consequences -------------------------------------------------------------------

  predicate DistinctFlowIds(cfg: Config) {
    forall i, j | 0 <= i < j < |cfg.flows| :: cfg.flows[i].id != cfg.flows[j].id
  }

  /** No two measured flows share a receive slot. */
  lemma RxSlotsDisjoint(cfg: Config, tabs: seq<CardTables>, meta: seq<Meta>, i: nat, j: nat)
    requires Slots(cfg, tabs, meta, |cfg.flows|) && DistinctFlowIds(cfg) && Validate.DistinctCards(cfg.cards)
    requires i < |cfg.flows| && j < |cfg.flows| && i != j
    requires meta[i].rxSlotValid && meta[j].rxSlotValid
    ensures (meta[i].rxCard, meta[i].rxLocal) != (meta[j].rxCard, meta[j].rxLocal)
  {
    assert Placed(cfg, tabs, meta, i) && Placed(cfg, tabs, meta, j);
    if meta[i].rxCard == meta[j].rxCard {
      assert RxIdx(cfg, cfg.flows[i]) == RxIdx(cfg, cfg.flows[j]);
    }
  }

  /** Whoever claimed a row is the flow whose id the row carries. */
  lemma RowOwner(cfg: Config, tabs: seq<CardTables>, meta: seq<Meta>, c: nat, j: nat) returns (k: nat)
    requires Slots(cfg, tabs, meta, |cfg.flows|) && c < |tabs| && j < |tabs[c].rows|
    ensures k < |cfg.flows| && RowOf(cfg, meta, k, c, j) && tabs[c].rows[j].flowId == cfg.flows[k].id
  {
    assert CardOwned(cfg, tabs[c], meta, |cfg.flows|, c);
    assert RowClaimed(cfg, meta, |cfg.flows|, c, j);
    k :| 0 <= k < |cfg.flows| && RowOf(cfg, meta, k, c, j);
    assert Placed(cfg, tabs, meta, k);
  }

  /** A background flow owns no receive slot: no row anywhere checks its frames. */
  lemma BackgroundOwnsNoRxSlot(cfg: Config, tabs: seq<CardTables>, meta: seq<Meta>, i: nat, c: nat, j: nat)
    requires Slots(cfg, tabs, meta, |cfg.flows|) && DistinctFlowIds(cfg)
    requires i < |cfg.flows| && cfg.flows[i].background
    requires c < |tabs| && j < |tabs[c].rows| && tabs[c].rows[j].flowId == cfg.flows[i].id
    ensures !tabs[c].rows[j].rxCheck && !meta[i].rxSlotValid
  {
    var k := RowOwner(cfg, tabs, meta, c, j);
    assert k == i;
    assert Placed(cfg, tabs, meta, i);
  }

  /** Only one row generates a flow's frames: the one its meta record names. */
  lemma OneGeneratorRow(cfg: Config, tabs: seq<CardTables>, meta: seq<Meta>, c: nat, j: nat) returns (k: nat)
    requires Slots(cfg, tabs, meta, |cfg.flows|) && Validate.DistinctCards(cfg.cards)
    requires c < |tabs| && j < |tabs[c].rows| && tabs[c].rows[j].txEnable
    ensures k < |cfg.flows| && cfg.flows[k].id == tabs[c].rows[j].flowId
    ensures c == TxIdx(cfg, cfg.flows[k]) && j == meta[k].txLocal
  {
    k := RowOwner(cfg, tabs, meta, c, j);
    assert Placed(cfg, tabs, meta, k);
    SameCardIsSameIndex(cfg, cfg.flows[k]);
  }

  /**
   A flow's generator row stands on the card of its transmit port and makes that port send the
   flow's frames as configured; a flow received on another card has a row there that only checks.
   */
  lemma PlacedGenerates(cfg: Config, tabs: seq<CardTables>, meta: seq<Meta>, k: nat)
    requires AllResolve(cfg) && |tabs| == |cfg.cards| && k < |cfg.flows| == |meta| && Placed(cfg, tabs, meta, k)
    ensures var f, m := cfg.flows[k], meta[k];
            var tx, rx := Resolve(cfg.cards, f.txPort).value, Resolve(cfg.cards, f.rxPort).value;
            var c, d := TxIdx(cfg, f), RxIdx(cfg, f);
            && cfg.cards[c].id == tx.cardId && cfg.cards[d].id == rx.cardId
            && m.txLocal < |tabs[c].rows| && tabs[c].rows[m.txLocal].txEnable
            && Generates(tabs[c].rows[m.txLocal], f, tx.localPort, m.txLocal)
            && (tabs[c].rows[m.txLocal].rxCheck <==> tx.cardId == rx.cardId && !f.background)
            && (tx.cardId != rx.cardId && !f.background ==>
                  m.rxLocal < |tabs[d].rows| && tabs[d].rows[m.rxLocal].rxCheck && !tabs[d].rows[m.rxLocal].txEnable)
  {
    RowGenerates(cfg.flows[k], TxRef(cfg, cfg.flows[k]).localPort, meta[k].txLocal, SameCard(cfg, cfg.flows[k]));
  }

  /** The flow-id map has one entry for each map-classified flow: its own slot. */
  lemma MapSendsHome(cfg: Config, tabs: seq<CardTables>, meta: seq<Meta>, i: nat, c: nat, e: nat)
    requires Slots(cfg, tabs, meta, |cfg.flows|) && DistinctFlowIds(cfg)
    requires i < |cfg.flows| && c < |tabs| && e < |tabs[c].maps| && tabs[c].maps[e].flowId == cfg.flows[i].id
    ensures !cfg.flows[i].background && !cfg.flows[i].classifyHeader && c == RxIdx(cfg, cfg.flows[i])
    ensures tabs[c].maps[e].localId == meta[i].rxLocal && tabs[c].maps[e].flowId < MAP_DEPTH
  {
    assert CardOwned(cfg, tabs[c], meta, |cfg.flows|, c);
    assert MapClaimed(cfg, meta, |cfg.flows|, c, tabs[c].maps[e]);
    var k :| 0 <= k < |cfg.flows| && MapOf(cfg, meta, k, c, tabs[c].maps[e]);
    assert k == i;
    assert Placed(cfg, tabs, meta, i);
  }
}
