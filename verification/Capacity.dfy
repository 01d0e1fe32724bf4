/** How much of each card the flows of a configuration need, and when they all fit. */
module Capacity {
  import opened Basics
  import opened Config
  import opened Classifier
  import opened CardBuilder
  import opened HashKeys
  import opened FlowSlots
  import Validate

  /** Rows of card c that the first n flows need: one to generate, one to check a measured flow from another card. */
  function RowsOn(cfg: Config, c: nat, n: nat): nat
    requires AllResolve(cfg) && n <= |cfg.flows|
  {
    if n == 0 then 0
    else
      var f := cfg.flows[n - 1];
      RowsOn(cfg, c, n - 1) + if c == TxIdx(cfg, f) || (c == RxIdx(cfg, f) && !f.background) then 1 else 0
  }

  /** The keys of the header-classified ones among them that card c receives. */
  function KeysOn(cfg: Config, c: nat, n: nat): seq<KeyWords>
    requires AllResolve(cfg) && n <= |cfg.flows|
  {
    if n == 0 then []
    else
      var f := cfg.flows[n - 1];
      KeysOn(cfg, c, n - 1) + if c == RxIdx(cfg, f) && !f.background && f.classifyHeader then [HashWords(f)] else []
  }

  function KeysOf(es: seq<HashEntry>): (r: seq<KeyWords>)
    ensures |r| == |es| && forall i | 0 <= i < |es| :: r[i] == es[i].key
  {
    seq(|es|, i requires 0 <= i < |es| => es[i].key)
  }

  /** The tables have exactly the rows and keys that the first n flows need. */
  predicate CountedAt(cfg: Config, t: CardTables, c: nat, n: nat)
    requires AllResolve(cfg) && n <= |cfg.flows|
  {
    |t.rows| == RowsOn(cfg, c, n) && KeysOf(t.hashEntries) == KeysOn(cfg, c, n)
  }

  predicate Counted(cfg: Config, tabs: seq<CardTables>, n: nat)
    requires AllResolve(cfg) && n <= |cfg.flows|
  {
    forall c | 0 <= c < |tabs| :: CountedAt(cfg, tabs[c], c, n)
  }

  predicate IdFits(f: Flow) { !f.background && !f.classifyHeader ==> f.id < MAP_DEPTH }

  /** Every card has room for the rows and keys of all flows, and flow ids are within the map. */
  predicate FlowsFit(cfg: Config)
    requires AllResolve(cfg)
  {
    && (forall c | 0 <= c < |cfg.cards| ::
          RowsOn(cfg, c, |cfg.flows|) <= FLOW_TABLE_ROWS && |KeysOn(cfg, c, |cfg.flows|)| <= HASH_DEPTH)
    && (forall i | 0 <= i < |cfg.flows| :: IdFits(cfg.flows[i]))
  }

  /** Card c of the tables after one more flow. */
  lemma FlowAdds(cfg: Config, tabs: seq<CardTables>, f: Flow, c: nat)
    requires Resolves(cfg, f) && TablesOk(cfg, tabs) && Validate.DistinctCards(cfg.cards) && c < |tabs|
    ensures var t := AfterFlow(cfg, tabs, f);
            && |t| == |tabs|
            && |t[c].rows| == |tabs[c].rows|
              + (if c == TxIdx(cfg, f) || (c == RxIdx(cfg, f) && !f.background) then 1 else 0)
            && KeysOf(t[c].hashEntries) == KeysOf(tabs[c].hashEntries)
                 + if c == RxIdx(cfg, f) && !f.background && f.classifyHeader then [HashWords(f)] else []
  {
    SameCardIsSameIndex(cfg, f);
  }

  lemma CountStep(cfg: Config, tabs: seq<CardTables>, n: nat)
    requires AllResolve(cfg) && n < |cfg.flows| && TablesOk(cfg, tabs) && Validate.DistinctCards(cfg.cards)
    requires Counted(cfg, tabs, n)
    ensures Counted(cfg, AfterFlow(cfg, tabs, cfg.flows[n]), n + 1)
  {
    var t := AfterFlow(cfg, tabs, cfg.flows[n]);
    forall c | 0 <= c < |t| ensures CountedAt(cfg, t[c], c, n + 1) {
      assert CountedAt(cfg, tabs[c], c, n);
      FlowAdds(cfg, tabs, cfg.flows[n], c);
    }
  }

  lemma {:induction false} NeedsGrow(cfg: Config, c: nat, m: nat, n: nat)
    requires AllResolve(cfg) && m <= n <= |cfg.flows|
    ensures RowsOn(cfg, c, m) <= RowsOn(cfg, c, n) && |KeysOn(cfg, c, m)| <= |KeysOn(cfg, c, n)|
  {
    if m < n { NeedsGrow(cfg, c, m, n - 1); }
  }

  lemma FullCard(cfg: Config, tabs: seq<CardTables>, n: nat, c: nat)
    requires AllResolve(cfg) && n < |cfg.flows| && c < |tabs| == |cfg.cards| && Counted(cfg, tabs, n)
    requires var f := cfg.flows[n];
             || (|tabs[c].rows| >= FLOW_TABLE_ROWS && (c == TxIdx(cfg, f) || (c == RxIdx(cfg, f) && !f.background)))
             || (|tabs[c].hashEntries| >= HASH_DEPTH && c == RxIdx(cfg, f) && !f.background && f.classifyHeader)
    ensures !FlowsFit(cfg)
  {
    assert CountedAt(cfg, tabs[c], c, n);
    NeedsGrow(cfg, c, n + 1, |cfg.flows|);
  }

  /** A flow that does not fit makes the configuration not fit. */
  lemma UnfitFlow(cfg: Config, tabs: seq<CardTables>, n: nat)
    requires AllResolve(cfg) && n < |cfg.flows| && TablesOk(cfg, tabs) && Validate.DistinctCards(cfg.cards)
    requires Counted(cfg, tabs, n) && !Fits(cfg, tabs, cfg.flows[n])
    ensures !FlowsFit(cfg)
  {
    var f := cfg.flows[n];
    if IdFits(f) {
      if |tabs[TxIdx(cfg, f)].rows| >= FLOW_TABLE_ROWS {
        FullCard(cfg, tabs, n, TxIdx(cfg, f));
      } else {
        FullCard(cfg, tabs, n, RxIdx(cfg, f));
      }
    }
  }

  /** If they were all placed, they fit. */
  lemma PlacedFit(cfg: Config, tabs: seq<CardTables>)
    requires AllResolve(cfg) && TablesOk(cfg, tabs) && Counted(cfg, tabs, |cfg.flows|)
    requires forall i | 0 <= i < |cfg.flows| :: IdFits(cfg.flows[i])
    ensures FlowsFit(cfg)
  {
    forall c | 0 <= c < |cfg.cards|
      ensures RowsOn(cfg, c, |cfg.flows|) <= FLOW_TABLE_ROWS && |KeysOn(cfg, c, |cfg.flows|)| <= HASH_DEPTH
    {
      assert CountedAt(cfg, tabs[c], c, |cfg.flows|);
    }
  }
}
