/**
 Which comparators a list of rules needs in the shared pool, counted once however many rules use
 them, and what appending them one by one does to the pool.
 */
module Pools {
  import opened Basics
  import opened Config
  import opened Classifier
  import opened RuleSources

  predicate Distinct<T(==)>(s: seq<T>) { forall i, j | 0 <= i < j < |s| :: s[i] != s[j] }

  function Elems<T>(s: seq<T>): set<T> { set x | x in s }

  /** A pool without duplicates has as many elements as entries. */
  lemma {:induction false} DistinctSize<T>(s: seq<T>)
    requires Distinct(s)
    ensures |Elems(s)| == |s|
  {
    if s != [] {
      var n := |s| - 1;
      DistinctSize(s[..n]);
      assert Elems(s) == Elems(s[..n]) + {s[n]};
    }
  }

  lemma SubsetSize<T>(a: set<T>, b: set<T>)
    requires a <= b
    ensures |a| <= |b|
  {
    assert b == a + (b - a);
  }

  function CmpsIn(cs: seq<Cond>): set<Cmp> { set c | c in cs && c.Field? :: c.c }
  function UdfsIn(cs: seq<Cond>): set<Udf> { set c | c in cs && c.Window? :: c.u }

  lemma InConcat(a: seq<Cond>, b: seq<Cond>)
    ensures CmpsIn(a + b) == CmpsIn(a) + CmpsIn(b) && UdfsIn(a + b) == UdfsIn(a) + UdfsIn(b)
  {}

  /** The field comparators of these conditions were appended to pool p, giving q; or there was no room for them all. */
  predicate Added(p: seq<Cmp>, q: seq<Cmp>, cs: seq<Cond>, ok: bool) {
    if ok then Elems(q) == Elems(p) + CmpsIn(cs) else |Elems(p) + CmpsIn(cs)| > NUM_CMP
  }

  lemma AddedNone(p: seq<Cmp>)
    ensures Added(p, p, [], true)
  {}

  lemma AddedOne(p: seq<Cmp>, q: seq<Cmp>, c: Cmp, ok: bool)
    requires Distinct(p)
    requires ok ==> q == if c in p then p else p + [c]
    requires !ok ==> c !in p && |p| == NUM_CMP
    ensures Added(p, q, [Field(c)], ok)
  {
    assert CmpsIn([Field(c)]) == {c};
    DistinctSize(p);
  }

  /** One group of conditions after another. */
  lemma AddedThen(p: seq<Cmp>, q: seq<Cmp>, r: seq<Cmp>, a: seq<Cond>, b: seq<Cond>, ok: bool)
    requires Added(p, q, a, true) && Added(q, r, b, ok)
    ensures Added(p, r, a + b, ok)
  {
    InConcat(a, b);
    assert Elems(p) + CmpsIn(a + b) == Elems(p) + CmpsIn(a) + CmpsIn(b);
  }

  lemma AddedFails(p: seq<Cmp>, q: seq<Cmp>, r: seq<Cmp>, a: seq<Cond>, b: seq<Cond>)
    requires Added(p, q, a, false)
    ensures Added(p, r, a + b, false)
  {
    InConcat(a, b);
    SubsetSize(Elems(p) + CmpsIn(a), Elems(p) + CmpsIn(a + b));
  }

  // ---- whole rule lists -------------------------------------------------------------------------------

  function CmpsOf(s: seq<RuleSource>): set<Cmp> {
    if s == [] then {} else CmpsOf(s[..|s| - 1]) + CmpsIn(SourceConds(s[|s| - 1]))
  }

  function UdfsOf(s: seq<RuleSource>): set<Udf> {
    if s == [] then {} else UdfsOf(s[..|s| - 1]) + UdfsIn(SourceConds(s[|s| - 1]))
  }

  /** The classifier has room for these rules and every comparator they need. */
  predicate Suffice(s: seq<RuleSource>) {
    |CmpsOf(s)| <= NUM_CMP && |UdfsOf(s)| <= NUM_UDF && |s| <= NUM_RULE
  }

  lemma OfSnoc(s: seq<RuleSource>, x: RuleSource)
    ensures CmpsOf(s + [x]) == CmpsOf(s) + CmpsIn(SourceConds(x))
    ensures UdfsOf(s + [x]) == UdfsOf(s) + UdfsIn(SourceConds(x))
  {
    assert (s + [x])[..|s|] == s;
  }

  lemma {:induction false} OfGrows(s: seq<RuleSource>, t: seq<RuleSource>)
    requires s <= t
    ensures CmpsOf(s) <= CmpsOf(t) && UdfsOf(s) <= UdfsOf(t)
  {
    if |s| < |t| {
      OfGrows(s, t[..|t| - 1]);
    } else {
      assert s == t;
    }
  }

  /** Fewer rules need no more room. */
  lemma SufficeShrinks(s: seq<RuleSource>, t: seq<RuleSource>)
    requires s <= t && Suffice(t)
    ensures Suffice(s)
  {
    OfGrows(s, t);
    SubsetSize(CmpsOf(s), CmpsOf(t));
    SubsetSize(UdfsOf(s), UdfsOf(t));
  }

  lemma NoRoomGrows(s: seq<RuleSource>, t: seq<RuleSource>)
    requires s <= t && !Suffice(s)
    ensures !Suffice(t)
  {
    if Suffice(t) { SufficeShrinks(s, t); }
  }

  /** The pool holds exactly what the rules need. */
  predicate Pooled(cmps: seq<Cmp>, udfs: seq<Udf>, s: seq<RuleSource>) {
    Elems(cmps) == CmpsOf(s) && Elems(udfs) == UdfsOf(s)
  }

  lemma PooledSuffices(cmps: seq<Cmp>, udfs: seq<Udf>, s: seq<RuleSource>)
    requires Pooled(cmps, udfs, s) && Distinct(cmps) && Distinct(udfs)
    requires |cmps| <= NUM_CMP && |udfs| <= NUM_UDF && |s| <= NUM_RULE
    ensures Suffice(s)
  {
    DistinctSize(cmps);
    DistinctSize(udfs);
  }

  /** The UDF pool is full and lacks one these conditions need. */
  predicate FullFor(udfs: seq<Udf>, cs: seq<Cond>) { |udfs| == NUM_UDF && exists u | u in UdfsIn(cs) :: u !in udfs }

  lemma NoRoom(p: seq<Cmp>, q: seq<Cmp>, udfs: seq<Udf>, s: seq<RuleSource>, x: RuleSource)
    requires Pooled(p, udfs, s) && Distinct(udfs)
    requires Added(p, q, SourceConds(x), false) || FullFor(udfs, SourceConds(x))
    ensures !Suffice(s + [x])
  {
    OfSnoc(s, x);
    if FullFor(udfs, SourceConds(x)) {
      var u :| u in UdfsIn(SourceConds(x)) && u !in udfs;
      DistinctSize(udfs);
      assert u !in Elems(udfs);
      SubsetSize(Elems(udfs) + {u}, UdfsOf(s + [x]));
    }
  }

  lemma PooledStep(p: seq<Cmp>, q: seq<Cmp>, u0: seq<Udf>, u1: seq<Udf>, s: seq<RuleSource>, x: RuleSource)
    requires Pooled(p, u0, s) && Added(p, q, SourceConds(x), true) && Elems(u1) == Elems(u0) + UdfsIn(SourceConds(x))
    ensures Pooled(q, u1, s + [x])
  {
    OfSnoc(s, x);
  }

  // ---- only IS-IS needs a UDF comparator ----------------------------------------------------------------

  lemma HeadUdfs(port: u8, vlan: Half, eth: Half, proto: u8, lane: u8, l4: Half)
    ensures UdfsIn(HeadConds(port, vlan, eth, proto, lane, l4)) == {}
  {}

  lemma {:induction false} AddrUdfs(p: V6Prefix, sel: seq<u8>, n: nat)
    requires n <= 4 == |sel|
    ensures UdfsIn(AddrConds(p, sel, n)) == {}
  {
    if n > 0 { AddrUdfs(p, sel, n - 1); }
  }

  lemma PrefixUdfs(p: Option<V6Prefix>, sel: seq<u8>)
    requires |sel| == 4
    ensures UdfsIn(PrefixConds(p, sel)) == {}
  {
    if p.Some? { AddrUdfs(p.value, sel, |sel|); }
  }

  lemma ForwardUdfs(port: u8, r: ForwardRule)
    ensures UdfsIn(ForwardConds(port, r)) == {}
  {
    var h := HeadConds(port, r.vlan, r.ethertype, r.ipProto, SRC_L4_DST, r.udpDst);
    var v := OnlyIf(r.ipv6Dst.Some? || r.ipv6Src.Some?, Ipv6Cond());
    HeadUdfs(port, r.vlan, r.ethertype, r.ipProto, SRC_L4_DST, r.udpDst);
    PrefixUdfs(r.ipv6Dst, DST_SEL);
    PrefixUdfs(r.ipv6Src, SRC_SEL);
    InConcat(h, v);
    InConcat(h + v, PrefixConds(r.ipv6Dst, DST_SEL));
    InConcat(h + v + PrefixConds(r.ipv6Dst, DST_SEL), PrefixConds(r.ipv6Src, SRC_SEL));
  }

  lemma WindowOnly(u: Udf)
    ensures UdfsIn([Window(u)]) == {u} && CmpsIn([Window(u)]) == {}
  {}

  /** The UDF condition of a punt rule adds no field comparator. */
  lemma PuntAdded(p: seq<Cmp>, q: seq<Cmp>, port: u8, vlan: Half, a: PuntArgs, ok: bool)
    requires Added(p, q, HeadConds(port, vlan, a.eth, a.proto, a.lane, a.l4Port), ok)
    ensures Added(p, q, PuntConds(port, vlan, a), ok)
    ensures UdfsIn(PuntConds(port, vlan, a)) == if a.udfVal != ZERO_WORD then {UdfCond(a.udfOff, a.udfVal).u} else {}
  {
    var h, w := HeadConds(port, vlan, a.eth, a.proto, a.lane, a.l4Port),
      OnlyIf(a.udfVal != ZERO_WORD, UdfCond(a.udfOff, a.udfVal));
    InConcat(h, w);
    HeadUdfs(port, vlan, a.eth, a.proto, a.lane, a.l4Port);
    WindowOnly(UdfCond(a.udfOff, a.udfVal).u);
    assert CmpsIn(w) == {};
    assert Elems(p) + CmpsIn(h + w) == Elems(p) + CmpsIn(h);
  }
}
