/** The flow-table rows a flow compiles to, and the token-bucket numbers they carry. */
module FlowRows {
  import opened Basics
  import opened Config
  import opened Classifier
  import opened CardBuilder

  const CLOCK_HZ := 156_250_000
  /** Bits per second that one Q16.16 byte-per-tick unit stands for, times 65536. */
  const RATE_DEN := CLOCK_HZ * 8

  function IpHeaderLen(v6: bool): nat { if v6 then 40 else 20 }

  function OuterHeaderLen(o: Outer): nat { IpHeaderLen(o.Outer6?) }

  /** Bytes of tunnel header after the outer IP header; EtherIP includes the inner Ethernet header. */
  function TunnelLen(k: EncapKind): nat {
    match k
    case Ipip => 0
    case Gre => 4
    case EtherIp => 16
  }

  /** pw_flow_min_legal_frame: the frame length the generator clamps up to. */
  function MinLegalFrame(f: Flow): nat {
    var l := 14 + (if f.l2.vlanSet then 4 else 0);
    match f.traffic.template
    case L2Raw => l
    case L3Raw => l + IpHeaderLen(f.ip6.Some?)
    case _ =>
      l + (if f.encap.Some? then OuterHeaderLen(f.encap.value.outer) + TunnelLen(f.encap.value.kind) else 0)
      + IpHeaderLen(f.ip6.Some?) + (if f.l4.proto == 6 then 20 else 8)
      + (if f.traffic.template.Test? then 32 else 0)
  }

  /** Bytes one frame is metered as when the rate is given in packets per second. */
  function MeteredLen(f: Flow): nat {
    Max(if f.traffic.fixedSet then f.traffic.fixedLen else f.traffic.lenMin, MinLegalFrame(f))
  }

  /** The rate the configuration asks for, in bits per second, with no machine limit. */
  function WantedBps(f: Flow): nat {
    if f.traffic.rateBps == 0 && f.traffic.ratePps != 0 then f.traffic.ratePps * MeteredLen(f) * 8
    else f.traffic.rateBps
  }

  /** tokens_per_tick_fp: Q16.16 bytes per data-plane clock, saturating at both intermediate widths. */
  function TokensPerTick(f: Flow): u32 {
    var eff := Min(WantedBps(f), 0xFFFF_FFFF_FFFF_FFFF);
    Min(eff * 65536 / RATE_DEN, 0xFFFF_FFFF)
  }

  /** The largest frame the row can emit, after the generator's clamp. */
  function LargestFrame(f: Flow): nat {
    var top := if f.traffic.fixedSet then f.traffic.fixedLen else f.traffic.lenMax;
    Max(if top != 0 then top else 1518, MinLegalFrame(f))
  }

  /** burst_bytes: the token bucket's cap in bytes, 16 bits wide. */
  function BurstBytes(f: Flow): u16 {
    var flen := LargestFrame(f);
    var bsz := if f.traffic.burstSize != 0 then f.traffic.burstSize else 1;
    BurstNonNegative(bsz, flen);
    Min(Max(bsz * flen, flen), 0xFFFF)
  }

  lemma BurstNonNegative(bsz: nat, flen: nat)
    ensures bsz * flen >= 0
  {}

  function TxRow(f: Flow, egress: u8, localId: u32, sameCard: bool): Row {
    Row(true, true, sameCard && !f.background, egress, f.id, localId, f.logicalIfId,
        if f.traffic.fixedSet then f.traffic.fixedLen else f.traffic.lenMin,
        if f.traffic.fixedSet then f.traffic.fixedLen else f.traffic.lenMax,
        if f.traffic.fixedSet || f.traffic.lenStep == 0 then 1 else f.traffic.lenStep,
        TokensPerTick(f), BurstBytes(f), Some(f))
  }

  /** The row the receiving card of a cross-card flow gets: checked there, never generated there. */
  function RxRow(f: Flow, egress: u8, localId: u32): Row {
    TxRow(f, egress, localId, false).(txEnable := false, rxCheck := true)
  }

  /** The token rate is the wanted rate rounded down by less than one unit, or it is saturated. */
  lemma RateExact(f: Flow)
    ensures TokensPerTick(f) < 0xFFFF_FFFF ==>
              TokensPerTick(f) * RATE_DEN <= WantedBps(f) * 65536 < (TokensPerTick(f) + 1) * RATE_DEN
    ensures TokensPerTick(f) == 0xFFFF_FFFF <==> 0xFFFF_FFFF * RATE_DEN <= WantedBps(f) * 65536
  {
    var w := WantedBps(f);
    if w <= 0xFFFF_FFFF_FFFF_FFFF {
      var q := w * 65536 / RATE_DEN;
      assert q * RATE_DEN <= w * 65536 < (q + 1) * RATE_DEN;
    }
  }

  /** A flow gets no tokens at all exactly when it asks for less than 19074 bit/s. */
  lemma NoTokensBelow19074(f: Flow)
    ensures TokensPerTick(f) == 0 <==> WantedBps(f) < 19074
  {
    RateExact(f);
  }

  /** The bucket's content after n ticks without a send: it fills by t per tick up to its cap. */
  function BucketAfter(t: nat, cap: nat, n: nat): nat {
    if n == 0 then 0 else Min(BucketAfter(t, cap, n - 1) + t, cap)
  }

  lemma {:induction false} BucketGrows(t: nat, cap: nat, n: nat)
    requires t >= 1
    ensures BucketAfter(t, cap, n) >= Min(n, cap)
  {
    if n > 0 { BucketGrows(t, cap, n - 1); }
  }

  lemma BurstCoversLargest(f: Flow)
    ensures BurstBytes(f) >= LargestFrame(f)
  {
    assert MinLegalFrame(f) <= 0xFFFF;
  }

  /** So a flow with any tokens reaches the cost of its largest frame in finitely many ticks: it never starves. */
  lemma BucketReachesCost(f: Flow)
    requires TokensPerTick(f) >= 1
    ensures exists n: nat :: BucketAfter(TokensPerTick(f), BurstBytes(f) * 65536, n) >= LargestFrame(f) * 65536
  {
    BurstCoversLargest(f);
    var n := LargestFrame(f) * 65536;
    BucketGrows(TokensPerTick(f), BurstBytes(f) * 65536, n);
    assert BucketAfter(TokensPerTick(f), BurstBytes(f) * 65536, n) >= LargestFrame(f) * 65536;
  }

  // ---- what a row makes the generator do ---------------------------------------------------------------

  /** The length of frame k of a row, before the clamp: the generator steps through the sweep and starts over. */
  function SweptLen(r: Row, k: nat): nat {
    if k == 0 then r.lenMin
    else
      var next := SweptLen(r, k - 1) + r.lenStep;
      if next > r.lenMax then r.lenMin else next
  }

  /** Where in its turn of p frame k stands. */
  function Turn(k: nat, p: nat): (j: nat)
    requires p > 0
    ensures j < p
  {
    k % p
  }

  /** The number of lengths in a sweep. */
  function Period(lo: nat, hi: nat, step: nat): (p: nat)
    requires step >= 1 && lo <= hi
    ensures p >= 1
  {
    (hi - lo) / step + 1
  }

  lemma {:induction false} SweepAt(r: Row, k: nat, p: nat)
    requires r.lenStep >= 1 && r.lenMin <= r.lenMax && p == Period(r.lenMin, r.lenMax, r.lenStep)
    ensures SweptLen(r, k) == r.lenMin + Turn(k, p) * r.lenStep
  {
    if k == 0 {
      assert Turn(0, p) == 0;
    } else {
      SweepAt(r, k - 1, p);
      NextInTurn(k - 1, p);
      OneStep(r.lenMin, r.lenMax, r.lenStep, p, Turn(k - 1, p));
    }
  }

  lemma OneStep(lo: nat, hi: nat, step: nat, p: nat, j: nat)
    requires step >= 1 && lo <= hi && j < p == Period(lo, hi, step)
    ensures var l := lo + j * step + step;
            (if l > hi then lo else l) == lo + (if j + 1 < p then j + 1 else 0) * step
  {
    InSweep(hi - lo, step, j);
    assert (j + 1) * step == j * step + step;
  }

  lemma NextInTurn(k: nat, p: nat)
    requires p > 0
    ensures Turn(k + 1, p) == if Turn(k, p) + 1 < p then Turn(k, p) + 1 else 0
  {
    var q, j := k / p, k % p;
    if j + 1 < p {
      QuotientIs(k + 1, p, q, j + 1);
    } else {
      QuotientIs(k + 1, p, q + 1, 0);
    }
  }

  /** Step j of the sweep is the last one exactly if the next would pass the end. */
  lemma InSweep(span: nat, step: nat, j: nat)
    requires step >= 1 && j <= span / step
    ensures (j + 1) * step <= span <==> j + 1 <= span / step
  {
    var q, x := span / step, span % step;
    assert span == q * step + x;
    if j + 1 <= q {
      assert (q - (j + 1)) * step >= 0;
    }
  }

  /** Frame k of the flow has its fixed length, or the length its sweep has reached. */
  predicate LengthIs(f: Flow, k: nat, len: nat) {
    var t := f.traffic;
    var step := if t.lenStep == 0 then 1 else t.lenStep;
    if t.fixedSet then len == t.fixedLen
    else if t.lenMax < t.lenMin then len == t.lenMin
    else len == t.lenMin + Turn(k, Period(t.lenMin, t.lenMax, step)) * step
  }

  /** One more unit per tick would exceed the rate asked for, unless the rate is out of range. */
  predicate RateIs(f: Flow, tokens: nat) {
    var bps := if f.traffic.rateBps != 0 || f.traffic.ratePps == 0 then f.traffic.rateBps
               else f.traffic.ratePps * MeteredLen(f) * 8;
    if tokens < 0xFFFF_FFFF then tokens * RATE_DEN <= bps * 65536 < (tokens + 1) * RATE_DEN
    else tokens == 0xFFFF_FFFF && 0xFFFF_FFFF * RATE_DEN <= bps * 65536
  }

  /** Room for so many frames of the largest kind, or the most the column holds. */
  predicate BurstIs(f: Flow, burst: nat) {
    var largest := LargestFrame(f);
    || burst == 0xFFFF <= Max(f.traffic.burstSize, 1) * largest
    || burst == Max(f.traffic.burstSize, 1) * largest < 0xFFFF
  }

  /** The row makes this port send this flow's frames, at its lengths and its rate. */
  ghost predicate Generates(r: Row, f: Flow, port: u8, slot: u32) {
    && r.enable && r.egress == port && r.flowId == f.id && r.localId == slot && r.logicalIfId == f.logicalIfId
    && r.flow == Some(f)
    && (forall k: nat :: LengthIs(f, k, SweptLen(r, k)))
    && RateIs(f, r.tokensPerTick) && BurstIs(f, r.burstBytes)
  }

  lemma {:induction false} OneLength(r: Row, k: nat)
    requires r.lenStep >= 1 && r.lenMax <= r.lenMin
    ensures SweptLen(r, k) == r.lenMin
  {
    if k > 0 { OneLength(r, k - 1); }
  }

  lemma RowLengths(f: Flow, egress: u8, localId: u32, same: bool, k: nat)
    ensures LengthIs(f, k, SweptLen(TxRow(f, egress, localId, same), k))
  {
    var r := TxRow(f, egress, localId, same);
    if f.traffic.fixedSet || r.lenMax < r.lenMin {
      OneLength(r, k);
    } else {
      SweepAt(r, k, Period(r.lenMin, r.lenMax, r.lenStep));
    }
  }

  lemma RowBurst(f: Flow)
    ensures BurstIs(f, BurstBytes(f))
  {
    var b, l := if f.traffic.burstSize != 0 then f.traffic.burstSize else 1, LargestFrame(f);
    assert b >= 1 && l >= 0;
    AtLeastOne(b, l);
  }

  lemma AtLeastOne(b: nat, l: nat)
    requires b >= 1
    ensures b * l >= l
  {}

  /** A flow's row makes its port send the flow's frames as configured, and checks those that return to the card. */
  lemma RowGenerates(f: Flow, egress: u8, localId: u32, same: bool)
    ensures var r := TxRow(f, egress, localId, same);
            Generates(r, f, egress, localId) && r.txEnable && r.rxCheck == (same && !f.background)
  {
    forall k: nat ensures LengthIs(f, k, SweptLen(TxRow(f, egress, localId, same), k)) {
      RowLengths(f, egress, localId, same, k);
    }
    RateExact(f);
    RowBurst(f);
  }

  /** A validated sweep: not empty, and given in order. */
  predicate InOrder(f: Flow) {
    if f.traffic.fixedSet then f.traffic.fixedLen != 0
    else f.traffic.lenMin <= f.traffic.lenMax && f.traffic.lenMax != 0
  }

  /**
   Every frame, clamped up to its headers, is at least what the rate meters and at most what the
   bucket is made for; the first frame is the smallest, and the sweep's end, if a step falls on
   it, the largest.
   */
  lemma FramesBetween(f: Flow, k: nat, len: nat)
    requires LengthIs(f, k, len) && InOrder(f)
    ensures MeteredLen(f) <= Max(len, MinLegalFrame(f)) <= LargestFrame(f)
    ensures k == 0 ==> Max(len, MinLegalFrame(f)) == MeteredLen(f)
    ensures f.traffic.fixedSet || len == f.traffic.lenMax ==> Max(len, MinLegalFrame(f)) == LargestFrame(f)
  {
    LengthWithin(f, k, len);
    Clamped(f, len);
  }

  function Least(f: Flow): nat { if f.traffic.fixedSet then f.traffic.fixedLen else f.traffic.lenMin }
  function Most(f: Flow): nat { if f.traffic.fixedSet then f.traffic.fixedLen else f.traffic.lenMax }

  lemma Clamped(f: Flow, len: nat)
    requires Least(f) <= len <= Most(f) && Most(f) != 0
    ensures MeteredLen(f) <= Max(len, MinLegalFrame(f)) <= LargestFrame(f)
    ensures len == Least(f) ==> Max(len, MinLegalFrame(f)) == MeteredLen(f)
    ensures len == Most(f) ==> Max(len, MinLegalFrame(f)) == LargestFrame(f)
  {}

  lemma LengthWithin(f: Flow, k: nat, len: nat)
    requires LengthIs(f, k, len) && InOrder(f)
    ensures Least(f) <= len <= Most(f) && (k == 0 ==> len == Least(f))
  {
    var t := f.traffic;
    if !t.fixedSet {
      var step := if t.lenStep == 0 then 1 else t.lenStep;
      SweepLength(t.lenMin, t.lenMax, step, k, Period(t.lenMin, t.lenMax, step));
    }
  }

  lemma SweepLength(lo: nat, hi: nat, step: nat, k: nat, p: nat)
    requires step >= 1 && lo <= hi && p == Period(lo, hi, step)
    ensures lo <= lo + Turn(k, p) * step <= hi && (k == 0 ==> Turn(k, p) * step == 0)
  {
    SweepWithin(lo, hi, step, Turn(k, p));
  }

  lemma SweepWithin(lo: nat, hi: nat, step: nat, j: nat)
    requires step >= 1 && lo <= hi && j < Period(lo, hi, step)
    ensures lo <= lo + j * step <= hi
  {
    var q := (hi - lo) / step;
    assert hi - lo == q * step + (hi - lo) % step;
    assert (q - j) * step >= 0;
  }
}
