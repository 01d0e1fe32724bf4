/**
 Address modifiers of a flow as the configuration parser reads them (config.c): an IPv6 mask is
 kept in full and, in its low 32 bits, in the slot it shares with IPv4.
 */
module ModifierParse {
  import opened Basics
  import opened Config
  import opened Classifier
  import opened HashKeys

  /** A mask as text: with a colon it is read as an IPv6 literal, otherwise as a number. */
  datatype MaskText = Colons(literal: Option<Addr6>) | Number(value: Option<u64>)

  /** The node of one modifier. */
  datatype ModNode = ModNode(mode: Option<string>, mask: Option<MaskText>)

  const NO_MOD := FieldMod(0, [0, 0, 0, 0, 0, 0, 0, 0])

  function ParseMode(text: Option<string>, was: u8): Option<u8> {
    match text
    case None => Some(was)
    case Some(s) => if s == "static" then Some(0) else if s == "increment" then Some(1)
                    else if s == "random" then Some(2) else None
  }

  /** A number of at most 32 bits stands for the low word of the mask. */
  function ParseMask(text: Option<MaskText>): Option<Addr6> {
    match text
    case None => Some(ZERO_ADDR)
    case Some(Colons(a)) => a
    case Some(Number(v)) =>
      if v.None? || v.value > 0xFFFF_FFFF then None
      else Some([0, 0, 0, 0, 0, 0, 0, 0, 0, 0, 0, 0] + Word32(v.value))
  }

  /** parse_ipv6_field_mod: the modifier slot and the 128-bit mask. */
  function ParseIpv6FieldMod(node: Option<ModNode>, fm: FieldMod): Option<(FieldMod, Addr6)> {
    match node
    case None => Some((fm, ZERO_ADDR))
    case Some(n) =>
      var mode, mask := ParseMode(n.mode, fm.mode), ParseMask(n.mask);
      if mode.None? || mask.None? then None
      else Some((FieldMod(mode.value, [0, 0, 0, 0] + mask.value[12..16]), mask.value))
  }

  /** The low 32 bits of the full mask are those in the shared slot, whichever form the mask had. */
  lemma LowWordShared(node: Option<ModNode>, r: (FieldMod, Addr6))
    requires ParseIpv6FieldMod(node, NO_MOD) == Some(r)
    ensures AddrWord(r.1, 3) == Low32(r.0.mask)
  {
    var m := r.0.mask;
    assert node.None? ==> AddrWord(ZERO_ADDR, 3) == m[4..8];
    assert node.Some? ==> m[4..8] == r.1[12..16];
  }

  /** A flow read up to its address modifiers, these still being nodes. */
  datatype FlowText = FlowText(flow: Flow, src: Option<ModNode>, dst: Option<ModNode>)

  /** The address modifiers of an IPv6 flow, read into a zeroed record. */
  function ParseFlow(t: FlowText): Option<Flow> {
    if t.flow.ip6.None? then Some(t.flow)
    else
      var s, d := ParseIpv6FieldMod(t.src, NO_MOD), ParseIpv6FieldMod(t.dst, NO_MOD);
      if s.None? || d.None? then None
      else Some(t.flow.(mods := t.flow.mods.(srcIp := s.value.0, srcIp6Mask := s.value.1,
                                             dstIp := d.value.0, dstIp6Mask := d.value.1)))
  }

  predicate LowMaskShared(f: Flow) {
    f.ip6.Some? ==> && AddrWord(f.mods.dstIp6Mask, 3) == Low32(f.mods.dstIp.mask)
                    && AddrWord(f.mods.srcIp6Mask, 3) == Low32(f.mods.srcIp.mask)
  }

  predicate MasksShared(flows: seq<Flow>) { forall i | 0 <= i < |flows| :: LowMaskShared(flows[i]) }

  function ParseFlows(ts: seq<FlowText>): Option<seq<Flow>> {
    if ts == [] then Some([])
    else
      var before, f := ParseFlows(ts[..|ts| - 1]), ParseFlow(ts[|ts| - 1]);
      if before.None? || f.None? then None else Some(before.value + [f.value])
  }

  /** Flow by flow. */
  predicate FlowsParse(ts: seq<FlowText>, fs: seq<Flow>) {
    |ts| == |fs| && forall i | 0 <= i < |ts| :: ParseFlow(ts[i]) == Some(fs[i])
  }

  /** The flows come out exactly as each of them parses, in order, and not at all if one does not. */
  lemma {:induction false} ParseFlowsIs(ts: seq<FlowText>, fs: seq<Flow>)
    ensures ParseFlows(ts) == Some(fs) <==> FlowsParse(ts, fs)
  {
    if ts != [] {
      var n := |ts| - 1;
      if ParseFlows(ts) == Some(fs) {
        var before := ParseFlows(ts[..n]).value;
        ParseFlowsIs(ts[..n], before);
        forall i | 0 <= i < |ts| ensures ParseFlow(ts[i]) == Some(fs[i]) {
          if i < n { assert ts[..n][i] == ts[i] && before[i] == fs[i]; }
        }
      }
      if FlowsParse(ts, fs) {
        ParseFlowsIs(ts[..n], fs[..n]);
        assert fs == fs[..n] + [fs[n]];
      }
    }
  }

  /** An IPv6 flow keeps every field but its address modifiers, and gets each from its own node. */
  lemma ParsedFields(t: FlowText, f: Flow)
    requires ParseFlow(t) == Some(f)
    ensures t.flow.ip6.None? ==> f == t.flow
    ensures f == t.flow.(mods := t.flow.mods.(srcIp := f.mods.srcIp, dstIp := f.mods.dstIp,
                                              srcIp6Mask := f.mods.srcIp6Mask, dstIp6Mask := f.mods.dstIp6Mask))
    ensures t.flow.ip6.Some? ==> FromNode(t.src, f.mods.srcIp, f.mods.srcIp6Mask)
    ensures t.flow.ip6.Some? ==> FromNode(t.dst, f.mods.dstIp, f.mods.dstIp6Mask)
  {}

  /** What the texts of a modifier node mean. */
  predicate FromNode(node: Option<ModNode>, fm: FieldMod, mask: Addr6) {
    match node
    case None => fm.mode == 0 && mask == ZERO_ADDR
    case Some(n) =>
      && (n.mode == None ==> fm.mode == 0) && (n.mode == Some("static") ==> fm.mode == 0)
      && (n.mode == Some("increment") ==> fm.mode == 1) && (n.mode == Some("random") ==> fm.mode == 2)
      && (n.mode.Some? ==> n.mode.value == "static" || n.mode.value == "increment" || n.mode.value == "random")
      && (n.mask == None ==> mask == ZERO_ADDR)
      && (n.mask.Some? && n.mask.value.Colons? ==> n.mask.value.literal == Some(mask))
      && (n.mask.Some? && n.mask.value.Number? ==>
            n.mask.value.value.Some? && mask[..12] == ZERO_ADDR[..12] && Num32(mask[12..]) == n.mask.value.value.value)
  }

  lemma ParsedShares(t: FlowText)
    requires ParseFlow(t).Some?
    ensures LowMaskShared(ParseFlow(t).value)
  {
    if t.flow.ip6.Some? {
      LowWordShared(t.src, ParseIpv6FieldMod(t.src, NO_MOD).value);
      LowWordShared(t.dst, ParseIpv6FieldMod(t.dst, NO_MOD).value);
    }
  }

  /** Every flow that comes out of the parser has its masks in both places. */
  lemma {:induction false} AllParsedShare(ts: seq<FlowText>)
    requires ParseFlows(ts).Some?
    ensures MasksShared(ParseFlows(ts).value) && |ParseFlows(ts).value| == |ts|
  {
    if ts != [] {
      AllParsedShare(ts[..|ts| - 1]);
      ParsedShares(ts[|ts| - 1]);
    }
  }
}
