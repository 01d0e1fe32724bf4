# PacketWyrm, modelled and proved in Dafny

PacketWyrm is an FPGA traffic tester. Its host library compiles a test configuration into
per-card tables, writes them through a card backend, and drives a few small hardware
protocols from software. This project models that logic and proves what it is for.

The modules follow the system:

* `Basics`, `Bits`, `Config`, `ModifierParse`, `Validate`, `Prefixes`: scalars and bitwise arithmetic, the
  in-memory configuration, its IPv6 modifiers and prefixes as parsed, its validation.
* `Classifier`, `Parser`, `Registers`: what the data plane does with a frame, taken from the RTL:
  the receive parser, the comparator bank with its prioritised rules, the hash table, the flow-id
  map, the stage that combines the three, and the register file they are written through.
* `RuleSources`, `Pools`, `CardBuilder`, `HashKeys`, `FlowRows`, `FlowSlots`, `Capacity`,
  `FlowCompiler`, `KeyMask`: the compiler, exactly when it succeeds, and which header bits it has
  the hash table compare.
* `Device`, `TableWrites`, `CardMeaning`, `EndToEnd`, `RuleMeaning`, `Service`: table programming
  and what a programmed card then does, in the configuration's own terms.
* `RunState`, `Daemon`: starting, stopping and reloading, with failing cards.
* `Modifiers`, `Checksum`, `Frames`, `FieldBits`, `FrameHeaders`, `UdpChecksum`, `FrameBuilder`,
  `FrameKeys`, `FlowMatching`: generated frames bit by bit, and which of them are counted in their
  own flow's slot.
* `NorFlash`, `SpiFlash`; `DmaRing`; `GpioSync`, `LatencyServo`; `VfioRegistry`; `I2cSlave`,
  `SfpI2c`: the device protocols, each over an explicit model of the device.

Conventions. Bytes and words that are only copied, masked and compared are byte strings in
network order; lengths, indices and counters are integers with their C width. A failing
operation is modelled by a nondeterministic choice or by an explicit script of outcomes, and a
failed register or row write may have left anything in what it addressed. Register windows are
decoded as the RTL does: the leading words of a comparator, rule or bucket are staged in shared
accumulators, and the last word commits the entry.

What the proofs showed about the code:

* A rule slot is committed by its third word (rtl/phase3/pw_csr_full.sv:519-543), but a slot that
  is to be disabled gets only its first (sw/libpacketwyrm/src/programming.c:160-164). So rules
  outlive their configuration. After programming, the rule table is the program's if and only if
  no slot beyond it was enabled before (`CardMeaning.ExactAfter`), that is, if the program before
  had no more rules (`CardMeaning.ExactReload`); `CardMeaning.StillPunts` is a card that goes on
  punting ARP when nothing is configured. A load that is rolled back leaves the surplus rules of
  the rejected configuration enabled as well (`Daemon.Daemon.ExactWhen`). Comparators, hash table,
  flow-id map and rows do not have this problem.
* The data plane lets a flow-id hit override a hash hit, and either of them override the rules
  (rtl/phase3/pw_data_plane_axis.sv:462-486). `EndToEnd.CardAppliesChosenRule` says exactly which
  frames get their rule. As the hash key has neither port nor MAC, a card that receives an untagged
  raw Ethernet flow swallows every untagged frame of that ethertype (`FlowMatching.RawFlowSwallows`):
  with one of ethertype 0x0806 no untagged ARP frame is punted any more (`FlowMatching.ArpPuntSwallowed`).
* A header-classified flow with the `ip` template is never recognised (the compiler stores
  protocol 6 or 17, the builder emits 0xFD), unless protocol 0xFD was asked for. Nor is a tunnelled
  flow whose outer and inner IP versions differ, since the parser keys on the outer ethertype and
  the compiler on the inner one, nor an untagged raw Ethernet flow of ethertype 0x8100 with 18
  bytes or more. `FlowMatching.FrameMatches` gives the exact condition; all other flows keep their
  key for every sequence number and length. The preview of a raw frame configured shorter than
  its headers is cut off, while the generator sends the headers (`Frames.PreviewOfEmitted`).
* The completed-frame comparison of the DMA ring is not wrap-safe: `DmaRing.StallsAcrossWrap` says
  exactly when it denies a waiting frame, and once 2^32 - 1 frames are consumed it denies all
  (`DmaRing.StallsForGood`). A frame whose length the host takes to be 0 is consumed and returns
  0, which the caller reads as "no frame" and stops draining
  (sw/libpacketwyrm/src/host_plane.c:65); without a length in the punt header that is every LLDP
  frame (`DmaRing.UnknownTypeIsEmpty`). It is neither delivered nor counted as overrun, although
  the comment on `punt_frame_len` speaks of a fall-back to a cap.
* A UDP checksum that comes out as 0 is written as 0, which RFC 768 reserves for "none":
  `UdpChecksum.ZeroExactly` says exactly when, and `UdpChecksum.EveryFlowHasOne` that it happens to
  exactly one of the first 65535 frames built for every UDP test flow with fixed ports and addresses.
* `pw_gpio_sync_offset_coherent` does not look at the status of its timestamp reads. What it
  accepts is one edge's offset if and only if the failed reads take equal parts from both cards'
  timestamps (`GpioSync.OffsetSurvives`); `GpioSync.WrongOffset` is an accepted offset of 0 in place
  of 2^32.
* Opening a VFIO handle that is already open loses its device and its share in the group for good
  (`VfioRegistry.LeakedGroups`).
* `pw_sfp_write` of zero bytes reports OK even if its two register writes failed.

## Model

| member | source | states |
|---|---|---|
| `Config.ResolvePort` | sw/libpacketwyrm/src/config.c:67-83 | a global port number resolves to the first declared port with that number, and fails exactly when it is declared nowhere |
| `Prefixes.BuildPrefixMask` | sw/libpacketwyrm/src/config.c:289-295 | the loop computes the mask whose byte i has its covered high bits set, for every prefix length |
| `Prefixes.PrefixMeansBits` | sw/libpacketwyrm/src/config.c:289-310 | matching an address under a /L mask is agreeing in its first L bits, for every L up to 128 |
| `Validate.CheckPorts` | sw/libpacketwyrm/src/validate.c:37-62 | OK exactly when no global port number occurs twice, within or across cards, and no local one twice on a card |
| `Validate.CheckConfig` | sw/libpacketwyrm/src/validate.c:17-232 | OK exactly when the configuration satisfies every rule the compiler relies on |
| `Validate.ResolveUnique` | sw/libpacketwyrm/src/validate.c:37-50 | in a valid configuration a global port number names one port only |
| `ModifierParse.LowWordShared` | sw/libpacketwyrm/src/config.c:341-374 | whichever form an IPv6 modifier mask is written in, its low 32 bits are also in the slot shared with IPv4 |
| `ModifierParse.AllParsedShare` | sw/libpacketwyrm/src/config.c:668-682 | so they are for every flow that comes out of the parser |
| `ModifierParse.ParseFlowsIs` | sw/libpacketwyrm/src/config.c:667-690 | parsing the flows succeeds with a list exactly if each one is the parse of its node |
| `ModifierParse.ParsedFields` | sw/libpacketwyrm/src/config.c:341-374 | an IPv6 flow keeps every field but its address modifiers, and gets each of those from its own node, mode and mask as written |
| `RuleSources.SourceMeans` | sw/libpacketwyrm/src/flow_compiler.c:532-686 | for every frame key, the comparators emitted for a punt or forward rule all hold exactly when the rule asks for the frame |
| `RuleSources.PrefixMeans` | sw/libpacketwyrm/src/flow_compiler.c:79-98 | up to four 32-bit comparators, none for a zero mask word, are together the 128-bit prefix match |
| `RuleSources.PuntMeans` | sw/libpacketwyrm/src/flow_compiler.c:532-616 | the arguments of each PUNT line select exactly ARP, ND, LLDP, ICMP, BGP, OSPF or IS-IS frames on that port and VLAN |
| `RuleSources.ForwardMeans` | sw/libpacketwyrm/src/flow_compiler.c:620-686 | a forward rule, with 0 meaning any, selects exactly the frames its fields describe |
| `RuleMeaning.PuntFlagsMean` | sw/libpacketwyrm/src/flow_compiler.c:532-616 | for every valid configuration, card, interface and frame: a punt rule of that interface on that card matches if and only if the interface lives there, port and VLAN match, and one of its flags, written with its ethertype, protocol and port numbers, asks for the frame |
| `RuleMeaning.ForwardRules` | sw/libpacketwyrm/src/flow_compiler.c:620-686 | the forward part of a card's rules is exactly the configured forward rules whose ingress port is on the card, in their order |
| `CardBuilder.MeansStable` | sw/libpacketwyrm/src/flow_compiler.c:59-77 | comparators appended later never change what an earlier care mask means |
| `CardBuilder.MeansAnd` | sw/libpacketwyrm/src/flow_compiler.c:540-566 | setting one more care bit adds exactly that comparator as a condition |
| `CardBuilder.Builder.AppendFcCmp` | sw/libpacketwyrm/src/flow_compiler.c:59-77 | returns the index of this comparator, storing it only if it is new; refuses exactly a new one in a full pool |
| `CardBuilder.Builder.AppendFcUdf` | sw/libpacketwyrm/src/flow_compiler.c:100-112 | the same for the two UDF comparators, whose care bits follow the field comparators |
| `CardBuilder.Builder.AppendIpv6Cmps` | sw/libpacketwyrm/src/flow_compiler.c:79-98 | the care mask then means the earlier conditions and the prefix |
| `CardBuilder.Builder.AddPuntRule` | sw/libpacketwyrm/src/flow_compiler.c:532-570 | succeeds exactly when the classifier has room for the rule and for its comparators, each counted once; then one more rule means this punt, all earlier ones what they did |
| `CardBuilder.Builder.AddForwardRule` | sw/libpacketwyrm/src/flow_compiler.c:640-682 | the same for a forward rule with its prefixes |
| `CardBuilder.RuleHitsItsSource` | sw/libpacketwyrm/src/flow_compiler.c:532-686 | compiled rule i hits a frame exactly when the punt or forward rule it came from matches |
| `Pools.PooledSuffices` | sw/libpacketwyrm/src/flow_compiler.c:59-112 | a pool that holds what the rules need, without duplicates and within its size, shows that they fit |
| `Pools.NoRoom` | sw/libpacketwyrm/src/flow_compiler.c:59-112 | a comparator that finds no place shows that the rules do not fit |
| `Pools.SufficeShrinks` | sw/libpacketwyrm/src/flow_compiler.c:532-686 | rules that fit still fit when the later ones are left out |
| `HashKeys.RelaxAvoids` | sw/libpacketwyrm/src/flow_compiler.c:200-241 | the relaxed mask keeps clear of every bit the flow's modifiers vary |
| `HashKeys.RelaxKeepsAvoiding` | sw/libpacketwyrm/src/flow_compiler.c:200-241 | relaxing the mask for one more flow breaks no earlier flow |
| `KeyMask.RelaxBit` | sw/libpacketwyrm/src/flow_compiler.c:200-241 | for every bit of every key word: one flow clears exactly those its modifiers vary or its match masks leave out |
| `KeyMask.MaskBit` | sw/libpacketwyrm/src/flow_compiler.c:755-768 | the card's mask compares a bit exactly if every header-classified flow received there keeps it |
| `HashKeys.BucketIndex` | sw/libpacketwyrm/src/flow_compiler.c:165-172 | the host's fold and multiply-shift names the bucket the hardware probes |
| `HashKeys.TrySeed` | sw/libpacketwyrm/src/flow_compiler.c:800-809 | an attempt fails exactly when two keys hash to one bucket; otherwise every index is the key's hash |
| `HashKeys.PlaceKeys` | sw/libpacketwyrm/src/flow_compiler.c:795-811 | OK exactly when one of the 4096 seeds places all keys in distinct buckets, and then with such a seed |
| `HashKeys.ProbeIsSearch` | sw/libpacketwyrm/src/flow_compiler.c:166-172 | for every frame key, one probe returns what a search of all entries returns, and at most one entry can match |
| `FlowCompiler.Compiler.PlaceHash` | sw/libpacketwyrm/src/flow_compiler.c:751-811 | keys are masked and placed; OK exactly when one of the 4096 seeds separates them, Inval exactly when two masked keys are equal, NoResources otherwise |
| `FlowCompiler.MaskAvoids` | sw/libpacketwyrm/src/flow_compiler.c:758-767 | the finished card mask avoids the modifier bits of every header-classified flow received there |
| `FlowSlots.SlotsStep` | sw/libpacketwyrm/src/flow_compiler.c:275-530 | compiling one more flow leaves every earlier flow where it was and gives the new one slots of its own |
| `FlowSlots.RxSlotsDisjoint` | sw/libpacketwyrm/src/flow_compiler.c:461-520 | no two measured flows share a (receive card, receive slot) |
| `FlowSlots.BackgroundOwnsNoRxSlot` | sw/libpacketwyrm/src/flow_compiler.c:457-480 | no row anywhere checks the frames of a background flow |
| `FlowSlots.OneGeneratorRow` | sw/libpacketwyrm/src/flow_compiler.c:461-520 | a row that transmits is the generator row of exactly the flow whose record names it |
| `FlowSlots.PlacedGenerates` | sw/libpacketwyrm/src/flow_compiler.c:340-520 | a flow's generator row stands on the card of its transmit port and makes that port send the flow; a flow received on another card has a row there that only checks |
| `FlowSlots.MapSendsHome` | sw/libpacketwyrm/src/flow_compiler.c:46-57 | every flow-id map entry is of a measured test flow, on its receive card, and names its own slot |
| `Capacity.UnfitFlow` | sw/libpacketwyrm/src/flow_compiler.c:275-300 | a flow that finds no place shows that the configuration needs more rows, keys or map entries than there are |
| `Capacity.CountStep` | sw/libpacketwyrm/src/flow_compiler.c:455-525 | tables hold exactly as many rows, and exactly the keys, that the flows so far need |
| `FlowCompiler.Compiler.CompileOneFlow` | sw/libpacketwyrm/src/flow_compiler.c:275-530 | succeeds exactly when there is room for the flow's rows and its map or hash entry, and then n placed flows become n + 1 |
| `FlowCompiler.Compile` | sw/libpacketwyrm/src/flow_compiler.c:688-812 | OK exactly when the configuration is valid, every card has room for its rows, keys, rules and distinct comparators, flow ids are within the map and a seed places each card's keys; then every flow has its own slots, the rules realise the punt and forward rules in order (what those are: RuleMeaning), and hash keys are masked and placed |
| `FlowRows.RateExact` | sw/libpacketwyrm/src/flow_compiler.c:408-434 | tokens per tick is the exact Q16.16 rate rounded down by less than one unit, or saturated, for every rate |
| `FlowRows.NoTokensBelow19074` | sw/libpacketwyrm/src/flow_compiler.c:408-434 | a flow gets no tokens exactly when it asks for less than 19074 bit/s |
| `FlowRows.BurstCoversLargest` | sw/libpacketwyrm/src/flow_compiler.c:435-453 | the burst covers the largest frame after the clamp |
| `FlowRows.BucketReachesCost` | sw/libpacketwyrm/src/flow_compiler.c:402-453 | a flow with any tokens reaches the cost of its largest frame in finitely many ticks |
| `FlowRows.RowGenerates` | sw/libpacketwyrm/src/flow_compiler.c:388-460 | the columns of a row make the generator step through exactly the configured lengths, at the configured rate rounded down by less than a unit, with room for so many of the largest frames |
| `FlowRows.FramesBetween` | sw/libpacketwyrm/src/flow_compiler.c:413-453 | every frame of a sweep, clamped, is at least what the rate meters and at most what the bucket is made for; both are reached |
| `Classifier.WinnerUnique` | rtl/phase3/pw_field_classifier.sv:206-225 | at most one rule hits and is beaten by none |
| `Classifier.Classify` | rtl/phase3/pw_field_classifier.sv:206-225 | the scan returns that rule, and none exactly when no rule hits |
| `Registers.RuleThrice` | rtl/phase3/pw_csr_full.sv:519-543 | three words commit one rule slot; after two of them every slot is as it was |
| `TableWrites.WriteMaps` | sw/libpacketwyrm/src/programming.c:133-141 | every map word is that of the last configured entry for its id, or zero |
| `TableWrites.WriteRules` | sw/libpacketwyrm/src/programming.c:153-166 | configured rules committed, every other slot left exactly as it was, because its commit word is not written |
| `TableWrites.WriteHash` | sw/libpacketwyrm/src/programming.c:173-186 | every bucket invalidated, then mask, seed and entries; each bucket holds its entry or nothing |
| `TableWrites.WriteRows` | sw/libpacketwyrm/src/programming.c:113-130 | on a complete card: configured rows live, every other row dead, staged equal to live |
| `TableWrites.ProgramTables` | sw/libpacketwyrm/src/programming.c:41-189 | bad counts or too many rows are refused before any write; OK on a complete card means it holds the program, with comparators and rule slots beyond it untouched; a reliable card within capacity always gives OK |
| `CardMeaning.RuleWordRound` | sw/libpacketwyrm/include/packetwyrm/csr.h:187-199 | reading back a packed rule word gives care mask, action, egress and priority |
| `CardMeaning.ProgrammedBehaves` | sw/libpacketwyrm/src/programming.c:113-186 | a programmed card classifies every frame by hash and by flow id, and runs the generators, exactly as the program says, whatever it held before; by rule too if no slot beyond the program is enabled |
| `CardMeaning.StateIndependent` | sw/libpacketwyrm/src/programming.c:8-20 | two cards given one program agree on hash, map and generators for every frame; their rule tables are equal exactly when the slots beyond the program were |
| `CardMeaning.ExactAfter` | sw/libpacketwyrm/src/programming.c:153-166 | after programming, the rule table is the program's if and only if no slot beyond it was enabled before |
| `CardMeaning.ExactReload` | sw/libpacketwyrm/src/programming.c:153-166 | reprogramming an exact card keeps it exact if and only if the new program has no fewer rules |
| `CardMeaning.LevelAfter` | sw/libpacketwyrm/src/programming.c:153-166 | for any leftover contents, programming n rules leaves the last enabled slot where it was or makes it the n-th |
| `CardMeaning.RulePathAfter` | rtl/phase3/pw_field_classifier.sv:150-173 | in general the rule path is that of the program's rules and comparators followed by those left over |
| `CardMeaning.StillPunts` | sw/libpacketwyrm/src/programming.c:160-164 | a card with one ARP punt rule, reprogrammed with nothing, still applies it to every ARP frame from that port |
| `EndToEnd.CompiledFits` | sw/libpacketwyrm/src/programming.c:58-71 | whatever the compiler produces passes the checks of table programming |
| `EndToEnd.CardAppliesChosenRule` | rtl/phase3/pw_data_plane_axis.sv:462-486 | on a card whose registers hold the program and no further slot enabled, for every key: a frame that a flow of the card claims, by test id or by looking like its header, is counted in that flow's slot; exactly otherwise the preferred punt or forward rule that matches is applied, none exactly when none does |
| `EndToEnd.TestFrameReachesSlot` | sw/libpacketwyrm/src/flow_compiler.c:503-523 | whatever generators run, a test frame is mapped to its flow's slot on its receive card and to nothing on any other card |
| `EndToEnd.HashReachesSlot` | sw/libpacketwyrm/src/flow_compiler.c:166-185 | whatever generators run, the hash table names a flow's slot exactly for the frames that look like its header under the card mask |
| `EndToEnd.CardCounts` | rtl/phase3/pw_data_plane_axis.sv:462-486 | for every key, whatever rules are enabled: a frame is counted if and only if a measured flow of the card claims it, in that flow's slot, test headers before header keys |
| `Service.CardServes` | rtl/phase3/pw_data_plane_axis.sv:462-486 | a card whose registers hold the compiled tables counts every frame of every measured flow in its slot as stated and no frame no flow claims; if no slot beyond the program is enabled, which is exactly when its rule table is the program's, all other frames are punted, forwarded or ignored as interface flags and forward rules ask |
| `RuleMeaning.CardDoesAsAsked` | sw/libpacketwyrm/src/flow_compiler.c:532-686 | a programmed card punts an unclaimed frame only to an interface whose flags ask for it, forwards it only by a forward rule that asks for it, to its port, and ignores it exactly if nothing asks |
| `RunState.FindTxRow` | sw/packetwyrmd/src/main.c:561-583 | the nested search finds the first record, card and row |
| `RunState.StageRunState` | sw/packetwyrmd/src/main.c:593-603 | afterwards every flow is reported in the wanted state and nothing else changed |
| `RunState.WithRunReports` | sw/packetwyrmd/src/main.c:613-642 | switching one flow changes what is reported for it and for no other flow |
| `RunState.ActiveIsReported` | sw/packetwyrmd/src/main.c:638-642 | a staged row generates exactly when its flow is reported enabled |
| `RunState.IdleGeneratesNothing` | sw/packetwyrmd/src/main.c:593-603 | a program with no flow reported enabled generates nothing |
| `RunState.CompiledSound` | sw/libpacketwyrm/src/flow_compiler.c:461-520 | every flow of a compiled program has its own enabled generator row, and no other row generates |
| `Device.Card.FlowCommit` | sw/libpacketwyrm/src/backend_fake.c:203-220 | the staged table becomes live on success, anything may be live after a failure |
| `Daemon.Daemon.ProgramBackends` | sw/packetwyrmd/src/main.c:518-551 | OK means every complete open card holds the program; a dependable card holds it whatever the others do, with its enabled rule slots raised to at least the program's; OK if every open card is dependable |
| `Daemon.Daemon.SetFlowEnable` | sw/packetwyrmd/src/main.c:613-634 | an unknown flow, a closed card and a dependable card give Inval, NoCard and OK; the reported state follows only a successful write and commit; cards that held a program hold it with that flow switched |
| `Daemon.Daemon.SwitchFlow` | sw/packetwyrmd/src/main.c:2315-2327 | flow.start and flow.stop change one flow's reported state, and succeed if a dependable card generates it |
| `Daemon.Daemon.TestRun` | sw/packetwyrmd/src/main.c:2248-2267 | with no failure every flow is reported in the wanted state; in any case every flow a dependable card generates, and no flow moves the other way |
| `Daemon.Daemon.Arm` | sw/packetwyrmd/src/main.c:2226-2247 | test.arm leaves every dependable card holding the running program |
| `Daemon.Daemon.Quiesce` | sw/packetwyrmd/src/main.c:808-817 | after quiescing, dependable cards that were in sync transmit nothing, and the daemon still reports what ran |
| `Daemon.Daemon.Load` | sw/packetwyrmd/src/main.c:729-884 | for arbitrary write failures: Rejected, touching nothing, exactly when the flows do not parse, cards are given and differ from the running environment, or the old cards and interfaces with the parsed flows and the body's forwards do not compile; Loaded means the configuration is exactly that and every complete open card holds its program, idle; otherwise nothing changes; RolledBack means each holds the old program, with its exact earlier rows; open cards that never fail give Loaded if they can take the new program, RolledBack if only the old one; which rule slots are then enabled |
| `Daemon.Daemon.ExactWhen` | sw/packetwyrmd/src/main.c:804-840 | an exact rule table stays exact across a load if and only if the new program has no fewer rules, across a failed one if and only if it had no more |
| `Daemon.Daemon.LiveIsReported` | sw/packetwyrmd/src/main.c:561-642 | on a dependable card in sync a row transmits exactly when its flow is reported enabled |
| `Daemon.Daemon.Handle` | sw/packetwyrmd/src/main.c:2217-2327 | what each command does: test.start and test.stop give every flow a dependable card generates the wanted state, flow.start and flow.stop one known flow and no other, the rest none |
| `Daemon.Daemon.Serve` | sw/packetwyrmd/src/main.c:2217-2327 | over every sequence of commands and any mixture of failing cards, the program stays compiled from the configuration; every dependable card transmits exactly what is reported, counts every flow's frames in its slot and no others, and treats unclaimed frames exactly as the configuration asks if and only if no slot beyond its rules is enabled; without a load every flow such a card generates is reported, and transmits, exactly as the last command concerning it asked; nothing transmits before a start command |
| `Daemon.Daemon.constructor` | sw/packetwyrmd/src/main.c:2862-2878 | whatever the cards hold, start-up brings dependable cards in sync with every flow reported as autostart says |
| `SpiFlash.SpiTxn` | sw/libpacketwyrm/src/spi_flash.c:15-46 | a successful transaction shifts exactly the given bytes and returns the chip's answer; a failed one did nothing or exactly that |
| `SpiFlash.WaitIdle` | sw/libpacketwyrm/src/spi_flash.c:59-71 | success means WIP was read clear |
| `SpiFlash.SectorErase` | sw/libpacketwyrm/src/spi_flash.c:74-81 | WREN, erase, wait; on an ideal chip exactly the sector is 0xFF |
| `SpiFlash.ProgramRange` | sw/libpacketwyrm/src/spi_flash.c:113-129 | chunks never wrap in their page, so exactly the range is ANDed with the data |
| `SpiFlash.InsidePage` | sw/libpacketwyrm/src/spi_flash.c:113-116 | a page program that stays inside its page does not wrap |
| `SpiFlash.VerifyRange` | sw/libpacketwyrm/src/spi_flash.c:131-143 | adds the number of differing bytes of the range |
| `SpiFlash.NoDiffs` | sw/libpacketwyrm/src/spi_flash.c:131-143 | no differing byte exactly when the strings are equal |
| `SpiFlash.RewriteSector` | sw/libpacketwyrm/src/spi_flash.c:183-200 | on an ideal chip only the bytes between head and tail are blanked, with no mismatch |
| `SpiFlash.FlashProgram` | sw/libpacketwyrm/src/spi_flash.c:156-208 | on an ideal chip success leaves the range equal to the data, every other byte unchanged and mismatch 0; on any chip success with mismatch 0 means the range equals the data; in every run erase and program follow WREN and are followed by a wait for WIP; on healthy hardware it succeeds for every range inside the flash |
| `DmaRing.LayoutDisjoint` | sw/libpacketwyrm/src/backend_bar.c:318-330 | descriptors, transmit buffer and receive buffers are disjoint, aligned and inside the pool |
| `DmaRing.Ring.Inject` | sw/libpacketwyrm/src/backend_bar.c:347-395 | an accepted frame is stored behind its header, and the one descriptor, byte by byte, sends exactly that from the transmit buffer with stop, completion and end of packet; neither ring nor receive buffers are touched; OK or IO follows completion; Inval exactly when empty or too long |
| `DmaRing.Ring.Arm` | sw/libpacketwyrm/src/backend_bar.c:407-428 | the descriptor bytes form the ring the engine will walk: control word 0xAD4B0002, 16384 bytes, each to its own buffer and on to the next |
| `DmaRing.Ring.Complete` | sw/libpacketwyrm/src/backend_bar.c:402-406 | the engine, following the descriptors in memory, keeps every other completed frame intact |
| `DmaRing.ReadsBack` | sw/libpacketwyrm/src/backend_bar.c:504-515 | an undisturbed buffer reads back as the frame it was given, in the length its header or its own bytes give |
| `DmaRing.UnknownTypeIsEmpty` | sw/libpacketwyrm/src/backend_bar.c:437-448 | without a length in the header a frame is taken to be empty exactly for ethertypes other than the four known forms |
| `DmaRing.TakesAsTold` | sw/libpacketwyrm/src/backend_bar.c:437-450 | an IPv4 total length behind 14 bytes, an IPv6 payload length behind 54, an 802.3 length behind 14, and 42 for ARP, are what the host takes a frame's length to be |
| `DmaRing.MeasurableExactly` | sw/libpacketwyrm/src/backend_bar.c:437-450 | without a length in the header the host can tell a frame's length exactly if its own headers reach its end, or pass it in a full buffer |
| `DmaRing.TargetIs` | sw/libpacketwyrm/src/backend_bar.c:479-502 | the frame delivered is the oldest intact one of the counters' present turn; completions passed over are those counted and whole turns |
| `DmaRing.Ring.Reap` | sw/libpacketwyrm/src/backend_bar.c:459-529 | 0 exactly when the 32-bit counters show nothing, the frame is taken to be empty or the buffer is; otherwise the oldest frame that is certainly untouched, whole if its length is in the header, and else as far as its own headers tell; a frame shown is consumed in any case, the skipped ones are counted |
| `DmaRing.Ring.Play` | sw/libpacketwyrm/src/backend_bar.c:454-529 | over every interleaving of any length: completion order, at most once, never torn; delivered, skipped and jumped-over completions account for all those left behind exactly when every frame taken has a length to the host and its reap a buffer, so whenever that holds of all completions and reaps |
| `DmaRing.StallsAcrossWrap` | sw/libpacketwyrm/src/backend_bar.c:479-481 | with fewer than 2^32 frames waiting, a reap is shown none exactly when a multiple of 2^32 lies between the counters |
| `DmaRing.StallsForGood` | sw/libpacketwyrm/src/backend_bar.c:479-481 | with 2^32 - 1 frames consumed no further frame is ever shown |
| `GpioSync.Rig.SyncTs` | sw/libpacketwyrm/src/gpio_sync.c:27-33 | low then high reads give one edge's timestamp, edges in between or not, less exactly what failed reads lose |
| `GpioSync.Rig.CoherentOffset` | sw/libpacketwyrm/src/gpio_sync.c:47-72 | for any eight scripts of edges and read failures: takes the first accepted attempt, false exactly when there is none; the offset is one edge's exactly when failed timestamp reads leave it unharmed |
| `GpioSync.AcceptedMeansQuiet` | sw/libpacketwyrm/src/gpio_sync.c:55-69 | with fewer than 2^32 edges in it, an attempt is accepted if and only if its edge-number reads succeed, an edge has been seen and none disturbs it |
| `GpioSync.OffsetSurvives` | sw/libpacketwyrm/src/gpio_sync.c:27-33 | the difference read is the edge's offset if and only if failed reads take the same from both low halves, and from both high halves modulo 2^32 |
| `GpioSync.WrongOffset` | sw/libpacketwyrm/src/gpio_sync.c:47-72 | an accepted attempt that publishes 0 for an edge whose offset is 2^32 |
| `GpioSync.Corrections.WriteCorrection` | sw/libpacketwyrm/src/gpio_sync.c:74-85 | LO then HI commits the correction modulo 2^64 to that slot only; slots from 64 on are left alone |
| `GpioSync.TrueLatency` | sw/packetwyrmd/src/main.c:380-397 | with that correction the checker measures the true one-way latency modulo 2^64, plus the bias |
| `GpioSync.BiasCancels` | sw/packetwyrmd/src/main.c:366-370 | the calibration bias of one direction is the opposite of the other's |
| `GpioSync.CalibrationIsSkew` | sw/packetwyrmd/src/main.c:346-370 | when the card with the higher id latches edges d ticks later, both directions measure the true latency if and only if the calibration is d modulo 2^64; its sign follows the card ids |
| `GpioSync.ServoStep` | sw/packetwyrmd/src/main.c:391-396 | a servo write publishes one edge's offset plus bias, touches no other slot, and makes every frame of the flow measure its true latency plus bias modulo 2^64 |
| `LatencyServo.ServoPass` | sw/packetwyrmd/src/main.c:380-398 | after a pass over all flows, every flow between open cards that was published with a sure reading has its own slot calibrated, and no slot of another flow has changed |
| `LatencyServo.EndsExactly` | sw/packetwyrmd/src/main.c:383-390 | a flow is corrected exactly if it is measured, from one open card to another |
| `LatencyServo.CompiledApart` | sw/libpacketwyrm/src/flow_compiler.c:461-520 | the slots of a compiled program are apart, as the pass needs |
| `VfioRegistry.Registry.OpenBar` | sw/libpacketwyrm/src/vfio.c:195-285 | a malformed address or BAR number changes nothing; otherwise on every failure path the handle is closed and nothing newly opened leaks, success refers to the one slot of that group, and a handle that was open is lost |
| `VfioRegistry.Registry.Close` | sw/libpacketwyrm/src/vfio.c:99-119 | the handle is closed, and the group with its last handle |
| `VfioRegistry.Registry.MapDma` | sw/libpacketwyrm/src/vfio.c:131-164 | a granted range is page-aligned, does not wrap, and joins the ranges of that container; the allocator is set up even if the map fails |
| `VfioRegistry.Registry.Run` | sw/libpacketwyrm/src/vfio.c:25-45 | over any sequence of opens, maps and closes the registry stays valid |
| `VfioRegistry.ValidMeans` | sw/libpacketwyrm/src/vfio.c:25-33 | valid means: refcount is the number of handles not closed, descriptors are open exactly while it is positive, ranges of one container are disjoint |
| `VfioRegistry.CountsUsers` | sw/libpacketwyrm/src/vfio.c:209-212 | a refcount is the number of handles in use if and only if no handle of that group was overwritten |
| `VfioRegistry.LeakedGroups` | sw/libpacketwyrm/src/vfio.c:99-119 | when all handles are closed, exactly the groups of overwritten ones are still open |
| `SfpI2c.Bus.SendStart` | sw/libpacketwyrm/src/sfp.c:69-74 | one START from idle, or one clock and a START as a repeated one, as the slave sees it |
| `SfpI2c.Bus.WriteByte` | sw/libpacketwyrm/src/sfp.c:83-94 | nine clocks carrying the byte and the acknowledge, as the slave sees them |
| `SfpI2c.Bus.ReadByte` | sw/libpacketwyrm/src/sfp.c:97-110 | nine clocks, the byte the slave sends, and the master's acknowledge |
| `SfpI2c.SfpRead` | sw/libpacketwyrm/src/sfp.c:112-143 | OK means a module answered and these are its exact bytes, IO that none answered, Backend exactly that an access failed; the commanded lines make exactly the transfer's conditions and clocks, up to where a NAK was seen, also among failures; asked for no bytes, a module keeps SDA down exactly if the next byte's top bit is 0 |
| `SfpI2c.SfpWrite` | sw/libpacketwyrm/src/sfp.c:145-184 | with data to write: OK means a module answered, finished its write cycles and exactly the range is written, IO that it did not, Backend exactly that an access failed; the lines make one transfer a byte and one a poll, cycle + 1 polls each without failures |
| `SfpI2c.ReadShape` | sw/libpacketwyrm/src/sfp.c:129-138 | a read is START, STOP with a repeated START in between if address and offset were acknowledged; nine clocks a byte |
| `SfpI2c.WriteShape` | sw/libpacketwyrm/src/sfp.c:158-183 | a write is a series of START, STOP pairs, one for each byte tried and one for each poll |
| `Checksum.ComplementCompletes` | sw/libpacketwyrm/src/frame_preview.c:6-11 | the complement of the folded sum completes any sum to 0xFFFF |
| `Checksum.ChecksummedIsValid` | sw/libpacketwyrm/src/frame_preview.c:6-12 | a unit with its checksum filled in sums to 0xFFFF |
| `Checksum.ZeroChecksum` | sw/libpacketwyrm/src/frame_preview.c:236-246 | the checksum written is 0 exactly when the sum is a positive multiple of 0xFFFF |
| `Checksum.OnesCsum` | sw/libpacketwyrm/src/frame_preview.c:6-11 | the loop computes that checksum, and its 32-bit sum cannot overflow on a frame |
| `Modifiers.Mod128` | sw/libpacketwyrm/src/frame_preview.c:37-55 | four lanes modified separately are the 128-bit modification |
| `Modifiers.ModKeeps` | sw/libpacketwyrm/src/frame_preview.c:18-55 | a mask that avoids the modifier's bits cannot see the modification |
| `FieldBits.ScrambleBit` | sw/libpacketwyrm/src/frame_preview.c:18-20 | every bit of the scrambled counter as exclusive ors of bits of the counter 13 lower, 17 higher and 5 lower |
| `FieldBits.HeadOnWire` | sw/libpacketwyrm/src/frame_preview.c:31-36 | in every frame on the wire each bit of the MAC addresses and the VLAN id is the configured one outside the modifier's mask, and the counter's or scrambled counter's bit inside it; the tag has the priority on top |
| `FieldBits.AddressesOnWire` | sw/libpacketwyrm/src/frame_preview.c:21-55 | the same of the IPv4 addresses, and of the IPv6 ones with each lane's offset or salt |
| `FieldBits.PortsOnWire` | sw/libpacketwyrm/src/frame_preview.c:26-30 | the same of the ports, scrambled bits taken three places higher |
| `FieldBits.SameIffAgree` | sw/libpacketwyrm/src/frame_preview.c:21-55 | two packets carry the same value in a field exactly if their counters agree in every masked bit |
| `FieldBits.SweepPeriod` | sw/libpacketwyrm/src/frame_preview.c:21-30 | a port or IPv4 address that counts in its low k bits repeats after exactly 2^k packets |
| `Frames.FloorIsMinLegal` | sw/libpacketwyrm/src/flow_compiler.c:250-271 | the builder's clamp is the compiler's minimum frame for every validated flow but the raw Ethernet template |
| `Frames.WireLenIs` | sw/libpacketwyrm/src/flow_compiler.c:243-271 | every emitted frame, raw ones too, has the configured length or the compiler's minimum, whichever is larger |
| `Frames.PreviewOfEmitted` | sw/libpacketwyrm/src/frame_preview.c:66-135 | the preview is the emitted frame, except exactly a raw frame configured shorter than its headers, of which it is the front |
| `Frames.FrameIsValid` | sw/libpacketwyrm/src/frame_preview.c:123-246 | for every flow, template, tunnel and sequence number each IPv4 header and each UDP or TCP segment sums to 0xFFFF and each length field reaches the end of the frame |
| `FrameHeaders.FlowIpOf` | sw/libpacketwyrm/src/frame_preview.c:185-206 | class, don't-fragment, lifetime (64 by default), protocol and addresses of the only or inner IP header of every frame |
| `FrameHeaders.TunnelOf` | sw/libpacketwyrm/src/frame_preview.c:150-182 | the same of a tunnel's outer header, with its own configured values, and the GRE or EtherIP header behind it with MACs that do not vary |
| `FrameHeaders.BodyOf` | sw/libpacketwyrm/src/frame_preview.c:208-232 | the rest of every frame: TCP header with the sequence number and SYN by default, test header with flow and sequence number, and zeros to the end |
| `UdpChecksum.ZeroExactly` | sw/libpacketwyrm/src/frame_preview.c:234-246 | the checksum field of a built UDP frame is 0 if and only if pseudo-header and segment sum to a multiple of 0xFFFF |
| `UdpChecksum.EveryFlowHasOne` | sw/libpacketwyrm/src/frame_preview.c:219-246 | of the first 65535 built frames of a UDP test flow with fixed ports and addresses exactly one, given as a function of the flow, has checksum 0 |
| `FrameBuilder.BuildPreview` | sw/libpacketwyrm/src/frame_preview.c:66-250 | the buffer starts with exactly that frame, whose varying bits FieldBits and whose other header bytes FrameHeaders give; refused exactly for lengths outside 14..9100 and frames that do not fit |
| `FrameKeys.ParseRecovers` | rtl/phase3/pw_parser_axis.sv:130-355 | the receive parser recovers the modified MACs, VLAN, addresses, ports, flow id and sequence number of every generated IP frame, through tag and tunnel |
| `FrameKeys.DescendsTo` | rtl/phase3/pw_parser_axis.sv:182-235 | the parser descends through IPIP, GRE and EtherIP to the inner header, and nowhere for an untunnelled frame |
| `FlowMatching.FrameMatches` | sw/libpacketwyrm/src/flow_compiler.c:132-164 | for every flow with its masks as the parser stores them, tunnelled or not, and every sequence number, the emitted frame's masked key is the stored key if and only if the flow is recognisable |
| `FlowMatching.IpTemplateIsLost` | sw/libpacketwyrm/src/frame_preview.c:188-197 | an IP-template flow configured as UDP is never recognised |
| `FlowMatching.MixedTunnelIsLost` | rtl/phase3/pw_parser_axis.sv:182-235 | a test flow with an IPv6 header inside an IPv4 tunnel is never recognised by its header |
| `FlowMatching.FramesReachTheirSlot` | sw/libpacketwyrm/src/flow_compiler.c:758-770 | on a receive card whose registers hold the program every frame of a header-classified flow, at every length, reaches that flow's own slot, if and only if the flow is recognisable |
| `FlowMatching.TestFramesReachTheirSlot` | sw/libpacketwyrm/src/flow_compiler.c:503-523 | every test frame, tunnelled or not, is found by its flow id in its own slot and on no other card |
| `FlowMatching.MeasuredFramesAreCounted` | rtl/phase3/pw_data_plane_axis.sv:462-486 | through all stages of its receive card every frame of a measured flow, at every length, is counted in the flow's own slot, if and only if the flow is found by id or recognisable |
| `FlowMatching.RawFlowSwallows` | rtl/phase3/pw_data_plane_axis.sv:462-486 | a card that receives an untagged raw Ethernet flow counts every untagged frame of its ethertype as that flow's, on every port |
| `FlowMatching.ArpPuntSwallowed` | rtl/phase3/pw_data_plane_axis.sv:462-486 | with such a flow of ethertype 0x0806 the rule stage names the configured ARP punt, or one preferred to it, and the card applies neither |

## Left out

- YAML parsing, JSON replies, the command line, sockets and Prometheus text: no logic beyond formatting; a parsed body, or a parse failure, is a parameter of `Daemon.Daemon.Load`.
- Frames.FrameIsValid: is about the builder's reference form of a frame; in hardware the time stamp is inserted at departure with a checksum fix-up, and UDP over IPv4 goes out with checksum 0.
- Daemon.Daemon.SetFlowEnable: promises agreement of card and report only for cards whose operations do not fail; a row whose write succeeded and whose commit failed can go live with a later commit.
- TableWrites.ProgramTables: promises the tables only for a backend with all operations, a truthful capacity and no NotImplemented answers, since those are treated as soft.
- SpiFlash.FlashProgram: on a chip that misbehaves it promises the target range only; preserved neighbours are compared before the target is programmed.
- DmaRing.Ring.Play: a reap is atomic; a copy that races with further completions has no guarantee in the code.
- GpioSync.TrueLatency: counters of equal rate, one correction writer at a time.
- The frame buffer behind the classifier, which keeps, rolls back, forwards or punts a frame, and out-of-range egress ports: the model ends at the action chosen.
- Header columns of a flow row beyond lengths, rate, burst and ids: straight copies, kept as the flow itself.
- The statistics counters, their clearing and the data-path reset before programming: modelled as register writes outside the table windows, without effect on the tables.
- Time-sync set-up and latency priming inside programming: modelled as arbitrary writes outside the table windows.
- The servo thread and its lock, wall-clock delays, SFF-8472 decoding, the older BAR-polled punt and inject windows, statistics snapshots and the fake backend's queues: left out.
- The generator's token bucket beyond its fill level, and the RTL pipelines' timing: only the values they compute are modelled.
