/**
 SFP module management (sfp.c): a software I2C master that bit-bangs two open-drain lines
 through one register, with register failures latched and reported at the end.
 */
module SfpI2c {
  import opened Basics
  import opened I2cSlave

  const STRETCH_POLLS := 100
  const WRITE_POLLS := 50

  /** The lines after one register write, true = released; otherFree = so are both lines of the other cage. */
  datatype Level = Level(scl: bool, sda: bool, otherFree: bool)

  /** All levels commanded, starting from both lines released. */
  datatype Log = Boot | Next(before: Log, level: Level)

  const IDLE := Level(true, true, true)

  function Last(log: Log): Level { if log.Boot? then IDLE else log.level }

  /** Every register write moves at most one line, and none ever drives the other cage's. */
  predicate Disciplined(log: Log) {
    log.Next? ==>
      && log.level.otherFree && (Last(log.before).scl == log.level.scl || Last(log.before).sda == log.level.sda)
      && Disciplined(log.before)
  }

  /** What a bus analyser sees: a clock rise with the level the master offers on SDA, a START, a STOP. */
  datatype Event = Rise(sda: bool) | Start | Stop
  datatype Trace = Quiet | After(before: Trace, event: Event)

  function Seen(t: Trace, p: Level, q: Level): Trace {
    if !p.scl && q.scl then After(t, Rise(q.sda))
    else if p.scl && q.scl && p.sda && !q.sda then After(t, Start)
    else if p.scl && q.scl && !p.sda && q.sda then After(t, Stop)
    else t
  }

  /** The events of all levels commanded. */
  function Events(log: Log): Trace {
    if log.Boot? then Quiet else Seen(Events(log.before), Last(log.before), log.level)
  }

  // ---- what a transfer looks like on the wire -------------------------------------------------------

  /** The building blocks of a transfer: START, repeated START, a byte sent, a byte received, STOP. */
  datatype Block = Begin | Again | Out(v: u8) | In(ack: bool) | End
  datatype Script = Blank | Do(before: Script, block: Block)

  const BYTE_BITS := 8

  /** The first k bits of v, most significant first. */
  function OutBits(t: Trace, v: u8, k: nat): Trace
    requires k <= 8
  {
    if k == 0 then t else After(OutBits(t, v, k - 1), Rise(HasBit(v, 8 - k)))
  }

  /** SDA released for k clocks. */
  function Free(t: Trace, k: nat): Trace { if k == 0 then t else After(Free(t, k - 1), Rise(true)) }

  /** The events of a block: nine clocks for every byte, sent with SDA released for the acknowledge. */
  function BlockEvents(t: Trace, b: Block): Trace {
    match b
    case Begin => After(t, Start)
    case Again => After(After(t, Rise(true)), Start)
    case Out(v) => After(OutBits(t, v, BYTE_BITS), Rise(true))
    case In(ack) => After(Free(t, BYTE_BITS), Rise(!ack))
    case End => After(After(t, Rise(false)), Stop)
  }

  function Wire(s: Script): Trace { if s.Blank? then Quiet else BlockEvents(Wire(s.before), s.block) }

  function AddressByte(addr: u8, rw: nat): u8
    requires rw < 2
  {
    2 * addr % 256 + rw
  }

  /** START, the address and, if that was acknowledged, the offset. */
  function Opening(s: Script, addr: u8, offset: u8, acked: nat): Script {
    var s1 := Do(Do(s, Begin), Out(AddressByte(addr, 0)));
    if acked == 0 then s1 else Do(s1, Out(offset))
  }

  /** Repeated START and the address for reading. */
  function Turning(s: Script, addr: u8): Script { Do(Do(s, Again), Out(AddressByte(addr, 1))) }

  /** n bytes received, all acknowledged but the last of `len`. */
  function Ins(s: Script, n: nat, len: nat): Script { if n == 0 then s else Do(Ins(s, n - 1, len), In(n < len)) }

  /** A read in which `acked` of the three bytes sent were acknowledged. */
  function ReadScript(addr: u8, offset: u8, len: nat, acked: nat): Script {
    if acked < 2 then Do(Opening(Blank, addr, offset, acked), End)
    else if acked == 2 then Do(Turning(Opening(Blank, addr, offset, 2), addr), End)
    else Do(Ins(Turning(Opening(Blank, addr, offset, 2), addr), len, len), End)
  }

  /** One byte written in which address and offset were acknowledged as `acked` says. */
  function PutScript(s: Script, addr: u8, offset: u8, v: u8, acked: nat): Script {
    if acked < 2 then Do(Opening(s, addr, offset, acked), End) else Do(Do(Opening(s, addr, offset, 2), Out(v)), End)
  }

  function Poll(s: Script, addr: u8): Script { Do(Opening(s, addr, 0, 0), End) }

  function Polls(s: Script, addr: u8, n: nat): Script { if n == 0 then s else Poll(Polls(s, addr, n - 1), addr) }

  /** One byte of a write: how far it was acknowledged, and how often the address was polled afterwards. */
  datatype Try = Try(acked: nat, polls: nat)

  function TryScript(s: Script, addr: u8, offset: u8, v: u8, t: Try): Script {
    Polls(PutScript(s, addr, offset, v, t.acked), addr, t.polls)
  }

  function WriteScript(addr: u8, offset: u8, data: Bytes, tries: seq<Try>): Script
    requires |tries| <= |data| && offset + |data| <= 256
  {
    if tries == [] then Blank
    else
      var n := |tries| - 1;
      TryScript(WriteScript(addr, offset, data, tries[..n]), addr, offset + n, data[n], tries[n])
  }

  /** A byte fully sent and polled for, at most 50 times. */
  predicate Whole(t: Try) { t.acked == 2 && 1 <= t.polls <= WRITE_POLLS }

  /** A byte given up on early is not polled for. */
  predicate Lawful(t: Try) { Whole(t) || (t.acked <= 2 && t.polls == 0) }

  /** Only the last byte of a write can have been given up on. */
  predicate TriesOk(tries: seq<Try>) {
    && (forall i | 0 <= i < |tries| - 1 :: Whole(tries[i]))
    && (tries != [] ==> Lawful(tries[|tries| - 1]))
  }

  lemma ScriptStep(addr: u8, offset: u8, data: Bytes, tries: seq<Try>, t: Try)
    requires |tries| < |data| && offset + |data| <= 256
    ensures WriteScript(addr, offset, data, tries + [t])
         == TryScript(WriteScript(addr, offset, data, tries), addr, offset + |tries|, data[|tries|], t)
  {
    assert (tries + [t])[..|tries|] == tries;
  }

  // ---- conditions and clocks ----------------------------------------------------------------------------

  /** The STARTs and STOPs of a run, in order, and its number of clock rises. */
  function Conditions(t: Trace): seq<Event> {
    if t.Quiet? then [] else if t.event.Rise? then Conditions(t.before) else Conditions(t.before) + [t.event]
  }

  function Rises(t: Trace): nat { if t.Quiet? then 0 else Rises(t.before) + if t.event.Rise? then 1 else 0 }

  lemma {:induction false} BitsAreClocks(t: Trace, v: u8, k: nat)
    requires k <= 8
    ensures Conditions(OutBits(t, v, k)) == Conditions(t) && Rises(OutBits(t, v, k)) == Rises(t) + k
    ensures Conditions(Free(t, k)) == Conditions(t) && Rises(Free(t, k)) == Rises(t) + k
  {
    if k > 0 { BitsAreClocks(t, v, k - 1); }
  }

  /** A byte is nine clocks and no condition; every other block is one condition. */
  lemma BlockShape(t: Trace, b: Block)
    ensures Conditions(BlockEvents(t, b)) == match b {
              case Begin => Conditions(t) + [Start]
              case Again => Conditions(t) + [Start]
              case End => Conditions(t) + [Stop]
              case _ => Conditions(t) }
    ensures Rises(BlockEvents(t, b)) == Rises(t) + if b.Out? || b.In? then 9 else if b.Begin? then 0 else 1
  {
    match b
    case Out(v) => BitsAreClocks(t, v, BYTE_BITS);
    case In(ack) => BitsAreClocks(t, 0, BYTE_BITS);
    case _ =>
  }

  lemma ShapeStep(s: Script, b: Block)
    ensures Conditions(Wire(Do(s, b)))
              == Conditions(Wire(s)) + (if b.Begin? || b.Again? then [Start] else if b.End? then [Stop] else [])
    ensures Rises(Wire(Do(s, b))) == Rises(Wire(s)) + if b.Out? || b.In? then 9 else if b.Begin? then 0 else 1
  {
    BlockShape(Wire(s), b);
  }

  lemma {:induction false} InsShape(s: Script, n: nat, len: nat)
    ensures Conditions(Wire(Ins(s, n, len))) == Conditions(Wire(s))
    ensures Rises(Wire(Ins(s, n, len))) == Rises(Wire(s)) + 9 * n
  {
    if n > 0 {
      InsShape(s, n - 1, len);
      ShapeStep(Ins(s, n - 1, len), In(n < len));
    }
  }

  lemma OpeningShape(s: Script, addr: u8, offset: u8, acked: nat)
    ensures Conditions(Wire(Opening(s, addr, offset, acked))) == Conditions(Wire(s)) + [Start]
    ensures Rises(Wire(Opening(s, addr, offset, acked))) == Rises(Wire(s)) + if acked == 0 then 9 else 18
  {
    var s1 := Do(s, Begin);
    ShapeStep(s, Begin);
    ShapeStep(s1, Out(AddressByte(addr, 0)));
    ShapeStep(Do(s1, Out(AddressByte(addr, 0))), Out(offset));
  }

  lemma TurningShape(s: Script, addr: u8)
    ensures Conditions(Wire(Turning(s, addr))) == Conditions(Wire(s)) + [Start]
    ensures Rises(Wire(Turning(s, addr))) == Rises(Wire(s)) + 10
  {
    ShapeStep(s, Again);
    ShapeStep(Do(s, Again), Out(AddressByte(addr, 1)));
  }

  /** A read is one START, a repeated one if address and offset were acknowledged, and one STOP; nine clocks a byte. */
  lemma ReadShape(addr: u8, offset: u8, len: nat, acked: nat)
    ensures var t := Wire(ReadScript(addr, offset, len, acked));
            && Conditions(t) == (if acked < 2 then [Start, Stop] else [Start, Start, Stop])
            && Rises(t) == if acked == 0 then 10 else if acked == 1 then 19 else if acked == 2 then 29 else 29 + 9 * len
  {
    OpeningShape(Blank, addr, offset, acked);
    var s := Opening(Blank, addr, offset, acked);
    TurningShape(s, addr);
    InsShape(Turning(s, addr), len, len);
    ShapeStep(s, End);
    ShapeStep(Turning(s, addr), End);
    ShapeStep(Ins(Turning(s, addr), len, len), End);
  }

  /** n times START and STOP. */
  function Pairs(n: nat): seq<Event> { if n == 0 then [] else Pairs(n - 1) + [Start, Stop] }

  lemma {:induction false} PairsAdd(a: nat, b: nat)
    ensures Pairs(a) + Pairs(b) == Pairs(a + b)
  {
    if b > 0 {
      PairsAdd(a, b - 1);
      assert Pairs(a) + (Pairs(b - 1) + [Start, Stop]) == Pairs(a) + Pairs(b - 1) + [Start, Stop];
    }
  }

  lemma PutShape(s: Script, addr: u8, offset: u8, v: u8, acked: nat)
    ensures Conditions(Wire(PutScript(s, addr, offset, v, acked))) == Conditions(Wire(s)) + [Start, Stop]
  {
    OpeningShape(s, addr, offset, acked);
    var o := Opening(s, addr, offset, acked);
    ShapeStep(o, End);
    ShapeStep(o, Out(v));
    ShapeStep(Do(o, Out(v)), End);
  }

  lemma PollShape(s: Script, addr: u8)
    ensures Conditions(Wire(Poll(s, addr))) == Conditions(Wire(s)) + [Start, Stop]
  {
    OpeningShape(s, addr, 0, 0);
    ShapeStep(Opening(s, addr, 0, 0), End);
  }

  lemma {:induction false} PollsShape(s: Script, addr: u8, n: nat)
    ensures Conditions(Wire(Polls(s, addr, n))) == Conditions(Wire(s)) + Pairs(n)
  {
    if n > 0 {
      PollsShape(s, addr, n - 1);
      PollShape(Polls(s, addr, n - 1), addr);
    }
  }

  /** How many transfers a write makes: one for every byte tried and one for every poll. */
  function Transfers(tries: seq<Try>): nat {
    if tries == [] then 0 else Transfers(tries[..|tries| - 1]) + 1 + tries[|tries| - 1].polls
  }

  /** A write is a series of transfers, each one START and one STOP. */
  lemma {:induction false} WriteShape(addr: u8, offset: u8, data: Bytes, tries: seq<Try>)
    requires |tries| <= |data| && offset + |data| <= 256
    ensures Conditions(Wire(WriteScript(addr, offset, data, tries))) == Pairs(Transfers(tries))
  {
    if tries != [] {
      var n := |tries| - 1;
      var s, t := WriteScript(addr, offset, data, tries[..n]), tries[n];
      WriteShape(addr, offset, data, tries[..n]);
      PutShape(s, addr, offset + n, data[n], t.acked);
      PollsShape(PutScript(s, addr, offset + n, data[n], t.acked), addr, t.polls);
      PairsAdd(Transfers(tries[..n]) + 1, t.polls);
    }
  }

  // ---- the master -------------------------------------------------------------------------------------

  /** What a move of the master's SDA from a to b does to the slave. */
  function SdaMoves(s: Slave, scl: bool, a: bool, b: bool): Slave {
    if !scl || s.low || a == b then s else if b then OnStop(s) else OnStart(s)
  }

  /** The events after moving the master's SDA, and after releasing SCL. */
  function SdaSeen(t: Trace, scl: bool, a: bool, b: bool): Trace {
    if !scl || a == b then t else After(t, if b then Stop else Start)
  }

  function RiseSeen(t: Trace, up: bool, sda: bool): Trace { if up then t else After(t, Rise(sda)) }

  class Bus {
    const port: nat
    /** Whether register accesses can fail at all. */
    const faulty: bool
    /** Shadow of the drive-low register, two bits a cage, and the latched failure. */
    var drive: seq<bool>
    var err: bool
    /** The module in this port's cage, and for how many more polls it holds SCL down. */
    var slave: Slave
    var stretch: nat
    /** Failed register accesses, and what was commanded on this port's lines. */
    ghost var faults: nat
    ghost var log: Log
    ghost var events: Trace
    /** The blocks the events so far are made of, between blocks. */
    ghost var script: Script

    function Scl(): nat { 2 * port }
    function Sda(): nat { 2 * port + 1 }

    predicate SclUp()
      requires port < 2 && |drive| == 4
      reads this
    {
      !drive[Scl()]
    }

    predicate SdaUp()
      requires port < 2 && |drive| == 4
      reads this
    {
      !drive[Sda()]
    }

    predicate OtherFree()
      requires port < 2 && |drive| == 4
      reads this
    {
      !drive[2 - 2 * port] && !drive[3 - 2 * port]
    }

    ghost predicate Ok()
      reads this
    {
      && port < 2 && |drive| == 4
      && OtherFree()
      && Disciplined(log) && events == Events(log) && Last(log) == Level(SclUp(), SdaUp(), true)
      && (err <==> faults > 0) && (err ==> faulty) && Sized(slave)
    }

    /** No stretch in progress. */
    ghost predicate Steady()
      reads this
    {
      Ok() && (!err ==> stretch == 0)
    }

    /** ... and the bus is between two blocks. */
    ghost predicate Ready()
      reads this
    {
      Steady() && events == Wire(script)
    }

    /** A block is complete. */
    ghost method Completed(b: Block)
      requires Steady() && events == BlockEvents(Wire(script), b)
      modifies this`script
      ensures Ready() && script == Do(old(script), b)
    {
      script := Do(script, b);
    }

    constructor (port: nat, slave: Slave, faulty: bool)
      requires port < 2 && Sized(slave)
      ensures Steady() && !err && SclUp() && SdaUp() && this.slave == slave && this.port == port
      ensures this.faulty == faulty && faults == 0
      ensures Ready() && script == Blank
    {
      this.port, this.slave, this.faulty := port, slave, faulty;
      drive, err, stretch, faults := [false, false, false, false], false, 0, 0;
      log, events, script := Boot, Quiet, Blank;
    }

    /** What the drive register commands goes onto the bus. */
    ghost method Record()
      requires port < 2 && |drive| == 4 && OtherFree() && Disciplined(log) && events == Events(log)
      requires Last(log).scl == SclUp() || Last(log).sda == SdaUp()
      modifies this`log, this`events
      ensures Disciplined(log) && events == Events(log) && Last(log) == Level(SclUp(), SdaUp(), true)
      ensures events == Seen(old(events), old(Last(log)), Level(SclUp(), SdaUp(), true))
    {
      log := Next(log, Level(SclUp(), SdaUp(), true));
      events := Events(log);
    }

    /** A register access: on failure the error is latched, and the module may have seen anything. */
    method Access() returns (ok: bool)
      requires Ok()
      modifies this`err, this`faults, this`slave, this`stretch
      ensures Ok() && (old(err) ==> err)
      ensures faults >= old(faults)
      ensures ok ==> err == old(err) && slave == old(slave) && stretch == old(stretch) && faults == old(faults)
      ensures !ok ==> err
    {
      var fault: bool := *;
      ok := !(faulty && fault);
      if !ok {
        err := true;
        faults := faults + 1;
        var s: Slave := *;
        if Sized(s) { slave := s; }
      }
    }

    /** set_line on SDA. */
    method SetSda(level: bool)
      requires Steady()
      modifies this`drive, this`err, this`slave, this`stretch, this`faults, this`log, this`events
      ensures Steady() && (old(err) ==> err)
      ensures drive == old(drive)[Sda() := !level]
      ensures faults >= old(faults)
      ensures events == SdaSeen(old(events), SclUp(), old(SdaUp()), level)
      ensures !err ==> slave == SdaMoves(old(slave), SclUp(), old(SdaUp()), level)
    {
      var a := SdaUp();
      drive := drive[Sda() := !level];
      Record();
      var ok := Access();
      if ok {
        slave := SdaMoves(slave, SclUp(), a, level);
      }
    }

    /** set_line(scl, 0). */
    method SclDown()
      requires Steady()
      modifies this`drive, this`err, this`slave, this`stretch, this`faults, this`log, this`events
      ensures Steady() && (old(err) ==> err)
      ensures drive == old(drive)[Scl() := true]
      ensures faults >= old(faults) && events == old(events)
      ensures !err ==> slave == if old(SclUp()) then OnFall(old(slave)) else old(slave)
    {
      var a := SclUp();
      drive := drive[Scl() := true];
      Record();
      var ok := Access();
      if ok && a {
        slave := OnFall(slave);
      }
    }

    /** set_line(scl, 1): the slave may hold the clock down for a while first. */
    method SclRelease()
      requires Steady()
      modifies this`drive, this`err, this`slave, this`stretch, this`faults, this`log, this`events
      ensures Ok() && (old(err) ==> err)
      ensures drive == old(drive)[Scl() := false]
      ensures faults >= old(faults)
      ensures events == RiseSeen(old(events), old(SclUp()), SdaUp())
      ensures !err ==> stretch < STRETCH_POLLS
      ensures !err && stretch == 0 ==> slave == if old(SclUp()) then old(slave) else OnRise(old(slave), SdaUp())
      ensures !err && stretch > 0 ==> !old(SclUp()) && slave == old(slave)
    {
      var a := SclUp();
      drive := drive[Scl() := false];
      Record();
      var ok := Access();
      if ok && !a {
        var n: nat := *;
        if n < STRETCH_POLLS { stretch := n; }
        if stretch == 0 { slave := OnRise(slave, SdaUp()); }
      }
    }

    /** get_line on SCL: while the slave stretches, low. */
    method GetScl() returns (level: bool)
      requires Ok()
      modifies this`err, this`faults, this`slave, this`stretch
      ensures Ok() && (old(err) ==> err) && faults >= old(faults)
      ensures !err ==> level == (SclUp() && old(stretch) == 0)
      ensures !err && old(stretch) == 0 ==> stretch == 0 && slave == old(slave)
      ensures !err && old(stretch) > 0 ==> stretch == old(stretch) - 1
      ensures !err && old(stretch) > 0 ==> slave == if stretch == 0 then OnRise(old(slave), SdaUp()) else old(slave)
    {
      var ok := Access();
      level := ok && SclUp() && stretch == 0;
      if ok && stretch > 0 {
        stretch := stretch - 1;
        if stretch == 0 { slave := OnRise(slave, SdaUp()); }
      }
    }

    method GetSda() returns (level: bool)
      requires Steady()
      modifies this`err, this`faults, this`slave, this`stretch
      ensures Steady() && (old(err) ==> err) && faults >= old(faults)
      ensures !err ==> level == (SdaUp() && !slave.low) && slave == old(slave)
    {
      var ok := Access();
      level := ok && SdaUp() && !slave.low;
    }

    /** scl_release_wait. */
    method ReleaseWait()
      requires Steady()
      modifies this`drive, this`err, this`slave, this`stretch, this`faults, this`log, this`events
      ensures Steady() && (old(err) ==> err)
      ensures drive == old(drive)[Scl() := false]
      ensures faults >= old(faults) && events == RiseSeen(old(events), old(SclUp()), SdaUp())
      ensures !err ==> slave == if old(SclUp()) then old(slave) else OnRise(old(slave), SdaUp())
    {
      ghost var s0 := slave;
      ghost var up := SclUp();
      SclRelease();
      for i := 0 to STRETCH_POLLS
        invariant Ok() && (old(err) ==> err) && drive == old(drive)[Scl() := false]
        invariant faults >= old(faults) && events == RiseSeen(old(events), up, SdaUp())
        invariant !err && stretch > 0 ==> !up && slave == s0 && stretch < STRETCH_POLLS - i
        invariant !err && stretch == 0 ==> slave == if up then s0 else OnRise(s0, SdaUp())
      {
        var high := GetScl();
        if high { break; }
      }
    }

    // ---- conditions and bytes -------------------------------------------------------------------------

    /** i2c_start, from an idle bus or as a repeated START. */
    method SendStart()
      requires Ready() && (!err ==> !slave.low) && (SclUp() ==> SdaUp())
      modifies this
      ensures Ready() && (old(err) ==> err) && !SclUp()
      ensures faults >= old(faults) && script == Do(old(script), if old(SclUp()) then Begin else Again)
      ensures !err ==> slave == OnStart(old(slave)) && Listening(slave)
    {
      ghost var up := SclUp();
      SetSda(true);
      ReleaseWait();
      SetSda(false);
      SclDown();
      Completed(if up then Begin else Again);
    }

    /** i2c_stop. A slave that is holding SDA low does not see it. */
    method SendStop()
      requires Ready() && !SclUp()
      modifies this
      ensures Ready() && (old(err) ==> err) && SclUp() && SdaUp()
      ensures faults >= old(faults) && script == Do(old(script), End)
      ensures !err && !old(slave.low) ==> slave == OnStop(old(slave)) && !slave.low
      ensures !err && old(slave.low) && old(slave.mode.Send?) ==> slave == old(slave)
      ensures !err && old(slave.pending).None? ==> slave.mem == old(slave.mem)
    {
      SetSda(false);
      ReleaseWait();
      SetSda(true);
      Completed(End);
    }

    /** One clock pulse. */
    method Pulse()
      requires Steady() && !SclUp()
      modifies this`drive, this`err, this`slave, this`stretch, this`faults, this`log, this`events
      ensures Steady() && (old(err) ==> err) && drive == old(drive)
      ensures faults >= old(faults) && events == After(old(events), Rise(SdaUp()))
      ensures !err ==> slave == Clock(old(slave), SdaUp())
    {
      ReleaseWait();
      SclDown();
    }

    /** i2c_write_byte: most significant bit first, then the acknowledge clock. */
    method WriteByte(v: u8) returns (nak: bool)
      requires Ready() && !SclUp() && (!err ==> Listening(slave))
      modifies this
      ensures Ready() && (old(err) ==> err) && !SclUp()
      ensures faults >= old(faults) && script == Do(old(script), Out(v))
      ensures !err ==> nak == !Acks(old(slave), v) && slave == AfterByte(old(slave), v)
    {
      ghost var s0 := slave;
      for k := 0 to 8
        invariant Steady() && (old(err) ==> err) && !SclUp()
        invariant faults >= old(faults) && script == old(script) && events == OutBits(old(events), v, k)
        invariant !err ==> slave == Got(s0, v, k)
      {
        if !err { GotStep(s0, v, k); }
        SetSda(HasBit(v, 7 - k));
        Pulse();
      }
      if !err { GotAck(s0, v); }
      SetSda(true);
      ReleaseWait();
      nak := GetSda();
      SclDown();
      Completed(Out(v));
    }

    /** One bit of i2c_read_byte. */
    method ReadBit(ghost s0: Slave, ghost x: u8, ghost k: nat) returns (bit: bool)
      requires Steady() && !SclUp() && SdaUp() && k < 8 && (!err ==> Sending(s0, x) && slave == Sent(s0, x, k))
      modifies this`drive, this`err, this`slave, this`stretch, this`faults, this`log, this`events
      ensures Steady() && (old(err) ==> err) && drive == old(drive)
      ensures faults >= old(faults) && events == After(old(events), Rise(true))
      ensures !err ==> bit == HasBit(x, 7 - k) && slave == Sent(s0, x, k + 1)
    {
      if !err { SentStep(s0, x, k, true); }
      ReleaseWait();
      bit := GetSda();
      SclDown();
    }

    /** i2c_read_byte. */
    method ReadByte(ack: bool, ghost x: u8) returns (v: u8)
      requires Ready() && !SclUp() && (!err ==> Sending(slave, x))
      modifies this
      ensures Ready() && (old(err) ==> err) && !SclUp()
      ensures faults >= old(faults) && script == Do(old(script), In(ack))
      ensures !err ==> v == x && slave == AfterSent(old(slave), ack)
    {
      v := 0;
      ghost var s0 := slave;
      SetSda(true);
      WholeBytePrefix(x);
      for k := 0 to 8
        invariant Steady() && (old(err) ==> err) && !SclUp() && SdaUp()
        invariant faults >= old(faults) && script == old(script) && events == Free(old(events), k)
        invariant !err ==> slave == Sent(s0, x, k) && v == Prefix(x, k)
      {
        var bit := ReadBit(s0, x, k);
        if !err { ShiftIn(x, k, v, bit); }
        v := (2 * v + if bit then 1 else 0) % 256;
      }
      if !err { SentAck(s0, x, ack); }
      SetSda(!ack);
      Pulse();
      SetSda(true);
      Completed(In(ack));
    }

    /** Both lines released, as the drive register starts. */
    method Idle()
      requires Ready() && SclUp() && SdaUp()
      modifies this
      ensures Ready() && SclUp() && SdaUp() && (old(err) ==> err)
      ensures faults >= old(faults) && script == old(script)
      ensures !err ==> slave == old(slave)
    {
      SclRelease();
      SetSda(true);
    }

    /** START, address for writing, register offset: the opening of every transfer. Stops by itself on a NAK. */
    method Select(addr: u8, offset: u8) returns (ok: bool, ghost acked: nat)
      requires Ready() && SclUp() && SdaUp() && (!err ==> !slave.low)
      modifies this
      ensures Ready() && (old(err) ==> err) && (ok ==> !SclUp()) && (!ok ==> SclUp() && SdaUp())
      ensures faults >= old(faults) && acked <= 2 && ok == (acked == 2)
      ensures script == var s := Opening(old(script), addr, offset, acked); if ok then s else Do(s, End)
      ensures !err ==> ok == Answers(old(slave), addr) && (!ok ==> acked == 0)
      ensures !err && ok ==> slave == old(slave).(mode := Recv(Data, []), low := false, pending := None, ptr := offset)
      ensures !err && !ok ==> !slave.low && slave.mem == old(slave.mem)
    {
      if !err { AddressAcked(slave, addr, 0); }
      SendStart();
      ok, acked := true, 2;
      var nak := WriteByte(AddressByte(addr, 0));
      if nak {
        SendStop();
        return false, 0;
      }
      nak := WriteByte(offset);
      if nak {
        SendStop();
        return false, 1;
      }
    }

    /** Repeated START and address for reading, after Select. */
    method Turn(addr: u8) returns (ok: bool)
      requires Ready() && !SclUp()
      requires !err ==> slave.mode == Recv(Data, []) && !slave.low
      requires !err ==> slave.present && addr % 128 == slave.addr && slave.busy == 0
      modifies this
      ensures Ready() && (old(err) ==> err) && (ok ==> !SclUp()) && (!ok ==> SclUp() && SdaUp())
      ensures faults >= old(faults) && script == var s := Turning(old(script), addr); if ok then s else Do(s, End)
      ensures !err ==> ok && slave == StartSend(old(slave).(pending := None))
    {
      if !err { AddressAcked(slave, addr, 1); }
      SendStart();
      ok := true;
      var nak := WriteByte(AddressByte(addr, 1));
      if nak {
        SendStop();
        ok := false;
      }
    }

    /** The data phase of a read: every byte but the last is acknowledged. */
    method ReadBytes(offset: u8, len: nat) returns (buf: Bytes)
      requires Ready() && !SclUp() && offset + len <= 256
      requires !err ==> slave.ptr == offset && slave.pending.None? && Sending(slave, slave.mem[offset])
      modifies this
      ensures Ready() && (old(err) ==> err) && !SclUp()
      ensures faults >= old(faults) && |buf| == len && script == Ins(old(script), len, len)
      ensures !err ==> buf == slave.mem[offset..offset + len] && slave.mem == old(slave.mem) && slave.pending.None?
      ensures !err && len > 0 ==> slave.mode == Off && !slave.low
      ensures !err && len == 0 ==> slave == old(slave)
    {
      buf := [];
      ghost var mem := slave.mem;
      for i := 0 to len
        invariant Ready() && (old(err) ==> err) && !SclUp()
        invariant faults >= old(faults) && |buf| == i && script == Ins(old(script), i, len)
        invariant !err ==> slave.mem == mem && slave.pending.None? && buf == mem[offset..offset + i]
        invariant !err && i < len ==> slave.ptr == offset + i && Sending(slave, mem[offset + i])
        invariant !err && 0 < i == len ==> slave.mode == Off && !slave.low
        invariant !err && i == 0 == len ==> Sending(slave, mem[offset]) && slave == old(slave)
      {
        var v := ReadByte(i + 1 < len, mem[offset + i]);
        buf := buf + [v];
      }
    }

    /** One ACK poll: START, address, STOP. */
    method PollOnce(addr: u8) returns (ack: bool)
      requires Ready() && SclUp() && SdaUp() && (!err ==> !slave.low && slave.present && addr % 128 == slave.addr)
      modifies this
      ensures Ready() && SclUp() && SdaUp() && (old(err) ==> err)
      ensures faults >= old(faults) && script == Poll(old(script), addr)
      ensures !err ==> ack == (old(slave.busy) == 0)
      ensures !err ==> slave == old(slave).(mode := Off, low := false, pending := None,
                                            busy := if old(slave.busy) > 0 then old(slave.busy) - 1 else 0)
    {
      if !err { AddressAcked(slave, addr, 0); }
      SendStart();
      var nak := WriteByte(AddressByte(addr, 0));
      SendStop();
      ack := !nak;
    }

    /** Wait for the internal write cycle by polling the address, at most 50 times. */
    method AckPoll(addr: u8) returns (done: bool, ghost polls: nat)
      requires Ready() && SclUp() && SdaUp() && (!err ==> !slave.low && slave.present && addr % 128 == slave.addr)
      requires !err ==> slave.mode == Off && slave.pending.None?
      modifies this
      ensures Ready() && SclUp() && SdaUp() && (old(err) ==> err)
      ensures faults >= old(faults) && 1 <= polls <= WRITE_POLLS && script == Polls(old(script), addr, polls)
      ensures !err ==> polls == if done then old(slave.busy) + 1 else WRITE_POLLS
      ensures !err ==> done == (old(slave.busy) < WRITE_POLLS)
      ensures !err && done ==> slave == old(slave).(busy := 0)
      ensures !err ==> slave.mem == old(slave.mem) && !slave.low
    {
      ghost var s0 := slave;
      for t := 0 to WRITE_POLLS
        invariant Ready() && SclUp() && SdaUp() && (old(err) ==> err)
        invariant faults >= old(faults) && script == Polls(old(script), addr, t)
        invariant !err ==> s0.busy >= t && slave == s0.(busy := s0.busy - t)
      {
        var ack := PollOnce(addr);
        if err { return false, t + 1; }
        if ack { return true, t + 1; }
      }
      done, polls := false, WRITE_POLLS;
    }

    /** Byte after byte; the first failure ends it. */
    method WriteAll(addr: u8, offset: u8, data: Bytes) returns (st: Status, ghost tries: seq<Try>)
      requires script == Blank && Ready() && SclUp() && SdaUp() && (!err ==> !slave.low) && offset + |data| <= 256
      modifies this
      ensures Ready() && SclUp() && SdaUp() && (old(err) ==> err)
      ensures |tries| <= |data| && TriesOk(tries)
                && (st == OK ==> |tries| == |data| && forall t | t in tries :: Whole(t))
      ensures script == WriteScript(addr, offset, data, tries)
      ensures !err ==> AsAnswered(tries, |data|, Answers(old(slave), addr), old(slave.cycle))
      ensures err && |data| > 0 ==> st == Backend
      ensures |data| == 0 ==> st == OK
      ensures !err && |data| > 0 ==>
                st == if Answers(old(slave), addr) && old(slave.cycle) < WRITE_POLLS then OK else IO
      ensures !err && st == OK ==> slave.mem == Patched(old(slave.mem), offset, data)
    {
      ghost var s0 := slave;
      PatchNone(s0.mem, offset);
      assert data[..0] == [];
      tries := [];
      for i := 0 to |data|
        invariant |tries| == i && (forall t | t in tries :: Whole(t))
        invariant script == WriteScript(addr, offset, data, tries)
        invariant !err ==> forall t | t in tries :: t.polls == s0.cycle + 1
        invariant Ready() && SclUp() && SdaUp() && (old(err) ==> err)
        invariant err ==> i == 0
        invariant !err ==> !slave.low && slave.mem == Patched(s0.mem, offset, data[..i])
        invariant !err ==> Answers(slave, addr) == Answers(s0, addr) && slave.cycle == s0.cycle
        invariant !err && i > 0 ==> Answers(s0, addr) && s0.cycle < WRITE_POLLS
      {
        ghost var t;
        st, t := WriteOne(addr, offset + i, data[i]);
        ScriptStep(addr, offset, data, tries, t);
        tries := tries + [t];
        if st != OK { return; }
        PatchOne(s0.mem, offset, data, i);
      }
      st := OK;
      assert data[..|data|] == data;
    }

    /** One byte written, and its write cycle waited for. */
    method WriteOne(addr: u8, offset: u8, v: u8) returns (st: Status, ghost t: Try)
      requires Ready() && SclUp() && SdaUp() && (!err ==> !slave.low)
      modifies this
      ensures Ready() && SclUp() && SdaUp() && (old(err) ==> err)
      ensures faults >= old(faults) && Lawful(t) && (st == OK ==> Whole(t))
      ensures script == TryScript(old(script), addr, offset, v, t)
      ensures !err ==> t == TryFor(Answers(old(slave), addr), old(slave.cycle))
      ensures err ==> st == Backend
      ensures !err ==> st == if Answers(old(slave), addr) && old(slave.cycle) < WRITE_POLLS then OK else IO
      ensures !err && st == OK ==> slave == old(slave).(mode := Off, low := false, pending := None, ptr := offset,
                                                        mem := old(slave.mem)[offset := v])
    {
      var ok, done;
      ghost var acked, polls;
      ok, acked := PutByte(addr, offset, v);
      t := Try(acked, 0);
      if !ok { return EarlyStatus(err), t; }
      done, polls := AckPoll(addr);
      t := Try(2, polls);
      st := if err then Backend else if !done then IO else OK;
    }

    /** One byte: START, address, offset, data, STOP. */
    method PutByte(addr: u8, offset: u8, v: u8) returns (ok: bool, ghost acked: nat)
      requires Ready() && SclUp() && SdaUp() && (!err ==> !slave.low)
      modifies this
      ensures Ready() && SclUp() && SdaUp() && (old(err) ==> err)
      ensures faults >= old(faults) && acked <= 2 && (ok ==> acked == 2)
      ensures script == PutScript(old(script), addr, offset, v, acked)
      ensures !err ==> ok == Answers(old(slave), addr) && (!ok ==> acked == 0)
      ensures !err && ok ==> slave == old(slave).(mode := Off, low := false, pending := None, ptr := offset,
                                                  busy := slave.cycle, mem := old(slave.mem)[offset := v])
      ensures !err && !ok ==> !slave.low && slave.mem == old(slave.mem)
    {
      ok, acked := Select(addr, offset);
      if !ok { return; }
      var nak := WriteByte(v);
      SendStop();
      ok := !nak;
    }
  }

  /** One byte of a write without register failures. */
  function TryFor(answers: bool, cycle: nat): Try {
    if !answers then Try(0, 0) else Try(2, if cycle < WRITE_POLLS then cycle + 1 else WRITE_POLLS)
  }

  /** A write without register failures: all n bytes, or one if nobody answers or the write cycle is too long. */
  predicate AsAnswered(tries: seq<Try>, n: nat, answers: bool, cycle: nat) {
    && |tries| == (if n == 0 then 0 else if answers && cycle < WRITE_POLLS then n else 1)
    && forall t | t in tries :: t == TryFor(answers, cycle)
  }

  /** A module is there, has this 7-bit address and is not in a write cycle. */
  predicate Answers(s: Slave, addr: u8) { s.present && addr % 128 == s.addr && s.busy == 0 }

  /** The address byte after a START is acknowledged exactly by a module that answers. */
  lemma AddressAcked(s: Slave, addr: u8, rw: nat)
    requires Sized(s) && rw < 2
    ensures var v := 2 * addr % 256 + rw;
            v / 2 == addr % 128 && v % 2 == rw && (Acks(OnStart(s), v) <==> Answers(s, addr))
  {
    SevenBits(addr, rw);
  }

  lemma SevenBits(addr: u8, rw: nat)
    requires rw < 2
    ensures (2 * addr % 256 + rw) / 2 == addr % 128 && (2 * addr % 256 + rw) % 2 == rw
  {}

  /** Status of a transfer that ended early: a latched register failure outranks an apparent NAK. */
  function EarlyStatus(err: bool): Status { if err then Backend else IO }

  /**
   pw_sfp_read. OK means a module answered at that address and these are exactly its bytes
   [offset, offset + len); IO means no module answered; a failed register access always gives
   Backend, never OK and never the IO of an empty cage, and nothing else does. The commanded
   lines make exactly the transfer's START, clock and STOP sequence, even among failures, where
   only the point at which a NAK was seen is open; they end released. A module asked for no bytes
   at all goes on holding SDA down exactly if the top bit of the byte at the offset is 0.
   */
  method SfpRead(port: int, slave: Slave, addr: u8, offset: u8, len: nat, faulty: bool)
    returns (st: Status, buf: Bytes, slave': Slave, ghost log: Log, ghost faults: nat, ghost acked: nat)
    requires Sized(slave) && !slave.low
    ensures Disciplined(log) && Last(log) == IDLE && acked <= 3
    ensures port < 0 || port > 1 || offset + len > 256 ==> st == Inval && slave' == slave && log == Boot
    ensures 0 <= port <= 1 && offset + len <= 256 ==> Events(log) == Wire(ReadScript(addr, offset, len, acked))
    ensures 0 <= port <= 1 && offset + len <= 256 && faults == 0 ==> acked == if Answers(slave, addr) then 3 else 0
    ensures 0 <= port <= 1 && offset + len <= 256 ==>
              st == if faults > 0 then Backend else if Answers(slave, addr) then OK else IO
    ensures st == OK ==> Answers(slave, addr) && offset + len <= 256 && buf == slave.mem[offset..offset + len]
    ensures st == IO ==> !Answers(slave, addr)
    ensures st == Backend ==> faulty
    ensures faults == 0 ==> slave'.mem == slave.mem
    ensures faults == 0 && (len > 0 || st != OK) ==> !slave'.low
    ensures faults == 0 && len == 0 && st == OK ==> (slave'.low <==> !HasBit(slave.mem[offset], 7))
  {
    buf, slave', log, faults, acked := [], slave, Boot, 0, 0;
    if port < 0 || port > 1 { return Inval, buf, slave', log, faults, acked; }
    if offset + len > 256 { return Inval, buf, slave', log, faults, acked; }
    var b := new Bus(port, slave, faulty);
    b.Idle();
    var ok;
    ok, acked := b.Select(addr, offset);
    if !ok { return EarlyStatus(b.err), buf, b.slave, b.log, b.faults, acked; }
    ok := b.Turn(addr);
    if !ok { return EarlyStatus(b.err), buf, b.slave, b.log, b.faults, 2; }
    buf := b.ReadBytes(offset, len);
    b.SendStop();
    st := if b.err then Backend else OK;
    slave', log, faults, acked := b.slave, b.log, b.faults, 3;
  }

  /** mem with d written from offset on. */
  function Patched(mem: Page, offset: nat, d: Bytes): Page
    requires offset + |d| <= 256
  {
    mem[..offset] + d + mem[offset + |d|..]
  }

  lemma PatchNone(mem: Page, offset: nat)
    requires offset <= 256
    ensures Patched(mem, offset, []) == mem
  {}

  lemma PatchOne(mem: Page, offset: nat, d: Bytes, i: nat)
    requires offset + |d| <= 256 && i < |d|
    ensures Patched(mem, offset, d[..i + 1]) == Patched(mem, offset, d[..i])[offset + i := d[i]]
  {}

  /**
   pw_sfp_write. With no failed register access, it succeeds exactly when a module answers and
   finishes each write cycle within 50 polls, and then exactly [offset, offset + len) holds the
   data; a failed access gives Backend whenever there is anything to write. On the wire each byte
   is one transfer followed by its address polls; only the last can have been cut short.
   */
  method SfpWrite(port: int, slave: Slave, addr: u8, offset: u8, data: Bytes, faulty: bool)
    returns (st: Status, slave': Slave, ghost log: Log, ghost faults: nat, ghost tries: seq<Try>)
    requires Sized(slave) && !slave.low
    ensures Disciplined(log) && Last(log) == IDLE
    ensures port < 0 || port > 1 || offset + |data| > 256 ==> st == Inval && slave' == slave && log == Boot
    ensures 0 <= port <= 1 && offset + |data| <= 256 ==>
              |tries| <= |data| && TriesOk(tries) && Events(log) == Wire(WriteScript(addr, offset, data, tries))
    ensures 0 <= port <= 1 && offset + |data| <= 256 && faults == 0 ==>
              AsAnswered(tries, |data|, Answers(slave, addr), slave.cycle)
    ensures 0 <= port <= 1 && offset + |data| <= 256 && st == OK ==>
              |tries| == |data| && forall t | t in tries :: Whole(t)
    ensures 0 <= port <= 1 && offset + |data| <= 256 && |data| > 0 ==>
              st == if faults > 0 then Backend else if Answers(slave, addr) && slave.cycle < WRITE_POLLS then OK else IO
    ensures st == OK && |data| > 0 ==>
              Answers(slave, addr) && offset + |data| <= 256 && slave'.mem == Patched(slave.mem, offset, data)
    ensures st == IO ==> !(Answers(slave, addr) && slave.cycle < WRITE_POLLS)
    ensures st == Backend ==> faulty
    ensures 0 <= port <= 1 && offset + |data| <= 256 && |data| == 0 ==> st == OK
  {
    slave', log, faults, tries := slave, Boot, 0, [];
    if port < 0 || port > 1 { return Inval, slave', log, faults, tries; }
    if offset + |data| > 256 { return Inval, slave', log, faults, tries; }
    var b := new Bus(port, slave, faulty);
    b.Idle();
    st, tries := b.WriteAll(addr, offset, data);
    slave', log, faults := b.slave, b.log, b.faults;
  }
}
