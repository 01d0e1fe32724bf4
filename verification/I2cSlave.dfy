/**
 An ideal SFP EEPROM on an I2C bus: its reaction to START, STOP and clock edges
 (sections 3.1.3 to 3.1.6 of NXP UM10204).
 */
module I2cSlave {
  import opened Basics

  type Page = b: Bytes | |b| == 256 witness seq(256, i => 0)

  datatype Role = Address | Offset | Data

  datatype Mode =
    | Off
    | Recv(role: Role, bits: seq<bool>)
    | AckOut(role: Role, byte: u8)
    | Send(byte: u8, n: nat)
    | AckIn
    | Acked(ack: bool)

  /**
   mem is the 256-byte page; low = the slave pulls SDA down; pending = a data byte received but
   not yet committed by STOP; busy = address polls it will still ignore while its internal write
   cycle runs, which takes `cycle` of them.
   */
  datatype Slave = Slave(present: bool, addr: nat, cycle: nat, mem: Page, ptr: u8, mode: Mode, low: bool,
                         pending: Option<u8>, busy: nat)

  predicate Sized(s: Slave) { (!s.present ==> s.mode == Off && !s.low) }

  /** The k most significant bits of a byte, first sent first. */
  function TopBits(v: u8, k: nat): (b: seq<bool>)
    requires k <= 8
    ensures |b| == k
  {
    if k == 0 then [] else TopBits(v, k - 1) + [HasBit(v, 8 - k)]
  }

  function FromBits(b: seq<bool>): nat {
    if b == [] then 0 else 2 * FromBits(b[..|b| - 1]) + if b[|b| - 1] then 1 else 0
  }

  lemma {:induction false} FromTopBits(v: u8, k: nat)
    requires k <= 8
    ensures FromBits(TopBits(v, k)) == v / Pow2(8 - k)
  {
    if k == 0 {
      assert Pow2(8) == 256;
    } else {
      FromTopBits(v, k - 1);
      var b := TopBits(v, k);
      assert b[..k - 1] == TopBits(v, k - 1);
      assert Pow2(8 - k + 1) == 2 * Pow2(8 - k);
      HalfOf(v, Pow2(8 - k));
    }
  }

  /** The number the k most significant bits of a byte make. */
  function Prefix(x: u8, k: nat): int
    requires k <= 8
  {
    x / Pow2(8 - k)
  }

  lemma WholeBytePrefix(x: u8)
    ensures Prefix(x, 0) == 0 && Prefix(x, 8) == x
  {
    assert Pow2(8) == 256 && Pow2(0) == 1;
  }

  lemma ShiftIn(x: u8, k: nat, v: int, bit: bool)
    requires k < 8 && v == Prefix(x, k) && bit == HasBit(x, 7 - k)
    ensures (2 * v + if bit then 1 else 0) % 256 == Prefix(x, k + 1)
  {
    HalfOf(x, Pow2(7 - k));
    assert Pow2(8 - k) == 2 * Pow2(7 - k);
    PowersOfTwo();
    if k == 0 { assert Pow2(7 - k) == 128; }
    else if k == 1 { assert Pow2(7 - k) == 64; }
    else if k == 2 { assert Pow2(7 - k) == 32; }
    else if k == 3 { assert Pow2(7 - k) == 16; }
    else if k == 4 { assert Pow2(7 - k) == 8; }
    else if k == 5 { assert Pow2(7 - k) == 4; }
    else if k == 6 { assert Pow2(7 - k) == 2; }
    else { assert Pow2(7 - k) == 1; }
  }

  lemma PowersOfTwo()
    ensures Pow2(0) == 1 && Pow2(1) == 2 && Pow2(2) == 4 && Pow2(3) == 8
    ensures Pow2(4) == 16 && Pow2(5) == 32 && Pow2(6) == 64 && Pow2(7) == 128
  {}

  lemma WholeByte(v: u8)
    ensures FromBits(TopBits(v, 8)) == v
  {
    FromTopBits(v, 8);
    assert Pow2(0) == 1;
  }

  // ---- edges ----------------------------------------------------------------------------------------

  function StartSend(s: Slave): Slave {
    s.(mode := Send(s.mem[s.ptr], 0), low := !HasBit(s.mem[s.ptr], 7))
  }

  /** SDA falls while SCL is high. */
  function OnStart(s: Slave): Slave {
    if s.present then s.(mode := Recv(Address, []), low := false, pending := None) else s
  }

  /** SDA rises while SCL is high: a received data byte is now written. */
  function OnStop(s: Slave): Slave {
    if !s.present then s
    else if s.pending.Some? then
      s.(mode := Off, low := false, pending := None, busy := s.cycle, mem := s.mem[s.ptr := s.pending.value])
    else s.(mode := Off, low := false)
  }

  /** SCL rises: a bit is sampled. `sda` is the master's side of the line. */
  function OnRise(s: Slave, sda: bool): Slave {
    match s.mode
    case Recv(role, bits) => if |bits| < 8 then s.(mode := Recv(role, bits + [sda && !s.low])) else s
    case AckIn => s.(mode := Acked(!(sda && !s.low)))
    case _ => s
  }

  predicate Accepts(s: Slave, role: Role, v: nat) { role == Address ==> v / 2 == s.addr && s.busy == 0 }

  /** What follows the acknowledge of a byte. */
  function AfterAck(s: Slave, role: Role, v: u8): Slave {
    match role
    case Address => if v % 2 == 0 then s.(mode := Recv(Offset, []), low := false) else StartSend(s)
    case Offset => s.(mode := Recv(Data, []), low := false, ptr := v)
    case Data => s.(mode := Recv(Data, []), low := false, pending := Some(v))
  }

  function Refuse(s: Slave, role: Role, v: nat): Slave {
    s.(mode := Off, low := false,
       busy := if role == Address && v / 2 == s.addr && s.busy > 0 then s.busy - 1 else s.busy)
  }

  /** SCL falls: the slave changes what it drives. */
  function OnFall(s: Slave): Slave {
    match s.mode
    case Recv(role, bits) =>
      if |bits| != 8 then s
      else
        var v := FromBits(bits);
        if v < 256 && Accepts(s, role, v) then s.(mode := AckOut(role, v), low := true) else Refuse(s, role, v)
    case AckOut(role, v) => AfterAck(s, role, v)
    case Send(v, n) =>
      if n >= 7 then s.(mode := AckIn, low := false) else s.(mode := Send(v, n + 1), low := !HasBit(v, 6 - n))
    case Acked(ack) => if ack then StartSend(s.(ptr := (s.ptr + 1) % 256)) else s.(mode := Off, low := false)
    case _ => s
  }

  /** One clock pulse with the master's SDA steady. */
  function Clock(s: Slave, sda: bool): Slave {
    OnFall(OnRise(s, sda))
  }

  // ---- bytes ------------------------------------------------------------------------------------------

  /** Ready to take a byte from the master, or not taking part. */
  predicate Listening(s: Slave) { Sized(s) && !s.low && (s.mode == Off || (s.mode.Recv? && s.mode.bits == [])) }

  /** The slave acknowledges byte v. */
  predicate Acks(s: Slave, v: u8) { s.mode.Recv? && Accepts(s, s.mode.role, v) }

  /** A listening slave after k of the 8 bits of v. */
  function Got(s: Slave, v: u8, k: nat): Slave
    requires k <= 8
  {
    if !s.mode.Recv? then s
    else if k < 8 then s.(mode := Recv(s.mode.role, TopBits(v, k)))
    else if Acks(s, v) then s.(mode := AckOut(s.mode.role, v), low := true)
    else Refuse(s, s.mode.role, v)
  }

  /** ... and after the acknowledge clock. */
  function AfterByte(s: Slave, v: u8): Slave {
    if !s.mode.Recv? then s
    else if Acks(s, v) then AfterAck(s, s.mode.role, v)
    else Refuse(s, s.mode.role, v)
  }

  /** Each clock carries one bit, most significant first. */
  lemma GotStep(s: Slave, v: u8, k: nat)
    requires Listening(s) && k < 8
    ensures Clock(Got(s, v, k), HasBit(v, 7 - k)) == Got(s, v, k + 1)
  {
    if s.mode.Recv? {
      assert TopBits(v, k + 1) == TopBits(v, k) + [HasBit(v, 7 - k)];
      WholeByte(v);
    }
  }

  /** The ninth clock carries the acknowledge. */
  lemma GotAck(s: Slave, v: u8)
    requires Listening(s)
    ensures Got(s, v, 8).low == Acks(s, v) && OnRise(Got(s, v, 8), true) == Got(s, v, 8)
    ensures OnFall(Got(s, v, 8)) == AfterByte(s, v)
  {}

  /** The slave is sending the byte x, at its first bit. */
  predicate Sending(s: Slave, x: u8) { Sized(s) && s.mode == Send(x, 0) && s.low == !HasBit(x, 7) }

  /** A sending slave after k of the 8 bits. */
  function Sent(s: Slave, x: u8, k: nat): Slave
    requires k <= 8
  {
    if k < 8 then s.(mode := Send(x, k), low := !HasBit(x, 7 - k)) else s.(mode := AckIn, low := false)
  }

  lemma SentStep(s: Slave, x: u8, k: nat, sda: bool)
    requires Sending(s, x) && k < 8
    ensures Clock(Sent(s, x, k), sda) == Sent(s, x, k + 1) && OnRise(Sent(s, x, k), sda) == Sent(s, x, k)
  {}

  /** After the eighth bit the slave waits for the master's acknowledge and goes on, or stops. */
  function AfterSent(s: Slave, ack: bool): Slave {
    if ack then StartSend(s.(ptr := (s.ptr + 1) % 256)) else s.(mode := Off, low := false)
  }

  lemma SentAck(s: Slave, x: u8, ack: bool)
    requires Sending(s, x)
    ensures Clock(Sent(s, x, 8), !ack) == AfterSent(s, ack)
  {}
}
