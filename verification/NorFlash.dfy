/**
 A SPI NOR flash chip behind the card's CSR byte engine: what each command does to the chip,
 and the registers through which the host shifts bytes to it.
 */
module NorFlash {
  import opened Basics

  const SECTOR := 0x1_0000
  const PAGE := 256
  const FLASH_SIZE := 0x100_0000
  const BUF_BYTES := 512
  /** RDSR and a byte to clock the status out with. */
  const READ_STATUS: Bytes := [0x05, 0x00]

  /** Commands the chip has executed, in order. */
  datatype Cmd = Wren | ReadStatus(wip: bool) | Read | Erase(addr: nat) | Program(addr: nat, data: Bytes) | Other

  /** wel = write enable latch, wip = write in progress; warm = the first transaction after configuration is over. */
  datatype Chip = Chip(mem: Bytes, wel: bool, wip: bool, warm: bool, log: seq<Cmd>)

  predicate Sized(c: Chip) { |c.mem| == FLASH_SIZE }

  function Addr3(b: Bytes): (a: nat)
    requires |b| >= 4
    ensures a < FLASH_SIZE
  {
    b[1] as int * 0x1_0000 + b[2] as int * 0x100 + b[3]
  }

  // ---- what an ideal chip does to its memory ----------------------------------------------------

  /** Sector erase: every byte of the sector that holds a becomes 0xFF. */
  predicate Erased(m0: Bytes, m1: Bytes, a: nat) {
    && |m0| == |m1|
    && forall j | 0 <= j < |m0| :: m1[j] == if j / SECTOR == a / SECTOR then 0xFF else m0[j]
  }

  /** Address of byte i of a page program: it wraps inside its page. */
  function PageAddr(a: nat, i: nat): nat { a / PAGE * PAGE + (a + i) % PAGE }

  /** Page program of the first n bytes: each clears the bits that are 0 in the data. */
  function PageProgrammed(m: Bytes, a: nat, d: Bytes, n: nat): (r: Bytes)
    requires |m| == FLASH_SIZE && a < FLASH_SIZE && n <= |d|
    ensures |r| == |m|
  {
    if n == 0 then m
    else
      var p := PageProgrammed(m, a, d, n - 1);
      p[PageAddr(a, n - 1) := AndByte(p[PageAddr(a, n - 1)], d[n - 1])]
  }

  // ---- one SPI transaction ------------------------------------------------------------------------

  /** A program or erase is accepted only with the write enable latch set and no write in progress. */
  predicate Accepts(c: Chip) { c.wel && !c.wip }

  /** What shifting tx through the chip may do, and what may come back. */
  predicate Step(ideal: bool, c0: Chip, tx: Bytes, c1: Chip, rx: Bytes) {
    && Sized(c0) && Sized(c1) && |rx| == |tx| && |tx| > 0
    && if !c0.warm then c1 == c0.(warm := true)
       else if tx[0] == 0x06 && |tx| == 1 then
         c1 == c0.(wel := c0.wel || !c0.wip, log := c0.log + [Wren])
       else if tx[0] == 0x05 && |tx| == 2 then
         var wip := rx[1] % 2 == 1;
         c1 == c0.(wip := wip, log := c0.log + [ReadStatus(wip)]) && (wip ==> c0.wip)
       else if tx[0] == 0x03 && |tx| >= 4 then
         && c1 == c0.(log := c0.log + [Read])
         && (!c0.wip ==> forall i | 4 <= i < |tx| :: rx[i] == c0.mem[(Addr3(tx) + i - 4) % FLASH_SIZE])
       else if tx[0] == 0xD8 && |tx| == 4 then
         var log := c0.log + [Erase(Addr3(tx))];
         if Accepts(c0) then
           c1 == Chip(c1.mem, false, true, true, log) && (ideal ==> Erased(c0.mem, c1.mem, Addr3(tx)))
         else c1 == c0.(log := log)
       else if tx[0] == 0x02 && 4 < |tx| <= 4 + PAGE then
         var log := c0.log + [Program(Addr3(tx), tx[4..])];
         if Accepts(c0) then
           && c1 == Chip(c1.mem, false, true, true, log)
           && (ideal ==> c1.mem == PageProgrammed(c0.mem, Addr3(tx), tx[4..], |tx| - 4))
         else c1 == c0.(log := log)
       else c1 == c0.(log := c0.log + [Other])
  }

  // ---- command order --------------------------------------------------------------------------------

  datatype Phase = Ready | Enabled | Waiting | Bad

  /** Erase and program come right after WREN, and then only status reads until WIP is clear. */
  function Advance(p: Phase, c: Cmd): Phase {
    match p
    case Ready => (match c case Wren => Enabled case ReadStatus(_) => Ready case Read => Ready case _ => Bad)
    case Enabled => (match c case Erase(_) => Waiting case Program(_, _) => Waiting case _ => Bad)
    case Waiting => (match c case ReadStatus(w) => if w then Waiting else Ready case _ => Bad)
    case Bad => Bad
  }

  function PhaseAfter(log: seq<Cmd>): Phase {
    if log == [] then Ready else Advance(PhaseAfter(log[..|log| - 1]), log[|log| - 1])
  }

  predicate Disciplined(c: Chip) { PhaseAfter(c.log) != Bad }

  /** One more command. */
  lemma PhaseStep(log: seq<Cmd>, c: Cmd)
    ensures PhaseAfter(log + [c]) == Advance(PhaseAfter(log), c)
  {
    assert (log + [c])[..|log|] == log;
  }

  /** Ready for the next command. */
  predicate AtRest(c: Chip) { Sized(c) && c.warm && !c.wip && PhaseAfter(c.log) == Ready }

  // ---- the byte engine --------------------------------------------------------------------------------

  /** Bytes k of the four lanes of a buffer word. */
  function Lanes(b: Bytes, i: nat): (w: Word)
    requires |b| == BUF_BYTES && i + 4 <= BUF_BYTES
  {
    b[i..i + 4]
  }

  class Engine {
    /** Erase and program work as specified; reads are always faithful. */
    const ideal: bool
    /** Accesses succeed, transactions and writes finish before the host stops polling, the host has memory. */
    const healthy: bool
    var chip: Chip
    var tx: Bytes
    var rx: Bytes
    var len: nat
    /** A transaction is being shifted, and what it will bring back. */
    var shifting: bool
    var answer: Bytes

    ghost predicate Ok()
      reads this
    {
      Sized(chip) && |tx| == |rx| == BUF_BYTES && |answer| <= BUF_BYTES
    }

    /** Some register access fails, or not. */
    method Access() returns (st: Status)
      ensures st == OK || st == Backend
      ensures healthy ==> st == OK
    {
      var fault: bool := *;
      st := if fault && !healthy then Backend else OK;
    }

    method WriteTx(i: nat, d: Word) returns (st: Status)
      requires Ok() && i + 4 <= BUF_BYTES
      modifies this`tx
      ensures Ok()
      ensures st == OK ==> tx == old(tx)[..i] + d + old(tx)[i + 4..]
      ensures healthy ==> st == OK
    {
      st := Access();
      if st == OK { tx := tx[..i] + d + tx[i + 4..]; }
    }

    method WriteLen(n: nat) returns (st: Status)
      modifies this`len
      ensures st == OK ==> len == n
      ensures healthy ==> st == OK
    {
      st := Access();
      if st == OK { len := n; }
    }

    /** The chip's reaction to one transaction. */
    method Transact(t: Bytes) returns (r: Bytes)
      requires Ok() && 0 < |t| <= BUF_BYTES
      modifies this`chip
      ensures Ok() && Step(ideal, old(chip), t, chip, r)
      ensures healthy && t == READ_STATUS && old(chip).warm ==> !chip.wip
    {
      r := seq(|t|, i => 0);
      if !chip.warm {
        chip := chip.(warm := true);
      } else if t[0] == 0x06 && |t| == 1 {
        chip := chip.(wel := chip.wel || !chip.wip, log := chip.log + [Wren]);
      } else if t[0] == 0x05 && |t| == 2 {
        var done: bool := *;
        var wip := chip.wip && !done && !healthy;
        r := r[1 := if wip then 1 else 0];
        chip := chip.(wip := wip, log := chip.log + [ReadStatus(wip)]);
      } else if t[0] == 0x03 && |t| >= 4 {
        if !chip.wip {
          var a, m := Addr3(t), chip.mem;
          r := seq(|t|, i requires 0 <= i < |t| => if i < 4 then 0 else m[(a + i - 4) % FLASH_SIZE]);
        }
        chip := chip.(log := chip.log + [Read]);
      } else {
        Write(t);
      }
    }

    /** Erase, program and unknown commands. */
    method Write(t: Bytes)
      requires Ok() && 0 < |t| <= BUF_BYTES && chip.warm
      requires !(t[0] == 0x06 && |t| == 1) && !(t[0] == 0x05 && |t| == 2) && !(t[0] == 0x03 && |t| >= 4)
      modifies this`chip
      ensures Ok() && Step(ideal, old(chip), t, chip, seq(|t|, i => 0))
    {
      if t[0] == 0xD8 && |t| == 4 {
        var a, m := Addr3(t), chip.mem;
        var log := chip.log + [Erase(a)];
        if chip.wel && !chip.wip {
          var m' := seq(FLASH_SIZE, j requires 0 <= j < FLASH_SIZE => if j / SECTOR == a / SECTOR then 0xFF else m[j]);
          var any: Bytes := *;
          if !ideal && |any| == FLASH_SIZE { m' := any; }
          chip := Chip(m', false, true, true, log);
        } else {
          chip := chip.(log := log);
        }
      } else if t[0] == 0x02 && 4 < |t| <= 4 + PAGE {
        var log := chip.log + [Program(Addr3(t), t[4..])];
        if chip.wel && !chip.wip {
          var m' := PageProgrammed(chip.mem, Addr3(t), t[4..], |t| - 4);
          var any: Bytes := *;
          if !ideal && |any| == FLASH_SIZE { m' := any; }
          chip := Chip(m', false, true, true, log);
        } else {
          chip := chip.(log := log);
        }
      } else {
        chip := chip.(log := chip.log + [Other]);
      }
    }

    /** CTRL.go: shift the first len bytes of the transmit buffer; a failed access may still have started it. */
    method Go() returns (st: Status)
      requires Ok() && 0 < len <= BUF_BYTES && !shifting
      modifies this`chip, this`shifting, this`answer
      ensures Ok()
      ensures st == OK ==> shifting && Step(ideal, old(chip), tx[..len], chip, answer)
      ensures st != OK ==> chip == old(chip) || Step(ideal, old(chip), tx[..len], chip, answer)
      ensures healthy ==> st == OK
      ensures healthy && tx[..len] == READ_STATUS && old(chip).warm ==> !chip.wip
    {
      st := Access();
      var lost: bool := *;
      if st == OK || !lost {
        answer := Transact(tx[..len]);
        shifting := true;
      }
    }

    /** CTRL.busy: when it reads clear the received bytes are in the receive buffer. */
    method Poll() returns (st: Status, busy: bool)
      requires Ok() && shifting
      modifies this`rx, this`shifting
      ensures Ok()
      ensures st == OK && !busy ==> !shifting && rx[..|answer|] == answer
      ensures st == OK && busy ==> shifting
      ensures healthy ==> st == OK && !busy
    {
      st := Access();
      busy := *;
      if healthy { busy := false; }
      if st == OK && !busy {
        rx := answer + rx[|answer|..];
        shifting := false;
      }
    }

    method ReadRx(i: nat) returns (st: Status, d: Word)
      requires Ok() && i + 4 <= BUF_BYTES
      ensures st == OK && !shifting ==> d == Lanes(rx, i)
      ensures healthy ==> st == OK
    {
      st := Access();
      d := *;
      if st == OK && !shifting { d := Lanes(rx, i); }
    }
  }
}
