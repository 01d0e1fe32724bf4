/**
 In-system flash programming (spi_flash.c): transactions over the byte engine, the NOR command
 sequences built from them, and the read-modify-write of an arbitrary range.
 */
module SpiFlash {
  import opened Basics
  import opened NorFlash

  const SPINS := 2_000_000
  const IDLE_POLLS := 4_000_000

  /** The word that carries transmit bytes i..i+3, zero past the end. */
  function TxLanes(tx: Bytes, i: nat): Word {
    [At(tx, i), At(tx, i + 1), At(tx, i + 2), At(tx, i + 3)]
  }

  function At(b: Bytes, i: nat): u8 { if i < |b| then b[i] else 0 }

  /** The transaction took place, with some answer. */
  ghost predicate Happened(ideal: bool, c0: Chip, tx: Bytes, c1: Chip) { exists rx :: Step(ideal, c0, tx, c1, rx) }

  /** Fill the transmit buffer, four bytes a word. */
  method LoadTx(e: Engine, tx: Bytes) returns (st: Status)
    requires e.Ok() && 0 < |tx| <= BUF_BYTES
    modifies e`tx
    ensures e.Ok()
    ensures st == OK ==> e.tx[..|tx|] == tx
    ensures e.healthy ==> st == OK
  {
    var i := 0;
    while i < |tx|
      invariant e.Ok() && i % 4 == 0 && i < |tx| + 4
      invariant forall k | 0 <= k < i && k < |tx| :: e.tx[k] == tx[k]
    {
      st := e.WriteTx(i, TxLanes(tx, i));
      if st != OK { return; }
      i := i + 4;
    }
    st := OK;
  }

  method WaitShifted(e: Engine) returns (st: Status)
    requires e.Ok() && e.shifting
    modifies e`rx, e`shifting
    ensures e.Ok()
    ensures st == OK ==> !e.shifting && e.rx[..|e.answer|] == e.answer
    ensures e.healthy ==> st == OK
  {
    for spin := 0 to SPINS
      invariant e.Ok() && e.shifting
      invariant e.healthy ==> spin == 0
    {
      var busy;
      st, busy := e.Poll();
      if st != OK || !busy { return; }
    }
    st := IO;
  }

  /** Collect the first n received bytes, four a word. */
  method ReadBack(e: Engine, n: nat) returns (st: Status, rx: Bytes)
    requires e.Ok() && !e.shifting && n <= BUF_BYTES
    ensures st == OK ==> rx == e.rx[..n]
    ensures e.healthy ==> st == OK
  {
    rx := [];
    var i := 0;
    while i < n
      invariant i % 4 == 0 && i < n + 4
      invariant rx == e.rx[..if i < n then i else n]
    {
      var d;
      st, d := e.ReadRx(i);
      if st != OK { return; }
      var m := if n - i < 4 then n - i else 4;
      assert d[..m] == e.rx[i..i + m];
      rx := rx + d[..m];
      i := i + 4;
    }
    st := OK;
  }

  /** spi_txn: one transaction, with the received bytes when `want` is set. */
  method SpiTxn(e: Engine, tx: Bytes, want: bool) returns (st: Status, rx: Bytes)
    requires e.Ok() && !e.shifting && 0 < |tx|
    modifies e`chip, e`tx, e`rx, e`len, e`shifting, e`answer
    ensures e.Ok()
    ensures st == OK ==> !e.shifting && Happened(e.ideal, old(e.chip), tx, e.chip)
    ensures st == OK && want ==> Step(e.ideal, old(e.chip), tx, e.chip, rx)
    ensures st != OK ==> e.chip == old(e.chip) || Happened(e.ideal, old(e.chip), tx, e.chip)
    ensures |tx| > BUF_BYTES ==> st == Inval && e.chip == old(e.chip)
    ensures e.healthy && |tx| <= BUF_BYTES ==> st == OK
    ensures e.healthy && tx == READ_STATUS && old(e.chip).warm ==> !e.chip.wip
  {
    rx := [];
    if |tx| > BUF_BYTES { return Inval, []; }
    st := LoadTx(e, tx);
    if st != OK { return; }
    st := e.WriteLen(|tx|);
    if st != OK { return; }
    st := e.Go();
    if st != OK { return; }
    st := WaitShifted(e);
    if st != OK { return; }
    if want {
      st, rx := ReadBack(e, |tx|);
    }
  }

  // ---- the command sequences ---------------------------------------------------------------------

  /** warmup: the first transaction after configuration is lost, so burn one. */
  method Warmup(e: Engine) returns (st: Status)
    requires e.Ok() && !e.shifting && !e.chip.wip && PhaseAfter(e.chip.log) == Ready
    modifies e`chip, e`tx, e`rx, e`len, e`shifting, e`answer
    ensures e.Ok() && Disciplined(e.chip) && e.chip.mem == old(e.chip.mem)
    ensures st == OK ==> !e.shifting && AtRest(e.chip)
    ensures e.healthy ==> st == OK
  {
    var rx;
    st, rx := SpiTxn(e, READ_STATUS, false);
    if e.chip != old(e.chip) { StatusAtRest(e.ideal, old(e.chip), e.chip); }
    else if st == OK { StatusAtRest(e.ideal, old(e.chip), e.chip); }
  }

  /** A status read of an idle chip leaves it idle. */
  lemma StatusAtRest(ideal: bool, c0: Chip, c1: Chip)
    requires Happened(ideal, c0, READ_STATUS, c1) && !c0.wip && PhaseAfter(c0.log) == Ready
    ensures c1.mem == c0.mem && AtRest(c1)
  {
    var rx :| Step(ideal, c0, READ_STATUS, c1, rx);
    if c0.warm { PhaseStep(c0.log, ReadStatus(false)); }
  }

  method WriteEnable(e: Engine) returns (st: Status)
    requires e.Ok() && !e.shifting && AtRest(e.chip)
    modifies e`chip, e`tx, e`rx, e`len, e`shifting, e`answer
    ensures e.Ok() && Disciplined(e.chip) && e.chip.mem == old(e.chip.mem)
    ensures st == OK ==> !e.shifting && e.chip == old(e.chip).(wel := true, log := old(e.chip.log) + [Wren])
    ensures st == OK ==> PhaseAfter(e.chip.log) == Enabled
    ensures e.healthy ==> st == OK
  {
    var rx;
    st, rx := SpiTxn(e, [0x06], false);
    PhaseStep(old(e.chip.log), Wren);
  }

  /** wait_idle: read the status register until WIP is clear. */
  method WaitIdle(e: Engine) returns (st: Status)
    requires e.Ok() && !e.shifting && e.chip.warm && PhaseAfter(e.chip.log) == Waiting
    modifies e`chip, e`tx, e`rx, e`len, e`shifting, e`answer
    ensures e.Ok() && Disciplined(e.chip) && e.chip.mem == old(e.chip.mem)
    ensures st == OK ==> !e.shifting && AtRest(e.chip)
    ensures e.healthy ==> st == OK
  {
    for i := 0 to IDLE_POLLS
      invariant e.Ok() && !e.shifting && e.chip.warm && PhaseAfter(e.chip.log) == Waiting
      invariant e.chip.mem == old(e.chip.mem)
      invariant e.healthy ==> i == 0
    {
      ghost var c0 := e.chip;
      var rx;
      st, rx := SpiTxn(e, READ_STATUS, true);
      if e.chip != c0 || st == OK { StatusWaiting(e.ideal, c0, e.chip); }
      if st != OK { return IO; }
      if rx[1] % 2 == 0 { return; }
    }
    st := IO;
  }

  function Addr(a: nat): (b: Bytes)
    requires a < FLASH_SIZE
    ensures |b| == 3 && forall op: u8, d: Bytes :: Addr3([op] + b + d) == a
  {
    var h := a / 0x100;
    [h / 0x100, h % 0x100, a % 0x100]
  }

  function EraseCmd(a: nat): (t: Bytes)
    requires a < FLASH_SIZE
    ensures |t| == 4 && t[0] == 0xD8 && Addr3(t) == a
  {
    [0xD8] + Addr(a) + []
  }

  function ProgramCmd(a: nat, data: Bytes): (t: Bytes)
    requires a < FLASH_SIZE
    ensures |t| == 4 + |data| && t[0] == 0x02 && Addr3(t) == a && t[4..] == data
  {
    [0x02] + Addr(a) + data
  }

  /** A status read while a write is in progress. */
  lemma StatusWaiting(ideal: bool, c0: Chip, c1: Chip)
    requires Happened(ideal, c0, READ_STATUS, c1) && c0.warm && PhaseAfter(c0.log) == Waiting
    ensures c1.mem == c0.mem && c1.warm && Sized(c1) && PhaseAfter(c1.log) == if c1.wip then Waiting else Ready
  {
    var rx :| Step(ideal, c0, READ_STATUS, c1, rx);
    PhaseStep(c0.log, ReadStatus(c1.wip));
  }

  lemma EraseHappened(ideal: bool, c0: Chip, a: nat, c1: Chip)
    requires a < FLASH_SIZE && Happened(ideal, c0, EraseCmd(a), c1) && c0.warm && Accepts(c0)
    requires PhaseAfter(c0.log) == Enabled
    ensures Sized(c1) && c1.warm && PhaseAfter(c1.log) == Waiting && (ideal ==> Erased(c0.mem, c1.mem, a))
  {
    var rx :| Step(ideal, c0, EraseCmd(a), c1, rx);
    PhaseStep(c0.log, Erase(a));
  }

  lemma ProgramHappened(ideal: bool, c0: Chip, a: nat, data: Bytes, c1: Chip)
    requires a < FLASH_SIZE && 0 < |data| <= PAGE && Happened(ideal, c0, ProgramCmd(a, data), c1)
    requires c0.warm && Accepts(c0) && PhaseAfter(c0.log) == Enabled
    ensures Sized(c1) && c1.warm && PhaseAfter(c1.log) == Waiting
    ensures ideal ==> c1.mem == PageProgrammed(c0.mem, a, data, |data|)
  {
    var rx :| Step(ideal, c0, ProgramCmd(a, data), c1, rx);
    PhaseStep(c0.log, Program(a, data));
  }

  /** sector_erase. */
  method SectorErase(e: Engine, a: nat) returns (st: Status)
    requires e.Ok() && !e.shifting && AtRest(e.chip) && a < FLASH_SIZE
    modifies e`chip, e`tx, e`rx, e`len, e`shifting, e`answer
    ensures e.Ok() && Disciplined(e.chip)
    ensures st == OK ==> !e.shifting && AtRest(e.chip) && (e.ideal ==> Erased(old(e.chip.mem), e.chip.mem, a))
    ensures e.healthy ==> st == OK
  {
    st := WriteEnable(e);
    if st != OK { return; }
    var rx;
    ghost var c0 := e.chip;
    st, rx := SpiTxn(e, EraseCmd(a), false);
    if e.chip != c0 || st == OK { EraseHappened(e.ideal, c0, a, e.chip); }
    if st != OK { return; }
    st := WaitIdle(e);
  }

  /** page_program. */
  method PageProgram(e: Engine, a: nat, data: Bytes) returns (st: Status)
    requires e.Ok() && !e.shifting && AtRest(e.chip) && a < FLASH_SIZE && 0 < |data| <= PAGE
    modifies e`chip, e`tx, e`rx, e`len, e`shifting, e`answer
    ensures e.Ok() && Disciplined(e.chip)
    ensures st == OK ==> !e.shifting && AtRest(e.chip)
    ensures st == OK && e.ideal ==> e.chip.mem == PageProgrammed(old(e.chip.mem), a, data, |data|)
    ensures e.healthy ==> st == OK
  {
    st := WriteEnable(e);
    if st != OK { return; }
    var rx;
    ghost var c0 := e.chip;
    st, rx := SpiTxn(e, ProgramCmd(a, data), false);
    if e.chip != c0 || st == OK { ProgramHappened(e.ideal, c0, a, data, e.chip); }
    if st != OK { return; }
    st := WaitIdle(e);
  }

  /** flash_read. */
  method FlashRead(e: Engine, a: nat, n: nat) returns (st: Status, buf: Bytes)
    requires e.Ok() && !e.shifting && AtRest(e.chip) && a + n <= FLASH_SIZE && 0 < n <= 256
    modifies e`chip, e`tx, e`rx, e`len, e`shifting, e`answer
    ensures e.Ok() && Disciplined(e.chip) && e.chip.mem == old(e.chip.mem)
    ensures st == OK ==> !e.shifting && AtRest(e.chip) && buf == e.chip.mem[a..a + n]
    ensures e.healthy ==> st == OK
  {
    buf := [];
    var rx;
    ghost var c0 := e.chip;
    st, rx := SpiTxn(e, ReadCmd(a, n), true);
    if e.chip != c0 || st == OK { ReadHappened(e.ideal, c0, a, n, e.chip); }
    if st != OK { return; }
    buf := rx[4..];
    ReadIs(e.chip.mem, a, n, rx);
  }

  function ReadCmd(a: nat, n: nat): (t: Bytes)
    requires a < FLASH_SIZE
    ensures |t| == 4 + n && t[0] == 0x03 && Addr3(t) == a
  {
    [0x03] + Addr(a) + seq(n, i => 0)
  }

  lemma ReadHappened(ideal: bool, c0: Chip, a: nat, n: nat, c1: Chip)
    requires a < FLASH_SIZE && Happened(ideal, c0, ReadCmd(a, n), c1) && AtRest(c0)
    ensures c1.mem == c0.mem && AtRest(c1)
  {
    var rx :| Step(ideal, c0, ReadCmd(a, n), c1, rx);
    PhaseStep(c0.log, Read);
  }

  lemma ReadIs(mem: Bytes, a: nat, n: nat, rx: Bytes)
    requires |mem| == FLASH_SIZE && a + n <= FLASH_SIZE && |rx| == n + 4
    requires forall i | 4 <= i < |rx| :: rx[i] == mem[(a + i - 4) % FLASH_SIZE]
    ensures rx[4..] == mem[a..a + n]
  {
    forall i | 0 <= i < n ensures rx[4..][i] == mem[a + i] {
      var k := i + 4;
      assert rx[k] == mem[(a + k - 4) % FLASH_SIZE];
    }
  }

  // ---- ranges ---------------------------------------------------------------------------------------

  /** m1 is m0 with the bytes of d ANDed in from a on, and nothing else changed. */
  predicate AndRange(m0: Bytes, m1: Bytes, a: nat, d: Bytes) {
    && |m0| == |m1| && a + |d| <= |m0|
    && forall j | 0 <= j < |m0| :: m1[j] == if a <= j < a + |d| then And(m0[j], d[j - a]) else m0[j]
  }

  /** A page program that stays inside its page does not wrap. */
  lemma {:induction false} InsidePage(m: Bytes, a: nat, d: Bytes, n: nat)
    requires |m| == FLASH_SIZE && a < FLASH_SIZE && n <= |d| && a % PAGE + n <= PAGE && a + n <= FLASH_SIZE
    ensures AndRange(m, PageProgrammed(m, a, d, n), a, d[..n])
  {
    if n > 0 {
      InsidePage(m, a, d, n - 1);
      assert PageAddr(a, n - 1) == a + n - 1 by {
        assert (a + n - 1) % PAGE == a % PAGE + n - 1;
      }
      var p := PageProgrammed(m, a, d, n - 1);
      assert d[..n][..n - 1] == d[..n - 1];
      forall j | a <= j < a + n - 1 ensures p[j] == And(m[j], d[..n][j - a]) {
        assert d[..n - 1][j - a] == d[..n][j - a];
      }
    }
  }

  lemma AndRangeSplit(m0: Bytes, m1: Bytes, m2: Bytes, a: nat, d: Bytes, p: nat, n: nat)
    requires p + n <= |d| && AndRange(m0, m1, a, d[..p]) && AndRange(m1, m2, a + p, d[p..p + n])
    ensures AndRange(m0, m2, a, d[..p + n])
  {
    forall j | 0 <= j < |m0|
      ensures m2[j] == if a <= j < a + p + n then And(m0[j], d[..p + n][j - a]) else m0[j]
    {
      if a <= j < a + p { assert d[..p][j - a] == d[..p + n][j - a]; }
      if a + p <= j < a + p + n { assert d[p..p + n][j - (a + p)] == d[..p + n][j - a]; }
    }
  }

  /** program_range: page programs that never cross a page boundary. */
  method ProgramRange(e: Engine, a: nat, data: Bytes) returns (st: Status)
    requires e.Ok() && !e.shifting && AtRest(e.chip) && a + |data| <= FLASH_SIZE
    modifies e`chip, e`tx, e`rx, e`len, e`shifting, e`answer
    ensures e.Ok() && Disciplined(e.chip)
    ensures st == OK ==> !e.shifting && AtRest(e.chip)
    ensures st == OK && e.ideal ==> AndRange(old(e.chip.mem), e.chip.mem, a, data)
    ensures e.healthy ==> st == OK
  {
    var p := 0;
    while p < |data|
      invariant p <= |data| && e.Ok() && !e.shifting && AtRest(e.chip)
      invariant e.ideal ==> AndRange(old(e.chip.mem), e.chip.mem, a, data[..p])
      decreases |data| - p
    {
      var pageLeft := PAGE - (a + p) % PAGE;
      var n := if |data| - p > pageLeft then pageLeft else |data| - p;
      ghost var m := e.chip.mem;
      st := PageProgram(e, a + p, data[p..p + n]);
      if st != OK { return; }
      if e.ideal {
        InsidePage(m, a + p, data[p..p + n], n);
        assert data[p..p + n][..n] == data[p..p + n];
        AndRangeSplit(old(e.chip.mem), m, e.chip.mem, a, data, p, n);
      }
      p := p + n;
    }
    st := OK;
    assert data[..p] == data;
  }

  /** flash_read_range: at most 256 bytes a transaction. */
  method FlashReadRange(e: Engine, a: nat, len: nat) returns (st: Status, buf: Bytes)
    requires e.Ok() && !e.shifting && AtRest(e.chip) && a + len <= FLASH_SIZE
    modifies e`chip, e`tx, e`rx, e`len, e`shifting, e`answer
    ensures e.Ok() && Disciplined(e.chip) && e.chip.mem == old(e.chip.mem)
    ensures st == OK ==> !e.shifting && AtRest(e.chip) && buf == e.chip.mem[a..a + len]
    ensures e.healthy ==> st == OK
  {
    buf := [];
    var p := 0;
    while p < len
      invariant p <= len && e.Ok() && !e.shifting && AtRest(e.chip) && e.chip.mem == old(e.chip.mem)
      invariant buf == e.chip.mem[a..a + p]
      decreases len - p
    {
      var n := if len - p < 256 then len - p else 256;
      var b;
      st, b := FlashRead(e, a + p, n);
      if st != OK { return; }
      SliceJoin(e.chip.mem, a, p, n);
      buf := buf + b;
      p := p + n;
    }
    st := OK;
  }

  lemma SliceJoin(m: Bytes, a: nat, p: nat, n: nat)
    requires a + p + n <= |m|
    ensures m[a..a + p] + m[a + p..a + p + n] == m[a..a + p + n]
  {}

  /** Positions at which two byte strings of one length differ. */
  function Diffs(x: Bytes, y: Bytes): nat
    requires |x| == |y|
  {
    if x == [] then 0
    else Diffs(x[..|x| - 1], y[..|y| - 1]) + if x[|x| - 1] != y[|y| - 1] then 1 else 0
  }

  lemma {:induction false} NoDiffs(x: Bytes, y: Bytes)
    requires |x| == |y|
    ensures Diffs(x, y) == 0 <==> x == y
  {
    if x != [] {
      var n := |x| - 1;
      NoDiffs(x[..n], y[..n]);
      assert x == x[..n] + [x[n]] && y == y[..n] + [y[n]];
    }
  }

  lemma {:induction false} DiffsConcat(x: Bytes, y: Bytes, u: Bytes, v: Bytes)
    requires |x| == |y| && |u| == |v|
    ensures Diffs(x + u, y + v) == Diffs(x, y) + Diffs(u, v)
  {
    if u == [] {
      assert x + u == x && y + v == y;
    } else {
      var n := |u| - 1;
      DiffsConcat(x, y, u[..n], v[..n]);
      assert (x + u)[..|x| + n] == x + u[..n] && (y + v)[..|y| + n] == y + v[..n];
    }
  }

  /** How many of the first n bytes of `want` differ from the memory at a. */
  function DiffsAt(mem: Bytes, a: nat, want: Bytes, n: nat): nat
    requires n <= |want| && a + n <= |mem|
  {
    Diffs(mem[a..a + n], want[..n])
  }

  lemma DiffsStep(mem: Bytes, a: nat, want: Bytes, p: nat, n: nat)
    requires p + n <= |want| && a + p + n <= |mem|
    ensures DiffsAt(mem, a, want, p + n) == DiffsAt(mem, a, want, p) + Diffs(mem[a + p..a + p + n], want[p..p + n])
  {
    DiffsConcat(mem[a..a + p], want[..p], mem[a + p..a + p + n], want[p..p + n]);
    SliceJoin(mem, a, p, n);
    assert want[..p] + want[p..p + n] == want[..p + n];
  }

  lemma NoDiffsAt(mem: Bytes, a: nat, want: Bytes)
    requires a + |want| <= |mem|
    ensures DiffsAt(mem, a, want, |want|) == 0 <==> mem[a..a + |want|] == want
  {
    assert want[..|want|] == want;
    NoDiffs(mem[a..a + |want|], want);
  }

  /** The inner loop of the verification: compare one chunk. */
  method CountDiffs(rb: Bytes, want: Bytes) returns (k: nat)
    requires |rb| == |want|
    ensures k == Diffs(rb, want)
  {
    k := 0;
    for i := 0 to |rb|
      invariant k == Diffs(rb[..i], want[..i])
    {
      assert rb[..i + 1][..i] == rb[..i] && want[..i + 1][..i] == want[..i];
      if rb[i] != want[i] { k := k + 1; }
    }
    assert rb[..|rb|] == rb && want[..|rb|] == want;
  }

  /** flash_verify_range: read back and count the differing bytes. */
  method VerifyRange(e: Engine, a: nat, want: Bytes, mism: nat) returns (st: Status, mism': nat)
    requires e.Ok() && !e.shifting && AtRest(e.chip) && a + |want| <= FLASH_SIZE
    modifies e`chip, e`tx, e`rx, e`len, e`shifting, e`answer
    ensures e.Ok() && Disciplined(e.chip) && e.chip.mem == old(e.chip.mem)
    ensures st == OK ==> !e.shifting && AtRest(e.chip)
    ensures st == OK ==> mism' == mism + DiffsAt(e.chip.mem, a, want, |want|)
    ensures e.healthy ==> st == OK
  {
    mism' := mism;
    var p, len := 0, |want|;
    while p < len
      invariant p <= len && e.Ok() && !e.shifting && AtRest(e.chip) && e.chip.mem == old(e.chip.mem)
      invariant mism' == mism + DiffsAt(e.chip.mem, a, want, p)
      decreases len - p
    {
      var n := if len - p < 256 then len - p else 256;
      var rb;
      st, rb := FlashRead(e, a + p, n);
      if st != OK { return; }
      var k := CountDiffs(rb, want[p..p + n]);
      mism' := mism' + k;
      DiffsStep(e.chip.mem, a, want, p, n);
      p := p + n;
    }
    st := OK;
  }

  // ---- pw_flash_program -------------------------------------------------------------------------------

  /** m1 is m0 with the bytes of [lo, hi) erased and nothing else changed. */
  predicate Blanked(m0: Bytes, m1: Bytes, lo: nat, hi: nat) {
    |m0| == |m1| && forall j | 0 <= j < |m0| :: m1[j] == if lo <= j < hi then 0xFF else m0[j]
  }

  /** Programming bytes into an erased range stores them. */
  lemma ProgramErased(m0: Bytes, m1: Bytes, a: nat, d: Bytes)
    requires AndRange(m0, m1, a, d) && forall j | a <= j < a + |d| :: m0[j] == 0xFF
    ensures forall j | a <= j < a + |d| :: m1[j] == d[j - a]
  {
    forall j | a <= j < a + |d| ensures m1[j] == d[j - a] {
      AndComm(0xFF, d[j - a]);
      ByteMask(d[j - a]);
    }
  }

  /** Erase a sector, then put back its first `head` and last `tail` bytes: only the middle is blanked. */
  lemma {:induction false} SectorRewritten(m0: Bytes, m1: Bytes, m2: Bytes, m3: Bytes, a: nat, head: nat, tail: nat)
    requires |m0| == FLASH_SIZE && a % SECTOR == 0 && a + SECTOR <= FLASH_SIZE && head + tail < SECTOR
    requires Erased(m0, m1, a)
    requires AndRange(m1, m2, a, m0[a..a + head])
    requires AndRange(m2, m3, a + SECTOR - tail, m0[a + SECTOR - tail..a + SECTOR])
    ensures Blanked(m0, m3, a + head, a + SECTOR - tail)
  {
    var z := a + SECTOR - tail;
    forall j | a <= j < a + SECTOR ensures m1[j] == 0xFF {
      assert j / SECTOR == a / SECTOR;
    }
    ProgramErased(m1, m2, a, m0[a..a + head]);
    forall j | z <= j < a + SECTOR ensures m2[j] == 0xFF {}
    ProgramErased(m2, m3, z, m0[z..a + SECTOR]);
    forall j | 0 <= j < |m0| ensures m3[j] == if a + head <= j < z then 0xFF else m0[j] {
      if a <= j < a + head { assert m0[a..a + head][j - a] == m0[j]; }
      if z <= j < a + SECTOR { assert m0[z..a + SECTOR][j - z] == m0[j]; }
      if j < a || a + SECTOR <= j { assert j / SECTOR != a / SECTOR; }
    }
  }

  /** The preserved bytes of a sector, back to back. */
  method ReadKeep(e: Engine, a: nat, head: nat, end: nat, tail: nat) returns (st: Status, keep: Bytes)
    requires e.Ok() && !e.shifting && AtRest(e.chip) && a + head <= FLASH_SIZE && end + tail <= FLASH_SIZE
    modifies e`chip, e`tx, e`rx, e`len, e`shifting, e`answer
    ensures e.Ok() && Disciplined(e.chip) && e.chip.mem == old(e.chip.mem)
    ensures st == OK ==> !e.shifting && AtRest(e.chip)
    ensures st == OK ==> |keep| == head + tail
    ensures st == OK ==> keep[..head] == e.chip.mem[a..a + head] && keep[head..] == e.chip.mem[end..end + tail]
    ensures e.healthy ==> st == OK
  {
    st, keep := FlashReadRange(e, a, head);
    if st == OK && tail > 0 {
      var more;
      st, more := FlashReadRange(e, end, tail);
      keep := keep + more;
    }
  }

  /** Program the preserved bytes back. */
  method WriteKeep(e: Engine, a: nat, head: nat, end: nat, tail: nat, keep: Bytes)
    returns (st: Status, ghost mid: Bytes)
    requires e.Ok() && !e.shifting && AtRest(e.chip) && a + head <= FLASH_SIZE && end + tail <= FLASH_SIZE
    requires |keep| == head + tail
    modifies e`chip, e`tx, e`rx, e`len, e`shifting, e`answer
    ensures e.Ok() && Disciplined(e.chip)
    ensures st == OK ==> !e.shifting && AtRest(e.chip)
    ensures st == OK && e.ideal ==>
              AndRange(old(e.chip.mem), mid, a, keep[..head]) && AndRange(mid, e.chip.mem, end, keep[head..])
    ensures e.healthy ==> st == OK
  {
    st := OK;
    if head > 0 { st := ProgramRange(e, a, keep[..head]); }
    mid := e.chip.mem;
    if st == OK && tail > 0 { st := ProgramRange(e, end, keep[head..]); }
  }

  /** Read back what was preserved before and after the target range; differences are added to the count. */
  method VerifyKeep(e: Engine, a: nat, head: nat, end: nat, tail: nat, keep: Bytes, mism: nat)
    returns (st: Status, mism': nat)
    requires e.Ok() && !e.shifting && AtRest(e.chip) && a + head <= FLASH_SIZE && end + tail <= FLASH_SIZE
    requires |keep| == head + tail
    modifies e`chip, e`tx, e`rx, e`len, e`shifting, e`answer
    ensures e.Ok() && Disciplined(e.chip) && e.chip.mem == old(e.chip.mem)
    ensures st == OK ==> !e.shifting && AtRest(e.chip)
    ensures st == OK ==> mism' >= mism
    ensures st == OK ==>
              (mism' == mism <==>
               e.chip.mem[a..a + head] == keep[..head] && e.chip.mem[end..end + tail] == keep[head..])
    ensures e.healthy ==> st == OK
  {
    st, mism' := OK, mism;
    NoDiffsAt(e.chip.mem, a, keep[..head]);
    NoDiffsAt(e.chip.mem, end, keep[head..]);
    if head > 0 { st, mism' := VerifyRange(e, a, keep[..head], mism'); }
    if st == OK && tail > 0 { st, mism' := VerifyRange(e, end, keep[head..], mism'); }
  }

  /** Read-modify-write of a sector the range covers only in part. */
  method RewriteSector(e: Engine, a: nat, head: nat, tail: nat, mism: nat) returns (st: Status, mism': nat)
    requires e.Ok() && !e.shifting && AtRest(e.chip)
    requires a % SECTOR == 0 && a + SECTOR <= FLASH_SIZE && head + tail < SECTOR
    modifies e`chip, e`tx, e`rx, e`len, e`shifting, e`answer
    ensures e.Ok() && Disciplined(e.chip)
    ensures st == OK ==> !e.shifting && AtRest(e.chip) && mism' >= mism
    ensures st == OK && e.ideal ==> Blanked(old(e.chip.mem), e.chip.mem, a + head, a + SECTOR - tail) && mism' == mism
    ensures e.healthy ==> st == OK
  {
    mism' := mism;
    var nomem: bool := *;
    if nomem && !e.healthy { return NoResources, mism; }
    var end := a + SECTOR - tail;
    ghost var m0 := e.chip.mem;
    var keep;
    st, keep := ReadKeep(e, a, head, end, tail);
    if st != OK { return; }
    st := SectorErase(e, a);
    if st != OK { return; }
    ghost var m1, m2 := e.chip.mem, [];
    st, m2 := WriteKeep(e, a, head, end, tail, keep);
    if st != OK { return; }
    st, mism' := VerifyKeep(e, a, head, end, tail, keep, mism);
    if st == OK && e.ideal {
      SectorRewritten(m0, m1, m2, e.chip.mem, a, head, tail);
      assert e.chip.mem[a..a + head] == m0[a..a + head];
      assert e.chip.mem[end..end + tail] == m0[end..end + tail];
    }
  }

  /** One sector of the range: erased outright when fully covered, rewritten otherwise. */
  method BlankSector(e: Engine, a: nat, offset: nat, end: nat, mism: nat) returns (st: Status, mism': nat)
    requires e.Ok() && !e.shifting && AtRest(e.chip)
    requires a % SECTOR == 0 && a < end <= FLASH_SIZE && offset < a + SECTOR && offset < end
    modifies e`chip, e`tx, e`rx, e`len, e`shifting, e`answer
    ensures e.Ok() && Disciplined(e.chip)
    ensures st == OK ==> !e.shifting && AtRest(e.chip) && mism' >= mism
    ensures st == OK && e.ideal ==>
              Blanked(old(e.chip.mem), e.chip.mem, Max(a, offset), Min(a + SECTOR, end)) && mism' == mism
    ensures e.healthy ==> st == OK
  {
    mism' := mism;
    var head := if a < offset then offset - a else 0;
    var tail := if a + SECTOR > end then a + SECTOR - end else 0;
    if head == 0 && tail == 0 {
      st := SectorErase(e, a);
    } else {
      st, mism' := RewriteSector(e, a, head, tail, mism);
    }
  }

  /** Every sector the range touches: the range is blank, everything else as it was. */
  method BlankRange(e: Engine, offset: nat, end: nat) returns (st: Status, mism: nat)
    requires e.Ok() && !e.shifting && AtRest(e.chip) && offset < end <= FLASH_SIZE
    modifies e`chip, e`tx, e`rx, e`len, e`shifting, e`answer
    ensures e.Ok() && Disciplined(e.chip)
    ensures st == OK ==> !e.shifting && AtRest(e.chip)
    ensures st == OK && e.ideal ==> Blanked(old(e.chip.mem), e.chip.mem, offset, end) && mism == 0
    ensures e.healthy ==> st == OK
  {
    mism := 0;
    var a := offset - offset % SECTOR;
    while a < end
      invariant a % SECTOR == 0 && a < end + SECTOR && offset < a + SECTOR
      invariant e.Ok() && !e.shifting && AtRest(e.chip)
      invariant e.ideal ==> Blanked(old(e.chip.mem), e.chip.mem, offset, Max(offset, Min(a, end))) && mism == 0
      decreases end - a
    {
      st, mism := BlankSector(e, a, offset, end, mism);
      if st != OK { return; }
      a := a + SECTOR;
    }
    st := OK;
  }

  /** m0 with data written at offset. */
  function Patched(m0: Bytes, offset: nat, data: Bytes): Bytes
    requires offset + |data| <= |m0|
  {
    m0[..offset] + data + m0[offset + |data|..]
  }

  lemma PatchedBy(m0: Bytes, m1: Bytes, m2: Bytes, offset: nat, data: Bytes)
    requires Blanked(m0, m1, offset, offset + |data|) && AndRange(m1, m2, offset, data)
    ensures m2 == Patched(m0, offset, data) && m2[offset..offset + |data|] == data
  {
    ProgramErased(m1, m2, offset, data);
  }

  /**
   pw_flash_program. On an ideal chip success means the target range holds the data, every other
   byte of the flash is unchanged, and the reported mismatch is 0. On a chip whose erase and
   program may do anything, success with mismatch 0 still means the range holds the data. In
   every run, with any failures, erase and program commands are preceded by WREN and followed by
   a wait for WIP to clear.
   */
  method FlashProgram(e: Engine, offset: u32, data: Bytes) returns (st: Status, mismatch: nat)
    requires e.Ok() && !e.shifting && !e.chip.wip && PhaseAfter(e.chip.log) == Ready
    modifies e`chip, e`tx, e`rx, e`len, e`shifting, e`answer
    ensures e.Ok() && Disciplined(e.chip)
    ensures |data| == 0 ==> st == Inval
    ensures |data| > 0 && offset + |data| > FLASH_SIZE ==> st == OutOfRange
    ensures |data| == 0 || offset + |data| > FLASH_SIZE ==> e.chip == old(e.chip)
    ensures st == OK ==> 0 < |data| && offset + |data| <= FLASH_SIZE
    ensures st == OK && e.ideal ==> e.chip.mem == Patched(old(e.chip.mem), offset, data) && mismatch == 0
    ensures st == OK && mismatch == 0 ==> e.chip.mem[offset..offset + |data|] == data
    ensures e.healthy && 0 < |data| && offset + |data| <= FLASH_SIZE ==> st == OK
  {
    mismatch := 0;
    if |data| == 0 { return Inval, 0; }
    if offset >= FLASH_SIZE || |data| > FLASH_SIZE || offset + |data| > FLASH_SIZE { return OutOfRange, 0; }
    ghost var m0 := e.chip.mem;
    st := Warmup(e);
    if st != OK { return; }
    var mism;
    st, mism := BlankRange(e, offset, offset + |data|);
    if st != OK { return; }
    ghost var m1 := e.chip.mem;
    st := ProgramRange(e, offset, data);
    if st != OK { return; }
    st, mism := VerifyRange(e, offset, data, mism);
    if st != OK { return; }
    mismatch := mism;
    NoDiffsAt(e.chip.mem, offset, data);
    if e.ideal { PatchedBy(m0, m1, e.chip.mem, offset, data); }
  }
}
