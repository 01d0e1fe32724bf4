/**
 A card as the host sees it: 32-bit configuration registers and a double-buffered flow table.
 Every operation may fail, and a failed one may have had any effect on what it addressed.
 */
module Device {
  import opened Basics
  import opened CardBuilder
  import opened Registers

  class Card {
    /** num_local_flows as card_info reports it; None when card_info is missing or fails. */
    const info: Option<u16>
    /** Which write operations the backend provides. */
    const hasWrite32: bool
    const hasFlowWrite: bool
    const hasFlowCommit: bool
    /** Provided operations may still answer NotImplemented (a bitstream without the window). */
    const partial: bool
    /** No operation ever faults. */
    const faultless: bool
    /** How many rows the flow table has. */
    const rows: nat

    /** The register file, addressed by word: CSR offset / 4. */
    var regs: RegFile
    var staged: seq<Row>
    var live: seq<Row>

    ghost predicate Ok()
      reads this
    {
      Sized(regs) && |staged| == |live| == rows
    }

    /** All operations are there, and the reported capacity is the number of rows, all within the window. */
    predicate Complete() {
      && hasWrite32 && hasFlowWrite && hasFlowCommit && !partial
      && info.Some? && info.value as int == rows && 0 < rows <= FLOW_TABLE_ROWS
    }

    /** No operation it provides ever fails. */
    predicate Reliable() { faultless && !partial }

    /** The outcomes an operation of this card can have. */
    ghost predicate Possible(st: Status) {
      && (st == NotImplemented ==> partial)
      && (faultless ==> st == OK || st == NotImplemented)
    }

    /** Some outcome this card can have. */
    method Outcome() returns (st: Status)
      ensures Possible(st)
    {
      var missing, fault: bool := *, *;
      st := if partial && missing then NotImplemented else if !faultless && fault then IO else OK;
    }

    /** write32, in the register file's own decoding; a failed write may have delivered any word, or none. */
    method Write32(w: nat, v: Word) returns (st: Status)
      requires Ok() && w < REG_WORDS
      modifies this`regs
      ensures Ok() && Possible(st)
      ensures st == OK ==> regs == Poke(old(regs), w, v)
      ensures w < MAP_W || HASH_END <= w ==> regs == old(regs)
    {
      st := Outcome();
      if st == OK {
        regs := Poke(regs, w, v);
      } else {
        var lost: bool := *;
        var junk: Word := *;
        if !lost { regs := Poke(regs, w, junk); }
      }
    }

    method FlowWrite(row: nat, r: Row) returns (st: Status)
      requires Ok()
      modifies this`staged
      ensures Ok()
      ensures row >= |staged| ==> st == OutOfRange && staged == old(staged)
      ensures row < |staged| ==> Possible(st)
      ensures row < |staged| && st == OK ==> staged == old(staged)[row := r]
      ensures forall j | 0 <= j < |staged| && j != row :: staged[j] == old(staged)[j]
    {
      if row >= |staged| { return OutOfRange; }
      st := Outcome();
      if st == OK {
        staged := staged[row := r];
      } else {
        var junk: Row := *;
        staged := staged[row := junk];
      }
    }

    /** flow_commit: on success the staged table becomes the live one. */
    method FlowCommit() returns (st: Status)
      requires Ok()
      modifies this`live
      ensures Ok() && Possible(st)
      ensures st == OK ==> live == staged
    {
      st := Outcome();
      if st == OK {
        live := staged;
      } else {
        var junk: seq<Row> :| |junk| == |staged|;
        live := junk;
      }
    }
  }
}
