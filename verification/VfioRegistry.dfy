/**
 The shared IOMMU-group registry (vfio.c): one group and container per IOMMU group, counted
 references from device handles, and the IOVA allocator of each container.
 */
module VfioRegistry {
  import opened Basics

  const MAX_GROUPS := 16
  const IOVA_BASE := 0x1_0000_0000
  const TOP := 0x1_0000_0000_0000_0000

  /** struct vfio_group_slot. */
  datatype Slot = Slot(groupNo: int, groupFd: int, containerFd: int, iovaNext: u64, refcount: nat)

  /** struct pw_vfio_handle; slot is the registry index plus one, 0 = none. */
  datatype Handle = Handle(deviceFd: int, groupFd: int, containerFd: int, slot: nat, mapped: bool)

  const CLOSED := Handle(-1, -1, -1, 0, false)

  /** What an open file descriptor of the process is for. */
  datatype Owner = Group(slot: nat) | Container(slot: nat) | Device(handle: nat)

  /** A DMA range handed out in the container opened as number `epoch`. */
  datatype Grant = Grant(epoch: nat, iova: nat, len: nat)

  predicate Apart(a: Grant, b: Grant) { a.iova + a.len <= b.iova || b.iova + b.len <= a.iova }

  /** Handles that refer to registry slot s. */
  function Refs(hs: seq<Handle>, s: nat): nat {
    if hs == [] then 0 else Refs(hs[..|hs| - 1], s) + if hs[|hs| - 1].slot == s + 1 then 1 else 0
  }

  function RefersTo(h: Handle, s: nat): int { if h.slot == s + 1 then 1 else 0 }

  lemma {:induction false} RefsUpdate(hs: seq<Handle>, i: nat, h: Handle, s: nat)
    requires i < |hs|
    ensures Refs(hs[i := h], s) == Refs(hs, s) - RefersTo(hs[i], s) + RefersTo(h, s)
  {
    var n := |hs| - 1;
    if i < n {
      RefsUpdate(hs[..n], i, h, s);
      assert hs[i := h][..n] == hs[..n][i := h];
    } else {
      assert hs[i := h][..n] == hs[..n];
    }
  }

  lemma {:induction false} RefsPositive(hs: seq<Handle>, i: nat, s: nat)
    requires i < |hs| && hs[i].slot == s + 1
    ensures Refs(hs, s) > 0
  {
    if i < |hs| - 1 { RefsPositive(hs[..|hs| - 1], i, s); }
  }

  lemma {:induction false} NoRefs(hs: seq<Handle>, s: nat)
    requires forall i | 0 <= i < |hs| :: hs[i] == CLOSED
    ensures Refs(hs, s) == 0
  {
    if hs != [] { NoRefs(hs[..|hs| - 1], s); }
  }

  lemma {:induction false} RefsSplit(hs: seq<Handle>, lost: seq<Handle>, s: nat)
    ensures Refs(hs + lost, s) == Refs(hs, s) + Refs(lost, s)
  {
    if lost == [] {
      assert hs + lost == hs;
    } else {
      var n := |lost| - 1;
      RefsSplit(hs, lost[..n], s);
      assert (hs + lost)[..|hs + lost| - 1] == hs + lost[..n];
    }
  }

  lemma {:induction false} RefsNone(hs: seq<Handle>, s: nat)
    ensures Refs(hs, s) == 0 <==> forall i | 0 <= i < |hs| :: hs[i].slot != s + 1
  {
    if hs != [] { RefsNone(hs[..|hs| - 1], s); }
  }

  /**
   The registry, all handles ever filled in and not closed, and the process's open descriptors;
   which opening of a container each slot holds, how many openings there were, and every DMA range handed out.
   */
  datatype State = State(slots: seq<Slot>, handles: seq<Handle>, fds: map<int, Owner>,
                         epochs: seq<nat>, births: nat, grants: seq<Grant>)

  /** Slot i has its group and container open: it is referred to, or just being opened. */
  predicate Live(s: State, i: nat, pending: Option<nat>)
    requires i < |s.slots|
  {
    s.slots[i].refcount > 0 || pending == Some(i)
  }

  predicate Owns(fds: map<int, Owner>, fd: int, o: Owner) { fd in fds && fds[fd] == o }

  predicate SlotOk(s: State, i: nat, pending: Option<nat>)
    requires i < |s.slots|
  {
    && s.slots[i].refcount == Refs(s.handles, i)
    && (Live(s, i, pending) ==>
        Owns(s.fds, s.slots[i].groupFd, Group(i)) && Owns(s.fds, s.slots[i].containerFd, Container(i)))
  }

  predicate HandleOk(s: State, h: nat)
    requires h < |s.handles| && |s.slots| == MAX_GROUPS
  {
    var x := s.handles[h];
    if x.slot == 0 then x == CLOSED
    else
      && x.slot <= MAX_GROUPS
      && x.groupFd == s.slots[x.slot - 1].groupFd && x.containerFd == s.slots[x.slot - 1].containerFd
      && Owns(s.fds, x.deviceFd, Device(h))
  }

  /** An open descriptor is in use by whoever it is said to be for: nothing leaks. */
  predicate FdOk(s: State, fd: int, pending: Option<nat>)
    requires fd in s.fds
  {
    && fd >= 0
    && match s.fds[fd]
       case Group(i) => i < |s.slots| && Live(s, i, pending) && s.slots[i].groupFd == fd
       case Container(i) => i < |s.slots| && Live(s, i, pending) && s.slots[i].containerFd == fd
       case Device(h) => h < |s.handles| && s.handles[h].slot != 0 && s.handles[h].deviceFd == fd
  }

  /** No IOMMU group is open twice. */
  predicate OneSlotPerGroup(s: State, pending: Option<nat>) {
    forall i, j | 0 <= i < j < |s.slots| && Live(s, i, pending) && Live(s, j, pending) ::
      s.slots[i].groupNo != s.slots[j].groupNo
  }

  predicate TablesOk(s: State, pending: Option<nat>) {
    && |s.slots| == MAX_GROUPS
    && (forall i | 0 <= i < |s.slots| :: SlotOk(s, i, pending))
    && (forall h | 0 <= h < |s.handles| :: HandleOk(s, h))
    && (forall fd | fd in s.fds :: FdOk(s, fd, pending))
    && OneSlotPerGroup(s, pending)
  }

  /** Every range of this epoch lies below the allocator. */
  predicate Below(grants: seq<Grant>, epoch: nat, top: nat) {
    forall g | 0 <= g < |grants| && grants[g].epoch == epoch :: top > 0 && grants[g].iova + grants[g].len <= top
  }

  predicate AllocOk(s: State, i: nat, pending: Option<nat>, page: nat)
    requires i < |s.slots| == |s.epochs| && page > 0
  {
    Live(s, i, pending) ==>
      && s.epochs[i] < s.births && Below(s.grants, s.epochs[i], s.slots[i].iovaNext)
      && (s.slots[i].iovaNext == 0 || (s.slots[i].iovaNext >= IOVA_BASE && s.slots[i].iovaNext % page == 0))
  }

  /** All ranges of one container are page-aligned and pairwise disjoint. */
  predicate GrantsOk(grants: seq<Grant>, births: nat, page: nat)
    requires page > 0
  {
    && (forall g | 0 <= g < |grants| :: grants[g].len > 0 && grants[g].iova % page == 0 && grants[g].epoch < births)
    && (forall a, b | 0 <= a < b < |grants| && grants[a].epoch == grants[b].epoch :: Apart(grants[a], grants[b]))
  }

  predicate DmaOk(s: State, pending: Option<nat>, page: nat) {
    && page > 0 && IOVA_BASE % page == 0 && |s.epochs| == |s.slots|
    && (forall i | 0 <= i < |s.slots| :: AllocOk(s, i, pending, page))
    && (forall i, j | 0 <= i < j < |s.slots| && Live(s, i, pending) && Live(s, j, pending) ::
        s.epochs[i] != s.epochs[j])
    && GrantsOk(s.grants, s.births, page)
  }

  predicate Ok(s: State, pending: Option<nat>, page: nat) { TablesOk(s, pending) && DmaOk(s, pending, page) }

  // ---- transitions ----------------------------------------------------------------------------------

  /** A group and container were opened into free slot gi. */
  function Filled(s: State, gi: nat, grp: int, gfd: int, cfd: int): State
    requires gi < |s.slots| == |s.epochs|
  {
    s.(slots := s.slots[gi := Slot(grp, gfd, cfd, 0, 0)], fds := s.fds[cfd := Container(gi)][gfd := Group(gi)],
       epochs := s.epochs[gi := s.births], births := s.births + 1)
  }

  lemma FilledTables(s: State, gi: nat, grp: int, gfd: int, cfd: int, page: nat)
    requires Ok(s, None, page) && gi < |s.slots| && s.slots[gi].refcount == 0
    requires forall i | 0 <= i < |s.slots| && s.slots[i].refcount > 0 :: s.slots[i].groupNo != grp
    requires gfd >= 0 && cfd >= 0 && cfd !in s.fds && gfd !in s.fds && gfd != cfd
    ensures TablesOk(Filled(s, gi, grp, gfd, cfd), Some(gi))
  {
    var t := Filled(s, gi, grp, gfd, cfd);
    forall i | 0 <= i < |t.slots| ensures SlotOk(t, i, Some(gi)) { assert SlotOk(s, i, None); }
    assert SlotOk(s, gi, None);
    forall h | 0 <= h < |t.handles| ensures HandleOk(t, h) {
      assert HandleOk(s, h);
      if s.handles[h].slot == gi + 1 { RefsPositive(s.handles, h, gi); }
    }
    forall fd | fd in t.fds ensures FdOk(t, fd, Some(gi)) {
      if fd != gfd && fd != cfd { assert FdOk(s, fd, None); }
    }
  }

  lemma FilledDma(s: State, gi: nat, grp: int, gfd: int, cfd: int, page: nat)
    requires Ok(s, None, page) && gi < |s.slots| && s.slots[gi].refcount == 0
    ensures DmaOk(Filled(s, gi, grp, gfd, cfd), Some(gi), page)
  {
    var t := Filled(s, gi, grp, gfd, cfd);
    forall i | 0 <= i < |t.slots| ensures AllocOk(t, i, Some(gi), page) {
      assert AllocOk(s, i, None, page);
    }
    forall i | 0 <= i < |t.slots| && i != gi && Live(t, i, Some(gi)) ensures t.epochs[i] != t.epochs[gi] {
      assert AllocOk(s, i, None, page);
    }
  }

  /** Handle hi got a device descriptor from group gi. */
  function Attached(s: State, gi: nat, hi: nat, dfd: int): State
    requires gi < |s.slots| && hi < |s.handles|
  {
    var g := s.slots[gi];
    s.(slots := s.slots[gi := g.(refcount := g.refcount + 1)],
       handles := s.handles[hi := Handle(dfd, g.groupFd, g.containerFd, gi + 1, false)],
       fds := s.fds[dfd := Device(hi)])
  }

  lemma AttachedOk(s: State, pending: Option<nat>, gi: nat, hi: nat, dfd: int, page: nat)
    requires Ok(s, pending, page) && gi < |s.slots| && hi < |s.handles| && s.handles[hi].slot == 0
    requires Live(s, gi, pending) && (pending == None || pending == Some(gi)) && dfd >= 0 && dfd !in s.fds
    ensures Ok(Attached(s, gi, hi, dfd), None, page)
  {
    var t := Attached(s, gi, hi, dfd);
    forall i | 0 <= i < |t.slots| ensures SlotOk(t, i, None) {
      assert SlotOk(s, i, pending);
      RefsUpdate(s.handles, hi, t.handles[hi], i);
    }
    forall h | 0 <= h < |t.handles| ensures HandleOk(t, h) { assert HandleOk(s, h); }
    forall fd | fd in t.fds ensures FdOk(t, fd, None) {
      if fd != dfd { assert FdOk(s, fd, pending); }
    }
    forall i | 0 <= i < |t.slots| ensures AllocOk(t, i, None, page) { assert AllocOk(s, i, pending, page); }
  }

  /** The device could not be had: the just-opened group is closed again. */
  function Dropped(s: State, gi: nat): State
    requires gi < |s.slots|
  {
    var g := s.slots[gi];
    s.(slots := s.slots[gi := g.(groupNo := -1)], fds := s.fds - {g.groupFd} - {g.containerFd})
  }

  lemma DroppedOk(s: State, gi: nat, page: nat)
    requires Ok(s, Some(gi), page) && gi < |s.slots| && s.slots[gi].refcount == 0
    ensures Ok(Dropped(s, gi), None, page)
  {
    var t := Dropped(s, gi);
    assert SlotOk(s, gi, Some(gi));
    forall i | 0 <= i < |t.slots| ensures SlotOk(t, i, None) { assert SlotOk(s, i, Some(gi)); }
    forall h | 0 <= h < |t.handles| ensures HandleOk(t, h) { assert HandleOk(s, h); }
    forall fd | fd in t.fds ensures FdOk(t, fd, None) { assert FdOk(s, fd, Some(gi)); }
    forall i | 0 <= i < |t.slots| ensures AllocOk(t, i, None, page) { assert AllocOk(s, i, Some(gi), page); }
  }

  /** Handle hi, still open, was overwritten: what it referred to stays open, and nobody can close it any more. */
  function Orphaned(s: State, hi: nat): State
    requires hi < |s.handles|
  {
    s.(handles := s.handles[hi := CLOSED] + [s.handles[hi]],
       fds := s.fds[s.handles[hi].deviceFd := Device(|s.handles|)])
  }

  lemma OrphanedOk(s: State, hi: nat, page: nat)
    requires Ok(s, None, page) && hi < |s.handles| && s.handles[hi].slot != 0
    ensures Ok(Orphaned(s, hi), None, page)
  {
    var t, x := Orphaned(s, hi), s.handles[hi];
    assert HandleOk(s, hi);
    forall i | 0 <= i < |t.slots| ensures SlotOk(t, i, None) {
      assert SlotOk(s, i, None);
      RefsUpdate(s.handles, hi, CLOSED, i);
      assert (s.handles[hi := CLOSED] + [x])[..|s.handles|] == s.handles[hi := CLOSED];
    }
    forall h | 0 <= h < |t.handles| ensures HandleOk(t, h) { if h < |s.handles| { assert HandleOk(s, h); } }
    forall fd | fd in t.fds ensures FdOk(t, fd, None) { if fd != x.deviceFd { assert FdOk(s, fd, None); } }
    forall i | 0 <= i < |t.slots| ensures AllocOk(t, i, None, page) { assert AllocOk(s, i, None, page); }
  }

  /** The allocator of slot gi was set up. */
  function Based(s: State, gi: nat): State
    requires gi < |s.slots|
  {
    s.(slots := s.slots[gi := s.slots[gi].(iovaNext := NextIova(s.slots[gi]))])
  }

  lemma BasedOk(s: State, gi: nat, page: nat)
    requires Ok(s, None, page) && gi < |s.slots|
    ensures Ok(Based(s, gi), None, page)
  {
    var t := Based(s, gi);
    forall i | 0 <= i < |t.slots| ensures SlotOk(t, i, None) { assert SlotOk(s, i, None); }
    forall h | 0 <= h < |t.handles| ensures HandleOk(t, h) { assert HandleOk(s, h); }
    forall fd | fd in t.fds ensures FdOk(t, fd, None) { assert FdOk(s, fd, None); }
    forall i | 0 <= i < |t.slots| ensures AllocOk(t, i, None, page) { assert AllocOk(s, i, None, page); }
  }

  /** Handle hi was closed; the last one out closes the group. */
  function Released(s: State, hi: nat): State
    requires hi < |s.handles| && 0 < s.handles[hi].slot <= |s.slots|
    requires s.slots[s.handles[hi].slot - 1].refcount > 0
  {
    var gi := s.handles[hi].slot - 1;
    var g := s.slots[gi];
    var f := s.fds - {s.handles[hi].deviceFd};
    if g.refcount == 1 then
      s.(slots := s.slots[gi := Slot(-1, -1, -1, 0, 0)], handles := s.handles[hi := CLOSED],
         fds := f - {g.groupFd} - {g.containerFd})
    else
      s.(slots := s.slots[gi := g.(refcount := g.refcount - 1)], handles := s.handles[hi := CLOSED], fds := f)
  }

  lemma Releasable(s: State, hi: nat, page: nat)
    requires Ok(s, None, page) && hi < |s.handles| && s.handles[hi].slot != 0
    ensures s.handles[hi].slot <= MAX_GROUPS && s.slots[s.handles[hi].slot - 1].refcount > 0
    ensures SlotOk(s, s.handles[hi].slot - 1, None) && HandleOk(s, hi)
  {
    assert HandleOk(s, hi);
    assert SlotOk(s, s.handles[hi].slot - 1, None);
    RefsPositive(s.handles, hi, s.handles[hi].slot - 1);
  }

  lemma ReleasedSlot(s: State, hi: nat, i: nat, page: nat)
    requires Ok(s, None, page) && hi < |s.handles| && s.handles[hi].slot != 0 && i < |s.slots|
    requires s.handles[hi].slot <= MAX_GROUPS && s.slots[s.handles[hi].slot - 1].refcount > 0
    ensures SlotOk(Released(s, hi), i, None)
  {
    assert HandleOk(s, hi) && SlotOk(s, s.handles[hi].slot - 1, None);
    assert SlotOk(s, i, None);
    RefsUpdate(s.handles, hi, CLOSED, i);
  }

  lemma ReleasedHandle(s: State, hi: nat, h: nat, page: nat)
    requires Ok(s, None, page) && hi < |s.handles| && s.handles[hi].slot != 0 && h < |s.handles|
    requires s.handles[hi].slot <= MAX_GROUPS && s.slots[s.handles[hi].slot - 1].refcount > 0
    ensures HandleOk(Released(s, hi), h)
  {
    var gi := s.handles[hi].slot - 1;
    assert HandleOk(s, hi) && SlotOk(s, gi, None) && HandleOk(s, h);
    if h != hi && s.handles[h].slot == gi + 1 {
      RefsUpdate(s.handles, hi, CLOSED, gi);
      RefsPositive(s.handles[hi := CLOSED], h, gi);
    }
  }

  lemma ReleasedTables(s: State, hi: nat, page: nat)
    requires Ok(s, None, page) && hi < |s.handles| && s.handles[hi].slot != 0
    requires s.handles[hi].slot <= MAX_GROUPS && s.slots[s.handles[hi].slot - 1].refcount > 0
    ensures TablesOk(Released(s, hi), None)
  {
    var t := Released(s, hi);
    assert HandleOk(s, hi) && SlotOk(s, s.handles[hi].slot - 1, None);
    forall i | 0 <= i < |t.slots| ensures SlotOk(t, i, None) { ReleasedSlot(s, hi, i, page); }
    forall h | 0 <= h < |t.handles| ensures HandleOk(t, h) { ReleasedHandle(s, hi, h, page); }
    forall fd | fd in t.fds ensures FdOk(t, fd, None) { assert FdOk(s, fd, None); }
  }

  lemma ReleasedDma(s: State, hi: nat, page: nat)
    requires Ok(s, None, page) && hi < |s.handles| && s.handles[hi].slot != 0
    requires s.handles[hi].slot <= MAX_GROUPS && s.slots[s.handles[hi].slot - 1].refcount > 0
    ensures DmaOk(Released(s, hi), None, page)
  {
    var t := Released(s, hi);
    forall i | 0 <= i < |t.slots| ensures AllocOk(t, i, None, page) { assert AllocOk(s, i, None, page); }
  }

  /** A range was handed out in the container of slot gi. */
  function Granted(s: State, gi: nat, iova: u64, len: nat): State
    requires gi < |s.slots| == |s.epochs| && iova + len < TOP
  {
    s.(slots := s.slots[gi := s.slots[gi].(iovaNext := iova + len)],
       grants := s.grants + [Grant(s.epochs[gi], iova, len)])
  }

  /** The allocator's position, set up on first use. */
  function NextIova(g: Slot): u64 { if g.iovaNext == 0 then IOVA_BASE else g.iovaNext }

  lemma GrantedOk(s: State, gi: nat, len: nat, page: nat)
    requires Ok(s, None, page) && gi < |s.slots| && s.slots[gi].refcount > 0
    requires len > 0 && len % page == 0 && NextIova(s.slots[gi]) + len < TOP
    ensures Ok(Granted(s, gi, NextIova(s.slots[gi]), len), None, page)
  {
    var iova := NextIova(s.slots[gi]);
    var t := Granted(s, gi, iova, len);
    assert AllocOk(s, gi, None, page);
    AlignedSum(iova, len, page);
    forall i | 0 <= i < |t.slots| ensures SlotOk(t, i, None) { assert SlotOk(s, i, None); }
    forall h | 0 <= h < |t.handles| ensures HandleOk(t, h) { assert HandleOk(s, h); }
    forall fd | fd in t.fds ensures FdOk(t, fd, None) { assert FdOk(s, fd, None); }
    forall i | 0 <= i < |t.slots| ensures AllocOk(t, i, None, page) {
      assert AllocOk(s, i, None, page);
      if i != gi && Live(t, i, None) { assert s.epochs[i] != s.epochs[gi]; }
    }
  }

  lemma AlignedSum(a: nat, b: nat, page: nat)
    requires page > 0 && a % page == 0 && b % page == 0
    ensures (a + b) % page == 0
  {
    var x, y := a / page, b / page;
    assert a + b == (x + y) * page;
    QuotientIs(a + b, page, x + y, 0);
  }

  // ---- the operations ---------------------------------------------------------------------------------

  class Registry {
    const page: nat
    var slots: seq<Slot>
    var handles: seq<Handle>
    /** Open handles that were overwritten. */
    var lost: seq<Handle>
    /** The process's open descriptors. */
    var fds: map<int, Owner>
    ghost var epochs: seq<nat>
    ghost var births: nat
    ghost var grants: seq<Grant>

    ghost function S(): State
      reads this
    {
      State(slots, handles + lost, fds, epochs, births, grants)
    }

    /**
     Each slot's refcount is the number of handles, lost ones included, referring to it, its descriptors are open
     exactly while that is positive, no group has two slots, nothing is leaked, and all ranges
     handed out in one container are page-aligned and disjoint.
     */
    ghost predicate Valid()
      reads this
    {
      Ok(S(), None, page)
    }

    constructor (page: nat, n: nat)
      requires page > 0 && IOVA_BASE % page == 0
      ensures Valid() && |handles| == n && lost == [] && fds == map[]
    {
      this.page := page;
      slots := seq(MAX_GROUPS, i => Slot(-1, 0, 0, 0, 0));
      handles, lost := seq(n, i => CLOSED), [];
      fds := map[];
      epochs := seq(MAX_GROUPS, i => 0);
      births, grants := 0, [];
      new;
      assert handles + lost == handles;
      forall i | 0 <= i < |slots| ensures Refs(handles, i) == 0 { NoRefs(handles, i); }
    }

    /** open(2) or an ioctl that returns a descriptor: a new one, or failure. */
    method OpenFd(o: Owner) returns (fd: int)
      modifies this`fds
      ensures fd < 0 ==> fds == old(fds)
      ensures fd >= 0 ==> fd !in old(fds) && fds == old(fds)[fd := o]
    {
      var got: int := *;
      if got >= 0 && got !in fds {
        fds := fds[got := o];
        fd := got;
      } else {
        fd := -1;
      }
    }

    /** close(2), only ever of an open descriptor. */
    method CloseFd(fd: int)
      requires fd in fds
      modifies this`fds
      ensures fds == old(fds) - {fd}
    {
      fds := fds - {fd};
    }

    /** vfio_group_find. */
    method GroupFind(grp: int) returns (gi: Option<nat>)
      ensures gi.Some? ==> gi.value < |slots| && slots[gi.value].refcount > 0 && slots[gi.value].groupNo == grp
      ensures gi.None? ==> forall i | 0 <= i < |slots| && slots[i].refcount > 0 :: slots[i].groupNo != grp
    {
      for i := 0 to |slots|
        invariant forall j | 0 <= j < i && slots[j].refcount > 0 :: slots[j].groupNo != grp
      {
        if slots[i].refcount > 0 && slots[i].groupNo == grp { return Some(i); }
      }
      gi := None;
    }

    /** vfio_group_free_slot. */
    method FreeSlot() returns (gi: Option<nat>)
      ensures gi.Some? ==> gi.value < |slots| && slots[gi.value].refcount == 0
      ensures gi.None? ==> forall i | 0 <= i < |slots| :: slots[i].refcount > 0
    {
      for i := 0 to |slots|
        invariant forall j | 0 <= j < i :: slots[j].refcount > 0
      {
        if slots[i].refcount == 0 { return Some(i); }
      }
      gi := None;
    }

    /** Open container and group into a free slot; whatever fails, what was opened is closed again. */
    method OpenGroup(gi: nat, grp: int) returns (st: Status)
      requires Valid() && gi < |slots| && slots[gi].refcount == 0
      requires forall i | 0 <= i < |slots| && slots[i].refcount > 0 :: slots[i].groupNo != grp
      modifies this`slots, this`fds, this`epochs, this`births
      ensures st == OK ==> Ok(S(), Some(gi), page) && slots[gi].refcount == 0 && slots[gi].groupNo == grp
      ensures st != OK ==> S() == old(S()) && st != Inval
    {
      ghost var s0 := S();
      var cfd := OpenFd(Container(gi));
      if cfd < 0 { return IO; }
      var version: bool := *;
      if !version {
        CloseFd(cfd);
        assert fds == s0.fds;
        return Backend;
      }
      var gfd := OpenFd(Group(gi));
      if gfd < 0 {
        CloseFd(cfd);
        assert fds == s0.fds;
        return IO;
      }
      var attached: bool := *;
      if !attached {
        CloseFd(gfd);
        CloseFd(cfd);
        assert fds == s0.fds;
        return IO;
      }
      slots := slots[gi := Slot(grp, gfd, cfd, 0, 0)];
      epochs := epochs[gi := births];
      births := births + 1;
      FilledTables(s0, gi, grp, gfd, cfd, page);
      FilledDma(s0, gi, grp, gfd, cfd, page);
      assert S() == Filled(s0, gi, grp, gfd, cfd);
      st := OK;
    }

    /** Take a device descriptor from an open group, or close a group that nobody uses. */
    method Attach(hi: nat, gi: nat, ghost pending: Option<nat>) returns (st: Status)
      requires Ok(S(), pending, page)
      requires pending == None || (pending == Some(gi) && gi < |slots| && slots[gi].refcount == 0)
      requires gi < |slots| && Live(S(), gi, pending) && hi < |handles| && handles[hi] == CLOSED
      modifies this`slots, this`handles, this`fds
      ensures Valid() && |handles| == old(|handles|)
      ensures st == OK ==> S() == Attached(old(S()), gi, hi, handles[hi].deviceFd)
      ensures st == OK ==> handles == old(handles)[hi := handles[hi]]
      ensures st == OK ==> |slots| == old(|slots|) && slots[gi].groupNo == old(slots[gi].groupNo)
      ensures st == OK ==> handles[hi].slot == gi + 1
      ensures st != OK ==> st == IO && handles == old(handles) && (pending == None ==> S() == old(S()))
    {
      ghost var s0 := S();
      var dfd := OpenFd(Device(hi));
      if dfd < 0 {
        if slots[gi].refcount == 0 {
          assert SlotOk(s0, gi, pending);
          CloseFd(slots[gi].groupFd);
          CloseFd(slots[gi].containerFd);
          slots := slots[gi := slots[gi].(groupNo := -1)];
          assert S() == Dropped(s0, gi);
          DroppedOk(s0, gi, page);
        }
        return IO;
      }
      AttachedOk(s0, pending, gi, hi, dfd, page);
      ghost var all := handles;
      slots := slots[gi := slots[gi].(refcount := slots[gi].refcount + 1)];
      handles := handles[hi := Handle(dfd, slots[gi].groupFd, slots[gi].containerFd, gi + 1, false)];
      assert handles + lost == (all + lost)[hi := handles[hi]];
      assert S() == Attached(s0, gi, hi, dfd);
      st := OK;
    }

    /** pw_vfio_close. */
    method Close(hi: nat)
      requires Valid() && hi < |handles|
      modifies this`slots, this`handles, this`fds
      ensures Valid() && handles == old(handles)[hi := CLOSED]
    {
      ghost var s0 := S();
      var h := handles[hi];
      assert HandleOk(s0, hi) && s0.handles[hi] == h;
      if h.slot == 0 { return; }
      Releasable(s0, hi, page);
      ReleasedTables(s0, hi, page);
      ReleasedDma(s0, hi, page);
      CloseFd(h.deviceFd);
      var gi := h.slot - 1;
      var g := slots[gi];
      if g.refcount == 1 {
        CloseFd(g.groupFd);
        CloseFd(g.containerFd);
        slots := slots[gi := Slot(-1, -1, -1, 0, 0)];
      } else {
        slots := slots[gi := g.(refcount := g.refcount - 1)];
      }
      handles := handles[hi := CLOSED];
      assert handles + lost == s0.handles[hi := CLOSED];
      assert S() == Released(s0, hi);
    }

    /** A device descriptor for this handle, from a group already open or opened for it. */
    method Acquire(hi: nat, grp: int) returns (st: Status)
      requires Valid() && hi < |handles| && handles[hi] == CLOSED
      modifies this`slots, this`handles, this`fds, this`epochs, this`births
      ensures Valid() && |handles| == old(|handles|)
      ensures st == OK ==> 0 < handles[hi].slot <= |slots| && slots[handles[hi].slot - 1].groupNo == grp
      ensures st == OK ==> handles == old(handles)[hi := handles[hi]]
      ensures st != OK ==> handles == old(handles) && st != Inval
    {
      var gi := GroupFind(grp);
      if gi.Some? {
        st := Attach(hi, gi.value, None);
        return;
      }
      gi := FreeSlot();
      if gi.None? { return NoResources; }
      st := OpenGroup(gi.value, grp);
      if st != OK { return; }
      st := Attach(hi, gi.value, gi);
    }

    /** pw_vfio_open_bar clears the handle it is given, whatever it held. */
    method Clear(hi: nat)
      requires Valid() && hi < |handles|
      modifies this`handles, this`lost, this`fds
      ensures Valid() && handles == old(handles)[hi := CLOSED]
      ensures lost == old(lost) + if old(handles[hi]).slot != 0 then [old(handles[hi])] else []
    {
      ghost var s0 := S();
      var h := handles[hi];
      assert HandleOk(s0, hi) && s0.handles[hi] == h;
      if h.slot != 0 {
        OrphanedOk(s0, hi, page);
        fds := fds[h.deviceFd := Device(|handles| + |lost|)];
        handles := handles[hi := CLOSED];
        lost := lost + [h];
        assert handles + lost == s0.handles[hi := CLOSED] + [h];
        assert S() == Orphaned(s0, hi);
      }
    }

    /**
     pw_vfio_open_bar; grp is the device's IOMMU group, negative when it has none. A BAR number
     above 5 or a malformed device address is refused at once. Otherwise the handle may be open
     already: then its device, and its share in its group, are lost.
     */
    method OpenBar(hi: nat, wellFormed: bool, bar: int, grp: int) returns (st: Status)
      requires Valid() && hi < |handles|
      modifies this
      ensures Valid() && |handles| == old(|handles|)
      ensures st == OK ==> 0 < handles[hi].slot <= |slots| && slots[handles[hi].slot - 1].groupNo == grp
      ensures st == OK ==> handles[hi].mapped
      ensures !wellFormed || bar < 0 || bar > 5 ==> st == Inval && S() == old(S()) && handles == old(handles)
      ensures wellFormed && 0 <= bar <= 5 ==>
                && st != Inval && handles == old(handles)[hi := if st == OK then handles[hi] else CLOSED]
                && lost == old(lost) + if old(handles[hi]).slot != 0 then [old(handles[hi])] else []
    {
      if bar < 0 || bar > 5 || !wellFormed { return Inval; }
      st := OpenDevice(hi, grp);
    }

    method OpenDevice(hi: nat, grp: int) returns (st: Status)
      requires Valid() && hi < |handles|
      modifies this
      ensures Valid() && |handles| == old(|handles|) && st != Inval
      ensures st == OK ==> 0 < handles[hi].slot <= |slots| && slots[handles[hi].slot - 1].groupNo == grp
      ensures st == OK ==> handles[hi].mapped
      ensures handles == old(handles)[hi := if st == OK then handles[hi] else CLOSED]
      ensures lost == old(lost) + if old(handles[hi]).slot != 0 then [old(handles[hi])] else []
    {
      Clear(hi);
      if grp < 0 { return IO; }
      st := Acquire(hi, grp);
      if st != OK { return; }
      var info, region, mapped: bool := *, *, *;
      if !info || !region || !mapped {
        Close(hi);
        return if info && !region then Backend else IO;
      }
      SetMapped(hi);
    }

    method SetMapped(hi: nat)
      requires Valid() && hi < |handles| && handles[hi].slot != 0
      modifies this`handles
      ensures Valid() && handles == old(handles)[hi := old(handles[hi]).(mapped := true)]
    {
      ghost var s0 := S();
      handles := handles[hi := handles[hi].(mapped := true)];
      assert S().handles == s0.handles[hi := handles[hi]];
      forall i | 0 <= i < |slots| ensures SlotOk(S(), i, None) {
        assert SlotOk(s0, i, None);
        RefsUpdate(s0.handles, hi, handles[hi], i);
      }
      forall h | 0 <= h < |S().handles| ensures HandleOk(S(), h) { assert HandleOk(s0, h); }
      forall fd | fd in fds ensures FdOk(S(), fd, None) { assert FdOk(s0, fd, None); }
      forall i | 0 <= i < |slots| ensures AllocOk(S(), i, None, page) { assert AllocOk(s0, i, None, page); }
    }

    /** pw_vfio_map_dma: the next page-aligned range of the handle's container. */
    method MapDma(hi: nat, vaddr: u64, len: u64) returns (st: Status, iova: u64)
      requires Valid() && hi < |handles|
      modifies this`slots, this`grants
      ensures Valid()
      ensures st == OK ==> 0 < handles[hi].slot <= |epochs|
      ensures st == OK ==> vaddr != 0 && len > 0 && vaddr % page == 0 && len % page == 0
      ensures st == OK ==> IOVA_BASE <= iova && iova + len < TOP && iova % page == 0
      ensures st == OK ==> grants == old(grants) + [Grant(epochs[handles[hi].slot - 1], iova, len)]
      ensures st != OK ==> grants == old(grants)
      ensures var gi := handles[hi].slot - 1;
              if !Asked(handles[hi], vaddr, len, page) then st == Inval && slots == old(slots)
              else 0 <= gi < |slots| == old(|slots|) && slots == old(slots)[gi := old(slots)[gi].(iovaNext :=
                     if st == OK then iova + len else NextIova(old(slots)[gi]))]
    {
      ghost var s0 := S();
      iova := 0;
      var h := handles[hi];
      assert HandleOk(s0, hi) && s0.handles[hi] == h;
      if h.containerFd < 0 || vaddr == 0 || len == 0 { st := Inval; return; }
      if vaddr % page != 0 || len % page != 0 { st := Inval; return; }
      if h.slot == 0 || h.slot > MAX_GROUPS { st := Inval; return; }
      Releasable(s0, hi, page);
      st, iova := Advance(h.slot - 1, len);
    }

    /** The part of pw_vfio_map_dma that moves the allocator of an open slot. */
    method Advance(gi: nat, len: u64) returns (st: Status, iova: u64)
      requires Valid() && gi < |slots| && slots[gi].refcount > 0 && len > 0 && len % page == 0
      modifies this`slots, this`grants
      ensures Valid() && |epochs| == |slots| == old(|slots|)
      ensures st == OK ==> IOVA_BASE <= iova && iova + len < TOP && iova % page == 0
      ensures grants == old(grants) + if st == OK then [Grant(epochs[gi], iova, len)] else []
      ensures slots == old(slots)[gi :=
                  old(slots)[gi].(iovaNext := if st == OK then iova + len else NextIova(old(slots)[gi]))]
    {
      BasedOk(S(), gi, page);
      slots := slots[gi := slots[gi].(iovaNext := NextIova(slots[gi]))];
      assert S() == Based(old(S()), gi);
      ghost var s1 := S();
      var start := slots[gi].iovaNext;
      assert AllocOk(s1, gi, None, page) && start == NextIova(slots[gi]);
      if start > TOP - 1 - len { return Inval, 0; }
      var mapped: bool := *;
      if !mapped { return IO, 0; }
      GrantedOk(s1, gi, len, page);
      slots := slots[gi := slots[gi].(iovaNext := start + len)];
      grants := grants + [Grant(epochs[gi], start, len)];
      assert S() == Granted(s1, gi, start, len);
      return OK, start;
    }

    /** Any sequence of opens, maps and closes, with any system call failing, keeps the registry valid. */
    method Run(ops: seq<Op>)
      requires Valid()
      modifies this
      ensures Valid()
    {
      for i := 0 to |ops|
        invariant Valid()
      {
        match ops[i] {
          case Open(h, wellFormed, bar, grp) =>
            if h < |handles| { var st := OpenBar(h, wellFormed, bar, grp); }
          case Map(h, vaddr, len) =>
            if h < |handles| { var st, iova := MapDma(h, vaddr, len); }
          case Shut(h) =>
            if h < |handles| { Close(h); }
        }
      }
    }
  }

  datatype Op = Open(h: nat, wellFormed: bool, bar: int, grp: int) | Map(h: nat, vaddr: u64, len: u64) | Shut(h: nat)

  /** The arguments get past the checks of pw_vfio_map_dma. */
  predicate Asked(h: Handle, vaddr: u64, len: u64, page: nat)
    requires page > 0
  {
    && h.containerFd >= 0 && vaddr != 0 && len != 0 && vaddr % page == 0 && len % page == 0
    && 0 < h.slot <= MAX_GROUPS
  }

  /** What Valid means for a slot's descriptors, and for the ranges of one container. */
  lemma ValidMeans(s: State, page: nat, i: nat, a: nat, b: nat)
    requires Ok(s, None, page) && i < |s.slots|
    ensures s.slots[i].refcount == Refs(s.handles, i)
    ensures s.slots[i].refcount > 0 <==> exists fd :: Owns(s.fds, fd, Group(i))
    ensures s.slots[i].refcount > 0 <==> exists fd :: Owns(s.fds, fd, Container(i))
    ensures a < b < |s.grants| && s.grants[a].epoch == s.grants[b].epoch ==> Apart(s.grants[a], s.grants[b])
  {
    assert SlotOk(s, i, None);
    forall fd | Owns(s.fds, fd, Group(i)) || Owns(s.fds, fd, Container(i)) ensures s.slots[i].refcount > 0 {
      assert FdOk(s, fd, None);
    }
  }

  /** A slot's refcount counts exactly the handles its users still have if and only if none referring to it was lost. */
  lemma CountsUsers(s: State, page: nat, handles: seq<Handle>, lost: seq<Handle>, i: nat)
    requires Ok(s, None, page) && i < |s.slots| && s.handles == handles + lost
    ensures s.slots[i].refcount == Refs(handles, i) <==> forall j | 0 <= j < |lost| :: lost[j].slot != i + 1
  {
    assert SlotOk(s, i, None);
    RefsSplit(handles, lost, i);
    RefsNone(lost, i);
  }

  /** When every handle is closed again, exactly the groups of lost handles stay open. */
  lemma LeakedGroups(s: State, page: nat, handles: seq<Handle>, lost: seq<Handle>, i: nat)
    requires Ok(s, None, page) && i < |s.slots| && s.handles == handles + lost
    requires forall h | 0 <= h < |handles| :: handles[h] == CLOSED
    ensures (exists fd :: Owns(s.fds, fd, Group(i))) <==> exists j | 0 <= j < |lost| :: lost[j].slot == i + 1
  {
    ValidMeans(s, page, i, 0, 0);
    NoRefs(handles, i);
    RefsSplit(handles, lost, i);
    RefsNone(lost, i);
  }
}
