/** Who owns what in the paging and swap subsystem of kernel/vm.c and kernel/kalloc.c.

    A state of the kernel's globals is a Vm; Own is the ownership it is proved to have: one role
    for every physical frame and one owner for every used swap slot. */
module Frames {
  import opened Basics
  import opened PageTable

  const PGSIZE: nat := 4096

  datatype ProcState = Unused | Used | Sleeping | Runnable | Running | Zombie
  datatype Proc = Proc(state: ProcState, qlevel: nat, sz: nat)

  /** One entry of the frame table; p is -1 for a null pointer. */
  datatype Frame = Frame(used: bool, p: int, va: nat, rb: bool)

  datatype Vm = Vm(
    procs: seq<Proc>,
    roots: Roots,               // p->pagetable of each process
    mem: Mem,                   // physical memory, by frame
    swap: seq<seq<int>>,        // the pages above PHYSTOP
    mask: seq<bool>,            // swap_mask
    frames: seq<Frame>,         // frametable.f
    clock: nat,                 // frametable.clock_p
    freelist: seq<nat>)         // kmem.freelist, from its head

  datatype SlotOwner = NoOwner | Owner(p: nat, vpn: nat)

  /** limit[p] bounds the pages mapped below the trapframe; between calls it is the process size in pages. */
  datatype Own = Own(role: seq<Role>, slot: seq<SlotOwner>, limit: seq<nat>)

  function Zeros(): seq<int> { seq(PGSIZE, _ => 0) }

  ghost predicate Live(k: Vm, p: nat) { p < |k.roots| && k.roots[p].Some? }

  /** The page table entry of (p, vpn) in the flat page map. */
  function PteOf(k: Vm, p: nat, vpn: nat): Pte {
    if p < |k.roots| && k.roots[p].Some? then Lookup(k.mem, k.roots[p].value, vpn) else NOPTE
  }

  // ----- what a process sees -----

  function Bytes(page: Page): seq<int> { if page.Data? then page.bytes else [] }

  /** The logical contents of a page: its frame's bytes, its swap slot's, or zeros while still lazy. */
  function Contents(k: Vm, p: nat, vpn: nat): seq<int> {
    var e := PteOf(k, p, vpn);
    if e.v then (if e.num < |k.mem| then Bytes(k.mem[e.num]) else [])
    else if e.s then (if e.num < |k.swap| then k.swap[e.num] else [])
    else Zeros()
  }

  /** The permission flags, once the page exists. */
  function Flags(k: Vm, p: nat, vpn: nat): Option<Perm> {
    var e := PteOf(k, p, vpn);
    if e.v || e.s then Some(e.perm) else None
  }

  ghost predicate SamePage(k: Vm, k': Vm, p: nat, vpn: nat) {
    Contents(k', p, vpn) == Contents(k, p, vpn) && Flags(k', p, vpn) == Flags(k, p, vpn)
  }

  /** Every page of every process, except possibly those of the set, looks the same. */
  ghost predicate SameExcept(k: Vm, k': Vm, q: nat, lo: nat, hi: nat) {
    && |k'.roots| == |k.roots| && k'.roots == k.roots
    && forall p: nat, vpn: nat :: Live(k, p) && vpn < USERTOP && !(p == q && lo <= vpn < hi) ==> SamePage(k, k', p, vpn)
  }

  ghost predicate SameAll(k: Vm, k': Vm) {
    && k'.roots == k.roots
    && forall p: nat, vpn: nat :: Live(k, p) && vpn < USERTOP ==> SamePage(k, k', p, vpn)
  }

  // ----- ownership -----

  ghost predicate Sizes(k: Vm, o: Own) {
    && |k.frames| == |k.mem| == |o.role|
    && |k.mask| == |k.swap| == |o.slot|
    && |k.roots| == |k.procs| == |o.limit|
    && (forall p: nat :: p < |o.limit| ==> o.limit[p] <= USERTOP)
  }

  ghost predicate PteOk(o: Own, p: nat, vpn: nat, e: Pte)
    requires p < |o.limit|
  {
    if vpn < USERTOP then
      if e.v then !e.s && e.num < |o.role| && o.role[e.num] == User(p, vpn) && vpn < o.limit[p]
      else if e.s then e.num < |o.slot| && o.slot[e.num] == Owner(p, vpn) && vpn < o.limit[p]
      else e == NOPTE
    else !e.s && !e.perm.u && (!e.v ==> e == NOPTE)
  }

  /** Every entry is empty, or names a frame or slot that belongs to just this page. */
  ghost predicate PagesOk(k: Vm, o: Own)
    requires Sizes(k, o)
  {
    forall p: nat, vpn: nat :: Live(k, p) && vpn < MAXVPN ==> PteOk(o, p, vpn, PteOf(k, p, vpn))
  }

  /** A user frame holds data and is named by its page's valid entry; the frame table records only user frames. */
  ghost predicate UserOk(k: Vm, o: Own, f: nat)
    requires f < |o.role| && |k.frames| == |k.mem| == |o.role|
  {
    && (o.role[f].User? ==>
          && Live(k, o.role[f].p) && o.role[f].vpn < USERTOP && k.mem[f].Data?
          && PteOf(k, o.role[f].p, o.role[f].vpn).v && PteOf(k, o.role[f].p, o.role[f].vpn).num == f)
    && (k.frames[f].used ==> k.frames[f].p >= 0 && o.role[f] == User(k.frames[f].p, k.frames[f].va))
  }

  ghost predicate FramesOk(k: Vm, o: Own)
    requires Sizes(k, o)
  {
    forall f: nat :: f < |o.role| ==> UserOk(k, o, f)
  }

  ghost predicate SlotOk(k: Vm, o: Own, i: nat)
    requires i < |o.slot| == |k.mask|
  {
    && (k.mask[i] <==> o.slot[i].Owner?)
    && (o.slot[i].Owner? ==>
          && Live(k, o.slot[i].p) && o.slot[i].vpn < USERTOP
          && var e := PteOf(k, o.slot[i].p, o.slot[i].vpn);
             !e.v && e.s && e.num == i)
  }

  ghost predicate SlotsOk(k: Vm, o: Own)
    requires Sizes(k, o)
  {
    forall i: nat :: i < |o.slot| ==> SlotOk(k, o, i)
  }

  /** A frame is on the free list, once, exactly when its role is Free. */
  ghost predicate FreeOk(freelist: seq<nat>, role: seq<Role>) {
    && (forall i: nat :: i < |freelist| ==> freelist[i] < |role| && role[freelist[i]] == Free)
    && Distinct(freelist)
    && (forall f: nat :: f < |role| && role[f] == Free ==> f in freelist)
  }

  ghost predicate Inv(k: Vm, o: Own) {
    && Sizes(k, o)
    && TreesOk(k.mem, o.role, k.roots)
    && PagesOk(k, o) && FramesOk(k, o) && SlotsOk(k, o)
    && FreeOk(k.freelist, o.role)
  }

  /** No user frame is in transit: each is in the frame table. */
  ghost predicate Recorded(k: Vm, o: Own) {
    |k.frames| == |o.role| && forall f: nat :: f < |o.role| && o.role[f].User? ==> k.frames[f].used
  }

  /** Trapframe pages stay trapframe pages, and no other frame becomes one. */
  ghost predicate TrapKept(o: Own, o': Own) {
    |o'.role| == |o.role| && forall g: nat :: g < |o.role| && (o.role[g].Trap? || o'.role[g].Trap?) ==>
      o'.role[g] == o.role[g]
  }

  // ----- the elementary moves -----

  lemma FreePop(freelist: seq<nat>, role: seq<Role>)
    requires FreeOk(freelist, role) && freelist != []
    ensures FreeOk(freelist[1..], role[freelist[0] := Kern])
  {
  }

  lemma FreePush(freelist: seq<nat>, role: seq<Role>, f: nat)
    requires FreeOk(freelist, role) && f < |role| && role[f] != Free
    ensures FreeOk([f] + freelist, role[f := Free])
  {
  }

  /** A change of one non-user frame's contents and role between Free, Kern and Kern keeps every page. */
  lemma QuietFrame(k: Vm, o: Own, f: nat, page: Page, r: Role, k': Vm)
    requires Inv(k, o) && f < |k.mem|
    requires (o.role[f] == Free || o.role[f] == Kern) && (r == Free || r == Kern)
    requires k' == k.(mem := k.mem[f := page], freelist := k'.freelist)
    requires FreeOk(k'.freelist, o.role[f := r])
    ensures Inv(k', o.(role := o.role[f := r])) && SameAll(k, k')
  {
    OutsideTrees(k.mem, o.role, k.roots, f, page, r);
    hide TreesOk, Lookup, FreeOk;
    EntriesBounded(k, o);
    SamePtes(k, o, k', o.(role := o.role[f := r]));
  }

  lemma EntriesBounded(k: Vm, o: Own)
    requires Inv(k, o)
    ensures forall p: nat, vpn: nat :: Live(k, p) && vpn < USERTOP && (PteOf(k, p, vpn).v || PteOf(k, p, vpn).s) ==>
              vpn < o.limit[p]
  {
  }

  lemma RoleOnly(mem: Mem, role: seq<Role>, roots: Roots, f: nat, r: Role)
    requires TreesOk(mem, role, roots) && f < |mem| && !TableRole(role[f]) && !TableRole(r)
    ensures TreesOk(mem, role[f := r], roots)
  {
    OutsideTrees(mem, role, roots, f, mem[f], r);
    assert mem[f := mem[f]] == mem;
  }

  /** The new entry of (p, vpn) is stored, and role and slot follow: what remains to be shown is
      that the pages of the frames and slots involved are consistent. */
  ghost predicate Stored(k: Vm, k': Vm, p: nat, vpn: nat, e: Pte) {
    && k'.roots == k.roots && k'.procs == k.procs && Live(k, p) && vpn < USERTOP
    && forall q: nat, v: nat :: Live(k, q) && v < MAXVPN ==>
         PteOf(k', q, v) == if q == p && v == vpn then e else PteOf(k, q, v)
  }

  lemma StoreHere(k: Vm, o: Own, p: nat, vpn: nat, e: Pte)
    requires Sizes(k, o) && TreesOk(k.mem, o.role, k.roots)
    requires Live(k, p) && vpn < USERTOP && LeafOf(k.mem, k.roots[p].value, vpn).Some?
    ensures var l := LeafOf(k.mem, k.roots[p].value, vpn).value;
            && IsTable(k.mem, l) && RoleAt(o.role, l).Leaf? && I0(vpn) < FANOUT
            && TreesOk(SetEntry(k.mem, l, I0(vpn), e), o.role, k.roots)
            && Stored(k, k.(mem := SetEntry(k.mem, l, I0(vpn), e)), p, vpn, e)
  {
    StoreLeaf(k.mem, o.role, k.roots, p, vpn, e);
    WalkDown(k.mem, o.role, k.roots, p, vpn);
  }

  /** After one leaf entry is stored, with roles, slots and contents changing only where that page
      was or is, the ownership is consistent again and every other page looks the same. */
  lemma StoredOk(k: Vm, o: Own, p: nat, vpn: nat, e: Pte, k': Vm, o': Own)
    requires Inv(k, o) && Stored(k, k', p, vpn, e)
    requires Sizes(k', o') && |o'.role| == |o.role| && |o'.slot| == |o.slot| && o'.limit == o.limit
    requires TreesOk(k'.mem, o'.role, k'.roots) && FreeOk(k'.freelist, o'.role)
    requires PteOk(o', p, vpn, e)
    requires forall g: nat :: g < |o.role| ==>
               && (o.role[g].User? && o.role[g] != User(p, vpn) ==> o'.role[g] == o.role[g] && k'.mem[g] == k.mem[g])
               && (o'.role[g].User? && o'.role[g] != User(p, vpn) ==> o'.role[g] == o.role[g])
               && (o'.role[g] == User(p, vpn) ==> e.v && e.num == g && k'.mem[g].Data?)
               && (k'.frames[g].used ==> k'.frames[g] == k.frames[g] && o'.role[g] == o.role[g])
    requires forall i: nat :: i < |o.slot| ==>
               && (o.slot[i].Owner? && o.slot[i] != Owner(p, vpn) ==>
                   o'.slot[i] == o.slot[i] && k'.swap[i] == k.swap[i])
               && (o'.slot[i].Owner? && o'.slot[i] != Owner(p, vpn) ==> o'.slot[i] == o.slot[i])
               && (o'.slot[i] == Owner(p, vpn) ==> !e.v && e.s && e.num == i)
               && (k'.mask[i] <==> o'.slot[i].Owner?)
    ensures Inv(k', o') && SameExcept(k, k', p, vpn, vpn + 1)
  {
    hide TreesOk, Lookup, FreeOk;
    forall q: nat, v: nat | Live(k', q) && v < MAXVPN
      ensures PteOk(o', q, v, PteOf(k', q, v))
      ensures v < USERTOP && !(q == p && v == vpn) ==> SamePage(k, k', q, v)
    {
      assert PteOk(o, q, v, PteOf(k, q, v));
    }
    forall g: nat | g < |o.role|
      ensures UserOk(k', o', g)
    {
      assert UserOk(k, o, g);
    }
    forall i: nat | i < |o.slot|
      ensures SlotOk(k', o', i)
    {
      assert SlotOk(k, o, i);
    }
  }

  /** Only the frame or slot a page's entry names belongs to that page. */
  lemma UsersAre(k: Vm, o: Own, p: nat, vpn: nat)
    requires Inv(k, o)
    ensures forall g: nat :: g < |o.role| && o.role[g] == User(p, vpn) ==>
              PteOf(k, p, vpn).v && PteOf(k, p, vpn).num == g
    ensures forall g: nat :: g < |o.role| && k.frames[g].used ==> o.role[g].User?
    ensures forall g: nat :: g < |o.role| && o.role[g].User? ==> k.mem[g].Data?
    ensures forall i: nat :: i < |o.slot| && o.slot[i] == Owner(p, vpn) ==>
              !PteOf(k, p, vpn).v && PteOf(k, p, vpn).s && PteOf(k, p, vpn).num == i
    ensures forall i: nat :: i < |o.slot| ==> (k.mask[i] <==> o.slot[i].Owner?)
  {
    hide TreesOk, Lookup, FreeOk;
    forall g: nat | g < |o.role|
      ensures o.role[g] == User(p, vpn) ==> PteOf(k, p, vpn).v && PteOf(k, p, vpn).num == g
      ensures (k.frames[g].used ==> o.role[g].User?) && (o.role[g].User? ==> k.mem[g].Data?)
    {
      assert UserOk(k, o, g);
    }
    forall i: nat | i < |o.slot|
      ensures o.slot[i] == Owner(p, vpn) ==> !PteOf(k, p, vpn).v && PteOf(k, p, vpn).s && PteOf(k, p, vpn).num == i
      ensures k.mask[i] <==> o.slot[i].Owner?
    {
      assert SlotOk(k, o, i);
    }
  }

  /** evict_page's effect once the victim frame f and the slot are chosen. */
  function Evicted(k: Vm, p: nat, vpn: nat, f: nat, idx: nat): Vm
    requires Live(k, p) && LeafOf(k.mem, k.roots[p].value, vpn).Some?
    requires IsTable(k.mem, LeafOf(k.mem, k.roots[p].value, vpn).value) && I0(vpn) < FANOUT
    requires f < |k.mem| && f < |k.frames| && idx < |k.swap| && idx < |k.mask|
  {
    var l := LeafOf(k.mem, k.roots[p].value, vpn).value;
    k.(mem := SetEntry(k.mem, l, I0(vpn), PteOf(k, p, vpn).(v := false, s := true, num := idx)),
       swap := k.swap[idx := Bytes(k.mem[f])],
       mask := k.mask[idx := true],
       frames := k.frames[f := k.frames[f].(used := false, p := -1)])
  }

  lemma EvictMove(k: Vm, o: Own, f: nat, idx: nat)
    requires Inv(k, o) && f < |o.role| && o.role[f].User? && idx < |k.mask| && !k.mask[idx]
    ensures var p, vpn := o.role[f].p, o.role[f].vpn;
            && Live(k, p) && LeafOf(k.mem, k.roots[p].value, vpn).Some? && I0(vpn) < FANOUT
            && IsTable(k.mem, LeafOf(k.mem, k.roots[p].value, vpn).value)
            && var k' := Evicted(k, p, vpn, f, idx);
               Inv(k', o.(role := o.role[f := Kern], slot := o.slot[idx := Owner(p, vpn)])) && SameAll(k, k')
  {
    var p, vpn := o.role[f].p, o.role[f].vpn;
    assert UserOk(k, o, f);
    WalkDown(k.mem, o.role, k.roots, p, vpn);
    var e := PteOf(k, p, vpn).(v := false, s := true, num := idx);
    StoreHere(k, o, p, vpn, e);
    var k' := Evicted(k, p, vpn, f, idx);
    var o' := o.(role := o.role[f := Kern], slot := o.slot[idx := Owner(p, vpn)]);
    RoleOnly(k'.mem, o.role, k.roots, f, Kern);
    assert Stored(k, k', p, vpn, e);
    assert PteOk(o, p, vpn, PteOf(k, p, vpn));
    hide TreesOk, Lookup, SetEntry, FreeOk;
    assert SlotOk(k, o, idx);
    UsersAre(k, o, p, vpn);
    StoredOk(k, o, p, vpn, e, k', o');
    assert SamePage(k, k', p, vpn);
  }

  function StoreAt(k: Vm, p: nat, vpn: nat, e: Pte): Mem
    requires Live(k, p) && LeafOf(k.mem, k.roots[p].value, vpn).Some?
    requires IsTable(k.mem, LeafOf(k.mem, k.roots[p].value, vpn).value) && I0(vpn) < FANOUT
  {
    SetEntry(k.mem, LeafOf(k.mem, k.roots[p].value, vpn).value, I0(vpn), e)
  }

  /** mappages on an empty entry: the kernel's frame f becomes page vpn of p. */
  lemma MapMove(k: Vm, o: Own, p: nat, vpn: nat, f: nat, perm: Perm)
    requires Inv(k, o) && Live(k, p) && vpn < o.limit[p] && LeafOf(k.mem, k.roots[p].value, vpn).Some?
    requires PteOf(k, p, vpn) == NOPTE && f < |o.role| && o.role[f] == Kern && k.mem[f].Data?
    ensures IsTable(k.mem, LeafOf(k.mem, k.roots[p].value, vpn).value) && I0(vpn) < FANOUT
    ensures var k' := k.(mem := StoreAt(k, p, vpn, Pte(true, false, f, perm)));
            && Inv(k', o.(role := o.role[f := User(p, vpn)]))
            && SameExcept(k, k', p, vpn, vpn + 1)
            && Contents(k', p, vpn) == k.mem[f].bytes && Flags(k', p, vpn) == Some(perm)
  {
    var e := Pte(true, false, f, perm);
    StoreHere(k, o, p, vpn, e);
    var k' := k.(mem := StoreAt(k, p, vpn, e));
    var o' := o.(role := o.role[f := User(p, vpn)]);
    RoleOnly(k'.mem, o.role, k.roots, f, User(p, vpn));
    hide TreesOk, Lookup, SetEntry;
    assert UserOk(k, o, f);
    UsersAre(k, o, p, vpn);
    StoredOk(k, o, p, vpn, e, k', o');
  }

  /** The end of a swap-in: frame f holds the slot's bytes, takes the page over and frees the slot. */
  lemma SwapInMove(k: Vm, o: Own, p: nat, vpn: nat, f: nat)
    requires Inv(k, o) && Live(k, p) && vpn < USERTOP && !PteOf(k, p, vpn).v && PteOf(k, p, vpn).s
    requires f < |o.role| && o.role[f] == Kern && PteOf(k, p, vpn).num < |k.swap|
    requires k.mem[f] == Data(k.swap[PteOf(k, p, vpn).num])
    ensures LeafOf(k.mem, k.roots[p].value, vpn).Some? && I0(vpn) < FANOUT
    ensures IsTable(k.mem, LeafOf(k.mem, k.roots[p].value, vpn).value)
    ensures var was := PteOf(k, p, vpn);
            var k' := k.(mem := StoreAt(k, p, vpn, was.(v := true, s := false, num := f)),
              mask := k.mask[was.num := false]);
            Inv(k', o.(role := o.role[f := User(p, vpn)], slot := o.slot[was.num := NoOwner])) && SameAll(k, k')
  {
    WalkDown(k.mem, o.role, k.roots, p, vpn);
    var was := PteOf(k, p, vpn);
    var e := was.(v := true, s := false, num := f);
    StoreHere(k, o, p, vpn, e);
    var k' := k.(mem := StoreAt(k, p, vpn, e), mask := k.mask[was.num := false]);
    var o' := o.(role := o.role[f := User(p, vpn)], slot := o.slot[was.num := NoOwner]);
    RoleOnly(k'.mem, o.role, k.roots, f, User(p, vpn));
    hide TreesOk, Lookup, SetEntry;
    assert Stored(k, k', p, vpn, e);
    assert PteOk(o, p, vpn, was) && UserOk(k, o, f);
    UsersAre(k, o, p, vpn);
    StoredOk(k, o, p, vpn, e, k', o');
    assert SamePage(k, k', p, vpn);
  }

  /** Entering a mapped frame into the frame table. */
  lemma RecordMove(k: Vm, o: Own, f: nat, fr: Frame)
    requires Inv(k, o) && f < |o.role| && fr.used && fr.p >= 0 && o.role[f] == User(fr.p, fr.va)
    ensures Inv(k.(frames := k.frames[f := fr]), o) && SameAll(k, k.(frames := k.frames[f := fr]))
  {
    hide TreesOk, Lookup;
    var k' := k.(frames := k.frames[f := fr]);
    forall q: nat, v: nat | Live(k', q) && v < MAXVPN
      ensures PteOk(o, q, v, PteOf(k', q, v)) && PteOf(k', q, v) == PteOf(k, q, v)
    {
      assert PteOk(o, q, v, PteOf(k, q, v));
    }
    forall g: nat | g < |o.role|
      ensures UserOk(k', o, g)
    {
      assert UserOk(k, o, g);
    }
    forall i: nat | i < |o.slot|
      ensures SlotOk(k', o, i)
    {
      assert SlotOk(k, o, i);
    }
  }

  const CLEARED: Frame := Frame(false, -1, 0, false)

  /** uvmunmap of a resident page: the frame goes to the free list and the entry is emptied. */
  lemma UnmapFrameMove(k: Vm, o: Own, p: nat, vpn: nat, page: Page)
    requires Inv(k, o) && Live(k, p) && vpn < USERTOP && PteOf(k, p, vpn).v
    ensures LeafOf(k.mem, k.roots[p].value, vpn).Some? && I0(vpn) < FANOUT
    ensures IsTable(k.mem, LeafOf(k.mem, k.roots[p].value, vpn).value) && PteOf(k, p, vpn).num < |k.mem|
    ensures var f := PteOf(k, p, vpn).num;
            && f < |k.frames|
            && var k' := k.(mem := StoreAt(k, p, vpn, NOPTE)[f := page], freelist := [f] + k.freelist,
                 frames := k.frames[f := CLEARED]);
               Inv(k', o.(role := o.role[f := Free])) && SameExcept(k, k', p, vpn, vpn + 1) &&
                 PteOf(k', p, vpn) == NOPTE
  {
    WalkDown(k.mem, o.role, k.roots, p, vpn);
    assert PteOk(o, p, vpn, PteOf(k, p, vpn));
    var f := PteOf(k, p, vpn).num;
    StoreHere(k, o, p, vpn, NOPTE);
    var mid := k.(mem := StoreAt(k, p, vpn, NOPTE));
    OutsideTrees(mid.mem, o.role, k.roots, f, page, Free);
    var k' := k.(mem := mid.mem[f := page], freelist := [f] + k.freelist, frames := k.frames[f := CLEARED]);
    FreePush(k.freelist, o.role, f);
    hide TreesOk, Lookup, SetEntry;
    assert Stored(k, k', p, vpn, NOPTE);
    UsersAre(k, o, p, vpn);
    StoredOk(k, o, p, vpn, NOPTE, k', o.(role := o.role[f := Free]));
  }

  /** uvmunmap of a swapped page: the slot is released and the entry is emptied. */
  lemma UnmapSlotMove(k: Vm, o: Own, p: nat, vpn: nat)
    requires Inv(k, o) && Live(k, p) && vpn < USERTOP && !PteOf(k, p, vpn).v && PteOf(k, p, vpn).s
    ensures LeafOf(k.mem, k.roots[p].value, vpn).Some? && I0(vpn) < FANOUT
    ensures IsTable(k.mem, LeafOf(k.mem, k.roots[p].value, vpn).value)
    ensures var i := PteOf(k, p, vpn).num;
            && i < |k.mask|
            && var k' := k.(mem := StoreAt(k, p, vpn, NOPTE), mask := k.mask[i := false]);
               Inv(k', o.(slot := o.slot[i := NoOwner])) && SameExcept(k, k', p, vpn, vpn + 1) &&
                 PteOf(k', p, vpn) == NOPTE
  {
    WalkDown(k.mem, o.role, k.roots, p, vpn);
    assert PteOk(o, p, vpn, PteOf(k, p, vpn));
    var i := PteOf(k, p, vpn).num;
    StoreHere(k, o, p, vpn, NOPTE);
    var k' := k.(mem := StoreAt(k, p, vpn, NOPTE), mask := k.mask[i := false]);
    hide TreesOk, Lookup, SetEntry;
    assert Stored(k, k', p, vpn, NOPTE);
    UsersAre(k, o, p, vpn);
    StoredOk(k, o, p, vpn, NOPTE, k', o.(slot := o.slot[i := NoOwner]));
  }

  /** walk(…, 1) hanging a zeroed table page into an empty slot of an upper table. */
  lemma HangMove(k: Vm, o: Own, up: nat, i: nat, f: nat)
    requires Inv(k, o) && up < |o.role| && f < |o.role| && o.role[f] == Kern && i < FANOUT
    requires ((o.role[up].Root? && i < TOPFANOUT) || o.role[up].Mid?) && !Entry(k.mem, up, i).v
    ensures IsTable(k.mem[f := EmptyTable()], up)
    ensures var r := if o.role[up].Root? then Mid(o.role[up].p, i) else Leaf(o.role[up].p, o.role[up].i2, i);
            var k' := k.(mem := SetEntry(k.mem[f := EmptyTable()], up, i, Pte(true, false, f, NOPERM)));
            Inv(k', o.(role := o.role[f := r])) && SameAll(k, k')
  {
    HangTable(k.mem, o.role, k.roots, up, i, f);
    var r := if o.role[up].Root? then Mid(o.role[up].p, i) else Leaf(o.role[up].p, o.role[up].i2, i);
    var k' := k.(mem := SetEntry(k.mem[f := EmptyTable()], up, i, Pte(true, false, f, NOPERM)));
    hide SetEntry, Lookup, TreesOk;
    assert forall q: nat, v: nat :: Live(k, q) && v < MAXVPN ==> PteOf(k', q, v) == PteOf(k, q, v);
    assert forall g: nat :: g < |k.mem| && g != up && g != f ==> k'.mem[g] == k.mem[g];
    EntriesBounded(k, o);
    SamePtes(k, o, k', o.(role := o.role[f := r]));
  }

  /** With the same entries, roles that differ only off the user frames, and the same user frames,
      nothing changes for anyone. */
  lemma SamePtes(k: Vm, o: Own, k': Vm, o': Own)
    requires Inv(k, o) && Sizes(k', o') && TreesOk(k'.mem, o'.role, k'.roots) && FreeOk(k'.freelist, o'.role)
    requires k'.roots == k.roots && k'.swap == k.swap && k'.mask == k.mask && k'.frames == k.frames
    requires |o'.role| == |o.role| && o'.slot == o.slot
    requires |o'.limit| == |o.limit|
    requires forall p: nat, vpn: nat :: Live(k, p) && vpn < USERTOP && (PteOf(k, p, vpn).v || PteOf(k, p, vpn).s) ==>
               vpn < o'.limit[p]
    requires forall g: nat :: g < |o.role| && (o.role[g].User? || o'.role[g].User?) ==>
               o'.role[g] == o.role[g] && k'.mem[g] == k.mem[g]
    requires forall q: nat, v: nat :: Live(k, q) && v < MAXVPN ==> PteOf(k', q, v) == PteOf(k, q, v)
    ensures Inv(k', o') && SameAll(k, k')
  {
    hide TreesOk, Lookup, FreeOk;
    forall q: nat, v: nat | Live(k', q) && v < MAXVPN
      ensures PteOk(o', q, v, PteOf(k', q, v))
      ensures v < USERTOP ==> SamePage(k, k', q, v)
    {
      assert PteOk(o, q, v, PteOf(k, q, v));
    }
    forall g: nat | g < |o.role|
      ensures UserOk(k', o', g)
    {
      assert UserOk(k, o, g);
    }
    forall i: nat | i < |o.slot|
      ensures SlotOk(k', o', i)
    {
      assert SlotOk(k, o, i);
    }
  }
}
