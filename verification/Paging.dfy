/** The paging operations of kernel/vm.c and kernel/kalloc.c over one set of kernel globals.

    Each method is one atomic call made by process `me`.  An out-parameter `ok` that is false, or an
    outcome NoMemory, means the kernel has panicked for want of memory: the free list is empty, and no
    page can be evicted or no swap slot is free.  Refused is the panic of usertrap when vmfault cannot
    help. */
module Paging {
  import opened Basics
  import opened PageTable
  import opened Frames
  import opened Eviction
  import opened PagingSteps
  import opened Lifecycle
  import opened FlatMemory

  /** alloc_swap_index: the lowest free slot, or -1. */
  method AllocSwapIndex(mask: seq<bool>) returns (i: int)
    ensures -1 <= i < |mask|
    ensures i >= 0 ==> !mask[i] && forall j: nat :: j < i ==> mask[j]
    ensures i < 0 ==> forall j: nat :: j < |mask| ==> mask[j]
  {
    i := 0;
    while i < |mask|
      invariant 0 <= i <= |mask|
      invariant forall j: nat :: j < i ==> mask[j]
    {
      if !mask[i] {
        return;
      }
      i := i + 1;
    }
    i := -1;
  }

  /** walk(pagetable, va, 0): the leaf table that holds the entry of vpn, if the upper tables exist. */
  method WalkRead(mem: Mem, root: nat, vpn: nat) returns (found: bool, table: nat)
    ensures found <==> LeafOf(mem, root, vpn).Some?
    ensures found ==> table == LeafOf(mem, root, vpn).value
  {
    table := root;
    var level := 2;
    while level > 0
      invariant 0 <= level <= 2
      invariant level == 2 ==> table == root
      invariant level < 2 ==> Entry(mem, root, I2(vpn)).v
      invariant level == 1 ==> table == Entry(mem, root, I2(vpn)).num
      invariant level == 0 ==> LeafOf(mem, root, vpn) == Some(table)
    {
      var pte := Entry(mem, table, Px(level, vpn));
      if pte.v {
        table := pte.num;
      } else {
        found := false;
        return;
      }
      level := level - 1;
    }
    found := true;
  }

  datatype Outcome = Fine | NoMemory | Refused

  class Kernel {
    var k: Vm
    var traps: Roots            // p->trapframe of each process
    ghost var o: Own

    /** Boot: no process, no swap slot used, and freerange hands every frame from `first` up to kfree. */
    constructor (nproc: nat, slots: nat, mem: Mem, first: nat)
      requires first < |mem| && forall f: nat :: f < |mem| ==> mem[f].Data?
      ensures Settled(k, traps, o) && FlatIs(k, seq(nproc, _ => None))
      ensures |k.procs| == nproc && |k.mask| == slots && |k.mem| == |mem|
      ensures forall f: nat :: f in k.freelist <==> first <= f < |mem|
      ensures |o.role| == |mem| && forall f: nat :: f < |mem| ==> (o.role[f] == Kern <==> f < first)
    {
      k := Boot(nproc, slots, mem);
      traps := seq(nproc, _ => None);
      o := BootOwn(nproc, slots, |mem|);
      new;
      BootOk(nproc, slots, mem);
      var pa := first;
      while pa < |mem|
        invariant first <= pa <= |mem| == |k.mem| && Inv(k, o) && k.clock == 0
        invariant k.procs == Boot(nproc, slots, mem).procs && k.roots == Boot(nproc, slots, mem).roots
        invariant |k.mask| == slots
        invariant traps == seq(nproc, _ => None) && |o.role| == |mem|
        invariant forall f: nat :: f < |mem| ==> o.role[f] == if first <= f < pa then Free else Kern
      {
        hide Inv, Boot, BootOwn;
        Kfree(pa);
        pa := pa + 1;
      }
    }

    /** evict_page: panics exactly when no frame is eligible or no slot is free; otherwise the chosen
        victim's bytes go to the slot, its entry becomes a swap entry with the same flags, and the
        caller gets the frame. */
    method EvictPage(me: nat) returns (ok: bool, pa: nat)
      requires Inv(k, o) && k.clock < |k.frames|
      modifies `k, `o
      ensures ok <==> !Stuck(old(k), me)
      ensures !ok ==> Stuck(k, me) && k.freelist == old(k).freelist
      ensures ok ==> Allocated(old(k), old(o), k, o, pa) && IsVictim(old(k).procs, old(k).frames, me, old(k).clock, pa)
      ensures ok ==> k.freelist == old(k).freelist && |k.frames| == |old(k).frames| && k.clock == old(k).clock
    {
      hide TreesOk, SetEntry, FreeOk, Allocated, PagesOk, FramesOk, SlotsOk, Quiet;
      pa := 0;
      FramesNameProcs(k, o);
      var toEvict, after, hand := FindVictim(k.procs, k.frames, k.clock, me);
      SweptInv(k, o, me, after);
      ghost var start := k;
      k := k.(frames := after, clock := hand);
      if toEvict < 0 {
        StillStuck(start, me, after, hand);
        ok := false;
        return;
      }
      VictimIsUser(start, o, me, toEvict);
      var va, p := k.frames[toEvict].va, k.frames[toEvict].p;
      var idx := AllocSwapIndex(k.mask);
      if idx < 0 {
        StillStuck(start, me, after, hand);
        ok := false;
        return;
      }
      ghost var swept := k;
      EvictAllocates(k, o, toEvict, idx);
      k := k.(mask := k.mask[idx := true]);
      var found, table := WalkRead(k.mem, k.roots[p].value, va);
      var pte := Entry(k.mem, table, Px(0, va));
      assert found && pte.v;  // "pte not valid 3" cannot happen
      pa := pte.num;
      k := k.(swap := k.swap[idx := Bytes(k.mem[pa])]);
      k := k.(mem := SetEntry(k.mem, table, Px(0, va), Pte(false, true, idx, pte.perm)));
      k := k.(frames := k.frames[toEvict := k.frames[toEvict].(used := false, p := -1)]);
      assert k == Evicted(swept, p, va, toEvict, idx);
      o := o.(role := o.role[toEvict := Kern], slot := o.slot[idx := Owner(p, va)]);
      AllocatedAfterSweep(start, old(o), me, after, k, o, pa);
      ok := true;
    }

    /** kalloc: the head of the free list or, when it is empty, an evicted frame. */
    method Kalloc(me: nat) returns (ok: bool, pa: nat)
      requires Inv(k, o) && k.clock < |k.frames|
      modifies `k, `o
      ensures ok ==> Allocated(old(k), old(o), k, o, pa) && |k.frames| == |old(k).frames| && k.clock == old(k).clock
      ensures old(k).freelist != [] ==> ok && pa == old(k).freelist[0] && k.freelist == old(k).freelist[1..]
      ensures ok <==> !Exhausted(old(k), me)
      ensures !ok ==> Exhausted(k, me)
    {
      hide TreesOk, FreeOk, PagesOk, FramesOk, SlotsOk, Quiet, Allocated, Stuck;
      if k.freelist != [] {
        PopAllocates(k, o);
        pa := k.freelist[0];
        k := k.(freelist := k.freelist[1..]);
        k := k.(mem := k.mem[pa := JunkFresh()]);
        o := o.(role := o.role[pa := Kern]);
        ok := true;
      } else {
        ok, pa := EvictPage(me);
      }
    }

    /** kfree of a frame the kernel holds: it becomes the head of the free list. */
    method Kfree(pa: nat)
      requires Inv(k, o) && pa < |o.role| && o.role[pa] == Kern
      modifies `k, `o
      ensures Inv(k, o) && SameAll(old(k), k)
      ensures k == old(k).(freelist := [pa] + old(k).freelist, mem := old(k).mem[pa := JunkFreed()],
          frames := old(k).frames[pa := CLEARED])
      ensures o == old(o).(role := old(o).role[pa := Free])
    {
      hide TreesOk, FreeOk, PagesOk, FramesOk, SlotsOk;
      ClearUnused(k, o, pa);
      k := k.(frames := k.frames[pa := CLEARED]);
      FreePush(k.freelist, o.role, pa);
      QuietFrame(k, o, pa, JunkFreed(), Free, k.(freelist := [pa] + k.freelist, mem := k.mem[pa := JunkFreed()]));
      ghost var mid := k;
      k := k.(mem := k.mem[pa := JunkFreed()]);
      k := k.(freelist := [pa] + k.freelist);
      o := o.(role := o.role[pa := Free]);
      SameAllTrans(old(k), mid, k);
    }

    /** walk(pagetable, va, 1): the leaf table of vpn, created with its parent if need be.  Creating
        tables may evict pages of any process, but changes no page's contents or flags. */
    method Walk(p: nat, vpn: nat, me: nat) returns (ok: bool, table: nat)
      requires Inv(k, o) && k.clock < |k.frames| && Live(k, p) && vpn < MAXVPN
      modifies `k, `o
      ensures ok ==> Quiet(old(k), old(o), k, o) && LeafOf(k.mem, k.roots[p].value, vpn) == Some(table)
      ensures ok ==> |k.frames| == |old(k).frames| && k.clock == old(k).clock && KernKept(old(o), o)
      ensures LeafOf(old(k).mem, old(k).roots[p].value, vpn).Some? ==> ok && k == old(k) && o == old(o)
      ensures !ok ==> Exhausted(k, me)
    {
      hide TreesOk, FreeOk, PagesOk, FramesOk, SlotsOk, Quiet, Allocated, Exhausted;
      QuietSelf(k, o);
      RootHere(k, o, p, vpn);
      table := k.roots[p].value;
      var level := 2;
      while level > 0
        invariant 0 <= level <= 2 && Live(k, p) && k.clock == old(k).clock && |k.frames| == |old(k).frames|
        invariant k.roots == old(k).roots
        invariant Inv(k, o) && Quiet(old(k), old(o), k, o) && KernKept(old(o), o)
        invariant LeafOf(old(k).mem, old(k).roots[p].value, vpn).Some? ==> k == old(k) && o == old(o)
        invariant level == 2 ==> table == k.roots[p].value && RoleAt(o.role, table) == Root(p)
        invariant level < 2 ==> Entry(k.mem, k.roots[p].value, I2(vpn)).v
        invariant level == 1 ==>
                    table == Entry(k.mem, k.roots[p].value, I2(vpn)).num && RoleAt(o.role, table) == Mid(p, I2(vpn))
        invariant level == 0 ==> LeafOf(k.mem, k.roots[p].value, vpn) == Some(table)
      {
        RootHere(k, o, p, vpn);
        var pte := Entry(k.mem, table, Px(level, vpn));
        if pte.v {
          table := pte.num;
        } else {
          ghost var k1, o1 := k, o;
          var page;
          ok, page := Kalloc(me);
          if !ok {
            return;
          }
          HangStep(k1, o1, k, o, p, vpn, level, table, page);
          KernHang(k1, o1, k, o, page, if level == 2 then Mid(p, I2(vpn)) else Leaf(p, I2(vpn), I1(vpn)));
          k := k.(mem := k.mem[page := EmptyTable()]);
          k := k.(mem := SetEntry(k.mem, table, Px(level, vpn), Pte(true, false, page, NOPERM)));
          o := o.(role := o.role[page := if level == 2 then Mid(p, I2(vpn)) else Leaf(p, I2(vpn), I1(vpn))]);
          QuietTrans(old(k), old(o), k1, o1, k, o);
          table := page;
        }
        level := level - 1;
      }
      ok := true;
    }

    /** mappages for one page, the size every user page table uses it with.  "mappages: remap" cannot
        happen on an empty entry, and walk never fails to get a table page. */
    method MapPage(p: nat, vpn: nat, pa: nat, perm: Perm, me: nat) returns (ok: bool)
      requires Inv(k, o) && k.clock < |k.frames| && Live(k, p) && vpn < o.limit[p]
      requires pa < |o.role| && o.role[pa] == Kern && k.mem[pa].Data? && PteOf(k, p, vpn) == NOPTE
      modifies `k, `o
      ensures ok ==> Mapped(old(k), old(o), k, o, p, vpn, pa, perm)
      ensures ok ==> |k.frames| == |old(k).frames| && k.clock == old(k).clock && KernLoses(old(o), o, pa)
      ensures !ok ==> Exhausted(k, me)
    {
      hide TreesOk, FreeOk, PagesOk, FramesOk, SlotsOk, Quiet, Mapped, PteOf, Exhausted;
      var table;
      ok, table := Walk(p, vpn, me);
      if !ok {
        return;
      }
      MapStep(old(k), old(o), k, o, p, vpn, pa, perm);
      assert !Entry(k.mem, table, Px(0, vpn)).v;
      k := k.(mem := SetEntry(k.mem, table, Px(0, vpn), Pte(true, false, pa, perm)));
      o := o.(role := o.role[pa := User(p, vpn)]);
    }

    /** mappages followed by the frame-table entry, as uvmalloc, uvmcopy and vmfault do. */
    method AddPage(p: nat, vpn: nat, pa: nat, perm: Perm, me: nat) returns (ok: bool)
      requires Inv(k, o) && k.clock < |k.frames| && Live(k, p) && vpn < o.limit[p]
      requires pa < |o.role| && o.role[pa] == Kern && k.mem[pa].Data? && PteOf(k, p, vpn) == NOPTE
      modifies `k, `o
      ensures ok ==> Changed(old(k), old(o), k, o, p, vpn, vpn + 1)
      ensures ok ==> PteOf(k, p, vpn) == Pte(true, false, pa, perm) && Contents(k, p, vpn) == old(k).mem[pa].bytes
      ensures ok ==> KernLoses(old(o), o, pa)
      ensures !ok ==> Exhausted(k, me)
    {
      hide TreesOk, FreeOk, PagesOk, FramesOk, SlotsOk, Changed, Mapped, PteOf, Contents, Exhausted;
      ok := MapPage(p, vpn, pa, perm, me);
      if !ok {
        return;
      }
      RecordStep(old(k), old(o), k, o, p, vpn, pa, perm);
      k := k.(frames := k.frames[pa := Frame(true, p, vpn, true)]);
    }

    /** One page of uvmalloc: a zeroed frame mapped at an empty entry. */
    method AddZeroPage(p: nat, vpn: nat, perm: Perm, me: nat) returns (ok: bool, pa: nat)
      requires Inv(k, o) && k.clock < |k.frames| && Live(k, p) && vpn < o.limit[p] && PteOf(k, p, vpn) == NOPTE
      modifies `k, `o
      ensures ok ==> Changed(old(k), old(o), k, o, p, vpn, vpn + 1)
      ensures ok ==>
                PteOf(k, p, vpn) == Pte(true, false, pa, perm) && Contents(k, p, vpn) == Zeros() && KernKept(old(o), o)
      ensures !ok ==> Exhausted(k, me)
    {
      hide TreesOk, FreeOk, PagesOk, FramesOk, SlotsOk, Changed, PteOf, Contents, Exhausted;
      ok, pa := Kalloc(me);
      if !ok {
        return;
      }
      FillQuiet(old(k), old(o), k, o, pa, Data(Zeros()));
      KernTaken(old(k), old(o), k, o, pa);
      k := k.(mem := k.mem[pa := Data(Zeros())]);
      ghost var k1, o1 := k, o;
      ok := AddPage(p, vpn, pa, perm, me);
      if ok {
        QuietChanged(old(k), old(o), k1, o1, k, o, p, vpn, vpn + 1);
      }
    }

    /** One round of uvmunmap with do_free: whatever backs the page is released, once, to where it came from. */
    method UnmapPage(p: nat, vpn: nat)
      requires Inv(k, o) && Live(k, p) && vpn < USERTOP
      modifies `k, `o
      ensures Changed(old(k), old(o), k, o, p, vpn, vpn + 1) && PteOf(k, p, vpn) == NOPTE && KernKept(old(o), o)
    {
      hide TreesOk, FreeOk, PagesOk, FramesOk, SlotsOk, Changed, PteOf;
      UnmapNothing(k, o, p, vpn);
      var found, table := WalkRead(k.mem, k.roots[p].value, vpn);
      if !found {
        return;
      }
      var pte := Entry(k.mem, table, Px(0, vpn));
      if !pte.v {
        if pte.s {
          UnmapSlotStep(k, o, p, vpn);
          o := o.(slot := o.slot[pte.num := NoOwner]);
          k := k.(mask := k.mask[pte.num := false]);
          k := k.(mem := SetEntry(k.mem, table, Px(0, vpn), NOPTE));
        }
        return;
      }
      UnmapFrameStep(k, o, p, vpn);
      NotKern(k, o, p, vpn);
      ghost var k0 := k;
      o := o.(role := o.role[pte.num := Free]);
      k := k.(frames := k.frames[pte.num := CLEARED], mem := k.mem[pte.num := JunkFreed()],
              freelist := [pte.num] + k.freelist);
      k := k.(mem := SetEntry(k.mem, table, Px(0, vpn), NOPTE));
      SwapStores(k0.mem, table, Px(0, vpn), NOPTE, pte.num, JunkFreed());
    }

    /** uvmunmap(pagetable, va, npages, 1): the pages are gone and no other page is affected. */
    method UvmUnmap(p: nat, vpn: nat, npages: nat)
      requires Inv(k, o) && Live(k, p) && vpn + npages <= USERTOP
      modifies `k, `o
      ensures Changed(old(k), old(o), k, o, p, vpn, vpn + npages) && KernKept(old(o), o)
      ensures forall v: nat :: vpn <= v < vpn + npages ==> PteOf(k, p, v) == NOPTE
    {
      hide TreesOk, FreeOk, PagesOk, FramesOk, SlotsOk, Lookup, Contents, Flags;
      ChangedSelf(k, o, p, vpn);
      var a := vpn;
      while a < vpn + npages
        invariant vpn <= a <= vpn + npages
        invariant Changed(old(k), old(o), k, o, p, vpn, a) && KernKept(old(o), o)
        invariant forall v: nat :: vpn <= v < a ==> PteOf(k, p, v) == NOPTE
      {
        ghost var k1, o1 := k, o;
        UnmapPage(p, a);
        ChangedTrans(old(k), old(o), k1, o1, k, o, p, vpn, a, a + 1);
        a := a + 1;
      }
    }

    /** uvmdealloc: shrink from oldsz to newsz bytes. */
    method UvmDealloc(p: nat, oldsz: nat, newsz: nat) returns (sz: nat)
      requires Inv(k, o) && Live(k, p) && Pages(oldsz) <= USERTOP
      modifies `k, `o
      ensures sz == if newsz >= oldsz then oldsz else newsz
      ensures Pages(sz) <= Pages(oldsz)
      ensures Changed(old(k), old(o), k, o, p, Pages(sz), Pages(oldsz)) && KernKept(old(o), o)
      ensures forall v: nat :: Pages(sz) <= v < Pages(oldsz) ==> PteOf(k, p, v) == NOPTE
    {
      hide TreesOk, FreeOk, PagesOk, FramesOk, SlotsOk, Changed, PteOf;
      if newsz >= oldsz {
        sz := oldsz;
        ChangedSelf(k, o, p, Pages(oldsz));
        return;
      }
      if Pages(newsz) < Pages(oldsz) {
        UvmUnmap(p, Pages(newsz), Pages(oldsz) - Pages(newsz));
      } else {
        ChangedSelf(k, o, p, Pages(oldsz));
      }
      sz := newsz;
    }

    /** uvmalloc: eager growth.  The new pages read as zeros with the given flags, and stay so even if a
        later round of the same call evicts them. */
    method UvmAlloc(oldsz: nat, newsz: nat, perm: Perm, me: nat) returns (ok: bool, sz: nat)
      requires Inv(k, o) && k.clock < |k.frames| && Live(k, me)
      requires newsz >= oldsz ==> Pages(newsz) <= o.limit[me]
      requires forall v: nat :: Pages(oldsz) <= v < Pages(newsz) ==> PteOf(k, me, v) == NOPTE
      modifies `k, `o
      ensures newsz < oldsz ==> ok && sz == oldsz && k == old(k) && o == old(o)
      ensures ok && newsz >= oldsz ==>
                && sz == newsz && Pages(oldsz) <= Pages(newsz) && KernKept(old(o), o)
                && Changed(old(k), old(o), k, o, me, Pages(oldsz), Pages(newsz))
                && forall v: nat :: Pages(oldsz) <= v < Pages(newsz) ==>
                     Contents(k, me, v) == Zeros() && Flags(k, me, v) == Some(perm)
      ensures !ok ==> Exhausted(k, me)
    {
      hide TreesOk, FreeOk, PagesOk, FramesOk, SlotsOk, Lookup, Exhausted;
      if newsz < oldsz {
        ok, sz := true, oldsz;
        return;
      }
      var a := Pages(oldsz);
      ChangedSelf(k, o, me, a);
      while a * PGSIZE < newsz
        invariant Pages(oldsz) <= a <= Pages(newsz)
        invariant Changed(old(k), old(o), k, o, me, Pages(oldsz), a) && KernKept(old(o), o)
        invariant forall v: nat :: Pages(oldsz) <= v < a ==>
                    Contents(k, me, v) == Zeros() && Flags(k, me, v) == Some(perm)
        decreases Pages(newsz) - a
      {
        ghost var k1, o1 := k, o;
        assert PteOf(k, me, a) == NOPTE;
        var pa;
        ok, pa := AddZeroPage(me, a, perm, me);
        if !ok {
          sz := 0;
          return;
        }
        ChangedTrans(old(k), old(o), k1, o1, k, o, me, Pages(oldsz), a, a + 1);
        forall v: nat | Pages(oldsz) <= v < a
          ensures Contents(k, me, v) == Zeros() && Flags(k, me, v) == Some(perm)
        {
          assert SamePage(k1, k, me, v);
        }
        a := a + 1;
      }
      ok, sz := true, newsz;
    }

    /** The swap-in of vmfault, once walk has found the swap entry in `table`. */
    method SwapIn(vpn: nat, table: nat, me: nat) returns (ok: bool, page: nat)
      requires Inv(k, o) && k.clock < |k.frames| && Live(k, me) && vpn < USERTOP && PteOf(k, me, vpn).s
      requires !PteOf(k, me, vpn).v
      requires LeafOf(k.mem, k.roots[me].value, vpn) == Some(table) && Entry(k.mem, table, I0(vpn)) == PteOf(k, me, vpn)
      modifies `k, `o
      ensures ok ==> Changed(old(k), old(o), k, o, me, vpn, vpn + 1) && KernKept(old(o), o) && SameAll(old(k), k)
      ensures ok ==> PteOf(k, me, vpn) == PteOf(old(k), me, vpn).(v := true, s := false, num := page)
      ensures !ok ==> Exhausted(k, me)
    {
      hide TreesOk, FreeOk, PagesOk, FramesOk, SlotsOk, Lookup, Quiet, Changed, SameAll, Allocated, Exhausted;
      var pte := Entry(k.mem, table, Px(0, vpn));
      ok, page := Kalloc(me);
      if !ok {
        return;
      }
      SwapInStep(old(k), old(o), k, o, me, vpn, page);
      KernTaken(old(k), old(o), k, o, page);
      k := k.(mem := k.mem[page := Data(k.swap[pte.num])]);
      k := k.(mask := k.mask[pte.num := false]);
      k := k.(mem := SetEntry(k.mem, table, Px(0, vpn), pte.(v := true, s := false, num := page)));
      k := k.(frames := k.frames[page := Frame(true, me, vpn, true)]);
      o := o.(role := o.role[page := User(me, vpn)], slot := o.slot[pte.num := NoOwner]);
    }

    /** vmfault: swap the page in, or map a zero page where the lazy heap has none yet.  No page of any
        process changes contents; flags appear only on a lazy page's first use. */
    method VmFault(va: nat, me: nat) returns (ok: bool, mem: Option<nat>)
      requires Inv(k, o) && k.clock < |k.frames| && Live(k, me) && me < |k.procs|
      requires Pages(k.procs[me].sz) <= o.limit[me]
      modifies `k, `o
      ensures var vpn := va / PGSIZE;
              ok ==>
                && Changed(old(k), old(o), k, o, me, vpn, vpn + 1) && KernKept(old(o), o)
                && Contents(k, me, vpn) == Contents(old(k), me, vpn)
                && (mem.None? <==> va >= old(k).procs[me].sz || PteOf(old(k), me, vpn).v)
                && (mem.None? ==> k == old(k) && o == old(o))
                && (mem.Some? ==> PteOf(k, me, vpn).v && PteOf(k, me, vpn).num == mem.value)
                && (mem.Some? ==>
                    Flags(k, me, vpn) == if PteOf(old(k), me, vpn).s then Flags(old(k), me, vpn) else Some(RWU))
      ensures !ok ==> Exhausted(k, me)
      ensures va >= old(k).procs[me].sz || PteOf(old(k), me, va / PGSIZE).v ==> ok
    {
      hide TreesOk, FreeOk, PagesOk, FramesOk, SlotsOk, Lookup, Quiet, Changed, Contents, Allocated, Exhausted;
      var vpn := va / PGSIZE;
      mem := None;
      if va >= k.procs[me].sz {
        ok := true;
        ChangedWider(k, o, me, vpn);
        return;
      }
      UnmapNothing(k, o, me, vpn);
      var table;
      ok, table := Walk(me, vpn, me);
      if !ok {
        return;
      }
      ghost var k1, o1 := k, o;
      FaultWalked(old(k), old(o), k, o, me, vpn);
      var pte := Entry(k.mem, table, Px(0, vpn));
      if pte.s {
        var page;
        ok, page := SwapIn(vpn, table, me);
        if !ok {
          return;
        }
        mem := Some(page);
        QuietChanged(old(k), old(o), k1, o1, k, o, me, vpn, vpn + 1);
        FaultContents(old(k), k1, k, me, vpn);
        return;
      }
      if pte.v {
        return;
      }
      var page;
      ok, page := AddZeroPage(me, vpn, RWU, me);
      if !ok {
        return;
      }
      mem := Some(page);
      QuietChanged(old(k), old(o), k1, o1, k, o, me, vpn, vpn + 1);
      LazyContents(old(k), me, vpn);
    }

    /** One page of uvmcopy: copy what backs the parent's page, resident or swapped, into a fresh frame
        of the child.  The allocation may evict the very page being copied. */
    method CopyPage(np: nat, vpn: nat, me: nat) returns (ok: bool)
      requires Inv(k, o) && k.clock < |k.frames| && Live(k, me) && Live(k, np) && np != me
      requires vpn < o.limit[np] && PteOf(k, np, vpn) == NOPTE
      modifies `k, `o
      ensures ok ==> Changed(old(k), old(o), k, o, np, vpn, vpn + 1)
      ensures ok ==> Contents(k, np, vpn) == Contents(old(k), me, vpn) && Flags(k, np, vpn) == Flags(old(k), me, vpn)
      ensures ok ==> KernKept(old(o), o)
      ensures !ok ==> Exhausted(k, me)
    {
      hide TreesOk, FreeOk, PagesOk, FramesOk, SlotsOk, Lookup, Quiet, Changed, Allocated, Exhausted;
      UnmapNothing(k, o, me, vpn);
      ChangedWider(k, o, np, vpn);
      var found, table := WalkRead(k.mem, k.roots[me].value, vpn);
      if !found {
        ok := true;
        return;
      }
      var pte := Entry(k.mem, table, Px(0, vpn));
      if !pte.v && !pte.s {
        ok := true;
        return;
      }
      var mem;
      ok, mem := Kalloc(me);
      if !ok {
        return;
      }
      SourceBytes(old(k), old(o), k, o, mem, me, vpn);
      var bytes := if pte.v then Bytes(k.mem[pte.num]) else k.swap[pte.num];
      FillQuiet(old(k), old(o), k, o, mem, Data(bytes));
      KernTaken(old(k), old(o), k, o, mem);
      k := k.(mem := k.mem[mem := Data(bytes)]);
      ghost var k1, o1 := k, o;
      StillEmpty(old(k), old(o), k, o, np, vpn);
      ok := AddPage(np, vpn, mem, pte.perm, me);
      if ok {
        QuietChanged(old(k), old(o), k1, o1, k, o, np, vpn, vpn + 1);
      }
    }

    /** uvmcopy: every page of the parent below sz, resident, swapped or lazy, looks the same in the child. */
    method UvmCopy(np: nat, sz: nat, me: nat) returns (ok: bool)
      requires Inv(k, o) && k.clock < |k.frames| && Live(k, me) && Live(k, np) && np != me
      requires Pages(sz) <= o.limit[np] && forall v: nat :: v < Pages(sz) ==> PteOf(k, np, v) == NOPTE
      modifies `k, `o
      ensures ok ==> Changed(old(k), old(o), k, o, np, 0, Pages(sz)) && KernKept(old(o), o)
      ensures ok ==> forall v: nat :: v < Pages(sz) ==>
                       Contents(k, np, v) == Contents(old(k), me, v) && Flags(k, np, v) == Flags(old(k), me, v)
      ensures !ok ==> Exhausted(k, me)
    {
      hide TreesOk, FreeOk, PagesOk, FramesOk, SlotsOk, Lookup, Contents, Flags, Exhausted;
      ChangedSelf(k, o, np, 0);
      var i := 0;
      while i * PGSIZE < sz
        invariant i <= Pages(sz)
        invariant Changed(old(k), old(o), k, o, np, 0, i) && KernKept(old(o), o)
        invariant forall v: nat :: v < i ==>
                    Contents(k, np, v) == Contents(old(k), me, v) && Flags(k, np, v) == Flags(old(k), me, v)
        decreases Pages(sz) - i
      {
        ghost var k1, o1 := k, o;
        assert PteOf(k, np, i) == NOPTE;
        assert SamePage(old(k), k, me, i);
        ok := CopyPage(np, i, me);
        if !ok {
          return;
        }
        ChangedTrans(old(k), old(o), k1, o1, k, o, np, 0, i, i + 1);
        forall v: nat | v < i
          ensures Contents(k, np, v) == Contents(old(k), me, v) && Flags(k, np, v) == Flags(old(k), me, v)
        {
          assert SamePage(k1, k, np, v);
        }
        i := i + 1;
      }
      ok := true;
    }

    /** freewalk on a detached table: it and everything below it go to the free list, each page once,
        and nothing else moves.  mem, role and roots are the page tables as they were when p still
        had them. */
    method FreeWalk(f: nat, level: nat, ghost mem: Mem, ghost role: seq<Role>, ghost roots: Roots)
      requires Inv(k, o) && |role| == |o.role| && TreesOk(mem, role, roots)
      requires AtLevel(role, f, level) && NoLeaves(mem, role, role[f].p)
      requires forall g: nat :: Under(role, f, g) ==> o.role[g] == Kern && k.mem[g] == mem[g]
      modifies `k, `o
      ensures Inv(k, o) && Torn(old(k), old(o), k, o, role, f)
      ensures forall g: nat :: Under(role, f, g) ==> o.role[g] == Free
      decreases level
    {
      hide TreesOk, FreeOk, PagesOk, FramesOk, SlotsOk, Lookup, Torn, Contents, Flags;
      TornSelf(k, o, role, f);
      TableHere(mem, role, roots, f);
      var i := 0;
      while i < FANOUT
        invariant i <= FANOUT && Inv(k, o) && |o.role| == |role| && Torn(old(k), old(o), k, o, role, f)
        invariant o.role[f] == Kern && IsTable(k.mem, f)
        invariant forall j: nat :: i <= j < FANOUT ==> Entry(k.mem, f, j) == Entry(mem, f, j)
        invariant forall g: nat :: Under(role, f, g) && g != f && level > 0 ==>
                    if SlotUnder(role, f, g) < i then o.role[g] == Free else o.role[g] == Kern && k.mem[g] == mem[g]
      {
        if level > 0 {
          ChildOf(mem, role, roots, f, level, i);
        } else {
          assert !Entry(mem, f, i).v;
        }
        var pte := Entry(k.mem, f, i);
        if pte.v && !pte.perm.r && !pte.perm.w && !pte.perm.x {
          ghost var k1, o1 := k, o;
          FreeWalk(pte.num, level - 1, mem, role, roots);
          TornKeeps(k1, o1, k, o, role, pte.num);
          TornBelow(old(k), old(o), k1, o1, k, o, role, f, pte.num);
          ghost var k2, o2 := k, o;
          ClearEntry(k, o, f, i);
          k := k.(mem := SetEntry(k.mem, f, i, NOPTE));
          TornHere(old(k), old(o), k2, o2, k, o, role, f);
        } else if pte.v {
          assert false;  // "freewalk: leaf" cannot happen
        }
        i := i + 1;
      }
      if level > 0 {
        ChildOf(mem, role, roots, f, level, 0);
      }
      ghost var k2, o2 := k, o;
      Kfree(f);
      TornFree(old(k), old(o), k2, o2, k, o, role, f);
    }

    /** growproc with n > 0: eager growth. */
    method Enlarge(n: nat, me: nat, ghost a: Flat) returns (ok: bool)
      requires Settled(k, traps, o) && FlatIs(k, a) && Live(k, me) && n > 0 && k.procs[me].sz + n <= TOPBYTES
      modifies `k, `o
      ensures ok ==> Settled(k, traps, o) && FlatIs(k, FlatStep(a, Grow(me, n))) && KernKept(old(o), o)
      ensures !ok ==> Exhausted(k, me)
    {
      hide TreesOk, FreeOk, PagesOk, FramesOk, SlotsOk, Lookup, Contents, Flags, PteOf, FlatIs, FlatStep, Exhausted,
           TrapsOk;
      var sz := k.procs[me].sz;
      BeyondLimit(k, o, me);
      LimitMove(k, o, me, Pages(sz + n), k.procs);
      o := o.(limit := o.limit[me := Pages(sz + n)]);
      var newsz;
      ok, newsz := UvmAlloc(sz, sz + n, RWU, me);
      if ok {
        BeyondLimit(k, o, me);
        Resized(k, o, me, newsz);
        assert o.limit[me := Pages(newsz)] == o.limit;
        ghost var k1 := k;
        k := k.(procs := k.procs[me := k.procs[me].(sz := newsz)]);
        SameExceptThen(old(k), k1, k, me, Pages(sz), Pages(newsz));
        GrownFlat(old(k), k, a, me, n);
        TrapsStay(traps, k.roots, old(o), o);
      }
    }

    /** growproc with n < 0: shrinking, unless the new size wraps around. */
    method Shrink(n: int, me: nat, ghost a: Flat)
      requires Settled(k, traps, o) && FlatIs(k, a) && Live(k, me) && n < 0
      modifies `k, `o
      ensures Settled(k, traps, o) && FlatIs(k, FlatStep(a, Grow(me, n))) && KernKept(old(o), o)
    {
      hide TreesOk, FreeOk, PagesOk, FramesOk, SlotsOk, Lookup, Contents, Flags, PteOf, FlatIs, FlatStep, TrapsOk;
      var sz := k.procs[me].sz;
      BeyondLimit(k, o, me);
      var newsz := UvmDealloc(me, sz, Shrunk(sz, n));
      BeyondLimit(k, o, me);
      Resized(k, o, me, newsz);
      ghost var k1 := k;
      o := o.(limit := o.limit[me := Pages(newsz)]);
      k := k.(procs := k.procs[me := k.procs[me].(sz := newsz)]);
      SameExceptThen(old(k), k1, k, me, Pages(newsz), Pages(sz));
      TrapsStay(traps, k.roots, old(o), o);
      if newsz < sz {
        ShrunkFlat(old(k), k, a, me, n);
      } else {
        SameFlat(old(k), a, me, n);
        EqualFlat(old(k), k, FlatStep(a, Grow(me, n)), me, Pages(sz));
      }
    }

    /** sys_sbrk through growproc: the old size, or -1 beyond the trapframe. */
    method GrowProc(n: int, me: nat, ghost a: Flat) returns (ok: bool, r: int)
      requires Settled(k, traps, o) && FlatIs(k, a) && Live(k, me)
      modifies `k, `o
      ensures ok ==>
                && Settled(k, traps, o) && FlatIs(k, FlatStep(a, Grow(me, n))) && KernKept(old(o), o)
                && r == Answer(a, Grow(me, n))
      ensures !ok ==> Exhausted(k, me)
    {
      hide TreesOk, FreeOk, PagesOk, FramesOk, SlotsOk, FlatStep, Exhausted, TrapsOk;
      assert Has(a, me) && SpaceIs(k, me, a[me].value);
      r := k.procs[me].sz;
      if n > 0 {
        if k.procs[me].sz + n > TOPBYTES {
          SameFlat(k, a, me, n);
          ok, r := true, -1;
        } else {
          ok := Enlarge(n, me, a);
        }
      } else if n < 0 {
        Shrink(n, me, a);
        ok := true;
      } else {
        SameFlat(k, a, me, n);
        ok := true;
      }
    }

    /** sys_sbrk in lazy mode: only the size moves. */
    method SbrkLazy(more: nat, me: nat, ghost a: Flat) returns (r: int)
      requires Settled(k, traps, o) && FlatIs(k, a) && Live(k, me)
      modifies `k, `o
      ensures Settled(k, traps, o) && FlatIs(k, FlatStep(a, GrowLazy(me, more))) && o.role == old(o).role
      ensures r == Answer(a, GrowLazy(me, more))
    {
      hide TreesOk, FreeOk, PagesOk, FramesOk, SlotsOk, Lookup, Contents, Flags, PteOf, TrapsOk;
      assert Has(a, me) && SpaceIs(k, me, a[me].value);
      var sz := k.procs[me].sz;
      if sz + more > TOPBYTES {
        return -1;
      }
      BeyondLimit(k, o, me);
      Resized(k, o, me, sz + more);
      UnchangedFlat(k, k.(procs := k.procs[me := k.procs[me].(sz := sz + more)]), a, me, a[me].value.(sz := sz + more));
      o := o.(limit := o.limit[me := Pages(sz + more)]);
      k := k.(procs := k.procs[me := k.procs[me].(sz := sz + more)]);
      r := sz;
    }

    /** vmfault by process me, on both machines: refused exactly beyond the size or on a mapped page. */
    method PageFault(va: nat, me: nat, ghost a: Flat) returns (ok: bool, refused: bool)
      requires Settled(k, traps, o) && FlatIs(k, a) && Live(k, me)
      modifies `k, `o
      ensures ok ==> Settled(k, traps, o) && FlatIs(k, FlatStep(a, Fault(me, va))) && KernKept(old(o), o)
      ensures ok ==> k.procs == old(k).procs && k.roots == old(k).roots
      ensures va >= old(k).procs[me].sz || PteOf(old(k), me, va / PGSIZE).v ==> ok
      ensures ok ==>
                && (refused <==> va >= old(k).procs[me].sz || PteOf(old(k), me, va / PGSIZE).v)
                && (refused ==> k == old(k))
      ensures ok && !refused ==> PteOf(k, me, va / PGSIZE).v && va / PGSIZE < USERTOP
      ensures ok && !refused ==>
                Flags(k, me, va / PGSIZE) == if PteOf(old(k), me, va / PGSIZE).s then Flags(old(k), me, va / PGSIZE)
                  else Some(RWU)
      ensures !ok ==> Exhausted(k, me)
    {
      hide TreesOk, FreeOk, PagesOk, FramesOk, SlotsOk, Lookup, Contents, Flags, FlatIs, FlatStep, Exhausted, TrapsOk;
      var mem;
      ok, mem := VmFault(va, me);
      refused := mem.None?;
      if ok {
        FaultFlat(old(k), old(o), k, a, me, va);
        TrapsStay(traps, k.roots, old(o), o);
      }
    }

    /** The hardware's translation of a user access. */
    method Translate(va: nat, kind: Access, me: nat) returns (hit: bool, pa: nat)
      requires Inv(k, o) && Live(k, me)
      ensures hit <==>
          va / PGSIZE < USERTOP && PteOf(k, me, va / PGSIZE).v && Permits(PteOf(k, me, va / PGSIZE).perm, kind)
      ensures hit ==> pa == PteOf(k, me, va / PGSIZE).num
    {
      hide TreesOk, FreeOk, FramesOk, SlotsOk;
      var vpn := va / PGSIZE;
      hit, pa := false, 0;
      if vpn >= MAXVPN {
        return;
      }
      var found, table := WalkRead(k.mem, k.roots[me].value, vpn);
      assert PteOk(o, me, vpn, PteOf(k, me, vpn));
      if found {
        var pte := Entry(k.mem, table, Px(0, vpn));
        hit, pa := pte.v && Permits(pte.perm, kind), pte.num;
      }
    }

    /** A user instruction: it reaches its page, or faults, and is tried again if vmfault could help.  It
        is refused exactly when it is denied, and otherwise finds and leaves what the flat machine has. */
    method UserAccess(va: nat, kind: Access, me: nat, ghost a: Flat) returns (out: Outcome, r: int)
      requires Settled(k, traps, o) && FlatIs(k, a) && Live(k, me)
      modifies `k, `o
      ensures out != NoMemory ==>
                Settled(k, traps, o) && KernKept(old(o), o) && (out == Refused <==> Denied(old(k), me, va, kind))
      ensures out == Fine ==> FlatIs(k, FlatStep(a, Use(me, va, kind))) && r == Answer(a, Use(me, va, kind))
      ensures out == Refused ==> FlatIs(k, FlatStep(a, Fault(me, va)))
      ensures out == NoMemory ==> Exhausted(k, me)
    {
      hide TreesOk, FreeOk, PagesOk, FramesOk, SlotsOk, Lookup, LeafOf, FlatIs, Exhausted, TrapsOk, FlatStep, Answer,
           Contents;
      r := 0;
      ghost var a1 := FlatStep(a, Fault(me, va));
      LiveHas(k, a, me);
      FaultThenPoke(a, me, va, kind);
      var hit, pa := Translate(va, kind, me);
      if hit {
        MappedTouch(k, a, me, va);
      } else {
        var ok, refused := PageFault(va, me, a);
        if !ok {
          return NoMemory, 0;
        }
        if refused {
          return Refused, 0;
        }
        hit, pa := Translate(va, kind, me);
        if !hit {
          ok, refused := PageFault(va, me, a1);  // the page is mapped now
          return Refused, 0;
        }
      }
      PokeFlat(k, o, a1, me, va, kind);
      r := ByteOf(k.mem[pa].bytes, va % PGSIZE);
      k := k.(mem := k.mem[pa := Data(Written(k.mem[pa].bytes, va % PGSIZE, kind))]);
      out := Fine;
    }

    /** mappages of a kernel page at or above the trapframe, as proc_pagetable does. */
    method MapHigh(p: nat, vpn: nat, pa: nat, perm: Perm, me: nat) returns (ok: bool)
      requires Inv(k, o) && k.clock < |k.frames| && Live(k, p) && USERTOP <= vpn < MAXVPN && !perm.u
      modifies `k, `o
      ensures ok ==>
                && Inv(k, o) && SameAll(old(k), k) && (Recorded(old(k), old(o)) ==> Recorded(k, o))
                && TrapKept(old(o), o) && KernKept(old(o), o)
      ensures ok ==>
                && o.limit == old(o).limit && k.procs == old(k).procs && k.clock == old(k).clock
                && |k.frames| == |old(k).frames|
      ensures ok ==> forall v: nat :: v < USERTOP && !PteOf(old(k), p, v).v ==> PteOf(k, p, v) == PteOf(old(k), p, v)
      ensures ok ==> LeafOf(k.mem, k.roots[p].value, vpn).Some? && PteOf(k, p, vpn) == Pte(true, false, pa, perm)
      ensures ok && LeafOf(old(k).mem, old(k).roots[p].value, vpn).Some? ==>
                forall v: nat :: v < MAXVPN && v != vpn ==> PteOf(k, p, v) == PteOf(old(k), p, v)
      ensures !ok ==> Exhausted(k, me)
    {
      hide TreesOk, FreeOk, PagesOk, FramesOk, SlotsOk, Lookup, Contents, Flags, SetEntry, Exhausted;
      var table;
      ok, table := Walk(p, vpn, me);
      if ok {
        ghost var k1 := k;
        HighMove(k, o, p, vpn, Pte(true, false, pa, perm));
        k := k.(mem := SetEntry(k.mem, table, Px(0, vpn), Pte(true, false, pa, perm)));
        SameAllTrans(old(k), k1, k);
        HighLeaf(k, o, p, vpn);
      }
    }

    /** proc_pagetable: an empty page table but for the trampoline and trapframe entries. */
    method ProcPagetable(np: nat, trampoline: nat, trapframe: nat, me: nat) returns (ok: bool)
      requires Inv(k, o) && Recorded(k, o) && k.clock < |k.frames| && np < |k.roots| && k.roots[np].None?
      modifies `k, `o
      ensures ok ==>
                && Inv(k, o) && Recorded(k, o) && OthersSame(old(k), k, np) && Live(k, np) && TrapKept(old(o), o)
                && KernKept(old(o), o)
      ensures ok ==>
                && o.limit == old(o).limit[np := 0] && k.procs == old(k).procs && k.clock == old(k).clock
                && |k.frames| == |old(k).frames|
      ensures ok ==> forall v: nat :: v < USERTOP ==> PteOf(k, np, v) == NOPTE
      ensures ok ==>
                && PteOf(k, np, MAXVPN - 1) == Pte(true, false, trampoline, RX)
                && PteOf(k, np, MAXVPN - 2) == Pte(true, false, trapframe, RW)
      ensures !ok ==> Exhausted(k, me)
    {
      hide TreesOk, FreeOk, PagesOk, FramesOk, SlotsOk, Lookup, LeafOf, Contents, Flags, PteOf, Exhausted;
      var root;
      ok, root := Kalloc(me);
      if !ok {
        return;
      }
      ghost var k1, o1 := k, o;
      KernTaken(old(k), old(o), k, o, root);
      NewRootMove(k, o, np, root);
      k := k.(mem := k.mem[root := EmptyTable()]);
      k := k.(roots := k.roots[np := Some(root)]);
      o := o.(role := o.role[root := Root(np)], limit := o.limit[np := 0]);
      ghost var k2 := k;
      ok := MapHigh(np, MAXVPN - 1, trampoline, RX, me);
      if !ok {
        return;
      }
      ghost var k3 := k;
      SameLeaf(k.mem, k.roots[np].value);
      ok := MapHigh(np, MAXVPN - 2, trapframe, RW, me);
      if ok {
        SameAllTrans(k2, k3, k);
        OthersChain(old(k), k1, k2, k, np);
      }
    }

    /** allocproc: a trapframe page and a page table for slot np. */
    method AllocProc(np: nat, trampoline: nat, me: nat) returns (ok: bool)
      requires Inv(k, o) && Recorded(k, o) && k.clock < |k.frames| && np < |k.roots| && k.roots[np].None?
      requires TrapsOk(traps, k.roots, o.role)
      modifies this
      ensures ok ==> Inv(k, o) && Recorded(k, o) && OthersSame(old(k), k, np) && Live(k, np) && KernKept(old(o), o)
      ensures ok ==>
                && o.limit == old(o).limit[np := 0] && k.procs == old(k).procs && k.clock == old(k).clock
                && |k.frames| == |old(k).frames|
      ensures ok ==> forall v: nat :: v < USERTOP ==> PteOf(k, np, v) == NOPTE
      ensures ok ==> TrapsOk(traps, k.roots, o.role) && |traps| == |old(traps)| && traps == old(traps)[np := traps[np]]
      ensures ok ==> traps[np].Some? && PteOf(k, np, MAXVPN - 2) == Pte(true, false, traps[np].value, RW)
      ensures !ok ==> Exhausted(k, me)
    {
      hide TreesOk, FreeOk, PagesOk, FramesOk, SlotsOk, Lookup, LeafOf, Contents, Flags, PteOf, Exhausted;
      var page;
      ok, page := Kalloc(me);
      if !ok {
        return;
      }
      ghost var k1 := k;
      KernTaken(old(k), old(o), k, o, page);
      Relabel(k, o, page, Trap(np));
      o := o.(role := o.role[page := Trap(np)]);
      traps := traps[np := Some(page)];
      ghost var o1 := o;
      ok := ProcPagetable(np, trampoline, page, me);
      if ok {
        OthersAfter(old(k), k1, k, np);
        NewTrap(old(traps), old(k).roots, old(o), o1, k.roots, o, np, page);
      }
    }

    /** userinit: the first process, or any other that starts with nothing. */
    method UserInit(np: nat, trampoline: nat, ghost a: Flat) returns (ok: bool)
      requires Settled(k, traps, o) && FlatIs(k, a) && np < |k.procs| && !Live(k, np)
      modifies this
      ensures ok ==> Settled(k, traps, o) && FlatIs(k, FlatStep(a, Init(np))) && KernKept(old(o), o) && Live(k, np)
      ensures !ok ==> Exhausted(k, np)
    {
      hide TreesOk, FreeOk, PagesOk, FramesOk, SlotsOk, Lookup, Contents, Flags, PteOf, FlatIs, FlatStep, Exhausted,
           TrapsOk;
      ok := AllocProc(np, trampoline, np);
      if !ok {
        return;
      }
      ghost var k1 := k;
      ProcsIrrelevant(k, o, k.procs[np := Proc(Runnable, 0, 0)]);
      k := k.(procs := k.procs[np := Proc(Runnable, 0, 0)]);
      InitFlat(old(k), k1, k, a, np);
    }

    /** kfork's memory half: a new page table, then uvmcopy.  The child sees exactly the parent's pages. */
    method ForkProc(np: nat, trampoline: nat, me: nat, ghost a: Flat) returns (ok: bool)
      requires Settled(k, traps, o) && FlatIs(k, a) && Live(k, me) && np < |k.procs| && !Live(k, np)
      modifies this
      ensures ok ==> Settled(k, traps, o) && FlatIs(k, FlatStep(a, Fork(me, np))) && KernKept(old(o), o)
      ensures !ok ==> Exhausted(k, me)
    {
      hide TreesOk, FreeOk, PagesOk, FramesOk, SlotsOk, Lookup, Contents, Flags, PteOf, FlatIs, FlatStep, Exhausted,
           TrapsOk;
      BeyondLimit(k, o, me);
      ok := AllocProc(np, trampoline, me);
      if !ok {
        return;
      }
      var sz := k.procs[me].sz;
      LimitMove(k, o, np, Pages(sz), k.procs);
      o := o.(limit := o.limit[np := Pages(sz)]);
      ghost var k1, o1 := k, o;
      ok := UvmCopy(np, sz, me);
      if !ok {
        return;
      }
      BeyondLimit(k, o, np);
      ghost var k2 := k;
      Forked(old(k), old(o), k1, o1, k, o, me, np);
      k := k.(procs := k.procs[np := Proc(Runnable, 0, sz)]);
      ForkFlat(old(k), k1, k2, k, a, me, np, sz);
      TrapsStay(traps, k.roots, o1, o);
    }

    /** uvmunmap(pagetable, va, 1, 0) of one of the kernel's own entries. */
    method UnmapHigh(p: nat, vpn: nat)
      requires Inv(k, o) && Live(k, p) && USERTOP <= vpn < MAXVPN
      modifies `k
      ensures Inv(k, o) && SameAll(old(k), k) && (Recorded(old(k), o) ==> Recorded(k, o))
      ensures k == old(k).(mem := k.mem) && |k.mem| == |old(k).mem|
      ensures forall v: nat :: v < MAXVPN ==> PteOf(k, p, v) == if v == vpn then NOPTE else PteOf(old(k), p, v)
    {
      hide TreesOk, FreeOk, PagesOk, FramesOk, SlotsOk, Lookup, Contents, Flags, SetEntry;
      HighEntry(k, o, p, vpn);
      var found, table := WalkRead(k.mem, k.roots[p].value, vpn);
      if !found {
        return;
      }
      var pte := Entry(k.mem, table, Px(0, vpn));
      if !pte.v {
        return;
      }
      HighMove(k, o, p, vpn, NOPTE);
      k := k.(mem := SetEntry(k.mem, table, Px(0, vpn), NOPTE));
    }

    /** proc_freepagetable: every page, slot and table of p is given back. */
    method FreePagetable(p: nat, sz: nat, ghost a: Flat)
      requires Quiescent(k, o) && FlatIs(k, a) && Live(k, p) && sz == k.procs[p].sz
      modifies `k, `o
      ensures k.roots == old(k).roots[p := None] && k.procs == old(k).procs && TrapKept(old(o), o)
      ensures KernKept(old(o), o)
      ensures FlatIs(k.(procs := k.procs[p := Proc(Unused, k.procs[p].qlevel, 0)]), FlatStep(a, Exit(p)))
      ensures Quiescent(k.(procs := k.procs[p := Proc(Unused, k.procs[p].qlevel, 0)]), o)
      ensures forall g: nat :: g < |o.role| && (TableRole(o.role[g]) || o.role[g].User?) ==> o.role[g].p != p
    {
      hide TreesOk, FreeOk, PagesOk, FramesOk, SlotsOk, Lookup, Contents, Flags, PteOf, FlatIs, FlatStep, Torn;
      BeyondLimit(k, o, p);
      UnmapHigh(p, MAXVPN - 1);
      ghost var k1 := k;
      UnmapHigh(p, MAXVPN - 2);
      SameAllTrans(old(k), k1, k);
      ghost var k2 := k;
      UvmUnmap(p, 0, Pages(sz));
      ghost var k3, o3 := k, o;
      Emptied(k2, old(o), k, o, p, Pages(sz));
      EmptyHasNoLeaves(k, o, p);
      DetachMove(k, o, p);
      DetachedRoot(k, o, p);
      var pagetable := k.roots[p].value;
      k := k.(roots := k.roots[p := None]);
      o := Own(Uprooted(o.role, p), o.slot, o.limit[p := 0]);
      ghost var k4, o4 := k, o;
      FreeWalk(pagetable, 2, k3.mem, o3.role, k3.roots);
      NothingLeft(k3, o3, k4, o4, k, o, p, pagetable);
      ghost var k6 := k.(procs := k.procs[p := Proc(Unused, k.procs[p].qlevel, 0)]);
      ExitDone(old(k), old(o), k2, k3, o3, k4, o4, k, k6, o, p);
      ExitFlat(old(k), k2, k3, k4, k, k6, a, p);
    }

    /** freeproc: the trapframe page, then the page table and all it holds. */
    method FreeProc(p: nat, ghost a: Flat)
      requires Settled(k, traps, o) && FlatIs(k, a) && Live(k, p)
      modifies this
      ensures Settled(k, traps, o) && FlatIs(k, FlatStep(a, Exit(p))) && KernKept(old(o), o)
      ensures forall g: nat :: g < |o.role| && (TableRole(o.role[g]) || o.role[g].User? || o.role[g].Trap?) ==>
                o.role[g].p != p
    {
      hide TreesOk, FreeOk, PagesOk, FramesOk, SlotsOk, Lookup, Contents, Flags, PteOf, FlatIs, FlatStep, Torn;
      var trapframe := traps[p].value;
      Relabel(k, o, trapframe, Kern);
      o := o.(role := o.role[trapframe := Kern]);
      Kfree(trapframe);
      traps := traps[p := None];
      SameFlatAll(old(k), k, a);
      ghost var o1 := o;
      FreePagetable(p, k.procs[p].sz, a);
      k := k.(procs := k.procs[p := Proc(Unused, k.procs[p].qlevel, 0)]);
      TrapGone(old(traps), old(k).roots, old(o), o1, k.roots, o, p);
    }

    /** A change of scheduling state or queue level: invisible to memory. */
    method Reschedule(p: nat, state: ProcState, qlevel: nat, ghost a: Flat)
      requires Settled(k, traps, o) && FlatIs(k, a) && Live(k, p)
      modifies `k
      ensures Settled(k, traps, o) && FlatIs(k, FlatStep(a, Sched(p, state, qlevel)))
    {
      hide TreesOk, FreeOk, PagesOk, FramesOk, SlotsOk, Lookup, Contents, Flags, PteOf, TrapsOk;
      ghost var procs := k.procs[p := Proc(state, qlevel, k.procs[p].sz)];
      ProcsIrrelevant(k, o, procs);
      UnchangedFlat(k, k.(procs := procs), a, p, a[p].value);
      assert a[p := Some(a[p].value)] == a;
      k := k.(procs := k.procs[p := Proc(state, qlevel, k.procs[p].sz)]);
    }

    /** One operation; those that name no live process, or fork into a taken slot, do nothing. */
    method Exec(op: Op, trampoline: nat, ghost a: Flat) returns (out: Outcome, r: int)
      requires Settled(k, traps, o) && FlatIs(k, a)
      modifies this
      ensures out != NoMemory ==> Settled(k, traps, o) && KernKept(old(o), o)
      ensures out == Fine ==> FlatIs(k, FlatStep(a, op)) && r == Answer(a, op)
      ensures out == Refused ==> op.Use? && FlatIs(k, FlatStep(a, Fault(op.me, op.va)))
      ensures out != NoMemory ==>
                (out == Refused <==> op.Use? && Has(a, op.me) && Denied(old(k), op.me, op.va, op.kind))
      ensures out == NoMemory ==> Exhausted(k, op.me)
    {
      hide Settled, SpaceIs, Touch, Poke, Resize, Exhausted, Denied, Peek, NewSpace;
      out, r := Fine, 0;
      SettledSizes(k, traps, o);
      var ok := true;
      if op.Init? {
        if op.me < |k.roots| && k.roots[op.me].None? {
          ok := UserInit(op.me, trampoline, a);
        }
      } else if op.me < |k.roots| && k.roots[op.me].Some? {
        match op
        case Init(_) =>
        case Fault(me, va) =>
          var done, _ := PageFault(va, me, a);
          ok := done;
        case Use(me, va, kind) => out, r := UserAccess(va, kind, me, a);
        case Grow(me, n) => ok, r := GrowProc(n, me, a);
        case GrowLazy(me, more) => r := SbrkLazy(more, me, a);
        case Fork(me, np) =>
          if np < |k.roots| && k.roots[np].None? {
            ok := ForkProc(np, trampoline, me, a);
          }
        case Exit(me) => FreeProc(me, a);
        case Sched(me, state, qlevel) => Reschedule(me, state, qlevel, a);
      }
      if !ok {
        out := NoMemory;
      }
    }

    /** Any run, up to its end or a panic: every process sees what it would see on the flat machine, every
        instruction and sbrk answers as there, and the kernel's own frames are the ones it started with.
        A run is cut short only for want of memory, or by an access that the flat machine does not allow. */
    method Run(ops: seq<Op>, trampoline: nat, ghost a: Flat) returns (out: Outcome, rs: seq<int>)
      requires Settled(k, traps, o) && FlatIs(k, a)
      modifies this
      ensures |rs| <= |ops| && (out == Fine <==> |rs| == |ops|)
      ensures out == Fine ==> Settled(k, traps, o) && KernKept(old(o), o) && FlatIs(k, FlatRun(a, ops))
      ensures forall i: nat :: i < |rs| ==> Granted(FlatRun(a, ops[..i]), ops[i], rs[i])
      ensures out == Refused ==> Barred(FlatRun(a, ops[..|rs|]), ops[|rs|])
      ensures out == NoMemory ==> Exhausted(k, ops[|rs|].me)
    {
      hide Settled, FlatIs, FlatStep, Exhausted, Denied, Granted, Barred, Answer, KernKept;
      out, rs := Fine, [];
      KernSelf(o);
      while |rs| < |ops|
        invariant |rs| <= |ops| && out == Fine && Settled(k, traps, o) && FlatIs(k, FlatRun(a, ops[..|rs|]))
        invariant KernKept(old(o), o)
        invariant forall i: nat :: i < |rs| ==> Granted(FlatRun(a, ops[..i]), ops[i], rs[i])
      {
        var n := |rs|;
        ghost var b := FlatRun(a, ops[..n]);
        assert ops[..n + 1][..n] == ops[..n];
        AccessCases(k, traps, o, b, ops[n]);
        ghost var o1 := o;
        var r;
        out, r := Exec(ops[n], trampoline, b);
        if out != Fine {
          return;
        }
        KernTrans(old(o), o1, o);
        rs := rs + [r];
      }
      assert ops[..|rs|] == ops;
    }
  }
}
