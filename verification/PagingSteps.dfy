/** The relations between paging states that the operations of kernel/vm.c and kernel/kalloc.c
    establish, and the proofs that their elementary steps do establish them. */
module PagingSteps {
  import opened Basics
  import opened PageTable
  import opened Frames
  import opened Eviction

  function JunkFreed(): Page { Data(seq(PGSIZE, _ => 1)) }
  function JunkFresh(): Page { Data(seq(PGSIZE, _ => 5)) }

  /** A page is filled with ones when it is freed and with fives when it is handed out. */
  lemma JunkIs(i: nat)
    requires i < 4096
    ensures |JunkFreed().bytes| == |JunkFresh().bytes| == 4096
    ensures JunkFreed().bytes[i] == 1 && JunkFresh().bytes[i] == 5
  {
  }

  /** What an allocation, with all the evictions it may cause, leaves alone: every page's contents
      and flags, frames the kernel holds, entries that are not valid, and swap slots in use. */
  ghost predicate Quiet(k: Vm, o: Own, k': Vm, o': Own) {
    && Inv(k, o) && Inv(k', o') && SameAll(k, k')
    && o'.limit == o.limit && k'.procs == k.procs && k'.clock == k.clock
    && |o'.role| == |o.role| && |k'.mask| == |k.mask| && TrapKept(o, o')
    && (forall g: nat :: g < |o.role| && o.role[g] == Kern ==> o'.role[g] == Kern && k'.mem[g] == k.mem[g])
    && (forall g: nat :: g < |o.role| && o'.role[g].User? ==> o'.role[g] == o.role[g] && k'.mem[g] == k.mem[g])
    && (forall q: nat, v: nat :: Live(k, q) && v < MAXVPN && !PteOf(k, q, v).v ==> PteOf(k', q, v) == PteOf(k, q, v))
    && (forall i: nat :: i < |k.mask| && k.mask[i] ==> k'.mask[i] && k'.swap[i] == k.swap[i])
    && (Recorded(k, o) ==> Recorded(k', o'))
  }

  lemma QuietSelf(k: Vm, o: Own)
    requires Inv(k, o)
    ensures Quiet(k, o, k, o)
  {
  }

  lemma QuietTrans(k: Vm, o: Own, k1: Vm, o1: Own, k2: Vm, o2: Own)
    requires Quiet(k, o, k1, o1) && Quiet(k1, o1, k2, o2)
    ensures Quiet(k, o, k2, o2)
  {
    hide Inv, Contents, Flags, PteOf;
    forall q: nat, v: nat | Live(k, q) && v < USERTOP
      ensures SamePage(k, k2, q, v)
    {
      assert Live(k1, q);
      assert SamePage(k, k1, q, v) && SamePage(k1, k2, q, v);
    }
    forall q: nat, v: nat | Live(k, q) && v < MAXVPN && !PteOf(k, q, v).v
      ensures PteOf(k2, q, v) == PteOf(k, q, v)
    {
      assert Live(k1, q) && PteOf(k1, q, v) == PteOf(k, q, v);
    }
    assert |o1.role| == |o.role| == |o2.role| && |k1.mask| == |k.mask|;
  }

  /** kalloc: Quiet, and the kernel now holds frame f, which was free or belonged to an evicted page. */
  ghost predicate Allocated(k: Vm, o: Own, k': Vm, o': Own, f: nat) {
    && Quiet(k, o, k', o')
    && f < |o.role| && o'.role[f] == Kern && k'.mem[f].Data?
    && (o.role[f] == Free || o.role[f].User?)
    && (o.role[f].User? ==> k'.mem[f] == k.mem[f])
    && (forall g: nat :: g < |o.role| && g != f ==> o'.role[g] == o.role[g])
    && (forall g: nat :: g < |o.role| && g != f && !o.role[g].Leaf? ==> k'.mem[g] == k.mem[g])
    && (forall q: nat, v: nat :: Live(k, q) && v < MAXVPN ==>
        LeafOf(k'.mem, k.roots[q].value, v) == LeafOf(k.mem, k.roots[q].value, v))
  }

  lemma SweptInv(k: Vm, o: Own, me: nat, after: seq<Frame>)
    requires Inv(k, o) && Swept(k.procs, k.frames, me, after)
    ensures Inv(k.(frames := after), o) && Quiet(k, o, k.(frames := after), o)
  {
    hide TreesOk, Lookup, FreeOk;
    var k' := k.(frames := after);
    forall q: nat, v: nat | Live(k', q) && v < MAXVPN
      ensures PteOk(o, q, v, PteOf(k', q, v)) && PteOf(k', q, v) == PteOf(k, q, v)
    {
      assert PteOk(o, q, v, PteOf(k, q, v));
    }
    forall g: nat | g < |o.role|
      ensures UserOk(k', o, g)
    {
      assert UserOk(k, o, g);
    }
    forall i: nat | i < |o.slot|
      ensures SlotOk(k', o, i)
    {
      assert SlotOk(k, o, i);
    }
  }

  lemma EvictAllocates(k: Vm, o: Own, f: nat, idx: nat)
    requires Inv(k, o) && f < |o.role| && o.role[f].User? && idx < |k.mask| && !k.mask[idx]
    ensures var p, vpn := o.role[f].p, o.role[f].vpn;
            && Live(k, p) && LeafOf(k.mem, k.roots[p].value, vpn).Some? && I0(vpn) < FANOUT
            && IsTable(k.mem, LeafOf(k.mem, k.roots[p].value, vpn).value)
            && PteOf(k, p, vpn).v && PteOf(k, p, vpn).num == f
            && Allocated(k, o, Evicted(k, p, vpn, f, idx),
                 o.(role := o.role[f := Kern], slot := o.slot[idx := Owner(p, vpn)]), f)
  {
    var p, vpn := o.role[f].p, o.role[f].vpn;
    EvictMove(k, o, f, idx);
    assert UserOk(k, o, f);
    WalkDown(k.mem, o.role, k.roots, p, vpn);
    StoreLeaf(k.mem, o.role, k.roots, p, vpn, PteOf(k, p, vpn).(v := false, s := true, num := idx));
    hide TreesOk, Lookup, SetEntry, FreeOk;
  }

  lemma PopAllocates(k: Vm, o: Own)
    requires Inv(k, o) && k.freelist != []
    ensures k.freelist[0] < |k.mem|
    ensures var f := k.freelist[0];
            Allocated(k, o, k.(freelist := k.freelist[1..], mem := k.mem[f := JunkFresh()]),
              o.(role := o.role[f := Kern]), f)
  {
    var f := k.freelist[0];
    var k' := k.(freelist := k.freelist[1..], mem := k.mem[f := JunkFresh()]);
    FreePop(k.freelist, o.role);
    QuietFrame(k, o, f, JunkFresh(), Kern, k');
    OutsideTrees(k.mem, o.role, k.roots, f, JunkFresh(), Kern);
    hide TreesOk, Lookup, LeafOf, FreeOk, PagesOk, FramesOk, SlotsOk;
  }

  function Px(level: nat, vpn: nat): nat {
    if level == 2 then I2(vpn) else if level == 1 then I1(vpn) else I0(vpn)
  }

  lemma FramesNameProcs(k: Vm, o: Own)
    requires Inv(k, o)
    ensures forall f: nat :: f < |k.frames| && k.frames[f].used ==> k.frames[f].p < |k.procs|
  {
    forall f: nat | f < |k.frames| && k.frames[f].used
      ensures k.frames[f].p < |k.procs|
    {
      assert UserOk(k, o, f);
    }
  }

  lemma VictimIsUser(k: Vm, o: Own, me: nat, f: nat)
    requires Inv(k, o) && Eligible(k.procs, k.frames, me, f)
    ensures f < |o.role| && k.frames[f].p >= 0 && o.role[f] == User(k.frames[f].p, k.frames[f].va)
    ensures Live(k, k.frames[f].p)
  {
    assert UserOk(k, o, f);
  }

  lemma AllocatedAfterSweep(k: Vm, o: Own, me: nat, after: seq<Frame>, k2: Vm, o2: Own, f: nat)
    requires Inv(k, o) && Swept(k.procs, k.frames, me, after)
    requires Allocated(k.(frames := after), o, k2, o2, f)
    ensures Allocated(k, o, k2, o2, f)
  {
    hide TreesOk, LeafOf, Quiet, Inv;
    SweptInv(k, o, me, after);
    QuietTrans(k, o, k.(frames := after), o, k2, o2);
  }

  lemma SameAllTrans(k: Vm, k1: Vm, k2: Vm)
    requires SameAll(k, k1) && SameAll(k1, k2)
    ensures SameAll(k, k2)
  {
    hide Contents, Flags;
    forall q: nat, v: nat | Live(k, q) && v < USERTOP
      ensures SamePage(k, k2, q, v)
    {
      assert Live(k1, q);
      assert SamePage(k, k1, q, v) && SamePage(k1, k2, q, v);
    }
  }

  /** Clearing the frame-table entry of a frame no page uses. */
  lemma ClearUnused(k: Vm, o: Own, f: nat)
    requires Inv(k, o) && f < |o.role| && !o.role[f].User?
    ensures var k' := k.(frames := k.frames[f := CLEARED]); Inv(k', o) && SameAll(k, k')
  {
    hide TreesOk, Lookup, FreeOk;
    var k' := k.(frames := k.frames[f := CLEARED]);
    forall q: nat, v: nat | Live(k', q) && v < MAXVPN
      ensures PteOk(o, q, v, PteOf(k', q, v)) && PteOf(k', q, v) == PteOf(k, q, v)
    {
      assert PteOk(o, q, v, PteOf(k, q, v));
    }
    forall g: nat | g < |o.role|
      ensures UserOk(k', o, g)
    {
      assert UserOk(k, o, g);
    }
    forall i: nat | i < |o.slot|
      ensures SlotOk(k', o, i)
    {
      assert SlotOk(k, o, i);
    }
  }

  lemma RootHere(k: Vm, o: Own, p: nat, vpn: nat)
    requires Inv(k, o) && Live(k, p) && vpn < MAXVPN
    ensures RoleAt(o.role, k.roots[p].value) == Root(p) && I2(vpn) < TOPFANOUT && I1(vpn) < FANOUT && I0(vpn) < FANOUT
    ensures var e := Entry(k.mem, k.roots[p].value, I2(vpn)); e.v ==> RoleAt(o.role, e.num) == Mid(p, I2(vpn))
  {
    WalkDown(k.mem, o.role, k.roots, p, vpn);
    PartsVpn(vpn);
  }

  lemma HangQuiet(k: Vm, o: Own, k1: Vm, o1: Own, up: nat, i: nat, page: nat)
    requires Allocated(k, o, k1, o1, page) && up < |o1.role| && i < FANOUT
    requires ((o1.role[up].Root? && i < TOPFANOUT) || o1.role[up].Mid?) && !Entry(k1.mem, up, i).v
    ensures IsTable(k1.mem[page := EmptyTable()], up)
    ensures var r := if o1.role[up].Root? then Mid(o1.role[up].p, i) else Leaf(o1.role[up].p, o1.role[up].i2, i);
            var k2 := k1.(mem := SetEntry(k1.mem[page := EmptyTable()], up, i, Pte(true, false, page, NOPERM)));
            Quiet(k, o, k2, o1.(role := o1.role[page := r]))
  {
    hide TreesOk, Lookup, SetEntry, FreeOk, PagesOk, FramesOk, SlotsOk, Contents, Flags;
    HangMove(k1, o1, up, i, page);
    HangTable(k1.mem, o1.role, k1.roots, up, i, page);
    var r := if o1.role[up].Root? then Mid(o1.role[up].p, i) else Leaf(o1.role[up].p, o1.role[up].i2, i);
    var k2 := k1.(mem := SetEntry(k1.mem[page := EmptyTable()], up, i, Pte(true, false, page, NOPERM)));
    SameAllTrans(k, k1, k2);
    assert forall q: nat, v: nat :: Live(k1, q) && v < MAXVPN ==> PteOf(k2, q, v) == PteOf(k1, q, v);
    assert forall g: nat :: g < |k1.mem| && g != up && g != page ==> k2.mem[g] == k1.mem[g];
  }

  /** One table added by walk: allocate (k to k1), then hang it below `table`. */
  lemma HangStep(k: Vm, o: Own, k1: Vm, o1: Own, p: nat, vpn: nat, level: nat, table: nat, page: nat)
    requires Allocated(k, o, k1, o1, page) && Live(k, p) && vpn < MAXVPN && 1 <= level <= 2
    requires level == 2 ==> table == k.roots[p].value && RoleAt(o.role, table) == Root(p)
    requires level == 1 ==>
               && Entry(k.mem, k.roots[p].value, I2(vpn)).v && table == Entry(k.mem, k.roots[p].value, I2(vpn)).num
               && RoleAt(o.role, table) == Mid(p, I2(vpn))
    requires !Entry(k.mem, table, Px(level, vpn)).v
    ensures page < |k1.mem| && page < |o1.role| && table < |k1.mem| && table != page && k1.roots == k.roots
    ensures IsTable(k1.mem[page := EmptyTable()], table) && Px(level, vpn) < FANOUT
    ensures var down := Pte(true, false, page, NOPERM);
            var k2 := k1.(mem := SetEntry(k1.mem[page := EmptyTable()], table, Px(level, vpn), down));
            var r := if level == 2 then Mid(p, I2(vpn)) else Leaf(p, I2(vpn), I1(vpn));
            && Inv(k2, o1.(role := o1.role[page := r])) && Quiet(k, o, k2, o1.(role := o1.role[page := r]))
            && (level == 2 ==> Entry(k2.mem, k.roots[p].value, I2(vpn)) == Pte(true, false, page, NOPERM))
            && (level == 1 ==>
                  && Entry(k2.mem, k.roots[p].value, I2(vpn)) == Entry(k.mem, k.roots[p].value, I2(vpn))
                  && LeafOf(k2.mem, k.roots[p].value, vpn) == Some(page))
  {
    RootHere(k, o, p, vpn);
    assert k1.mem[table] == k.mem[table];
    hide TreesOk, PagesOk, FramesOk, SlotsOk, FreeOk, Contents, Flags, Lookup;
    HangMove(k1, o1, table, Px(level, vpn), page);
    HangQuiet(k, o, k1, o1, table, Px(level, vpn), page);
  }

  /** A page entry appeared: frame f, held by the kernel in k, is page vpn of p in k', and what Quiet
      protects is kept for every other page and frame. */
  ghost predicate Mapped(k: Vm, o: Own, k': Vm, o': Own, p: nat, vpn: nat, f: nat, perm: Perm) {
    && Inv(k, o) && Inv(k', o') && SameExcept(k, k', p, vpn, vpn + 1)
    && o'.limit == o.limit && k'.procs == k.procs && TrapKept(o, o')
    && |o'.role| == |o.role| && f < |o.role| && o'.role[f] == User(p, vpn)
    && Live(k, p) && PteOf(k', p, vpn) == Pte(true, false, f, perm) && k'.mem[f] == k.mem[f]
    && (forall g: nat :: g < |o.role| && g != f && o.role[g] == Kern ==> o'.role[g] == Kern && k'.mem[g] == k.mem[g])
    && (forall q: nat, v: nat :: Live(k, q) && v < MAXVPN && !PteOf(k, q, v).v && !(q == p && v == vpn) ==>
        PteOf(k', q, v) == PteOf(k, q, v))
    && (Recorded(k, o) ==> forall g: nat :: g < |o.role| && g != f && o'.role[g].User? ==> k'.frames[g].used)
  }

  lemma MapStep(k: Vm, o: Own, k1: Vm, o1: Own, p: nat, vpn: nat, f: nat, perm: Perm)
    requires Quiet(k, o, k1, o1) && Live(k, p) && vpn < o.limit[p] && f < |o.role| && o.role[f] == Kern
    requires k.mem[f].Data?
    requires PteOf(k, p, vpn) == NOPTE && LeafOf(k1.mem, k1.roots[p].value, vpn).Some?
    ensures k1.roots == k.roots && IsTable(k1.mem, LeafOf(k1.mem, k1.roots[p].value, vpn).value) && I0(vpn) < FANOUT
    ensures !Entry(k1.mem, LeafOf(k1.mem, k1.roots[p].value, vpn).value, I0(vpn)).v
    ensures f < |o1.role|
    ensures Mapped(k, o, k1.(mem := StoreAt(k1, p, vpn, Pte(true, false, f, perm))),
        o1.(role := o1.role[f := User(p, vpn)]), p, vpn, f, perm)
  {
    hide TreesOk, Contents, Flags, PagesOk, FramesOk, SlotsOk, FreeOk;
    assert PteOf(k1, p, vpn) == NOPTE;
    MapMove(k1, o1, p, vpn, f, perm);
    StoreHere(k1, o1, p, vpn, Pte(true, false, f, perm));
    var k2 := k1.(mem := StoreAt(k1, p, vpn, Pte(true, false, f, perm)));
    var o2 := o1.(role := o1.role[f := User(p, vpn)]);
    assert Stored(k1, k2, p, vpn, Pte(true, false, f, perm));
    hide Lookup, SetEntry, LeafOf, StoreAt;
    forall q: nat, v: nat | Live(k, q) && v < USERTOP && !(q == p && vpn <= v < vpn + 1)
      ensures SamePage(k, k2, q, v)
    {
      assert Live(k1, q);
      assert SamePage(k, k1, q, v) && SamePage(k1, k2, q, v);
    }
    forall q: nat, v: nat | Live(k, q) && v < MAXVPN && !PteOf(k, q, v).v && !(q == p && v == vpn)
      ensures PteOf(k2, q, v) == PteOf(k, q, v)
    {
      assert Live(k1, q);
      assert PteOf(k1, q, v) == PteOf(k, q, v);
    }
  }

  /** Pages lo..hi of p may have changed; every other page looks the same and every other entry that
      was not valid is untouched. */
  ghost predicate Changed(k: Vm, o: Own, k': Vm, o': Own, p: nat, lo: nat, hi: nat) {
    && Inv(k, o) && Inv(k', o') && SameExcept(k, k', p, lo, hi)
    && o'.limit == o.limit && k'.procs == k.procs && k'.clock == k.clock && |k'.frames| == |k.frames| && TrapKept(o, o')
    && (forall q: nat, v: nat :: Live(k, q) && v < MAXVPN && !PteOf(k, q, v).v && !(q == p && lo <= v < hi) ==>
        PteOf(k', q, v) == PteOf(k, q, v))
    && (Recorded(k, o) ==> Recorded(k', o'))
  }

  lemma ChangedSelf(k: Vm, o: Own, p: nat, lo: nat)
    requires Inv(k, o)
    ensures Changed(k, o, k, o, p, lo, lo)
  {
  }

  lemma ChangedTrans(k: Vm, o: Own, k1: Vm, o1: Own, k2: Vm, o2: Own, p: nat, lo: nat, mid: nat, hi: nat)
    requires lo <= mid <= hi && Changed(k, o, k1, o1, p, lo, mid) && Changed(k1, o1, k2, o2, p, mid, hi)
    ensures Changed(k, o, k2, o2, p, lo, hi)
  {
    hide Inv, Contents, Flags, PteOf;
    forall q: nat, v: nat | Live(k, q) && v < USERTOP && !(q == p && lo <= v < hi)
      ensures SamePage(k, k2, q, v)
    {
      assert Live(k1, q);
      assert SamePage(k, k1, q, v) && SamePage(k1, k2, q, v);
    }
    forall q: nat, v: nat | Live(k, q) && v < MAXVPN && !PteOf(k, q, v).v && !(q == p && lo <= v < hi)
      ensures PteOf(k2, q, v) == PteOf(k, q, v)
    {
      assert Live(k1, q) && PteOf(k1, q, v) == PteOf(k, q, v);
    }
  }

  lemma QuietChanged(k: Vm, o: Own, k1: Vm, o1: Own, k2: Vm, o2: Own, p: nat, lo: nat, hi: nat)
    requires lo <= hi && Quiet(k, o, k1, o1) && Changed(k1, o1, k2, o2, p, lo, hi)
    ensures Changed(k, o, k2, o2, p, lo, hi)
  {
    QuietIsChanged(k, o, k1, o1, p, lo);
    ChangedTrans(k, o, k1, o1, k2, o2, p, lo, lo, hi);
  }

  lemma QuietIsChanged(k: Vm, o: Own, k1: Vm, o1: Own, p: nat, lo: nat)
    requires Quiet(k, o, k1, o1)
    ensures Changed(k, o, k1, o1, p, lo, lo)
  {
  }

  /** Filling a freshly allocated frame disturbs nobody. */
  lemma FillQuiet(k: Vm, o: Own, k1: Vm, o1: Own, f: nat, page: Page)
    requires Allocated(k, o, k1, o1, f)
    ensures f < |k1.mem| && f < |o1.role| && o1.role[f] == Kern && Quiet(k, o, k1.(mem := k1.mem[f := page]), o1)
  {
    var k2 := k1.(mem := k1.mem[f := page]);
    QuietFrame(k1, o1, f, page, Kern, k2);
    OutsideTrees(k1.mem, o1.role, k1.roots, f, page, Kern);
    assert o1.role[f := Kern] == o1.role;
    hide TreesOk, Lookup, PagesOk, FramesOk, SlotsOk, FreeOk, Contents, Flags;
    SameAllTrans(k, k1, k2);
    assert forall q: nat, v: nat :: Live(k1, q) && v < MAXVPN ==> PteOf(k2, q, v) == PteOf(k1, q, v);
  }

  /** Mapping plus the frame-table entry. */
  lemma RecordStep(k: Vm, o: Own, k1: Vm, o1: Own, p: nat, vpn: nat, f: nat, perm: Perm)
    requires Mapped(k, o, k1, o1, p, vpn, f, perm) && k1.clock == k.clock && |k1.frames| == |k.frames|
    ensures f < |k1.frames|
    ensures var k2 := k1.(frames := k1.frames[f := Frame(true, p, vpn, true)]);
            && Changed(k, o, k2, o1, p, vpn, vpn + 1)
            && PteOf(k2, p, vpn) == Pte(true, false, f, perm) && Contents(k2, p, vpn) == Bytes(k.mem[f])
  {
    hide TreesOk, Lookup, PagesOk, FramesOk, SlotsOk, FreeOk;
    RecordMove(k1, o1, f, Frame(true, p, vpn, true));
    var k2 := k1.(frames := k1.frames[f := Frame(true, p, vpn, true)]);
    assert forall q: nat, v: nat :: PteOf(k2, q, v) == PteOf(k1, q, v);
    forall q: nat, v: nat | Live(k, q) && v < USERTOP && !(q == p && vpn <= v < vpn + 1)
      ensures SamePage(k, k2, q, v)
    {
      assert SamePage(k, k1, q, v);
    }
  }

  lemma SwapStores(mem: Mem, f: nat, i: nat, e: Pte, g: nat, page: Page)
    requires IsTable(mem, f) && i < FANOUT && g < |mem| && g != f
    ensures IsTable(mem[g := page], f) && SetEntry(mem[g := page], f, i, e) == SetEntry(mem, f, i, e)[g := page]
  {
  }

  /** A change of p's page limit and of process fields other than the page table. */
  lemma LimitMove(k: Vm, o: Own, p: nat, n: nat, procs: seq<Proc>)
    requires Inv(k, o) && Live(k, p) && n <= USERTOP && |procs| == |k.procs|
    requires forall v: nat :: n <= v < USERTOP ==> PteOf(k, p, v) == NOPTE
    ensures var k', o' := k.(procs := procs), o.(limit := o.limit[p := n]);
            Inv(k', o') && SameAll(k, k') && (Recorded(k, o) ==> Recorded(k', o'))
  {
    hide TreesOk, Lookup, FreeOk;
    EntriesBounded(k, o);
    SamePtes(k, o, k.(procs := procs), o.(limit := o.limit[p := n]));
  }

  lemma UnmapFrameStep(k: Vm, o: Own, p: nat, vpn: nat)
    requires Inv(k, o) && Live(k, p) && vpn < USERTOP && PteOf(k, p, vpn).v
    ensures LeafOf(k.mem, k.roots[p].value, vpn).Some? && I0(vpn) < FANOUT
    ensures IsTable(k.mem, LeafOf(k.mem, k.roots[p].value, vpn).value) && PteOf(k, p, vpn).num < |k.mem|
    ensures Entry(k.mem, LeafOf(k.mem, k.roots[p].value, vpn).value, I0(vpn)) == PteOf(k, p, vpn)
    ensures var f := PteOf(k, p, vpn).num;
            && f < |k.frames| && f < |o.role| && LeafOf(k.mem, k.roots[p].value, vpn).value != f
            && var k' := k.(mem := StoreAt(k, p, vpn, NOPTE)[f := JunkFreed()], freelist := [f] + k.freelist,
                 frames := k.frames[f := CLEARED]);
               Changed(k, o, k', o.(role := o.role[f := Free]), p, vpn, vpn + 1) && PteOf(k', p, vpn) == NOPTE
  {
    WalkDown(k.mem, o.role, k.roots, p, vpn);
    UnmapFrameMove(k, o, p, vpn, JunkFreed());
    assert PteOk(o, p, vpn, PteOf(k, p, vpn));
    var f := PteOf(k, p, vpn).num;
    StoreHere(k, o, p, vpn, NOPTE);
    OutsideTrees(StoreAt(k, p, vpn, NOPTE), o.role, k.roots, f, JunkFreed(), Free);
    hide TreesOk, Lookup, SetEntry, LeafOf, PagesOk, FramesOk, SlotsOk, FreeOk, Contents, Flags;
  }

  lemma UnmapSlotStep(k: Vm, o: Own, p: nat, vpn: nat)
    requires Inv(k, o) && Live(k, p) && vpn < USERTOP && !PteOf(k, p, vpn).v && PteOf(k, p, vpn).s
    ensures LeafOf(k.mem, k.roots[p].value, vpn).Some? && I0(vpn) < FANOUT
    ensures IsTable(k.mem, LeafOf(k.mem, k.roots[p].value, vpn).value)
    ensures Entry(k.mem, LeafOf(k.mem, k.roots[p].value, vpn).value, I0(vpn)) == PteOf(k, p, vpn)
    ensures var i := PteOf(k, p, vpn).num;
            && i < |k.mask| && i < |o.slot|
            && var k' := k.(mem := StoreAt(k, p, vpn, NOPTE), mask := k.mask[i := false]);
               Changed(k, o, k', o.(slot := o.slot[i := NoOwner]), p, vpn, vpn + 1) && PteOf(k', p, vpn) == NOPTE
  {
    WalkDown(k.mem, o.role, k.roots, p, vpn);
    UnmapSlotMove(k, o, p, vpn);
    StoreHere(k, o, p, vpn, NOPTE);
    hide TreesOk, Lookup, SetEntry, LeafOf, PagesOk, FramesOk, SlotsOk, FreeOk, Contents, Flags;
  }

  lemma UnmapNothing(k: Vm, o: Own, p: nat, vpn: nat)
    requires Inv(k, o) && Live(k, p) && vpn < USERTOP
    ensures LeafOf(k.mem, k.roots[p].value, vpn).None? ==> PteOf(k, p, vpn) == NOPTE
    ensures LeafOf(k.mem, k.roots[p].value, vpn).Some? ==>
              Entry(k.mem, LeafOf(k.mem, k.roots[p].value, vpn).value, I0(vpn)) == PteOf(k, p, vpn)
    ensures !PteOf(k, p, vpn).v && !PteOf(k, p, vpn).s ==> PteOf(k, p, vpn) == NOPTE
    ensures Changed(k, o, k, o, p, vpn, vpn + 1)
  {
  }

  /** What uvmcopy reads for a page, even when the allocation for the copy has just evicted it. */
  lemma SourceBytes(k: Vm, o: Own, k1: Vm, o1: Own, f: nat, p: nat, vpn: nat)
    requires Allocated(k, o, k1, o1, f) && Live(k, p) && vpn < USERTOP
    ensures var e := PteOf(k, p, vpn);
            && (e.v ==> e.num < |k1.mem| && Bytes(k1.mem[e.num]) == Contents(k, p, vpn))
            && (!e.v && e.s ==> e.num < |k1.swap| && k1.swap[e.num] == Contents(k, p, vpn))
  {
    hide TreesOk, Lookup, LeafOf;
    var e := PteOf(k, p, vpn);
    assert PteOk(o, p, vpn, e);
    if e.v {
      assert UserOk(k, o, e.num);
    } else if e.s {
      assert SlotOk(k, o, e.num);
    }
  }

  /** The swap-in of vmfault after its allocation and copy. */
  lemma SwapInStep(k: Vm, o: Own, k1: Vm, o1: Own, p: nat, vpn: nat, f: nat)
    requires Allocated(k, o, k1, o1, f) && Live(k, p) && vpn < USERTOP && !PteOf(k, p, vpn).v && PteOf(k, p, vpn).s
    requires k1.clock == k.clock && |k1.frames| == |k.frames|
    ensures var e := PteOf(k, p, vpn);
            && e.num < |k1.swap| && e.num < |k1.mask| && e.num < |o1.slot| && f < |k1.mem| && f < |k1.frames|
            && f < |o1.role|
            && var k2 := k1.(mem := k1.mem[f := Data(k1.swap[e.num])]);
               && k2.roots == k.roots && Live(k2, p)
               && LeafOf(k2.mem, k2.roots[p].value, vpn) == LeafOf(k.mem, k.roots[p].value, vpn)
               && LeafOf(k2.mem, k2.roots[p].value, vpn).Some?
               && I0(vpn) < FANOUT && IsTable(k2.mem, LeafOf(k2.mem, k2.roots[p].value, vpn).value)
               && Entry(k2.mem, LeafOf(k2.mem, k2.roots[p].value, vpn).value, I0(vpn)) == e
               && var k3 := k2.(mem := StoreAt(k2, p, vpn, e.(v := true, s := false, num := f)),
                    mask := k2.mask[e.num := false], frames := k2.frames[f := Frame(true, p, vpn, true)]);
                  var o3 := o1.(role := o1.role[f := User(p, vpn)], slot := o1.slot[e.num := NoOwner]);
                  Changed(k, o, k3, o3, p, vpn, vpn + 1) && SameAll(k, k3) &&
                    PteOf(k3, p, vpn) == e.(v := true, s := false, num := f)
  {
    var e := PteOf(k, p, vpn);
    assert PteOk(o, p, vpn, e) && SlotOk(k, o, e.num);
    var page := Data(k1.swap[e.num]);
    var k2 := k1.(mem := k1.mem[f := page]);
    FillQuiet(k, o, k1, o1, f, page);
    OutsideTrees(k1.mem, o1.role, k1.roots, f, page, Kern);
    WalkDown(k2.mem, o1.role, k2.roots, p, vpn);
    WalkDown(k.mem, o.role, k.roots, p, vpn);
    assert Live(k2, p);
    SwapInMove(k2, o1, p, vpn, f);
    StoreHere(k2, o1, p, vpn, e.(v := true, s := false, num := f));
    SwapInRecord(k, o, k2, o1, p, vpn, f);
  }

  lemma SwapInRecord(k: Vm, o: Own, k2: Vm, o2: Own, p: nat, vpn: nat, f: nat)
    requires Quiet(k, o, k2, o2) && Live(k, p) && vpn < USERTOP && !PteOf(k, p, vpn).v && PteOf(k, p, vpn).s
    requires k2.clock == k.clock && |k2.frames| == |k.frames|
    requires f < |o2.role| && o2.role[f] == Kern && PteOf(k, p, vpn).num < |k2.swap|
    requires k2.mem[f] == Data(k2.swap[PteOf(k, p, vpn).num])
    ensures k2.roots == k.roots && LeafOf(k2.mem, k2.roots[p].value, vpn).Some? && I0(vpn) < FANOUT
    ensures IsTable(k2.mem, LeafOf(k2.mem, k2.roots[p].value, vpn).value)
    ensures var e := PteOf(k, p, vpn);
            var k3 := k2.(mem := StoreAt(k2, p, vpn, e.(v := true, s := false, num := f)),
              mask := k2.mask[e.num := false], frames := k2.frames[f := Frame(true, p, vpn, true)]);
            var o3 := o2.(role := o2.role[f := User(p, vpn)], slot := o2.slot[e.num := NoOwner]);
            Changed(k, o, k3, o3, p, vpn, vpn + 1) && SameAll(k, k3) &&
              PteOf(k3, p, vpn) == e.(v := true, s := false, num := f)
  {
    var e := PteOf(k, p, vpn);
    assert Live(k2, p) && PteOf(k2, p, vpn) == e;
    SwapInMove(k2, o2, p, vpn, f);
    StoreHere(k2, o2, p, vpn, e.(v := true, s := false, num := f));
    hide TreesOk, Lookup, LeafOf, SetEntry, PagesOk, FramesOk, SlotsOk, FreeOk, Contents, Flags;
    var kk := k2.(mem := StoreAt(k2, p, vpn, e.(v := true, s := false, num := f)), mask := k2.mask[e.num := false]);
    var o3 := o2.(role := o2.role[f := User(p, vpn)], slot := o2.slot[e.num := NoOwner]);
    RecordMove(kk, o3, f, Frame(true, p, vpn, true));
    var k3 := kk.(frames := kk.frames[f := Frame(true, p, vpn, true)]);
    SameAllTrans(k, k2, kk);
    SameAllTrans(k, kk, k3);
    forall q: nat, v: nat
      ensures PteOf(k3, q, v) == PteOf(kk, q, v)
    {
    }
    assert Stored(k2, kk, p, vpn, e.(v := true, s := false, num := f));
    forall q: nat, v: nat | Live(k, q) && v < MAXVPN && !PteOf(k, q, v).v && !(q == p && v == vpn)
      ensures PteOf(k3, q, v) == PteOf(k, q, v)
    {
      assert Live(k2, q) && PteOf(k2, q, v) == PteOf(k, q, v);
    }
  }

  function Pages(sz: nat): nat { (sz + PGSIZE - 1) / PGSIZE }

  lemma ChangedWider(k: Vm, o: Own, p: nat, vpn: nat)
    requires Inv(k, o)
    ensures Changed(k, o, k, o, p, vpn, vpn + 1)
  {
  }

  /** After walk(…, 1), the entry is what the flat page map held before it. */
  lemma FaultWalked(k: Vm, o: Own, k1: Vm, o1: Own, p: nat, vpn: nat)
    requires Quiet(k, o, k1, o1) && Live(k, p) && vpn < USERTOP && LeafOf(k1.mem, k1.roots[p].value, vpn).Some?
    requires LeafOf(k.mem, k.roots[p].value, vpn).Some? ==> k1 == k && o1 == o
    ensures Inv(k1, o1) && Live(k1, p) && o1.limit == o.limit && k1.roots == k.roots
    ensures PteOf(k1, p, vpn) == PteOf(k, p, vpn)
    ensures Entry(k1.mem, LeafOf(k1.mem, k1.roots[p].value, vpn).value, I0(vpn)) == PteOf(k, p, vpn)
    ensures PteOf(k, p, vpn).s ==> !PteOf(k, p, vpn).v
    ensures !PteOf(k, p, vpn).v && !PteOf(k, p, vpn).s ==> PteOf(k, p, vpn) == NOPTE
    ensures PteOf(k, p, vpn).v ==> k1 == k && o1 == o
  {
  }

  lemma FaultContents(k: Vm, k1: Vm, k2: Vm, p: nat, vpn: nat)
    requires SameAll(k, k1) && SameAll(k1, k2) && Live(k, p) && vpn < USERTOP
    ensures Contents(k2, p, vpn) == Contents(k, p, vpn) && Flags(k2, p, vpn) == Flags(k, p, vpn)
  {
    hide Contents, Flags;
    assert Live(k1, p);
    assert SamePage(k, k1, p, vpn) && SamePage(k1, k2, p, vpn);
  }

  lemma LazyContents(k: Vm, p: nat, vpn: nat)
    requires PteOf(k, p, vpn) == NOPTE
    ensures Contents(k, p, vpn) == Zeros()
  {
  }

  lemma StillEmpty(k: Vm, o: Own, k1: Vm, o1: Own, p: nat, vpn: nat)
    requires Quiet(k, o, k1, o1) && Live(k, p) && vpn < MAXVPN && PteOf(k, p, vpn) == NOPTE
    ensures Inv(k1, o1) && Live(k1, p) && PteOf(k1, p, vpn) == NOPTE && o1.limit == o.limit
  {
  }
}
