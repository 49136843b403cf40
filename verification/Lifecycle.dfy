/** Page tables coming into being and going away: proc_pagetable, proc_freepagetable and freewalk. */
module Lifecycle {
  import opened Basics
  import opened PageTable
  import opened Frames
  import opened PagingSteps

  /** Every process but p keeps its page table, and all its pages look the same. */
  ghost predicate OthersSame(k: Vm, k': Vm, p: nat) {
    && |k'.roots| == |k.roots|
    && (forall q: nat :: q < |k.roots| && q != p ==> k'.roots[q] == k.roots[q])
    && forall q: nat, v: nat :: Live(k, q) && q != p && v < USERTOP ==> SamePage(k, k', q, v)
  }

  /** uvmcreate: p gets a root whose page map is empty. */
  lemma NewRootMove(k: Vm, o: Own, p: nat, f: nat)
    requires Inv(k, o) && p < |k.roots| && k.roots[p].None? && f < |o.role| && o.role[f] == Kern
    ensures var k' := k.(mem := k.mem[f := EmptyTable()], roots := k.roots[p := Some(f)]);
            var o' := o.(role := o.role[f := Root(p)], limit := o.limit[p := 0]);
            && Inv(k', o') && OthersSame(k, k', p) && (Recorded(k, o) ==> Recorded(k', o'))
            && forall v: nat :: PteOf(k', p, v) == NOPTE
  {
    PlantRoot(k.mem, o.role, k.roots, p, f);
    var k' := k.(mem := k.mem[f := EmptyTable()], roots := k.roots[p := Some(f)]);
    var o' := o.(role := o.role[f := Root(p)], limit := o.limit[p := 0]);
    hide TreesOk, Lookup;
    forall q: nat, v: nat | Live(k, q) && v < MAXVPN
      ensures PteOf(k', q, v) == PteOf(k, q, v) && PteOk(o, q, v, PteOf(k, q, v))
    {
    }
    Rebuilt(k, o, k', o', p);
  }

  /** When only p's page table comes or goes, and p has no pages, everyone else is consistent as before. */
  lemma Rebuilt(k: Vm, o: Own, k': Vm, o': Own, p: nat)
    requires Inv(k, o) && Sizes(k', o') && TreesOk(k'.mem, o'.role, k'.roots) && FreeOk(k'.freelist, o'.role)
    requires p < |k.roots| == |k'.roots| && forall q: nat :: q < |k.roots| && q != p ==> k'.roots[q] == k.roots[q]
    requires k'.swap == k.swap && k'.mask == k.mask && k'.frames == k.frames
    requires |o'.role| == |o.role| && o'.slot == o.slot
    requires forall q: nat :: q < |o.limit| && q != p ==> o'.limit[q] == o.limit[q]
    requires forall g: nat :: g < |o.role| && (o.role[g].User? || o'.role[g].User?) ==>
               o'.role[g] == o.role[g] && k'.mem[g] == k.mem[g]
    requires forall q: nat, v: nat :: Live(k, q) && q != p && v < MAXVPN ==> PteOf(k', q, v) == PteOf(k, q, v)
    requires forall v: nat :: v < USERTOP ==> PteOf(k, p, v) == NOPTE
    requires forall v: nat :: v < MAXVPN ==> PteOf(k', p, v) == NOPTE
    ensures Inv(k', o') && OthersSame(k, k', p) && (Recorded(k, o) ==> Recorded(k', o'))
  {
    hide TreesOk, Lookup, FreeOk;
    forall q: nat, v: nat | Live(k', q) && v < MAXVPN
      ensures PteOk(o', q, v, PteOf(k', q, v))
      ensures v < USERTOP && q != p ==> SamePage(k, k', q, v)
    {
      if q != p {
        assert PteOk(o, q, v, PteOf(k, q, v));
      }
    }
    forall g: nat | g < |o.role|
      ensures UserOk(k', o', g)
    {
      assert UserOk(k, o, g);
    }
    forall i: nat | i < |o.slot|
      ensures SlotOk(k', o', i)
    {
      assert SlotOk(k, o, i);
    }
  }

  /** What such a store does to memory and to the page maps. */
  lemma HighStored(k: Vm, o: Own, p: nat, vpn: nat, e: Pte)
    requires Inv(k, o) && Live(k, p) && vpn < MAXVPN && LeafOf(k.mem, k.roots[p].value, vpn).Some?
    ensures IsTable(k.mem, LeafOf(k.mem, k.roots[p].value, vpn).value) && I0(vpn) < FANOUT
    ensures var k' := k.(mem := StoreAt(k, p, vpn, e));
            && TreesOk(k'.mem, o.role, k.roots) && |k'.mem| == |k.mem|
            && (forall g: nat :: g < |o.role| && o.role[g].User? ==> g < |k.mem| && k'.mem[g] == k.mem[g])
            && forall q: nat, v: nat :: Live(k, q) && v < MAXVPN ==>
                 PteOf(k', q, v) == if q == p && v == vpn then e else PteOf(k, q, v)
  {
    PartsVpn(vpn);
    WalkDown(k.mem, o.role, k.roots, p, vpn);
    StoreLeaf(k.mem, o.role, k.roots, p, vpn, e);
    hide TreesOk, Lookup, LeafOf, SetEntry, PagesOk, FramesOk, SlotsOk, FreeOk;
  }

  /** A store into an entry at or above the trapframe, which belongs to the kernel. */
  lemma HighMove(k: Vm, o: Own, p: nat, vpn: nat, e: Pte)
    requires Inv(k, o) && Live(k, p) && USERTOP <= vpn < MAXVPN && LeafOf(k.mem, k.roots[p].value, vpn).Some?
    requires !e.s && !e.perm.u && (!e.v ==> e == NOPTE)
    ensures IsTable(k.mem, LeafOf(k.mem, k.roots[p].value, vpn).value) && I0(vpn) < FANOUT
    ensures var k' := k.(mem := StoreAt(k, p, vpn, e));
            && Inv(k', o) && SameAll(k, k') && (Recorded(k, o) ==> Recorded(k', o))
            && forall q: nat, v: nat :: Live(k, q) && v < MAXVPN ==>
                 PteOf(k', q, v) == if q == p && v == vpn then e else PteOf(k, q, v)
  {
    hide TreesOk, Lookup, LeafOf, SetEntry, Entry, StoreAt, FreeOk;
    HighStored(k, o, p, vpn, e);
    var k' := k.(mem := StoreAt(k, p, vpn, e));
    forall q: nat, v: nat | Live(k', q) && v < MAXVPN
      ensures PteOk(o, q, v, PteOf(k', q, v))
      ensures v < USERTOP ==> SamePage(k, k', q, v)
    {
      assert PteOk(o, q, v, PteOf(k, q, v));
    }
    forall g: nat | g < |o.role|
      ensures UserOk(k', o, g)
    {
      assert UserOk(k, o, g);
    }
    forall i: nat | i < |o.slot|
      ensures SlotOk(k', o, i)
    {
      assert SlotOk(k, o, i);
    }
  }

  /** Before freewalk: p has no page left, so its tables are just pages the kernel holds. */
  lemma DetachMove(k: Vm, o: Own, p: nat)
    requires Inv(k, o) && Live(k, p) && forall v: nat :: v < MAXVPN ==> PteOf(k, p, v) == NOPTE
    ensures var k' := k.(roots := k.roots[p := None]);
            var o' := Own(Uprooted(o.role, p), o.slot, o.limit[p := 0]);
            Inv(k', o') && OthersSame(k, k', p) && (Recorded(k, o) ==> Recorded(k', o'))
  {
    Uproot(k.mem, o.role, k.roots, p);
    var k' := k.(roots := k.roots[p := None]);
    var o' := Own(Uprooted(o.role, p), o.slot, o.limit[p := 0]);
    hide TreesOk, Lookup, Uprooted;
    assert FreeOk(k'.freelist, o'.role);
    forall q: nat, v: nat | Live(k, q) && q != p && v < MAXVPN
      ensures PteOf(k', q, v) == PteOf(k, q, v)
    {
    }
    Rebuilt(k, o, k', o', p);
  }

  // ----- freewalk -----

  /** g is table f itself or hangs below it. */
  predicate Under(role: seq<Role>, f: nat, g: nat) {
    && f < |role| && g < |role|
    && (g == f
        || (role[f].Root? && (role[g].Mid? || role[g].Leaf?) && role[g].p == role[f].p)
        || (role[f].Mid? && role[g].Leaf? && role[g].p == role[f].p && role[g].i2 == role[f].i2))
  }

  /** The slot of f below which g hangs. */
  function SlotUnder(role: seq<Role>, f: nat, g: nat): nat
    requires Under(role, f, g) && g != f
  {
    if role[f].Root? then role[g].i2 else role[g].i1
  }

  ghost predicate AtLevel(role: seq<Role>, f: nat, level: nat) {
    && f < |role|
    && (level == 2 ==> role[f].Root?) && (level == 1 ==> role[f].Mid?) && (level == 0 ==> role[f].Leaf?) && level <= 2
  }

  /** The page map of p is empty all the way up, so its leaf tables hold no valid entry. */
  ghost predicate NoLeaves(mem: Mem, role: seq<Role>, p: nat) {
    forall f: nat, i: nat :: f < |role| && role[f].Leaf? && role[f].p == p && i < FANOUT ==> !Entry(mem, f, i).v
  }

  lemma EmptyHasNoLeaves(k: Vm, o: Own, p: nat)
    requires Inv(k, o) && Live(k, p) && forall v: nat :: v < MAXVPN ==> PteOf(k, p, v) == NOPTE
    ensures NoLeaves(k.mem, o.role, p)
  {
    forall f: nat, i: nat | f < |o.role| && o.role[f].Leaf? && o.role[f].p == p && i < FANOUT
      ensures !Entry(k.mem, f, i).v
    {
      assert FrameOk(k.mem, o.role, k.roots, f);
      var Leaf(_, i2, i1) := o.role[f];
      VpnParts(i2, i1, i);
      assert PteOf(k, p, Vpn(i2, i1, i)) == NOPTE;
    }
  }

  lemma TableHere(mem: Mem, role: seq<Role>, roots: Roots, f: nat)
    requires TreesOk(mem, role, roots) && f < |role| && TableRole(role[f])
    ensures |mem| == |role| && IsTable(mem, f)
  {
    assert FrameOk(mem, role, roots, f);
  }

  /** Below slot i of a table hangs exactly the subtree of the entry there. */
  lemma ChildOf(mem: Mem, role: seq<Role>, roots: Roots, f: nat, level: nat, i: nat)
    requires TreesOk(mem, role, roots) && 1 <= level <= 2 && AtLevel(role, f, level) && i < FANOUT
    ensures Entry(mem, f, i).v ==>
              && AtLevel(role, Entry(mem, f, i).num, level - 1) && role[Entry(mem, f, i).num].p == role[f].p
              && Entry(mem, f, i).perm == NOPERM && Entry(mem, f, i).num != f
    ensures forall g: nat :: Under(role, f, g) && g != f ==>
              (SlotUnder(role, f, g) == i <==> Entry(mem, f, i).v && Under(role, Entry(mem, f, i).num, g))
    ensures forall g: nat :: Under(role, f, g) && g != f ==> SlotUnder(role, f, g) < FANOUT
    ensures Entry(mem, f, i).v ==> forall g: nat :: Under(role, Entry(mem, f, i).num, g) ==> Under(role, f, g) && g != f
  {
    assert FrameOk(mem, role, roots, f);
    var e := Entry(mem, f, i);
    forall g: nat | Under(role, f, g) && g != f
      ensures SlotUnder(role, f, g) < FANOUT
      ensures SlotUnder(role, f, g) == i <==> e.v && Under(role, e.num, g)
    {
      assert FrameOk(mem, role, roots, g);
      assert RoleAt(role, roots[role[f].p].value) == Root(role[f].p);
    }
  }

  /** Only the tables under f have moved. */
  ghost predicate Torn(k: Vm, o: Own, k': Vm, o': Own, role: seq<Role>, f: nat) {
    && SameAll(k, k') && k'.procs == k.procs && k'.swap == k.swap && k'.mask == k.mask && k'.clock == k.clock
    && |k'.frames| == |k.frames| && |k'.mem| == |k.mem|
    && o'.slot == o.slot && o'.limit == o.limit && |o'.role| == |o.role| && |k.mem| == |o.role| && TrapKept(o, o')
    && (forall g: nat :: g < |o.role| && !Under(role, f, g) ==> o'.role[g] == o.role[g] && k'.mem[g] == k.mem[g])
    && (Recorded(k, o) ==> Recorded(k', o'))
  }

  lemma TornSelf(k: Vm, o: Own, role: seq<Role>, f: nat)
    requires Inv(k, o)
    ensures Torn(k, o, k, o, role, f)
  {
  }

  lemma TornKeeps(k: Vm, o: Own, k': Vm, o': Own, role: seq<Role>, c: nat)
    requires Torn(k, o, k', o', role, c)
    ensures |o'.role| == |o.role| == |k.mem| == |k'.mem|
    ensures forall g: nat :: g < |o.role| && !Under(role, c, g) ==> o'.role[g] == o.role[g] && k'.mem[g] == k.mem[g]
  {
  }

  /** Tearing down a child is tearing down part of the parent's subtree. */
  lemma TornBelow(k: Vm, o: Own, k1: Vm, o1: Own, k2: Vm, o2: Own, role: seq<Role>, f: nat, c: nat)
    requires Torn(k, o, k1, o1, role, f) && Torn(k1, o1, k2, o2, role, c)
    requires forall g: nat :: Under(role, c, g) ==> Under(role, f, g)
    ensures Torn(k, o, k2, o2, role, f)
  {
    hide Contents, Flags;
    SameAllTrans(k, k1, k2);
  }

  /** freewalk's `pagetable[i] = 0` on a detached table. */
  lemma ClearEntry(k: Vm, o: Own, f: nat, i: nat)
    requires Inv(k, o) && f < |o.role| && o.role[f] == Kern && IsTable(k.mem, f) && i < FANOUT
    ensures var k' := k.(mem := SetEntry(k.mem, f, i, NOPTE)); Inv(k', o) && SameAll(k, k')
  {
    hide TreesOk, PagesOk, FramesOk, SlotsOk, FreeOk;
    var page := Table(k.mem[f].ptes[i := NOPTE]);
    assert o.role[f := Kern] == o.role;
    QuietFrame(k, o, f, page, Kern, k.(mem := k.mem[f := page]));
  }

  lemma TornHere(k: Vm, o: Own, k1: Vm, o1: Own, k2: Vm, o2: Own, role: seq<Role>, f: nat)
    requires Torn(k, o, k1, o1, role, f) && SameAll(k1, k2) && o2 == o1 && k2 == k1.(mem := k2.mem)
    requires |k2.mem| == |k1.mem| && f < |role| == |o.role|
    requires forall g: nat :: g < |k1.mem| && g != f ==> k2.mem[g] == k1.mem[g]
    ensures Torn(k, o, k2, o2, role, f)
  {
    hide Contents, Flags;
    SameAllTrans(k, k1, k2);
  }

  lemma TornFree(k: Vm, o: Own, k1: Vm, o1: Own, k2: Vm, o2: Own, role: seq<Role>, f: nat)
    requires Torn(k, o, k1, o1, role, f) && SameAll(k1, k2) && f < |role| == |o.role| && |k1.frames| == |o1.role|
    requires o1.role[f] == Kern
    requires o2 == o1.(role := o1.role[f := Free])
    requires k2 == k1.(mem := k2.mem, freelist := k2.freelist, frames := k1.frames[f := CLEARED])
    requires |k2.mem| == |k1.mem|
    requires forall g: nat :: g < |k1.mem| && g != f ==> k2.mem[g] == k1.mem[g]
    ensures Torn(k, o, k2, o2, role, f)
  {
    hide Contents, Flags;
    SameAllTrans(k, k1, k2);
  }
}
