/** Sv39 page tables in physical memory (section 4.4 of the RISC-V Privileged Architecture,
    version 20211203), as kernel/vm.c walks them: a page number is split into three 9-bit indices
    and each table page holds 512 entries.

    Every physical frame has one role.  A frame that is a table knows its place (whose table it is
    and which slot of which parent names it), so two tables never share a frame and a store into
    one leaf entry changes exactly one page of one process. */
module PageTable {
  import opened Basics

  const FANOUT: nat := 512
  const TOPFANOUT: nat := 256           // MAXVA is one bit short of Sv39, so half the root is never used
  const MAXVPN: nat := 0x400_0000       // MAXVA / PGSIZE
  const USERTOP: nat := MAXVPN - 2      // TRAPFRAME / PGSIZE

  /** The flag bits of an entry other than V and S. */
  datatype Perm = Perm(r: bool, w: bool, x: bool, u: bool, rest: nat)

  /** v: PTE_V, s: PTE_S, num: the bits from 10 up, a frame or a swap slot. */
  datatype Pte = Pte(v: bool, s: bool, num: nat, perm: Perm)

  const NOPERM: Perm := Perm(false, false, false, false, 0)
  const NOPTE: Pte := Pte(false, false, 0, NOPERM)

  /** What a physical page holds. */
  datatype Page = Data(bytes: seq<int>) | Table(ptes: seq<Pte>)

  datatype Role =
    | Free
    | Kern                          // held by the kernel
    | User(p: nat, vpn: nat)        // backs page vpn of process p
    | Trap(p: nat)                  // p->trapframe
    | Root(p: nat)                  // p->pagetable
    | Mid(p: nat, i2: nat)          // named by entry i2 of p's root
    | Leaf(p: nat, i2: nat, i1: nat)

  type Mem = seq<Page>

  // ----- indices -----

  function I2(vpn: nat): nat { vpn / 0x4_0000 }
  function I1(vpn: nat): nat { vpn / 512 % 512 }
  function I0(vpn: nat): nat { vpn % 512 }
  function Vpn(i2: nat, i1: nat, i0: nat): nat { i2 * 0x4_0000 + i1 * 512 + i0 }

  lemma By512(q: nat, r: nat)
    requires r < 512
    ensures (q * 512 + r) / 512 == q && (q * 512 + r) % 512 == r
  {
  }

  lemma VpnParts(i2: nat, i1: nat, i0: nat)
    requires i1 < FANOUT && i0 < FANOUT
    ensures I2(Vpn(i2, i1, i0)) == i2 && I1(Vpn(i2, i1, i0)) == i1 && I0(Vpn(i2, i1, i0)) == i0
  {
    assert Vpn(i2, i1, i0) == (i2 * 512 + i1) * 512 + i0;
    By512(i2 * 512 + i1, i0);
    By512(i2, i1);
  }

  lemma PartsVpn(vpn: nat)
    ensures Vpn(I2(vpn), I1(vpn), I0(vpn)) == vpn && I1(vpn) < FANOUT && I0(vpn) < FANOUT
    ensures vpn < MAXVPN ==> I2(vpn) < TOPFANOUT
  {
  }

  // ----- reading -----

  function Entry(mem: Mem, f: nat, i: nat): Pte {
    if f < |mem| && mem[f].Table? && i < |mem[f].ptes| then mem[f].ptes[i] else NOPTE
  }

  predicate IsTable(mem: Mem, f: nat) { f < |mem| && mem[f].Table? && |mem[f].ptes| == FANOUT }

  /** The flat page map a root stands for: the leaf entry of vpn, or an empty one if a table is missing. */
  function Lookup(mem: Mem, root: nat, vpn: nat): Pte {
    var e2 := Entry(mem, root, I2(vpn));
    if !e2.v then NOPTE
    else
      var e1 := Entry(mem, e2.num, I1(vpn));
      if !e1.v then NOPTE else Entry(mem, e1.num, I0(vpn))
  }

  /** The hardware's walk for address va, by bits 38 to 30, 29 to 21 and 20 to 12 of it. */
  function Sv39(mem: Mem, root: nat, va: nat): Pte {
    var e2 := Entry(mem, root, va / 0x4000_0000 % 512);
    if !e2.v then NOPTE
    else
      var e1 := Entry(mem, e2.num, va / 0x20_0000 % 512);
      if !e1.v then NOPTE else Entry(mem, e1.num, va / 0x1000 % 512)
  }

  /** The page map is what the hardware finds, for every address below MAXVA. */
  lemma LookupIsSv39(mem: Mem, root: nat, va: nat)
    requires va < 0x40_0000_0000
    ensures Lookup(mem, root, va / 4096) == Sv39(mem, root, va)
  {
    hide Entry;
    var vpn := va / 4096;
    assert vpn / 0x4_0000 == va / 0x4000_0000 < 512 && vpn / 512 == va / 0x20_0000;
  }

  // ----- the trees -----

  function RoleAt(role: seq<Role>, f: nat): Role { if f < |role| then role[f] else Kern }

  /** roots[p] is the root frame of a live process p; a dead one has none. */
  type Roots = seq<Option<nat>>

  ghost predicate RootIs(roots: Roots, p: nat, f: nat) { p < |roots| && roots[p] == Some(f) }

  ghost predicate FrameOk(mem: Mem, role: seq<Role>, roots: Roots, f: nat) {
    match RoleAt(role, f)
    case Root(p) =>
      && RootIs(roots, p, f) && IsTable(mem, f)
      && forall i: nat :: i < FANOUT && Entry(mem, f, i).v ==>
           Entry(mem, f, i).perm == NOPERM && RoleAt(role, Entry(mem, f, i).num) == Mid(p, i)
    case Mid(p, i2) =>
      && p < |roots| && roots[p].Some? && i2 < TOPFANOUT && IsTable(mem, f)
      && Entry(mem, roots[p].value, i2).v && Entry(mem, roots[p].value, i2).num == f
      && forall i: nat :: i < FANOUT && Entry(mem, f, i).v ==>
           Entry(mem, f, i).perm == NOPERM && RoleAt(role, Entry(mem, f, i).num) == Leaf(p, i2, i)
    case Leaf(p, i2, i1) =>
      && p < |roots| && roots[p].Some? && i2 < TOPFANOUT && i1 < FANOUT && IsTable(mem, f)
      && var e2 := Entry(mem, roots[p].value, i2);
         e2.v && RoleAt(role, e2.num) == Mid(p, i2) && Entry(mem, e2.num, i1).v && Entry(mem, e2.num, i1).num == f
    case _ => true
  }

  ghost predicate TreesOk(mem: Mem, role: seq<Role>, roots: Roots) {
    && |role| == |mem|
    && (forall f: nat :: f < |role| ==> FrameOk(mem, role, roots, f))
    && (forall p: nat :: p < |roots| && roots[p].Some? ==> RoleAt(role, roots[p].value) == Root(p))
  }

  /** The leaf table of (p, vpn), when the upper tables lead to one. */
  function LeafOf(mem: Mem, root: nat, vpn: nat): Option<nat> {
    var e2 := Entry(mem, root, I2(vpn));
    if !e2.v then None
    else
      var e1 := Entry(mem, e2.num, I1(vpn));
      if !e1.v then None else Some(e1.num)
  }

  lemma WalkDown(mem: Mem, role: seq<Role>, roots: Roots, p: nat, vpn: nat)
    requires TreesOk(mem, role, roots) && p < |roots| && roots[p].Some? && vpn < MAXVPN
    ensures var root := roots[p].value;
            && IsTable(mem, root) && RoleAt(role, root) == Root(p)
            && (Entry(mem, root, I2(vpn)).v ==>
                  && RoleAt(role, Entry(mem, root, I2(vpn)).num) == Mid(p, I2(vpn))
                  && IsTable(mem, Entry(mem, root, I2(vpn)).num))
            && (LeafOf(mem, root, vpn).Some? ==>
                  var f := LeafOf(mem, root, vpn).value;
                  RoleAt(role, f) == Leaf(p, I2(vpn), I1(vpn)) && IsTable(mem, f) &&
                    Lookup(mem, root, vpn) == Entry(mem, f, I0(vpn)))
            && (LeafOf(mem, root, vpn).None? ==> Lookup(mem, root, vpn) == NOPTE)
  {
    PartsVpn(vpn);
    var root := roots[p].value;
    assert FrameOk(mem, role, roots, root);
    var e2 := Entry(mem, root, I2(vpn));
    if e2.v {
      assert FrameOk(mem, role, roots, e2.num);
      var e1 := Entry(mem, e2.num, I1(vpn));
      if e1.v {
        assert FrameOk(mem, role, roots, e1.num);
      }
    }
  }

  function SetEntry(mem: Mem, f: nat, i: nat, e: Pte): (r: Mem)
    requires IsTable(mem, f) && i < FANOUT
    ensures |r| == |mem| && IsTable(r, f)
    ensures forall g: nat :: g < |mem| && g != f ==> r[g] == mem[g]
    ensures forall g: nat, j: nat :: Entry(r, g, j) == if g == f && j == i then e else Entry(mem, g, j)
  {
    mem[f := Table(mem[f].ptes[i := e])]
  }

  /** A store into one leaf entry changes one page of one process and keeps every tree intact. */
  lemma StoreLeaf(mem: Mem, role: seq<Role>, roots: Roots, p: nat, vpn: nat, e: Pte)
    requires TreesOk(mem, role, roots) && p < |roots| && roots[p].Some? && vpn < MAXVPN
    requires LeafOf(mem, roots[p].value, vpn).Some?
    ensures var f := LeafOf(mem, roots[p].value, vpn).value;
            && IsTable(mem, f)
            && var mem' := SetEntry(mem, f, I0(vpn), e);
               && TreesOk(mem', role, roots)
               && forall q: nat, v: nat :: q < |roots| && roots[q].Some? && v < MAXVPN ==>
                    && LeafOf(mem', roots[q].value, v) == LeafOf(mem, roots[q].value, v)
                    && Lookup(mem', roots[q].value, v) == if q == p && v == vpn then e
                         else Lookup(mem, roots[q].value, v)
  {
    WalkDown(mem, role, roots, p, vpn);
    PartsVpn(vpn);
    var f := LeafOf(mem, roots[p].value, vpn).value;
    var mem' := SetEntry(mem, f, I0(vpn), e);
    forall g: nat | g < |role|
      ensures FrameOk(mem', role, roots, g)
    {
      StoreLeafFrame(mem, role, roots, f, I0(vpn), e, g);
    }
    forall q: nat, v: nat | q < |roots| && roots[q].Some? && v < MAXVPN
      ensures LeafOf(mem', roots[q].value, v) == LeafOf(mem, roots[q].value, v)
      ensures Lookup(mem', roots[q].value, v) == if q == p && v == vpn then e else Lookup(mem, roots[q].value, v)
    {
      WalkDown(mem, role, roots, q, v);
      PartsVpn(v);
    }
  }

  lemma StoreLeafFrame(mem: Mem, role: seq<Role>, roots: Roots, f: nat, i: nat, e: Pte, g: nat)
    requires TreesOk(mem, role, roots) && IsTable(mem, f) && i < FANOUT && RoleAt(role, f).Leaf? && g < |role|
    ensures FrameOk(SetEntry(mem, f, i, e), role, roots, g)
  {
    assert FrameOk(mem, role, roots, g);
    match role[g]
    case Mid(p, i2) =>
      assert RoleAt(role, roots[p].value) == Root(p);
    case Leaf(p, i2, i1) =>
      assert RoleAt(role, roots[p].value) == Root(p);
    case _ =>
  }

  predicate TableRole(r: Role) { r.Root? || r.Mid? || r.Leaf? }

  ghost predicate SamePages(mem: Mem, mem': Mem, roots: Roots) {
    forall q: nat, v: nat :: q < |roots| && roots[q].Some? && v < MAXVPN ==>
      && LeafOf(mem', roots[q].value, v) == LeafOf(mem, roots[q].value, v)
      && Lookup(mem', roots[q].value, v) == Lookup(mem, roots[q].value, v)
  }

  /** Contents and roles of frames that are not tables do not matter to any page table. */
  lemma OutsideTrees(mem: Mem, role: seq<Role>, roots: Roots, f: nat, page: Page, r: Role)
    requires TreesOk(mem, role, roots) && f < |mem| && !TableRole(role[f]) && !TableRole(r)
    ensures TreesOk(mem[f := page], role[f := r], roots) && SamePages(mem, mem[f := page], roots)
  {
    var mem', role' := mem[f := page], role[f := r];
    forall g: nat | g < |role|
      ensures FrameOk(mem', role', roots, g)
    {
      OutsideFrame(mem, role, roots, f, page, r, g);
    }
    forall q: nat, v: nat | q < |roots| && roots[q].Some? && v < MAXVPN
      ensures LeafOf(mem', roots[q].value, v) == LeafOf(mem, roots[q].value, v)
      ensures Lookup(mem', roots[q].value, v) == Lookup(mem, roots[q].value, v)
    {
      WalkDown(mem, role, roots, q, v);
    }
  }

  lemma OutsideFrame(mem: Mem, role: seq<Role>, roots: Roots, f: nat, page: Page, r: Role, g: nat)
    requires TreesOk(mem, role, roots) && f < |mem| && !TableRole(role[f]) && !TableRole(r) && g < |role|
    ensures FrameOk(mem[f := page], role[f := r], roots, g)
  {
    assert FrameOk(mem, role, roots, g);
    var mem', role' := mem[f := page], role[f := r];
    assert forall h: nat, j: nat :: h != f ==> Entry(mem', h, j) == Entry(mem, h, j);
    if role[g].Root? || role[g].Mid? {
      assert forall j: nat :: j < FANOUT && Entry(mem', g, j).v ==>
        RoleAt(role', Entry(mem', g, j).num) == RoleAt(role, Entry(mem, g, j).num);
    }
    match role[g]
    case Mid(p, i2) =>
      assert RoleAt(role, roots[p].value) == Root(p);
    case Leaf(p, i2, i1) =>
      assert RoleAt(role, roots[p].value) == Root(p);
    case _ =>
  }

  function EmptyTable(): Page { Table(seq(FANOUT, _ => NOPTE)) }

  lemma HungIs(mem: Mem, role: seq<Role>, roots: Roots, up: nat, i: nat, f: nat)
    requires TreesOk(mem, role, roots) && f < |mem| && up < |mem| && !TableRole(role[f]) && i < FANOUT
    requires (role[up].Root? && i < TOPFANOUT) || role[up].Mid?
    requires !Entry(mem, up, i).v
    ensures IsTable(mem[f := EmptyTable()], up)
    ensures var mem' := SetEntry(mem[f := EmptyTable()], up, i, Pte(true, false, f, NOPERM));
            var r := if role[up].Root? then Mid(role[up].p, i) else Leaf(role[up].p, role[up].i2, i);
            Hung(mem, role, up, i, f, mem', r)
  {
    assert FrameOk(mem, role, roots, up);
    hide TreesOk, FrameOk;
  }

  /** Hanging a zeroed table into an empty slot of a root or middle table changes no page. */
  lemma HangTable(mem: Mem, role: seq<Role>, roots: Roots, up: nat, i: nat, f: nat)
    requires TreesOk(mem, role, roots) && f < |mem| && up < |mem| && !TableRole(role[f]) && i < FANOUT
    requires (role[up].Root? && i < TOPFANOUT) || role[up].Mid?
    requires !Entry(mem, up, i).v
    ensures IsTable(mem[f := EmptyTable()], up)
    ensures var mem' := SetEntry(mem[f := EmptyTable()], up, i, Pte(true, false, f, NOPERM));
            var r := if role[up].Root? then Mid(role[up].p, i) else Leaf(role[up].p, role[up].i2, i);
            && TreesOk(mem', role[f := r], roots)
            && forall q: nat, v: nat :: q < |roots| && roots[q].Some? && v < MAXVPN ==>
                 Lookup(mem', roots[q].value, v) == Lookup(mem, roots[q].value, v)
  {
    hide FrameOk, SetEntry, Hung;
    HungIs(mem, role, roots, up, i, f);
    var r := if role[up].Root? then Mid(role[up].p, i) else Leaf(role[up].p, role[up].i2, i);
    var mem', role' := SetEntry(mem[f := EmptyTable()], up, i, Pte(true, false, f, NOPERM)), role[f := r];
    forall g: nat | g < |role|
      ensures FrameOk(mem', role', roots, g)
    {
      HangFrame(mem, role, roots, up, i, f, mem', r, g);
    }
    forall q: nat, v: nat | q < |roots| && roots[q].Some? && v < MAXVPN
      ensures Lookup(mem', roots[q].value, v) == Lookup(mem, roots[q].value, v)
    {
      WalkDown(mem, role, roots, q, v);
    }
  }

  /** The empty table f, of role r, now hangs below entry i of up. */
  ghost predicate Hung(mem: Mem, role: seq<Role>, up: nat, i: nat, f: nat, mem': Mem, r: Role) {
    && |role| == |mem| == |mem'| && f < |mem| && up < |mem| && f != up && !TableRole(role[f]) && i < FANOUT
    && ((role[up].Root? && i < TOPFANOUT) || role[up].Mid?) && !Entry(mem, up, i).v
    && (forall g: nat :: IsTable(mem', g) <==> g == f || IsTable(mem, g))
    && (forall g: nat, j: nat :: Entry(mem', g, j) == if g == up && j == i then Pte(true, false, f, NOPERM)
          else if g == f then NOPTE else Entry(mem, g, j))
    && r == if role[up].Root? then Mid(role[up].p, i) else Leaf(role[up].p, role[up].i2, i)
  }

  lemma HangFrame(mem: Mem, role: seq<Role>, roots: Roots, up: nat, i: nat, f: nat, mem': Mem, r: Role, g: nat)
    requires TreesOk(mem, role, roots) && Hung(mem, role, up, i, f, mem', r) && g < |role|
    ensures FrameOk(mem', role[f := r], roots, g)
  {
    hide FrameOk, Hung;
    if g == f {
      HangNew(mem, role, roots, up, i, f, mem', r);
    } else if role[g].Root? {
      HangRoot(mem, role, roots, up, i, f, mem', r, g);
    } else if role[g].Mid? {
      HangMid(mem, role, roots, up, i, f, mem', r, g);
    } else {
      HangLeaf(mem, role, roots, up, i, f, mem', r, g);
    }
  }

  lemma HangNew(mem: Mem, role: seq<Role>, roots: Roots, up: nat, i: nat, f: nat, mem': Mem, r: Role)
    requires TreesOk(mem, role, roots) && Hung(mem, role, up, i, f, mem', r)
    ensures FrameOk(mem', role[f := r], roots, f)
  {
    assert FrameOk(mem, role, roots, up);
    assert role[up].Mid? ==> RoleAt(role, roots[role[up].p].value) == Root(role[up].p);
  }

  lemma HangRoot(mem: Mem, role: seq<Role>, roots: Roots, up: nat, i: nat, f: nat, mem': Mem, r: Role, g: nat)
    requires TreesOk(mem, role, roots) && Hung(mem, role, up, i, f, mem', r) && g < |role|
    requires g != f && role[g].Root?
    ensures FrameOk(mem', role[f := r], roots, g)
  {
    assert FrameOk(mem, role, roots, g);
  }

  lemma HangMid(mem: Mem, role: seq<Role>, roots: Roots, up: nat, i: nat, f: nat, mem': Mem, r: Role, g: nat)
    requires TreesOk(mem, role, roots) && Hung(mem, role, up, i, f, mem', r) && g < |role|
    requires g != f && role[g].Mid?
    ensures FrameOk(mem', role[f := r], roots, g)
  {
    assert FrameOk(mem, role, roots, g);
    assert RoleAt(role, roots[role[g].p].value) == Root(role[g].p);
  }

  lemma HangLeaf(mem: Mem, role: seq<Role>, roots: Roots, up: nat, i: nat, f: nat, mem': Mem, r: Role, g: nat)
    requires TreesOk(mem, role, roots) && Hung(mem, role, up, i, f, mem', r) && g < |role|
    requires g != f && !role[g].Root? && !role[g].Mid?
    ensures FrameOk(mem', role[f := r], roots, g)
  {
    assert FrameOk(mem, role, roots, g);
    if role[g].Leaf? {
      assert RoleAt(role, roots[role[g].p].value) == Root(role[g].p);
    }
  }

  /** A role after process p's tables have been taken out of service: the kernel just holds them. */
  function Uprooted(role: seq<Role>, p: nat): (r: seq<Role>)
    ensures |r| == |role|
    ensures forall f: nat :: f < |role| ==> r[f] == if TableRole(role[f]) && role[f].p == p then Kern else role[f]
  {
    seq(|role|, f requires 0 <= f < |role| => if TableRole(role[f]) && role[f].p == p then Kern else role[f])
  }

  /** Without its root, a process's tables are ordinary kernel pages and every other tree stands. */
  lemma Uproot(mem: Mem, role: seq<Role>, roots: Roots, p: nat)
    requires TreesOk(mem, role, roots) && p < |roots|
    ensures TreesOk(mem, Uprooted(role, p), roots[p := None])
  {
    var role', roots' := Uprooted(role, p), roots[p := None];
    hide Uprooted;
    forall f: nat | f < |role|
      ensures FrameOk(mem, role', roots', f)
    {
      assert FrameOk(mem, role, roots, f);
      if TableRole(role'[f]) && !role'[f].Root? {
        assert RoleAt(role, roots[role[f].p].value) == Root(role[f].p);
      }
    }
  }

  lemma PlantFrame(mem: Mem, role: seq<Role>, roots: Roots, p: nat, f: nat, mem': Mem, g: nat)
    requires TreesOk(mem, role, roots) && p < |roots| && roots[p].None? && f < |mem| && !TableRole(role[f])
    requires mem' == mem[f := EmptyTable()] && g < |role|
    requires forall h: nat, j: nat :: Entry(mem', h, j) == if h == f then NOPTE else Entry(mem, h, j)
    ensures FrameOk(mem', role[f := Root(p)], roots[p := Some(f)], g)
  {
    assert FrameOk(mem, role, roots, g);
    hide Entry, TreesOk;
    if g != f && TableRole(role[g]) && !role[g].Root? {
      RootRole(mem, role, roots, role[g].p);
    }
  }

  lemma RootRole(mem: Mem, role: seq<Role>, roots: Roots, p: nat)
    requires TreesOk(mem, role, roots) && p < |roots| && roots[p].Some?
    ensures RoleAt(role, roots[p].value) == Root(p)
  {
  }

  /** A fresh root: p gets an empty page map. */
  lemma PlantRoot(mem: Mem, role: seq<Role>, roots: Roots, p: nat, f: nat)
    requires TreesOk(mem, role, roots) && p < |roots| && roots[p].None? && f < |mem| && !TableRole(role[f])
    ensures var mem', role', roots' := mem[f := EmptyTable()], role[f := Root(p)], roots[p := Some(f)];
            && TreesOk(mem', role', roots') && SamePages(mem, mem', roots)
            && forall v: nat :: Lookup(mem', f, v) == NOPTE
  {
    var mem', role', roots' := mem[f := EmptyTable()], role[f := Root(p)], roots[p := Some(f)];
    assert forall h: nat, j: nat :: Entry(mem', h, j) == if h == f then NOPTE else Entry(mem, h, j);
    forall g: nat | g < |role|
      ensures FrameOk(mem', role', roots', g)
    {
      PlantFrame(mem, role, roots, p, f, mem', g);
    }
    hide FrameOk;
    forall q: nat, v: nat | q < |roots| && roots[q].Some? && v < MAXVPN
      ensures LeafOf(mem', roots[q].value, v) == LeafOf(mem, roots[q].value, v)
      ensures Lookup(mem', roots[q].value, v) == Lookup(mem, roots[q].value, v)
    {
      WalkDown(mem, role, roots, q, v);
    }
  }
}
