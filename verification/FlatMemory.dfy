/** The machine the paging kernel stands in for: each process has one flat array of pages, and there
    are no frames, swap slots or page tables.  A run of the kernel is compared with a run of this. */
module FlatMemory {
  import opened Basics
  import opened PageTable
  import opened Frames
  import opened PagingSteps
  import opened Lifecycle

  const TOPBYTES: nat := USERTOP * PGSIZE  // TRAPFRAME
  const WORD64: nat := 0x1_0000_0000_0000_0000

  datatype FlatPage = FlatPage(bytes: seq<int>, perm: Option<Perm>)
  datatype Space = Space(sz: nat, pages: seq<FlatPage>)
  type Flat = seq<Option<Space>>

  datatype Access = Load | Fetch | Store(val: int)

  datatype Op =
    | Init(me: nat)                   // userinit: the first process
    | Fault(me: nat, va: nat)         // vmfault on behalf of copyin or copyout
    | Use(me: nat, va: nat, kind: Access)   // a user instruction
    | Grow(me: nat, n: int)           // sbrk, eager or shrinking: growproc
    | GrowLazy(me: nat, more: nat)    // sbrk, lazy
    | Fork(me: nat, np: nat)
    | Exit(me: nat)
    | Sched(me: nat, state: ProcState, qlevel: nat)

  const RWU: Perm := Perm(true, true, false, true, 0)
  const RX: Perm := Perm(true, false, true, false, 0)
  const RW: Perm := Perm(true, true, false, false, 0)

  function LazyPage(): FlatPage { FlatPage(Zeros(), None) }

  function SetRange(pages: seq<FlatPage>, lo: nat, hi: nat, pg: FlatPage): (r: seq<FlatPage>)
    ensures |r| == |pages| && forall v: nat :: v < |pages| ==> r[v] == if lo <= v < hi then pg else pages[v]
  {
    seq(|pages|, v requires 0 <= v < |pages| => if lo <= v < hi then pg else pages[v])
  }

  /** sz + n in 64-bit arithmetic. */
  function Shrunk(sz: nat, n: int): nat
    requires n < 0
  {
    if sz + n >= 0 then sz + n else (sz + n) % WORD64
  }

  function Touch(s: Space, va: nat): Space {
    var vpn := va / PGSIZE;
    if va < s.sz && vpn < |s.pages| && s.pages[vpn].perm.None?
    then s.(pages := s.pages[vpn := FlatPage(s.pages[vpn].bytes, Some(RWU))]) else s
  }

  predicate Permits(perm: Perm, kind: Access) {
    perm.u && match kind case Load => perm.r case Fetch => perm.x case Store(_) => perm.w
  }

  function ByteOf(bytes: seq<int>, off: nat): int { if off < |bytes| then bytes[off] else 0 }

  function Written(bytes: seq<int>, off: nat, kind: Access): seq<int> {
    if kind.Store? && off < |bytes| then bytes[off := kind.val] else bytes
  }

  /** A user access on the flat machine: what it does to the page, and the byte it finds. */
  function Poke(s: Space, va: nat, kind: Access): Space {
    var vpn := va / PGSIZE;
    if vpn >= |s.pages| then s
    else s.(pages := s.pages[vpn := s.pages[vpn].(bytes := Written(s.pages[vpn].bytes, va % PGSIZE, kind))])
  }

  function Peek(s: Space, va: nat): int {
    var vpn := va / PGSIZE; if vpn < |s.pages| then ByteOf(s.pages[vpn].bytes, va % PGSIZE) else 0
  }

  /** An access the flat machine allows: below the size, and as the page's flags permit. */
  predicate Allowed(s: Space, va: nat, kind: Access) {
    var vpn := va / PGSIZE;
    va < s.sz && vpn < |s.pages| && Permits(if s.pages[vpn].perm.Some? then s.pages[vpn].perm.value else RWU, kind)
  }

  function Resize(s: Space, n: int): Space {
    if n >= 0 then
      if s.sz + n > TOPBYTES then s
      else Space(s.sz + n, SetRange(s.pages, Pages(s.sz), Pages(s.sz + n), FlatPage(Zeros(), Some(RWU))))
    else
      var newsz := Shrunk(s.sz, n);
      if newsz >= s.sz then s else Space(newsz, SetRange(s.pages, Pages(newsz), Pages(s.sz), LazyPage()))
  }

  predicate Has(a: Flat, p: nat) { p < |a| && a[p].Some? }

  function NewSpace(): Space { Space(0, seq(USERTOP, _ => LazyPage())) }

  /** One operation on the flat machine. */
  function FlatStep(a: Flat, op: Op): (r: Flat)
    ensures |r| == |a|
  {
    if op.Init? then if op.me < |a| && a[op.me].None? then a[op.me := Some(NewSpace())] else a
    else if !Has(a, op.me) then a
    else
      var s := a[op.me].value;
      match op
      case Init(_) => a
      case Fault(me, va) => a[me := Some(Touch(s, va))]
      case Use(me, va, kind) => a[me := Some(Poke(Touch(s, va), va, kind))]
      case Grow(me, n) => a[me := Some(Resize(s, n))]
      case GrowLazy(me, more) => if s.sz + more > TOPBYTES then a else a[me := Some(s.(sz := s.sz + more))]
      case Fork(me, np) => if np < |a| && a[np].None? then a[np := Some(s)] else a
      case Exit(me) => a[me := None]
      case Sched(me, state, qlevel) => a
  }

  /** What the operation returns to the process: a byte, or the result of sbrk. */
  function Answer(a: Flat, op: Op): int {
    if !Has(a, op.me) then 0
    else
      var s := a[op.me].value;
      match op
      case Use(_, va, _) => Peek(s, va)
      case Grow(_, n) => if n > 0 && s.sz + n > TOPBYTES then -1 else s.sz
      case GrowLazy(_, more) => if s.sz + more > TOPBYTES then -1 else s.sz
      case _ => 0
  }

  function FlatRun(a: Flat, ops: seq<Op>): Flat {
    if ops == [] then a else FlatStep(FlatRun(a, ops[..|ops| - 1]), ops[|ops| - 1])
  }

  // ----- what the kernel's state stands for -----

  function PageIn(k: Vm, p: nat, v: nat): FlatPage { FlatPage(Contents(k, p, v), Flags(k, p, v)) }

  ghost predicate SpaceIs(k: Vm, p: nat, s: Space)
    requires p < |k.procs|
  {
    && s.sz == k.procs[p].sz && |s.pages| == USERTOP
    && forall v: nat :: v < USERTOP ==> s.pages[v] == PageIn(k, p, v)
  }

  ghost predicate FlatIs(k: Vm, a: Flat) {
    && |a| == |k.procs| == |k.roots|
    && forall p: nat :: p < |a| ==> (Live(k, p) <==> a[p].Some?) && (a[p].Some? ==> SpaceIs(k, p, a[p].value))
  }

  /** Between system calls: ownership is consistent, all user frames are recorded and every process's
      mapped pages lie within its size. */
  ghost predicate Quiescent(k: Vm, o: Own) {
    && Inv(k, o) && Recorded(k, o) && k.clock < |k.frames|
    && forall p: nat :: Live(k, p) && p < |k.procs| && p < |o.limit| ==>
         o.limit[p] == Pages(k.procs[p].sz) && k.procs[p].sz <= TOPBYTES
  }

  /** Each live process has its own trapframe page. */
  ghost predicate TrapsOk(traps: Roots, roots: Roots, role: seq<Role>) {
    && |traps| == |roots|
    && (forall p: nat :: p < |roots| ==> (traps[p].Some? <==> roots[p].Some?))
    && (forall p: nat :: p < |traps| && traps[p].Some? ==> traps[p].value < |role| && role[traps[p].value] == Trap(p))
    && (forall f: nat :: f < |role| && role[f].Trap? ==> role[f].p < |traps| && traps[role[f].p] == Some(f))
  }

  /** Between calls: Quiescent, with trapframes in order and unused slots of size 0. */
  ghost predicate Settled(k: Vm, traps: Roots, o: Own) {
    && Quiescent(k, o) && TrapsOk(traps, k.roots, o.role)
    && forall p: nat :: p < |k.procs| && p < |k.roots| && k.roots[p].None? ==> k.procs[p].sz == 0
  }

  /** Frames the kernel holds for itself stay so, and no other frame joins them. */
  ghost predicate KernKept(o: Own, o': Own) {
    |o'.role| == |o.role| && forall g: nat :: g < |o.role| ==> (o'.role[g] == Kern <==> o.role[g] == Kern)
  }

  /** The kernel has given frame f away, and nothing else. */
  ghost predicate KernLoses(o: Own, o': Own, f: nat) {
    |o'.role| == |o.role| && forall g: nat :: g < |o.role| ==> (o'.role[g] == Kern <==> o.role[g] == Kern && g != f)
  }

  lemma KernSelf(o: Own)
    ensures KernKept(o, o)
  {
  }

  lemma KernTrans(o0: Own, o1: Own, o2: Own)
    requires KernKept(o0, o1) && KernKept(o1, o2)
    ensures KernKept(o0, o2)
  {
  }

  /** An allocated frame is one the kernel did not hold: giving it away restores what it held. */
  lemma KernTaken(k: Vm, o: Own, k': Vm, o': Own, f: nat)
    requires Allocated(k, o, k', o', f)
    ensures |o'.role| == |o.role| && f < |o.role| && o.role[f] != Kern && o'.role[f] == Kern
    ensures forall g: nat :: g < |o.role| && g != f ==> o'.role[g] == o.role[g]
  {
  }

  lemma KernHang(k: Vm, o: Own, k': Vm, o': Own, f: nat, r: Role)
    requires Allocated(k, o, k', o', f) && r != Kern
    ensures f < |o'.role| && KernKept(o, o'.(role := o'.role[f := r]))
  {
  }

  lemma NotKern(k: Vm, o: Own, p: nat, vpn: nat)
    requires Inv(k, o) && Live(k, p) && vpn < USERTOP && PteOf(k, p, vpn).v
    ensures PteOf(k, p, vpn).num < |o.role| && o.role[PteOf(k, p, vpn).num] == User(p, vpn)
  {
    assert PteOk(o, p, vpn, PteOf(k, p, vpn));
  }

  /** A frame of the kernel's becomes a trapframe, or the other way round. */
  lemma Relabel(k: Vm, o: Own, f: nat, r: Role)
    requires Inv(k, o) && f < |o.role| && (o.role[f] == Kern || o.role[f].Trap?) && (r == Kern || r.Trap?)
    ensures Inv(k, o.(role := o.role[f := r])) && (Recorded(k, o) ==> Recorded(k, o.(role := o.role[f := r])))
  {
    RoleOnly(k.mem, o.role, k.roots, f, r);
    hide TreesOk, Lookup;
    var o' := o.(role := o.role[f := r]);
    forall p: nat, v: nat | Live(k, p) && v < MAXVPN
      ensures PteOk(o', p, v, PteOf(k, p, v))
    {
      assert PteOk(o, p, v, PteOf(k, p, v));
    }
    forall g: nat | g < |o.role|
      ensures UserOk(k, o', g)
    {
      assert UserOk(k, o, g);
    }
    assert forall i: nat :: i < |o.slot| && SlotOk(k, o, i) ==> SlotOk(k, o', i);
  }

  lemma NewTrap(traps: Roots, roots: Roots, o: Own, o1: Own, roots': Roots, o': Own, p: nat, f: nat)
    requires TrapsOk(traps, roots, o.role) && p < |roots| == |roots'| && roots[p].None? && roots'[p].Some?
    requires forall q: nat :: q < |roots| && q != p ==> roots'[q] == roots[q]
    requires f < |o.role| == |o1.role| && !o.role[f].Trap? && o1.role[f] == Trap(p)
    requires forall g: nat :: g < |o.role| && g != f ==> o1.role[g] == o.role[g]
    requires TrapKept(o1, o')
    ensures TrapsOk(traps[p := Some(f)], roots', o'.role)
  {
  }

  lemma TrapGone(traps: Roots, roots: Roots, o: Own, o1: Own, roots': Roots, o': Own, p: nat)
    requires TrapsOk(traps, roots, o.role) && p < |roots| && traps[p].Some? && roots' == roots[p := None]
    requires o1 == o.(role := o.role[traps[p].value := Free]) && TrapKept(o1, o')
    ensures TrapsOk(traps[p := None], roots', o'.role)
    ensures forall g: nat :: g < |o'.role| && o'.role[g].Trap? ==> o'.role[g].p != p
  {
  }

  /** The leaf table that holds the two entries at the top. */
  lemma SameLeaf(mem: Mem, root: nat)
    ensures LeafOf(mem, root, MAXVPN - 1) == LeafOf(mem, root, MAXVPN - 2)
  {
  }

  lemma HighLeaf(k: Vm, o: Own, p: nat, vpn: nat)
    requires Inv(k, o) && Live(k, p) && vpn < MAXVPN && PteOf(k, p, vpn).v
    ensures LeafOf(k.mem, k.roots[p].value, vpn).Some?
  {
  }

  /** An access on the last page beyond the size: the code lets it through while that page is resident. */
  predicate OnEdge(s: Space, va: nat) { s.sz <= va && va / PGSIZE < Pages(s.sz) }

  lemma TrapsStay(traps: Roots, roots: Roots, o: Own, o': Own)
    requires TrapsOk(traps, roots, o.role) && TrapKept(o, o')
    ensures TrapsOk(traps, roots, o'.role)
  {
  }

  /** The state k' of one process against the flat space s, with everyone else as in a. */
  lemma FlatAfter(k: Vm, k': Vm, a: Flat, p: nat, s: Option<Space>)
    requires FlatIs(k, a) && p < |a| && |k'.procs| == |k'.roots| == |a|
    requires forall q: nat :: q < |a| && q != p ==> k'.procs[q].sz == k.procs[q].sz && k'.roots[q] == k.roots[q]
    requires forall q: nat, v: nat :: Live(k, q) && q != p && v < USERTOP ==> SamePage(k, k', q, v)
    requires Live(k', p) <==> s.Some?
    requires s.Some? ==> SpaceIs(k', p, s.value)
    ensures FlatIs(k', a[p := s])
  {
    hide Contents, Flags;
    var a' := a[p := s];
    forall q: nat | q < |a'|
      ensures (Live(k', q) <==> a'[q].Some?) && (a'[q].Some? ==> SpaceIs(k', q, a'[q].value))
    {
      if q != p && a[q].Some? {
        assert SpaceIs(k, q, a[q].value);
        forall v: nat | v < USERTOP
          ensures a[q].value.pages[v] == PageIn(k', q, v)
        {
          assert SamePage(k, k', q, v);
        }
      }
    }
  }

  lemma BeyondLimit(k: Vm, o: Own, p: nat)
    requires Inv(k, o) && Live(k, p)
    ensures forall v: nat :: o.limit[p] <= v < USERTOP ==> PteOf(k, p, v) == NOPTE
  {
  }

  /** Changing p's recorded size, and with it the limit, ends a call. */
  lemma Resized(k: Vm, o: Own, p: nat, sz: nat)
    requires Inv(k, o) && Recorded(k, o) && k.clock < |k.frames| && Live(k, p) && sz <= TOPBYTES
    requires forall q: nat :: Live(k, q) && q != p && q < |k.procs| && q < |o.limit| ==>
               o.limit[q] == Pages(k.procs[q].sz) && k.procs[q].sz <= TOPBYTES
    requires forall v: nat :: Pages(sz) <= v < USERTOP ==> PteOf(k, p, v) == NOPTE
    ensures p < |k.procs| && p < |o.limit|
    ensures var k' := k.(procs := k.procs[p := k.procs[p].(sz := sz)]);
            Quiescent(k', o.(limit := o.limit[p := Pages(sz)])) && SameAll(k, k')
  {
    hide TreesOk, Lookup, PagesOk, FramesOk, SlotsOk, FreeOk;
    LimitMove(k, o, p, Pages(sz), k.procs[p := k.procs[p].(sz := sz)]);
  }

  lemma GrownFlat(k: Vm, k': Vm, a: Flat, me: nat, n: nat)
    requires FlatIs(k, a) && Live(k, me) && me < |k.procs| && k.procs[me].sz + n <= TOPBYTES
    requires k'.roots == k.roots && k'.procs == k.procs[me := k.procs[me].(sz := k.procs[me].sz + n)]
    requires SameExcept(k, k', me, Pages(k.procs[me].sz), Pages(k.procs[me].sz + n))
    requires forall v: nat :: Pages(k.procs[me].sz) <= v < Pages(k.procs[me].sz + n) ==>
               PageIn(k', me, v) == FlatPage(Zeros(), Some(RWU))
    ensures FlatIs(k', FlatStep(a, Grow(me, n)))
  {
    hide Contents, Flags;
    var s := Resize(a[me].value, n);
    assert SpaceIs(k, me, a[me].value);
    forall v: nat | v < USERTOP
      ensures s.pages[v] == PageIn(k', me, v)
    {
      if !(Pages(k.procs[me].sz) <= v < Pages(k.procs[me].sz + n)) {
        assert SamePage(k, k', me, v);
      }
    }
    FlatAfter(k, k', a, me, Some(s));
  }

  lemma ShrunkFlat(k: Vm, k': Vm, a: Flat, me: nat, n: int)
    requires FlatIs(k, a) && Live(k, me) && me < |k.procs| && n < 0 && Shrunk(k.procs[me].sz, n) < k.procs[me].sz
    requires k'.roots == k.roots && k'.procs == k.procs[me := k.procs[me].(sz := Shrunk(k.procs[me].sz, n))]
    requires SameExcept(k, k', me, Pages(Shrunk(k.procs[me].sz, n)), Pages(k.procs[me].sz))
    requires forall v: nat :: Pages(Shrunk(k.procs[me].sz, n)) <= v < Pages(k.procs[me].sz) ==>
               PteOf(k', me, v) == NOPTE
    ensures FlatIs(k', FlatStep(a, Grow(me, n)))
  {
    var s := Resize(a[me].value, n);
    assert SpaceIs(k, me, a[me].value);
    forall v: nat | v < USERTOP
      ensures s.pages[v] == PageIn(k', me, v)
    {
      if !(Pages(Shrunk(k.procs[me].sz, n)) <= v < Pages(k.procs[me].sz)) {
        assert SamePage(k, k', me, v);
      }
    }
    hide Contents, Flags;
    FlatAfter(k, k', a, me, Some(s));
  }

  lemma UnchangedFlat(k: Vm, k': Vm, a: Flat, me: nat, s: Space)
    requires FlatIs(k, a) && Live(k, me) && me < |k.procs| == |k'.procs| && SameAll(k, k')
    requires var now := k'.procs[me];
             k'.procs == k.procs[me := k.procs[me].(sz := s.sz, state := now.state, qlevel := now.qlevel)]
    requires s == a[me].value.(sz := s.sz)
    ensures FlatIs(k', a[me := Some(s)])
  {
    hide Contents, Flags;
    assert SpaceIs(k, me, a[me].value);
    forall v: nat | v < USERTOP
      ensures s.pages[v] == PageIn(k', me, v)
    {
      assert SamePage(k, k', me, v);
    }
    FlatAfter(k, k', a, me, Some(s));
  }

  /** The process table has no part in what pages look like. */
  lemma SameExceptThen(k: Vm, k1: Vm, k2: Vm, p: nat, lo: nat, hi: nat)
    requires SameExcept(k, k1, p, lo, hi) && k2 == k1.(procs := k2.procs)
    ensures SameExcept(k, k2, p, lo, hi)
    ensures forall q: nat, v: nat ::
              && PteOf(k2, q, v) == PteOf(k1, q, v)
              && Contents(k2, q, v) == Contents(k1, q, v)
              && Flags(k2, q, v) == Flags(k1, q, v)
  {
    hide Lookup;
    forall q: nat, v: nat
      ensures PteOf(k2, q, v) == PteOf(k1, q, v) && Contents(k2, q, v) == Contents(k1, q, v)
      ensures Flags(k2, q, v) == Flags(k1, q, v)
    {
    }
    forall q: nat, v: nat | Live(k, q) && v < USERTOP && !(q == p && lo <= v < hi)
      ensures SamePage(k, k2, q, v)
    {
      assert SamePage(k, k1, q, v);
    }
  }

  lemma SameFlat(k: Vm, a: Flat, me: nat, n: int)
    requires FlatIs(k, a) && Live(k, me) && me < |k.procs|
    requires n == 0 || (n > 0 && k.procs[me].sz + n > TOPBYTES) ||
        (n < 0 && Shrunk(k.procs[me].sz, n) >= k.procs[me].sz)
    requires k.procs[me].sz <= TOPBYTES
    ensures FlatIs(k, FlatStep(a, Grow(me, n)))
  {
  }

  lemma EqualFlat(k: Vm, k': Vm, a: Flat, p: nat, lo: nat)
    requires FlatIs(k, a) && SameExcept(k, k', p, lo, lo) && k'.procs == k.procs
    ensures FlatIs(k', a)
  {
    hide Contents, Flags;
    forall q: nat | q < |a| && a[q].Some?
      ensures SpaceIs(k', q, a[q].value)
    {
      assert SpaceIs(k, q, a[q].value);
      forall v: nat | v < USERTOP
        ensures a[q].value.pages[v] == PageIn(k', q, v)
      {
        assert SamePage(k, k', q, v);
      }
    }
  }

  /** A fault changes at most one thing on the flat machine: a lazy page acquires its flags. */
  lemma FaultFlat(k: Vm, o: Own, k': Vm, a: Flat, me: nat, va: nat)
    requires FlatIs(k, a) && Quiescent(k, o) && Live(k, me) && k'.procs == k.procs
    requires var vpn := va / PGSIZE;
             && SameExcept(k, k', me, vpn, vpn + 1)
             && Contents(k', me, vpn) == Contents(k, me, vpn)
             && if va >= k.procs[me].sz || PteOf(k, me, vpn).v then k' == k
                else Flags(k', me, vpn) == if PteOf(k, me, vpn).s then Flags(k, me, vpn) else Some(RWU)
    ensures FlatIs(k', FlatStep(a, Fault(me, va)))
  {
    hide TreesOk, FreeOk, PagesOk, FramesOk, SlotsOk, Lookup, Contents;
    var vpn := va / PGSIZE;
    assert SpaceIs(k, me, a[me].value);
    var s := Touch(a[me].value, va);
    if va < k.procs[me].sz {
      assert vpn < USERTOP;
      assert a[me].value.pages[vpn] == PageIn(k, me, vpn);
    }
    forall v: nat | v < USERTOP
      ensures s.pages[v] == PageIn(k', me, v)
    {
      assert a[me].value.pages[v] == PageIn(k, me, v);
      if v != vpn {
        assert SamePage(k, k', me, v);
      }
    }
    FlatAfter(k, k', a, me, Some(s));
  }

  lemma UserFrame(k: Vm, o: Own, p: nat, vpn: nat)
    requires Inv(k, o) && Live(k, p) && vpn < USERTOP && PteOf(k, p, vpn).v
    ensures PteOf(k, p, vpn).num < |k.mem| && k.mem[PteOf(k, p, vpn).num].Data?
    ensures LeafOf(k.mem, k.roots[p].value, vpn).Some?
  {
    WalkDown(k.mem, o.role, k.roots, p, vpn);
    assert PteOk(o, p, vpn, PteOf(k, p, vpn));
    assert UserOk(k, o, PteOf(k, p, vpn).num);
  }

  /** Writing a resident page's frame changes that page and no other. */
  lemma PokeMove(k: Vm, o: Own, p: nat, vpn: nat, bytes: seq<int>)
    requires Inv(k, o) && Live(k, p) && vpn < USERTOP && PteOf(k, p, vpn).v && PteOf(k, p, vpn).num < |k.mem|
    ensures var k' := k.(mem := k.mem[PteOf(k, p, vpn).num := Data(bytes)]);
            && Inv(k', o) && SameExcept(k, k', p, vpn, vpn + 1) && Contents(k', p, vpn) == bytes
            && Flags(k', p, vpn) == Flags(k, p, vpn)
  {
    var e := PteOf(k, p, vpn);
    assert PteOk(o, p, vpn, e);
    OutsideTrees(k.mem, o.role, k.roots, e.num, Data(bytes), User(p, vpn));
    var k' := k.(mem := k.mem[e.num := Data(bytes)]);
    assert o.role[e.num := User(p, vpn)] == o.role;
    hide TreesOk, Lookup, LeafOf;
    forall q: nat, v: nat | Live(k, q) && v < MAXVPN
      ensures PteOf(k', q, v) == PteOf(k, q, v) && PteOk(o, q, v, PteOf(k', q, v))
      ensures v < USERTOP && !(q == p && v == vpn) ==> SamePage(k, k', q, v)
    {
      assert PteOk(o, q, v, PteOf(k, q, v));
    }
    forall g: nat | g < |o.role|
      ensures UserOk(k', o, g)
    {
      assert UserOk(k, o, g);
    }
    forall i: nat | i < |o.slot|
      ensures SlotOk(k', o, i)
    {
      assert SlotOk(k, o, i);
    }
  }

  /** The hardware's access to a resident page, on both machines. */
  lemma PokeFlat(k: Vm, o: Own, a: Flat, me: nat, va: nat, kind: Access)
    requires Quiescent(k, o) && FlatIs(k, a) && Live(k, me) && va / PGSIZE < USERTOP && PteOf(k, me, va / PGSIZE).v
    ensures var e := PteOf(k, me, va / PGSIZE);
            && Has(a, me) && e.num < |k.mem| && k.mem[e.num].Data?
            && Peek(a[me].value, va) == ByteOf(k.mem[e.num].bytes, va % PGSIZE)
            && var k' := k.(mem := k.mem[e.num := Data(Written(k.mem[e.num].bytes, va % PGSIZE, kind))]);
               Quiescent(k', o) && FlatIs(k', a[me := Some(Poke(a[me].value, va, kind))])
  {
    var vpn := va / PGSIZE;
    var s := a[me].value;
    assert SpaceIs(k, me, s);
    UserFrame(k, o, me, vpn);
    var e := PteOf(k, me, vpn);
    var bytes := k.mem[e.num].bytes;
    assert s.pages[vpn] == PageIn(k, me, vpn) && Contents(k, me, vpn) == bytes;
    PokeMove(k, o, me, vpn, Written(bytes, va % PGSIZE, kind));
    var k' := k.(mem := k.mem[e.num := Data(Written(bytes, va % PGSIZE, kind))]);
    PokedSpace(k, k', a, me, vpn, Written(bytes, va % PGSIZE, kind), Poke(s, va, kind));
  }

  lemma PokedSpace(k: Vm, k': Vm, a: Flat, me: nat, vpn: nat, bytes: seq<int>, s: Space)
    requires FlatIs(k, a) && Live(k, me) && me < |k.procs| && k'.procs == k.procs && vpn < USERTOP
    requires SameExcept(k, k', me, vpn, vpn + 1) && Contents(k', me, vpn) == bytes
    requires Flags(k', me, vpn) == Flags(k, me, vpn)
    requires SpaceIs(k, me, a[me].value)
    requires s == a[me].value.(pages := a[me].value.pages[vpn := FlatPage(bytes, a[me].value.pages[vpn].perm)])
    ensures FlatIs(k', a[me := Some(s)])
  {
    hide Contents, Flags;
    forall v: nat | v < USERTOP
      ensures s.pages[v] == PageIn(k', me, v)
    {
      assert a[me].value.pages[v] == PageIn(k, me, v);
      if v != vpn {
        assert SamePage(k, k', me, v);
      }
    }
    FlatAfter(k, k', a, me, Some(s));
  }

  lemma FaultThenPoke(a: Flat, me: nat, va: nat, kind: Access)
    requires Has(a, me)
    ensures var b := FlatStep(a, Fault(me, va));
            && Has(b, me) && b[me := Some(Poke(b[me].value, va, kind))] == FlatStep(a, Use(me, va, kind))
            && Peek(b[me].value, va) == Answer(a, Use(me, va, kind))
  {
  }

  /** What decides whether a user access goes through: the page's flags, or those a lazy page gets; and
      beyond the size, whether the page is resident. */
  ghost predicate Denied(k: Vm, p: nat, va: nat, kind: Access) {
    var vpn := va / PGSIZE;
    || vpn >= USERTOP || (!PteOf(k, p, vpn).v && (p >= |k.procs| || va >= k.procs[p].sz))
    || !Permits(if Flags(k, p, vpn).Some? then Flags(k, p, vpn).value else RWU, kind)
  }

  /** Below the size an access is denied exactly when the flat machine does not allow it; in the pages
      beyond the size it always is.  In between, on the last page, it is denied exactly when that page is
      not resident or its flags forbid the access. */
  lemma DeniedIs(k: Vm, o: Own, a: Flat, p: nat, va: nat, kind: Access)
    requires Quiescent(k, o) && FlatIs(k, a) && Live(k, p)
    ensures Has(a, p) && (va < a[p].value.sz ==> (Denied(k, p, va, kind) <==> !Allowed(a[p].value, va, kind)))
    ensures va / PGSIZE >= Pages(a[p].value.sz) ==> Denied(k, p, va, kind)
    ensures OnEdge(a[p].value, va) ==>
              var e := PteOf(k, p, va / PGSIZE);
              Denied(k, p, va, kind) <==> !(e.v && Permits(e.perm, kind))
  {
    hide TreesOk, FreeOk, PagesOk, FramesOk, SlotsOk, Lookup;
    BeyondLimit(k, o, p);
    assert SpaceIs(k, p, a[p].value);
    var vpn := va / PGSIZE;
    if vpn < USERTOP {
      assert a[p].value.pages[vpn] == PageIn(k, p, vpn);
    }
  }

  lemma SettledSizes(k: Vm, traps: Roots, o: Own)
    requires Settled(k, traps, o)
    ensures |k.roots| == |k.procs| == |traps|
  {
  }

  /** An operation the flat machine performs too, with the same answer; an access is allowed or on the edge. */
  predicate Granted(a: Flat, op: Op, r: int) {
    r == Answer(a, op) &&
      (op.Use? && Has(a, op.me) ==> Allowed(a[op.me].value, op.va, op.kind) || OnEdge(a[op.me].value, op.va))
  }

  /** An access that the flat machine does not allow. */
  predicate Barred(a: Flat, op: Op) { op.Use? && Has(a, op.me) && !Allowed(a[op.me].value, op.va, op.kind) }

  lemma AccessCases(k: Vm, traps: Roots, o: Own, a: Flat, op: Op)
    requires Settled(k, traps, o) && FlatIs(k, a)
    ensures op.Use? && Has(a, op.me) && Denied(k, op.me, op.va, op.kind) ==> Barred(a, op)
    ensures !(op.Use? && Has(a, op.me) && Denied(k, op.me, op.va, op.kind)) ==> Granted(a, op, Answer(a, op))
  {
    if op.Use? && Has(a, op.me) {
      assert Live(k, op.me);
      DeniedIs(k, o, a, op.me, op.va, op.kind);
      hide Denied, FlatIs, Settled;
    }
  }

  lemma LiveHas(k: Vm, a: Flat, p: nat)
    requires FlatIs(k, a) && Live(k, p)
    ensures Has(a, p)
  {
  }

  lemma MappedTouch(k: Vm, a: Flat, me: nat, va: nat)
    requires FlatIs(k, a) && Live(k, me) && va / PGSIZE < USERTOP && PteOf(k, me, va / PGSIZE).v
    ensures FlatStep(a, Fault(me, va)) == a
  {
    assert SpaceIs(k, me, a[me].value);
    assert a[me].value.pages[va / PGSIZE] == PageIn(k, me, va / PGSIZE);
  }

  lemma SameFlatAll(k: Vm, k': Vm, a: Flat)
    requires FlatIs(k, a) && SameAll(k, k') && k'.procs == k.procs
    ensures FlatIs(k', a)
  {
    EqualFlat(k, k', a, 0, 0);
  }

  lemma OthersAfter(k: Vm, k1: Vm, k2: Vm, p: nat)
    requires SameAll(k, k1) && OthersSame(k1, k2, p)
    ensures OthersSame(k, k2, p)
  {
    hide Contents, Flags;
    forall q: nat, v: nat | Live(k, q) && q != p && v < USERTOP
      ensures SamePage(k, k2, q, v)
    {
      assert Live(k1, q);
      assert SamePage(k, k1, q, v) && SamePage(k1, k2, q, v);
    }
  }

  /** userinit: the new process sees an empty space. */
  lemma InitFlat(k: Vm, k1: Vm, k2: Vm, a: Flat, p: nat)
    requires FlatIs(k, a) && p < |k.procs| && !Live(k, p) && OthersSame(k, k1, p) && k1.procs == k.procs && Live(k1, p)
    requires forall v: nat :: v < USERTOP ==> PteOf(k1, p, v) == NOPTE
    requires k2 == k1.(procs := k1.procs[p := Proc(Runnable, 0, 0)])
    ensures FlatIs(k2, FlatStep(a, Init(p)))
  {
    hide Lookup;
    forall q: nat, v: nat
      ensures PteOf(k2, q, v) == PteOf(k1, q, v) && Contents(k2, q, v) == Contents(k1, q, v)
      ensures Flags(k2, q, v) == Flags(k1, q, v)
    {
    }
    forall v: nat | v < USERTOP
      ensures NewSpace().pages[v] == PageIn(k2, p, v)
    {
      assert PteOf(k1, p, v) == NOPTE;
    }
    hide Contents, Flags, PteOf;
    forall q: nat, v: nat | Live(k, q) && q != p && v < USERTOP
      ensures SamePage(k, k2, q, v)
    {
      assert SamePage(k, k1, q, v);
    }
    FlatAfter(k, k2, a, p, Some(NewSpace()));
  }

  lemma OthersChain(k: Vm, k1: Vm, k2: Vm, k3: Vm, p: nat)
    requires SameAll(k, k1) && OthersSame(k1, k2, p) && SameAll(k2, k3)
    ensures OthersSame(k, k3, p)
  {
    hide Contents, Flags;
    forall q: nat, v: nat | Live(k, q) && q != p && v < USERTOP
      ensures SamePage(k, k3, q, v)
    {
      assert Live(k1, q) && Live(k2, q);
      assert SamePage(k, k1, q, v) && SamePage(k1, k2, q, v) && SamePage(k2, k3, q, v);
    }
  }

  lemma Forked(k: Vm, o: Own, k1: Vm, o1: Own, k2: Vm, o2: Own, me: nat, np: nat)
    requires Quiescent(k, o) && Live(k, me) && np < |k.procs| && np != me
    requires Recorded(k1, o1) && Changed(k1, o1, k2, o2, np, 0, Pages(k.procs[me].sz)) && Live(k1, np)
    requires k1.procs == k.procs && k1.clock == k.clock && |k1.frames| == |k.frames| && np < |o.limit|
    requires o1.limit == o.limit[np := Pages(k.procs[me].sz)]
    requires forall q: nat :: Live(k1, q) && q != np ==> Live(k, q)
    ensures Quiescent(k2.(procs := k2.procs[np := Proc(Runnable, 0, k.procs[me].sz)]), o2)
  {
    hide TreesOk, Lookup, PagesOk, FramesOk, SlotsOk, FreeOk;
    BeyondLimit(k2, o2, np);
    LimitMove(k2, o2, np, Pages(k.procs[me].sz), k2.procs[np := Proc(Runnable, 0, k.procs[me].sz)]);
    assert o2.limit[np := Pages(k.procs[me].sz)] == o2.limit;
  }

  lemma ForkFlat(k: Vm, k1: Vm, k2: Vm, k3: Vm, a: Flat, me: nat, np: nat, sz: nat)
    requires FlatIs(k, a) && Live(k, me) && np < |k.procs| && !Live(k, np) && sz == k.procs[me].sz
    requires Pages(sz) <= USERTOP
    requires OthersSame(k, k1, np) && k1.procs == k.procs && Live(k1, np)
    requires SameExcept(k1, k2, np, 0, Pages(sz)) && k2.procs == k1.procs
    requires forall v: nat :: v < Pages(sz) ==>
               Contents(k2, np, v) == Contents(k1, me, v) && Flags(k2, np, v) == Flags(k1, me, v)
    requires forall v: nat :: Pages(sz) <= v < USERTOP ==> PteOf(k2, np, v) == NOPTE && PteOf(k, me, v) == NOPTE
    requires k3 == k2.(procs := k2.procs[np := Proc(Runnable, 0, sz)])
    ensures FlatIs(k3, FlatStep(a, Fork(me, np)))
  {
    assert SpaceIs(k, me, a[me].value);
    SameExceptThen(k1, k2, k3, np, 0, Pages(sz));
    forall v: nat | v < USERTOP
      ensures a[me].value.pages[v] == PageIn(k3, np, v)
    {
      assert a[me].value.pages[v] == PageIn(k, me, v);
      assert SamePage(k, k1, me, v);
    }
    hide Contents, Flags, PteOf;
    forall q: nat, v: nat | Live(k, q) && q != np && v < USERTOP
      ensures SamePage(k, k3, q, v)
    {
      assert Live(k1, q);
      assert SamePage(k, k1, q, v) && SamePage(k1, k3, q, v);
    }
    FlatAfter(k, k3, a, np, a[me]);
  }

  lemma HighEntry(k: Vm, o: Own, p: nat, vpn: nat)
    requires Inv(k, o) && Live(k, p) && USERTOP <= vpn < MAXVPN
    ensures LeafOf(k.mem, k.roots[p].value, vpn).None? ==> PteOf(k, p, vpn) == NOPTE
    ensures LeafOf(k.mem, k.roots[p].value, vpn).Some? ==>
              Entry(k.mem, LeafOf(k.mem, k.roots[p].value, vpn).value, I0(vpn)) == PteOf(k, p, vpn)
    ensures !PteOf(k, p, vpn).v ==> PteOf(k, p, vpn) == NOPTE
  {
  }

  /** After the two kernel entries and the pages below the size are gone, the page map is empty. */
  lemma Emptied(k: Vm, o: Own, k': Vm, o': Own, p: nat, n: nat)
    requires Changed(k, o, k', o', p, 0, n) && Live(k, p) && n == o.limit[p]
    requires PteOf(k, p, MAXVPN - 1) == NOPTE && PteOf(k, p, MAXVPN - 2) == NOPTE
    requires forall v: nat :: n <= v < USERTOP ==> PteOf(k, p, v) == NOPTE
    requires forall v: nat :: v < n ==> PteOf(k', p, v) == NOPTE
    ensures forall v: nat :: v < MAXVPN ==> PteOf(k', p, v) == NOPTE
  {
  }

  lemma DetachedRoot(k: Vm, o: Own, p: nat)
    requires Inv(k, o) && Live(k, p)
    ensures k.roots[p].value < |o.role| && o.role[k.roots[p].value] == Root(p)
    ensures forall g: nat :: Under(o.role, k.roots[p].value, g) <==>
        g < |o.role| && TableRole(o.role[g]) && o.role[g].p == p
  {
    var r := k.roots[p].value;
    assert RoleAt(o.role, r) == Root(p);
    forall g: nat | g < |o.role| && o.role[g] == Root(p)
      ensures g == r
    {
      assert FrameOk(k.mem, o.role, k.roots, g);
    }
  }

  lemma NothingLeft(k3: Vm, o3: Own, k4: Vm, o4: Own, k5: Vm, o5: Own, p: nat, root: nat)
    requires Inv(k3, o3) && Live(k3, p) && forall v: nat :: v < MAXVPN ==> PteOf(k3, p, v) == NOPTE
    requires o4.role == Uprooted(o3.role, p) && root == k3.roots[p].value && Torn(k4, o4, k5, o5, o3.role, root)
    requires forall g: nat :: Under(o3.role, root, g) && g < |o5.role| ==> o5.role[g] == Free
    ensures k5.procs == k4.procs && SameAll(k4, k5)
    ensures forall g: nat :: g < |o5.role| && (TableRole(o5.role[g]) || o5.role[g].User?) ==> o5.role[g].p != p
    ensures TrapKept(o3, o5) && KernKept(o3, o5)
  {
    DetachedRoot(k3, o3, p);
    hide TreesOk, Lookup, Uprooted;
    forall g: nat | g < |o5.role| && (TableRole(o5.role[g]) || o5.role[g].User?)
      ensures o5.role[g].p != p
    {
      assert !Under(o3.role, root, g);
      assert UserOk(k3, o3, g);
      assert o5.role[g] == o4.role[g] == o3.role[g];
    }
  }

  lemma ExitDone(k: Vm, o: Own, k2: Vm, k3: Vm, o3: Own, k4: Vm, o4: Own, k5: Vm, k6: Vm, o5: Own, p: nat)
    requires Quiescent(k, o) && Live(k, p) && k2.procs == k.procs && k2.clock == k.clock && |k2.frames| == |k.frames|
    requires k2.roots == k.roots
    requires Changed(k2, o, k3, o3, p, 0, Pages(k.procs[p].sz)) && Recorded(k3, o3)
    requires k4 == k3.(roots := k3.roots[p := None]) && Inv(k4, o4) && Recorded(k4, o4) && o4.limit == o3.limit[p := 0]
    requires Torn(k4, o4, k5, o5, o3.role, k3.roots[p].value) && Inv(k5, o5)
    requires k6 == k5.(procs := k5.procs[p := Proc(Unused, k5.procs[p].qlevel, 0)])
    ensures Quiescent(k6, o5)
  {
    hide TreesOk, Lookup, PagesOk, FramesOk, SlotsOk, FreeOk, Contents, Flags;
    ProcsIrrelevant(k5, o5, k6.procs);
  }

  lemma ProcsIrrelevant(k: Vm, o: Own, procs: seq<Proc>)
    requires Inv(k, o) && |procs| == |k.procs|
    ensures Inv(k.(procs := procs), o) && SameAll(k, k.(procs := procs))
  {
    hide TreesOk, Lookup, FreeOk;
    EntriesBounded(k, o);
    SamePtes(k, o, k.(procs := procs), o);
  }

  lemma ExitFlat(k: Vm, k2: Vm, k3: Vm, k4: Vm, k5: Vm, k6: Vm, a: Flat, p: nat)
    requires FlatIs(k, a) && Live(k, p) && p < |k.procs|
    requires SameAll(k, k2) && SameExcept(k2, k3, p, 0, Pages(k.procs[p].sz)) && OthersSame(k3, k4, p)
    requires SameAll(k4, k5)
    requires k2.procs == k.procs && k3.procs == k.procs && k4 == k3.(roots := k3.roots[p := None])
    requires k5.procs == k4.procs
    requires k6 == k5.(procs := k5.procs[p := Proc(Unused, k5.procs[p].qlevel, 0)])
    ensures FlatIs(k6, FlatStep(a, Exit(p)))
  {
    hide Lookup;
    forall q: nat, v: nat
      ensures Contents(k6, q, v) == Contents(k5, q, v) && Flags(k6, q, v) == Flags(k5, q, v)
    {
    }
    hide Contents, Flags, PteOf;
    forall q: nat, v: nat | Live(k, q) && q != p && v < USERTOP
      ensures SamePage(k, k6, q, v)
    {
      assert Live(k2, q) && Live(k3, q) && Live(k4, q);
      assert SamePage(k, k2, q, v) && SamePage(k2, k3, q, v) && SamePage(k3, k4, q, v) && SamePage(k4, k5, q, v);
    }
    FlatAfter(k, k6, a, p, None);
  }

  // ----- boot -----

  function Boot(nproc: nat, slots: nat, mem: Mem): Vm {
    Vm(seq(nproc, _ => Proc(Unused, 0, 0)), seq(nproc, _ => None), mem, seq(slots, _ => Zeros()),
      seq(slots, _ => false),
       seq(|mem|, _ => CLEARED), 0, [])
  }

  function BootOwn(nproc: nat, slots: nat, frames: nat): Own {
    Own(seq(frames, _ => Kern), seq(slots, _ => NoOwner), seq(nproc, _ => 0))
  }

  lemma BootOk(nproc: nat, slots: nat, mem: Mem)
    requires forall f: nat :: f < |mem| ==> mem[f].Data?
    ensures Inv(Boot(nproc, slots, mem), BootOwn(nproc, slots, |mem|))
  {
  }

  // ----- ownership, read off the kernel's own tables -----

  /** The valid entry of page v of process p points at frame f. */
  ghost predicate Names(k: Vm, p: nat, v: nat, f: nat) {
    Live(k, p) && v < USERTOP && PteOf(k, p, v).v && PteOf(k, p, v).num == f
  }

  /** The entry of page v of process p is a swap entry for slot i. */
  ghost predicate Swapped(k: Vm, p: nat, v: nat, i: nat) {
    Live(k, p) && v < USERTOP && !PteOf(k, p, v).v && PteOf(k, p, v).s && PteOf(k, p, v).num == i
  }

  /** Each frame is on the free list once, or recorded for the one page whose valid entry points at it,
      or neither, in which case it is the kernel's and no user page maps it. */
  lemma FrameOwnership(k: Vm, o: Own, f: nat)
    requires Inv(k, o) && Recorded(k, o) && f < |k.frames|
    ensures f in k.freelist ==> multiset(k.freelist)[f] == 1 && !k.frames[f].used
    ensures k.frames[f].used <==> exists p: nat, v: nat :: Names(k, p, v, f)
    ensures k.frames[f].used ==> k.frames[f].p >= 0 && Names(k, k.frames[f].p, k.frames[f].va, f)
    ensures forall p: nat, v: nat :: Names(k, p, v, f) ==> k.frames[f].p == p && k.frames[f].va == v
  {
    hide TreesOk, Lookup, LeafOf;
    assert UserOk(k, o, f);
    if k.frames[f].used {
      assert Names(k, k.frames[f].p, k.frames[f].va, f);
    }
    if f in k.freelist {
      OnceInList(k.freelist, f);
    }
    forall p: nat, v: nat | Names(k, p, v, f)
      ensures k.frames[f].used && k.frames[f].p == p && k.frames[f].va == v
    {
      assert PteOk(o, p, v, PteOf(k, p, v));
    }
  }

  lemma {:induction false} OnceInList(s: seq<nat>, x: nat)
    requires x in s && Distinct(s)
    ensures multiset(s)[x] == 1
  {
    var t, y := s[..|s| - 1], s[|s| - 1];
    assert s == t + [y];
    if x == y {
      assert x !in t;
    } else {
      OnceInList(t, x);
    }
  }

  /** A swap slot is marked used exactly when a swap entry names it, and then just one does. */
  lemma SlotOwnership(k: Vm, o: Own, i: nat)
    requires Inv(k, o) && i < |k.mask|
    ensures k.mask[i] <==> exists p: nat, v: nat :: Swapped(k, p, v, i)
    ensures forall p: nat, v: nat, q: nat, w: nat :: Swapped(k, p, v, i) && Swapped(k, q, w, i) ==> p == q && v == w
  {
    hide TreesOk, Lookup, LeafOf;
    assert SlotOk(k, o, i);
    if o.slot[i].Owner? {
      assert Swapped(k, o.slot[i].p, o.slot[i].vpn, i);
    }
    forall p: nat, v: nat | Swapped(k, p, v, i)
      ensures o.slot[i] == Owner(p, v)
    {
      assert PteOk(o, p, v, PteOf(k, p, v));
    }
  }
}
