/** The flat machine in plain terms: a process is a size and the bytes it has stored, and every other byte
    of its memory is 0.  This reference has no pages at all; every run of the flat machine, and so of the
    paging kernel, is a run of it. */
module FlatLaws {
  import opened Basics
  import opened PageTable
  import opened Frames
  import opened Eviction
  import opened PagingSteps
  import opened FlatMemory
  import P = Paging

  /** What a process has: mem holds the bytes it stored. */
  datatype Image = Image(sz: nat, mem: map<nat, int>)
  type Images = seq<Option<Image>>

  const TRAPFRAME: nat := 0x3f_ffff_e000

  /** PGROUNDUP. */
  function Ceil(sz: nat): nat { (sz + 4095) / 4096 * 4096 }

  function Byte(m: Image, va: nat): int { if va in m.mem then m.mem[va] else 0 }

  function Below(mem: map<nat, int>, hi: nat): map<nat, int> { map x | x in mem && x < hi :: mem[x] }

  /** sbrk, eager: refused beyond the trapframe; a process that shrinks loses the pages beyond its size. */
  function Sbrk(m: Image, n: int): Image {
    if n >= 0 then if m.sz + n > TRAPFRAME then m else m.(sz := m.sz + n)
    else if m.sz + n < 0 then m
    else Image(m.sz + n, Below(m.mem, Ceil(m.sz + n)))
  }

  function RefStep(r: Images, op: Op): (r': Images)
    ensures |r'| == |r|
  {
    if op.me >= |r| then r
    else if op.Init? then if r[op.me].None? then r[op.me := Some(Image(0, map[]))] else r
    else if r[op.me].None? then r
    else
      var m := r[op.me].value;
      match op
      case Use(me, va, Store(v)) => r[me := Some(m.(mem := m.mem[va := v]))]
      case Grow(me, n) => r[me := Some(Sbrk(m, n))]
      case GrowLazy(me, more) => if m.sz + more > TRAPFRAME then r else r[me := Some(m.(sz := m.sz + more))]
      case Fork(me, np) => if np < |r| && r[np].None? then r[np := Some(m)] else r
      case Exit(me) => r[me := None]
      case _ => r
  }

  /** A load, store or fetch finds the byte that was there; sbrk returns the old size, or -1. */
  function RefAnswer(r: Images, op: Op): int {
    if op.me >= |r| || r[op.me].None? then 0
    else
      var m := r[op.me].value;
      match op
      case Use(_, va, _) => Byte(m, va)
      case Grow(_, n) => if n > 0 && m.sz + n > TRAPFRAME then -1 else m.sz
      case GrowLazy(_, more) => if m.sz + more > TRAPFRAME then -1 else m.sz
      case _ => 0
  }

  function RefRun(r: Images, ops: seq<Op>): Images {
    if ops == [] then r else RefStep(RefRun(r, ops[..|ops| - 1]), ops[|ops| - 1])
  }

  /** What the code itself ensures of an operation: an access is within the pages of the process, and sbrk's
      argument is an int. */
  predicate Proper(r: Images, op: Op) {
    && (op.Use? && op.me < |r| && r[op.me].Some? ==> op.va < Ceil(r[op.me].value.sz))
    && (op.Grow? ==> -0x8000_0000 <= op.n)
  }

  // ----- the flat machine shows the reference -----

  ghost predicate PageOk(pg: FlatPage) { |pg.bytes| == 4096 && (pg.perm.None? || pg.perm == Some(RWU)) }

  ghost predicate Same(s: Space, m: Image) {
    && s.sz == m.sz <= TRAPFRAME && |s.pages| == USERTOP
    && (forall v: nat :: v < USERTOP ==> PageOk(s.pages[v]))
    && (forall va: nat :: va < TRAPFRAME ==> Peek(s, va) == Byte(m, va))
    && (forall va: nat :: va in m.mem ==> va < Ceil(m.sz))
  }

  ghost predicate Shows(a: Flat, r: Images) {
    |a| == |r| && forall p: nat :: p < |a| ==>
      (a[p].Some? <==> r[p].Some?) && (a[p].Some? ==> Same(a[p].value, r[p].value))
  }

  lemma CeilPages(sz: nat, va: nat)
    ensures Ceil(sz) == 4096 * Pages(sz) && sz <= Ceil(sz) < sz + 4096
    ensures va < Ceil(sz) <==> va / PGSIZE < Pages(sz)
    ensures sz <= TRAPFRAME ==> Ceil(sz) <= TRAPFRAME && Pages(sz) <= USERTOP
    ensures va < TRAPFRAME <==> va / PGSIZE < USERTOP
  {
  }

  lemma CeilGrows(sz: nat, sz': nat)
    requires sz <= sz'
    ensures Ceil(sz) <= Ceil(sz')
  {
  }

  lemma StoreSame(s: Space, m: Image, va: nat, v: int)
    requires Same(s, m) && va < Ceil(m.sz)
    ensures Same(Poke(Touch(s, va), va, Store(v)), m.(mem := m.mem[va := v]))
  {
    CeilPages(m.sz, va);
    var s1 := Touch(s, va);
    var s2, m2 := Poke(s1, va, Store(v)), m.(mem := m.mem[va := v]);
    forall w: nat | w < TRAPFRAME
      ensures Peek(s2, w) == Byte(m2, w)
    {
      Apart(va, w);
      CeilPages(m.sz, w);
      assert Peek(s, w) == Byte(m, w);
      assert PageOk(s.pages[va / PGSIZE]);
    }
  }

  /** Two addresses on one page are different bytes of it. */
  lemma Apart(va: nat, w: nat)
    ensures va / PGSIZE == w / PGSIZE && va % PGSIZE == w % PGSIZE ==> va == w
    ensures va % PGSIZE < 4096
  {
  }

  lemma LookSame(s: Space, m: Image, va: nat, kind: Access)
    requires Same(s, m) && !kind.Store?
    ensures Same(Touch(s, va), m) && Same(Poke(Touch(s, va), va, kind), m)
  {
    var s1 := Touch(s, va);
    forall w: nat | w < TRAPFRAME
      ensures Peek(s1, w) == Byte(m, w)
    {
      assert Peek(s, w) == Byte(m, w);
    }
    assert Poke(s1, va, kind).pages == s1.pages;
  }

  lemma ZerosAre()
    ensures |Zeros()| == 4096 && forall i: nat :: i < 4096 ==> Zeros()[i] == 0
  {
  }

  lemma GrowSame(s: Space, m: Image, n: nat)
    requires Same(s, m)
    ensures Same(Resize(s, n), Sbrk(m, n))
  {
    ZerosAre();
    if s.sz + n <= TRAPFRAME {
      var s', m' := Resize(s, n), Sbrk(m, n);
      CeilGrows(m.sz, m.sz + n);
      forall va: nat | va < TRAPFRAME
        ensures Peek(s', va) == Byte(m', va)
      {
        CeilPages(m.sz, va);
        CeilPages(m.sz + n, va);
        assert Peek(s, va) == Byte(m, va);
      }
    }
  }

  lemma ShrinkSame(s: Space, m: Image, n: int)
    requires Same(s, m) && -0x8000_0000 <= n < 0
    ensures Same(Resize(s, n), Sbrk(m, n))
  {
    ZerosAre();
    if s.sz + n >= 0 {
      var s', m' := Resize(s, n), Sbrk(m, n);
      CeilGrows(m.sz + n, m.sz);
      forall va: nat | va < TRAPFRAME
        ensures Peek(s', va) == Byte(m', va)
      {
        CeilPages(m.sz, va);
        CeilPages(m.sz + n, va);
        assert Peek(s, va) == Byte(m, va);
      }
    } else {
      assert Resize(s, n) == s;
    }
  }

  lemma LazySame(s: Space, m: Image, more: nat)
    requires Same(s, m) && s.sz + more <= TRAPFRAME
    ensures Same(s.(sz := s.sz + more), m.(sz := m.sz + more))
  {
    CeilGrows(m.sz, m.sz + more);
    var s', m' := s.(sz := s.sz + more), m.(sz := m.sz + more);
    forall va: nat | va < TRAPFRAME
      ensures Peek(s', va) == Byte(m', va)
    {
      assert Peek(s, va) == Byte(m, va);
    }
  }

  lemma NewSame()
    ensures Same(NewSpace(), Image(0, map[]))
  {
    ZerosAre();
  }

  /** A store sets its byte and no other. */
  lemma PokeIs(s: Space, va: nat, v: int, w: nat)
    requires va / PGSIZE < |s.pages| && |s.pages[va / PGSIZE].bytes| == 4096
    ensures Peek(Poke(s, va, Store(v)), w) == if w == va then v else Peek(s, w)
  {
    Apart(va, w);
  }

  /** Memory that sbrk adds reads as 0, at once or when it is first touched. */
  lemma NewIsZero(s: Space, m: Image, n: nat, va: nat)
    requires Same(s, m) && m.sz + n <= TRAPFRAME && Ceil(m.sz) <= va < Ceil(m.sz + n)
    ensures Peek(Resize(s, n), va) == 0 && |Resize(s, n).pages[va / PGSIZE].bytes| == 4096
    ensures Peek(Touch(s.(sz := s.sz + n), va), va) == 0
  {
    CeilPages(m.sz, va);
    CeilPages(m.sz + n, va);
    GrowSame(s, m, n);
    LazySame(s, m, n);
    LookSame(s.(sz := s.sz + n), m.(sz := m.sz + n), va, Load);
    assert Peek(Resize(s, n), va) == Byte(Sbrk(m, n), va);
    assert Peek(Touch(s.(sz := s.sz + n), va), va) == Byte(m.(sz := m.sz + n), va);
  }

  /** One operation. */
  lemma StepShows(a: Flat, r: Images, op: Op)
    requires Shows(a, r) && Proper(r, op)
    ensures Shows(FlatStep(a, op), RefStep(r, op)) && Answer(a, op) == RefAnswer(r, op)
  {
    hide Same, Poke, Touch, Resize, Sbrk, Peek, Byte, Ceil, NewSpace;
    NewSame();
    if Has(a, op.me) && !op.Init? {
      var s, m := a[op.me].value, r[op.me].value;
      match op
      case Fault(_, va) => LookSame(s, m, va, Load);
      case Use(_, va, kind) =>
        FoundSame(s, m, va);
        if kind.Store? {
          StoreSame(s, m, va, kind.val);
        } else {
          LookSame(s, m, va, kind);
        }
      case Grow(_, n) =>
        SizeSame(s, m);
        if n >= 0 {
          GrowSame(s, m, n);
        } else {
          ShrinkSame(s, m, n);
        }
      case GrowLazy(_, more) =>
        SizeSame(s, m);
        if s.sz + more <= TRAPFRAME {
          LazySame(s, m, more);
        }
      case _ =>
    }
  }

  lemma SizeSame(s: Space, m: Image)
    requires Same(s, m)
    ensures s.sz == m.sz && TOPBYTES == TRAPFRAME
  {
  }

  lemma FoundSame(s: Space, m: Image, va: nat)
    requires Same(s, m) && va < Ceil(m.sz)
    ensures Peek(s, va) == Byte(m, va)
  {
    CeilPages(m.sz, va);
  }

  /** Every operation of the run is proper when its turn comes. */
  predicate AllProper(r: Images, ops: seq<Op>) {
    ops == [] || (AllProper(r, ops[..|ops| - 1]) && Proper(RefRun(r, ops[..|ops| - 1]), ops[|ops| - 1]))
  }

  /** Whole runs. */
  lemma {:induction false} RunShows(a: Flat, r: Images, ops: seq<Op>)
    requires Shows(a, r) && AllProper(r, ops)
    ensures Shows(FlatRun(a, ops), RefRun(r, ops))
  {
    hide Shows, FlatStep, RefStep;
    if ops != [] {
      RunShows(a, r, ops[..|ops| - 1]);
      StepShows(FlatRun(a, ops[..|ops| - 1]), RefRun(r, ops[..|ops| - 1]), ops[|ops| - 1]);
    }
  }

  /** A page without its U flag is no user's; one with it allows a load by R, a store by W and a fetch by X. */
  lemma FlagsAre(perm: Perm, v: int)
    ensures Permits(perm, Load) <==> perm.u && perm.r
    ensures Permits(perm, Store(v)) <==> perm.u && perm.w
    ensures Permits(perm, Fetch) <==> perm.u && perm.x
  {
  }

  /** Every page a process has is its to read and write, and none holds code: exec is not part of the model. */
  lemma AllowedIs(s: Space, m: Image, va: nat, kind: Access)
    requires Same(s, m)
    ensures Allowed(s, va, kind) <==> va < m.sz && !kind.Fetch?
    ensures Allowed(s, va, kind) || OnEdge(s, va) ==> va < Ceil(m.sz)
  {
    CeilPages(m.sz, va);
    if va < m.sz {
      assert PageOk(s.pages[va / PGSIZE]);
    }
  }

  // ----- from boot -----

  /** No process. */
  function Nobody(n: nat): Images { seq(n, _ => None) }

  /** What the kernel grants is proper. */
  lemma {:induction false} GrantedProper(a: Flat, r: Images, ops: seq<Op>, rs: seq<int>, k: nat)
    requires Shows(a, r) && k <= |rs| <= |ops|
    requires forall i: nat :: i < |ops| && ops[i].Grow? ==> -0x8000_0000 <= ops[i].n
    requires forall i: nat :: i < |rs| ==> Granted(FlatRun(a, ops[..i]), ops[i], rs[i])
    ensures AllProper(r, ops[..k]) && Shows(FlatRun(a, ops[..k]), RefRun(r, ops[..k]))
  {
    hide FlatStep, RefStep, Same, Allowed, OnEdge;
    if k > 0 {
      GrantedProper(a, r, ops, rs, k - 1);
      var front, op := ops[..k - 1], ops[k - 1];
      assert ops[..k][..k - 1] == front && ops[..k][k - 1] == op;
      var b, q := FlatRun(a, front), RefRun(r, front);
      assert Granted(b, op, rs[k - 1]);
      if op.Use? && Has(b, op.me) {
        AllowedIs(b[op.me].value, q[op.me].value, op.va, op.kind);
      }
      RunShows(a, r, ops[..k]);
    }
  }

  /** A run from boot.  Each load finds the byte last stored at its address, or 0, whatever was paged out,
      forked, grown or shrunk in between; and the run stops early only for want of memory, or at an access
      beyond the size of the process or to execute its data. */
  method BootAndRun(nproc: nat, slots: nat, mem: Mem, first: nat, ops: seq<Op>, trampoline: nat)
    returns (k: P.Kernel, out: P.Outcome, rs: seq<int>)
    requires first < |mem| && forall f: nat :: f < |mem| ==> mem[f].Data?
    requires forall i: nat :: i < |ops| && ops[i].Grow? ==> -0x8000_0000 <= ops[i].n
    ensures |rs| <= |ops| && (out == P.Fine <==> |rs| == |ops|)
    ensures forall i: nat :: i < |rs| ==> rs[i] == RefAnswer(RefRun(Nobody(nproc), ops[..i]), ops[i])
    ensures out == P.Refused ==>
              var r, op := RefRun(Nobody(nproc), ops[..|rs|]), ops[|rs|];
              && op.Use? && op.me < |r| && r[op.me].Some? && (op.va >= r[op.me].value.sz || op.kind.Fetch?)
    ensures out == P.NoMemory ==> Exhausted(k.k, ops[|rs|].me)
  {
    hide FlatStep, RefStep, Settled, FlatIs, Exhausted, Answer, RefAnswer, FlatRun, RefRun, Same;
    k := new P.Kernel(nproc, slots, mem, first);
    ghost var a: Flat := seq(nproc, _ => None);
    ghost var r := Nobody(nproc);
    out, rs := k.Run(ops, trampoline, a);
    forall i: nat | i < |rs|
      ensures rs[i] == RefAnswer(RefRun(r, ops[..i]), ops[i])
    {
      assert Granted(FlatRun(a, ops[..i]), ops[i], rs[i]);
      GrantedProper(a, r, ops, rs, i);
      Answers(a, r, ops, rs, i);
    }
    if out == P.Refused {
      GrantedProper(a, r, ops, rs, |rs|);
      Bars(FlatRun(a, ops[..|rs|]), RefRun(r, ops[..|rs|]), ops[|rs|]);
    }
  }

  lemma Answers(a: Flat, r: Images, ops: seq<Op>, rs: seq<int>, i: nat)
    requires Shows(a, r) && i < |rs| <= |ops| && (ops[i].Grow? ==> -0x8000_0000 <= ops[i].n)
    requires Shows(FlatRun(a, ops[..i]), RefRun(r, ops[..i])) && Granted(FlatRun(a, ops[..i]), ops[i], rs[i])
    ensures rs[i] == RefAnswer(RefRun(r, ops[..i]), ops[i])
  {
    hide FlatStep, RefStep, Same, Allowed, OnEdge;
    var b, q, op := FlatRun(a, ops[..i]), RefRun(r, ops[..i]), ops[i];
    if op.Use? && Has(b, op.me) {
      AllowedIs(b[op.me].value, q[op.me].value, op.va, op.kind);
    }
    StepShows(b, q, op);
  }

  lemma Bars(a: Flat, r: Images, op: Op)
    requires Shows(a, r) && Barred(a, op)
    ensures op.Use? && op.me < |r| && r[op.me].Some? && (op.va >= r[op.me].value.sz || op.kind.Fetch?)
  {
    AllowedIs(a[op.me].value, r[op.me].value, op.va, op.kind);
  }
}
