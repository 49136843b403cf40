/** The user-level allocator of user/umalloc.c: Kernighan and Ritchie's circular, address-ordered
    free list with coalescing.

    Addresses are byte addresses and a header is 16 bytes long.  Memory is seen through the two
    header fields `ptr` and `size`, at any address: the words of a block's payload are such fields too.
    Untouched memory reads as zero, as sbrk hands it out. */
module Heap {

  const MINUNITS: nat := 4096
  const TRAPFRAME: nat := 0x3f_ffff_e000 // no process grows past it
  const MEMORY: nat := 0x8_0000_0000    // 32 GiB, far more than all frames and swap slots hold
  const LARGEST: nat := 0x7fff_ffe0     // the largest request whose byte count still fits sbrk's int

  /** A block: its header's address and its length in header units. */
  datatype Blk = Blk(addr: int, units: int)

  type Uint = x: int | 0 <= x < 0x1_0000_0000

  /** What the allocator's memory stands for: the free blocks in address order, the blocks handed out,
      the bytes obtained from sbrk and the position of freep on the list. */
  datatype Blocks = Blocks(free: seq<Blk>, live: seq<Blk>, got: int, at: nat)

  type Memory = map<int, int>

  function Get(m: Memory, a: int): int { if a in m then m[a] else 0 }

  /** Addition of two uints. */
  function Add32(x: int, y: int): (r: int)
    ensures 0 <= x + y < 0x1_0000_0000 ==> r == x + y
  {
    (x + y) % 0x1_0000_0000
  }

  function End(b: Blk): int { b.addr + 16 * b.units }

  function Sum(s: seq<Blk>): int { if s == [] then 0 else Sum(s[..|s| - 1]) + s[|s| - 1].units }

  // ----- the circular list -----

  /** Node 0 is base, node i the i-th free block, and after the last comes base again. */
  function Node(base: int, free: seq<Blk>, i: nat): int { if 1 <= i <= |free| then free[i - 1].addr else base }

  predicate LinkAt(base: int, ptr: Memory, free: seq<Blk>, i: nat) {
    Get(ptr, Node(base, free, i)) == Node(base, free, i + 1)
  }

  ghost predicate Linked(base: int, ptr: Memory, size: Memory, free: seq<Blk>) {
    && Get(size, base) == 0
    && (forall i: nat :: i <= |free| ==> LinkAt(base, ptr, free, i))
    && (forall i: nat :: i < |free| ==> Get(size, free[i].addr) == free[i].units)
  }

  ghost predicate Inside(base: int, top: int, b: Blk) { b.units > 0 && base < b.addr && End(b) <= top }

  predicate Apart(a: Blk, b: Blk) { End(a) <= b.addr || End(b) <= a.addr }

  /** In address order, with a gap between any two: no overlap and nothing left to coalesce. */
  ghost predicate Spaced(base: int, top: int, free: seq<Blk>) {
    && (forall i: nat :: i < |free| ==> Inside(base, top, free[i]))
    && (forall i: nat, j: nat :: i < j < |free| ==> End(free[i]) < free[j].addr)
  }

  ghost predicate Clear(b: Blk, s: seq<Blk>) { forall i: nat :: i < |s| ==> Apart(b, s[i]) }

  /** Blocks handed out overlap neither each other nor a free block, and their headers still say their size. */
  ghost predicate LiveOk(base: int, top: int, size: Memory, free: seq<Blk>, live: seq<Blk>) {
    && (forall i: nat :: i < |live| ==> Inside(base, top, live[i]) && Get(size, live[i].addr) == live[i].units)
    && (forall i: nat :: i < |live| ==> Clear(live[i], free))
    && (forall i: nat, j: nat :: i < j < |live| ==> Apart(live[i], live[j]))
  }

  ghost predicate Shape(base: int, ptr: Memory, size: Memory, top: int, g: Blocks) {
    && base > 0 && g.at <= |g.free|
    && Linked(base, ptr, size, g.free) && Spaced(base, top, g.free) && LiveOk(base, top, size, g.free, g.live)
  }

  /** Everything obtained from sbrk is free or handed out. */
  ghost predicate Conserved(g: Blocks) { 16 * (Sum(g.free) + Sum(g.live)) == g.got }

  /** The allocator's invariant, before and after every call. */
  ghost predicate HeapOk(base: int, ptr: Memory, size: Memory, freep: int, brk: int, g: Blocks) {
    && base > 0 && base < brk <= TRAPFRAME && g.got <= MEMORY && Conserved(g)
    && if freep == 0 then g == Blocks([], [], 0, 0) && Get(size, base) == 0
       else Shape(base, ptr, size, brk, g) && freep == Node(base, g.free, g.at)
  }

  // ----- sums -----

  lemma {:induction false} SumSplit(s: seq<Blk>, i: nat)
    requires i <= |s|
    ensures Sum(s) == Sum(s[..i]) + Sum(s[i..])
    decreases |s|
  {
    if i < |s| {
      SumSplit(s[..|s| - 1], i);
      assert s[..|s| - 1][..i] == s[..i] && s[i..][..|s| - i - 1] == s[..|s| - 1][i..];
    } else {
      assert s[..i] == s;
    }
  }

  lemma SumSplice(a: seq<Blk>, m: seq<Blk>, c: seq<Blk>)
    ensures Sum(a + m + c) == Sum(a) + Sum(m) + Sum(c)
  {
    SumSplit(a + m + c, |a + m|);
    assert (a + m + c)[..|a + m|] == a + m && (a + m + c)[|a + m|..] == c;
    SumSplit(a + m, |a|);
    assert (a + m)[..|a|] == a && (a + m)[|a|..] == m;
  }

  // ----- coalescing -----

  /** How many free blocks lie below a. */
  function Place(free: seq<Blk>, a: int): (t: nat)
    ensures t <= |free| && (t < |free| ==> a <= free[t].addr) && (t > 0 ==> free[t - 1].addr < a)
  {
    if free == [] then 0 else if free[|free| - 1].addr < a then |free| else Place(free[..|free| - 1], a)
  }

  /** b joined with the free block behind it, if they touch. */
  function Grown(free: seq<Blk>, t: nat, b: Blk): Blk
    requires t <= |free|
  {
    if t < |free| && End(b) == free[t].addr then Blk(b.addr, b.units + free[t].units) else b
  }

  /** The free blocks that stay behind b. */
  function Behind(free: seq<Blk>, t: nat, b: Blk): seq<Blk>
    requires t <= |free|
  {
    if t < |free| && End(b) == free[t].addr then free[t + 1..] else free[t..]
  }

  predicate Touches(free: seq<Blk>, t: nat, b: Blk)
    requires t <= |free|
  {
    t > 0 && End(free[t - 1]) == b.addr
  }

  /** The free blocks that stay before b. */
  function Before(free: seq<Blk>, t: nat, b: Blk): seq<Blk>
    requires t <= |free|
  {
    if Touches(free, t, b) then free[..t - 1] else free[..t]
  }

  /** b joined with both neighbours, where they touch. */
  function Joined(free: seq<Blk>, t: nat, b: Blk): Blk
    requires t <= |free|
  {
    var g := Grown(free, t, b);
    if Touches(free, t, b) then Blk(free[t - 1].addr, free[t - 1].units + g.units) else g
  }

  /** The free list with b put in at position t and joined with its neighbours where they touch. */
  function Coalesce(free: seq<Blk>, t: nat, b: Blk): seq<Blk>
    requires t <= |free|
  {
    Before(free, t, b) + [Joined(free, t, b)] + Behind(free, t, b)
  }

  lemma SumFirst(s: seq<Blk>)
    requires s != []
    ensures Sum(s) == s[0].units + Sum(s[1..])
  {
    SumSplit(s, 1);
    assert s[..1] == [s[0]] && [s[0]][..0] == [];
  }

  lemma CoalesceSum(free: seq<Blk>, t: nat, b: Blk)
    requires t <= |free|
    ensures Sum(Coalesce(free, t, b)) == Sum(free) + b.units
  {
    SumSplice(Before(free, t, b), [Joined(free, t, b)], Behind(free, t, b));
    SumFirst([Joined(free, t, b)]);
    SumSplit(free, t);
    BehindSum(free, t, b);
    BeforeSum(free, t, b);
    hide Sum, Before, Behind, Joined, Grown;
  }

  lemma BehindSum(free: seq<Blk>, t: nat, b: Blk)
    requires t <= |free|
    ensures Grown(free, t, b).units + Sum(Behind(free, t, b)) == b.units + Sum(free[t..])
  {
    if t < |free| {
      SumFirst(free[t..]);
      assert free[t..][1..] == free[t + 1..];
    }
  }

  lemma BeforeSum(free: seq<Blk>, t: nat, b: Blk)
    requires t <= |free|
    ensures Sum(Before(free, t, b)) + Joined(free, t, b).units == Sum(free[..t]) + Grown(free, t, b).units
  {
    if t > 0 {
      assert free[..t][..t - 1] == free[..t - 1];
    }
  }

  /** What a block must be to be freed: inside the heap and clear of every free block. */
  ghost predicate Freeable(base: int, top: int, free: seq<Blk>, b: Blk) {
    Inside(base, top, b) && Clear(b, free)
  }

  lemma Between(base: int, top: int, free: seq<Blk>, b: Blk, t: nat)
    requires Spaced(base, top, free) && Freeable(base, top, free, b) && t == Place(free, b.addr)
    ensures forall i: nat :: i < t ==> End(free[i]) <= b.addr
    ensures forall i: nat :: t <= i < |free| ==> End(b) <= free[i].addr
    ensures forall i: nat :: i + 1 < t ==> End(free[i]) < b.addr
    ensures forall i: nat :: t < i < |free| ==> End(b) < free[i].addr
  {
    hide Place;
    forall i: nat | i < |free|
      ensures i < t ==> End(free[i]) <= b.addr
      ensures t <= i ==> End(b) <= free[i].addr
    {
      assert Apart(b, free[i]) && Inside(base, top, free[i]);
      if i < t - 1 {
        assert End(free[i]) < free[t - 1].addr;
      } else if t < i {
        assert End(free[t]) < free[i].addr;
      }
    }
  }

  lemma SpacedJoin(base: int, top: int, a: seq<Blk>, x: Blk, c: seq<Blk>)
    requires Spaced(base, top, a) && Spaced(base, top, c) && Inside(base, top, x)
    requires forall i: nat :: i < |a| ==> End(a[i]) < x.addr
    requires forall i: nat :: i < |c| ==> End(x) < c[i].addr
    ensures Spaced(base, top, a + [x] + c)
  {
  }

  lemma SpacedSlice(base: int, top: int, free: seq<Blk>, i: nat, j: nat)
    requires Spaced(base, top, free) && i <= j <= |free|
    ensures Spaced(base, top, free[i..j])
  {
  }

  lemma BehindOk(base: int, top: int, free: seq<Blk>, b: Blk, t: nat)
    requires Spaced(base, top, free) && Freeable(base, top, free, b) && t == Place(free, b.addr)
    ensures Spaced(base, top, Behind(free, t, b)) && Inside(base, top, Grown(free, t, b))
    ensures forall i: nat :: i < |Behind(free, t, b)| ==> End(Grown(free, t, b)) < Behind(free, t, b)[i].addr
  {
    hide Place, Clear;
    Between(base, top, free, b, t);
    var u := if t < |free| && End(b) == free[t].addr then t + 1 else t;
    SpacedSlice(base, top, free, u, |free|);
    assert Behind(free, t, b) == free[u..|free|];
    assert t < |free| ==> Inside(base, top, free[t]);
    var g := Grown(free, t, b);
    forall i: nat | u <= i < |free|
      ensures End(g) < free[i].addr
    {
      if t < i {
        assert End(free[t]) < free[i].addr;
      }
    }
  }

  lemma BeforeOk(base: int, top: int, free: seq<Blk>, b: Blk, t: nat)
    requires Spaced(base, top, free) && Freeable(base, top, free, b) && t == Place(free, b.addr)
    ensures Spaced(base, top, Before(free, t, b)) && base < Joined(free, t, b).addr
    ensures forall i: nat :: i < |Before(free, t, b)| ==> End(Before(free, t, b)[i]) < Joined(free, t, b).addr
  {
    hide Place, Clear, Grown;
    Between(base, top, free, b, t);
    SpacedSlice(base, top, free, 0, if Touches(free, t, b) then t - 1 else t);
    assert Grown(free, t, b).addr == b.addr by { GrownAddr(free, t, b); }
  }

  lemma GrownAddr(free: seq<Blk>, t: nat, b: Blk)
    requires t <= |free|
    ensures Grown(free, t, b).addr == b.addr && End(Joined(free, t, b)) == End(Grown(free, t, b))
  {
  }

  lemma CoalesceSpaced(base: int, top: int, free: seq<Blk>, b: Blk, t: nat)
    requires Spaced(base, top, free) && Freeable(base, top, free, b) && t == Place(free, b.addr)
    ensures Spaced(base, top, Coalesce(free, t, b))
  {
    BehindOk(base, top, free, b, t);
    BeforeOk(base, top, free, b, t);
    GrownAddr(free, t, b);
    hide Place, Spaced, Before, Behind, Clear;
    SpacedJoin(base, top, Before(free, t, b), Joined(free, t, b), Behind(free, t, b));
  }

  /** A block clear of the free list and of b is clear of the coalesced list. */
  lemma CoalesceClear(free: seq<Blk>, b: Blk, t: nat, x: Blk)
    requires t <= |free| && Clear(x, free) && Apart(x, b) && x.units > 0 && b.units > 0
    ensures Clear(x, Coalesce(free, t, b))
  {
  }

  // ----- relinking -----

  function First(base: int, s: seq<Blk>): int { if s == [] then base else s[0].addr }

  function Last(base: int, s: seq<Blk>): int { if s == [] then base else s[|s| - 1].addr }

  /** The links from base as far as the last block of s. */
  ghost predicate Reaches(base: int, ptr: Memory, s: seq<Blk>) {
    forall i: nat :: i < |s| ==> LinkAt(base, ptr, s, i)
  }

  /** The links from the blocks of s back to base. */
  ghost predicate Returns(base: int, ptr: Memory, s: seq<Blk>) {
    forall i: nat :: 0 < i <= |s| ==> LinkAt(base, ptr, s, i)
  }

  ghost predicate Sized(size: Memory, s: seq<Blk>) { forall i: nat :: i < |s| ==> Get(size, s[i].addr) == s[i].units }

  lemma LinkedJoin(base: int, ptr: Memory, size: Memory, a: seq<Blk>, x: Blk, c: seq<Blk>)
    requires Get(size, base) == 0 && Sized(size, a) && Get(size, x.addr) == x.units && Sized(size, c)
    requires Reaches(base, ptr, a) && Get(ptr, Last(base, a)) == x.addr && Get(ptr, x.addr) == First(base, c)
    requires Returns(base, ptr, c)
    ensures Linked(base, ptr, size, a + [x] + c)
  {
    var s := a + [x] + c;
    forall i: nat | i <= |s|
      ensures LinkAt(base, ptr, s, i)
    {
      if i < |a| {
        assert LinkAt(base, ptr, a, i);
      } else if i > |a| + 1 {
        assert LinkAt(base, ptr, c, i - |a| - 1);
      }
    }
  }

  lemma Halves(base: int, ptr: Memory, size: Memory, free: seq<Blk>, t: nat)
    requires Linked(base, ptr, size, free) && t <= |free|
    ensures Reaches(base, ptr, free[..t]) && Returns(base, ptr, free[t..]) && Sized(size, free[..t])
    ensures Sized(size, free[t..])
    ensures Get(ptr, Last(base, free[..t])) == First(base, free[t..]) && Last(base, free[..t]) == Node(base, free, t)
  {
    forall i: nat | i < t
      ensures LinkAt(base, ptr, free[..t], i)
    {
      assert LinkAt(base, ptr, free, i);
    }
    forall i: nat | 0 < i <= |free[t..]|
      ensures LinkAt(base, ptr, free[t..], i)
    {
      assert LinkAt(base, ptr, free, t + i);
    }
    assert LinkAt(base, ptr, free, t);
  }

  /** Links and sizes of s do not depend on what is stored at other addresses. */
  lemma Elsewhere(base: int, ptr: Memory, size: Memory, ptr': Memory, size': Memory, s: seq<Blk>, p: int, q: int)
    requires forall a: int :: a != p && a != q ==> Get(ptr', a) == Get(ptr, a) && Get(size', a) == Get(size, a)
    requires forall i: nat :: i < |s| ==> s[i].addr != p && s[i].addr != q
    ensures Returns(base, ptr, s) ==> Returns(base, ptr', s)
    ensures Sized(size, s) ==> Sized(size', s)
  {
    if Returns(base, ptr, s) {
      forall i: nat | 0 < i <= |s|
        ensures LinkAt(base, ptr', s, i)
      {
        assert LinkAt(base, ptr, s, i);
      }
    }
  }

  /** How free leaves the headers of p, the block before b, and of b itself. */
  ghost predicate Freed(base: int, ptr: Memory, size: Memory, free: seq<Blk>, t: nat, b: Blk, ptr': Memory,
                        size': Memory)
    requires t <= |free|
  {
    var p, g, next := Node(base, free, t), Grown(free, t, b), First(base, Behind(free, t, b));
    && (forall a: int :: a != p && a != b.addr ==> Get(ptr', a) == Get(ptr, a) && Get(size', a) == Get(size, a))
    && if Touches(free, t, b) then
         Get(ptr', p) == next && Get(size', p) == free[t - 1].units + g.units
       else
         && Get(ptr', p) == b.addr && Get(size', p) == Get(size, p)
         && Get(ptr', b.addr) == next && Get(size', b.addr) == g.units
  }

  lemma BehindLinked(base: int, ptr: Memory, size: Memory, top: int, free: seq<Blk>, t: nat, b: Blk, ptr': Memory,
                     size': Memory)
    requires Linked(base, ptr, size, free) && Spaced(base, top, free) && Freeable(base, top, free, b)
    requires t == Place(free, b.addr)
    requires Freed(base, ptr, size, free, t, b, ptr', size')
    ensures Returns(base, ptr', Behind(free, t, b)) && Sized(size', Behind(free, t, b))
  {
    hide Place, Touches, Grown;
    Between(base, top, free, b, t);
    var u := if t < |free| && End(b) == free[t].addr then t + 1 else t;
    Halves(base, ptr, size, free, u);
    forall i: nat | i < |free[u..]|
      ensures free[u..][i].addr != b.addr && free[u..][i].addr != Node(base, free, t)
    {
      assert Inside(base, top, free[u + i]);
      assert t > 0 ==> End(free[t - 1]) < free[u + i].addr;
    }
    Elsewhere(base, ptr, size, ptr', size', free[u..], Node(base, free, t), b.addr);
  }

  lemma NodeOrder(base: int, top: int, free: seq<Blk>, i: nat, j: nat)
    requires Spaced(base, top, free) && i < j <= |free|
    ensures Node(base, free, i) < Node(base, free, j)
  {
  }

  lemma NodeBelow(base: int, top: int, free: seq<Blk>, b: Blk, i: nat)
    requires Spaced(base, top, free) && Freeable(base, top, free, b) && i <= Place(free, b.addr)
    ensures Node(base, free, i) < b.addr
  {
  }

  lemma BeforeLinked(base: int, ptr: Memory, size: Memory, top: int, free: seq<Blk>, t: nat, b: Blk, ptr': Memory,
                     size': Memory)
    requires Linked(base, ptr, size, free) && Spaced(base, top, free) && Freeable(base, top, free, b)
    requires t == Place(free, b.addr)
    requires Freed(base, ptr, size, free, t, b, ptr', size')
    ensures Reaches(base, ptr', Before(free, t, b)) && Sized(size', Before(free, t, b)) && Get(size', base) == 0
    ensures Get(ptr', Last(base, Before(free, t, b))) == Joined(free, t, b).addr
  {
    hide Place, Behind, Spaced, Freeable, Freed, Linked;
    forall i: nat | i <= t
      ensures Node(base, free, i) != b.addr && (i < t ==> Node(base, free, i) != Node(base, free, t))
    {
      NodeBelow(base, top, free, b, i);
      if i < t {
        NodeOrder(base, top, free, i, t);
      }
    }
    BeforeReached(base, ptr, size, free, t, b, ptr', size');
    BeforeSized(base, ptr, size, free, t, b, ptr', size');
    BeforeLast(base, ptr, size, free, t, b, ptr', size');
  }

  /** Nodes up to p are below b and all but p lie before p. */
  ghost predicate Ahead(base: int, free: seq<Blk>, t: nat, b: Blk) {
    forall i: nat :: i <= t ==> Node(base, free, i) != b.addr && (i < t ==> Node(base, free, i) != Node(base, free, t))
  }

  lemma BeforeReached(base: int, ptr: Memory, size: Memory, free: seq<Blk>, t: nat, b: Blk, ptr': Memory, size': Memory)
    requires Linked(base, ptr, size, free) && t <= |free| && Freed(base, ptr, size, free, t, b, ptr', size')
    requires Ahead(base, free, t, b)
    ensures Reaches(base, ptr', Before(free, t, b))
  {
    hide Behind, Grown;
    var a := Before(free, t, b);
    forall i: nat | i < |a|
      ensures LinkAt(base, ptr', a, i)
    {
      assert LinkAt(base, ptr, free, i);
    }
  }

  lemma BeforeSized(base: int, ptr: Memory, size: Memory, free: seq<Blk>, t: nat, b: Blk, ptr': Memory, size': Memory)
    requires Linked(base, ptr, size, free) && t <= |free| && Freed(base, ptr, size, free, t, b, ptr', size')
    requires Ahead(base, free, t, b)
    ensures Sized(size', Before(free, t, b)) && Get(size', base) == 0
  {
    hide Behind, Grown;
    assert Node(base, free, 0) == base;
    var a := Before(free, t, b);
    forall i: nat | i < |a|
      ensures Get(size', a[i].addr) == a[i].units
    {
      assert Node(base, free, i + 1) == a[i].addr && Get(size, free[i].addr) == free[i].units;
    }
  }

  lemma BeforeLast(base: int, ptr: Memory, size: Memory, free: seq<Blk>, t: nat, b: Blk, ptr': Memory, size': Memory)
    requires Linked(base, ptr, size, free) && t <= |free| && Freed(base, ptr, size, free, t, b, ptr', size')
    requires Ahead(base, free, t, b)
    ensures Get(ptr', Last(base, Before(free, t, b))) == Joined(free, t, b).addr
  {
    hide Behind, Grown, Linked, Freed;
    GrownAddr(free, t, b);
    var a := Before(free, t, b);
    assert Last(base, a) == Node(base, free, |a|);
    FreedNode(base, ptr, size, free, t, b, ptr', size', |a|);
  }

  /** The link of the node before the freed block, or before the node it is joined to. */
  lemma FreedNode(base: int, ptr: Memory, size: Memory, free: seq<Blk>, t: nat, b: Blk, ptr': Memory, size': Memory,
                  k: nat)
    requires Linked(base, ptr, size, free) && t <= |free| && Freed(base, ptr, size, free, t, b, ptr', size')
    requires Ahead(base, free, t, b) && k == if Touches(free, t, b) then t - 1 else t
    ensures Get(ptr', Node(base, free, k)) == if Touches(free, t, b) then free[t - 1].addr else b.addr
  {
    hide Behind, Grown;
    if Touches(free, t, b) {
      assert LinkAt(base, ptr, free, t - 1);
    }
  }

  lemma FreedLinked(base: int, ptr: Memory, size: Memory, top: int, free: seq<Blk>, t: nat, b: Blk, ptr': Memory,
                    size': Memory)
    requires Linked(base, ptr, size, free) && Spaced(base, top, free) && Freeable(base, top, free, b)
    requires t == Place(free, b.addr)
    requires Freed(base, ptr, size, free, t, b, ptr', size')
    ensures Linked(base, ptr', size', Coalesce(free, t, b))
  {
    BehindLinked(base, ptr, size, top, free, t, b, ptr', size');
    BeforeLinked(base, ptr, size, top, free, t, b, ptr', size');
    hide Place, Linked, Spaced, Before, Behind, Reaches, Returns, Sized;
    LinkedJoin(base, ptr', size', Before(free, t, b), Joined(free, t, b), Behind(free, t, b));
  }

  /** The other blocks handed out are not touched by a free. */
  lemma FreedLive(base: int, ptr: Memory, size: Memory, top: int, free: seq<Blk>, t: nat, b: Blk, ptr': Memory,
                  size': Memory, live: seq<Blk>)
    requires Spaced(base, top, free) && Freeable(base, top, free, b) && t == Place(free, b.addr)
    requires Freed(base, ptr, size, free, t, b, ptr', size')
    requires LiveOk(base, top, size, free, live) && Clear(b, live)
    ensures LiveOk(base, top, size', Coalesce(free, t, b), live)
  {
    hide Place, Coalesce, Touches, Grown, Behind;
    forall i: nat | i < |live|
      ensures Clear(live[i], Coalesce(free, t, b)) && Get(size', live[i].addr) == live[i].units
    {
      assert Apart(b, live[i]) && Inside(base, top, live[i]) && Clear(live[i], free);
      CoalesceClear(free, b, t, live[i]);
      assert t > 0 ==> Apart(live[i], free[t - 1]) && Inside(base, top, free[t - 1]);
    }
  }

  /** Steps from node i to node t, going round the list. */
  function Steps(n: int, i: nat, t: nat): int { if i <= t then t - i else t - i + n + 1 }

  /** The search of free stops at one node only: the one b belongs behind. */
  lemma StopsAt(base: int, top: int, free: seq<Blk>, b: Blk, t: nat, i: nat)
    requires Spaced(base, top, free) && Freeable(base, top, free, b) && t == Place(free, b.addr) && i <= |free|
    ensures var p, next := Node(base, free, i), Node(base, free, i + 1);
            (b.addr > p && b.addr < next) || (p >= next && (b.addr > p || b.addr < next)) <==> i == t
  {
    Between(base, top, free, b, t);
    hide Place, Clear;
    assert i > 0 ==> Inside(base, top, free[i - 1]);
    assert i < |free| ==> Inside(base, top, free[i]);
    assert 0 < i < |free| ==> End(free[i - 1]) < free[i].addr;
  }

  /** The stores free makes once it has found p, as functions of the headers before. */
  function Stored1(base: int, ptr: Memory, size: Memory, bp: int, next: int): (Memory, Memory) {
    if bp + 16 * Get(size, bp) == next
    then (ptr[bp := Get(ptr, next)], size[bp := Add32(Get(size, bp), Get(size, next))])
    else (ptr[bp := next], size)
  }

  function Stored2(ptr: Memory, size: Memory, bp: int, p: int): (Memory, Memory) {
    if p + 16 * Get(size, p) == bp
    then (ptr[p := Get(ptr, bp)], size[p := Add32(Get(size, p), Get(size, bp))])
    else (ptr[p := bp], size)
  }

  lemma {:induction false} SumPositive(s: seq<Blk>)
    requires forall i: nat :: i < |s| ==> s[i].units > 0
    ensures Sum(s) >= 0
  {
    if s != [] {
      SumPositive(s[..|s| - 1]);
    }
  }

  /** The two free blocks around a place are part of the whole. */
  lemma Neighbours(base: int, top: int, free: seq<Blk>, t: nat)
    requires Spaced(base, top, free) && t <= |free|
    ensures (if t > 0 then free[t - 1].units else 0) + (if t < |free| then free[t].units else 0) <= Sum(free)
  {
    hide Spaced, Sum;
    UnitsPositive(base, top, free);
    SumSplit(free, t);
    LastAtMost(free[..t]);
    FirstAtMost(free[t..]);
  }

  lemma UnitsPositive(base: int, top: int, free: seq<Blk>)
    requires Spaced(base, top, free)
    ensures forall i: nat :: i < |free| ==> free[i].units > 0
  {
    assert forall i: nat :: i < |free| ==> Inside(base, top, free[i]);
  }

  lemma LastAtMost(s: seq<Blk>)
    requires forall i: nat :: i < |s| ==> s[i].units > 0
    ensures Sum(s) >= if s == [] then 0 else s[|s| - 1].units
  {
    if s != [] {
      SumPositive(s[..|s| - 1]);
    }
  }

  lemma FirstAtMost(s: seq<Blk>)
    requires forall i: nat :: i < |s| ==> s[i].units > 0
    ensures Sum(s) >= if s == [] then 0 else s[0].units
  {
    if s != [] {
      SumAt(s, 0);
      assert s[..0] == [];
      SumPositive(s[1..]);
    }
  }

  lemma Stored1Is(base: int, ptr: Memory, size: Memory, top: int, free: seq<Blk>, t: nat, b: Blk)
    requires base > 0 && Linked(base, ptr, size, free) && Spaced(base, top, free) && Freeable(base, top, free, b)
    requires t == Place(free, b.addr)
    requires Sum(free) + b.units < 0x1_0000_0000 && Get(size, b.addr) == b.units
    ensures var s := Stored1(base, ptr, size, b.addr, Get(ptr, Node(base, free, t)));
            && (forall a: int :: a != b.addr ==> Get(s.0, a) == Get(ptr, a) && Get(s.1, a) == Get(size, a))
            && Get(s.0, b.addr) == First(base, Behind(free, t, b)) && Get(s.1, b.addr) == Grown(free, t, b).units
  {
    hide Place, Clear, Add32, Sum;
    Neighbours(base, top, free, t);
    assert LinkAt(base, ptr, free, t);
    if t < |free| {
      assert Inside(base, top, free[t]) && LinkAt(base, ptr, free, t + 1);
    }
  }

  lemma IsFreed(base: int, ptr: Memory, size: Memory, top: int, free: seq<Blk>, t: nat, b: Blk, ptr': Memory,
                size': Memory)
    requires base > 0 && Linked(base, ptr, size, free) && Spaced(base, top, free) && Freeable(base, top, free, b)
    requires t == Place(free, b.addr)
    requires Sum(free) + b.units < 0x1_0000_0000 && Get(size, b.addr) == b.units
    requires var s := Stored1(base, ptr, size, b.addr, Get(ptr, Node(base, free, t)));
             (ptr', size') == Stored2(s.0, s.1, b.addr, Node(base, free, t))
    ensures Freed(base, ptr, size, free, t, b, ptr', size')
  {
    Stored1Is(base, ptr, size, top, free, t, b);
    PriorNode(base, ptr, size, top, free, t, b);
    hide Place, Add32, Stored1, Stored2, Behind, Grown, Spaced, Linked, Touches, Node, Freeable, Inside, First, Get,
         Sum;
    var p := Node(base, free, t);
    var s := Stored1(base, ptr, size, b.addr, Get(ptr, p));
    assert Get(s.1, p) == Get(size, p);
    Stored2Is(s.0, s.1, b.addr, p);
  }

  lemma Stored2Is(ptr: Memory, size: Memory, bp: int, p: int)
    ensures var s := Stored2(ptr, size, bp, p);
            && (forall a: int :: a != p ==> Get(s.0, a) == Get(ptr, a) && Get(s.1, a) == Get(size, a))
            && if p + 16 * Get(size, p) == bp then Get(s.0, p) == Get(ptr, bp)
               && Get(s.1, p) == Add32(Get(size, p), Get(size, bp))
               else Get(s.0, p) == bp && Get(s.1, p) == Get(size, p)
  {
  }

  lemma PriorNode(base: int, ptr: Memory, size: Memory, top: int, free: seq<Blk>, t: nat, b: Blk)
    requires base > 0 && Linked(base, ptr, size, free) && Spaced(base, top, free) && Freeable(base, top, free, b)
    requires t == Place(free, b.addr)
    requires Sum(free) + b.units < 0x1_0000_0000
    ensures var p := Node(base, free, t);
            && p < b.addr && (Touches(free, t, b) <==> p + 16 * Get(size, p) == b.addr)
            && (Touches(free, t, b) ==>
                Get(size, p) == free[t - 1].units && Get(size, p) + Grown(free, t, b).units < 0x1_0000_0000)
  {
    Neighbours(base, top, free, t);
    hide Sum;
  }

  lemma SamePlace(base: int, top: int, free: seq<Blk>, t: nat, b: Blk)
    requires t <= |free| && base > 0 && Spaced(base, top, free)
    ensures t <= |Coalesce(free, t, b)| && Node(base, Coalesce(free, t, b), t) == Node(base, free, t) != 0
  {
  }

  // ----- taking a block -----

  /** The tail of b, n units long. */
  function Piece(b: Blk, n: int): Blk
    requires n <= b.units
  {
    Blk(b.addr + 16 * (b.units - n), n)
  }

  /** The free list once n units have been taken from the end of block i. */
  function Taken(free: seq<Blk>, i: nat, n: int): seq<Blk>
    requires i < |free| && n <= free[i].units
  {
    if free[i].units == n then free[..i] + free[i + 1..] else free[i := Blk(free[i].addr, free[i].units - n)]
  }

  predicate Fits(free: seq<Blk>, n: int) { exists i: nat :: i < |free| && free[i].units >= n }

  lemma TakenSum(free: seq<Blk>, i: nat, n: int)
    requires i < |free| && n <= free[i].units
    ensures Sum(Taken(free, i, n)) + n == Sum(free)
  {
    hide Sum;
    SumAt(free, i);
    if free[i].units == n {
      SumSplit(Taken(free, i, n), i);
      assert Taken(free, i, n)[..i] == free[..i] && Taken(free, i, n)[i..] == free[i + 1..];
    } else {
      SumAt(Taken(free, i, n), i);
      assert Taken(free, i, n)[..i] == free[..i] && Taken(free, i, n)[i + 1..] == free[i + 1..];
    }
  }

  lemma SumAt(s: seq<Blk>, i: nat)
    requires i < |s|
    ensures Sum(s) == Sum(s[..i]) + s[i].units + Sum(s[i + 1..])
  {
    SumSplit(s, i + 1);
    assert s[..i + 1][..i] == s[..i];
  }

  lemma TakenSpaced(base: int, top: int, free: seq<Blk>, i: nat, n: int)
    requires Spaced(base, top, free) && i < |free| && 0 < n <= free[i].units
    ensures Spaced(base, top, Taken(free, i, n)) && Inside(base, top, Piece(free[i], n))
  {
  }

  /** How malloc leaves the headers when it takes n units from the block behind prev. */
  function TakenPtr(base: int, ptr: Memory, free: seq<Blk>, i: nat, n: int): Memory
    requires i < |free|
  {
    if free[i].units == n then ptr[Node(base, free, i) := Get(ptr, free[i].addr)] else ptr
  }

  function TakenSize(size: Memory, free: seq<Blk>, i: nat, n: int): Memory
    requires i < |free| && n <= free[i].units
  {
    if free[i].units == n then size else size[free[i].addr := free[i].units - n][Piece(free[i], n).addr := n]
  }

  lemma TakenWhole(base: int, ptr: Memory, size: Memory, top: int, free: seq<Blk>, i: nat)
    requires Linked(base, ptr, size, free) && Spaced(base, top, free) && i < |free|
    ensures Linked(base, ptr[Node(base, free, i) := Get(ptr, free[i].addr)], size, free[..i] + free[i + 1..])
  {
    var a, c, p := free[..i], free[i + 1..], Node(base, free, i);
    var ptr' := ptr[p := Get(ptr, free[i].addr)];
    Halves(base, ptr, size, free, i);
    Halves(base, ptr, size, free, i + 1);
    assert LinkAt(base, ptr, free, i + 1);
    forall k: nat | 0 < k <= |c|
      ensures LinkAt(base, ptr', c, k)
    {
      NodeOrder(base, top, free, i, i + 1 + k);
      assert LinkAt(base, ptr, c, k);
    }
    forall k: nat | k < |a|
      ensures LinkAt(base, ptr', a, k)
    {
      NodeOrder(base, top, free, k, i);
      assert LinkAt(base, ptr, a, k);
    }
    hide Linked, Spaced;
    LinkedSkip(base, ptr', size, a, c);
  }

  lemma LinkedSkip(base: int, ptr: Memory, size: Memory, a: seq<Blk>, c: seq<Blk>)
    requires Get(size, base) == 0 && Sized(size, a) && Sized(size, c)
    requires Reaches(base, ptr, a) && Get(ptr, Last(base, a)) == First(base, c) && Returns(base, ptr, c)
    ensures Linked(base, ptr, size, a + c)
  {
    var s := a + c;
    forall i: nat | i <= |s|
      ensures LinkAt(base, ptr, s, i)
    {
      if i < |a| {
        assert LinkAt(base, ptr, a, i);
      } else if i > |a| {
        assert LinkAt(base, ptr, c, i - |a|);
      }
    }
  }

  lemma TakenPart(base: int, ptr: Memory, size: Memory, top: int, free: seq<Blk>, i: nat, n: int)
    requires Linked(base, ptr, size, free) && Spaced(base, top, free) && i < |free| && 0 < n < free[i].units
    ensures Linked(base, ptr, TakenSize(size, free, i, n), Taken(free, i, n))
  {
    var f, size' := Taken(free, i, n), TakenSize(size, free, i, n);
    forall k: nat | k <= |f|
      ensures LinkAt(base, ptr, f, k)
    {
      assert LinkAt(base, ptr, free, k);
    }
    assert Inside(base, top, free[i]);
    forall k: nat | k < |f|
      ensures Get(size', f[k].addr) == f[k].units
    {
      assert k < i ==> End(free[k]) < free[i].addr && Inside(base, top, free[k]);
      assert i < k ==> End(free[i]) < free[k].addr;
    }
  }

  lemma TakenLive(base: int, size: Memory, top: int, free: seq<Blk>, i: nat, n: int, live: seq<Blk>)
    requires Spaced(base, top, free) && i < |free| && 0 < n <= free[i].units && LiveOk(base, top, size, free, live)
    requires Get(size, free[i].addr) == free[i].units
    ensures LiveOk(base, top, TakenSize(size, free, i, n), Taken(free, i, n), live + [Piece(free[i], n)])
  {
  }

  lemma SumSnoc(s: seq<Blk>, b: Blk)
    ensures Sum(s + [b]) == Sum(s) + b.units
  {
  }

  /** Taking n units from block i keeps the shape and conserves the units. */
  lemma TakenShape(base: int, ptr: Memory, size: Memory, top: int, g: Blocks, i: nat, n: int)
    requires Shape(base, ptr, size, top, g) && i < |g.free| && 0 < n <= g.free[i].units
    ensures var g' := Blocks(Taken(g.free, i, n), g.live + [Piece(g.free[i], n)], g.got, i);
            && Shape(base, TakenPtr(base, ptr, g.free, i, n), TakenSize(size, g.free, i, n), top, g')
            && Node(base, g'.free, i) == Node(base, g.free, i) != 0 && Get(size, g.free[i].addr) == g.free[i].units
               && Piece(g.free[i], n).addr > 0
            && Sum(g'.free) + Sum(g'.live) == Sum(g.free) + Sum(g.live)
  {
    TakenSum(g.free, i, n);
    SumSnoc(g.live, Piece(g.free[i], n));
    TakenSpaced(base, top, g.free, i, n);
    TakenLive(base, size, top, g.free, i, n, g.live);
    if g.free[i].units == n {
      TakenWhole(base, ptr, size, top, g.free, i);
    } else {
      TakenPart(base, ptr, size, top, g.free, i, n);
    }
    assert i > 0 ==> Inside(base, top, g.free[i - 1]);
    hide LiveOk, Linked, Spaced, Sum;
  }

  // ----- asking for more -----

  /** Header units for a request of n bytes: the bytes rounded up, and the header. */
  function Units(nbytes: nat): (n: int)
    ensures n > 0 && 16 * n - 32 < nbytes <= 16 * n - 16
  {
    (nbytes + 15) / 16 + 1
  }

  /** morecore asks for 4096 units at least. */
  function AtLeast(nu: int): (n: int)
    ensures n >= nu && n >= 4096 && n in {nu, 4096}
  {
    if nu < MINUNITS then MINUNITS else nu
  }

  /** A 64-bit value passed as a C int. */
  function ToInt(x: int): int {
    var r := x % 0x1_0000_0000;
    if r >= 0x8000_0000 then r - 0x1_0000_0000 else r
  }

  /** What morecore asks sbrk for. */
  function Asked(nu: int): int { ToInt(16 * AtLeast(nu)) }

  /** The argument of sbrk is the length of the new block exactly for requests up to LARGEST; beyond
      that the byte count no longer fits an int. */
  lemma AskedIsEnough(nbytes: nat)
    requires nbytes < 0x1_0000_0000
    ensures Asked(Units(nbytes)) == 16 * AtLeast(Units(nbytes)) <==> nbytes <= LARGEST
  {
  }

  lemma UnitsBound(nbytes: Uint)
    ensures 0 < Units(nbytes) <= 0x1000_0001
  {
  }

  /** A request for which sbrk is asked to shrink the process. */
  lemma LargeRequestShrinks()
    ensures Asked(Units(LARGEST + 1)) == -0x8000_0000
  {
  }

  /** The free list after morecore has added a block at the break. */
  function Refilled(free: seq<Blk>, brk: int, nu: int): seq<Blk> {
    Coalesce(free, Place(free, brk), Blk(brk, AtLeast(nu)))
  }

  /** sbrk refuses to grow the process: it would reach the trapframe, or memory does not allow it. */
  predicate Refused(brk: int, given: int, n: int, deny: bool) {
    n > 0 && (deny || brk + n > TRAPFRAME || given + n > MEMORY)
  }

  lemma CoalesceFits(free: seq<Blk>, t: nat, b: Blk, n: int)
    requires t <= |free| && 0 <= n <= b.units && forall i: nat :: i < |free| ==> free[i].units > 0
    ensures Fits(Coalesce(free, t, b), n)
  {
    assert Coalesce(free, t, b)[|Before(free, t, b)|] == Joined(free, t, b);
  }

  /** A header written above the break touches no block. */
  lemma AboveBreak(base: int, ptr: Memory, size: Memory, brk: int, g: Blocks, nu: int)
    requires Shape(base, ptr, size, brk, g) && base < brk && nu > 0
    ensures Shape(base, ptr, size[brk := nu], brk + 16 * nu, g)
    ensures Freeable(base, brk + 16 * nu, g.free, Blk(brk, nu)) && Clear(Blk(brk, nu), g.live)
  {
  }

  // ----- the search of malloc -----

  function SizeAt(free: seq<Blk>, i: nat): int { if 1 <= i <= |free| then free[i - 1].units else 0 }

  /** Every node met in the s steps after freep is too small. */
  ghost predicate TooSmall(free: seq<Blk>, at: nat, s: int, n: int) {
    forall i: nat :: i <= |free| && 0 < Steps(|free|, at, i) <= s ==> SizeAt(free, i) < n
  }

  function Next(free: seq<Blk>, i: nat): nat { if i >= |free| then 0 else i + 1 }

  lemma NextNode(base: int, ptr: Memory, size: Memory, free: seq<Blk>, i: nat)
    requires Linked(base, ptr, size, free) && i <= |free|
    ensures Get(ptr, Node(base, free, i)) == Node(base, free, Next(free, i))
    ensures Get(size, Node(base, free, i)) == SizeAt(free, i)
  {
    assert LinkAt(base, ptr, free, i);
  }

  /** Nodes are distinct, so the search is back at freep only after a whole round. */
  lemma BackAtStart(base: int, top: int, free: seq<Blk>, at: nat, i: nat)
    requires Spaced(base, top, free) && at <= |free| && i <= |free| && Node(base, free, i) == Node(base, free, at)
    ensures i == at
  {
  }

  ghost predicate Searching(free: seq<Blk>, at: nat, i: nat, n: int) {
    at <= |free| && i <= |free| && TooSmall(free, at, Steps(|free|, at, i), n)
  }

  lemma SearchStart(free: seq<Blk>, at: nat, n: int)
    requires at <= |free|
    ensures Searching(free, at, at, n)
  {
  }

  lemma RefilledFits(base: int, top: int, free: seq<Blk>, brk: int, n: int)
    requires Spaced(base, top, free) && n >= 0
    ensures Fits(Refilled(free, brk, n), n)
  {
    assert forall i: nat :: i < |free| ==> Inside(base, top, free[i]);
    CoalesceFits(free, Place(free, brk), Blk(brk, AtLeast(n)), n);
  }

  lemma Found(base: int, free: seq<Blk>, i: nat, n: int)
    requires i <= |free| && 0 < n <= SizeAt(free, Next(free, i))
    ensures i < |free| && n <= free[i].units && Node(base, free, Next(free, i)) == free[i].addr && Fits(free, n)
  {
  }

  lemma SearchStep(free: seq<Blk>, at: nat, i: nat, n: int)
    requires Searching(free, at, i, n) && SizeAt(free, Next(free, i)) < n && Next(free, i) != at
    ensures Searching(free, at, Next(free, i), n)
    ensures Steps(|free|, at, i) < Steps(|free|, at, Next(free, i)) <= |free|
  {
  }

  lemma WholeRound(free: seq<Blk>, at: nat, i: nat, n: int)
    requires Searching(free, at, i, n) && Next(free, i) == at && SizeAt(free, at) < n
    ensures !Fits(free, n)
  {
    forall j: nat | j < |free|
      ensures free[j].units < n
    {
      assert SizeAt(free, j + 1) == free[j].units;
      assert j + 1 != at ==> 0 < Steps(|free|, at, j + 1) <= Steps(|free|, at, i);
    }
  }

  /** Where malloc finds its block: on the list as it was, or as morecore leaves it. */
  function Source(free: seq<Blk>, brk: int, n: int): seq<Blk> { if Fits(free, n) then free else Refilled(free, brk, n) }

  /** Where malloc's search starts: at freep, which morecore moves to where it put the new block. */
  function From(free: seq<Blk>, at: nat, brk: int, n: int): nat { if Fits(free, n) then at else Place(free, brk) }

  /** A block of n units was taken from src and handed out: from the first node behind `at` that is
      large enough, and the next search starts there. */
  ghost predicate Took(src: seq<Blk>, at: nat, live: seq<Blk>, n: int, g: Blocks, ap: int) {
    exists i: nat :: TookAt(src, at, live, n, g, ap, i)
  }

  ghost predicate TookAt(src: seq<Blk>, at: nat, live: seq<Blk>, n: int, g: Blocks, ap: int, i: nat) {
    && i < |src| && n <= src[i].units && Searching(src, at, i, n) && g.at == i
    && g.free == Taken(src, i, n) && g.live == live + [Piece(src[i], n)] && ap == Piece(src[i], n).addr + 16
  }

  lemma MallocDone(base: int, ptr: Memory, size: Memory, freep: int, brk: int, top: int, nbytes: nat,
                   before: Blocks, brk0: int, src: Blocks, g: Blocks, grown: bool)
    requires nbytes < 0x1_0000_0000 && Shape(base, ptr, size, top, g) && freep == Node(base, g.free, g.at) && freep != 0
    requires base < brk0 <= TRAPFRAME && before.got <= MEMORY && Conserved(before)
    requires Sum(g.free) + Sum(g.live) == Sum(src.free) + Sum(src.live) && g.got == src.got
    requires !grown ==> src == before && top == brk == brk0
    requires grown ==> src.free == Refilled(before.free, brk0, Units(nbytes)) && src.live == before.live
                       && src.got == before.got + Asked(Units(nbytes)) && top == brk0 + 16 * AtLeast(Units(nbytes))
    requires grown && Asked(Units(nbytes)) == 16 * AtLeast(Units(nbytes)) ==> brk == top <= TRAPFRAME && g.got <= MEMORY
    ensures !grown ==> HeapOk(base, ptr, size, freep, brk, g)
    ensures grown ==> (HeapOk(base, ptr, size, freep, brk, g) <==> nbytes <= LARGEST)
    ensures grown && nbytes <= LARGEST ==> brk == top
  {
    AskedIsEnough(nbytes);
    if grown {
      CoalesceSum(before.free, Place(before.free, brk0), Blk(brk0, AtLeast(Units(nbytes))));
    }
    hide Shape, Sum, Coalesce, Place, Units, Asked, AtLeast, Node;
  }

  lemma PlaceIs(base: int, top: int, free: seq<Blk>, a: int, u: nat)
    requires Spaced(base, top, free) && u <= |free|
    requires u > 0 ==> free[u - 1].addr < a
    requires u < |free| ==> a <= free[u].addr
    ensures Place(free, a) == u
  {
  }

  lemma PutBack(free: seq<Blk>, i: nat)
    requires i < |free| && (i > 0 ==> End(free[i - 1]) != free[i].addr)
    requires (i + 1 < |free| ==> End(free[i]) != free[i + 1].addr)
    ensures Coalesce(Without(free, i), i, free[i]) == free
  {
  }

  /** A block taken whole goes back where it was. */
  lemma WholeBack(base: int, top: int, free: seq<Blk>, i: nat)
    requires Spaced(base, top, free) && i < |free|
    ensures Place(Without(free, i), free[i].addr) == i && Coalesce(Without(free, i), i, free[i]) == free
  {
    var f := Without(free, i);
    TakenSpaced(base, top, free, i, free[i].units);
    assert i > 0 ==> f[i - 1] == free[i - 1] && End(free[i - 1]) < free[i].addr && Inside(base, top, free[i - 1]);
    assert i + 1 < |free| ==> f[i] == free[i + 1] && End(free[i]) < free[i + 1].addr;
    assert Inside(base, top, free[i]);
    hide Place, Spaced, Coalesce, Without;
    PlaceIs(base, top, f, free[i].addr, i);
    PutBack(free, i);
  }

  /** A piece cut off a block joins it again. */
  lemma PieceBack(base: int, top: int, free: seq<Blk>, i: nat, n: int)
    requires Spaced(base, top, free) && i < |free| && 0 < n < free[i].units
    ensures var f, b := Taken(free, i, n), Piece(free[i], n);
            Place(f, b.addr) == i + 1 && Coalesce(f, i + 1, b) == free
  {
    var f, b := Taken(free, i, n), Piece(free[i], n);
    TakenSpaced(base, top, free, i, n);
    assert i + 1 < |free| ==> f[i + 1] == free[i + 1] && End(free[i]) < free[i + 1].addr;
    PlaceIs(base, top, f, b.addr, i + 1);
    hide Place, Spaced;
    assert Before(f, i + 1, b) == free[..i] && Behind(f, i + 1, b) == free[i + 1..] && Joined(f, i + 1, b) == free[i];
    assert free == free[..i] + [free[i]] + free[i + 1..];
  }

  /** Freeing a block at once puts the free list back as it was. */
  lemma FreeUndoesMalloc(base: int, top: int, free: seq<Blk>, i: nat, n: int)
    requires Spaced(base, top, free) && i < |free| && 0 < n <= free[i].units
    ensures var f, b := Taken(free, i, n), Piece(free[i], n);
            Coalesce(f, Place(f, b.addr), b) == free
  {
    if n < free[i].units {
      PieceBack(base, top, free, i, n);
    } else {
      WholeBack(base, top, free, i);
      assert Piece(free[i], n) == free[i] && Taken(free, i, n) == Without(free, i);
    }
  }

  // ----- the contents of blocks -----

  /** The bytes from lo to hi belong to the program that holds b. */
  predicate InPayload(b: Blk, lo: int, hi: int) { b.addr + 16 <= lo && hi <= End(b) }

  /** No field within the payload of one of these blocks, and so no byte of it, has changed. */
  ghost predicate Untouched(live: seq<Blk>, ptr: Memory, size: Memory, ptr': Memory, size': Memory) {
    forall i: nat, a: int :: i < |live| ==> SameAt(live[i], a, ptr, size, ptr', size')
  }

  /** The eight bytes at a, and the four bytes behind them, as far as they are b's payload. */
  predicate SameAt(b: Blk, a: int, ptr: Memory, size: Memory, ptr': Memory, size': Memory) {
    && (InPayload(b, a, a + 8) ==> Get(ptr', a) == Get(ptr, a))
    && (InPayload(b, a + 8, a + 12) ==> Get(size', a) == Get(size, a))
  }

  /** A store of eight bytes at s changes the eight bytes at a or the four behind them. */
  predicate Overlaps(s: int, a: int) { -8 < s - a < 12 }

  lemma UntouchedSelf(live: seq<Blk>, ptr: Memory, size: Memory)
    ensures Untouched(live, ptr, size, ptr, size)
  {
  }

  /** What is free is part of what sbrk gave. */
  lemma FreeAtMost(base: int, ptr: Memory, size: Memory, top: int, g: Blocks)
    requires Shape(base, ptr, size, top, g) && Conserved(g)
    ensures 0 <= 16 * Sum(g.free) <= g.got
  {
    assert forall i: nat :: i < |g.live| ==> Inside(base, top, g.live[i]);
    assert forall i: nat :: i < |g.free| ==> Inside(base, top, g.free[i]);
    SumPositive(g.live);
    SumPositive(g.free);
  }

  lemma LiveAtMost(base: int, ptr: Memory, size: Memory, top: int, g: Blocks, i: nat)
    requires Shape(base, ptr, size, top, g) && Conserved(g) && i < |g.live|
    ensures 16 * (Sum(g.free) + g.live[i].units) <= g.got
  {
    assert forall k: nat :: k < |g.live| ==> Inside(base, top, g.live[k]);
    SumAt(g.live, i);
    SumPositive(g.live[..i]);
    SumPositive(g.live[i + 1..]);
  }

  lemma UntouchedTrans(live: seq<Blk>, ptr: Memory, size: Memory, ptr1: Memory, size1: Memory, ptr2: Memory,
                       size2: Memory)
    requires Untouched(live, ptr, size, ptr1, size1) && Untouched(live, ptr1, size1, ptr2, size2)
    ensures Untouched(live, ptr, size, ptr2, size2)
  {
    forall i: nat, a: int | i < |live|
      ensures SameAt(live[i], a, ptr, size, ptr2, size2)
    {
      assert SameAt(live[i], a, ptr, size, ptr1, size1) && SameAt(live[i], a, ptr1, size1, ptr2, size2);
    }
  }

  /** free stores at the node it found and at the block's own header. */
  lemma FreedUntouched(base: int, ptr: Memory, size: Memory, top: int, free: seq<Blk>, t: nat, b: Blk, ptr': Memory,
                       size': Memory, live: seq<Blk>)
    requires Spaced(base, top, free) && Freeable(base, top, free, b) && t <= |free|
    requires LiveOk(base, top, size, free, live) && Clear(b, live)
    requires Freed(base, ptr, size, free, t, b, ptr', size')
    ensures Untouched(live, ptr, size, ptr', size')
  {
    forall i: nat, a: int | i < |live|
      ensures SameAt(live[i], a, ptr, size, ptr', size')
    {
      assert Apart(b, live[i]) && Inside(base, top, live[i]) && Clear(live[i], free);
      assert t > 0 ==> Apart(live[i], free[t - 1]) && Inside(base, top, free[t - 1]);
    }
  }

  /** malloc stores at the node before the block, at the block's header and at the header of the piece. */
  lemma TakenUntouched(base: int, ptr: Memory, size: Memory, top: int, free: seq<Blk>, i: nat, n: int, live: seq<Blk>)
    requires Spaced(base, top, free) && LiveOk(base, top, size, free, live) && i < |free| && 0 < n <= free[i].units
    ensures Untouched(live, ptr, size, TakenPtr(base, ptr, free, i, n), TakenSize(size, free, i, n))
  {
    forall k: nat, a: int | k < |live|
      ensures SameAt(live[k], a, ptr, size, TakenPtr(base, ptr, free, i, n), TakenSize(size, free, i, n))
    {
      assert Inside(base, top, live[k]) && Clear(live[k], free);
      assert Apart(live[k], free[i]) && Inside(base, top, free[i]);
      assert i > 0 ==> Apart(live[k], free[i - 1]) && Inside(base, top, free[i - 1]);
    }
  }

  /** The header of new memory lies above all blocks. */
  lemma AboveUntouched(base: int, ptr: Memory, size: Memory, brk: int, g: Blocks, n: int)
    requires Shape(base, ptr, size, brk, g)
    ensures Untouched(g.live, ptr, size, ptr, size[brk := n])
  {
    assert forall i: nat :: i < |g.live| ==> Inside(base, brk, g.live[i]);
  }

  /** Memory after a store of v at a: the fields that overlap the eight bytes read as `news` says. */
  function Stored(m: Memory, a: int, news: Memory): Memory { m + (map x | x in news && Overlaps(a, x) :: news[x]) }

  /** A program's store into the payload of a block it holds is no business of the allocator's. */
  lemma StoreOk(base: int, ptr: Memory, size: Memory, freep: int, brk: int, g: Blocks, k: nat, a: int, ptr': Memory,
                size': Memory)
    requires HeapOk(base, ptr, size, freep, brk, g) && k < |g.live| && InPayload(g.live[k], a, a + 8)
    requires forall x: int :: !Overlaps(a, x) ==> Get(ptr', x) == Get(ptr, x) && Get(size', x) == Get(size, x)
    ensures HeapOk(base, ptr', size', freep, brk, g)
  {
    hide Sum;
    var b := g.live[k];
    assert Inside(base, brk, b) && Clear(b, g.free);
    forall i: nat | i <= |g.free|
      ensures LinkAt(base, ptr', g.free, i)
    {
      assert i > 0 ==> Apart(b, g.free[i - 1]) && Inside(base, brk, g.free[i - 1]);
      assert LinkAt(base, ptr, g.free, i);
    }
    forall i: nat | i < |g.free|
      ensures Get(size', g.free[i].addr) == g.free[i].units
    {
      assert Apart(b, g.free[i]) && Inside(base, brk, g.free[i]);
    }
    forall i: nat | i < |g.live|
      ensures Get(size', g.live[i].addr) == g.live[i].units
    {
      assert Inside(base, brk, g.live[i]);
      if i < k {
        assert Apart(g.live[i], b);
      } else if k < i {
        assert Apart(b, g.live[i]);
      }
    }
    assert !Overlaps(a, base);
  }

  // ----- giving a block back -----

  function Without(s: seq<Blk>, i: nat): seq<Blk>
    requires i < |s|
  {
    s[..i] + s[i + 1..]
  }

  /** A block that was handed out may be freed: it overlaps nothing else. */
  lemma MayFree(base: int, ptr: Memory, size: Memory, top: int, g: Blocks, i: nat)
    requires Shape(base, ptr, size, top, g) && i < |g.live|
    ensures var g' := g.(live := Without(g.live, i));
            Shape(base, ptr, size, top, g') && Freeable(base, top, g.free, g.live[i]) && Clear(g.live[i], g'.live)
            && Get(size, g.live[i].addr) == g.live[i].units
  {
  }

  lemma SumWithout(s: seq<Blk>, i: nat)
    requires i < |s|
    ensures Sum(Without(s, i)) + s[i].units == Sum(s)
  {
    SumAt(s, i);
    SumSplit(Without(s, i), i);
    assert Without(s, i)[..i] == s[..i] && Without(s, i)[i..] == s[i + 1..];
    hide Sum;
  }

  /** A call a program makes: malloc with sbrk willing or not, free of the k-th block it holds, an sbrk of
      its own that grows the process, or a store of a word into the k-th block it holds. */
  datatype Call =
    | Malloc(nbytes: Uint, deny: bool)
    | Free(k: nat)
    | Grow(n: nat, lazily: bool, deny: bool)
    | Store(k: nat, a: int, v: int, ptrs: Memory, sizes: Memory)   // what overlapping fields read as afterwards

  /** The process as a run sees it: the blocks, the break, the memory given, and memory itself. */
  datatype World = World(g: Blocks, brk: int, given: int, ptr: Memory, size: Memory)

  /** malloc passes sbrk a truncated count and takes memory it did not get. */
  predicate Breaks(c: Call, w: World) {
    && c.Malloc? && c.nbytes > LARGEST && !Fits(w.g.free, Units(c.nbytes))
    && !Refused(w.brk, w.given, Asked(Units(c.nbytes)), c.deny)
  }

  /** The pointers a program holds are those of the blocks handed out. */
  ghost predicate Holds(held: seq<int>, live: seq<Blk>) {
    |held| == |live| && forall i: nat :: i < |held| ==> held[i] == live[i].addr + 16
  }

  /** One call on plain lists of blocks. */
  ghost predicate CallStep(c: Call, w: World, w': World) {
    var g, g' := w.g, w'.g;
    match c
    case Malloc(nbytes, deny) =>
      var n := Units(nbytes);
      if Fits(g.free, n) then
        Took(g.free, g.at, g.live, n, g', Newest(g'.live) + 16) && g'.got == g.got && w'.brk == w.brk &&
          w'.given == w.given
      else if Refused(w.brk, w.given, Asked(n), deny) then
        g' == g && w'.brk == w.brk && w'.given == w.given
      else
        && Took(Refilled(g.free, w.brk, n), Place(g.free, w.brk), g.live, n, g', Newest(g'.live) + 16)
        && g'.got == g.got + Asked(n) && w'.given == w.given + Asked(n) && w'.brk == w.brk + 16 * AtLeast(n)
    case Free(k) =>
      && w'.brk == w.brk && w'.given == w.given
      && g' == if k < |g.live| then
                 var b := g.live[k];
                 var t := Place(g.free, b.addr);
                 Blocks(Coalesce(g.free, t, b), Without(g.live, k), g.got, t)
               else g
    case Grow(n, lazily, deny) =>
      && g' == g
      && if lazily then
           w'.given == w.given && w'.brk == if w.brk + n > TRAPFRAME then w.brk else w.brk + n
         else if Refused(w.brk, w.given, n, deny) then
           w'.brk == w.brk && w'.given == w.given
         else
           w'.brk == w.brk + n && w'.given == w.given + n
    case Store(k, a, v, _, _) =>
      && g' == g && w'.brk == w.brk && w'.given == w.given
      && (k < |g.live| && InPayload(g.live[k], a, a + 8) ==> Get(w'.ptr, a) == v)
  }

  /** Memory within a block that is live before and after a call stays as it is, but for a store there. */
  ghost predicate MemoryStep(c: Call, w: World, w': World) {
    forall b: Blk, a: int :: b in w.g.live && b in w'.g.live && !(c.Store? && Overlaps(c.a, a)) ==>
      SameAt(b, a, w.ptr, w.size, w'.ptr, w'.size)
  }

  lemma MemoryKept(c: Call, w: World, w': World, live: seq<Blk>)
    requires Untouched(live, w.ptr, w.size, w'.ptr, w'.size)
    requires forall b :: b in w.g.live && b in w'.g.live ==> b in live
    ensures MemoryStep(c, w, w')
  {
    forall b: Blk, a: int | b in w.g.live && b in w'.g.live
      ensures SameAt(b, a, w.ptr, w.size, w'.ptr, w'.size)
    {
      assert b in live;
    }
  }

  /** A run, call by call. */
  ghost predicate Ran(calls: seq<Call>, trace: seq<World>) {
    |trace| <= |calls| + 1 && forall c: nat :: c + 1 < |trace| ==>
      CallStep(calls[c], trace[c], trace[c + 1]) && MemoryStep(calls[c], trace[c], trace[c + 1])
  }

  /** What is in a block a program holds stays there: over any part of a run in which the block is live
      and no store of the program reaches them, the bytes at a keep their value, whatever else is
      allocated, freed and stored. */
  lemma {:induction false} ContentsStay(calls: seq<Call>, trace: seq<World>, b: Blk, a: int, i: nat, j: nat)
    requires Ran(calls, trace) && i <= j < |trace|
    requires forall m: nat :: i <= m <= j ==> b in trace[m].g.live
    requires forall m: nat :: i <= m < j ==> !(calls[m].Store? && Overlaps(calls[m].a, a))
    ensures SameAt(b, a, trace[i].ptr, trace[i].size, trace[j].ptr, trace[j].size)
  {
    hide CallStep;
    if i < j {
      ContentsStay(calls, trace, b, a, i, j - 1);
      var w, w' := trace[j - 1], trace[j - 1 + 1];
      assert MemoryStep(calls[j - 1], w, w') && b in w.g.live && b in w'.g.live;
      assert SameAt(b, a, w.ptr, w.size, w'.ptr, w'.size);
    }
  }

  function Newest(live: seq<Blk>): int { if live == [] then 0 else live[|live| - 1].addr }

  lemma HeaderIs(base: int, ptr: Memory, size: Memory, freep: int, brk: int, g: Blocks, k: nat)
    requires HeapOk(base, ptr, size, freep, brk, g) && k < |g.live|
    ensures Get(size, g.live[k].addr) == g.live[k].units > 0
  {
    hide Sum;
    assert Inside(base, brk, g.live[k]);
  }

  lemma HoldsMore(held: seq<int>, live: seq<Blk>, src: seq<Blk>, at: nat, n: int, g: Blocks, ap: int)
    requires Holds(held, live) && Took(src, at, live, n, g, ap)
    ensures Holds(held + [ap], g.live) && ap == Newest(g.live) + 16
  {
  }

  lemma GrowOk(base: int, ptr: Memory, size: Memory, freep: int, brk: int, n: nat, g: Blocks)
    requires HeapOk(base, ptr, size, freep, brk, g) && brk + n <= TRAPFRAME
    ensures HeapOk(base, ptr, size, freep, brk + n, g) && brk + n >= 0
  {
  }

  class Allocator {
    const base: int
    var ptr: Memory
    var size: Memory
    var freep: int
    var brk: int
    var given: int                // bytes of memory sbrk has given the process
    ghost var g: Blocks

    constructor (base: int, brk: int)
      requires 0 < base < brk <= TRAPFRAME
      ensures this.base == base && this.brk == brk && g == Blocks([], [], 0, 0)
      ensures HeapOk(base, ptr, size, freep, brk, g) && given == 0
    {
      this.base, this.brk, given := base, brk, 0;
      ptr, size, freep, g := map[], map[], 0, Blocks([], [], 0, 0);
    }

    /** The search loop of free: the node behind which a block at bp belongs. */
    method Search(bp: int, ghost b: Blk, ghost top: int) returns (p: int)
      requires Shape(base, ptr, size, top, g) && freep == Node(base, g.free, g.at)
      requires Freeable(base, top, g.free, b) && bp == b.addr
      ensures p == Node(base, g.free, Place(g.free, bp))
    {
      hide Place, LiveOk, Clear, Spaced, Inside;
      p := freep;
      ghost var free, t, i: nat := g.free, Place(g.free, bp), g.at;
      assert LinkAt(base, ptr, free, i);
      StopsAt(base, top, free, b, t, i);
      while !(bp > p && bp < Get(ptr, p))
        invariant i <= |free| && p == Node(base, free, i)
        invariant (bp > p && bp < Get(ptr, p)) || (p >= Get(ptr, p) && (bp > p || bp < Get(ptr, p))) <==> i == t
        decreases Steps(|free|, i, t)
      {
        if p >= Get(ptr, p) && (bp > p || bp < Get(ptr, p)) {
          break;
        }
        assert LinkAt(base, ptr, free, i);
        p := Get(ptr, p);
        i := if i == |free| then 0 else i + 1;
        StopsAt(base, top, free, b, t, i);
        assert LinkAt(base, ptr, free, i);
      }
    }

    /** free, from the header of a block that overlaps nothing: the block joins the list where its
        address belongs and coalesces with the neighbours it touches. */
    method FreeBlock(bp: int, ghost b: Blk, ghost top: int)
      requires Shape(base, ptr, size, top, g) && freep == Node(base, g.free, g.at)
      requires Sum(g.free) + b.units < 0x1_0000_0000
      requires Freeable(base, top, g.free, b) && Clear(b, g.live) && bp == b.addr && Get(size, bp) == b.units
      modifies `ptr, `size, `freep, `g
      ensures Shape(base, ptr, size, top, g) && freep == Node(base, g.free, g.at) && freep != 0
      ensures g == Blocks(Coalesce(old(g).free, Place(old(g).free, bp), b), old(g).live, old(g).got,
          Place(old(g).free, bp))
      ensures Untouched(g.live, old(ptr), old(size), ptr, size)
    {
      hide Place, Coalesce, LiveOk, Clear, Spaced, Linked, Freed, Freeable, Add32, Get, Node, Untouched, Sum;
      var p := Search(bp, b, top);
      var next := Get(ptr, p);
      if bp + 16 * Get(size, bp) == next {
        size := size[bp := Add32(Get(size, bp), Get(size, next))];
        ptr := ptr[bp := Get(ptr, next)];
      } else {
        ptr := ptr[bp := next];
      }
      if p + 16 * Get(size, p) == bp {
        size := size[p := Add32(Get(size, p), Get(size, bp))];
        ptr := ptr[p := Get(ptr, bp)];
      } else {
        ptr := ptr[p := bp];
      }
      freep := p;
      ghost var free, t := g.free, Place(g.free, bp);
      IsFreed(base, old(ptr), old(size), top, free, t, b, ptr, size);
      FreedLinked(base, old(ptr), old(size), top, free, t, b, ptr, size);
      FreedLive(base, old(ptr), old(size), top, free, t, b, ptr, size, g.live);
      FreedUntouched(base, old(ptr), old(size), top, free, t, b, ptr, size, g.live);
      CoalesceSpaced(base, top, free, b, t);
      SamePlace(base, top, free, t, b);
      g := Blocks(Coalesce(free, t, b), g.live, g.got, t);
    }

    /** sbrk: the old break, or failure; the break moves by n, unless that would wrap around. */
    method Sbrk(n: int, deny: bool) returns (ok: bool, p: int)
      modifies `brk, `given
      ensures ok <==> !Refused(old(brk), old(given), n, deny)
      ensures ok <==> n <= 0 || (!deny && old(brk) + n <= 0x3f_ffff_e000 && old(given) + n <= 0x8_0000_0000)
      ensures p == old(brk) && brk == (if ok && old(brk) + n >= 0 then old(brk) + n else old(brk))
      ensures given == if ok then old(given) + n else old(given)
    {
      p := brk;
      ok := !(n > 0 && (deny || brk + n > TRAPFRAME || given + n > MEMORY));
      if ok {
        given := given + n;
        if brk + n >= 0 {
          brk := brk + n;
        }
      }
    }

    /** morecore: a new block at the break, freed onto the list. */
    method Morecore(nu: int, deny: bool) returns (p: int)
      requires HeapOk(base, ptr, size, freep, brk, g) && freep != 0 && 0 < nu <= 0x1000_0001 && g.got <= given <= MEMORY
      modifies this
      ensures p == 0 <==> Refused(old(brk), old(given), Asked(nu), deny)
      ensures p == 0 ==>
                && brk == old(brk) && ptr == old(ptr) && size == old(size) && freep == old(freep) && g == old(g)
                && given == old(given)
      ensures p != 0 ==>
                Shape(base, ptr, size, old(brk) + 16 * AtLeast(nu), g) && p == freep == Node(base, g.free, g.at)
      ensures p != 0 ==>
                && g.at == Place(old(g).free, old(brk)) && g.free == Refilled(old(g).free, old(brk), nu)
                && g.live == old(g).live
      ensures p != 0 ==> g.got == old(g).got + Asked(nu) && given == old(given) + Asked(nu) <= MEMORY
      ensures p != 0 && Asked(nu) == 16 * AtLeast(nu) ==> brk == old(brk) + 16 * AtLeast(nu) <= TRAPFRAME
      ensures Untouched(old(g).live, old(ptr), old(size), ptr, size)
    {
      hide Place, Coalesce, LiveOk, Clear, Spaced, Linked, Freeable, Node, Asked, Untouched, Sum;
      UntouchedSelf(g.live, ptr, size);
      FreeAtMost(base, ptr, size, brk, g);
      var n := if nu < MINUNITS then MINUNITS else nu;
      var ok, hp := Sbrk(Asked(nu), deny);
      if !ok {
        return 0;
      }
      AboveBreak(base, ptr, size, hp, g, n);
      AboveUntouched(base, ptr, size, hp, g, n);
      size := size[hp := n];
      ghost var size1 := size;
      FreeBlock(hp, Blk(hp, n), hp + 16 * n);
      UntouchedTrans(g.live, old(ptr), old(size), old(ptr), size1, ptr, size);
      g := g.(got := g.got + Asked(nu));
      return freep;
    }

    /** The first use of the allocator makes the list of base alone. */
    method Start()
      requires HeapOk(base, ptr, size, freep, brk, g)
      modifies `ptr, `size, `freep
      ensures HeapOk(base, ptr, size, freep, brk, g) && freep != 0 && Untouched(g.live, old(ptr), old(size), ptr, size)
    {
      if freep == 0 {
        ptr := ptr[base := base];
        freep := base;
        size := size[base := 0];
      } else {
        assert g.at > 0 ==> Inside(base, brk, g.free[g.at - 1]);
      }
    }

    /** Take n units from the end of the block p behind prevp. */
    method Take(prevp: int, p: int, n: int, ghost i: nat, ghost top: int) returns (ap: int)
      requires Shape(base, ptr, size, top, g) && i < |g.free| && 0 < n <= g.free[i].units
      requires prevp == Node(base, g.free, i) && p == g.free[i].addr
      modifies `ptr, `size, `freep, `g
      ensures Shape(base, ptr, size, top, g) && freep == Node(base, g.free, g.at) && freep != 0
      ensures g == Blocks(Taken(old(g).free, i, n), old(g).live + [Piece(old(g).free[i], n)], old(g).got, i)
      ensures ap == Piece(old(g).free[i], n).addr + 16 > 0
      ensures Sum(g.free) + Sum(g.live) == Sum(old(g).free) + Sum(old(g).live)
      ensures Untouched(old(g).live, old(ptr), old(size), ptr, size)
    {
      hide Sum, Taken, Node, Untouched, LiveOk, Spaced, Linked;
      TakenShape(base, ptr, size, top, g, i, n);
      TakenUntouched(base, ptr, size, top, g.free, i, n, g.live);
      ap := p + 16;
      if Get(size, p) == n {
        ptr := ptr[prevp := Get(ptr, p)];
      } else {
        var rest := Get(size, p) - n;
        ap := p + 16 * rest + 16;
        size := size[p := rest][p + 16 * rest := n];
      }
      freep := prevp;
      g := Blocks(Taken(g.free, i, n), g.live + [Piece(g.free[i], n)], g.got, i);
    }

    /** malloc: null exactly when no free block is big enough and sbrk refuses; otherwise a block of
        just enough units.  When memory had to be obtained, the invariant survives exactly for
        requests up to LARGEST.  The blocks already handed out are not touched.  grew says whether
        memory had to be obtained. */
    method Malloc(nbytes: Uint, deny: bool) returns (ap: int, grew: bool)
      requires HeapOk(base, ptr, size, freep, brk, g) && g.got <= given <= MEMORY
      modifies this
      ensures ap == 0 <==>
          !Fits(old(g).free, Units(nbytes)) && Refused(old(brk), old(given), Asked(Units(nbytes)), deny)
      ensures (ap == 0 ==> g == old(g)) && (grew <==> ap != 0 && !Fits(old(g).free, Units(nbytes)))
      ensures ap == 0 || Fits(old(g).free, Units(nbytes)) ==>
          brk == old(brk) && g.got == old(g).got && given == old(given)
      ensures ap != 0 && !Fits(old(g).free, Units(nbytes)) ==>
                g.got == old(g).got + Asked(Units(nbytes)) && given == old(given) + Asked(Units(nbytes)) <= MEMORY
      ensures ap != 0 && !Fits(old(g).free, Units(nbytes)) && nbytes <= LARGEST ==>
                brk == old(brk) + 16 * AtLeast(Units(nbytes))
      ensures ap != 0 ==>
          Took(Source(old(g).free, old(brk), Units(nbytes)), From(old(g).free, old(g).at, old(brk), Units(nbytes)),
               old(g).live, Units(nbytes), g, ap)
      ensures ap == 0 || Fits(old(g).free, Units(nbytes)) ==> HeapOk(base, ptr, size, freep, brk, g)
      ensures ap != 0 && !Fits(old(g).free, Units(nbytes)) ==>
                (HeapOk(base, ptr, size, freep, brk, g) <==> nbytes <= LARGEST)
      ensures Untouched(old(g).live, old(ptr), old(size), ptr, size)
    {
      hide Linked, Spaced, LiveOk, Sum, Taken, Piece, Refilled, Node, Units, Asked, Fits, Steps, TooSmall, AtLeast,
           Refused, Place, Untouched;
      var nunits := Units(nbytes);
      UnitsBound(nbytes);
      Start();
      grew := false;
      ghost var top: int, i: nat := brk, g.at;
      SearchStart(g.free, g.at, nunits);
      var prevp := freep;
      var p := Get(ptr, prevp);
      while true
        invariant Shape(base, ptr, size, top, g) && freep == Node(base, g.free, g.at) && freep != 0
        invariant prevp == Node(base, g.free, i) && p == Get(ptr, prevp) && Searching(g.free, g.at, i, nunits)
        invariant !grew ==> g == old(g) && top == brk == old(brk) && given == old(given)
        invariant grew ==>
                    && !Fits(old(g).free, nunits) && !Refused(old(brk), old(given), Asked(nunits), deny)
                    && Fits(g.free, nunits)
        invariant grew ==>
                    && g.at == Place(old(g).free, old(brk)) && g.free == Refilled(old(g).free, old(brk), nunits)
                    && g.live == old(g).live
        invariant grew ==> g.got == old(g).got + Asked(nunits) && given == old(given) + Asked(nunits) <= MEMORY
        invariant grew ==>
                    && top == old(brk) + 16 * AtLeast(nunits)
                    && (Asked(nunits) == 16 * AtLeast(nunits) ==> brk == top <= TRAPFRAME)
        invariant Untouched(old(g).live, old(ptr), old(size), ptr, size)
        decreases !grew, |g.free| + 1 - Steps(|g.free|, g.at, i)
      {
        ghost var ptr1, size1 := ptr, size;
        NextNode(base, ptr, size, g.free, i);
        NextNode(base, ptr, size, g.free, Next(g.free, i));
        if Get(size, p) >= nunits {
          Found(base, g.free, i, nunits);
          ghost var src := g;
          ap := Take(prevp, p, nunits, i, top);
          UntouchedTrans(old(g).live, old(ptr), old(size), ptr1, size1, ptr, size);
          assert TookAt(src.free, src.at, src.live, nunits, g, ap, i);
          MallocDone(base, ptr, size, freep, brk, top, nbytes, old(g), old(brk), src, g, grew);
          return;
        }
        if p == freep {
          BackAtStart(base, top, g.free, g.at, Next(g.free, i));
          WholeRound(g.free, g.at, i, nunits);
          if grew {
            assert false;
          }
          p := Morecore(nunits, deny);
          UntouchedTrans(old(g).live, old(ptr), old(size), ptr1, size1, ptr, size);
          if p == 0 {
            return 0, false;
          }
          grew := true;
          top, i := old(brk) + 16 * AtLeast(nunits), g.at;
          RefilledFits(base, old(brk), old(g).free, old(brk), nunits);
          SearchStart(g.free, g.at, nunits);
        } else {
          SearchStep(g.free, g.at, i, nunits);
          i := Next(g.free, i);
        }
        prevp := p;
        p := Get(ptr, p);
      }
    }

    /** free of a pointer that malloc returned. */
    method Free(ap: int, ghost i: nat)
      requires HeapOk(base, ptr, size, freep, brk, g) && i < |g.live| && ap == g.live[i].addr + 16
      modifies `ptr, `size, `freep, `g
      ensures HeapOk(base, ptr, size, freep, brk, g)
      ensures g.free == Coalesce(old(g).free, Place(old(g).free, ap - 16), old(g).live[i])
      ensures g.live == Without(old(g).live, i) && g.got == old(g).got && g.at == Place(old(g).free, ap - 16)
      ensures Untouched(g.live, old(ptr), old(size), ptr, size)
    {
      hide Sum, Coalesce, Place, Freeable, Clear, Without, Node, Get, Untouched, Linked, Spaced, LiveOk;
      FreeAtMost(base, ptr, size, brk, g);
      LiveAtMost(base, ptr, size, brk, g, i);
      ghost var b := g.live[i];
      MayFree(base, ptr, size, brk, g, i);
      SumWithout(g.live, i);
      CoalesceSum(g.free, Place(g.free, b.addr), b);
      g := g.(live := Without(g.live, i));
      FreeBlock(ap - 16, b, brk);
    }

    ghost function Now(): World
      reads this
    {
      World(g, brk, given, ptr, size)
    }

    /** A program's malloc, with the pointer kept. */
    method ExecMalloc(nbytes: Uint, deny: bool, held: seq<int>) returns (ok: bool, held': seq<int>)
      requires HeapOk(base, ptr, size, freep, brk, g) && g.got <= given <= MEMORY && Holds(held, g.live)
      modifies this
      ensures ok <==> !Breaks(Call.Malloc(nbytes, deny), old(Now()))
      ensures if ok then HeapOk(base, ptr, size, freep, brk, g) && g.got <= given <= MEMORY && Holds(held', g.live)
              else !HeapOk(base, ptr, size, freep, brk, g)
      ensures ok ==>
                && CallStep(Call.Malloc(nbytes, deny), old(Now()), Now())
                && MemoryStep(Call.Malloc(nbytes, deny), old(Now()), Now())
    {
      hide HeapOk, Took, Units, Asked, Fits, Refused, Coalesce, Place, Refilled, AtLeast, Untouched;
      ghost var w := Now();
      var ap, grew := Malloc(nbytes, deny);
      ok, held' := !(grew && nbytes > LARGEST), held;
      if ap != 0 {
        ghost var src, at := Source(w.g.free, w.brk, Units(nbytes)), From(w.g.free, w.g.at, w.brk, Units(nbytes));
        HoldsMore(held, w.g.live, src, at, Units(nbytes), g, ap);
        held' := held + [ap];
      }
      MemoryKept(Call.Malloc(nbytes, deny), w, Now(), w.g.live);
    }

    method ExecFree(k: nat, held: seq<int>) returns (held': seq<int>)
      requires HeapOk(base, ptr, size, freep, brk, g) && g.got <= given <= MEMORY && Holds(held, g.live) && k < |held|
      modifies this
      ensures HeapOk(base, ptr, size, freep, brk, g) && g.got <= given <= MEMORY && Holds(held', g.live)
      ensures CallStep(Call.Free(k), old(Now()), Now()) && MemoryStep(Call.Free(k), old(Now()), Now())
    {
      hide HeapOk, Coalesce, Place, Untouched;
      ghost var w := Now();
      Free(held[k], k);
      held' := held[..k] + held[k + 1..];
      MemoryKept(Call.Free(k), w, Now(), g.live);
    }

    /** sbrk or sbrklazy by the program itself, to grow. */
    method ExecGrow(n: nat, lazily: bool, deny: bool)
      requires HeapOk(base, ptr, size, freep, brk, g) && g.got <= given <= MEMORY
      modifies `brk, `given
      ensures HeapOk(base, ptr, size, freep, brk, g) && g.got <= given <= MEMORY
      ensures CallStep(Call.Grow(n, lazily, deny), old(Now()), Now())
    {
      ghost var was := brk;
      if lazily {
        if brk + n <= TRAPFRAME {
          brk := brk + n;
          GrowOk(base, ptr, size, freep, was, n, g);
        }
      } else {
        var ok, _ := Sbrk(n, deny);
        if ok {
          GrowOk(base, ptr, size, freep, was, n, g);
        }
      }
    }

    /** A store by the program into a block it holds. */
    method ExecStore(k: nat, a: int, v: int, ptrs: Memory, sizes: Memory, held: seq<int>)
      requires HeapOk(base, ptr, size, freep, brk, g) && Holds(held, g.live) && k < |held|
      modifies `ptr, `size
      ensures HeapOk(base, ptr, size, freep, brk, g)
      ensures CallStep(Call.Store(k, a, v, ptrs, sizes), old(Now()), Now())
      ensures MemoryStep(Call.Store(k, a, v, ptrs, sizes), old(Now()), Now())
    {
      HeaderIs(base, ptr, size, freep, brk, g, k);
      hide HeapOk;
      if held[k] <= a && a + 8 <= held[k] - 16 + 16 * Get(size, held[k] - 16) {
        StoreOk(base, ptr, size, freep, brk, g, k, a, Stored(ptr, a, ptrs)[a := v], Stored(size, a, sizes));
        ptr, size := Stored(ptr, a, ptrs)[a := v], Stored(size, a, sizes);
      }
    }

    /** One call of a program that holds the pointers `held`; those that name no block do nothing. */
    method Exec(c: Call, held: seq<int>) returns (ok: bool, held': seq<int>)
      requires HeapOk(base, ptr, size, freep, brk, g) && g.got <= given <= MEMORY && Holds(held, g.live)
      modifies this
      ensures ok <==> !Breaks(c, old(Now()))
      ensures if ok then HeapOk(base, ptr, size, freep, brk, g) && g.got <= given <= MEMORY && Holds(held', g.live)
              else !HeapOk(base, ptr, size, freep, brk, g)
      ensures ok ==> CallStep(c, old(Now()), Now()) && MemoryStep(c, old(Now()), Now())
    {
      hide HeapOk, Took, Units, Asked, Fits, Refused, Coalesce, Place, Refilled, AtLeast;
      ok, held' := true, held;
      match c
      case Malloc(nbytes, deny) => ok, held' := ExecMalloc(nbytes, deny, held);
      case Free(k) => if k < |held| { held' := ExecFree(k, held); }
      case Grow(n, lazily, deny) => ExecGrow(n, lazily, deny);
      case Store(k, a, v, ptrs, sizes) => if k < |held| { ExecStore(k, a, v, ptrs, sizes, held); }
    }

    /** Any sequence of calls, up to its end or the first that breaks the books, keeps the invariant, is that
        sequence of steps on plain lists of blocks, and leaves the contents of live blocks to the program. */
    method Run(calls: seq<Call>) returns (held: seq<int>, ghost trace: seq<World>)
      requires HeapOk(base, ptr, size, freep, brk, g) && g.got <= given <= MEMORY && g.live == []
      modifies this
      ensures 1 <= |trace| <= |calls| + 1 && trace[0] == old(Now()) && Ran(calls, trace)
      ensures |trace| == |calls| + 1 ==>
                HeapOk(base, ptr, size, freep, brk, g) && Holds(held, g.live) && trace[|calls|] == Now()
      ensures |trace| <= |calls| ==>
                Breaks(calls[|trace| - 1], trace[|trace| - 1]) && !HeapOk(base, ptr, size, freep, brk, g)
    {
      hide HeapOk, CallStep, MemoryStep, Breaks;
      held, trace := [], [Now()];
      for c := 0 to |calls|
        invariant HeapOk(base, ptr, size, freep, brk, g) && g.got <= given <= MEMORY && Holds(held, g.live)
        invariant |trace| == c + 1 && trace[0] == old(Now()) && trace[c] == Now() && Ran(calls, trace)
      {
        var ok;
        ok, held := Exec(calls[c], held);
        if !ok {
          return;
        }
        trace := trace + [Now()];
      }
    }
  }
}
