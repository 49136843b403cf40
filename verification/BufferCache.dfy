/** The buffer cache of kernel/bio.c: NBUF buffers on a doubly linked list kept in the order
    of their last release, over a disk whose single-block writes are recorded. */
module BufferCache {
  import opened Basics
  import opened Blocks
  import opened DiskLog

  const NBUF: nat := MAXOPBLOCKS * 3
  const HEAD: nat := NBUF  // the list head, bcache.head
  const ROOTDEV: nat := 1

  datatype Buf = Buf(valid: bool, dev: nat, blockno: nat, refcnt: nat, locked: bool, data: Block)

  // ----- the linked list -----

  /** The i-th node of the ring head, order[0], order[1], ..., head. */
  function Node(order: seq<nat>, i: nat): nat
    requires i <= |order| + 1
  {
    if i == 0 || i == |order| + 1 then HEAD else order[i - 1]
  }

  /** The buffers of the list, without repetition. */
  ghost predicate Arranged(order: seq<nat>) { Distinct(order) && forall i: nat :: i < |order| ==> order[i] < NBUF }

  ghost predicate Complete(order: seq<nat>) {
    forall b: nat :: b < NBUF ==> b in order
  }

  /** next and prev thread the ring in both directions. */
  ghost predicate Linked(next: seq<nat>, prev: seq<nat>, order: seq<nat>) {
    && |next| == NBUF + 1 && |prev| == NBUF + 1
    && Arranged(order)
    && (forall i: nat :: i <= |order| ==> next[Node(order, i)] == Node(order, i + 1))
    && (forall i: nat :: i <= |order| ==> prev[Node(order, i + 1)] == Node(order, i))
  }

  function Without(order: seq<nat>, p: nat): (r: seq<nat>)
    requires p < |order|
    ensures |r| == |order| - 1
    ensures forall i: nat :: i < |r| ==> r[i] == order[if i < p then i else i + 1]
  {
    order[..p] + order[p + 1..]
  }

  /** `b->next->prev = b->prev; b->prev->next = b->next` takes b off the ring. */
  lemma Unlink(next: seq<nat>, prev: seq<nat>, order: seq<nat>, p: nat)
    requires Linked(next, prev, order) && p < |order|
    ensures var b := order[p];
            next[b] <= NBUF && prev[b] <= NBUF &&
            Linked(next[prev[b] := next[b]], prev[next[b] := prev[b]], Without(order, p))
  {
    var b, o := order[p], Without(order, p);
    assert Node(order, p + 1) == b;
    assert next[b] == Node(order, p + 2) && prev[b] == Node(order, p);
    var n, q := next[prev[b] := next[b]], prev[next[b] := prev[b]];
    forall i: nat | i <= |o|
      ensures n[Node(o, i)] == Node(o, i + 1) && q[Node(o, i + 1)] == Node(o, i)
    {
      var j := if i <= p then i else i + 1;
      assert Node(o, i) == Node(order, j);
      assert Node(o, i + 1) == Node(order, if i < p then i + 1 else i + 2);
      if i != p {
        assert Node(order, j) != prev[b] && Node(order, j + 1) != next[b];
      }
    }
  }

  /** `b->next = head.next; b->prev = &head; head.next->prev = b; head.next = b` puts b in front. */
  lemma LinkFront(next: seq<nat>, prev: seq<nat>, order: seq<nat>, b: nat)
    requires Linked(next, prev, order) && b < NBUF && b !in order
    ensures next[HEAD] <= NBUF
    ensures Linked(next[b := next[HEAD]][HEAD := b], prev[b := HEAD][next[HEAD] := b], [b] + order)
  {
    assert next[HEAD] == Node(order, 1) by { assert Node(order, 0) == HEAD; }
    var o := [b] + order;
    var n, q := next[b := next[HEAD]][HEAD := b], prev[b := HEAD][next[HEAD] := b];
    forall i: nat | i <= |o|
      ensures n[Node(o, i)] == Node(o, i + 1) && q[Node(o, i + 1)] == Node(o, i)
    {
      if i >= 1 {
        assert i == 1 || Node(o, i) == Node(order, i - 1);
        assert Node(o, i + 1) == Node(order, i);
      }
    }
  }

  // ----- what the cache means -----

  ghost predicate Holds(x: Buf, dev: nat, bno: nat) { x.dev == dev && x.blockno == bno }

  /** Each block of a real device has at most one buffer. */
  ghost predicate Unique(buf: seq<Buf>) {
    forall i: nat, j: nat :: i < j < |buf| && buf[i].dev == buf[j].dev && buf[i].dev != 0 ==>
      buf[i].blockno != buf[j].blockno
  }

  /** The contents a reader of block b is owed: a valid buffer's data, else the disk's. */
  ghost function View(buf: seq<Buf>, disk: Disk, b: nat): Block
    requires b < |disk|
  {
    if exists i: nat :: i < |buf| && Holds(buf[i], ROOTDEV, b) && buf[i].valid
    then var i: nat :| i < |buf| && Holds(buf[i], ROOTDEV, b) && buf[i].valid; buf[i].data
    else disk[b]
  }

  lemma ViewIs(buf: seq<Buf>, disk: Disk, b: nat)
    requires Unique(buf) && b < |disk|
    ensures forall i: nat :: i < |buf| && Holds(buf[i], ROOTDEV, b) && buf[i].valid ==>
              View(buf, disk, b) == buf[i].data
    ensures (forall i: nat :: i < |buf| && Holds(buf[i], ROOTDEV, b) ==> !buf[i].valid) ==>
              View(buf, disk, b) == disk[b]
  {
  }

  /** Only a locked or pinned buffer may differ from the disk, and locks and pins are counted. */
  ghost predicate CleanBuf(x: Buf, disk: Disk, pinned: map<nat, nat>) {
    if x.dev == ROOTDEV then
      && x.blockno < |disk|
      && x.refcnt >= (if x.locked then 1 else 0) + (if x.blockno in pinned then 1 else 0)
      && (x.valid && !x.locked && x.blockno !in pinned ==> x.data == disk[x.blockno])
      && (x.locked || x.valid)
    else
      x.dev == 0 && !x.valid && !x.locked && x.refcnt == 0
  }

  ghost predicate Clean(buf: seq<Buf>, disk: Disk, pinned: map<nat, nat>) {
    && (forall i: nat :: i < |buf| ==> CleanBuf(buf[i], disk, pinned))
    && (forall b :: b in pinned ==>
        b < |disk| && pinned[b] < |buf| && Holds(buf[pinned[b]], ROOTDEV, b) && buf[pinned[b]].valid)
  }

  ghost predicate SameView(buf: seq<Buf>, disk: Disk, buf': seq<Buf>, disk': Disk) {
    |disk| == |disk'| && forall b: nat :: b < |disk| ==> View(buf', disk', b) == View(buf, disk, b)
  }

  /** A buffer whose identity, validity and data stay put leaves every reader's contents alone. */
  lemma TouchKeeps(buf: seq<Buf>, disk: Disk, r: nat, x: Buf)
    requires Unique(buf) && r < |buf|
    requires x.dev == buf[r].dev && x.blockno == buf[r].blockno && x.valid == buf[r].valid && x.data == buf[r].data
    ensures Unique(buf[r := x]) && SameView(buf, disk, buf[r := x], disk)
  {
    var buf' := buf[r := x];
    forall b: nat | b < |disk|
      ensures View(buf', disk, b) == View(buf, disk, b)
    {
      ViewIs(buf, disk, b);
      ViewIs(buf', disk, b);
      assert forall i: nat :: i < |buf| ==> (Holds(buf'[i], ROOTDEV, b) <==> Holds(buf[i], ROOTDEV, b));
    }
  }

  /** Recycling an unreferenced buffer changes no reader's contents: what it drops is on the disk. */
  lemma RecycleKeeps(buf: seq<Buf>, disk: Disk, pinned: map<nat, nat>, r: nat, x: Buf)
    requires Unique(buf) && Clean(buf, disk, pinned) && r < |buf| && buf[r].refcnt == 0
    requires x.dev == ROOTDEV && x.blockno < |disk| && x.locked && x.refcnt == 1
    requires forall i: nat :: i < |buf| ==> !Holds(buf[i], ROOTDEV, x.blockno)
    requires !x.valid || x.data == disk[x.blockno]
    ensures Unique(buf[r := x]) && Clean(buf[r := x], disk, pinned) && SameView(buf, disk, buf[r := x], disk)
  {
    var buf' := buf[r := x];
    assert forall i: nat :: i < |buf| && i != r ==> buf'[i] == buf[i];
    assert CleanBuf(buf[r], disk, pinned);
    forall b: nat | b < |disk|
      ensures View(buf', disk, b) == View(buf, disk, b)
    {
      ViewIs(buf, disk, b);
      ViewIs(buf', disk, b);
    }
  }

  lemma CleanUpdate(buf: seq<Buf>, disk: Disk, pinned: map<nat, nat>, r: nat, x: Buf)
    requires Clean(buf, disk, pinned) && r < |buf|
    requires CleanBuf(x, disk, pinned)
    requires x.dev == buf[r].dev && x.blockno == buf[r].blockno && (buf[r].valid ==> x.valid)
    ensures Clean(buf[r := x], disk, pinned)
  {
  }

  /** How many buffers are unreferenced, so that bget may recycle them. */
  ghost function Idle(buf: seq<Buf>): nat {
    if buf == [] then 0 else Idle(buf[..|buf| - 1]) + (if buf[|buf| - 1].refcnt == 0 then 1 else 0)
  }

  lemma {:induction false} IdleUpdate(buf: seq<Buf>, r: nat, x: Buf)
    requires r < |buf|
    ensures Idle(buf[r := x]) == Idle(buf) - (if buf[r].refcnt == 0 then 1 else 0) + (if x.refcnt == 0 then 1 else 0)
  {
    var m := |buf| - 1;
    if r < m {
      IdleUpdate(buf[..m], r, x);
      assert buf[r := x][..m] == buf[..m][r := x];
    } else {
      assert buf[r := x][..m] == buf[..m];
    }
  }

  lemma {:induction false} IdleSome(buf: seq<Buf>)
    ensures Idle(buf) > 0 <==> exists i: nat :: i < |buf| && buf[i].refcnt == 0
  {
    if buf != [] {
      IdleSome(buf[..|buf| - 1]);
      assert forall i: nat :: i < |buf| - 1 ==> buf[..|buf| - 1][i] == buf[i];
    }
  }

  /** All references to buffers. */
  ghost function Refs(buf: seq<Buf>): nat { if buf == [] then 0 else Refs(buf[..|buf| - 1]) + buf[|buf| - 1].refcnt }

  lemma {:induction false} RefsUpdate(buf: seq<Buf>, r: nat, x: Buf)
    requires r < |buf|
    ensures Refs(buf[r := x]) == Refs(buf) - buf[r].refcnt + x.refcnt
  {
    var m := |buf| - 1;
    if r < m {
      RefsUpdate(buf[..m], r, x);
      assert buf[r := x][..m] == buf[..m][r := x];
    } else {
      assert buf[r := x][..m] == buf[..m];
    }
  }

  lemma {:induction false} AllIdle(buf: seq<Buf>)
    requires forall i: nat :: i < |buf| ==> buf[i].refcnt == 0
    ensures Idle(buf) == |buf| && Refs(buf) == 0
  {
    if buf != [] {
      AllIdle(buf[..|buf| - 1]);
    }
  }

  lemma ReadIn(buf: seq<Buf>, disk: Disk, pinned: map<nat, nat>, r: nat)
    requires Unique(buf) && Clean(buf, disk, pinned)
    requires r < |buf| && buf[r].dev == ROOTDEV && buf[r].locked && !buf[r].valid
    ensures buf[r].blockno < |disk|
    ensures var buf' := buf[r := buf[r].(data := disk[buf[r].blockno], valid := true)];
            Unique(buf') && Clean(buf', disk, pinned) && SameView(buf, disk, buf', disk)
  {
    assert CleanBuf(buf[r], disk, pinned);
    var x := buf[r].(data := disk[buf[r].blockno], valid := true);
    var buf' := buf[r := x];
    CleanUpdate(buf, disk, pinned, r, x);
    forall b: nat | b < |disk|
      ensures View(buf', disk, b) == View(buf, disk, b)
    {
      ViewIs(buf, disk, b);
      ViewIs(buf', disk, b);
      assert forall i: nat :: i < |buf| ==> (Holds(buf'[i], ROOTDEV, b) <==> Holds(buf[i], ROOTDEV, b));
    }
  }

  lemma StoreIn(buf: seq<Buf>, disk: Disk, pinned: map<nat, nat>, r: nat, data: Block)
    requires Unique(buf) && Clean(buf, disk, pinned)
    requires r < |buf| && buf[r].dev == ROOTDEV && buf[r].locked && buf[r].valid
    ensures var buf' := buf[r := buf[r].(data := data)];
            && Unique(buf') && Clean(buf', disk, pinned)
            && forall b: nat :: b < |disk| ==>
                 View(buf', disk, b) == if b == buf[r].blockno then data else View(buf, disk, b)
  {
    assert CleanBuf(buf[r], disk, pinned);
    var x := buf[r].(data := data);
    var buf' := buf[r := x];
    CleanUpdate(buf, disk, pinned, r, x);
    forall b: nat | b < |disk|
      ensures View(buf', disk, b) == if b == buf[r].blockno then data else View(buf, disk, b)
    {
      ViewIs(buf, disk, b);
      ViewIs(buf', disk, b);
      assert forall i: nat :: i < |buf| ==> (Holds(buf'[i], ROOTDEV, b) <==> Holds(buf[i], ROOTDEV, b));
      assert Holds(buf'[r], ROOTDEV, buf[r].blockno);
    }
  }

  lemma PinKeeps(buf: seq<Buf>, disk: Disk, pinned: map<nat, nat>, r: nat)
    requires Unique(buf) && Clean(buf, disk, pinned)
    requires r < |buf| && buf[r].dev == ROOTDEV && buf[r].valid && buf[r].blockno !in pinned
    ensures Clean(buf[r := buf[r].(refcnt := buf[r].refcnt + 1)], disk, pinned[buf[r].blockno := r])
  {
  }

  lemma UnpinKeeps(buf: seq<Buf>, disk: Disk, pinned: map<nat, nat>, r: nat)
    requires Unique(buf) && Clean(buf, disk, pinned)
    requires r < |buf| && buf[r].dev == ROOTDEV && buf[r].blockno in pinned
    ensures buf[r].refcnt >= 1 && buf[r].valid && buf[r].blockno < |disk|
    ensures Clean(buf[r := buf[r].(refcnt := buf[r].refcnt - 1)], disk, pinned - {buf[r].blockno})
            <==> buf[r].locked || buf[r].data == disk[buf[r].blockno]
  {
    assert CleanBuf(buf[r], disk, pinned);
    var x, pinned' := buf[r].(refcnt := buf[r].refcnt - 1), pinned - {buf[r].blockno};
    assert CleanBuf(x, disk, pinned') <==> buf[r].locked || buf[r].data == disk[buf[r].blockno];
    assert buf[r := x][r] == x;
  }

  /** The cache and the disk together hold exactly the contents of the block store. */
  ghost predicate Backs(buf: seq<Buf>, disk: Disk, store: Disk) {
    |store| == |disk| && forall b: nat :: b < |disk| ==> View(buf, disk, b) == store[b]
  }

  /** Every locked buffer is of a held block. */
  ghost predicate LocksAre(buf: seq<Buf>, held: set<nat>) {
    forall i: nat :: i < |buf| && buf[i].locked ==> buf[i].dev == ROOTDEV && buf[i].blockno in held
  }

  /** The list order is the order of last release, most recent first. */
  ghost predicate Recency(order: seq<nat>, stamp: seq<nat>, now: nat) {
    && |stamp| == NBUF
    && Arranged(order)
    && (forall i: nat, j: nat :: i < j < |order| ==> stamp[order[i]] > stamp[order[j]])
    && (forall b: nat :: b < NBUF ==> stamp[b] < now)
  }

  function MoveFront(order: seq<nat>, p: nat): (o: seq<nat>)
    requires p < |order|
    ensures |o| == |order| && o[0] == order[p]
    ensures forall i: nat :: 1 <= i < |o| ==> o[i] == order[if i - 1 < p then i - 1 else i]
  {
    [order[p]] + Without(order, p)
  }

  lemma FrontKeepsAll(order: seq<nat>, p: nat, b: nat)
    requires p < |order| && b in order
    ensures b in MoveFront(order, p)
  {
  }

  lemma FrontIsRecent(order: seq<nat>, stamp: seq<nat>, now: nat, p: nat)
    requires Recency(order, stamp, now) && p < |order| == NBUF
    ensures Recency(MoveFront(order, p), stamp[order[p] := now], now + 1)
  {
  }

  /** Ghost state of the list: the ring from head.next on and when each buffer went to the front. */
  datatype Ring = Ring(order: seq<nat>, stamp: seq<nat>, now: nat)

  lemma FrontRing(ring: Ring, b: nat) returns (p: nat)
    requires |ring.order| == NBUF && Complete(ring.order) && Recency(ring.order, ring.stamp, ring.now) && b < NBUF
    ensures p < NBUF && ring.order[p] == b
    ensures Complete(MoveFront(ring.order, p))
    ensures Recency(MoveFront(ring.order, p), ring.stamp[b := ring.now], ring.now + 1)
  {
    assert b in ring.order;
    p :| p < |ring.order| && ring.order[p] == b;
    FrontIsRecent(ring.order, ring.stamp, ring.now, p);
    forall x: nat | x < NBUF
      ensures x in MoveFront(ring.order, p)
    {
      FrontKeepsAll(ring.order, p, x);
    }
  }

  /** What the cache stands for: the contents readers are owed, the blocks locked and the blocks
      pinned (with the buffer that pins them), and every disk write so far. */
  datatype Abs = Abs(store: Disk, held: set<nat>, pinned: map<nat, nat>, writes: seq<Write>)

  ghost predicate RingOk(next: seq<nat>, prev: seq<nat>, ring: Ring) {
    && |ring.order| == NBUF && Linked(next, prev, ring.order)
    && Complete(ring.order) && Recency(ring.order, ring.stamp, ring.now)
  }

  ghost predicate BufsOk(buf: seq<Buf>, disk: Disk, abs: Abs) {
    && |buf| == NBUF && |abs.store| == |disk|
    && Unique(buf) && Clean(buf, disk, abs.pinned) && LocksAre(buf, abs.held) && Backs(buf, disk, abs.store)
  }

  ghost predicate Cached(buf: seq<Buf>, b: nat) {
    exists i: nat :: i < |buf| && Holds(buf[i], ROOTDEV, b)
  }

  /** Some process holds the block's buffer locked. */
  ghost predicate Locked(buf: seq<Buf>, b: nat) {
    exists i: nat :: i < |buf| && Holds(buf[i], ROOTDEV, b) && buf[i].locked
  }

  lemma NotLocked(buf: seq<Buf>, disk: Disk, abs: Abs, b: nat)
    requires BufsOk(buf, disk, abs) && b !in abs.held
    ensures !Locked(buf, b)
  {
  }

  ghost predicate Holding(buf: seq<Buf>, i: nat, b: nat) {
    i < |buf| && Holds(buf[i], ROOTDEV, b) && buf[i].locked && buf[i].valid
  }

  lemma PinnedCached(buf: seq<Buf>, disk: Disk, abs: Abs, b: nat)
    requires BufsOk(buf, disk, abs) && b in abs.pinned
    ensures Cached(buf, b)
  {
  }

  lemma HoldingFacts(buf: seq<Buf>, disk: Disk, abs: Abs, r: nat, b: nat)
    requires BufsOk(buf, disk, abs) && Holding(buf, r, b)
    ensures b < |disk| == |abs.store| && b in abs.held && buf[r].data == abs.store[b]
    ensures buf[r].refcnt >= if b in abs.pinned then 2 else 1
  {
  }

  /** A block nobody holds locked or pinned is the same in the block store and on the disk. */
  lemma CleanBlock(buf: seq<Buf>, disk: Disk, abs: Abs, b: nat)
    requires BufsOk(buf, disk, abs) && b < |disk| && b !in abs.pinned && b !in abs.held
    ensures abs.store[b] == disk[b]
  {
  }

  lemma HitOk(buf: seq<Buf>, disk: Disk, abs: Abs, r: nat, bno: nat)
    requires BufsOk(buf, disk, abs) && r < |buf| && Holds(buf[r], ROOTDEV, bno) && !buf[r].locked
    ensures BufsOk(buf[r := buf[r].(refcnt := buf[r].refcnt + 1, locked := true)], disk, abs.(held := abs.held + {bno}))
    ensures buf[r].valid && !Locked(buf, bno)
  {
    var x := buf[r].(refcnt := buf[r].refcnt + 1, locked := true);
    assert CleanBuf(buf[r], disk, abs.pinned);
    TouchKeeps(buf, disk, r, x);
    CleanUpdate(buf, disk, abs.pinned, r, x);
  }

  /** One more reference, to a buffer somebody may hold. */
  lemma RefOk(buf: seq<Buf>, disk: Disk, abs: Abs, r: nat)
    requires BufsOk(buf, disk, abs) && r < |buf| && buf[r].dev == ROOTDEV
    ensures BufsOk(buf[r := buf[r].(refcnt := buf[r].refcnt + 1)], disk, abs)
  {
    var x := buf[r].(refcnt := buf[r].refcnt + 1);
    assert CleanBuf(buf[r], disk, abs.pinned);
    TouchKeeps(buf, disk, r, x);
    CleanUpdate(buf, disk, abs.pinned, r, x);
  }

  lemma LockOk(buf: seq<Buf>, disk: Disk, abs: Abs, r: nat)
    requires BufsOk(buf, disk, abs) && r < |buf| && buf[r].dev == ROOTDEV && !buf[r].locked
    requires buf[r].refcnt >= if buf[r].blockno in abs.pinned then 2 else 1
    ensures buf[r].valid && BufsOk(buf[r := buf[r].(locked := true)], disk, abs.(held := abs.held + {buf[r].blockno}))
  {
    var x := buf[r].(locked := true);
    assert CleanBuf(buf[r], disk, abs.pinned);
    TouchKeeps(buf, disk, r, x);
    CleanUpdate(buf, disk, abs.pinned, r, x);
  }

  lemma RecycleOk(buf: seq<Buf>, disk: Disk, abs: Abs, r: nat, x: Buf)
    requires BufsOk(buf, disk, abs) && r < |buf| && buf[r].refcnt == 0
    requires x.dev == ROOTDEV && x.blockno < |disk| && x.locked && x.refcnt == 1 && !x.valid
    requires forall i: nat :: i < |buf| ==> !Holds(buf[i], ROOTDEV, x.blockno)
    ensures BufsOk(buf[r := x], disk, abs.(held := abs.held + {x.blockno}))
    ensures !buf[r].locked && x.blockno !in abs.pinned
  {
    assert CleanBuf(buf[r], disk, abs.pinned);
    RecycleKeeps(buf, disk, abs.pinned, r, x);
  }

  lemma ReadOk(buf: seq<Buf>, disk: Disk, abs: Abs, r: nat)
    requires BufsOk(buf, disk, abs)
    requires r < |buf| && buf[r].dev == ROOTDEV && buf[r].locked && !buf[r].valid
    ensures buf[r].blockno < |disk|
    ensures BufsOk(buf[r := buf[r].(data := disk[buf[r].blockno], valid := true)], disk, abs)
  {
    ReadIn(buf, disk, abs.pinned, r);
  }

  lemma StoreOk(buf: seq<Buf>, disk: Disk, abs: Abs, r: nat, b: nat, data: Block)
    requires BufsOk(buf, disk, abs) && Holding(buf, r, b)
    ensures b < |disk|
    ensures BufsOk(buf[r := buf[r].(data := data)], disk, abs.(store := abs.store[b := data]))
  {
    assert CleanBuf(buf[r], disk, abs.pinned);
    StoreIn(buf, disk, abs.pinned, r, data);
  }

  lemma WriteOk(buf: seq<Buf>, disk: Disk, abs: Abs, r: nat, b: nat, ws: seq<Write>)
    requires BufsOk(buf, disk, abs) && Holding(buf, r, b)
    ensures b < |disk|
    ensures BufsOk(buf, disk[b := buf[r].data], abs.(writes := ws))
  {
  }

  /** Releasing a buffer keeps the cache sound exactly when its contents are pinned or on the disk. */
  lemma ReleaseOk(buf: seq<Buf>, disk: Disk, abs: Abs, r: nat, b: nat)
    requires BufsOk(buf, disk, abs) && Holding(buf, r, b)
    ensures buf[r].refcnt >= 1 && b < |disk| == |abs.store| && |buf| == NBUF
    ensures var released := buf[r := buf[r].(locked := false, refcnt := buf[r].refcnt - 1)];
            BufsOk(released, disk, abs.(held := abs.held - {b})) <==> b in abs.pinned || abs.store[b] == disk[b]
  {
    HoldingFacts(buf, disk, abs, r, b);
    assert CleanBuf(buf[r], disk, abs.pinned);
    var x := buf[r].(locked := false, refcnt := buf[r].refcnt - 1);
    assert CleanBuf(x, disk, abs.pinned) <==> b in abs.pinned || abs.store[b] == disk[b];
    if b in abs.pinned || abs.store[b] == disk[b] {
      TouchKeeps(buf, disk, r, x);
      CleanUpdate(buf, disk, abs.pinned, r, x);
    } else {
      assert buf[r := x][r] == x;
    }
  }

  lemma PinOk(buf: seq<Buf>, disk: Disk, abs: Abs, r: nat, b: nat)
    requires BufsOk(buf, disk, abs) && r < |buf| && Holds(buf[r], ROOTDEV, b) && buf[r].valid && b !in abs.pinned
    ensures BufsOk(buf[r := buf[r].(refcnt := buf[r].refcnt + 1)], disk, abs.(pinned := abs.pinned[b := r]))
  {
    TouchKeeps(buf, disk, r, buf[r].(refcnt := buf[r].refcnt + 1));
    PinKeeps(buf, disk, abs.pinned, r);
  }

  /** Dropping a pin keeps the cache sound exactly when somebody holds the buffer or its contents are on the
      disk. */
  lemma UnpinOk(buf: seq<Buf>, disk: Disk, abs: Abs, r: nat, b: nat)
    requires BufsOk(buf, disk, abs) && r < |buf| && Holds(buf[r], ROOTDEV, b) && b in abs.pinned
    ensures buf[r].refcnt >= 1 && b < |disk|
    ensures BufsOk(buf[r := buf[r].(refcnt := buf[r].refcnt - 1)], disk, abs.(pinned := abs.pinned - {b})) <==>
        buf[r].locked || buf[r].data == disk[b]
  {
    UnpinKeeps(buf, disk, abs.pinned, r);
    TouchKeeps(buf, disk, r, buf[r].(refcnt := buf[r].refcnt - 1));
  }

  class Cache {
    var buf: seq<Buf>
    var next: seq<nat>
    var prev: seq<nat>
    var disk: Disk
    ghost var ring: Ring
    ghost var abs: Abs

    /** binit: link the zeroed buffers in. */
    constructor (d: Disk)
      ensures RingOk(next, prev, ring) && BufsOk(buf, disk, abs)
      ensures disk == d && abs == Abs(d, {}, map[], [])
      ensures |buf| == NBUF && forall i: nat :: i < NBUF ==> buf[i].refcnt == 0 && buf[i].dev == 0
      ensures Idle(buf) == NBUF && Refs(buf) == 0
    {
      buf := seq(NBUF, _ => Buf(false, 0, 0, 0, false, Zero()));
      disk := d;
      abs := Abs(d, {}, map[], []);
      var n: seq<nat> := seq(NBUF + 1, _ => HEAD);
      var p: seq<nat> := n;
      ghost var o: seq<nat> := [];
      var b := 0;
      while b < NBUF
        invariant b <= NBUF && |o| == b
        invariant Linked(n, p, o)
        invariant forall i: nat :: i < b ==> o[i] == b - 1 - i
      {
        LinkFront(n, p, o, b);
        var first := n[HEAD];
        n, p := n[b := first][HEAD := b], p[b := HEAD][first := b];
        o := [b] + o;
        b := b + 1;
      }
      next, prev, ring := n, p, Ring(o, seq(NBUF, i => i), NBUF);
      new;
      forall x: nat | x < NBUF
        ensures x in o
      {
        assert o[NBUF - 1 - x] == x;
      }
      forall b: nat | b < |d|
        ensures View(buf, disk, b) == d[b]
      {
        ViewIs(buf, disk, b);
      }
      AllIdle(buf);
    }

    /** The first loop of bget: from the most recent end, the buffer holding (dev, bno). */
    method Scan(dev: nat, bno: nat) returns (b: nat)
      requires RingOk(next, prev, ring) && |buf| == NBUF
      ensures b < NBUF ==> Holds(buf[b], dev, bno)
      ensures b >= NBUF ==> forall i: nat :: i < NBUF ==> !Holds(buf[i], dev, bno)
      ensures b <= HEAD
    {
      ghost var order := ring.order;
      b := next[HEAD];
      ghost var k := 1;
      assert Node(order, 0) == HEAD;
      while b != HEAD
        invariant 1 <= k <= NBUF + 1 && b == Node(order, k)
        invariant forall j: nat :: j < k - 1 ==> !Holds(buf[order[j]], dev, bno)
        decreases NBUF + 1 - k
      {
        if buf[b].dev == dev && buf[b].blockno == bno {
          return;
        }
        b := next[b];
        k := k + 1;
      }
      forall i: nat | i < NBUF
        ensures !Holds(buf[i], dev, bno)
      {
        assert i in order;
      }
    }

    /** The second loop of bget: from the least recent end, the first unreferenced buffer, which is
        the one released longest ago. */
    method ScanLru() returns (b: nat)
      requires RingOk(next, prev, ring) && |buf| == NBUF && Idle(buf) > 0
      ensures b < NBUF && buf[b].refcnt == 0
      ensures forall i: nat :: i < NBUF && buf[i].refcnt == 0 ==> ring.stamp[b] <= ring.stamp[i]
    {
      ghost var order := ring.order;
      IdleSome(buf);
      b := prev[HEAD];
      ghost var k := NBUF;
      ghost var w: nat :| w < |buf| && buf[w].refcnt == 0;
      assert w in order;
      ghost var pos: nat :| pos < NBUF && order[pos] == w;
      assert Node(order, NBUF + 1) == HEAD;
      while buf[b].refcnt != 0
        invariant pos < k <= NBUF && b == Node(order, k)
        invariant forall j: nat :: k <= j < NBUF ==> buf[order[j]].refcnt != 0
        decreases k
      {
        b := prev[b];
        k := k - 1;
      }
      forall i: nat | i < NBUF && buf[i].refcnt == 0
        ensures ring.stamp[b] <= ring.stamp[i]
      {
        assert i in order;
      }
    }

    /** bget: the buffer of (dev, bno), recycling the least recently released unreferenced one if
        there is none.  The buffer comes back locked, unless somebody holds it: then the caller has a
        reference and waits.  The block store does not change. */
    method Bget(dev: nat, bno: nat) returns (b: nat, waits: bool)
      requires RingOk(next, prev, ring) && BufsOk(buf, disk, abs)
      requires dev == ROOTDEV && bno < |disk| && (Cached(buf, bno) || Idle(buf) > 0)
      modifies this`buf, this`abs
      ensures BufsOk(buf, disk, abs) && b < NBUF && (waits <==> Locked(old(buf), bno))
      ensures (waits ==> Cached(old(buf), bno))
      ensures abs == if waits then old(abs) else old(abs).(held := old(abs).held + {bno})
      ensures if Cached(old(buf), bno)
              then Holds(old(buf)[b], ROOTDEV, bno) && (waits <==> old(buf)[b].locked) && (!waits ==> old(buf)[b].valid)
                   && buf == old(buf)[b := old(buf)[b].(refcnt := old(buf)[b].refcnt + 1, locked := true)]
              else && old(buf)[b].refcnt == 0 && bno !in abs.pinned && !old(buf)[b].locked
                   && (forall i: nat :: i < NBUF && old(buf)[i].refcnt == 0 ==> ring.stamp[b] <= ring.stamp[i])
                   && buf == old(buf)[b := Buf(false, ROOTDEV, bno, 1, true, old(buf)[b].data)]
    {
      hide RingOk, Idle, Unique, Clean, LocksAre, Backs;
      b := Scan(dev, bno);
      waits := b != HEAD && buf[b].locked;
      if waits {
        RefOk(buf, disk, abs, b);
        buf := buf[b := buf[b].(refcnt := buf[b].refcnt + 1)];
        return;
      }
      if b != HEAD {
        HitOk(buf, disk, abs, b, bno);
        buf := buf[b := buf[b].(refcnt := buf[b].refcnt + 1, locked := true)];
      } else {
        b := ScanLru();
        RecycleOk(buf, disk, abs, b, Buf(false, dev, bno, 1, true, buf[b].data));
        buf := buf[b := Buf(false, dev, bno, 1, true, buf[b].data)];
      }
      abs := abs.(held := abs.held + {bno});
    }

    /** bread: a locked buffer with the contents the block store holds for bno, or a wait for its holder. */
    method Bread(dev: nat, bno: nat) returns (b: nat, waits: bool)
      requires RingOk(next, prev, ring) && BufsOk(buf, disk, abs)
      requires dev == ROOTDEV && bno < |disk| && (Cached(buf, bno) || Idle(buf) > 0)
      modifies this`buf, this`abs
      ensures BufsOk(buf, disk, abs) && b < |buf| == |old(buf)| && buf == old(buf)[b := buf[b]]
      ensures (waits <==> Locked(old(buf), bno))
      ensures buf[b].refcnt == old(buf)[b].refcnt + 1 && (old(buf)[b].refcnt == 0 || old(buf)[b].blockno == bno)
      ensures waits ==>
                abs == old(abs) && Holds(buf[b], ROOTDEV, bno) && buf[b] == old(buf)[b].(refcnt := buf[b].refcnt)
      ensures !waits ==> abs == old(abs).(held := old(abs).held + {bno}) && !old(buf)[b].locked
      ensures !waits ==> Holding(buf, b, bno) && bno < |abs.store| && buf[b].data == abs.store[bno]
      ensures Idle(buf) == Idle(old(buf)) - (if buf[b].refcnt == 1 then 1 else 0) && Refs(buf) == Refs(old(buf)) + 1
      ensures !waits && bno in abs.pinned ==> buf[b].refcnt >= 2
    {
      hide RingOk, Idle, Refs, Cached, Locked;
      b, waits := Bget(dev, bno);
      IdleUpdate(old(buf), b, buf[b]);
      RefsUpdate(old(buf), b, buf[b]);
      if waits {
        return;
      }
      if !buf[b].valid {
        ReadOk(buf, disk, abs, b);
        IdleUpdate(buf, b, buf[b].(data := disk[bno], valid := true));
        RefsUpdate(buf, b, buf[b].(data := disk[bno], valid := true));
        buf := buf[b := buf[b].(data := disk[bno], valid := true)];
      }
      HoldingFacts(buf, disk, abs, b, bno);
    }

    /** The end of a wait in bget: the holder has let go, and the waiter, with its reference, gets the lock. */
    method Resume(b: nat)
      requires BufsOk(buf, disk, abs) && b < |buf| && buf[b].dev == ROOTDEV && !buf[b].locked
      requires buf[b].refcnt >= if buf[b].blockno in abs.pinned then 2 else 1
      modifies this`buf, this`abs
      ensures BufsOk(buf, disk, abs) && b < |buf| == |old(buf)| && buf == old(buf)[b := old(buf)[b].(locked := true)]
      ensures abs == old(abs).(held := old(abs).held + {buf[b].blockno})
      ensures Holding(buf, b, buf[b].blockno) && buf[b].blockno < |abs.store|
      ensures buf[b].data == abs.store[buf[b].blockno]
    {
      LockOk(buf, disk, abs, b);
      abs := abs.(held := abs.held + {buf[b].blockno});
      buf := buf[b := buf[b].(locked := true)];
      HoldingFacts(buf, disk, abs, b, buf[b].blockno);
    }

    /** The holder of a locked buffer stores new contents into it. */
    method SetData(b: nat, data: Block)
      requires BufsOk(buf, disk, abs) && b < |buf| && Holding(buf, b, buf[b].blockno)
      modifies this`buf, this`abs
      ensures BufsOk(buf, disk, abs) && b < |buf| == |old(buf)|
      ensures buf == old(buf)[b := old(buf)[b].(data := data)]
      ensures buf[b].blockno < |abs.store| == |old(abs).store|
      ensures abs == old(abs).(store := old(abs).store[buf[b].blockno := data])
      ensures Idle(buf) == Idle(old(buf)) && Refs(buf) == Refs(old(buf))
    {
      hide Idle, Refs, BufsOk;
      HoldingFacts(buf, disk, abs, b, buf[b].blockno);
      StoreOk(buf, disk, abs, b, buf[b].blockno, data);
      IdleUpdate(buf, b, buf[b].(data := data));
      RefsUpdate(buf, b, buf[b].(data := data));
      abs := abs.(store := abs.store[buf[b].blockno := data]);
      buf := buf[b := buf[b].(data := data)];
    }

    /** bwrite: one atomic block write of the buffer's contents. */
    method Bwrite(b: nat)
      requires BufsOk(buf, disk, abs) && b < |buf| && Holding(buf, b, buf[b].blockno)
      modifies this`disk, this`abs
      ensures BufsOk(buf, disk, abs)
      ensures buf[b].blockno < |disk| == |old(disk)| && disk[buf[b].blockno] == buf[b].data
      ensures var w := Write(buf[b].blockno, buf[b].data);
              disk == Put(old(disk), w) && abs == old(abs).(writes := old(abs).writes + [w])
    {
      ghost var ws := abs.writes + [Write(buf[b].blockno, buf[b].data)];
      WriteOk(buf, disk, abs, b, buf[b].blockno, ws);
      disk := disk[buf[b].blockno := buf[b].data];
      abs := abs.(writes := ws);
    }

    /** brelse: unlock; on the last reference the buffer becomes the most recently released one.  The cache
        still holds the block store exactly when the contents are pinned or on the disk. */
    method Brelse(b: nat)
      requires RingOk(next, prev, ring) && BufsOk(buf, disk, abs) && b < |buf| && Holding(buf, b, buf[b].blockno)
      modifies this`buf, this`abs, this`next, this`prev, this`ring
      ensures RingOk(next, prev, ring) && b < |buf| == |old(buf)| && buf[b].blockno < |disk| && |disk| == |abs.store|
      ensures BufsOk(buf, disk, abs) <==>
          buf[b].blockno in abs.pinned || abs.store[buf[b].blockno] == disk[buf[b].blockno]
      ensures abs == old(abs).(held := old(abs).held - {buf[b].blockno})
      ensures buf == old(buf)[b := old(buf)[b].(locked := false, refcnt := buf[b].refcnt)]
      ensures buf[b].refcnt == old(buf)[b].refcnt - 1
      ensures Idle(buf) == Idle(old(buf)) + (if buf[b].refcnt == 0 then 1 else 0) && Refs(buf) == Refs(old(buf)) - 1
      ensures if buf[b].refcnt != 0 then ring == old(ring)
              else ring.stamp == old(ring).stamp[b := old(ring).now] && ring.now == old(ring).now + 1
    {
      hide RingOk, Idle, Refs, BufsOk;
      ReleaseOk(buf, disk, abs, b, buf[b].blockno);
      IdleUpdate(buf, b, buf[b].(locked := false, refcnt := buf[b].refcnt - 1));
      RefsUpdate(buf, b, buf[b].(locked := false, refcnt := buf[b].refcnt - 1));
      abs := abs.(held := abs.held - {buf[b].blockno});
      buf := buf[b := buf[b].(locked := false, refcnt := buf[b].refcnt - 1)];
      if buf[b].refcnt == 0 {
        Front(b);
      }
    }

    /** The relinking half of brelse. */
    method Front(b: nat)
      requires RingOk(next, prev, ring) && b < NBUF
      modifies this`next, this`prev, this`ring
      ensures RingOk(next, prev, ring) && |old(ring).stamp| == NBUF
      ensures ring.stamp == old(ring).stamp[b := old(ring).now] && ring.now == old(ring).now + 1
    {
      ghost var p := FrontRing(ring, b);
      ghost var o := Without(ring.order, p);
      Unlink(next, prev, ring.order, p);
      var nx, pv := next[b], prev[b];
      prev := prev[nx := pv];
      next := next[pv := nx];
      LinkFront(next, prev, o, b);
      var first := next[HEAD];
      next := next[b := first];
      prev := prev[b := HEAD];
      prev := prev[first := b];
      next := next[HEAD := b];
      ring := Ring(MoveFront(ring.order, p), ring.stamp[b := ring.now], ring.now + 1);
    }

    /** bpin: one more reference; the block is pinned, if it was not yet. */
    method Bpin(b: nat)
      requires BufsOk(buf, disk, abs) && b < |buf| && buf[b].dev == ROOTDEV && buf[b].valid
      modifies this`buf, this`abs
      ensures BufsOk(buf, disk, abs) && b < |buf| == |old(buf)|
      ensures abs == old(abs).(pinned := if buf[b].blockno in old(abs).pinned then old(abs).pinned
          else old(abs).pinned[buf[b].blockno := b])
      ensures buf == old(buf)[b := old(buf)[b].(refcnt := old(buf)[b].refcnt + 1)]
      ensures Idle(buf) == Idle(old(buf)) - (if buf[b].refcnt == 1 then 1 else 0) && Refs(buf) == Refs(old(buf)) + 1
    {
      hide Idle, Refs, BufsOk;
      if buf[b].blockno in abs.pinned {
        RefOk(buf, disk, abs, b);
      } else {
        PinOk(buf, disk, abs, b, buf[b].blockno);
        abs := abs.(pinned := abs.pinned[buf[b].blockno := b]);
      }
      IdleUpdate(buf, b, buf[b].(refcnt := buf[b].refcnt + 1));
      RefsUpdate(buf, b, buf[b].(refcnt := buf[b].refcnt + 1));
      buf := buf[b := buf[b].(refcnt := buf[b].refcnt + 1)];
    }

    /** bunpin of a pinned block: the cache still holds the block store exactly when somebody holds the
        buffer or the contents are on the disk. */
    method Bunpin(b: nat)
      requires BufsOk(buf, disk, abs) && b < |buf| && buf[b].dev == ROOTDEV && buf[b].blockno in abs.pinned
      modifies this`buf, this`abs
      ensures b < |buf| == |old(buf)| && buf[b].blockno < |disk|
      ensures BufsOk(buf, disk, abs) <==> buf[b].locked || buf[b].data == disk[buf[b].blockno]
      ensures abs == old(abs).(pinned := old(abs).pinned - {buf[b].blockno})
      ensures old(buf)[b].refcnt >= 1 && buf == old(buf)[b := old(buf)[b].(refcnt := old(buf)[b].refcnt - 1)]
      ensures Idle(buf) == Idle(old(buf)) + (if buf[b].refcnt == 0 then 1 else 0) && Refs(buf) == Refs(old(buf)) - 1
    {
      hide Idle, Refs, BufsOk;
      UnpinOk(buf, disk, abs, b, buf[b].blockno);
      IdleUpdate(buf, b, buf[b].(refcnt := buf[b].refcnt - 1));
      RefsUpdate(buf, b, buf[b].(refcnt := buf[b].refcnt - 1));
      abs := abs.(pinned := abs.pinned - {buf[b].blockno});
      buf := buf[b := buf[b].(refcnt := buf[b].refcnt - 1)];
    }
  }
}
