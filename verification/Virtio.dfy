/** The virtio disk driver of kernel/virtio_disk.c against an abstract device (virtio 1.1, section 2.6
    on split virtqueues and section 5.2 on block devices).

    Each request uses a chain of three descriptors.  The device takes chains from the avail ring in
    order and completes them in any order through the used ring; ring indices are uint16 and wrap. */
module Virtio {

  import opened Basics

  const NUM: nat := 8

  /** What a descriptor points at: ops[i], a buffer's data, or info[i].status. */
  datatype Addr = Nowhere | Header(i: nat) | BufData(b: nat) | Status(i: nat)

  datatype Desc = Desc(addr: Addr, len: nat, write: bool, more: bool, next: nat)

  const CLEAR: Desc := Desc(Nowhere, 0, false, false, 0)

  datatype Req = Req(write: bool, sector: nat)
  datatype Info = Info(b: Option<nat>, status: nat)
  datatype Buf = Buf(disk: bool, blockno: nat, data: seq<int>)

  /** The driver's globals, the shared rings, the buffers and the device with its blocks. */
  datatype Dev = Dev(
    free: seq<bool>, desc: seq<Desc>, ops: seq<Req>, info: seq<Info>,
    avail: seq<nat>, availIdx: nat,       // avail->ring and avail->idx
    used: seq<nat>, usedIdx: nat,         // used->ring[].id and used->idx, written by the device
    usedSeen: nat,                        // disk.used_idx
    bufs: seq<Buf>,
    taken: nat,                           // the device's position in the avail ring
    working: set<nat>,                    // heads of chains the device is working on
    store: seq<seq<int>>)

  /** A request under way, kept under its head descriptor. */
  datatype Phase = Pending | Taken | Done | Finished
  datatype Rq = Rq(mid: nat, last: nat, b: nat, write: bool, phase: Phase)

  /** What the rings and descriptors stand for.  The counters are the ring indices without wraparound. */
  datatype Track = Track(
    rq: seq<Option<Rq>>,                  // by head descriptor
    own: seq<Option<nat>>,                // by descriptor: the head of the chain it is in
    busy: seq<Option<nat>>,               // by buffer: the head of its request
    pend: seq<nat>, done: seq<nat>,       // heads not yet taken by the device, and not yet seen by the driver
    takenN: nat, seenN: nat)

  function Wrap(n: nat): nat { n % 0x1_0000 }

  /** The ring entry an index refers to. */
  function Slot(n: nat): (i: nat)
    ensures i < NUM
  {
    n % 8
  }

  function Sector(blockno: nat): nat { blockno * 2 % 0x1_0000_0000 }

  // ----- the invariant -----

  ghost predicate Sizes(d: Dev, g: Track) {
    && |d.free| == |d.desc| == |d.ops| == |d.info| == |d.avail| == |d.used| == NUM
    && |g.rq| == |g.own| == NUM && |g.busy| == |d.bufs|
    && |d.store| <= 0x8000_0000 && forall b: nat :: b < |d.bufs| ==> d.bufs[b].blockno < |d.store|
  }

  /** A descriptor is free and clear, or part of one request's chain. */
  ghost predicate DescOk(d: Dev, g: Track, i: nat)
    requires Sizes(d, g) && i < NUM
  {
    && (g.own[i].None? <==> d.free[i])
    && (d.free[i] ==> d.desc[i] == CLEAR)
    && (g.own[i].Some? ==>
          && g.own[i].value < NUM && g.rq[g.own[i].value].Some?
          && (i == g.own[i].value || i == g.rq[g.own[i].value].value.mid || i == g.rq[g.own[i].value].value.last))
  }

  /** The chain of request r says what the request is for. */
  ghost predicate ChainOk(d: Dev, g: Track, h: nat, r: Rq)
    requires Sizes(d, g) && h < NUM
  {
    && r.mid < NUM && r.last < NUM && h != r.mid && h != r.last && r.mid != r.last
    && g.own[h] == g.own[r.mid] == g.own[r.last] == Some(h)
    && d.desc[h] == Desc(Header(h), 16, false, true, r.mid)
    && d.desc[r.mid] == Desc(BufData(r.b), 1024, !r.write, true, r.last)
    && d.desc[r.last] == Desc(Status(h), 1, true, false, 0)
    && r.b < |d.bufs| && d.ops[h] == Req(r.write, Sector(d.bufs[r.b].blockno)) && d.info[h].b == Some(r.b)
  }

  /** A request's phase, its buffer's flag, its status and its place in the rings agree. */
  ghost predicate RqOk(d: Dev, g: Track, h: nat)
    requires Sizes(d, g) && h < NUM
  {
    match g.rq[h]
    case None => h !in g.pend && h !in g.done && h !in d.working && d.info[h].b.None?
    case Some(r) =>
      && ChainOk(d, g, h, r)
      && g.busy[r.b] == Some(h) && (d.bufs[r.b].disk <==> r.phase != Finished)
      && (h in g.pend <==> r.phase == Pending) && (h in g.done <==> r.phase == Done)
      && (h in d.working <==> r.phase == Taken)
      && (r.phase == Done || r.phase == Finished ==> d.info[h].status == 0)
  }

  ghost predicate BufOk(d: Dev, g: Track, b: nat)
    requires Sizes(d, g) && b < |d.bufs|
  {
    match g.busy[b]
    case None => !d.bufs[b].disk
    case Some(h) => h < NUM && g.rq[h].Some? && g.rq[h].value.b == b
  }

  /** The entries from position n on are q. */
  ghost predicate Ring(entries: seq<nat>, n: nat, q: seq<nat>)
    requires |entries| == NUM
  {
    forall j: nat :: j < |q| ==> q[j] < NUM && entries[Slot(n + j)] == q[j]
  }

  ghost predicate RingsOk(d: Dev, g: Track)
    requires Sizes(d, g)
  {
    && Distinct(g.pend) && Distinct(g.done)
    && Ring(d.avail, g.takenN, g.pend) && Ring(d.used, g.seenN, g.done)
    && d.taken == Wrap(g.takenN) && d.availIdx == Wrap(g.takenN + |g.pend|)
    && d.usedSeen == Wrap(g.seenN) && d.usedIdx == Wrap(g.seenN + |g.done|)
  }

  ghost predicate Inv(d: Dev, g: Track) {
    && Sizes(d, g)
    && (forall i: nat :: i < NUM ==> DescOk(d, g, i))
    && (forall h: nat :: h < NUM ==> RqOk(d, g, h))
    && (forall b: nat :: b < |d.bufs| ==> BufOk(d, g, b))
    && RingsOk(d, g)
  }

  // ----- submitting a request -----

  /** The device and driver state once virtio_disk_rw has queued a request on the chain h, m, t. */
  function Queued(d: Dev, b: nat, write: bool, h: nat, m: nat, t: nat): Dev
    requires b < |d.bufs| && h < NUM && m < NUM && t < NUM
    requires |d.free| == |d.desc| == |d.ops| == |d.info| == |d.avail| == NUM
  {
    d.(free := d.free[h := false][m := false][t := false],
       ops := d.ops[h := Req(write, Sector(d.bufs[b].blockno))],
       desc := d.desc[h := Desc(Header(h), 16, false, true, m)]
               [m := Desc(BufData(b), 1024, !write, true, t)]
               [t := Desc(Status(h), 1, true, false, 0)],
       info := d.info[h := Info(Some(b), 0xff)],
       bufs := d.bufs[b := d.bufs[b].(disk := true)],
       avail := d.avail[Slot(d.availIdx) := h],
       availIdx := Wrap(d.availIdx + 1))
  }

  function QueuedTrack(g: Track, b: nat, write: bool, h: nat, m: nat, t: nat): Track
    requires h < |g.rq| && h < |g.own| && m < |g.own| && t < |g.own| && b < |g.busy|
  {
    g.(rq := g.rq[h := Some(Rq(m, t, b, write, Pending))],
       own := g.own[h := Some(h)][m := Some(h)][t := Some(h)],
       busy := g.busy[b := Some(h)],
       pend := g.pend + [h])
  }

  /** Three different free descriptors and a buffer with no request under way. */
  ghost predicate CanQueue(d: Dev, g: Track, b: nat, h: nat, m: nat, t: nat) {
    && Inv(d, g) && b < |d.bufs| && g.busy[b].None?
    && h < NUM && m < NUM && t < NUM && h != m && h != t && m != t && d.free[h] && d.free[m] && d.free[t]
  }

  lemma QueuedDesc(d: Dev, g: Track, b: nat, write: bool, h: nat, m: nat, t: nat, i: nat)
    requires CanQueue(d, g, b, h, m, t) && i < NUM
    ensures Sizes(Queued(d, b, write, h, m, t), QueuedTrack(g, b, write, h, m, t))
    ensures DescOk(Queued(d, b, write, h, m, t), QueuedTrack(g, b, write, h, m, t), i)
  {
    assert DescOk(d, g, i) && DescOk(d, g, h);
    if g.own[i].Some? {
      assert RqOk(d, g, g.own[i].value);
    }
    hide Inv, RqOk, RingsOk, BufOk;
  }

  lemma QueuedRq(d: Dev, g: Track, b: nat, write: bool, h: nat, m: nat, t: nat, k: nat)
    requires CanQueue(d, g, b, h, m, t) && k < NUM
    requires Sizes(Queued(d, b, write, h, m, t), QueuedTrack(g, b, write, h, m, t))
    ensures RqOk(Queued(d, b, write, h, m, t), QueuedTrack(g, b, write, h, m, t), k)
  {
    assert RqOk(d, g, k) && RqOk(d, g, h) && DescOk(d, g, h) && DescOk(d, g, m) && DescOk(d, g, t);
    assert g.rq[h].None?;
    hide Inv, RingsOk, BufOk, DescOk, Sector;
    if k == h {
      assert h in g.pend + [h];
    }
  }

  lemma QueuedBuf(d: Dev, g: Track, b: nat, write: bool, h: nat, m: nat, t: nat, k: nat)
    requires CanQueue(d, g, b, h, m, t) && k < |d.bufs|
    requires Sizes(Queued(d, b, write, h, m, t), QueuedTrack(g, b, write, h, m, t))
    ensures BufOk(Queued(d, b, write, h, m, t), QueuedTrack(g, b, write, h, m, t), k)
  {
    assert BufOk(d, g, k) && DescOk(d, g, h);
    if g.busy[k].Some? {
      assert RqOk(d, g, g.busy[k].value);
    }
    hide Inv, RingsOk;
  }

  /** Ring positions: the wraparound of the index does not move them, and eight in a row differ. */
  lemma Positions(n: nat)
    ensures Slot(Wrap(n)) == Slot(n) && Wrap(Wrap(n) + 1) == Wrap(n + 1)
  {
  }

  lemma Differ(n: nat, j: nat, k: nat)
    requires j < k < j + 8
    ensures Slot(n + j) != Slot(n + k)
  {
  }

  /** A head that is not in a ring finds room there. */
  lemma RingFits(entries: seq<nat>, n: nat, q: seq<nat>, h: nat)
    requires |entries| == NUM && Ring(entries, n, q) && Distinct(q) && h < NUM && h !in q
    ensures |q| < NUM && Distinct(q + [h])
  {
    AtMost(q + [h], NUM);
  }

  /** A new entry overwrites none that is unread. */
  lemma RingPush(entries: seq<nat>, n: nat, q: seq<nat>, h: nat)
    requires |entries| == NUM && Ring(entries, n, q) && |q| < NUM && h < NUM
    ensures Ring(entries[Slot(n + |q|) := h], n, q + [h])
  {
    var e, q' := entries[Slot(n + |q|) := h], q + [h];
    forall j: nat | j < |q'|
      ensures q'[j] < NUM && e[Slot(n + j)] == q'[j]
    {
      if j < |q| {
        Differ(n, j, |q|);
        assert q[j] < NUM && entries[Slot(n + j)] == q[j];
      }
    }
  }

  lemma RingPop(entries: seq<nat>, n: nat, q: seq<nat>)
    requires |entries| == NUM && Ring(entries, n, q) && q != []
    ensures entries[Slot(n)] == q[0] < NUM && Ring(entries, n + 1, q[1..])
  {
    assert q[0] < NUM && entries[Slot(n + 0)] == q[0];
    forall j: nat | j < |q[1..]|
      ensures q[1..][j] < NUM && entries[Slot(n + 1 + j)] == q[1..][j]
    {
      assert q[j + 1] < NUM && entries[Slot(n + (j + 1))] == q[j + 1];
    }
  }

  /** No unread entry of the avail ring is overwritten. */
  lemma QueuedRings(d: Dev, g: Track, b: nat, write: bool, h: nat, m: nat, t: nat)
    requires CanQueue(d, g, b, h, m, t) && Sizes(Queued(d, b, write, h, m, t), QueuedTrack(g, b, write, h, m, t))
    ensures RingsOk(Queued(d, b, write, h, m, t), QueuedTrack(g, b, write, h, m, t))
  {
    assert DescOk(d, g, h) && RqOk(d, g, h);
    assert h !in g.pend;
    hide Inv, DescOk, RqOk, BufOk, Ring, Slot, Wrap;
    RingFits(d.avail, g.takenN, g.pend, h);
    Positions(g.takenN + |g.pend|);
    RingPush(d.avail, g.takenN, g.pend, h);
  }

  lemma QueuedOk(d: Dev, g: Track, b: nat, write: bool, h: nat, m: nat, t: nat)
    requires CanQueue(d, g, b, h, m, t)
    ensures Inv(Queued(d, b, write, h, m, t), QueuedTrack(g, b, write, h, m, t))
  {
    var d', g' := Queued(d, b, write, h, m, t), QueuedTrack(g, b, write, h, m, t);
    QueuedDesc(d, g, b, write, h, m, t, h);
    QueuedRings(d, g, b, write, h, m, t);
    assert |d'.bufs| == |d.bufs|;
    hide CanQueue, Sizes, DescOk, RqOk, BufOk, RingsOk, Queued, QueuedTrack;
    forall i: nat | i < NUM
      ensures DescOk(d', g', i) && RqOk(d', g', i)
    {
      QueuedDesc(d, g, b, write, h, m, t, i);
      QueuedRq(d, g, b, write, h, m, t, i);
    }
    forall k: nat | k < |d'.bufs|
      ensures BufOk(d', g', k)
    {
      QueuedBuf(d, g, b, write, h, m, t, k);
    }
  }

  // ----- the device takes a chain -----

  function TakenDev(d: Dev): Dev
    requires |d.avail| == NUM
  {
    d.(taken := Wrap(d.taken + 1), working := d.working + {d.avail[Slot(d.taken)]})
  }

  function InPhase(g: Track, h: nat, ph: Phase): seq<Option<Rq>>
    requires h < |g.rq| && g.rq[h].Some?
  {
    g.rq[h := Some(g.rq[h].value.(phase := ph))]
  }

  function TakenTrack(g: Track): Track
    requires g.pend != [] && g.pend[0] < |g.rq| && g.rq[g.pend[0]].Some?
  {
    g.(rq := InPhase(g, g.pend[0], Taken), pend := g.pend[1..], takenN := g.takenN + 1)
  }

  lemma DropHead(q: seq<nat>, x: nat)
    requires q != [] && Distinct(q)
    ensures Distinct(q[1..]) && (x in q[1..] <==> x in q && x != q[0])
  {
    assert q == [q[0]] + q[1..];
  }

  /** The device reads the head the driver queued first. */
  lemma TakenOk(d: Dev, g: Track)
    requires Inv(d, g) && g.pend != []
    ensures d.taken != d.availIdx && d.avail[Slot(d.taken)] == g.pend[0] < NUM && g.rq[g.pend[0]].Some?
    ensures Inv(TakenDev(d), TakenTrack(g))
  {
    PendingHead(d, g);
    var d', g' := TakenDev(d), TakenTrack(g);
    hide Slot, Wrap, Ring;
    forall i: nat | i < NUM
      ensures DescOk(d', g', i) && RqOk(d', g', i)
    {
      assert DescOk(d, g, i) && RqOk(d, g, i);
      DropHead(g.pend, i);
    }
    forall b: nat | b < |d.bufs|
      ensures BufOk(d', g', b)
    {
      assert BufOk(d, g, b);
    }
    DropHead(g.pend, 0);
    hide DescOk, RqOk, BufOk;
  }

  lemma PendingHead(d: Dev, g: Track)
    requires Inv(d, g) && g.pend != []
    ensures d.taken != d.availIdx && d.avail[Slot(d.taken)] == g.pend[0] < NUM && g.rq[g.pend[0]].Some?
    ensures Ring(d.avail, g.takenN + 1, g.pend[1..]) && Wrap(d.taken + 1) == Wrap(g.takenN + 1)
  {
    hide DescOk, BufOk;
    RingPop(d.avail, g.takenN, g.pend);
    Positions(g.takenN);
    AtMost(g.pend, NUM);
    assert RqOk(d, g, g.pend[0]);
  }

  // ----- the device completes a chain -----

  /** The device follows the chain from h.  First the header, 16 bytes that it only reads. */
  function HeaderOf(d: Dev, h: nat): Option<Req> {
    if h < |d.desc| && d.desc[h].addr.Header? && d.desc[h].addr.i < |d.ops| && d.desc[h].len == 16 && !d.desc[h].write
    then Some(d.ops[d.desc[h].addr.i]) else None
  }

  /** Then the data, 1024 bytes, which it may write exactly if it is to fill them. */
  function DataOf(d: Dev, h: nat, fill: bool): Option<nat> {
    if h < |d.desc| && d.desc[h].more && d.desc[h].next < |d.desc| then
      var e := d.desc[d.desc[h].next];
      if e.addr.BufData? && e.addr.b < |d.bufs| && e.len == 1024 && e.write == fill then Some(e.addr.b) else None
    else None
  }

  /** Last the status, one byte that it writes. */
  function StatusOf(d: Dev, h: nat): Option<nat> {
    if h < |d.desc| && d.desc[h].more && d.desc[h].next < |d.desc| && d.desc[d.desc[h].next].more
       && d.desc[d.desc[h].next].next < |d.desc| then
      var e := d.desc[d.desc[d.desc[h].next].next];
      if e.addr.Status? && e.addr.i < |d.info| && e.len == 1 && e.write && !e.more then Some(e.addr.i) else None
    else None
  }

  /** The transfer a chain asks for, if it is well formed; the status byte is written last. */
  function Transfer(d: Dev, h: nat): Dev {
    var r, s := HeaderOf(d, h), StatusOf(d, h);
    if r.None? || s.None? || r.value.sector / 2 >= |d.store| then d
    else
      var k, b := r.value.sector / 2, DataOf(d, h, !r.value.write);
      if b.None? then d
      else
        var d1 := if r.value.write then d.(store := d.store[k := d.bufs[b.value].data])
                  else d.(bufs := d.bufs[b.value := d.bufs[b.value].(data := d.store[k])]);
        d1.(info := d1.info[s.value := d1.info[s.value].(status := 0)])
  }

  function ServedDev(d: Dev, h: nat): Dev
    requires |d.used| == NUM
  {
    Transfer(d, h).(used := d.used[Slot(d.usedIdx) := h], usedIdx := Wrap(d.usedIdx + 1), working := d.working - {h})
  }

  function ServedTrack(g: Track, h: nat): Track
    requires h < |g.rq| && g.rq[h].Some?
  {
    g.(rq := InPhase(g, h, Done), done := g.done + [h])
  }

  /** The chain of a request leads the device to that request's own block, buffer and status byte. */
  lemma TransferIs(d: Dev, g: Track, h: nat)
    requires Inv(d, g) && h < NUM && g.rq[h].Some?
    ensures var r := g.rq[h].value;
            && r.b < |d.bufs| && d.bufs[r.b].blockno < |d.store|
            && Transfer(d, h) == (if r.write then d.(store := d.store[d.bufs[r.b].blockno := d.bufs[r.b].data])
                                  else d.(bufs := d.bufs[r.b := d.bufs[r.b].(data := d.store[d.bufs[r.b].blockno])]))
                                 .(info := d.info[h := d.info[h].(status := 0)])
  {
    assert RqOk(d, g, h);
    hide Inv, DescOk, BufOk, RingsOk;
    assert Sector(d.bufs[g.rq[h].value.b].blockno) / 2 == d.bufs[g.rq[h].value.b].blockno;
  }

  /** A step that keeps descriptors, ops and buffer flags, and moves one request to another phase. */
  ghost predicate Moved(d: Dev, g: Track, h: nat, d': Dev, g': Track)
    requires Sizes(d, g) && h < NUM && g.rq[h].Some?
  {
    && Sizes(d', g') && d'.free == d.free && d'.desc == d.desc && d'.ops == d.ops && |d'.bufs| == |d.bufs|
    && g'.rq == InPhase(g, h, if g'.rq[h].Some? then g'.rq[h].value.phase else Taken) && g'.own == g.own
    && g'.busy == g.busy
    && (forall b: nat :: b < |d.bufs| ==> d'.bufs[b].blockno == d.bufs[b].blockno)
    && (forall b: nat :: b < |d.bufs| && b != g.rq[h].value.b ==> d'.bufs[b].disk == d.bufs[b].disk)
    && (forall k: nat :: k < NUM && k != h ==> d'.info[k] == d.info[k] && (k in g'.pend <==> k in g.pend))
    && (forall k: nat :: k < NUM && k != h ==> (k in g'.done <==> k in g.done) && (k in d'.working <==> k in d.working))
    && d'.info[h].b == d.info[h].b
  }

  /** The moved request is where its phase says. */
  ghost predicate Arrived(d: Dev, g: Track, h: nat)
    requires Sizes(d, g) && h < NUM
  {
    g.rq[h].Some? &&
    var r := g.rq[h].value;
    && r.b < |d.bufs| && (d.bufs[r.b].disk <==> r.phase != Finished)
    && (h in g.pend <==> r.phase == Pending) && (h in g.done <==> r.phase == Done)
    && (h in d.working <==> r.phase == Taken)
    && (r.phase == Done || r.phase == Finished ==> d.info[h].status == 0)
  }

  lemma MovedRq(d: Dev, g: Track, h: nat, d': Dev, g': Track, i: nat)
    requires Inv(d, g) && h < NUM && g.rq[h].Some? && Moved(d, g, h, d', g') && Arrived(d', g', h) && i < NUM
    ensures RqOk(d', g', i)
  {
    assert RqOk(d, g, i) && RqOk(d, g, h);
    hide Inv, RingsOk, BufOk, DescOk, Sector;
  }

  /** Then only the moved request itself has to be looked at again. */
  lemma MovedOk(d: Dev, g: Track, h: nat, d': Dev, g': Track)
    requires Inv(d, g) && h < NUM && g.rq[h].Some? && Moved(d, g, h, d', g') && Arrived(d', g', h) && RingsOk(d', g')
    ensures Inv(d', g')
  {
    forall i: nat | i < NUM
      ensures DescOk(d', g', i) && RqOk(d', g', i)
    {
      assert DescOk(d, g, i);
      MovedRq(d, g, h, d', g', i);
    }
    forall b: nat | b < |d'.bufs|
      ensures BufOk(d', g', b)
    {
      assert BufOk(d, g, b) && RqOk(d, g, h);
    }
    hide DescOk, RqOk, BufOk, Moved, RingsOk, Arrived;
  }

  lemma ServedMoves(d: Dev, g: Track, h: nat)
    requires Inv(d, g) && h < NUM && g.rq[h].Some? && g.rq[h].value.phase == Taken
    ensures Moved(d, g, h, ServedDev(d, h), ServedTrack(g, h)) && Arrived(ServedDev(d, h), ServedTrack(g, h), h)
  {
    TransferIs(d, g, h);
    assert RqOk(d, g, h);
    hide Transfer, Slot, Wrap, RingsOk, DescOk, BufOk, Inv;
  }

  lemma ServedOk(d: Dev, g: Track, h: nat)
    requires Inv(d, g) && h < NUM && g.rq[h].Some? && g.rq[h].value.phase == Taken
    ensures Inv(ServedDev(d, h), ServedTrack(g, h))
  {
    ServedMoves(d, g, h);
    assert RqOk(d, g, h);
    RingFits(d.used, g.seenN, g.done, h);
    RingPush(d.used, g.seenN, g.done, h);
    Positions(g.seenN + |g.done|);
    TransferRings(d, h);
    hide Transfer, Slot, Wrap, Ring, DescOk, BufOk, RqOk, Moved, Arrived;
    MovedOk(d, g, h, ServedDev(d, h), ServedTrack(g, h));
  }

  /** A transfer does not touch the rings. */
  lemma TransferRings(d: Dev, h: nat)
    ensures var t := Transfer(d, h);
            t.avail == d.avail && t.availIdx == d.availIdx && t.taken == d.taken && t.usedSeen == d.usedSeen
  {
  }

  // ----- the interrupt handler sees a completion -----

  function AckedDev(d: Dev, b: nat): Dev
    requires b < |d.bufs|
  {
    d.(bufs := d.bufs[b := d.bufs[b].(disk := false)], usedSeen := Wrap(d.usedSeen + 1))
  }

  function AckedTrack(g: Track): Track
    requires g.done != [] && g.done[0] < |g.rq| && g.rq[g.done[0]].Some?
  {
    g.(rq := InPhase(g, g.done[0], Finished), done := g.done[1..], seenN := g.seenN + 1)
  }

  /** The handler's loop test says whether a completion is unseen. */
  lemma Unseen(d: Dev, g: Track)
    requires Inv(d, g)
    ensures |d.used| == |d.info| == |g.rq| == NUM && (d.usedSeen != d.usedIdx <==> g.done != [])
  {
    hide DescOk, BufOk, RqOk;
    AtMost(g.done, NUM);
  }

  /** The entry the handler reads is the oldest unseen one, with a good status and the buffer of that very
      request. */
  lemma Completion(d: Dev, g: Track)
    requires Inv(d, g) && g.done != []
    ensures var h := d.used[Slot(d.usedSeen)];
            && h == g.done[0] < NUM && g.rq[h].Some? && g.rq[h].value.phase == Done
            && d.info[h].status == 0 && d.info[h].b == Some(g.rq[h].value.b) && g.rq[h].value.b < |d.bufs|
    ensures Ring(d.used, g.seenN + 1, g.done[1..]) && Wrap(d.usedSeen + 1) == Wrap(g.seenN + 1)
  {
    hide DescOk, BufOk, Distinct;
    Positions(g.seenN);
    RingPop(d.used, g.seenN, g.done);
    assert g.done[0] in g.done;
    assert RqOk(d, g, g.done[0]);
    hide Slot, Wrap, Ring;
  }

  lemma AckedOk(d: Dev, g: Track)
    requires Inv(d, g) && g.done != []
    ensures g.done[0] < NUM && g.rq[g.done[0]].Some? && g.rq[g.done[0]].value.b < |d.bufs|
    ensures Inv(AckedDev(d, g.rq[g.done[0]].value.b), AckedTrack(g))
  {
    Completion(d, g);
    var h := g.done[0];
    assert RqOk(d, g, h);
    forall k: nat
      ensures k in g.done[1..] <==> k in g.done && k != h
    {
      DropHead(g.done, k);
    }
    DropHead(g.done, h);
    hide Slot, Wrap, Ring, DescOk, BufOk, RqOk;
    assert Moved(d, g, h, AckedDev(d, g.rq[h].value.b), AckedTrack(g));
    DoneNotPending(d, g, h);
    MovedOk(d, g, h, AckedDev(d, g.rq[h].value.b), AckedTrack(g));
  }

  lemma DoneNotPending(d: Dev, g: Track, h: nat)
    requires Inv(d, g) && h < NUM && g.rq[h].Some? && g.rq[h].value.phase == Done
    ensures h !in g.pend && h !in d.working && d.info[h].status == 0
  {
    assert RqOk(d, g, h);
  }

  // ----- the request is finished -----

  function FreedDev(d: Dev, h: nat, m: nat, t: nat): Dev
    requires h < NUM && m < NUM && t < NUM && |d.free| == |d.desc| == |d.info| == NUM
  {
    d.(info := d.info[h := d.info[h].(b := None)],
       desc := d.desc[h := CLEAR][m := CLEAR][t := CLEAR],
       free := d.free[h := true][m := true][t := true])
  }

  function FreedTrack(g: Track, h: nat, m: nat, t: nat, b: nat): Track
    requires h < NUM && m < NUM && t < NUM && |g.own| == |g.rq| == NUM && b < |g.busy|
  {
    g.(rq := g.rq[h := None], own := g.own[h := None][m := None][t := None], busy := g.busy[b := None])
  }

  lemma FreedDesc(d: Dev, g: Track, h: nat, i: nat)
    requires Inv(d, g) && h < NUM && g.rq[h].Some? && g.rq[h].value.phase == Finished && i < NUM
    ensures g.rq[h].value.mid < NUM && g.rq[h].value.last < NUM && g.rq[h].value.b < |d.bufs|
    ensures var d', g' := FreedDev(d, h, g.rq[h].value.mid, g.rq[h].value.last),
        FreedTrack(g, h, g.rq[h].value.mid, g.rq[h].value.last, g.rq[h].value.b);
            Sizes(d', g') && DescOk(d', g', i)
  {
    assert RqOk(d, g, h) && DescOk(d, g, i);
    if g.own[i].Some? {
      assert RqOk(d, g, g.own[i].value);
    }
    hide Inv, BufOk, RingsOk, Sector;
  }

  lemma FreedRq(d: Dev, g: Track, h: nat, i: nat)
    requires Inv(d, g) && h < NUM && g.rq[h].Some? && g.rq[h].value.phase == Finished && i < NUM
    requires g.rq[h].value.mid < NUM && g.rq[h].value.last < NUM && g.rq[h].value.b < |d.bufs|
    ensures var d', g' := FreedDev(d, h, g.rq[h].value.mid, g.rq[h].value.last),
        FreedTrack(g, h, g.rq[h].value.mid, g.rq[h].value.last, g.rq[h].value.b);
            Sizes(d', g') ==> RqOk(d', g', i)
  {
    assert RqOk(d, g, h) && RqOk(d, g, i);
    hide Inv, BufOk, RingsOk, Sector, DescOk;
  }

  lemma FreedOk(d: Dev, g: Track, h: nat)
    requires Inv(d, g) && h < NUM && g.rq[h].Some? && g.rq[h].value.phase == Finished
    ensures g.rq[h].value.mid < NUM && g.rq[h].value.last < NUM && g.rq[h].value.b < |d.bufs|
    ensures Inv(FreedDev(d, h, g.rq[h].value.mid, g.rq[h].value.last),
                FreedTrack(g, h, g.rq[h].value.mid, g.rq[h].value.last, g.rq[h].value.b))
  {
    FreedDesc(d, g, h, h);
    var r := g.rq[h].value;
    var d', g' := FreedDev(d, h, r.mid, r.last), FreedTrack(g, h, r.mid, r.last, r.b);
    forall b: nat | b < |d'.bufs|
      ensures BufOk(d', g', b)
    {
      assert BufOk(d, g, b) && RqOk(d, g, h);
    }
    hide DescOk, RqOk, BufOk;
    forall i: nat | i < NUM
      ensures DescOk(d', g', i) && RqOk(d', g', i)
    {
      FreedDesc(d, g, h, i);
      FreedRq(d, g, h, i);
    }
  }

  // ----- what the callers see -----

  /** A request of a buffer: waiting for the device, served by it, or reported to the driver. */
  datatype Stage = Waiting(write: bool) | Served | Acked

  /** The disk as virtio_disk_rw's callers see it: blocks, the buffers' data, and for each buffer its
      block and its request, if any. */
  datatype Abs = Abs(store: seq<seq<int>>, data: seq<seq<int>>, block: seq<nat>, out: seq<Option<Stage>>)

  function StageOf(r: Rq): Stage {
    match r.phase
    case Pending => Waiting(r.write)
    case Taken => Waiting(r.write)
    case Done => Served
    case Finished => Acked
  }

  function Outstanding(g: Track, b: nat): Option<Stage> {
    if b < |g.busy| && g.busy[b].Some? && g.busy[b].value < |g.rq| && g.rq[g.busy[b].value].Some?
    then Some(StageOf(g.rq[g.busy[b].value].value)) else None
  }

  function AbsOf(d: Dev, g: Track): Abs {
    Abs(d.store, seq(|d.bufs|, b requires 0 <= b < |d.bufs| => d.bufs[b].data),
        seq(|d.bufs|, b requires 0 <= b < |d.bufs| => d.bufs[b].blockno),
        seq(|d.bufs|, b requires 0 <= b < |d.bufs| => Outstanding(g, b)))
  }

  function Submitted(a: Abs, b: nat, write: bool): Abs
    requires b < |a.out|
  {
    a.(out := a.out[b := Some(Waiting(write))])
  }

  /** The one transfer of a request: between its own buffer and its own block. */
  function Serve(a: Abs, b: nat): Abs
    requires b < |a.out| == |a.data| == |a.block| && a.block[b] < |a.store|
  {
    if a.out[b].Some? && a.out[b].value.Waiting? then
      (if a.out[b].value.write then a.(store := a.store[a.block[b] := a.data[b]])
       else a.(data := a.data[b := a.store[a.block[b]]])).(out := a.out[b := Some(Served)])
    else a
  }

  function Acknowledge(a: Abs): Abs {
    a.(out := seq(|a.out|, b requires 0 <= b < |a.out| => if a.out[b] == Some(Served) then Some(Acked) else a.out[b]))
  }

  function Release(a: Abs, b: nat): Abs
    requires b < |a.out|
  {
    a.(out := a.out[b := None])
  }

  lemma QueuedAbs(d: Dev, g: Track, b: nat, write: bool, h: nat, m: nat, t: nat)
    requires CanQueue(d, g, b, h, m, t)
    ensures AbsOf(Queued(d, b, write, h, m, t), QueuedTrack(g, b, write, h, m, t)) == Submitted(AbsOf(d, g), b, write)
  {
    assert DescOk(d, g, h) && RqOk(d, g, h);
    forall k: nat | k < |d.bufs| && k != b
      ensures Outstanding(QueuedTrack(g, b, write, h, m, t), k) == Outstanding(g, k)
    {
      assert BufOk(d, g, k);
    }
    hide Inv, RqOk, DescOk, RingsOk;
  }

  lemma TakenAbs(d: Dev, g: Track)
    requires Inv(d, g) && g.pend != [] && g.pend[0] < NUM && g.rq[g.pend[0]].Some?
    ensures AbsOf(TakenDev(d), TakenTrack(g)) == AbsOf(d, g)
  {
    assert RqOk(d, g, g.pend[0]) && g.pend[0] in g.pend;
    hide Inv, RqOk, DescOk, RingsOk, BufOk;
    assert forall k: nat :: k < |d.bufs| ==> Outstanding(TakenTrack(g), k) == Outstanding(g, k);
  }

  /** Only the request of buffer b is at head h. */
  lemma OthersStay(d: Dev, g: Track, h: nat, k: nat, g': Track)
    requires Inv(d, g) && h < NUM && g.rq[h].Some? && k < |d.bufs| && k != g.rq[h].value.b && g'.busy == g.busy
    requires |g'.rq| == NUM
    requires forall i: nat :: i < NUM && i != h ==> g'.rq[i] == g.rq[i]
    ensures Outstanding(g', k) == Outstanding(g, k)
  {
    assert BufOk(d, g, k);
  }

  lemma ServedAbs(d: Dev, g: Track, h: nat)
    requires Inv(d, g) && h < NUM && g.rq[h].Some? && g.rq[h].value.phase == Taken && g.rq[h].value.b < |d.bufs|
    requires d.bufs[g.rq[h].value.b].blockno < |d.store|
    ensures AbsOf(ServedDev(d, h), ServedTrack(g, h)) == Serve(AbsOf(d, g), g.rq[h].value.b)
  {
    TransferIs(d, g, h);
    assert RqOk(d, g, h);
    var r, g' := g.rq[h].value, ServedTrack(g, h);
    forall k: nat | k < |d.bufs| && k != r.b
      ensures Outstanding(g', k) == Outstanding(g, k)
    {
      OthersStay(d, g, h, k, g');
    }
    hide Inv, RqOk, DescOk, RingsOk, BufOk, Transfer;
    assert Outstanding(g, r.b) == Some(Waiting(r.write)) && Outstanding(g', r.b) == Some(Served);
    var a, a' := AbsOf(d, g), AbsOf(ServedDev(d, h), g');
    assert a'.out == a.out[r.b := Some(Served)];
    assert a'.block == a.block;
  }

  /** After some acknowledgements: served requests may have become reported, and nothing else changed. */
  ghost predicate SomeAcked(a: Abs, a': Abs) {
    && a'.store == a.store && a'.data == a.data && a'.block == a.block && |a'.out| == |a.out|
    && forall b: nat :: b < |a.out| ==> a'.out[b] == a.out[b] || (a.out[b] == Some(Served) && a'.out[b] == Some(Acked))
  }

  lemma AckedAbs(d: Dev, g: Track, a: Abs)
    requires Inv(d, g) && g.done != [] && SomeAcked(a, AbsOf(d, g))
    requires g.done[0] < NUM && g.rq[g.done[0]].Some? && g.rq[g.done[0]].value.phase == Done
    requires g.rq[g.done[0]].value.b < |d.bufs|
    ensures SomeAcked(a, AbsOf(AckedDev(d, g.rq[g.done[0]].value.b), AckedTrack(g)))
  {
    var h := g.done[0];
    var r, g' := g.rq[h].value, AckedTrack(g);
    assert RqOk(d, g, h);
    forall k: nat | k < |d.bufs| && k != r.b
      ensures Outstanding(g', k) == Outstanding(g, k)
    {
      OthersStay(d, g, h, k, g');
    }
    hide Inv, RqOk, DescOk, RingsOk, BufOk;
    assert Outstanding(g, r.b) == Some(Served) && Outstanding(g', r.b) == Some(Acked);
    var a1, a2 := AbsOf(d, g), AbsOf(AckedDev(d, r.b), g');
    assert a2.data == a1.data && a2.block == a1.block && a2.out == a1.out[r.b := Some(Acked)];
  }

  lemma AllAcked(d: Dev, g: Track, a: Abs)
    requires Inv(d, g) && g.done == [] && SomeAcked(a, AbsOf(d, g))
    ensures AbsOf(d, g) == Acknowledge(a)
  {
    forall b: nat | b < |d.bufs|
      ensures Outstanding(g, b) != Some(Served)
    {
      assert BufOk(d, g, b);
      if g.busy[b].Some? {
        assert RqOk(d, g, g.busy[b].value);
      }
    }
    hide Inv, RqOk, DescOk, RingsOk, BufOk, Outstanding;
    assert AbsOf(d, g).out == Acknowledge(a).out;
  }

  lemma FreedAbs(d: Dev, g: Track, h: nat)
    requires Inv(d, g) && h < NUM && g.rq[h].Some? && g.rq[h].value.phase == Finished
    requires g.rq[h].value.mid < NUM && g.rq[h].value.last < NUM && g.rq[h].value.b < |d.bufs|
    ensures AbsOf(FreedDev(d, h, g.rq[h].value.mid, g.rq[h].value.last),
                  FreedTrack(g, h, g.rq[h].value.mid, g.rq[h].value.last, g.rq[h].value.b)) ==
                    Release(AbsOf(d, g), g.rq[h].value.b)
  {
    var r := g.rq[h].value;
    var g' := FreedTrack(g, h, r.mid, r.last, r.b);
    forall k: nat | k < |d.bufs| && k != r.b
      ensures Outstanding(g', k) == Outstanding(g, k)
    {
      assert BufOk(d, g, k);
    }
    hide Inv, RqOk, DescOk, RingsOk, BufOk;
    assert AbsOf(FreedDev(d, h, r.mid, r.last), g').out == AbsOf(d, g).out[r.b := None];
  }

  /** What a step does to that view. */
  datatype Event =
    | Quiet
    | Fill(b: nat, blockno: nat, data: seq<int>)
    | Queue(b: nat, write: bool)
    | Move(b: nat)
    | Report
    | Close(b: nat)

  /** An idle buffer's owner fills it; a request is queued for an idle buffer, moves its data while waiting,
      and is closed when reported. */
  predicate Enabled(a: Abs, ev: Event) {
    match ev
    case Fill(b, _, _) => b < |a.out| == |a.data| == |a.block| && a.out[b].None?
    case Queue(b, _) => b < |a.out| && a.out[b].None?
    case Move(b) => b < |a.out| == |a.data| == |a.block| && a.block[b] < |a.store| && a.out[b].Some? &&
      a.out[b].value.Waiting?
    case Close(b) => b < |a.out| && a.out[b] == Some(Acked)
    case _ => true
  }

  function Apply(a: Abs, ev: Event): Abs
    requires Enabled(a, ev)
  {
    match ev
    case Quiet => a
    case Fill(b, blockno, data) => a.(data := a.data[b := data], block := a.block[b := blockno])
    case Queue(b, write) => Submitted(a, b, write)
    case Move(b) => Serve(a, b)
    case Report => Acknowledge(a)
    case Close(b) => Release(a, b)
  }

  ghost function After(a: Abs, evs: seq<Event>): Abs {
    if evs == [] then a
    else
      var m, ev := After(a, evs[..|evs| - 1]), evs[|evs| - 1];
      if Enabled(m, ev) then Apply(m, ev) else m
  }

  /** The events of a run of the simple disk. */
  ghost predicate Legal(a: Abs, evs: seq<Event>) {
    evs == [] || (Legal(a, evs[..|evs| - 1]) && Enabled(After(a, evs[..|evs| - 1]), evs[|evs| - 1]))
  }

  function Queues(evs: seq<Event>, b: nat): nat {
    if evs == [] then 0 else Queues(evs[..|evs| - 1], b) + if evs[|evs| - 1].Queue? && evs[|evs| - 1].b == b then 1
      else 0
  }

  function Moves(evs: seq<Event>, b: nat): nat {
    if evs == [] then 0 else Moves(evs[..|evs| - 1], b) + if evs[|evs| - 1].Move? && evs[|evs| - 1].b == b then 1 else 0
  }

  function Closes(evs: seq<Event>, b: nat): nat {
    if evs == [] then 0 else Closes(evs[..|evs| - 1], b) + if evs[|evs| - 1].Close? && evs[|evs| - 1].b == b then 1
      else 0
  }

  function IsWaiting(a: Abs, b: nat): nat { if b < |a.out| && a.out[b].Some? && a.out[b].value.Waiting? then 1 else 0 }

  function IsOut(a: Abs, b: nat): nat { if b < |a.out| && a.out[b].Some? then 1 else 0 }

  lemma OneEvent(a: Abs, ev: Event, b: nat)
    requires Enabled(a, ev) && b < |a.out|
    ensures var a' := Apply(a, ev);
            && |a'.out| == |a.out|
            && IsWaiting(a', b) - IsWaiting(a, b) ==
                 (if ev.Queue? && ev.b == b then 1 else if ev.Move? && ev.b == b then -1 else 0)
            && IsOut(a', b) - IsOut(a, b) ==
                 (if ev.Queue? && ev.b == b then 1 else if ev.Close? && ev.b == b then -1 else 0)
  {
  }

  /** Over any run each request of a buffer moves its data exactly once and is closed exactly once,
      except for the one request that may still be under way. */
  lemma {:induction false} ExactlyOnce(a: Abs, evs: seq<Event>, b: nat)
    requires Legal(a, evs) && b < |a.out| && a.out[b].None?
    ensures |After(a, evs).out| == |a.out|
    ensures Moves(evs, b) + IsWaiting(After(a, evs), b) == Queues(evs, b)
    ensures Closes(evs, b) + IsOut(After(a, evs), b) == Queues(evs, b)
  {
    if evs != [] {
      var pre, ev := evs[..|evs| - 1], evs[|evs| - 1];
      ExactlyOnce(a, pre, b);
      OneEvent(After(a, pre), ev, b);
      hide Apply, Enabled, IsWaiting, IsOut;
    }
  }

  lemma OneMore(a: Abs, evs: seq<Event>, ev: Event)
    requires Legal(a, evs) && Enabled(After(a, evs), ev)
    ensures Legal(a, evs + [ev]) && After(a, evs + [ev]) == Apply(After(a, evs), ev)
  {
    assert (evs + [ev])[..|evs|] == evs;
  }

  /** Requests under way have nothing in common: not a descriptor, and not a buffer. */
  lemma DisjointChains(d: Dev, g: Track, h: nat, k: nat)
    requires Inv(d, g) && h < NUM && k < NUM && h != k && g.rq[h].Some? && g.rq[k].Some?
    ensures {h, g.rq[h].value.mid, g.rq[h].value.last} !! {k, g.rq[k].value.mid, g.rq[k].value.last}
    ensures g.rq[h].value.b != g.rq[k].value.b
  {
    assert RqOk(d, g, h) && RqOk(d, g, k);
  }

  // ----- counting descriptors -----

  function FreeCount(free: seq<bool>): nat {
    if free == [] then 0 else FreeCount(free[..|free| - 1]) + if free[|free| - 1] then 1 else 0
  }

  function InFlight(rq: seq<Option<Rq>>): nat {
    if rq == [] then 0 else InFlight(rq[..|rq| - 1]) + if rq[|rq| - 1].Some? then 1 else 0
  }

  /** Free descriptors and three for each request make NUM. */
  ghost predicate Balanced(d: Dev, g: Track) { FreeCount(d.free) + 3 * InFlight(g.rq) == NUM }

  lemma {:induction false} FreeCountSet(s: seq<bool>, i: nat, x: bool)
    requires i < |s|
    ensures FreeCount(s[i := x]) == FreeCount(s) - (if s[i] then 1 else 0) + (if x then 1 else 0)
  {
    var n := |s| - 1;
    if i < n {
      FreeCountSet(s[..n], i, x);
      assert s[i := x][..n] == s[..n][i := x];
    } else {
      assert s[i := x][..n] == s[..n];
    }
  }

  lemma {:induction false} InFlightSet(s: seq<Option<Rq>>, i: nat, x: Option<Rq>)
    requires i < |s|
    ensures InFlight(s[i := x]) == InFlight(s) - (if s[i].Some? then 1 else 0) + (if x.Some? then 1 else 0)
  {
    var n := |s| - 1;
    if i < n {
      InFlightSet(s[..n], i, x);
      assert s[i := x][..n] == s[..n][i := x];
    } else {
      assert s[i := x][..n] == s[..n];
    }
  }

  lemma {:induction false} NoneFree(s: seq<bool>)
    requires forall i: nat :: i < |s| ==> !s[i]
    ensures FreeCount(s) == 0
  {
    if s != [] {
      NoneFree(s[..|s| - 1]);
    }
  }

  lemma QueuedBalance(d: Dev, g: Track, b: nat, write: bool, h: nat, m: nat, t: nat)
    requires CanQueue(d, g, b, h, m, t) && Balanced(d, g)
    ensures Balanced(Queued(d, b, write, h, m, t), QueuedTrack(g, b, write, h, m, t))
  {
    assert DescOk(d, g, h) && RqOk(d, g, h);
    FreeCountSet(d.free, h, false);
    FreeCountSet(d.free[h := false], m, false);
    FreeCountSet(d.free[h := false][m := false], t, false);
    InFlightSet(g.rq, h, Some(Rq(m, t, b, write, Pending)));
    hide Inv, FreeCount, InFlight;
  }

  lemma FreedBalance(d: Dev, g: Track, h: nat)
    requires Inv(d, g) && h < NUM && g.rq[h].Some? && g.rq[h].value.phase == Finished && Balanced(d, g)
    requires g.rq[h].value.mid < NUM && g.rq[h].value.last < NUM && g.rq[h].value.b < |d.bufs|
    ensures Balanced(FreedDev(d, h, g.rq[h].value.mid, g.rq[h].value.last),
                     FreedTrack(g, h, g.rq[h].value.mid, g.rq[h].value.last, g.rq[h].value.b))
  {
    var r := g.rq[h].value;
    assert RqOk(d, g, h) && DescOk(d, g, h) && DescOk(d, g, r.mid) && DescOk(d, g, r.last);
    FreeCountSet(d.free, h, true);
    FreeCountSet(d.free[h := true], r.mid, true);
    FreeCountSet(d.free[h := true][r.mid := true], r.last, true);
    InFlightSet(g.rq, h, None);
    hide Inv, FreeCount, InFlight;
  }

  lemma MovedBalance(d: Dev, g: Track, h: nat, d': Dev, g': Track, ph: Phase)
    requires h < |g.rq| && g.rq[h].Some? && Balanced(d, g) && d'.free == d.free && g'.rq == InPhase(g, h, ph)
    ensures Balanced(d', g')
  {
    InFlightSet(g.rq, h, Some(g.rq[h].value.(phase := ph)));
  }

  /** The free map with the descriptors of s taken. */
  function Marked(free: seq<bool>, s: seq<nat>): (r: seq<bool>)
    ensures |r| == |free| && forall i: nat :: i < |free| ==> r[i] == (free[i] && i !in s)
  {
    seq(|free|, i requires 0 <= i < |free| => free[i] && i !in s)
  }

  lemma MarkMore(free: seq<bool>, s: seq<nat>, x: nat)
    requires x < |free|
    ensures Marked(free, s + [x]) == Marked(free, s)[x := false]
  {
  }

  lemma {:induction false} MarkedCount(free: seq<bool>, s: seq<nat>)
    requires Distinct(s) && forall k: nat :: k < |s| ==> s[k] < |free| && free[s[k]]
    ensures FreeCount(Marked(free, s)) == FreeCount(free) - |s|
  {
    if s == [] {
      assert Marked(free, s) == free;
    } else {
      var s', x := s[..|s| - 1], s[|s| - 1];
      MarkedCount(free, s');
      MarkMore(free, s', x);
      assert s' + [x] == s;
      FreeCountSet(Marked(free, s'), x, false);
    }
  }

  /** Taking back the mark of a descriptor that was free. */
  lemma Unmarked(free: seq<bool>, s: seq<nat>, n: nat)
    requires n < |s| && Distinct(s) && s[n] < |free| && free[s[n]]
    ensures Marked(free, s[n + 1..]) == Marked(free, s[n..])[s[n] := true] && !Marked(free, s[n..])[s[n]]
  {
    assert s[n..] == [s[n]] + s[n + 1..];
    assert s[n] !in s[n + 1..];
  }

  lemma MarkThree(free: seq<bool>, s: seq<nat>)
    requires |s| == 3 && forall k: nat :: k < 3 ==> s[k] < |free|
    ensures Marked(free, s) == free[s[0] := false][s[1] := false][s[2] := false]
  {
    assert s == [s[0], s[1], s[2]];
  }

  datatype Op =
    | Own(b: nat, blockno: nat, data: seq<int>)   // the holder of an idle buffer changes its block or data
    | Submit(b: nat, write: bool)
    | Take
    | Complete(h: nat)
    | Interrupt
    | Finish(h: nat)

  /** No request of buffer b is under way, as the info table shows. */
  predicate Idle(d: Dev, b: nat) { forall h: nat :: h < |d.info| ==> d.info[h].b != Some(b) }

  lemma IdleIs(d: Dev, g: Track, b: nat)
    requires Inv(d, g) && b < |d.bufs|
    ensures Idle(d, b) <==> g.busy[b].None?
  {
    assert BufOk(d, g, b);
    if g.busy[b].Some? {
      assert RqOk(d, g, g.busy[b].value);
    } else {
      forall h: nat | h < NUM
        ensures d.info[h].b != Some(b)
      {
        assert RqOk(d, g, h);
      }
    }
  }

  lemma ClearWhenFree(d: Dev, g: Track)
    requires Inv(d, g)
    ensures |d.free| == |d.desc| == |d.ops| == |d.info| == |d.avail| == NUM && |g.rq| == |g.own| == NUM
    ensures |g.busy| == |d.bufs|
    ensures forall i: nat :: i < NUM && d.free[i] ==> d.desc[i] == CLEAR
  {
    forall i: nat | i < NUM && d.free[i]
      ensures d.desc[i] == CLEAR
    {
      assert DescOk(d, g, i);
    }
  }

  lemma {:induction false} AllFree(s: seq<bool>)
    requires forall i: nat :: i < |s| ==> s[i]
    ensures FreeCount(s) == |s|
  {
    if s != [] {
      AllFree(s[..|s| - 1]);
    }
  }

  lemma {:induction false} NoneInFlight(s: seq<Option<Rq>>)
    requires forall i: nat :: i < |s| ==> s[i].None?
    ensures InFlight(s) == 0
  {
    if s != [] {
      NoneInFlight(s[..|s| - 1]);
    }
  }

  lemma ChainIs(d: Dev, g: Track, h: nat)
    requires Inv(d, g) && h < NUM && g.rq[h].Some?
    ensures var r := g.rq[h].value;
            && |d.free| == |d.desc| == |d.info| == |g.own| == |g.rq| == NUM && r.mid < NUM && r.last < NUM
            && r.b < |d.bufs| == |g.busy|
            && h != r.mid && h != r.last && r.mid != r.last && !d.free[h] && !d.free[r.mid] && !d.free[r.last]
            && d.desc[h].more && d.desc[h].next == r.mid && d.desc[r.mid].more && d.desc[r.mid].next == r.last
            && !d.desc[r.last].more
  {
    var r := g.rq[h].value;
    assert RqOk(d, g, h);
    assert DescOk(d, g, h) && DescOk(d, g, r.mid) && DescOk(d, g, r.last);
  }

  lemma InfoIs(d: Dev, g: Track, h: nat)
    requires Inv(d, g) && h < NUM && d.info[h].b.Some?
    ensures g.rq[h].Some? && d.info[h].b == Some(g.rq[h].value.b) && d.info[h].b.value < |d.bufs|
    ensures (!d.bufs[d.info[h].b.value].disk ==> g.rq[h].value.phase == Finished)
  {
    assert RqOk(d, g, h);
  }

  lemma NotBusy(g: Track, b: nat)
    requires b < |g.busy| && g.busy[b].None?
    ensures Outstanding(g, b).None?
  {
  }

  lemma WorkingIs(d: Dev, g: Track, h: nat)
    requires Inv(d, g) && h < NUM && h in d.working
    ensures g.rq[h].Some? && d.info[h].b == Some(g.rq[h].value.b) && g.rq[h].value.b < |d.bufs|
    ensures d.bufs[g.rq[h].value.b].blockno < |d.store|
    ensures Outstanding(g, g.rq[h].value.b).Some? && Outstanding(g, g.rq[h].value.b).value.Waiting?
  {
    assert RqOk(d, g, h);
  }

  lemma FinishedIs(d: Dev, g: Track, h: nat)
    requires Inv(d, g) && h < NUM && g.rq[h].Some? && g.rq[h].value.phase == Finished
    ensures g.rq[h].value.b < |d.bufs| && Outstanding(g, g.rq[h].value.b) == Some(Acked)
  {
    assert RqOk(d, g, h);
  }

  /** The event of each step, from the driver's and device's own data. */
  ghost predicate Causes(op: Op, d: Dev, ev: Event) {
    match op
    case Own(b, blockno, data) => ev == if b < |d.bufs| && Idle(d, b) && blockno < |d.store| then Fill(b, blockno, data)
      else Quiet
    case Submit(b, write) => ev == if b < |d.bufs| && Idle(d, b) && FreeCount(d.free) >= 3 then Queue(b, write)
      else Quiet
    case Take => ev == Quiet
    case Complete(h) =>
      if h < NUM && h in d.working then h < |d.info| && d.info[h].b.Some? && ev == Move(d.info[h].b.value)
        else ev == Quiet
    case Interrupt => ev == Report
    case Finish(h) =>
      if h < NUM && h < |d.info| && d.info[h].b.Some? && d.info[h].b.value < |d.bufs| && !d.bufs[d.info[h].b.value].disk
      then ev == Close(d.info[h].b.value) else ev == Quiet
  }

  /** The owner of an idle buffer may change it as it likes. */
  lemma FilledOk(d: Dev, g: Track, b: nat, blockno: nat, data: seq<int>)
    requires Inv(d, g) && b < |d.bufs| && g.busy[b].None? && blockno < |d.store|
    ensures var d' := d.(bufs := d.bufs[b := d.bufs[b].(blockno := blockno, data := data)]);
            && Inv(d', g)
            && AbsOf(d', g) ==
                 AbsOf(d, g).(data := AbsOf(d, g).data[b := data], block := AbsOf(d, g).block[b := blockno])
  {
    var d' := d.(bufs := d.bufs[b := d.bufs[b].(blockno := blockno, data := data)]);
    forall i: nat | i < NUM
      ensures DescOk(d', g, i) && RqOk(d', g, i)
    {
      assert DescOk(d, g, i) && RqOk(d, g, i);
    }
    forall k: nat | k < |d'.bufs|
      ensures BufOk(d', g, k)
    {
      assert BufOk(d, g, k);
    }
  }

  /** The view after virtio_disk_init: the blocks as given, and every buffer empty and idle. */
  function Fresh(blocknos: seq<nat>, store: seq<seq<int>>): Abs {
    Abs(store, seq(|blocknos|, _ => []), blocknos, seq(|blocknos|, _ => None))
  }

  /** Exactly once, for every buffer that was idle at the start. */
  ghost predicate Once(a: Abs, evs: seq<Event>, a': Abs) {
    forall b: nat :: b < |a.out| && a.out[b].None? ==>
      Moves(evs, b) + IsWaiting(a', b) == Queues(evs, b) && Closes(evs, b) + IsOut(a', b) == Queues(evs, b)
  }

  lemma AllOnce(a: Abs, evs: seq<Event>)
    requires Legal(a, evs)
    ensures Once(a, evs, After(a, evs))
  {
    hide Legal, After, Moves, Queues, Closes, IsWaiting, IsOut;
    forall b: nat | b < |a.out| && a.out[b].None?
      ensures Moves(evs, b) + IsWaiting(After(a, evs), b) == Queues(evs, b)
      ensures Closes(evs, b) + IsOut(After(a, evs), b) == Queues(evs, b)
    {
      ExactlyOnce(a, evs, b);
    }
  }

  class Driver {
    var d: Dev
    ghost var g: Track

    /** alloc_desc: the first free descriptor. */
    method AllocDesc() returns (i: int)
      requires |d.free| == NUM
      modifies `d
      ensures i < 0 ==> d == old(d) && forall j: nat :: j < NUM ==> !d.free[j]
      ensures i >= 0 ==>
                && i < NUM && old(d).free[i] && (forall j: nat :: j < i ==> !old(d).free[j])
                && d == old(d).(free := old(d).free[i := false])
    {
      i := 0;
      while i < NUM
        invariant 0 <= i <= NUM && d == old(d) && forall j: nat :: j < i ==> !d.free[j]
      {
        if d.free[i] {
          d := d.(free := d.free[i := false]);
          return;
        }
        i := i + 1;
      }
      i := -1;
    }

    /** free_desc, whose two panics are ruled out by its callers. */
    method FreeDesc(i: nat)
      requires |d.free| == |d.desc| == NUM && i < NUM && !d.free[i]
      modifies `d
      ensures d == old(d).(desc := old(d).desc[i := CLEAR], free := old(d).free[i := true])
    {
      d := d.(desc := d.desc[i := CLEAR]);
      d := d.(free := d.free[i := true]);
    }

    /** alloc3_desc: three descriptors, or none at all when fewer than three are free. */
    method Alloc3Desc() returns (ok: bool, idx: seq<nat>)
      requires |d.free| == |d.desc| == NUM && forall i: nat :: i < NUM && d.free[i] ==> d.desc[i] == CLEAR
      modifies `d
      ensures ok <==> FreeCount(old(d).free) >= 3
      ensures !ok ==> d == old(d)
      ensures ok ==> |idx| == 3 && Distinct(idx) && (forall k: nat :: k < 3 ==> idx[k] < NUM && old(d).free[idx[k]])
      ensures ok ==> d == old(d).(free := old(d).free[idx[0] := false][idx[1] := false][idx[2] := false])
    {
      hide FreeCount, Marked;
      ghost var free := d.free;
      idx := [];
      assert Marked(free, []) == free;
      while |idx| < 3
        invariant |idx| <= 3 && Distinct(idx) && forall k: nat :: k < |idx| ==> idx[k] < NUM && free[idx[k]]
        invariant d == old(d).(free := Marked(free, idx)) && free == old(d).free
        decreases 3 - |idx|
      {
        MarkedCount(free, idx);
        var i := AllocDesc();
        if i < 0 {
          NoneFree(d.free);
          Rollback(idx, free);
          return false, idx;
        }
        MarkMore(free, idx, i);
        idx := idx + [i];
      }
      MarkedCount(free, idx);
      MarkThree(free, idx);
      ok := true;
    }

    /** The inner loop of alloc3_desc gives back what was taken. */
    method Rollback(idx: seq<nat>, ghost free: seq<bool>)
      requires |d.free| == |d.desc| == |free| == NUM && Distinct(idx)
      requires forall k: nat :: k < |idx| ==> idx[k] < NUM && free[idx[k]]
      requires d.free == Marked(free, idx) && forall i: nat :: i < NUM && free[i] ==> d.desc[i] == CLEAR
      modifies `d
      ensures d == old(d).(free := free)
    {
      var j := 0;
      assert idx[0..] == idx;
      while j < |idx|
        invariant 0 <= j <= |idx| && d == old(d).(free := Marked(free, idx[j..]))
      {
        Unmarked(free, idx, j);
        FreeDesc(idx[j]);
        assert d.desc == old(d).desc;
        j := j + 1;
      }
    }

    /** virtio_disk_init: all descriptors free, rings empty. */
    constructor (blocknos: seq<nat>, store: seq<seq<int>>)
      requires |store| <= 0x8000_0000 && forall b: nat :: b < |blocknos| ==> blocknos[b] < |store|
      ensures Inv(d, g) && Balanced(d, g) && AbsOf(d, g) == Fresh(blocknos, store)
      ensures d.free == seq(NUM, _ => true) && d.availIdx == d.taken == d.usedIdx == d.usedSeen == 0 && d.working == {}
    {
      d := Dev(seq(NUM, _ => true), seq(NUM, _ => CLEAR), seq(NUM, _ => Req(false, 0)), seq(NUM, _ => Info(None, 0)),
               seq(NUM, _ => 0), 0, seq(NUM, _ => 0), 0, 0,
               seq(|blocknos|, b requires 0 <= b < |blocknos| => Buf(false, blocknos[b], [])), 0, {}, store);
      g := Track(seq(NUM, _ => None), seq(NUM, _ => None), seq(|blocknos|, _ => None), [], [], 0, 0);
      new;
      AllFree(d.free);
      NoneInFlight(g.rq);
    }

    /** The first half of virtio_disk_rw: the request is queued, or has to wait for descriptors. */
    method Submit(b: nat, write: bool) returns (ok: bool)
      requires Inv(d, g) && Balanced(d, g) && b < |d.bufs| && g.busy[b].None?
      modifies this
      ensures Inv(d, g) && Balanced(d, g) && |d.bufs| == |old(d).bufs|
      ensures ok <==> FreeCount(old(d).free) >= 3
      ensures !ok ==> d == old(d) && g == old(g)
      ensures ok ==> AbsOf(d, g) == Submitted(AbsOf(old(d), old(g)), b, write)
    {
      hide FreeCount, InFlight, RqOk, BufOk, RingsOk, AbsOf, Slot, Wrap, Sector;
      ClearWhenFree(d, g);
      var idx;
      ok, idx := Alloc3Desc();
      if !ok {
        return;
      }
      var h, m, t := idx[0], idx[1], idx[2];
      assert CanQueue(old(d), g, b, h, m, t);
      QueuedOk(old(d), g, b, write, h, m, t);
      QueuedAbs(old(d), g, b, write, h, m, t);
      QueuedBalance(old(d), g, b, write, h, m, t);
      hide Inv, DescOk, CanQueue, Balanced;
      d := d.(ops := d.ops[h := Req(write, Sector(d.bufs[b].blockno))]);
      d := d.(desc := d.desc[h := Desc(Header(h), 16, false, true, m)]);
      d := d.(desc := d.desc[m := Desc(BufData(b), 1024, !write, true, t)]);
      d := d.(info := d.info[h := d.info[h].(status := 0xff)]);
      d := d.(desc := d.desc[t := Desc(Status(h), 1, true, false, 0)]);
      d := d.(bufs := d.bufs[b := d.bufs[b].(disk := true)]);
      d := d.(info := d.info[h := d.info[h].(b := Some(b))]);
      d := d.(avail := d.avail[Slot(d.availIdx) := h]);
      d := d.(availIdx := Wrap(d.availIdx + 1));
      assert d == Queued(old(d), b, write, h, m, t);
      g := QueuedTrack(g, b, write, h, m, t);
    }

    /** The device takes the next chain, if the index says there is one. */
    method DeviceTake()
      requires Inv(d, g) && Balanced(d, g)
      modifies this
      ensures Inv(d, g) && Balanced(d, g) && |d.bufs| == |old(d).bufs| && AbsOf(d, g) == AbsOf(old(d), old(g))
      ensures if old(d).taken == old(d).availIdx then d == old(d) else |old(d).avail| == NUM && d == TakenDev(old(d))
    {
      hide RqOk, BufOk, DescOk, AbsOf, Slot, Wrap, FreeCount, InFlight, Ring;
      if d.taken != d.availIdx {
        assert g.pend != [];
        TakenOk(d, g);
        TakenAbs(d, g);
        MovedBalance(d, g, g.pend[0], TakenDev(d), TakenTrack(g), Taken);
        d := d.(taken := Wrap(d.taken + 1), working := d.working + {d.avail[Slot(d.taken)]});
        g := TakenTrack(g);
      }
    }

    /** The device completes one of the chains it is working on: it moves the data of that request,
        and of no other, writes the status and puts the head in the used ring. */
    method DeviceComplete(h: nat)
      requires Inv(d, g) && Balanced(d, g) && h in d.working && h < NUM
      modifies this
      ensures Inv(d, g) && Balanced(d, g) && |d.bufs| == |old(d).bufs|
      ensures old(g).rq[h].Some? && old(g).rq[h].value.b < |old(d).bufs|
      ensures old(d).bufs[old(g).rq[h].value.b].blockno < |old(d).store|
      ensures AbsOf(d, g) == Serve(AbsOf(old(d), old(g)), old(g).rq[h].value.b)
    {
      assert RqOk(d, g, h);
      hide BufOk, DescOk, AbsOf, Slot, Wrap, FreeCount, InFlight, Ring, RqOk;
      TransferIs(d, g, h);
      ServedOk(d, g, h);
      ServedAbs(d, g, h);
      MovedBalance(d, g, h, ServedDev(d, h), ServedTrack(g, h), Done);
      d := ServedDev(d, h);
      g := ServedTrack(g, h);
    }

    /** virtio_disk_intr: every completion in the used ring is reported to its own buffer, once. */
    method Interrupt()
      requires Inv(d, g) && Balanced(d, g)
      modifies this
      ensures Inv(d, g) && Balanced(d, g) && |d.bufs| == |old(d).bufs| && d.usedSeen == d.usedIdx
      ensures AbsOf(d, g) == Acknowledge(AbsOf(old(d), old(g)))
    {
      hide Inv, Balanced, Slot, Wrap, Ring, Outstanding;
      Unseen(d, g);
      while d.usedSeen != d.usedIdx
        invariant Inv(d, g) && Balanced(d, g) && SomeAcked(AbsOf(old(d), old(g)), AbsOf(d, g))
        invariant |d.bufs| == |old(d).bufs|
        invariant |d.used| == |d.info| == |g.rq| == NUM && (d.usedSeen != d.usedIdx <==> g.done != [])
        decreases |g.done|
      {
        Completion(d, g);
        var id := d.used[Slot(d.usedSeen)];
        if d.info[id].status != 0 {
          assert false;
        }
        var b := d.info[id].b.value;
        AckedOk(d, g);
        AckedAbs(d, g, AbsOf(old(d), old(g)));
        MovedBalance(d, g, id, AckedDev(d, b), AckedTrack(g), Finished);
        d := d.(bufs := d.bufs[b := d.bufs[b].(disk := false)]);
        d := d.(usedSeen := Wrap(d.usedSeen + 1));
        g := AckedTrack(g);
        Unseen(d, g);
      }
      AllAcked(d, g, AbsOf(old(d), old(g)));
    }

    /** free_chain along the flags and next fields. */
    method FreeChain(h: nat, ghost m: nat, ghost t: nat)
      requires |d.free| == |d.desc| == |d.info| == NUM && h < NUM && m < NUM && t < NUM && h != m && h != t && m != t
      requires !d.free[h] && !d.free[m] && !d.free[t]
      requires d.desc[h].more && d.desc[h].next == m && d.desc[m].more && d.desc[m].next == t && !d.desc[t].more
      modifies `d
      ensures d == old(d).(desc := old(d).desc[h := CLEAR][m := CLEAR][t := CLEAR],
                           free := old(d).free[h := true][m := true][t := true])
    {
      var i := h;
      ghost var k := 0;
      while true
        invariant 0 <= k <= 2 && i == (if k == 0 then h else if k == 1 then m else t)
        invariant k == 0 ==> d == old(d)
        invariant k == 1 ==> d == old(d).(desc := old(d).desc[h := CLEAR], free := old(d).free[h := true])
        invariant k == 2 ==>
                    d == old(d).(desc := old(d).desc[h := CLEAR][m := CLEAR], free := old(d).free[h := true][m := true])
        decreases 3 - k
      {
        var more, nxt := d.desc[i].more, d.desc[i].next;
        FreeDesc(i);
        if more {
          i, k := nxt, k + 1;
        } else {
          break;
        }
      }
    }

    /** The end of virtio_disk_rw, once the buffer's flag is clear. */
    method Finish(h: nat)
      requires Inv(d, g) && Balanced(d, g) && h < NUM && g.rq[h].Some? && g.rq[h].value.phase == Finished
      modifies this
      ensures Inv(d, g) && Balanced(d, g) && |d.bufs| == |old(d).bufs| && old(g).rq[h].value.b < |old(d).bufs|
      ensures AbsOf(d, g) == Release(AbsOf(old(d), old(g)), old(g).rq[h].value.b)
    {
      ghost var r := g.rq[h].value;
      ChainIs(d, g, h);
      FreedOk(d, g, h);
      FreedAbs(d, g, h);
      FreedBalance(d, g, h);
      hide Inv, Balanced, AbsOf;
      d := d.(info := d.info[h := d.info[h].(b := None)]);
      FreeChain(h, r.mid, r.last);
      assert d == FreedDev(old(d), h, r.mid, r.last);
      g := FreedTrack(g, h, r.mid, r.last, r.b);
    }

    /** The owner of an idle buffer changes its block number or its data. */
    method Own(b: nat, blockno: nat, data: seq<int>)
      requires Inv(d, g) && Balanced(d, g) && b < |d.bufs| && g.busy[b].None? && blockno < |d.store|
      modifies `d
      ensures Inv(d, g) && Balanced(d, g) && |d.bufs| == |old(d).bufs|
      ensures AbsOf(d, g)
              == AbsOf(old(d), g).(data := AbsOf(old(d), g).data[b := data],
                block := AbsOf(old(d), g).block[b := blockno])
    {
      hide Inv, AbsOf;
      FilledOk(d, g, b, blockno, data);
      d := d.(bufs := d.bufs[b := d.bufs[b].(blockno := blockno, data := data)]);
    }

    /** One step of the driver or the device, when it applies. */
    method Exec(op: Op) returns (ghost ev: Event)
      requires Inv(d, g) && Balanced(d, g)
      modifies this
      ensures Inv(d, g) && Balanced(d, g) && |d.bufs| == |old(d).bufs|
      ensures Enabled(AbsOf(old(d), old(g)), ev) && AbsOf(d, g) == Apply(AbsOf(old(d), old(g)), ev)
      ensures Causes(op, old(d), ev)
    {
      ClearWhenFree(d, g);
      hide Inv, Balanced, FreeCount, Outstanding;
      ev := Quiet;
      match op
      case Own(b, blockno, data) =>
        if b < |d.bufs| && Idle(d, b) && blockno < |d.store| {
          IdleIs(d, g, b);
          NotBusy(g, b);
          Own(b, blockno, data);
          ev := Fill(b, blockno, data);
        }
      case Submit(b, write) =>
        if b < |d.bufs| && Idle(d, b) {
          IdleIs(d, g, b);
          NotBusy(g, b);
          var ok := Submit(b, write);
          ev := if ok then Queue(b, write) else Quiet;
        }
      case Take => DeviceTake();
      case Complete(h) =>
        if h < NUM && h in d.working {
          WorkingIs(d, g, h);
          ev := Move(g.rq[h].value.b);
          DeviceComplete(h);
        }
      case Interrupt =>
        Interrupt();
        ev := Report;
      case Finish(h) =>
        if h < NUM && d.info[h].b.Some? {
          InfoIs(d, g, h);
          if !d.bufs[d.info[h].b.value].disk {
            ev := Close(g.rq[h].value.b);
            FinishedIs(d, g, h);
            Finish(h);
          }
        }
    }

    /** Every interleaving of requests, completions in any order and interrupts keeps the invariant, and
        its callers see a run of the simple disk. */
    method Run(ops: seq<Op>) returns (ghost evs: seq<Event>, ghost devs: seq<Dev>)
      requires Inv(d, g) && Balanced(d, g)
      modifies this
      ensures Inv(d, g) && Balanced(d, g) && Legal(AbsOf(old(d), old(g)), evs)
      ensures AbsOf(d, g) == After(AbsOf(old(d), old(g)), evs)
      ensures Once(AbsOf(old(d), old(g)), evs, AbsOf(d, g))
      ensures |evs| == |ops| && |devs| == |ops| + 1 && devs[0] == old(d) && devs[|ops|] == d
      ensures forall i: nat :: i < |ops| ==> Causes(ops[i], devs[i], evs[i])
    {
      hide Inv, Balanced, AbsOf, Enabled, Apply, Causes, Once;
      evs, devs := [], [d];
      ghost var a := AbsOf(d, g);
      for i := 0 to |ops|
        invariant Inv(d, g) && Balanced(d, g) && Legal(a, evs) && AbsOf(d, g) == After(a, evs)
        invariant |evs| == i && |devs| == i + 1 && devs[0] == old(d) && devs[i] == d
        invariant forall j: nat :: j < i ==> Causes(ops[j], devs[j], evs[j])
      {
        ghost var ev := Exec(ops[i]);
        OneMore(a, evs, ev);
        evs, devs := evs + [ev], devs + [d];
      }
      AllOnce(a, evs);
    }
  }

  /** From initialisation: each request of each buffer moves its data once and is reported once, and the
      blocks and buffers are what the events make of the disk as it was. */
  method InitAndRun(blocknos: seq<nat>, store: seq<seq<int>>, ops: seq<Op>)
    returns (v: Driver, ghost evs: seq<Event>, ghost devs: seq<Dev>)
    requires |store| <= 0x8000_0000 && forall b: nat :: b < |blocknos| ==> blocknos[b] < |store|
    ensures Inv(v.d, v.g) && |evs| == |ops| && Legal(Fresh(blocknos, store), evs)
    ensures AbsOf(v.d, v.g) == After(Fresh(blocknos, store), evs)
    ensures forall b: nat :: b < |blocknos| ==>
              && Moves(evs, b) + IsWaiting(AbsOf(v.d, v.g), b) == Queues(evs, b)
              && Closes(evs, b) + IsOut(AbsOf(v.d, v.g), b) == Queues(evs, b)
    ensures |devs| == |ops| + 1 && devs[|ops|] == v.d && devs[0].free == seq(NUM, _ => true) && devs[0].working == {}
    ensures forall i: nat :: i < |ops| ==> Causes(ops[i], devs[i], evs[i])
  {
    hide Inv, AbsOf, Moves, Closes, Queues, IsWaiting, IsOut, Legal, After, Causes;
    v := new Driver(blocknos, store);
    evs, devs := v.Run(ops);
    assert forall b: nat :: b < |blocknos| ==> Fresh(blocknos, store).out[b].None?;
  }
}
