/** kernel/log.c as it runs: the in-memory log state over the buffer cache. */
module Log {
  import opened Basics
  import opened Blocks
  import opened DiskLog
  import opened BufferCache

  /** The in-memory header is sane: distinct blocks of the data region, pinned exactly while logged. */
  ghost predicate HeadOk(start: nat, lh: seq<Uint>, abs: Abs) {
    && start + LOGBLOCKS < |abs.store| && start + LOGBLOCKS < UINT_LIMIT
    && |lh| <= LOGBLOCKS
    && Distinct(lh)
    && (forall i: nat :: i < |lh| ==> lh[i] < |abs.store| && !InLog(start, lh[i]) && lh[i] in abs.pinned)
    && (forall b :: b in abs.pinned ==> b < UINT_LIMIT && b in lh)
  }

  /** Nobody else holds a buffer of the log area or of a block in lh. */
  ghost predicate Free(start: nat, lh: seq<Uint>, held: set<nat>) {
    && (forall b: nat :: InLog(start, b) ==> b !in held)
    && (forall i: nat :: i < |lh| ==> lh[i] !in held)
  }

  /** The contents the logged blocks have for their readers. */
  ghost function Pending(lh: seq<Uint>, store: Disk): map<Uint, Block>
    requires forall i: nat :: i < |lh| ==> lh[i] < |store|
  {
    map b: Uint | b in lh :: store[b]
  }

  /** One round of write_log: copy a logged home block from the cache into a log block. */
  method CopyBlock(bc: Cache, log: nat, home: nat)
    requires RingOk(bc.next, bc.prev, bc.ring) && BufsOk(bc.buf, bc.disk, bc.abs)
    requires log < |bc.disk| && home < |bc.abs.store| == |bc.disk|
    requires home in bc.abs.pinned && log !in bc.abs.pinned
    requires log !in bc.abs.held && home !in bc.abs.held && Idle(bc.buf) > 0
    modifies bc
    ensures RingOk(bc.next, bc.prev, bc.ring) && BufsOk(bc.buf, bc.disk, bc.abs) && Idle(bc.buf) == old(Idle(bc.buf))
    ensures Refs(bc.buf) == old(Refs(bc.buf))
    ensures var w := Write(log, old(bc.abs).store[home]);
            && bc.disk == Put(old(bc.disk), w)
            && log < |old(bc.abs).store|
            && bc.abs == old(bc.abs).(store := old(bc.abs).store[log := w.data], writes := old(bc.abs).writes + [w])
  {
    hide RingOk, BufsOk, Put, Idle, Refs, Locked;
    NotLocked(bc.buf, bc.disk, bc.abs, log);
    var to, _ := bc.Bread(ROOTDEV, log);
    PinnedCached(bc.buf, bc.disk, bc.abs, home);
    NotLocked(bc.buf, bc.disk, bc.abs, home);
    var from, _ := bc.Bread(ROOTDEV, home);
    bc.SetData(to, bc.buf[from].data);
    bc.Bwrite(to);
    bc.Brelse(from);
    bc.Brelse(to);
    assert bc.abs.held == old(bc.abs).held;
  }

  /** One round of install_trans: copy a log block to its home block and write it out; when not
      recovering, drop the pin log_write took. */
  method InstallBlock(bc: Cache, log: nat, home: nat, recovering: bool)
    requires RingOk(bc.next, bc.prev, bc.ring) && BufsOk(bc.buf, bc.disk, bc.abs)
    requires log < |bc.disk| && home < |bc.abs.store| == |bc.disk| && log != home
    requires log !in bc.abs.pinned && log !in bc.abs.held && home !in bc.abs.held
    requires if recovering then home !in bc.abs.pinned && Idle(bc.buf) > 1
        else home in bc.abs.pinned && Idle(bc.buf) > 0
    modifies bc
    ensures RingOk(bc.next, bc.prev, bc.ring) && BufsOk(bc.buf, bc.disk, bc.abs) && Idle(bc.buf) >= old(Idle(bc.buf))
    ensures Refs(bc.buf) == old(Refs(bc.buf)) - if recovering then 0 else 1
    ensures var w := Write(home, old(bc.disk)[log]);
            && bc.disk == Put(old(bc.disk), w)
            && bc.abs == old(bc.abs).(store := old(bc.abs).store[home := w.data],
                                      pinned := old(bc.abs).pinned - {home},
                                      writes := old(bc.abs).writes + [w])
  {
    hide RingOk, BufsOk, Put, Idle, Refs, Locked;
    CleanBlock(bc.buf, bc.disk, bc.abs, log);
    NotLocked(bc.buf, bc.disk, bc.abs, log);
    var lbuf, _ := bc.Bread(ROOTDEV, log);
    if !recovering {
      PinnedCached(bc.buf, bc.disk, bc.abs, home);
    }
    NotLocked(bc.buf, bc.disk, bc.abs, home);
    var dbuf, _ := bc.Bread(ROOTDEV, home);
    bc.SetData(dbuf, bc.buf[lbuf].data);
    bc.Bwrite(dbuf);
    PutOther(old(bc.disk), Write(home, bc.buf[dbuf].data), log);
    if !recovering {
      bc.Bunpin(dbuf);
    }
    bc.Brelse(lbuf);
    bc.Brelse(dbuf);
    assert bc.abs.held == old(bc.abs).held;
    assert recovering ==> old(bc.abs).pinned - {home} == old(bc.abs).pinned;
  }

  ghost predicate CanInstall(start: nat, lh: seq<Uint>, recovering: bool, d: Disk, abs: Abs) {
    && start + LOGBLOCKS < |d| == |abs.store| && |lh| <= LOGBLOCKS
    && (forall i: nat :: i < |lh| ==> lh[i] < |d| && !InLog(start, lh[i]))
    && Free(start, lh, abs.held)
    && if recovering then abs.pinned == map[] else HeadOk(start, lh, abs)
  }

  /** install_trans has done tail of its rounds, from disk d0 and state abs0. */
  ghost predicate Installing(start: nat, lh: seq<Uint>, recovering: bool, d0: Disk, abs0: Abs, tail: nat, d: Disk,
                             abs: Abs) {
    && CanInstall(start, lh, recovering, d0, abs0) && tail <= |lh|
    && (forall b: nat :: InLog(start, b) ==> b < |d| && d[b] == d0[b])
    && (forall b :: b in abs.pinned ==> b in abs0.pinned && b !in lh[..tail])
    && (!recovering ==> forall i: nat :: tail <= i < |lh| ==> lh[i] in abs.pinned)
    && abs.held == abs0.held && |d| == |d0| == |abs.store|
    && var ws := Installs(start, d0, lh);
       Applied(d0, ws, tail, d) && Applied(abs0.store, ws, tail, abs.store) && Traced(abs0.writes, ws, tail, abs.writes)
  }

  lemma InstallStart(start: nat, lh: seq<Uint>, recovering: bool, d: Disk, abs: Abs)
    requires CanInstall(start, lh, recovering, d, abs)
    ensures Installing(start, lh, recovering, d, abs, 0, d, abs)
  {
  }

  lemma InstallHere(start: nat, lh: seq<Uint>, recovering: bool, d0: Disk, abs0: Abs, tail: nat, d: Disk, abs: Abs)
    requires Installing(start, lh, recovering, d0, abs0, tail, d, abs) && tail < |lh|
    ensures start + tail + 1 < |d| && lh[tail] < |abs.store| == |d| && start + tail + 1 != lh[tail]
    ensures start + tail + 1 !in abs.pinned && start + tail + 1 !in abs.held && lh[tail] !in abs.held
    ensures lh[tail] in abs.pinned <==> !recovering
  {
  }

  lemma InstallNext(start: nat, lh: seq<Uint>, recovering: bool, d0: Disk, abs0: Abs, tail: nat, d: Disk, abs: Abs)
    requires Installing(start, lh, recovering, d0, abs0, tail, d, abs) && tail < |lh|
    ensures start + tail + 1 < |d| && lh[tail] < |abs.store| == |d| && start + tail + 1 != lh[tail]
    ensures start + tail + 1 !in abs.pinned && start + tail + 1 !in abs.held && lh[tail] !in abs.held
    ensures lh[tail] in abs.pinned <==> !recovering
    ensures var w := Write(lh[tail], d[start + tail + 1]);
            Installing(start, lh, recovering, d0, abs0, tail + 1, Put(d, w),
                       abs.(store := abs.store[lh[tail] := w.data], pinned := abs.pinned - {lh[tail] as nat},
                         writes := abs.writes + [w]))
  {
    hide Applied, Traced, Apply, Installs;
    InstallHere(start, lh, recovering, d0, abs0, tail, d, abs);
    var ws := Installs(start, d0, lh);
    var w := Write(lh[tail], d[start + tail + 1]);
    assert ws[tail] == w;
    assert lh[..tail + 1] == lh[..tail] + [lh[tail]];
    AppliedMore(d0, ws, tail, d);
    AppliedMore(abs0.store, ws, tail, abs.store);
    TracedMore(abs0.writes, ws, tail, abs.writes);
    PutKeepsLog(start, d, w);
    PutIs(abs.store, w);
  }

  lemma InstallEnd(start: nat, lh: seq<Uint>, recovering: bool, d0: Disk, abs0: Abs, d: Disk, abs: Abs)
    requires Installing(start, lh, recovering, d0, abs0, |lh|, d, abs)
    ensures var ws := Installs(start, d0, lh);
            d == Apply(d0, ws) && abs == Abs(Apply(abs0.store, ws), abs0.held, map[], abs0.writes + ws)
  {
    hide Apply, Installs, Applied, Traced;
    var ws := Installs(start, d0, lh);
    AppliedAll(d0, ws, d);
    AppliedAll(abs0.store, ws, abs.store);
    TracedAll(abs0.writes, ws, abs.writes);
    assert lh[..|lh|] == lh;
    assert abs.pinned.Keys == {};
  }

  lemma LogOfIsInstalls(start: nat, d: Disk, lh: seq<Uint>)
    requires Wf(start, d) && |lh| == HeadCount(d[start])
    requires forall i: nat :: i < |lh| ==> lh[i] == HeadDst(d[start], i)
    ensures Installs(start, d, lh) == LogOf(start, d)
    ensures CanInstall(start, lh, true, d, Abs(d, {}, map[], []))
  {
  }

  lemma InstallKeepsHead(start: nat, d: Disk)
    requires Wf(start, d)
    ensures Apply(d, LogOf(start, d))[start] == d[start]
  {
    LogOfHome(start, d);
    InstallKeepsLog(start, d, LogOf(start, d));
  }

  lemma ApplyThen(d: Disk, ws: seq<Write>, w: Write)
    ensures Apply(d, ws + [w]) == Put(Apply(d, ws), w)
  {
  }

  lemma GroupHome(start: nat, lh: seq<Uint>, store: Disk, abs: Abs)
    requires HeadOk(start, lh, abs) && store == abs.store
    ensures HomeWrites(start, |store|, GroupOf(lh, Pending(lh, store)))
  {
  }

  lemma EmptyCommit(start: nat, d: Disk)
    requires start < |d|
    ensures CommitWrites(start, d, []) == [] && Apply(d, []) == d
  {
  }

  /** write_head after write_log produces the committed disk, whose installs are the group. */
  lemma CommitHeader(start: nat, d: Disk, lh: seq<Uint>, group: seq<Write>)
    requires start + LOGBLOCKS < |d| && start + LOGBLOCKS < UINT_LIMIT
    requires |lh| == |group| <= LOGBLOCKS && HomeWrites(start, |d|, group)
    requires forall i: nat :: i < |lh| ==> lh[i] == group[i].bno
    ensures var e := Apply(d, LogCopies(start, group));
            e[start] == d[start] && Put(e, Write(start, HeadBlock(e[start], lh))) == Committed(start, d, group)
    ensures Installs(start, Committed(start, d, group), lh) == group
    ensures Apply(Committed(start, d, group), group)[start] == HeadBlock(d[start], lh)
  {
    hide HeadBlock, Word;
    HeaderCommits(start, d, group);
    ApplyOutside(d, LogCopies(start, group), start);
    ApplyOutside(Committed(start, d, group), group, start);
    assert Dsts(group) == lh;
  }

  lemma CommitTrace(start: nat, d: Disk, group: seq<Write>)
    requires start < |d| && group != [] && |group| <= LOGBLOCKS
    requires forall w :: w in group ==> w.bno < UINT_LIMIT
    ensures var head := HeadBlock(d[start], Dsts(group));
            CommitWrites(start, d, group) ==
              LogCopies(start, group) + [Write(start, head)] + group + [Write(start, HeadBlock(head, []))]
    ensures 2 * |group| + 2 == |CommitWrites(start, d, group)|
    ensures CutDisk(start, d, group, 2 * |group| + 2) == Apply(d, CommitWrites(start, d, group))
  {
    hide HeadBlock, Apply;
    CommitLength(start, d, group);
    var ws := CommitWrites(start, d, group);
    assert ws[..|ws|] == ws;
  }

  lemma StoreChain(start: nat, store: Disk, s: Disk, x: Block, group: seq<Write>, y: Block)
    requires SameData(start, s, store) && start < |s| && Apply(store, group) == store
    ensures SameData(start, Apply(s[start := x], group)[start := y], store)
  {
    SameDataApply(start, s[start := x], store, group);
  }

  lemma TraceChain(tr: seq<Write>, copies: seq<Write>, w: Write, group: seq<Write>, v: Write)
    ensures (((tr + copies) + [w]) + group) + [v] == tr + (copies + [w] + group + [v])
  {
  }

  lemma IsPinned(start: nat, lh: seq<Uint>, abs: Abs, i: nat)
    requires HeadOk(start, lh, abs) && i < |lh|
    ensures lh[i] in abs.pinned
  {
  }

  lemma HeadAdd(start: nat, lh: seq<Uint>, abs: Abs, bno: Uint, r: nat)
    requires HeadOk(start, lh, abs) && bno !in lh && |lh| < LOGBLOCKS && bno < |abs.store| && !InLog(start, bno)
    ensures bno !in abs.pinned
    ensures HeadOk(start, lh + [bno], abs.(pinned := abs.pinned[bno := r]))
  {
  }

  // ----- how many buffers a commit needs -----

  function PinCount(x: Buf, pinned: map<nat, nat>): nat { if x.dev == ROOTDEV && x.blockno in pinned then 1 else 0 }

  /** Nobody references a buffer except through a pin. */
  ghost predicate Quiet(buf: seq<Buf>, pinned: map<nat, nat>) {
    forall i: nat :: i < |buf| ==> buf[i].refcnt == PinCount(buf[i], pinned)
  }

  ghost function PinnedBelow(pinned: map<nat, nat>, k: nat): set<nat> {
    set b | b in pinned && pinned[b] < k
  }

  /** Buffer k is the one that pins its block, if that is pinned. */
  lemma PinnedAt(buf: seq<Buf>, disk: Disk, abs: Abs, k: nat)
    requires BufsOk(buf, disk, abs) && k < |buf|
    ensures buf[k].refcnt >= PinCount(buf[k], abs.pinned)
    ensures forall b :: b in abs.pinned ==> (abs.pinned[b] == k <==> buf[k].dev == ROOTDEV && buf[k].blockno == b)
  {
    hide LocksAre, Backs;
    assert CleanBuf(buf[k], disk, abs.pinned);
  }

  lemma PinnedNext(buf: seq<Buf>, disk: Disk, abs: Abs, k: nat)
    requires BufsOk(buf, disk, abs) && k < |buf|
    ensures |PinnedBelow(abs.pinned, k + 1)| == |PinnedBelow(abs.pinned, k)| + PinCount(buf[k], abs.pinned)
    ensures buf[k].refcnt >= PinCount(buf[k], abs.pinned)
  {
    hide BufsOk;
    PinnedAt(buf, disk, abs, k);
    var x := buf[k];
    if x.dev == ROOTDEV && x.blockno in abs.pinned {
      assert PinnedBelow(abs.pinned, k + 1) == PinnedBelow(abs.pinned, k) + {x.blockno};
    } else {
      assert PinnedBelow(abs.pinned, k + 1) == PinnedBelow(abs.pinned, k);
    }
  }

  lemma {:induction false} QuietIdle(buf: seq<Buf>, disk: Disk, abs: Abs, k: nat)
    requires BufsOk(buf, disk, abs) && Quiet(buf, abs.pinned) && k <= |buf|
    ensures Idle(buf[..k]) == k - |PinnedBelow(abs.pinned, k)|
  {
    hide BufsOk;
    if k == 0 {
      assert PinnedBelow(abs.pinned, k) == {};
    } else {
      QuietIdle(buf, disk, abs, k - 1);
      PinnedNext(buf, disk, abs, k - 1);
      assert buf[..k][..k - 1] == buf[..k - 1] && buf[..k][k - 1] == buf[k - 1];
    }
  }

  lemma {:induction false} DistinctCount(lh: seq<Uint>, k: nat)
    requires k <= |lh| && Distinct(lh)
    ensures |set i: nat | i < k :: lh[i] as nat| == k
  {
    var s := set i: nat | i < k :: lh[i] as nat;
    if k == 0 {
      assert s == {};
    } else {
      DistinctCount(lh, k - 1);
      assert s == (set i: nat | i < k - 1 :: lh[i] as nat) + {lh[k - 1] as nat};
    }
  }

  /** With the cache otherwise quiet, commit can get a buffer for the log blocks exactly when fewer
      than NBUF blocks are logged; LOGBLOCKS == NBUF, so a full log starves its own commit. */
  lemma CommitNeedsABuffer(start: nat, lh: seq<Uint>, buf: seq<Buf>, disk: Disk, abs: Abs)
    requires BufsOk(buf, disk, abs) && HeadOk(start, lh, abs) && Quiet(buf, abs.pinned)
    ensures Idle(buf) == NBUF - |lh|
    ensures Idle(buf) > 0 <==> |lh| < LOGBLOCKS
  {
    QuietIdle(buf, disk, abs, NBUF);
    DistinctCount(lh, |lh|);
    assert buf[..NBUF] == buf;
    assert PinnedBelow(abs.pinned, NBUF) == abs.pinned.Keys == (set i: nat | i < |lh| :: lh[i] as nat);
  }

  lemma {:induction false} RefsAtLeast(buf: seq<Buf>, disk: Disk, abs: Abs, k: nat)
    requires BufsOk(buf, disk, abs) && k <= |buf|
    ensures Refs(buf[..k]) >= |PinnedBelow(abs.pinned, k)|
    ensures Refs(buf[..k]) == |PinnedBelow(abs.pinned, k)| ==>
              forall i: nat :: i < k ==> buf[i].refcnt == PinCount(buf[i], abs.pinned)
  {
    hide BufsOk, PinnedBelow, PinCount;
    if k == 0 {
      NothingBelow(abs.pinned);
    } else {
      RefsAtLeast(buf, disk, abs, k - 1);
      PinnedNext(buf, disk, abs, k - 1);
      assert buf[..k][..k - 1] == buf[..k - 1] && buf[..k][k - 1] == buf[k - 1];
    }
  }

  lemma NothingBelow(pinned: map<nat, nat>)
    ensures PinnedBelow(pinned, 0) == {}
  {
  }

  /** A cache with no more references than pins is quiet. */
  lemma QuietByCount(buf: seq<Buf>, disk: Disk, abs: Abs)
    requires BufsOk(buf, disk, abs) && Refs(buf) == |abs.pinned|
    ensures Quiet(buf, abs.pinned)
  {
    RefsAtLeast(buf, disk, abs, |buf|);
    assert buf[..|buf|] == buf;
    assert PinnedBelow(abs.pinned, |buf|) == abs.pinned.Keys;
  }

  /** Between system calls: no buffer is locked, and only logged blocks are referenced. */
  ghost predicate Calm(next: seq<nat>, prev: seq<nat>, ring: Ring, buf: seq<Buf>, disk: Disk, abs: Abs) {
    RingOk(next, prev, ring) && BufsOk(buf, disk, abs) && abs.held == {} && Refs(buf) == |abs.pinned|
  }

  /** Every block that is not logged leaves a buffer idle. */
  lemma CalmIdle(start: nat, lh: seq<Uint>, next: seq<nat>, prev: seq<nat>, ring: Ring, buf: seq<Buf>, disk: Disk,
                 abs: Abs)
    requires Calm(next, prev, ring, buf, disk, abs) && HeadOk(start, lh, abs)
    ensures Idle(buf) == NBUF - |lh| && Quiet(buf, abs.pinned) && |disk| == |abs.store|
  {
    QuietByCount(buf, disk, abs);
    CommitNeedsABuffer(start, lh, buf, disk, abs);
  }

  /** From boot: three operations, as many as begin_op admits, log MAXOPBLOCKS blocks each.  The cache is
      quiet again, every buffer is pinned, and the last end_op would find none for its commit. */
  method LogStarvesCommit(d: Disk, start: nat) returns (lg: Logger)
    requires Wf(start, d) && start + 2 * LOGBLOCKS + 1 <= |d| && start + 2 * LOGBLOCKS + 1 < UINT_LIMIT
    ensures lg.start == start && lg.outstanding == 3 && lg.n == LOGBLOCKS == |lg.block| && !lg.committing
    ensures BufsOk(lg.bc.buf, lg.bc.disk, lg.bc.abs) && HeadOk(start, lg.block[..lg.n], lg.bc.abs)
    ensures Quiet(lg.bc.buf, lg.bc.abs.pinned) && Idle(lg.bc.buf) == 0
  {
    hide Calm, HeadOk, Idle, Refs, Quiet, BufsOk, RingOk, Apply, RecoveryWrites, Wf;
    var bc := new Cache(d);
    lg := new Logger(bc, start);
    lg.RecoverFromLog();
    CalmBoot(bc.next, bc.prev, bc.ring, bc.buf, bc.disk, bc.abs);
    var a1 := lg.BeginOp();
    var a2 := lg.BeginOp();
    var a3 := lg.BeginOp();
    HeadNone(start, bc.abs);
    assert lg.block[..0] == [];
    var i := 0;
    while i < LOGBLOCKS
      invariant 0 <= i <= LOGBLOCKS && lg.bc == bc && lg.start == start && lg.outstanding == 3 && !lg.committing
      invariant Calm(bc.next, bc.prev, bc.ring, bc.buf, bc.disk, bc.abs) && |bc.disk| == |d|
      invariant lg.n == i && |lg.block| == LOGBLOCKS && HeadOk(start, lg.block[..i], bc.abs)
      invariant forall j: nat :: j < i ==> lg.block[..i][j] == start + LOGBLOCKS + 1 + j
    {
      ghost var lh := lg.block[..i];
      lg.Modify(start + LOGBLOCKS + 1 + i, Zero());
      assert lg.block[..lg.n] == lh + [(start + LOGBLOCKS + 1 + i) as Uint];
      i := i + 1;
    }
    CalmIdle(start, lg.block[..lg.n], bc.next, bc.prev, bc.ring, bc.buf, bc.disk, bc.abs);
    CalmIs(bc.next, bc.prev, bc.ring, bc.buf, bc.disk, bc.abs);
  }

  lemma CalmBoot(next: seq<nat>, prev: seq<nat>, ring: Ring, buf: seq<Buf>, disk: Disk, abs: Abs)
    requires RingOk(next, prev, ring) && BufsOk(buf, disk, abs) && abs.held == {}
    requires abs.pinned == map[] && Refs(buf) == 0
    ensures Calm(next, prev, ring, buf, disk, abs) && |disk| == |abs.store|
  {
  }

  lemma CalmAgain(next: seq<nat>, prev: seq<nat>, ring: Ring, buf: seq<Buf>, disk: Disk, abs: Abs)
    requires RingOk(next, prev, ring) && BufsOk(buf, disk, abs) && abs.held == {} && Refs(buf) == |abs.pinned|
    ensures Calm(next, prev, ring, buf, disk, abs)
  {
  }

  lemma CalmIs(next: seq<nat>, prev: seq<nat>, ring: Ring, buf: seq<Buf>, disk: Disk, abs: Abs)
    requires Calm(next, prev, ring, buf, disk, abs)
    ensures RingOk(next, prev, ring) && BufsOk(buf, disk, abs) && abs.held == {} && Refs(buf) == |abs.pinned|
    ensures |disk| == |abs.store|
  {
  }

  lemma HeadNone(start: nat, abs: Abs)
    requires abs.pinned == map[] && start + LOGBLOCKS < |abs.store| && start + LOGBLOCKS < UINT_LIMIT
    ensures HeadOk(start, [], abs)
  {
  }

  /** The header does not depend on the contents of blocks, on who holds them, or on past writes. */
  lemma HeadSame(start: nat, lh: seq<Uint>, abs: Abs, abs': Abs)
    requires HeadOk(start, lh, abs) && |abs'.store| == |abs.store| && abs'.pinned == abs.pinned
    ensures HeadOk(start, lh, abs')
  {
  }

  class Logger {
    const bc: Cache
    const start: nat
    var n: nat
    var block: seq<Uint>
    var outstanding: nat
    var committing: bool

    constructor (bc: Cache, start: nat)
      ensures n == 0 && |block| == LOGBLOCKS && outstanding == 0 && !committing && this.bc == bc && this.start == start
    {
      this.bc, this.start := bc, start;
      n, block := 0, seq(LOGBLOCKS, _ => 0);
      outstanding, committing := 0, false;
    }

    /** write_log: copy every logged block from the cache to the log area. */
    method WriteLog()
      requires RingOk(bc.next, bc.prev, bc.ring) && BufsOk(bc.buf, bc.disk, bc.abs) && |bc.disk| == |bc.abs.store|
      requires n <= |block| && HeadOk(start, block[..n], bc.abs) && Free(start, block[..n], bc.abs.held)
      requires Idle(bc.buf) > 0
      modifies bc
      ensures RingOk(bc.next, bc.prev, bc.ring) && BufsOk(bc.buf, bc.disk, bc.abs) && Idle(bc.buf) == old(Idle(bc.buf))
      ensures HeadOk(start, block[..n], old(bc.abs)) && |bc.abs.store| == |bc.disk| && Refs(bc.buf) == old(Refs(bc.buf))
      ensures var ws := LogCopies(start, GroupOf(block[..n], Pending(block[..n], old(bc.abs).store)));
              bc.disk == Apply(old(bc.disk), ws) && bc.abs.writes == old(bc.abs).writes + ws
      ensures SameData(start, bc.abs.store, old(bc.abs).store)
      ensures bc.abs.held == old(bc.abs).held && bc.abs.pinned == old(bc.abs).pinned
    {
      hide RingOk, BufsOk, Put, Idle, Refs, LogCopies, GroupOf, Apply, Applied, Traced;
      ghost var lh := block[..n];
      ghost var group := GroupOf(lh, Pending(lh, bc.abs.store));
      ghost var ws := LogCopies(start, group);
      CopiesLength(start, group);
      TracedNone(bc.abs.writes, ws);
      AppliedNone(bc.disk, ws);
      var tail := 0;
      while tail < n
        invariant tail <= n
        invariant RingOk(bc.next, bc.prev, bc.ring) && BufsOk(bc.buf, bc.disk, bc.abs)
        invariant Idle(bc.buf) == old(Idle(bc.buf))
        invariant |bc.disk| == |old(bc.disk)| && SameData(start, bc.abs.store, old(bc.abs).store)
        invariant Refs(bc.buf) == old(Refs(bc.buf))
        invariant bc.abs.held == old(bc.abs).held && bc.abs.pinned == old(bc.abs).pinned
        invariant Applied(old(bc.disk), ws, tail, bc.disk) && Traced(old(bc.abs).writes, ws, tail, bc.abs.writes)
      {
        assert lh[tail] == block[tail];
        GroupAt(lh, Pending(lh, old(bc.abs).store), tail);
        CopiesAt(start, group, tail);
        AppliedMore(old(bc.disk), ws, tail, bc.disk);
        TracedMore(old(bc.abs).writes, ws, tail, bc.abs.writes);
        CopyBlock(bc, start + tail + 1, block[tail]);
        tail := tail + 1;
      }
      AppliedAll(old(bc.disk), ws, bc.disk);
      TracedAll(old(bc.abs).writes, ws, bc.abs.writes);
    }

    /** write_head: store the count and the destinations over the header block and write it out. */
    method WriteHead()
      requires RingOk(bc.next, bc.prev, bc.ring) && BufsOk(bc.buf, bc.disk, bc.abs) && |bc.disk| == |bc.abs.store|
      requires n <= |block| && n <= LOGBLOCKS && start < |bc.disk|
      requires start !in bc.abs.held && start !in bc.abs.pinned && Idle(bc.buf) > 0
      modifies bc
      ensures RingOk(bc.next, bc.prev, bc.ring) && BufsOk(bc.buf, bc.disk, bc.abs) && Idle(bc.buf) == old(Idle(bc.buf))
      ensures Refs(bc.buf) == old(Refs(bc.buf))
      ensures var w := Write(start, HeadBlock(old(bc.disk)[start], block[..n]));
              && bc.disk == Put(old(bc.disk), w)
              && bc.abs == old(bc.abs).(store := old(bc.abs).store[start := w.data], writes := old(bc.abs).writes + [w])
    {
      hide RingOk, BufsOk, Put, Idle, Refs, Locked, Word, SetWord;
      CleanBlock(bc.buf, bc.disk, bc.abs, start);
      NotLocked(bc.buf, bc.disk, bc.abs, start);
      var b, _ := bc.Bread(ROOTDEV, start);
      var hb := SetWord(bc.buf[b].data, 0, n);
      var i := 0;
      while i < n
        invariant i <= n
        invariant hb == HeadFill(old(bc.disk)[start], block[..n], i)
      {
        hb := SetWord(hb, 1 + i, block[i]);
        i := i + 1;
      }
      bc.SetData(b, hb);
      bc.Bwrite(b);
      bc.Brelse(b);
      assert bc.abs.held == old(bc.abs).held;
    }

    /** read_head: load the header block into memory. */
    method ReadHead()
      requires RingOk(bc.next, bc.prev, bc.ring) && BufsOk(bc.buf, bc.disk, bc.abs) && |bc.disk| == |bc.abs.store|
      requires |block| == LOGBLOCKS && start < |bc.disk| && HeadCount(bc.disk[start]) <= LOGBLOCKS
      requires start !in bc.abs.held && start !in bc.abs.pinned && Idle(bc.buf) > 0
      modifies bc, this`n, this`block
      ensures RingOk(bc.next, bc.prev, bc.ring) && BufsOk(bc.buf, bc.disk, bc.abs) && Idle(bc.buf) == old(Idle(bc.buf))
      ensures bc.disk == old(bc.disk) && bc.abs == old(bc.abs) && Refs(bc.buf) == old(Refs(bc.buf))
      ensures |block| == LOGBLOCKS && n == HeadCount(bc.disk[start])
      ensures forall i: nat :: i < n ==> block[i] == HeadDst(bc.disk[start], i)
    {
      hide RingOk, BufsOk, Put, Idle, Refs, Locked, Word;
      CleanBlock(bc.buf, bc.disk, bc.abs, start);
      NotLocked(bc.buf, bc.disk, bc.abs, start);
      var b, _ := bc.Bread(ROOTDEV, start);
      var hb := bc.buf[b].data;
      n := HeadCount(hb);
      var i := 0;
      while i < n
        invariant i <= n && |block| == LOGBLOCKS && n == HeadCount(hb)
        invariant forall j: nat :: j < i ==> block[j] == HeadDst(hb, j)
        modifies this`block
      {
        block := block[i := HeadDst(hb, i)];
        i := i + 1;
      }
      bc.Brelse(b);
      assert bc.abs.held == old(bc.abs).held;
    }

    /** install_trans: copy every log block to its home. */
    method InstallTrans(recovering: bool)
      requires RingOk(bc.next, bc.prev, bc.ring) && BufsOk(bc.buf, bc.disk, bc.abs)
      requires n <= |block| && CanInstall(start, block[..n], recovering, bc.disk, bc.abs)
      requires Idle(bc.buf) > if recovering then 1 else 0
      modifies bc
      ensures RingOk(bc.next, bc.prev, bc.ring) && BufsOk(bc.buf, bc.disk, bc.abs) && Idle(bc.buf) >= old(Idle(bc.buf))
      ensures Refs(bc.buf) == old(Refs(bc.buf)) - if recovering then 0 else n
      ensures var ws := Installs(start, old(bc.disk), block[..n]);
              && bc.disk == Apply(old(bc.disk), ws)
              && bc.abs == Abs(Apply(old(bc.abs).store, ws), old(bc.abs).held, map[], old(bc.abs).writes + ws)
    {
      hide RingOk, BufsOk, Idle, Refs, Put, Apply, Installs, Installing, CanInstall, Free;
      ghost var lh, d, abs := block[..n], bc.disk, bc.abs;
      InstallStart(start, lh, recovering, d, abs);
      var tail := 0;
      while tail < n
        invariant tail <= n
        invariant RingOk(bc.next, bc.prev, bc.ring) && BufsOk(bc.buf, bc.disk, bc.abs)
        invariant Idle(bc.buf) >= old(Idle(bc.buf))
        invariant Installing(start, lh, recovering, d, abs, tail, bc.disk, bc.abs)
        invariant Refs(bc.buf) == old(Refs(bc.buf)) - if recovering then 0 else tail
      {
        InstallNext(start, lh, recovering, d, abs, tail, bc.disk, bc.abs);
        InstallBlock(bc, start + tail + 1, block[tail], recovering);
        tail := tail + 1;
      }
      InstallEnd(start, lh, recovering, d, abs, bc.disk, bc.abs);
    }

    /** recover_from_log: install whatever the header on disk says was committed, then erase it. */
    method RecoverFromLog()
      requires RingOk(bc.next, bc.prev, bc.ring) && BufsOk(bc.buf, bc.disk, bc.abs) && |bc.disk| == |bc.abs.store|
      requires Wf(start, bc.disk) && |block| == LOGBLOCKS
      requires bc.abs.pinned == map[] && bc.abs.held == {} && Idle(bc.buf) > 1
      modifies bc, this`n, this`block
      ensures RingOk(bc.next, bc.prev, bc.ring) && BufsOk(bc.buf, bc.disk, bc.abs)
      ensures n == 0
      ensures bc.abs.pinned == map[] && bc.abs.held == {} && |block| == LOGBLOCKS && Refs(bc.buf) == old(Refs(bc.buf))
      ensures var ws := RecoveryWrites(start, old(bc.disk));
              bc.disk == Apply(old(bc.disk), ws) && bc.abs.writes == old(bc.abs).writes + ws
    {
      hide RingOk, BufsOk, Idle, Refs, Put, Apply, Installs, HeadBlock, Word, LogOf;
      ReadHead();
      ghost var d := bc.disk;
      LogOfIsInstalls(start, d, block[..n]);
      InstallTrans(true);
      n := 0;
      InstallKeepsHead(start, d);
      WriteHead();
      assert block[..0] == [];
      ApplyThen(d, LogOf(start, d), Write(start, HeadBlock(d[start], [])));
    }

    /** commit: the block writes are exactly CommitWrites of the logged blocks' contents, the pins
        are dropped, and outside the log area no reader's contents change. */
    method Commit()
      requires RingOk(bc.next, bc.prev, bc.ring) && BufsOk(bc.buf, bc.disk, bc.abs) && |bc.disk| == |bc.abs.store|
      requires n <= |block| && HeadOk(start, block[..n], bc.abs) && Free(start, block[..n], bc.abs.held)
      requires n > 0 ==> Idle(bc.buf) > 0
      modifies bc, this`n
      ensures RingOk(bc.next, bc.prev, bc.ring) && BufsOk(bc.buf, bc.disk, bc.abs)
      ensures n == 0
      ensures bc.abs.pinned == map[] && bc.abs.held == old(bc.abs).held && Refs(bc.buf) == old(Refs(bc.buf)) - old(n)
      ensures HeadOk(start, old(block[..n]), old(bc.abs))
      ensures var lh := old(block[..n]);
              var ws := CommitWrites(start, old(bc.disk), GroupOf(lh, Pending(lh, old(bc.abs).store)));
              bc.disk == Apply(old(bc.disk), ws) && bc.abs.writes == old(bc.abs).writes + ws
      ensures SameData(start, bc.abs.store, old(bc.abs).store)
    {
      hide RingOk, BufsOk, Idle, Refs, Put, Apply, Installs, HeadBlock, Word, GroupOf, LogCopies, CommitWrites,
           CutDisk, Committed;
      ghost var lh, d, store := block[..n], bc.disk, bc.abs.store;
      ghost var group := GroupOf(lh, Pending(lh, store));
      GroupHome(start, lh, store, bc.abs);
      if n > 0 {
        WriteLog();
        CommitHeader(start, d, lh, group);
        ghost var s := bc.abs.store;
        WriteHead();
        InstallTrans(false);
        n := 0;
        CommitErased(start, d, group);
        WriteHead();
        assert block[..0] == [];
        CommitTrace(start, d, group);
        InstallOwn(lh, Pending(lh, store), store);
        ghost var head := HeadBlock(d[start], Dsts(group));
        assert Dsts(group) == lh;
        StoreChain(start, store, s, head, group, HeadBlock(head, []));
        TraceChain(old(bc.abs).writes, LogCopies(start, group), Write(start, head), group,
          Write(start, HeadBlock(head, [])));
      } else {
        EmptyCommit(start, d);
        assert lh == [] && group == [];
        assert bc.abs.pinned.Keys == {};
      }
    }

    /** log_write: absorb the block or add it to the header and pin it. */
    method LogWrite(b: nat)
      requires BufsOk(bc.buf, bc.disk, bc.abs) && b < |bc.buf| && Holding(bc.buf, b, bc.buf[b].blockno)
      requires |block| == LOGBLOCKS && n < LOGBLOCKS && outstanding >= 1
      requires HeadOk(start, block[..n], bc.abs)
      requires bc.buf[b].blockno < UINT_LIMIT && !InLog(start, bc.buf[b].blockno)
      modifies bc`buf, bc`abs, this`n, this`block
      ensures BufsOk(bc.buf, bc.disk, bc.abs) && |block| == LOGBLOCKS && n <= LOGBLOCKS && |bc.buf| == |old(bc.buf)|
      ensures block[..n] == Absorb(old(block[..n]), old(bc.buf)[b].blockno)
      ensures HeadOk(start, block[..n], bc.abs)
      ensures bc.abs.store == old(bc.abs).store && bc.abs.writes == old(bc.abs).writes
      ensures bc.abs.held == old(bc.abs).held
      ensures bc.buf == old(bc.buf)[b := bc.buf[b]] && bc.buf[b] == old(bc.buf)[b].(refcnt := bc.buf[b].refcnt)
      ensures var more := n - old(n);
              && 0 <= more <= 1 && bc.buf[b].refcnt == old(bc.buf)[b].refcnt + more
              && Refs(bc.buf) == old(Refs(bc.buf)) + more
              && Idle(bc.buf) == old(Idle(bc.buf)) && bc.buf[b].blockno in bc.abs.pinned
              && |bc.abs.pinned| == |old(bc.abs).pinned| + more
    {
      hide BufsOk, HeadOk, Idle, Refs;
      var bno := bc.buf[b].blockno;
      HoldingFacts(bc.buf, bc.disk, bc.abs, b, bno);
      ghost var lh := block[..n];
      var i := 0;
      while i < n && block[i] != bno
        invariant i <= n && |lh| == n
        invariant forall j: nat :: j < i ==> lh[j] != bno
      {
        i := i + 1;
      }
      block := block[i := bno];
      if i == n {
        HeadAdd(start, lh, bc.abs, bno, b);
        assert bc.abs.pinned[bno as nat := b].Keys == bc.abs.pinned.Keys + {bno as nat};
        bc.Bpin(b);
        n := n + 1;
        assert block[..n] == lh + [bno];
      } else {
        assert lh[i] == bno && block[..n] == lh;
        IsPinned(start, lh, bc.abs, i);
      }
    }

    /** The use log_write is meant for: bread, a change to the data, log_write, brelse. */
    method Modify(bno: Uint, data: Block)
      requires Calm(bc.next, bc.prev, bc.ring, bc.buf, bc.disk, bc.abs)
      requires |block| == LOGBLOCKS && n < LOGBLOCKS && outstanding >= 1 && HeadOk(start, block[..n], bc.abs)
      requires bno < |bc.disk| && !InLog(start, bno)
      modifies bc, this`n, this`block
      ensures Calm(bc.next, bc.prev, bc.ring, bc.buf, bc.disk, bc.abs) && bc.disk == old(bc.disk)
      ensures bc.abs.writes == old(bc.abs).writes
      ensures bno < |old(bc.abs).store| && bc.abs.store == old(bc.abs).store[bno := data]
      ensures |block| == LOGBLOCKS && n <= LOGBLOCKS && HeadOk(start, block[..n], bc.abs)
      ensures block[..n] == Absorb(old(block[..n]), bno)
    {
      hide RingOk, BufsOk, Idle, Refs, Locked, Quiet, HeadOk, Cached;
      ghost var lh, abs0 := block[..n], bc.abs;
      CalmIdle(start, lh, bc.next, bc.prev, bc.ring, bc.buf, bc.disk, bc.abs);
      NotLocked(bc.buf, bc.disk, bc.abs, bno);
      var b, _ := bc.Bread(ROOTDEV, bno);
      bc.SetData(b, data);
      HeadSame(start, lh, abs0, bc.abs);
      LogWrite(b);
      ghost var abs1 := bc.abs;
      bc.Brelse(b);
      assert bc.abs.held == {};
      HeadSame(start, block[..n], abs1, bc.abs);
    }

    /** A block as its readers see it: bread, brelse. */
    method Read(bno: nat) returns (data: Block)
      requires Calm(bc.next, bc.prev, bc.ring, bc.buf, bc.disk, bc.abs) && n <= |block|
      requires HeadOk(start, block[..n], bc.abs)
      requires bno < |bc.disk| && (bno in bc.abs.pinned || n < LOGBLOCKS)
      modifies bc
      ensures Calm(bc.next, bc.prev, bc.ring, bc.buf, bc.disk, bc.abs) && bc.disk == old(bc.disk)
      ensures bc.abs == old(bc.abs)
      ensures bno < |bc.abs.store| && data == bc.abs.store[bno]
    {
      hide RingOk, BufsOk, Idle, Refs, Locked, Quiet, HeadOk, Cached;
      CalmIdle(start, block[..n], bc.next, bc.prev, bc.ring, bc.buf, bc.disk, bc.abs);
      NotLocked(bc.buf, bc.disk, bc.abs, bno);
      if bno in bc.abs.pinned {
        PinnedCached(bc.buf, bc.disk, bc.abs, bno);
      } else {
        CleanBlock(bc.buf, bc.disk, bc.abs, bno);
      }
      var b, _ := bc.Bread(ROOTDEV, bno);
      data := bc.buf[b].data;
      bc.Brelse(b);
      assert bc.abs.held == {};
    }

    /** begin_op, one round of its loop: admitted, or told to sleep. */
    method BeginOp() returns (admitted: bool)
      modifies this`outstanding
      ensures admitted <==> !committing && Fits(n, old(outstanding))
      ensures admitted <==> !committing && n + 10 * old(outstanding) + 10 <= 30
      ensures outstanding == old(outstanding) + if admitted then 1 else 0
    {
      if committing {
        admitted := false;
      } else if n + (outstanding + 1) * MAXOPBLOCKS > LOGBLOCKS {
        admitted := false;
      } else {
        outstanding := outstanding + 1;
        admitted := true;
      }
    }

    /** end_op: the last outstanding operation commits the whole group; the others just leave. */
    method EndOp() returns (commits: bool)
      requires RingOk(bc.next, bc.prev, bc.ring) && BufsOk(bc.buf, bc.disk, bc.abs) && |bc.disk| == |bc.abs.store|
      requires outstanding >= 1 && !committing
      requires n <= |block| && HeadOk(start, block[..n], bc.abs)
      requires outstanding == 1 ==> Free(start, block[..n], bc.abs.held) && (n > 0 ==> Idle(bc.buf) > 0)
      modifies bc, this`n, this`outstanding, this`committing
      ensures RingOk(bc.next, bc.prev, bc.ring) && BufsOk(bc.buf, bc.disk, bc.abs)
      ensures outstanding == old(outstanding) - 1 && !committing && commits == (outstanding == 0)
      ensures !commits ==>
                n == old(n) && bc.disk == old(bc.disk) && bc.abs == old(bc.abs) && Refs(bc.buf) == old(Refs(bc.buf))
      ensures HeadOk(start, old(block[..n]), old(bc.abs))
      ensures commits ==>
                var lh := old(block[..n]);
                var ws := CommitWrites(start, old(bc.disk), GroupOf(lh, Pending(lh, old(bc.abs).store)));
                && n == 0 && bc.abs.pinned == map[] && bc.abs.held == old(bc.abs).held &&
                     Refs(bc.buf) == old(Refs(bc.buf)) - old(n)
                && bc.disk == Apply(old(bc.disk), ws) && bc.abs.writes == old(bc.abs).writes + ws
                && SameData(start, bc.abs.store, old(bc.abs).store)
    {
      hide RingOk, BufsOk, Idle, Refs, Apply, GroupOf, CommitWrites, HeadOk;
      outstanding := outstanding - 1;
      commits := outstanding == 0;
      if commits {
        committing := true;
        Commit();
        committing := false;
      }
    }
  }
}
