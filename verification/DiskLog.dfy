/** The on-disk redo log of kernel/log.c and what a crash can do to it.

    A disk is an array of blocks and one block write is atomic.  The log occupies the
    header block `start` and the LOGBLOCKS blocks after it; the rest is the data region. */
module DiskLog {
  import opened Basics
  import opened Blocks

  const LOGBLOCKS: nat := MAXOPBLOCKS * 3

  type Disk = seq<Block>
  datatype Write = Write(bno: nat, data: Block)

  // ----- sequences of block writes -----

  function Put(d: Disk, w: Write): (r: Disk)
    ensures |r| == |d|
  {
    if w.bno < |d| then d[w.bno := w.data] else d
  }

  /** The disk after the writes, in order. */
  function Apply(d: Disk, ws: seq<Write>): (r: Disk)
    ensures |r| == |d|
  {
    if ws == [] then d else Put(Apply(d, ws[..|ws| - 1]), ws[|ws| - 1])
  }

  lemma PutOther(d: Disk, w: Write, b: nat)
    requires b < |d| && w.bno != b
    ensures Put(d, w)[b] == d[b]
  {
  }

  lemma PutIs(d: Disk, w: Write)
    requires w.bno < |d|
    ensures Put(d, w) == d[w.bno := w.data]
  {
  }

  lemma PutKeepsLog(start: nat, d: Disk, w: Write)
    requires start + LOGBLOCKS < |d| && !InLog(start, w.bno)
    ensures forall b: nat :: InLog(start, b) ==> Put(d, w)[b] == d[b]
  {
  }

  /** d' is d after the first k of the planned writes. */
  ghost predicate Applied(d: Disk, plan: seq<Write>, k: nat, d': Disk) {
    k <= |plan| && d' == Apply(d, plan[..k])
  }

  lemma AppliedNone(d: Disk, plan: seq<Write>)
    ensures Applied(d, plan, 0, d)
  {
  }

  lemma AppliedMore(d: Disk, plan: seq<Write>, k: nat, d': Disk)
    requires Applied(d, plan, k, d') && k < |plan|
    ensures Applied(d, plan, k + 1, Put(d', plan[k]))
  {
    assert plan[..k + 1][..k] == plan[..k];
  }

  lemma AppliedAll(d: Disk, plan: seq<Write>, d': Disk)
    requires Applied(d, plan, |plan|, d')
    ensures d' == Apply(d, plan)
  {
    assert plan[..|plan|] == plan;
  }

  /** The recorded trace has grown by the first k planned writes. */
  ghost predicate Traced(trace: seq<Write>, plan: seq<Write>, k: nat, trace': seq<Write>) {
    k <= |plan| && trace' == trace + plan[..k]
  }

  lemma TracedMore(trace: seq<Write>, plan: seq<Write>, k: nat, trace': seq<Write>)
    requires Traced(trace, plan, k, trace') && k < |plan|
    ensures Traced(trace, plan, k + 1, trace' + [plan[k]])
  {
  }

  lemma TracedNone(trace: seq<Write>, plan: seq<Write>)
    ensures Traced(trace, plan, 0, trace)
  {
  }

  lemma TracedAll(trace: seq<Write>, plan: seq<Write>, trace': seq<Write>)
    requires Traced(trace, plan, |plan|, trace')
    ensures trace' == trace + plan
  {
  }

  /** What the writes leave in block b, if they touch it at all. */
  function Final(ws: seq<Write>, b: nat): Option<Block> {
    if ws == [] then None
    else if ws[|ws| - 1].bno == b then Some(ws[|ws| - 1].data)
    else Final(ws[..|ws| - 1], b)
  }

  lemma {:induction false} ApplyAt(d: Disk, ws: seq<Write>, b: nat)
    requires b < |d|
    ensures Apply(d, ws)[b] == match Final(ws, b) case Some(x) => x case None => d[b]
  {
    if ws != [] {
      ApplyAt(d, ws[..|ws| - 1], b);
    }
  }

  lemma {:induction false} ApplyConcat(d: Disk, a: seq<Write>, b: seq<Write>)
    ensures Apply(d, a + b) == Apply(Apply(d, a), b)
  {
    if b == [] {
      assert a + b == a;
    } else {
      assert (a + b)[..|a + b| - 1] == a + b[..|b| - 1];
      ApplyConcat(d, a, b[..|b| - 1]);
    }
  }

  lemma {:induction false} FinalConcat(a: seq<Write>, b: seq<Write>, x: nat)
    ensures Final(a + b, x) == if Final(b, x).Some? then Final(b, x) else Final(a, x)
  {
    if b == [] {
      assert a + b == a;
    } else {
      assert (a + b)[..|a + b| - 1] == a + b[..|b| - 1];
      FinalConcat(a, b[..|b| - 1], x);
    }
  }

  lemma {:induction false} FinalNone(ws: seq<Write>, b: nat)
    ensures Final(ws, b).None? <==> forall w :: w in ws ==> w.bno != b
  {
    if ws != [] {
      FinalNone(ws[..|ws| - 1], b);
      assert ws == ws[..|ws| - 1] + [ws[|ws| - 1]];
    }
  }

  lemma ApplyOutside(d: Disk, ws: seq<Write>, b: nat)
    requires b < |d| && forall w :: w in ws ==> w.bno != b
    ensures Apply(d, ws)[b] == d[b]
  {
  }

  /** Redo is idempotent: starting over after any prefix ends in the same disk. */
  lemma Redo(d: Disk, ws: seq<Write>, k: nat)
    requires k <= |ws|
    ensures Apply(Apply(d, ws[..k]), ws) == Apply(d, ws)
  {
    var part := Apply(d, ws[..k]);
    forall b: nat | b < |d|
      ensures Apply(part, ws)[b] == Apply(d, ws)[b]
    {
      ApplyAt(part, ws, b);
      ApplyAt(d, ws, b);
      ApplyAt(d, ws[..k], b);
      FinalNone(ws, b);
      FinalNone(ws[..k], b);
    }
  }

  // ----- the log area -----

  predicate InLog(start: nat, b: nat) {
    start <= b <= start + LOGBLOCKS
  }

  /** Equal data regions: the two disks differ at most inside the log area. */
  ghost predicate SameData(start: nat, d: Disk, e: Disk) {
    |d| == |e| && forall b: nat :: b < |d| && !InLog(start, b) ==> d[b] == e[b]
  }

  ghost predicate HomeWrites(start: nat, size: nat, ws: seq<Write>) {
    forall w :: w in ws ==> w.bno < size && w.bno < UINT_LIMIT && !InLog(start, w.bno)
  }

  lemma SameDataTrans(start: nat, a: Disk, b: Disk, c: Disk)
    requires SameData(start, a, b) && SameData(start, b, c)
    ensures SameData(start, a, c)
  {
  }

  lemma SameDataApply(start: nat, d: Disk, e: Disk, ws: seq<Write>)
    requires SameData(start, d, e)
    ensures SameData(start, Apply(d, ws), Apply(e, ws))
  {
  }

  lemma LogWritesKeepData(start: nat, d: Disk, ws: seq<Write>)
    requires forall w :: w in ws ==> InLog(start, w.bno)
    ensures SameData(start, Apply(d, ws), d)
  {
  }

  // ----- the header block -----

  function HeadCount(h: Block): Uint { Word(h, 0) }

  function HeadDst(h: Block, i: nat): Uint
    requires i < LOGBLOCKS
  {
    Word(h, 1 + i)
  }

  /** The header block after the count and the first k destinations have been stored into it. */
  function HeadFill(h: Block, dsts: seq<Uint>, k: nat): (r: Block)
    requires k <= |dsts| <= LOGBLOCKS
    ensures HeadCount(r) == |dsts|
    ensures forall i: nat :: i < k ==> HeadDst(r, i) == dsts[i]
  {
    if k == 0 then SetWord(h, 0, |dsts|) else SetWord(HeadFill(h, dsts, k - 1), k, dsts[k - 1])
  }

  function HeadBlock(h: Block, dsts: seq<Uint>): (r: Block)
    requires |dsts| <= LOGBLOCKS
    ensures HeadCount(r) == |dsts|
    ensures forall i: nat :: i < |dsts| ==> HeadDst(r, i) == dsts[i]
  {
    HeadFill(h, dsts, |dsts|)
  }

  /** A disk recovery can read: the header fits and names only blocks of the data region. */
  ghost predicate Wf(start: nat, d: Disk) {
    && start + LOGBLOCKS < |d|
    && start + LOGBLOCKS < UINT_LIMIT
    && HeadCount(d[start]) <= LOGBLOCKS
    && forall i: nat :: i < HeadCount(d[start]) ==>
         HeadDst(d[start], i) < |d| && !InLog(start, HeadDst(d[start], i))
  }

  /** The installs recorded on disk: log block i goes to the i-th destination. */
  function LogOf(start: nat, d: Disk): (ws: seq<Write>)
    requires start + LOGBLOCKS < |d| && HeadCount(d[start]) <= LOGBLOCKS
  {
    seq(HeadCount(d[start]), i requires 0 <= i < LOGBLOCKS => Write(HeadDst(d[start], i), d[start + 1 + i]))
  }

  /** The installs for a header held in memory: log block i goes to lh[i]. */
  function Installs(start: nat, d: Disk, lh: seq<Uint>): (ws: seq<Write>)
    requires start + LOGBLOCKS < |d| && |lh| <= LOGBLOCKS
    ensures |ws| == |lh| && forall i: nat :: i < |lh| ==> ws[i] == Write(lh[i], d[start + 1 + i])
  {
    seq(|lh|, i requires 0 <= i < |lh| => Write(lh[i], d[start + 1 + i]))
  }

  /** The data a completed recovery of d would leave. */
  function Recovered(start: nat, d: Disk): Disk
    requires start + LOGBLOCKS < |d| && HeadCount(d[start]) <= LOGBLOCKS
  {
    Apply(d, LogOf(start, d))
  }

  /** Every block write of recover_from_log, in order. */
  function RecoveryWrites(start: nat, d: Disk): seq<Write>
    requires start + LOGBLOCKS < |d| && HeadCount(d[start]) <= LOGBLOCKS
  {
    LogOf(start, d) + [Write(start, HeadBlock(d[start], []))]
  }

  function Dsts(group: seq<Write>): (r: seq<Uint>)
    requires forall w :: w in group ==> w.bno < UINT_LIMIT
    ensures |r| == |group| && forall i: nat :: i < |group| ==> r[i] == group[i].bno
  {
    seq(|group|, i requires 0 <= i < |group| => assert group[i] in group; group[i].bno)
  }

  function LogCopies(start: nat, group: seq<Write>): seq<Write> {
    seq(|group|, i requires 0 <= i < |group| => Write(start + 1 + i, group[i].data))
  }

  /** How many block writes a commit of n blocks makes. */
  function CommitCount(n: nat): nat { if n == 0 then 0 else 2 * n + 2 }

  /** Every block write of commit() for a group of (home block, cached contents) pairs, in order:
      copy to the log, write the header, install, erase the header. */
  function CommitWrites(start: nat, d: Disk, group: seq<Write>): (ws: seq<Write>)
    requires start < |d| && |group| <= LOGBLOCKS
    requires forall w :: w in group ==> w.bno < UINT_LIMIT
    ensures |ws| == CommitCount(|group|)
  {
    if group == [] then []
    else
      var head := HeadBlock(d[start], Dsts(group));
      LogCopies(start, group) + [Write(start, head)] + group + [Write(start, HeadBlock(head, []))]
  }

  // ----- the in-memory header -----

  /** log_write on the in-memory header: absorb a block already there, else append it. */
  function Absorb(lh: seq<Uint>, b: Uint): seq<Uint> {
    if b in lh then lh else lh + [b]
  }

  /** The pairs commit() works through: each logged block with its cached contents. */
  function GroupOf(lh: seq<Uint>, cache: map<Uint, Block>): (g: seq<Write>)
    ensures |g| == |lh| && forall i: nat :: i < |lh| ==> g[i].bno == lh[i]
  {
    seq(|lh|, i requires 0 <= i < |lh| => Write(lh[i], if lh[i] in cache then cache[lh[i]] else Zero()))
  }

  lemma GroupAt(lh: seq<Uint>, cache: map<Uint, Block>, i: nat)
    requires i < |lh| && lh[i] in cache
    ensures GroupOf(lh, cache)[i] == Write(lh[i], cache[lh[i]])
  {
  }

  lemma {:induction false} FinalGroup(lh: seq<Uint>, cache: map<Uint, Block>, k: nat, b: Uint)
    requires k <= |lh| && forall x :: x in lh ==> x in cache
    ensures Final(GroupOf(lh, cache)[..k], b) == if b in lh[..k] then Some(cache[b]) else None
  {
    if k > 0 {
      FinalGroup(lh, cache, k - 1, b);
      assert GroupOf(lh, cache)[..k][..k - 1] == GroupOf(lh, cache)[..k - 1];
      assert lh[..k] == lh[..k - 1] + [lh[k - 1]];
    }
  }

  lemma FinalWholeGroup(lh: seq<Uint>, cache: map<Uint, Block>, b: Uint)
    requires forall x :: x in lh ==> x in cache
    ensures Final(GroupOf(lh, cache), b) == if b in lh then Some(cache[b]) else None
  {
    hide GroupOf, Final;
    FinalGroup(lh, cache, |lh|, b);
    assert GroupOf(lh, cache)[..|lh|] == GroupOf(lh, cache) && lh[..|lh|] == lh;
  }

  /** Installing what the store already holds changes nothing. */
  lemma InstallOwn(lh: seq<Uint>, cache: map<Uint, Block>, store: Disk)
    requires forall b :: b in lh ==> b in cache && b < |store| && cache[b] == store[b]
    ensures Apply(store, GroupOf(lh, cache)) == store
  {
    hide GroupOf, Apply, Final;
    var g := GroupOf(lh, cache);
    forall b: nat | b < |store|
      ensures Apply(store, g)[b] == store[b]
    {
      ApplyAt(store, g, b);
      if b < UINT_LIMIT {
        FinalWholeGroup(lh, cache, b);
      } else {
        FinalNone(g, b);
      }
    }
  }

  lemma CopiesLength(start: nat, group: seq<Write>)
    ensures |LogCopies(start, group)| == |group|
  {
  }

  lemma CopiesAt(start: nat, group: seq<Write>, i: nat)
    requires i < |group|
    ensures |LogCopies(start, group)| == |group| && LogCopies(start, group)[i] == Write(start + 1 + i, group[i].data)
  {
  }

  /** begin_op's loop condition: the new operation's reservation still fits. */
  predicate Fits(lhn: nat, outstanding: nat) {
    lhn + (outstanding + 1) * MAXOPBLOCKS <= LOGBLOCKS
  }

  // ----- recovery, cut off anywhere -----

  lemma LogOfHome(start: nat, d: Disk)
    requires Wf(start, d)
    ensures HomeWrites(start, |d|, LogOf(start, d))
  {
  }

  /** Disks that agree on the header and the used log blocks describe the same installs. */
  lemma LogOfSame(start: nat, d: Disk, e: Disk)
    requires Wf(start, d) && |e| == |d|
    requires forall b: nat :: InLog(start, b) ==> e[b] == d[b]
    ensures Wf(start, e) && LogOf(start, e) == LogOf(start, d)
  {
  }

  lemma InstallKeepsLog(start: nat, d: Disk, ws: seq<Write>)
    requires start + LOGBLOCKS < |d| && HomeWrites(start, |d|, ws)
    ensures forall b: nat :: InLog(start, b) ==> Apply(d, ws)[b] == d[b]
  {
  }

  lemma EraseKeeps(start: nat, d: Disk)
    requires start + LOGBLOCKS < |d| && start + LOGBLOCKS < UINT_LIMIT
    ensures var e := Put(d, Write(start, HeadBlock(d[start], [])));
            Wf(start, e) && LogOf(start, e) == [] && HeadCount(e[start]) == 0 && SameData(start, Recovered(start, e), d)
  {
  }

  /** Recovery interrupted after any number of its writes is still recoverable to the same data. */
  lemma CutRecovery(start: nat, d: Disk, k: nat)
    requires Wf(start, d) && k <= |RecoveryWrites(start, d)|
    ensures var e := Apply(d, RecoveryWrites(start, d)[..k]);
            && Wf(start, e)
            && SameData(start, Recovered(start, e), Recovered(start, d))
            && (k == |RecoveryWrites(start, d)| ==> HeadCount(e[start]) == 0 && SameData(start, e, Recovered(start, d)))
  {
    var log := LogOf(start, d);
    var ws := RecoveryWrites(start, d);
    LogOfHome(start, d);
    if k <= |log| {
      assert ws[..k] == log[..k];
      InstallKeepsLog(start, d, log[..k]);
      LogOfSame(start, d, Apply(d, log[..k]));
      Redo(d, log, k);
    } else {
      var e := Apply(d, log);
      assert ws[..k] == log + [ws[|log|]];
      ApplyConcat(d, log, [ws[|log|]]);
      InstallKeepsLog(start, d, log);
      assert e[start] == d[start];
      EraseKeeps(start, e);
      assert Apply(e, [ws[|log|]]) == Put(e, ws[|log|]);
    }
  }

  /** Reboots: each attempt but the last is cut off after some number of writes, and the last completes. */
  ghost function Reboot(start: nat, d: Disk, cuts: seq<nat>): Disk
    requires Wf(start, d)
    decreases |cuts|
  {
    var ws := RecoveryWrites(start, d);
    if cuts == [] then Apply(d, ws)
    else
      var k := if cuts[0] <= |ws| then cuts[0] else |ws|;
      CutRecovery(start, d, k);
      Reboot(start, Apply(d, ws[..k]), cuts[1..])
  }

  lemma {:induction false} RebootRecovers(start: nat, d: Disk, cuts: seq<nat>)
    requires Wf(start, d)
    ensures var e := Reboot(start, d, cuts);
            |e| == |d| && HeadCount(e[start]) == 0 && SameData(start, e, Recovered(start, d))
    decreases |cuts|
  {
    var ws := RecoveryWrites(start, d);
    if cuts == [] {
      CutRecovery(start, d, |ws|);
      assert ws[..|ws|] == ws;
    } else {
      var k := if cuts[0] <= |ws| then cuts[0] else |ws|;
      CutRecovery(start, d, k);
      RebootRecovers(start, Apply(d, ws[..k]), cuts[1..]);
    }
  }

  // ----- commit, cut off anywhere -----

  lemma {:induction false} CopiesLand(start: nat, d: Disk, group: seq<Write>, k: nat)
    requires k <= |group| <= LOGBLOCKS && start + LOGBLOCKS < |d|
    ensures forall i: nat :: i < k ==> Apply(d, LogCopies(start, group)[..k])[start + 1 + i] == group[i].data
  {
    if k > 0 {
      CopiesLand(start, d, group, k - 1);
      assert LogCopies(start, group)[..k][..k - 1] == LogCopies(start, group)[..k - 1];
    }
  }

  /** Until the header goes out, a commit has only scribbled on unused log blocks. */
  lemma CutBeforeHeader(start: nat, d: Disk, group: seq<Write>, k: nat)
    requires Wf(start, d) && HeadCount(d[start]) == 0
    requires k <= |group| <= LOGBLOCKS
    ensures var e := Apply(d, LogCopies(start, group)[..k]);
            Wf(start, e) && LogOf(start, e) == [] && e[start] == d[start] && SameData(start, Recovered(start, e), d)
  {
    var ws := LogCopies(start, group)[..k];
    LogWritesKeepData(start, d, ws);
    ApplyOutside(d, ws, start);
  }

  /** Home blocks are untouched before the header write. */
  lemma HomeUntouched(start: nat, d: Disk, group: seq<Write>, k: nat)
    requires start < |d| && k <= |group| <= LOGBLOCKS
    requires forall w :: w in group ==> w.bno < UINT_LIMIT
    requires k <= CommitCount(|group|)
    ensures SameData(start, CutDisk(start, d, group, k), d)
  {
    if group != [] {
      CommitCopying(start, d, group, k);
      LogWritesKeepData(start, d, LogCopies(start, group)[..k]);
    }
  }

  /** The disk right after the header write, and the installs that follow it. */
  function Committed(start: nat, d: Disk, group: seq<Write>): (r: Disk)
    requires start < |d| && |group| <= LOGBLOCKS
    requires forall w :: w in group ==> w.bno < UINT_LIMIT
    ensures |r| == |d|
  {
    Put(Apply(d, LogCopies(start, group)), Write(start, HeadBlock(d[start], Dsts(group))))
  }

  lemma HeaderCommits(start: nat, d: Disk, group: seq<Write>)
    requires start + LOGBLOCKS < |d| && start + LOGBLOCKS < UINT_LIMIT
    requires |group| <= LOGBLOCKS && HomeWrites(start, |d|, group)
    ensures var e := Committed(start, d, group);
            Wf(start, e) && LogOf(start, e) == group && SameData(start, e, d)
  {
    hide HeadBlock, HeadFill, Word;
    var copies := LogCopies(start, group);
    var e := Committed(start, d, group);
    LogWritesKeepData(start, d, copies);
    CopiesLand(start, d, group, |group|);
    assert copies[..|group|] == copies;
    forall i: nat | i < |group|
      ensures HeadDst(e[start], i) == group[i].bno && group[i] in group && LogOf(start, e)[i] == group[i]
    {
    }
  }

  /** After the header write every cut leaves a disk that recovers to the whole group. */
  lemma CutAfterHeader(start: nat, d: Disk, group: seq<Write>, k: nat)
    requires Wf(start, d) && group != []
    requires k <= |group| <= LOGBLOCKS && HomeWrites(start, |d|, group)
    ensures var e := Apply(Committed(start, d, group), group[..k]);
            Wf(start, e) && SameData(start, Recovered(start, e), Apply(d, group))
  {
    var c := Committed(start, d, group);
    HeaderCommits(start, d, group);
    InstallKeepsLog(start, c, group[..k]);
    LogOfSame(start, c, Apply(c, group[..k]));
    Redo(c, group, k);
    SameDataApply(start, c, d, group);
  }

  /** The disk after the first k writes of a commit. */
  function CutDisk(start: nat, d: Disk, group: seq<Write>, k: nat): (e: Disk)
    requires start < |d| && |group| <= LOGBLOCKS
    requires forall w :: w in group ==> w.bno < UINT_LIMIT
    requires k <= CommitCount(|group|)
    ensures |e| == |d|
  {
    Apply(d, CommitWrites(start, d, group)[..k])
  }

  lemma CommitLength(start: nat, d: Disk, group: seq<Write>)
    requires start < |d| && group != [] && |group| <= LOGBLOCKS
    requires forall w :: w in group ==> w.bno < UINT_LIMIT
    ensures |CommitWrites(start, d, group)| == 2 * |group| + 2
  {
  }

  lemma CutInCopies(d: Disk, copies: seq<Write>, rest: seq<Write>, k: nat)
    requires k <= |copies|
    ensures Apply(d, (copies + rest)[..k]) == Apply(d, copies[..k])
  {
    assert (copies + rest)[..k] == copies[..k];
  }

  lemma CutInInstalls(d: Disk, copies: seq<Write>, head: Write, group: seq<Write>, tail: Write, j: nat)
    requires j <= |group|
    ensures Apply(d, (copies + [head] + group + [tail])[..|copies| + 1 + j]) ==
        Apply(Put(Apply(d, copies), head), group[..j])
  {
    assert (copies + [head] + group + [tail])[..|copies| + 1 + j] == (copies + [head]) + group[..j];
    ApplyConcat(d, copies + [head], group[..j]);
    assert (copies + [head])[..|copies|] == copies;
  }

  lemma CutAtEnd(d: Disk, copies: seq<Write>, head: Write, group: seq<Write>, tail: Write)
    ensures Apply(d, copies + [head] + group + [tail]) == Put(Apply(Put(Apply(d, copies), head), group), tail)
  {
    var ws := copies + [head] + group + [tail];
    CutInInstalls(d, copies, head, group, tail, |group|);
    assert group[..|group|] == group;
    assert ws[..|ws| - 1] == ws[..|copies| + 1 + |group|];
  }

  lemma CommitCopying(start: nat, d: Disk, group: seq<Write>, k: nat)
    requires start < |d| && group != [] && k <= |group| <= LOGBLOCKS
    requires forall w :: w in group ==> w.bno < UINT_LIMIT
    ensures k <= CommitCount(|group|)
    ensures CutDisk(start, d, group, k) == Apply(d, LogCopies(start, group)[..k])
  {
    hide HeadBlock, HeadFill, Word, Apply, LogCopies, Dsts, CommitWrites;
    CopiesLength(start, group);
    var rest := CommitStarts(start, d, group);
    CutInCopies(d, LogCopies(start, group), rest, k);
  }

  lemma CommitStarts(start: nat, d: Disk, group: seq<Write>) returns (rest: seq<Write>)
    requires start < |d| && group != [] && |group| <= LOGBLOCKS
    requires forall w :: w in group ==> w.bno < UINT_LIMIT
    ensures CommitWrites(start, d, group) == LogCopies(start, group) + rest
  {
    hide HeadBlock, HeadFill, Word, Apply, LogCopies, Dsts;
    var copies, head := LogCopies(start, group), HeadBlock(d[start], Dsts(group));
    rest := [Write(start, head)] + group + [Write(start, HeadBlock(head, []))];
    assert CommitWrites(start, d, group) == copies + rest;
  }

  lemma CommitInstalling(start: nat, d: Disk, group: seq<Write>, j: nat)
    requires start < |d| && group != [] && j <= |group| <= LOGBLOCKS
    requires forall w :: w in group ==> w.bno < UINT_LIMIT
    ensures |group| + 1 + j <= CommitCount(|group|)
    ensures CutDisk(start, d, group, |group| + 1 + j) == Apply(Committed(start, d, group), group[..j])
  {
    hide HeadBlock, HeadFill, Word;
    var head := HeadBlock(d[start], Dsts(group));
    CutInInstalls(d, LogCopies(start, group), Write(start, head), group, Write(start, HeadBlock(head, [])), j);
  }

  lemma CommitErased(start: nat, d: Disk, group: seq<Write>)
    requires start + LOGBLOCKS < |d| && group != [] && |group| <= LOGBLOCKS && HomeWrites(start, |d|, group)
    ensures |CommitWrites(start, d, group)| == 2 * |group| + 2
    ensures var e := Apply(Committed(start, d, group), group);
            CutDisk(start, d, group, 2 * |group| + 2) == Put(e, Write(start, HeadBlock(e[start], [])))
  {
    hide HeadBlock, HeadFill, Word;
    var head := HeadBlock(d[start], Dsts(group));
    var ws := CommitWrites(start, d, group);
    CommitLength(start, d, group);
    CutAtEnd(d, LogCopies(start, group), Write(start, head), group, Write(start, HeadBlock(head, [])));
    assert ws[..2 * |group| + 2] == ws;
    InstallKeepsLog(start, Committed(start, d, group), group);
  }

  lemma CutEmpty(start: nat, d: Disk, k: nat)
    requires Wf(start, d) && HeadCount(d[start]) == 0
    requires k == 0
    ensures CutDisk(start, d, [], k) == d && SameData(start, Recovered(start, d), d)
  {
  }

  /** A commit that was not cut off. */
  lemma CutNowhere(start: nat, d: Disk, group: seq<Write>)
    requires Wf(start, d) && group != [] && |group| <= LOGBLOCKS && HomeWrites(start, |d|, group)
    ensures |CommitWrites(start, d, group)| == 2 * |group| + 2
    ensures var e := CutDisk(start, d, group, 2 * |group| + 2);
            Wf(start, e) && SameData(start, Recovered(start, e), Apply(d, group)) && HeadCount(e[start]) == 0
  {
    hide HeadBlock, HeadFill, Word, CommitWrites, LogCopies, Apply, Committed, CutDisk, Dsts;
    var c := Committed(start, d, group);
    CommitErased(start, d, group);
    EraseKeeps(start, Apply(c, group));
    HeaderCommits(start, d, group);
    SameDataApply(start, c, d, group);
  }

  /** What one cut-off commit leaves: a readable disk that recovers to all of the group or to none
      of it, decided by whether the header write is among the writes that happened. */
  lemma CutCommit(start: nat, d: Disk, group: seq<Write>, k: nat)
    requires Wf(start, d) && HeadCount(d[start]) == 0
    requires |group| <= LOGBLOCKS && HomeWrites(start, |d|, group)
    requires k <= CommitCount(|group|)
    ensures var e := CutDisk(start, d, group, k);
            && Wf(start, e)
            && SameData(start, Recovered(start, e), if k <= |group| then d else Apply(d, group))
            && (k == CommitCount(|group|) ==> HeadCount(e[start]) == 0)
  {
    hide HeadBlock, HeadFill, Word, CommitWrites, LogCopies, Apply, Committed, CutDisk, Dsts, SameData, Recovered;
    if group == [] {
      CutEmpty(start, d, k);
    } else if k <= |group| {
      CommitCopying(start, d, group, k);
      CutBeforeHeader(start, d, group, k);
    } else if k <= 2 * |group| + 1 {
      CommitInstalling(start, d, group, k - |group| - 1);
      CutAfterHeader(start, d, group, k - |group| - 1);
    } else {
      CutNowhere(start, d, group);
    }
  }

  /** Crash atomicity: a commit cut off after k writes, any number of cut-off recoveries and a
      completed one leave either the whole old data region or the whole new one, and it is the
      new one exactly when the header write (write number |group|) happened. */
  lemma CrashAtomicity(start: nat, d: Disk, group: seq<Write>, k: nat, cuts: seq<nat>)
    requires Wf(start, d) && HeadCount(d[start]) == 0
    requires |group| <= LOGBLOCKS && HomeWrites(start, |d|, group)
    requires k <= CommitCount(|group|)
    ensures Wf(start, CutDisk(start, d, group, k))
    ensures var e := Reboot(start, CutDisk(start, d, group, k), cuts);
            && |e| == |d| && HeadCount(e[start]) == 0
            && SameData(start, e, if k <= |group| then d else Apply(d, group))
  {
    CutCommit(start, d, group, k);
    RebootRecovers(start, CutDisk(start, d, group, k), cuts);
  }

  // ----- the same, block by block -----

  lemma {:induction false} FinalAt(ws: seq<Write>, i: nat)
    requires i < |ws| && forall j: nat :: i < j < |ws| ==> ws[j].bno != ws[i].bno
    ensures Final(ws, ws[i].bno) == Some(ws[i].data)
  {
    if i < |ws| - 1 {
      FinalAt(ws[..|ws| - 1], i);
    }
  }

  /** Each block of the group has its new contents once the header is written, and its old ones before; any other
      block outside the log is as it was. */
  lemma EachBlock(start: nat, d: Disk, group: seq<Write>, k: nat, cuts: seq<nat>, b: nat)
    requires Wf(start, d) && HeadCount(d[start]) == 0
    requires |group| <= LOGBLOCKS && HomeWrites(start, |d|, group) && k <= CommitCount(|group|)
    requires forall i: nat, j: nat :: i < j < |group| ==> group[i].bno != group[j].bno
    requires b < |d| && !(start <= b <= start + 30)
    ensures Wf(start, CutDisk(start, d, group, k))
    ensures var e := Reboot(start, CutDisk(start, d, group, k), cuts);
            && |e| == |d|
            && (forall i: nat :: i < |group| && group[i].bno == b ==>
                  e[b] == if k > |group| then group[i].data else d[b])
            && ((forall i: nat :: i < |group| ==> group[i].bno != b) ==> e[b] == d[b])
  {
    hide Wf, CutDisk, Reboot, Final, Apply;
    CrashAtomicity(start, d, group, k, cuts);
    ApplyAt(d, group, b);
    if i: nat :| i < |group| && group[i].bno == b {
      FinalAt(group, i);
    } else {
      FinalNone(group, b);
    }
  }

  /** The header on disk: the count in its first word, and a block number in each of the next, all little-endian. */
  lemma HeaderBytes(h: Block, dsts: seq<Uint>, i: nat)
    requires i < |dsts| <= LOGBLOCKS
    ensures var x := HeadBlock(h, dsts).bytes;
            LittleEndian(x[0..4]) == |dsts| && LittleEndian(x[4 * i + 4..4 * i + 8]) == dsts[i]
  {
    var r := HeadBlock(h, dsts);
    hide HeadBlock;
    assert HeadCount(r) == |dsts| && HeadDst(r, i) == dsts[i];
  }
}
