/** Whole runs of the logging system: begin_op, log_write, end_op, the single block writes of
    commit(), crashes and the single block writes of recovery, in every order the guards allow. */
module LogRuns {
  import opened Basics
  import opened Blocks
  import opened DiskLog

  type OpId = nat

  /** One log_write: which operation issued it and what it put into which home block. */
  datatype Rec = Rec(op: OpId, w: Write)

  /** An operation between begin_op and end_op, with the log slots it has taken so far. */
  datatype Active = Active(op: OpId, spent: nat)

  datatype Phase =
    | Running
    | Committing(base: Disk, group: seq<Write>, k: nat)  // k writes of the commit of group onto base are out
    | Recovering(base: Disk, k: nat)                     // k writes of the recovery of base are out

  datatype State = State(
    disk: Disk,
    phase: Phase,
    lh: seq<Uint>,            // log.lh.block[..log.lh.n]
    cache: map<Uint, Block>,  // contents of the buffers pinned by log_write
    active: seq<Active>,      // the outstanding operations
    // history, for stating what a run means
    init: Disk,
    started: set<OpId>,
    issued: seq<Rec>,         // every log_write so far
    cur: seq<Rec>,            // the log_writes of the group not yet committed
    durable: seq<seq<Rec>>)   // the groups whose header write has happened

  datatype Step =
    | Begin(op: OpId)
    | LogWrite(i: nat, b: Uint, data: Block)
    | End(i: nat)
    | CommitWrite
    | CommitDone
    | Crash
    | RecoverWrite
    | RecoverDone

  // ----- the steps -----

  ghost predicate Shape(start: nat, s: State) {
    && start + LOGBLOCKS < |s.disk|
    && |s.lh| <= LOGBLOCKS
    && match s.phase
       case Running => true
       case Committing(base, group, k) =>
         start < |base| && |group| <= LOGBLOCKS && (forall w :: w in group ==> w.bno < UINT_LIMIT)
       case Recovering(base, k) => start + LOGBLOCKS < |base| && HeadCount(base[start]) <= LOGBLOCKS
  }

  ghost predicate Can(start: nat, s: State, e: Step) {
    && Shape(start, s)
    && match e
       case Begin(op) => s.phase.Running? && op !in s.started && Fits(|s.lh|, |s.active|)
       case LogWrite(i, b, data) =>
         && s.phase.Running? && i < |s.active|
         && |s.lh| < LOGBLOCKS
         && b < |s.disk| && !InLog(start, b)
         && (b in s.lh || s.active[i].spent < MAXOPBLOCKS)
       case End(i) => s.phase.Running? && i < |s.active|
       case CommitWrite => s.phase.Committing? && s.phase.k < CommitCount(|s.phase.group|)
       case CommitDone => s.phase.Committing? && s.phase.k == CommitCount(|s.phase.group|)
       case Crash => HeadCount(s.disk[start]) <= LOGBLOCKS
       case RecoverWrite => s.phase.Recovering? && s.phase.k < |RecoveryWrites(start, s.phase.base)|
       case RecoverDone => s.phase.Recovering? && s.phase.k == |RecoveryWrites(start, s.phase.base)|
  }

  ghost function Do(start: nat, s: State, e: Step): State
    requires Can(start, s, e)
  {
    match e
    case Begin(op) => s.(active := s.active + [Active(op, 0)], started := s.started + {op})
    case LogWrite(i, b, data) =>
      var r := Rec(s.active[i].op, Write(b, data));
      s.(lh := Absorb(s.lh, b),
         cache := s.cache[b := data],
         active := if b in s.lh then s.active else s.active[i := Active(s.active[i].op, s.active[i].spent + 1)],
         issued := s.issued + [r],
         cur := s.cur + [r])
    case End(i) =>
      var left := s.active[..i] + s.active[i + 1..];
      s.(active := left,
         phase := if left == [] then Committing(s.disk, GroupOf(s.lh, s.cache), 0) else Running)
    case CommitWrite =>
      var Committing(base, group, k) := s.phase;
      var t := s.(disk := Put(s.disk, CommitWrites(start, base, group)[k]), phase := Committing(base, group, k + 1));
      if k == |group| then t.(durable := s.durable + [s.cur], cur := []) else t
    case CommitDone => s.(phase := Running, lh := [], cache := map[])
    case Crash => s.(phase := Recovering(s.disk, 0), lh := [], cache := map[], active := [], cur := [])
    case RecoverWrite =>
      var Recovering(base, k) := s.phase;
      s.(disk := Put(s.disk, RecoveryWrites(start, base)[k]), phase := Recovering(base, k + 1))
    case RecoverDone => s.(phase := Running)
  }

  ghost predicate Legal(start: nat, s: State, es: seq<Step>)
    decreases |es|
  {
    es == [] || (Can(start, s, es[0]) && Legal(start, Do(start, s, es[0]), es[1..]))
  }

  ghost function After(start: nat, s: State, es: seq<Step>): State
    requires Legal(start, s, es)
    decreases |es|
  {
    if es == [] then s else After(start, Do(start, s, es[0]), es[1..])
  }

  /** A machine about to boot from any readable disk. */
  ghost predicate Init(start: nat, s: State) {
    && Wf(start, s.disk)
    && s.phase == Recovering(s.disk, 0)
    && s.lh == [] && s.cache == map[] && s.active == []
    && s.init == Recovered(start, s.disk)
    && s.started == {} && s.issued == [] && s.cur == [] && s.durable == []
  }

  // ----- what a run means -----

  function Writes(rs: seq<Rec>): (ws: seq<Write>)
    ensures |ws| == |rs| && forall i: nat :: i < |rs| ==> ws[i] == rs[i].w
  {
    seq(|rs|, i requires 0 <= i < |rs| => rs[i].w)
  }

  /** The groups applied in commit order to the initial data. */
  ghost function Replay(d: Disk, groups: seq<seq<Rec>>): Disk {
    if groups == [] then d else Apply(Replay(d, groups[..|groups| - 1]), Writes(groups[|groups| - 1]))
  }

  /** The writes one operation contributed to a list of records. */
  ghost function OpWrites(rs: seq<Rec>, op: OpId): seq<Write> {
    if rs == [] then []
    else
      var front := OpWrites(rs[..|rs| - 1], op);
      if rs[|rs| - 1].op == op then front + [rs[|rs| - 1].w] else front
  }

  /** Part is none of the operation's writes or all of them. */
  ghost predicate AllOrNone(part: seq<Rec>, issued: seq<Rec>, op: OpId) {
    OpWrites(part, op) == [] || OpWrites(part, op) == OpWrites(issued, op)
  }

  // ----- the invariant -----

  /** Header, pinned cache and group records describe the same pending contents. */
  ghost predicate Pending(start: nat, size: nat, lh: seq<Uint>, cache: map<Uint, Block>, cur: seq<Rec>) {
    && Distinct(lh)
    && (forall b :: b in lh ==> b < size && !InLog(start, b))
    && (forall b: Uint :: b in lh <==> b in cache)
    && (forall b: Uint :: Final(Writes(cur), b) == if b in cache then Some(cache[b]) else None)
    && (forall r :: r in cur ==> r.w.bno < UINT_LIMIT)
  }

  ghost predicate DataInv(start: nat, s: State) {
    && Wf(start, s.disk)
    && |s.init| == |s.disk|
    && match s.phase
       case Running =>
         && HeadCount(s.disk[start]) == 0
         && SameData(start, s.disk, Replay(s.init, s.durable))
         && Pending(start, |s.disk|, s.lh, s.cache, s.cur)
       case Committing(base, group, k) =>
         && Wf(start, base) && HeadCount(base[start]) == 0
         && |group| <= LOGBLOCKS && HomeWrites(start, |base|, group)
         && k <= CommitCount(|group|)
         && s.disk == CutDisk(start, base, group, k)
         && s.active == []
         && group == GroupOf(s.lh, s.cache)
         && if k <= |group|
            then SameData(start, base, Replay(s.init, s.durable)) && Pending(start, |s.disk|, s.lh, s.cache, s.cur)
            else s.cur == [] && SameData(start, Apply(base, group), Replay(s.init, s.durable))
       case Recovering(base, k) =>
         && Wf(start, base)
         && k <= |RecoveryWrites(start, base)|
         && s.disk == Apply(base, RecoveryWrites(start, base)[..k])
         && SameData(start, Recovered(start, base), Replay(s.init, s.durable))
         && s.lh == [] && s.cache == map[] && s.active == [] && s.cur == []
  }

  /** No operation is split: each group holds all of an operation's writes or none, and at most one does. */
  ghost predicate HistoryInv(s: State) {
    && (forall i: nat :: i < |s.active| ==> s.active[i].op in s.started)
    && (forall i: nat, j: nat :: i < j < |s.active| ==> s.active[i].op != s.active[j].op)
    && (forall op: OpId :: op !in s.started ==> OpWrites(s.issued, op) == [])
    && (forall i: nat :: i < |s.active| ==> OpWrites(s.cur, s.active[i].op) == OpWrites(s.issued, s.active[i].op))
    && (forall op: OpId :: AllOrNone(s.cur, s.issued, op))
    && (forall g: nat, op: OpId :: g < |s.durable| ==> AllOrNone(s.durable[g], s.issued, op))
    && (forall g: nat, op: OpId :: g < |s.durable| && OpWrites(s.durable[g], op) != [] ==> OpWrites(s.cur, op) == [])
    && (forall g: nat, h: nat, op: OpId :: g < h < |s.durable| && OpWrites(s.durable[g], op) != [] ==>
          OpWrites(s.durable[h], op) == [])
  }

  /** Log slots promised to the outstanding operations and not used yet. */
  ghost function Unspent(active: seq<Active>): int {
    if active == [] then 0
    else Unspent(active[..|active| - 1]) + MAXOPBLOCKS - active[|active| - 1].spent
  }

  ghost predicate SpaceInv(s: State) {
    && (forall i: nat :: i < |s.active| ==> s.active[i].spent <= MAXOPBLOCKS)
    && |s.lh| + Unspent(s.active) <= LOGBLOCKS
    && Distinct(s.lh)
    && (!s.phase.Running? ==> s.active == [])
  }

  ghost predicate Inv(start: nat, s: State) {
    DataInv(start, s) && HistoryInv(s) && SpaceInv(s)
  }

  // ----- reservation -----

  lemma {:induction false} UnspentBounds(active: seq<Active>)
    requires forall i: nat :: i < |active| ==> active[i].spent <= MAXOPBLOCKS
    ensures 0 <= Unspent(active) <= |active| * MAXOPBLOCKS
  {
    if active != [] {
      UnspentBounds(active[..|active| - 1]);
    }
  }

  lemma {:induction false} UnspentSpend(active: seq<Active>, i: nat)
    requires i < |active|
    ensures Unspent(active[i := Active(active[i].op, active[i].spent + 1)]) == Unspent(active) - 1
  {
    var next := active[i := Active(active[i].op, active[i].spent + 1)];
    var m := |active| - 1;
    if i < m {
      UnspentSpend(active[..m], i);
      assert next[..m] == active[..m][i := Active(active[i].op, active[i].spent + 1)];
    } else {
      assert next[..m] == active[..m];
    }
  }

  lemma {:induction false} UnspentRemove(active: seq<Active>, i: nat)
    requires i < |active|
    ensures Unspent(active[..i] + active[i + 1..]) == Unspent(active) - (MAXOPBLOCKS - active[i].spent)
  {
    var m := |active| - 1;
    if i < m {
      UnspentRemove(active[..m], i);
      var rest := active[..i] + active[i + 1..];
      assert rest[..|rest| - 1] == active[..m][..i] + active[..m][i + 1..];
    } else {
      assert active[..i] + active[i + 1..] == active[..m];
    }
  }

  /** An operation with a slot left finds room: the "too big a transaction" panic needs a spent operation. */
  lemma ReservedSlotFits(s: State, i: nat)
    requires SpaceInv(s) && i < |s.active| && s.active[i].spent < MAXOPBLOCKS
    ensures |s.lh| < LOGBLOCKS
  {
    UnspentRemove(s.active, i);
    UnspentBounds(s.active[..i] + s.active[i + 1..]);
  }

  lemma SpaceBegin(start: nat, s: State, e: Step)
    requires SpaceInv(s) && Can(start, s, e) && e.Begin?
    ensures SpaceInv(Do(start, s, e))
  {
    UnspentBounds(s.active);
    assert (s.active + [Active(e.op, 0)])[..|s.active|] == s.active;
  }

  lemma SpaceLogWrite(start: nat, s: State, e: Step)
    requires SpaceInv(s) && Can(start, s, e) && e.LogWrite?
    ensures SpaceInv(Do(start, s, e))
  {
    hide Unspent;
    if e.b !in s.lh {
      UnspentSpend(s.active, e.i);
    }
  }

  lemma SpaceEnd(start: nat, s: State, e: Step)
    requires SpaceInv(s) && Can(start, s, e) && e.End?
    ensures SpaceInv(Do(start, s, e))
  {
    hide Unspent, GroupOf;
    UnspentRemove(s.active, e.i);
  }

  lemma SpaceStep(start: nat, s: State, e: Step)
    requires SpaceInv(s) && Can(start, s, e)
    ensures SpaceInv(Do(start, s, e))
  {
    hide HeadBlock, HeadFill, Word, CommitWrites, Apply, LogOf, RecoveryWrites;
    match e
    case Begin(_) => SpaceBegin(start, s, e);
    case LogWrite(_, _, _) => SpaceLogWrite(start, s, e);
    case End(_) => SpaceEnd(start, s, e);
    case _ =>
  }

  /** log_write's two panics; the first is tested before any absorption. */
  predicate LogWritePanics(lhn: nat, outstanding: nat) {
    lhn >= LOGBLOCKS || outstanding < 1
  }

  /** The block an operation of the run below logs n-th. */
  function Home(start: nat, n: nat): nat { start + LOGBLOCKS + 1 + n }

  ghost predicate Filled(start: nat, s: State, n: nat) {
    && Shape(start, s) && s.phase.Running?
    && start + 2 * LOGBLOCKS + 1 <= |s.disk| && start + 2 * LOGBLOCKS + 1 < UINT_LIMIT
    && n <= LOGBLOCKS && |s.lh| == n && (forall i: nat :: i < n ==> s.lh[i] == Home(start, i))
    && |s.active| == 3
    && s.active[0].spent == (if n < 10 then n else 10)
    && s.active[1].spent == (if n < 10 then 0 else if n < 20 then n - 10 else 10)
    && s.active[2].spent == (if n < 20 then 0 else n - 20)
  }

  lemma FillStep(start: nat, s: State, n: nat) returns (e: Step)
    requires Filled(start, s, n) && n < LOGBLOCKS
    ensures Can(start, s, e) && Filled(start, Do(start, s, e), n + 1)
  {
    e := LogWrite(n / 10, Home(start, n), Zero());
  }

  lemma {:induction false} FillLog(start: nat, s: State, n: nat) returns (es: seq<Step>)
    requires Filled(start, s, n)
    ensures Legal(start, s, es) && Filled(start, After(start, s, es), LOGBLOCKS)
    decreases LOGBLOCKS - n
  {
    hide Can, Do;
    if n == LOGBLOCKS {
      es := [];
    } else {
      var e := FillStep(start, s, n);
      var rest := FillLog(start, Do(start, s, e), n + 1);
      es := [e] + rest;
      assert es[1..] == rest;
    }
  }

  /** Three operations that each log MAXOPBLOCKS blocks, as begin_op allows, leave a log in which
      log_write panics even for a block that is already there and would only be absorbed. */
  lemma AbsorptionCanPanic(start: nat, s: State, op: OpId) returns (es: seq<Step>)
    requires Shape(start, s) && s.phase.Running? && s.lh == [] && s.active == []
    requires start + 2 * LOGBLOCKS + 1 <= |s.disk| && start + 2 * LOGBLOCKS + 1 < UINT_LIMIT
    requires forall o :: o in s.started ==> o < op
    ensures Legal(start, s, es)
    ensures var t := After(start, s, es);
            && t.active != [] && Home(start, 0) in t.lh
            && LogWritePanics(|t.lh|, |t.active|)
  {
    var s1 := Do(start, s, Begin(op));
    var s2 := Do(start, s1, Begin(op + 1));
    var s3 := Do(start, s2, Begin(op + 2));
    var rest := FillLog(start, s3, 0);
    es := [Begin(op)] + ([Begin(op + 1)] + ([Begin(op + 2)] + rest));
    LegalCons(start, s2, Begin(op + 2), rest);
    LegalCons(start, s1, Begin(op + 1), [Begin(op + 2)] + rest);
    LegalCons(start, s, Begin(op), [Begin(op + 1)] + ([Begin(op + 2)] + rest));
    assert After(start, s, es).lh[0] == Home(start, 0);
  }

  lemma LegalCons(start: nat, s: State, e: Step, es: seq<Step>)
    requires Can(start, s, e) && Legal(start, Do(start, s, e), es)
    ensures Legal(start, s, [e] + es) && After(start, s, [e] + es) == After(start, Do(start, s, e), es)
  {
  }

  // ----- contents -----

  lemma WritesSnoc(rs: seq<Rec>, r: Rec)
    ensures Writes(rs + [r]) == Writes(rs) + [r.w]
  {
  }

  lemma PendingWrite(start: nat, size: nat, lh: seq<Uint>, cache: map<Uint, Block>, cur: seq<Rec>, r: Rec)
    requires Pending(start, size, lh, cache, cur)
    requires r.w.bno < size && r.w.bno < UINT_LIMIT && !InLog(start, r.w.bno)
    ensures Pending(start, size, Absorb(lh, r.w.bno), cache[r.w.bno := r.w.data], cur + [r])
  {
    WritesSnoc(cur, r);
    assert Writes(cur + [r])[..|cur|] == Writes(cur);
  }

  /** Installing each logged block once has the same effect as all the log_writes in order. */
  lemma GroupEffect(start: nat, d: Disk, lh: seq<Uint>, cache: map<Uint, Block>, cur: seq<Rec>)
    requires Pending(start, |d|, lh, cache, cur)
    ensures HomeWrites(start, |d|, GroupOf(lh, cache))
    ensures Apply(d, GroupOf(lh, cache)) == Apply(d, Writes(cur))
  {
    var g := GroupOf(lh, cache);
    forall b: nat | b < |d|
      ensures Apply(d, g)[b] == Apply(d, Writes(cur))[b]
    {
      ApplyAt(d, g, b);
      ApplyAt(d, Writes(cur), b);
      if b < UINT_LIMIT {
        FinalWholeGroup(lh, cache, b);
      } else {
        FinalNone(g, b);
        FinalNone(Writes(cur), b);
      }
    }
  }

  lemma CutDiskSnoc(start: nat, d: Disk, group: seq<Write>, k: nat)
    requires start < |d| && |group| <= LOGBLOCKS
    requires forall w :: w in group ==> w.bno < UINT_LIMIT
    requires k < CommitCount(|group|)
    ensures CutDisk(start, d, group, k + 1) == Put(CutDisk(start, d, group, k), CommitWrites(start, d, group)[k])
  {
    hide HeadBlock, HeadFill, Word, CommitWrites;
    var ws := CommitWrites(start, d, group);
    assert ws[..k + 1][..k] == ws[..k];
  }

  lemma DataBegin(start: nat, s: State, e: Step)
    requires DataInv(start, s) && Can(start, s, e) && e.Begin?
    ensures DataInv(start, Do(start, s, e))
  {
  }

  lemma DataLogWrite(start: nat, s: State, e: Step)
    requires DataInv(start, s) && Can(start, s, e) && e.LogWrite?
    ensures DataInv(start, Do(start, s, e))
  {
    PendingWrite(start, |s.disk|, s.lh, s.cache, s.cur, Rec(s.active[e.i].op, Write(e.b, e.data)));
  }

  lemma DataEnd(start: nat, s: State, e: Step)
    requires DataInv(start, s) && Can(start, s, e) && e.End?
    ensures DataInv(start, Do(start, s, e))
  {
  }

  lemma DataCommitWrite(start: nat, s: State, e: Step)
    requires DataInv(start, s) && Can(start, s, e) && e.CommitWrite?
    ensures DataInv(start, Do(start, s, e))
  {
    hide HeadBlock, HeadFill, Word, CommitWrites, CutDisk, Apply, Pending;
    var Committing(base, group, k) := s.phase;
    var t := Do(start, s, e);
    CutDiskSnoc(start, base, group, k);
    CutCommit(start, base, group, k + 1);
    if k == |group| {
      GroupEffect(start, base, s.lh, s.cache, s.cur);
      SameDataApply(start, base, Replay(s.init, s.durable), Writes(s.cur));
      assert t.durable[..|s.durable|] == s.durable;
    }
  }

  lemma DataCommitDone(start: nat, s: State, e: Step)
    requires DataInv(start, s) && Can(start, s, e) && e.CommitDone?
    ensures DataInv(start, Do(start, s, e))
  {
    hide HeadBlock, HeadFill, Word, CommitWrites, Apply;
    var Committing(base, group, k) := s.phase;
    CutCommit(start, base, group, k);
    if group == [] {
      CutEmpty(start, base, k);
    } else {
      CommitLength(start, base, group);
    }
    CommitFinished(start, base, group);
    SameDataTrans(start, s.disk, if group == [] then base else Apply(base, group), Replay(s.init, s.durable));
  }

  lemma CommitFinished(start: nat, base: Disk, group: seq<Write>)
    requires Wf(start, base) && HeadCount(base[start]) == 0
    requires |group| <= LOGBLOCKS && HomeWrites(start, |base|, group)
    ensures SameData(start, CutDisk(start, base, group, CommitCount(|group|)), if group == [] then base
        else Apply(base, group))
  {
    var k := CommitCount(|group|);
    CutCommit(start, base, group, k);
  }

  /** In every state the disk recovers to the durable groups and nothing else. */
  lemma RecoversToDurable(start: nat, s: State)
    requires DataInv(start, s)
    ensures Wf(start, s.disk)
    ensures SameData(start, Recovered(start, s.disk), Replay(s.init, s.durable))
  {
    hide HeadBlock, HeadFill, Word, CommitWrites, Apply, CutDisk, Pending;
    match s.phase
    case Running =>
      NothingLogged(start, s.disk);
    case Committing(base, group, k) =>
      CutCommit(start, base, group, k);
      SameDataTrans(start, Recovered(start, s.disk), if k <= |group| then base
        else Apply(base, group), Replay(s.init, s.durable));
    case Recovering(base, k) =>
      CutRecovery(start, base, k);
      SameDataTrans(start, Recovered(start, s.disk), Recovered(start, base), Replay(s.init, s.durable));
  }

  lemma NothingLogged(start: nat, d: Disk)
    requires Wf(start, d) && HeadCount(d[start]) == 0
    ensures Recovered(start, d) == d
  {
  }

  lemma DataCrash(start: nat, s: State, e: Step)
    requires DataInv(start, s) && Can(start, s, e) && e.Crash?
    ensures DataInv(start, Do(start, s, e))
  {
    hide HeadBlock, HeadFill, Word, CommitWrites, CutDisk, Pending, RecoveryWrites, Recovered;
    RecoversToDurable(start, s);
    assert RecoveryWrites(start, s.disk)[..0] == [];
  }

  lemma DataRecoverWrite(start: nat, s: State, e: Step)
    requires DataInv(start, s) && Can(start, s, e) && e.RecoverWrite?
    ensures DataInv(start, Do(start, s, e))
  {
    hide HeadBlock, HeadFill, Word, CommitWrites, CutDisk, Pending, RecoveryWrites, Recovered;
    var Recovering(base, k) := s.phase;
    CutRecovery(start, base, k + 1);
    assert RecoveryWrites(start, base)[..k + 1][..k] == RecoveryWrites(start, base)[..k];
  }

  lemma DataRecoverDone(start: nat, s: State, e: Step)
    requires DataInv(start, s) && Can(start, s, e) && e.RecoverDone?
    ensures DataInv(start, Do(start, s, e))
  {
    hide HeadBlock, HeadFill, Word, CommitWrites, CutDisk, RecoveryWrites, Recovered;
    var Recovering(base, k) := s.phase;
    CutRecovery(start, base, k);
    SameDataTrans(start, s.disk, Recovered(start, base), Replay(s.init, s.durable));
  }

  lemma DataStep(start: nat, s: State, e: Step)
    requires DataInv(start, s) && Can(start, s, e)
    ensures DataInv(start, Do(start, s, e))
  {
    hide DataInv, Can, Do;
    match e
    case Begin(_) => DataBegin(start, s, e);
    case LogWrite(_, _, _) => DataLogWrite(start, s, e);
    case End(_) => DataEnd(start, s, e);
    case CommitWrite => DataCommitWrite(start, s, e);
    case CommitDone => DataCommitDone(start, s, e);
    case Crash => DataCrash(start, s, e);
    case RecoverWrite => DataRecoverWrite(start, s, e);
    case RecoverDone => DataRecoverDone(start, s, e);
  }

  // ----- grouping -----

  lemma OpWritesSnoc(rs: seq<Rec>, r: Rec, op: OpId)
    ensures OpWrites(rs + [r], op) == OpWrites(rs, op) + (if r.op == op then [r.w] else [])
  {
  }

  lemma HistoryLogWrite(start: nat, s: State, e: Step)
    requires HistoryInv(s) && Can(start, s, e) && e.LogWrite?
    ensures HistoryInv(Do(start, s, e))
  {
    hide HeadBlock, HeadFill, Word, CommitWrites, OpWrites, Final;
    var t := Do(start, s, e);
    var r := Rec(s.active[e.i].op, Write(e.b, e.data));
    assert forall j: nat :: j < |s.active| ==> t.active[j].op == s.active[j].op;
    forall op: OpId
      ensures OpWrites(t.issued, op) == OpWrites(s.issued, op) + (if r.op == op then [r.w] else [])
      ensures OpWrites(t.cur, op) == OpWrites(s.cur, op) + (if r.op == op then [r.w] else [])
      ensures AllOrNone(t.cur, t.issued, op)
    {
      OpWritesSnoc(s.issued, r, op);
      OpWritesSnoc(s.cur, r, op);
      assert AllOrNone(s.cur, s.issued, op);
    }
    forall g: nat, op: OpId | g < |t.durable|
      ensures AllOrNone(t.durable[g], t.issued, op)
      ensures op == r.op ==> OpWrites(t.durable[g], op) == []
    {
      assert AllOrNone(s.durable[g], s.issued, op);
    }
  }

  lemma HistoryCommitWrite(start: nat, s: State, e: Step)
    requires HistoryInv(s) && Can(start, s, e) && e.CommitWrite? && s.active == []
    ensures HistoryInv(Do(start, s, e))
  {
    hide HeadBlock, HeadFill, Word, CommitWrites, Final;
  }

  lemma HistoryBegin(start: nat, s: State, e: Step)
    requires HistoryInv(s) && Can(start, s, e) && e.Begin?
    ensures HistoryInv(Do(start, s, e))
  {
    hide OpWrites;
    assert AllOrNone(s.cur, s.issued, e.op);
  }

  lemma HistoryEnd(start: nat, s: State, e: Step)
    requires HistoryInv(s) && Can(start, s, e) && e.End?
    ensures HistoryInv(Do(start, s, e))
  {
    hide OpWrites, GroupOf;
    var left := s.active[..e.i] + s.active[e.i + 1..];
    assert forall j: nat :: j < |left| ==> left[j] == s.active[if j < e.i then j else j + 1];
  }

  lemma HistoryStep(start: nat, s: State, e: Step)
    requires HistoryInv(s) && SpaceInv(s) && Can(start, s, e)
    ensures HistoryInv(Do(start, s, e))
  {
    hide HeadBlock, HeadFill, Word, CommitWrites, Final;
    match e
    case Begin(_) => HistoryBegin(start, s, e);
    case LogWrite(_, _, _) => HistoryLogWrite(start, s, e);
    case End(_) => HistoryEnd(start, s, e);
    case CommitWrite => HistoryCommitWrite(start, s, e);
    case _ =>
  }

  lemma NotSplit(s: State)
    requires HistoryInv(s)
    ensures forall g: nat, op: OpId :: g < |s.durable| && OpWrites(s.durable[g], op) != [] ==>
              && OpWrites(s.durable[g], op) == OpWrites(s.issued, op)
              && (forall h: nat :: h < |s.durable| && h != g ==> OpWrites(s.durable[h], op) == [])
  {
    hide OpWrites;
    forall g: nat, op: OpId | g < |s.durable| && OpWrites(s.durable[g], op) != []
      ensures OpWrites(s.durable[g], op) == OpWrites(s.issued, op)
      ensures forall h: nat :: h < |s.durable| && h != g ==> OpWrites(s.durable[h], op) == []
    {
      assert AllOrNone(s.durable[g], s.issued, op);
    }
  }

  // ----- whole runs -----

  lemma InitInv(start: nat, s: State)
    requires Init(start, s)
    ensures Inv(start, s)
  {
  }

  lemma {:induction false} RunInv(start: nat, s: State, es: seq<Step>)
    requires Inv(start, s) && Legal(start, s, es)
    ensures Inv(start, After(start, s, es))
    ensures After(start, s, es).init == s.init
    decreases |es|
  {
    hide DataInv, HistoryInv, SpaceInv, Can;
    if es != [] {
      DataStep(start, s, es[0]);
      HistoryStep(start, s, es[0]);
      SpaceStep(start, s, es[0]);
      RunInv(start, Do(start, s, es[0]), es[1..]);
    }
  }

  /** Operation atomicity: after any run from boot, and however often the machine then crashes while
      recovering, the data region is the initial one with exactly the durable groups applied in
      order; and every operation has all of its writes in one durable group or none in any. */
  lemma OperationAtomicity(start: nat, s: State, es: seq<Step>, cuts: seq<nat>)
    requires Init(start, s) && Legal(start, s, es)
    ensures var t := After(start, s, es);
            && Wf(start, t.disk)
            && SameData(start, Reboot(start, t.disk, cuts), Replay(Recovered(start, s.disk), t.durable))
            && (forall g: nat, op: OpId :: g < |t.durable| && OpWrites(t.durable[g], op) != [] ==>
                  && OpWrites(t.durable[g], op) == OpWrites(t.issued, op)
                  && (forall h: nat :: h < |t.durable| && h != g ==> OpWrites(t.durable[h], op) == []))
  {
    hide OpWrites, Reboot, Apply, Replay, Legal, After, LogOf, DataInv, HistoryInv, SpaceInv;
    InitInv(start, s);
    RunInv(start, s, es);
    var t := After(start, s, es);
    NotSplit(t);
    RecoversToDurable(start, t);
    RebootRecovers(start, t.disk, cuts);
    SameDataTrans(start, Reboot(start, t.disk, cuts), Recovered(start, t.disk), Replay(t.init, t.durable));
  }

  /** Log reservation: the header and all unspent reservations fit the log, the header has no
      duplicates, and nothing is outstanding during a commit, so end_op never finds one running. */
  lemma LogReservation(start: nat, s: State, es: seq<Step>)
    requires Init(start, s) && Legal(start, s, es)
    ensures var t := After(start, s, es);
            && |t.lh| + Unspent(t.active) <= LOGBLOCKS
            && 0 <= Unspent(t.active)
            && Distinct(t.lh)
            && (t.phase.Committing? ==> t.active == [])
  {
    hide DataInv, HistoryInv;
    InitInv(start, s);
    RunInv(start, s, es);
    UnspentBounds(After(start, s, es).active);
  }
}
