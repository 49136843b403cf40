/** kernel/log.c and kernel/bio.c together as one machine, and its runs as runs of LogRuns: every call of
    the logging interface is a legal sequence of that module's steps, so what is proved there about
    crashes holds of this code. */
module LogSystem {
  import opened Basics
  import opened Blocks
  import opened DiskLog
  import opened BufferCache
  import opened Log
  import R = LogRuns

  // ----- runs of LogRuns, put together -----

  lemma {:induction false} Append(start: nat, s: R.State, es: seq<R.Step>, fs: seq<R.Step>)
    requires R.Legal(start, s, es) && R.Legal(start, R.After(start, s, es), fs)
    ensures R.Legal(start, s, es + fs) && R.After(start, s, es + fs) == R.After(start, R.After(start, s, es), fs)
    decreases |es|
  {
    hide R.Can, R.Do;
    if es == [] {
      assert es + fs == fs;
    } else {
      Append(start, R.Do(start, s, es[0]), es[1..], fs);
      R.LegalCons(start, s, es[0], es[1..] + fs);
      assert es + fs == [es[0]] + (es[1..] + fs);
    }
  }

  lemma {:induction false} Split(start: nat, s: R.State, es: seq<R.Step>, fs: seq<R.Step>)
    requires R.Legal(start, s, es) && R.Legal(start, s, es + fs)
    ensures R.Legal(start, R.After(start, s, es), fs)
    ensures R.After(start, s, es + fs) == R.After(start, R.After(start, s, es), fs)
    decreases |es|
  {
    hide R.Can, R.Do;
    if es == [] {
      assert es + fs == fs;
    } else {
      assert (es + fs)[1..] == es[1..] + fs;
      Split(start, R.Do(start, s, es[0]), es[1..], fs);
    }
  }

  lemma One(start: nat, s: R.State, e: R.Step)
    requires R.Inv(start, s) && R.Can(start, s, e)
    ensures R.Legal(start, s, [e]) && R.After(start, s, [e]) == R.Do(start, s, e) && R.Inv(start, R.Do(start, s, e))
  {
    hide R.Inv, R.Can, R.Do;
    assert R.Legal(start, R.Do(start, s, e), []);
    R.LegalCons(start, s, e, []);
    assert [e] + [] == [e];
    R.RunInv(start, s, [e]);
  }

  /** A machine that is neither committing nor recovering, with nothing logged. */
  ghost predicate Blank(s: R.State) {
    s.phase.Running? && s.lh == [] && s.cache == map[] && s.active == [] && s.cur == []
  }

  /** The groups that are durable once the group in the log is. */
  ghost function Durable(s: R.State): seq<seq<R.Rec>> { if s.lh == [] then s.durable else s.durable + [s.cur] }

  /** The block writes of a recovery, one by one, and its end. */
  lemma {:induction false} RecoverRun(start: nat, s: R.State) returns (es: seq<R.Step>)
    requires R.Inv(start, s) && s.phase.Recovering?
    ensures R.Legal(start, s, es) && R.Inv(start, R.After(start, s, es)) && Blank(R.After(start, s, es))
    ensures R.After(start, s, es).disk == Apply(s.phase.base, RecoveryWrites(start, s.phase.base))
    ensures R.After(start, s, es).durable == s.durable
    decreases |RecoveryWrites(start, s.phase.base)| - s.phase.k
  {
    var ws := RecoveryWrites(start, s.phase.base);
    hide RecoveryWrites, Apply, R.HistoryInv, R.SpaceInv;
    if s.phase.k < |ws| {
      One(start, s, R.RecoverWrite);
      var rest := RecoverRun(start, R.Do(start, s, R.RecoverWrite));
      es := [R.RecoverWrite] + rest;
      R.LegalCons(start, s, R.RecoverWrite, rest);
    } else {
      assert ws[..|ws|] == ws;
      One(start, s, R.RecoverDone);
      es := [R.RecoverDone];
    }
  }

  lemma CutIs(start: nat, s: R.State)
    requires R.Inv(start, s) && s.phase.Committing?
    ensures start < |s.phase.base| && |s.phase.group| <= LOGBLOCKS
    ensures (forall w :: w in s.phase.group ==> w.bno < UINT_LIMIT)
    ensures s.phase.k <= CommitCount(|s.phase.group|)
    ensures s.disk == CutDisk(start, s.phase.base, s.phase.group, s.phase.k)
    ensures R.Shape(start, s) && s.active == [] && s.phase.group == GroupOf(s.lh, s.cache)
  {
  }

  /** With an empty header no record is pending. */
  lemma NothingPending(start: nat, s: R.State)
    requires R.Inv(start, s) && s.phase.Committing? && s.phase.k == 0 && s.phase.group == []
    ensures s.cur == []
  {
    assert s.lh == [];
    if s.cur != [] {
      var ws := R.Writes(s.cur);
      var b := ws[|ws| - 1].bno;
      assert s.cur[|ws| - 1] in s.cur;
      assert b !in s.lh && b !in s.cache;
      LastIsFinal(ws);
      assert false;
    }
  }

  lemma LastIsFinal(ws: seq<Write>)
    requires ws != []
    ensures Final(ws, ws[|ws| - 1].bno).Some?
  {
  }

  /** The first k block writes of a commit: the machine may stop after any of them. */
  lemma {:induction false} CommitPrefix(start: nat, s: R.State, k: nat) returns (es: seq<R.Step>)
    requires R.Inv(start, s) && s.phase.Committing? && s.phase.k == 0 && k <= CommitCount(|s.phase.group|)
    ensures R.Legal(start, s, es) && R.Inv(start, R.After(start, s, es))
    ensures R.After(start, s, es).phase == R.Committing(s.phase.base, s.phase.group, k)
    ensures var t := R.After(start, s, es);
            if k <= |s.phase.group| then t.durable == s.durable && t.cur == s.cur
            else t.durable == s.durable + [s.cur] && t.cur == []
  {
    hide R.Inv, CommitWrites;
    if k == 0 {
      es := [];
    } else {
      var front := CommitPrefix(start, s, k - 1);
      var t := R.After(start, s, front);
      CutIs(start, t);
      One(start, t, R.CommitWrite);
      es := front + [R.CommitWrite];
      Append(start, s, front, [R.CommitWrite]);
    }
  }

  /** A whole commit. */
  lemma CommitRun(start: nat, s: R.State) returns (es: seq<R.Step>)
    requires R.Inv(start, s) && s.phase.Committing? && s.phase.k == 0
    ensures start < |s.phase.base| && |s.phase.group| <= LOGBLOCKS
    ensures (forall w :: w in s.phase.group ==> w.bno < UINT_LIMIT)
    ensures R.Legal(start, s, es) && R.Inv(start, R.After(start, s, es)) && Blank(R.After(start, s, es))
    ensures R.After(start, s, es).disk == Apply(s.phase.base, CommitWrites(start, s.phase.base, s.phase.group))
    ensures R.After(start, s, es).durable == Durable(s)
  {
    hide R.Inv, CommitWrites, Apply;
    CutIs(start, s);
    if s.phase.group == [] {
      NothingPending(start, s);
    }
    var front := CommitPrefix(start, s, CommitCount(|s.phase.group|));
    var t := R.After(start, s, front);
    CutIs(start, t);
    One(start, t, R.CommitDone);
    es := front + [R.CommitDone];
    Append(start, s, front, [R.CommitDone]);
    var ws := CommitWrites(start, s.phase.base, s.phase.group);
    assert ws[..|ws|] == ws;
  }

  lemma {:induction false} Bound(t: set<nat>) returns (m: nat)
    ensures forall x :: x in t ==> x < m
  {
    if t == {} {
      m := 0;
    } else {
      var x :| x in t;
      m := Bound(t - {x});
      assert forall y :: y in t ==> y == x || y in t - {x};
      m := if x >= m then x + 1 else m;
    }
  }

  // ----- the code's state as a state of LogRuns -----

  /** The header, the pinned contents and the reservations of the run are those of the code. */
  ghost predicate Shows(start: nat, lh: seq<Uint>, disk: Disk, abs: Abs, spent: seq<nat>, s: R.State) {
    && HeadOk(start, lh, abs) && R.Inv(start, s) && s.phase.Running? && s.disk == disk && s.lh == lh
    && s.cache == Pending(lh, abs.store)
    && |s.active| == |spent| && forall i: nat :: i < |spent| ==> s.active[i].spent == spent[i]
  }

  lemma ShowsFacts(start: nat, lh: seq<Uint>, disk: Disk, abs: Abs, spent: seq<nat>, s: R.State)
    requires Shows(start, lh, disk, abs, spent, s)
    ensures Wf(start, disk) && R.Shape(start, s) && |lh| <= LOGBLOCKS
    ensures forall i: nat :: i < |spent| && spent[i] < MAXOPBLOCKS ==> |lh| < LOGBLOCKS
  {
    forall i: nat | i < |spent| && spent[i] < MAXOPBLOCKS
      ensures |lh| < LOGBLOCKS
    {
      R.ReservedSlotFits(s, i);
    }
  }

  lemma ShowsBlank(start: nat, disk: Disk, abs: Abs, s: R.State)
    requires R.Inv(start, s) && Blank(s) && s.disk == disk && abs.pinned == map[] && |abs.store| == |disk|
    ensures Shows(start, [], disk, abs, [], s)
  {
    assert Pending([], abs.store) == map[];
  }

  lemma ShowsBegin(start: nat, lh: seq<Uint>, disk: Disk, abs: Abs, spent: seq<nat>, s: R.State, op: nat)
    requires Shows(start, lh, disk, abs, spent, s) && R.Can(start, s, R.Begin(op))
    ensures Shows(start, lh, disk, abs, spent + [0], R.Do(start, s, R.Begin(op)))
  {
    hide R.Inv;
    One(start, s, R.Begin(op));
  }

  function Spend(lh: seq<Uint>, b: Uint, spent: seq<nat>, i: nat): seq<nat>
    requires i < |spent|
  {
    if b in lh then spent else spent[i := spent[i] + 1]
  }

  lemma CachePut(lh: seq<Uint>, store: Disk, b: Uint, data: Block)
    requires (forall i: nat :: i < |lh| ==> lh[i] < |store|) && b < |store|
    ensures forall i: nat :: i < |Absorb(lh, b)| ==> Absorb(lh, b)[i] < |store[b := data]|
    ensures Pending(Absorb(lh, b), store[b := data]) == Pending(lh, store)[b := data]
  {
  }

  lemma ShowsPut(start: nat, lh: seq<Uint>, disk: Disk, abs: Abs, spent: seq<nat>, s: R.State, i: nat, b: Uint,
                 data: Block, abs': Abs)
    requires Shows(start, lh, disk, abs, spent, s) && R.Can(start, s, R.LogWrite(i, b, data)) && b < |abs.store|
    requires HeadOk(start, Absorb(lh, b), abs') && abs'.store == abs.store[b := data]
    ensures Shows(start, Absorb(lh, b), disk, abs', Spend(lh, b, spent, i), R.Do(start, s, R.LogWrite(i, b, data)))
  {
    hide R.Inv, HeadOk, Pending, Absorb;
    One(start, s, R.LogWrite(i, b, data));
    HeadBounds(start, lh, abs);
    CachePut(lh, abs.store, b, data);
  }

  lemma HeadBounds(start: nat, lh: seq<Uint>, abs: Abs)
    requires HeadOk(start, lh, abs)
    ensures forall i: nat :: i < |lh| ==> lh[i] < |abs.store|
  {
  }

  lemma ShowsEnd(start: nat, lh: seq<Uint>, disk: Disk, abs: Abs, spent: seq<nat>, s: R.State, i: nat)
    requires Shows(start, lh, disk, abs, spent, s) && R.Can(start, s, R.End(i)) && |spent| > 1
    ensures Shows(start, lh, disk, abs, spent[..i] + spent[i + 1..], R.Do(start, s, R.End(i)))
  {
    hide R.Inv;
    One(start, s, R.End(i));
  }

  lemma PinnedCount(start: nat, lh: seq<Uint>, abs: Abs)
    requires HeadOk(start, lh, abs)
    ensures |abs.pinned| == |lh|
  {
    DistinctCount(lh, |lh|);
    assert abs.pinned.Keys == (set i: nat | i < |lh| :: lh[i] as nat);
  }

  /** What a reader of block b sees: the last contents logged for it, or the disk's. */
  ghost function Seen(s: R.State, b: nat): Block
    requires b < |s.disk|
  {
    if b < UINT_LIMIT && b in s.cache then s.cache[b] else s.disk[b]
  }

  lemma SeenIs(start: nat, lh: seq<Uint>, next: seq<nat>, prev: seq<nat>, ring: Ring, buf: seq<Buf>, disk: Disk,
               abs: Abs,
               spent: seq<nat>, s: R.State, b: nat)
    requires Calm(next, prev, ring, buf, disk, abs) && Shows(start, lh, disk, abs, spent, s) && b < |disk|
    ensures b < |abs.store| && abs.store[b] == Seen(s, b) && (b in abs.pinned <==> b < UINT_LIMIT && b in lh)
  {
    hide R.Inv, BufsOk, Refs;
    CalmIdle(start, lh, next, prev, ring, buf, disk, abs);
    if b !in abs.pinned {
      CleanBlock(buf, disk, abs, b);
    }
  }

  /** The last end_op and its whole commit. */
  lemma LastEnd(start: nat, s0: R.State, es: seq<R.Step>, i: nat) returns (fs: seq<R.Step>)
    requires R.Legal(start, s0, es)
    requires var s := R.After(start, s0, es); R.Inv(start, s) && R.Can(start, s, R.End(i)) && |s.active| == 1
    ensures R.Legal(start, s0, es + fs) && [R.End(i)] <= fs
    ensures var s, t := R.After(start, s0, es), R.After(start, s0, es + fs);
            && start < |s.disk| && |s.lh| <= LOGBLOCKS
            && (forall w :: w in GroupOf(s.lh, s.cache) ==> w.bno < UINT_LIMIT)
            && R.Inv(start, t) && Blank(t) && t.durable == Durable(s)
            && t.disk == Apply(s.disk, CommitWrites(start, s.disk, GroupOf(s.lh, s.cache)))
  {
    hide R.Inv, CommitWrites, Apply, GroupOf, R.Legal, R.After;
    var s := R.After(start, s0, es);
    One(start, s, R.End(i));
    var mid := R.Do(start, s, R.End(i));
    assert mid.active == [];
    var rest := CommitRun(start, mid);
    fs := [R.End(i)] + rest;
    R.LegalCons(start, s, R.End(i), rest);
    Append(start, s0, es, fs);
  }

  /** The power fails after any k of the block writes of the commit in the last end_op, and then any number
      of times during recovery: the disk holds exactly whole groups, and no operation is split. */
  lemma CutSurvives(start: nat, s0: R.State, es: seq<R.Step>, k: nat, cuts: seq<nat>) returns (fs: seq<R.Step>)
    requires R.Init(start, s0) && R.Legal(start, s0, es)
    requires var s := R.After(start, s0, es);
             R.Can(start, s, R.End(0)) && |s.active| == 1 && k <= CommitCount(|s.lh|) && forall b :: b in s.lh ==>
               b < |s.disk|
    ensures R.Legal(start, s0, es + fs)
    ensures var s, t := R.After(start, s0, es), R.After(start, s0, es + fs);
            && start < |s.disk| && |s.lh| <= LOGBLOCKS
            && (forall w :: w in GroupOf(s.lh, s.cache) ==> w.bno < UINT_LIMIT)
            && Wf(start, t.disk) && t.disk == Apply(s.disk, CommitWrites(start, s.disk, GroupOf(s.lh, s.cache))[..k])
            && SameData(start, Reboot(start, t.disk, cuts), R.Replay(Recovered(start, s0.disk), t.durable))
            && forall g: nat, op: nat :: g < |t.durable| && R.OpWrites(t.durable[g], op) != [] ==>
                 R.OpWrites(t.durable[g], op) == R.OpWrites(t.issued, op)
  {
    hide R.Inv, CommitWrites, Apply, R.OpWrites, Reboot, SameData, R.Replay, Recovered;
    R.InitInv(start, s0);
    R.RunInv(start, s0, es);
    var s := R.After(start, s0, es);
    One(start, s, R.End(0));
    var mid := R.Do(start, s, R.End(0));
    assert mid.active == [] && mid.phase.Committing?;
    CutIs(start, mid);
    var rest := CommitPrefix(start, mid, k);
    CutIs(start, R.After(start, mid, rest));
    fs := [R.End(0)] + rest;
    R.LegalCons(start, s, R.End(0), rest);
    Append(start, s0, es, fs);
    R.OperationAtomicity(start, s0, es + fs, cuts);
  }

  lemma ShowsIs(start: nat, lh: seq<Uint>, disk: Disk, abs: Abs, spent: seq<nat>, s: R.State)
    requires Shows(start, lh, disk, abs, spent, s)
    ensures HeadOk(start, lh, abs) && R.Inv(start, s) && s.phase.Running? && s.disk == disk && s.lh == lh
    ensures (forall b :: b in lh ==> b < |abs.store|) && s.cache == Pending(lh, abs.store) && |s.active| == |spent|
    ensures forall i: nat :: i < |spent| ==> s.active[i].spent == spent[i]
  {
  }

  // ----- the machine -----

  datatype Call = Begin | Put(i: nat, b: Uint, data: Block) | Get(bno: nat) | End(i: nat) | Restart

  /** A call that panics: any log_write with a full log, and, since every buffer is then pinned, a read of a
      block that is not logged, and the last end_op. */
  predicate Panics(c: Call, lh: seq<Uint>, outstanding: nat) {
    && |lh| >= LOGBLOCKS
    && match c
       case Put(_, _, _) => true
       case Get(b) => !(b < UINT_LIMIT && b in lh)
       case End(_) => outstanding == 1
       case _ => false
  }

  /** The steps a call makes: none if begin_op does not admit it or the call is not one an operation may
      make; otherwise its own step, and for the last end_op and a restart what follows from it. */
  ghost predicate Made(start: nat, c: Call, s: R.State, fs: seq<R.Step>) {
    match c
    case Begin => if Fits(|s.lh|, |s.active|) then |fs| == 1 && fs[0].Begin? && fs[0].op !in s.started else fs == []
    case Put(i, b, data) =>
      fs == if i < |s.active| && b < |s.disk| && !InLog(start, b) && (b in s.lh || s.active[i].spent < MAXOPBLOCKS)
            then [R.LogWrite(i, b, data)] else []
    case Get(_) => fs == []
    case End(i) => if i < |s.active| then [R.End(i)] <= fs && (|s.active| > 1 ==> fs == [R.End(i)]) else fs == []
    case Restart => [R.Crash] <= fs
  }

  /** A call that an operation may make: it names an outstanding operation and a block it may log. */
  ghost predicate Applies(start: nat, c: Call, s: R.State) {
    match c
    case Put(i, b, _) =>
      i < |s.active| && b < |s.disk| && !InLog(start, b) && (b in s.lh || s.active[i].spent < MAXOPBLOCKS)
    case Get(b) => b < |s.disk|
    case End(i) => i < |s.active|
    case _ => true
  }

  ghost predicate Fails(start: nat, c: Call, s: R.State) { Applies(start, c, s) && Panics(c, s.lh, |s.active|) }

  /** One call as part of a run: legal steps from s to s', for a read the block's contents, and when the last
      end_op or a restart returns, its commit or recovery complete. */
  ghost predicate Called(start: nat, c: Call, s: R.State, fs: seq<R.Step>, s': R.State, got: Option<Block>) {
    && !Fails(start, c, s) && Made(start, c, s, fs) && R.Legal(start, s, fs) && s' == R.After(start, s, fs)
    && (c.Get? && c.bno < |s.disk| ==> got == Some(Seen(s, c.bno)))
    && (c.End? && c.i < |s.active| == 1 ==> Blank(s') && s'.durable == Durable(s))
    && (c.Restart? ==> Blank(s') && s'.durable == s.durable)
  }

  class System {
    const start: nat
    var lg: Logger
    var spent: seq<nat>           // log slots each outstanding operation has taken
    ghost var s0: R.State
    ghost var es: seq<R.Step>
    ghost var s: R.State

    ghost predicate Valid()
      reads this, lg, lg.bc
    {
      && lg.start == start && lg.n <= |lg.block| == LOGBLOCKS && !lg.committing && lg.outstanding == |spent|
      && Calm(lg.bc.next, lg.bc.prev, lg.bc.ring, lg.bc.buf, lg.bc.disk, lg.bc.abs)
      && Shows(start, lg.block[..lg.n], lg.bc.disk, lg.bc.abs, spent, s)
      && R.Init(start, s0) && R.Legal(start, s0, es) && s == R.After(start, s0, es)
    }

    /** The run's state is the code's. */
    lemma Facts()
      requires Valid()
      ensures R.Inv(start, s) && s.phase.Running? && s.disk == lg.bc.disk && s.lh == lg.block[..lg.n]
      ensures |s.lh| == lg.n && |s.active| == |spent| && forall i: nat :: i < |spent| ==> s.active[i].spent == spent[i]
      ensures R.Init(start, s0) && R.Legal(start, s0, es) && s == R.After(start, s0, es) && s.init == s0.init
    {
      hide Calm, R.Inv;
      R.InitInv(start, s0);
      R.RunInv(start, s0, es);
    }

    /** Boot from any readable disk: initlog recovers what was committed. */
    constructor (d: Disk, start: nat)
      requires Wf(start, d)
      ensures Valid() && fresh(lg) && fresh(lg.bc) && this.start == start && s0.disk == d && spent == []
      ensures Blank(s) && s.durable == []
    {
      hide BufsOk, RingOk, Idle, Refs, RecoveryWrites, Apply, Recovered, R.Inv, Shows, Calm;
      var bc := new Cache(d);
      var l := new Logger(bc, start);
      this.start, lg, spent := start, l, [];
      ghost var b := R.State(d, R.Recovering(d, 0), [], map[], [], Recovered(start, d), {}, [], [], []);
      s0, es, s := b, [], b;
      new;
      l.RecoverFromLog();
      R.InitInv(start, b);
      es := RecoverRun(start, b);
      s := R.After(start, b, es);
      CalmBoot(bc.next, bc.prev, bc.ring, bc.buf, bc.disk, bc.abs);
      ShowsBlank(start, bc.disk, bc.abs, s);
      assert l.block[..0] == [];
    }

    /** Move the run on by one step that leaves the code's state as shown. */
    ghost method Step(e: R.Step)
      requires R.Init(start, s0) && R.Legal(start, s0, es) && s == R.After(start, s0, es) && R.Can(start, s, e)
      requires R.Inv(start, s)
      modifies this`es, this`s
      ensures R.Legal(start, s0, es) && s == R.After(start, s0, es) == R.Do(start, old(s), e) && es == old(es) + [e]
    {
      One(start, s, e);
      Append(start, s0, es, [e]);
      es, s := es + [e], R.Do(start, s, e);
    }

    method BeginOp() returns (admitted: bool)
      requires Valid()
      modifies this, lg
      ensures Valid() && lg == old(lg) && s0 == old(s0) && (admitted <==> Fits(old(lg.n), old(|spent|)))
      ensures admitted <==> old(lg.n) + 10 * old(|spent|) + 10 <= 30
      ensures if admitted then exists op: nat ::
          && op !in old(s).started && es == old(es) + [R.Begin(op)] && spent == old(spent) + [0]
          && R.Can(start, old(s), R.Begin(op)) && s == R.Do(start, old(s), R.Begin(op))
              else es == old(es) && spent == old(spent)
    {
      hide Calm, Shows, R.Legal, R.After, R.Init, R.Inv;
      ShowsFacts(start, lg.block[..lg.n], lg.bc.disk, lg.bc.abs, spent, s);
      ShowsIs(start, lg.block[..lg.n], lg.bc.disk, lg.bc.abs, spent, s);
      admitted := lg.BeginOp();
      if admitted {
        ghost var op := Bound(s.started);
        ShowsBegin(start, lg.block[..lg.n], lg.bc.disk, lg.bc.abs, spent, s, op);
        Step(R.Begin(op));
        spent := spent + [0];
      }
    }

    /** A change to block b by operation i, which has a slot left or has b logged already.  It panics exactly
        when the log is full. */
    method Put(i: nat, b: Uint, data: Block) returns (ok: bool)
      requires Valid() && i < |spent| && b < |lg.bc.disk| && !InLog(start, b)
      requires b in lg.block[..lg.n] || spent[i] < MAXOPBLOCKS
      modifies this, lg, lg.bc
      ensures Valid() && lg == old(lg) && s0 == old(s0) && (ok <==> old(lg.n) < LOGBLOCKS)
      ensures (old(spent)[i] < MAXOPBLOCKS ==> ok)
      ensures if ok then es == old(es) + [R.LogWrite(i, b, data)] else es == old(es) && s == old(s) && lg.n == old(lg.n)
      ensures ok ==> R.Can(start, old(s), R.LogWrite(i, b, data)) && s == R.Do(start, old(s), R.LogWrite(i, b, data))
    {
      hide Calm, Shows, HeadOk, R.Legal, R.After, R.Init, R.Inv;
      ghost var lh, abs, s1 := lg.block[..lg.n], lg.bc.abs, s;
      ShowsFacts(start, lh, lg.bc.disk, abs, spent, s);
      ShowsIs(start, lh, lg.bc.disk, abs, spent, s);
      ok := lg.n < LOGBLOCKS;
      if ok {
        var absorbed := b in lg.block[..lg.n];
        lg.Modify(b, data);
        ShowsPut(start, lh, lg.bc.disk, abs, spent, s, i, b, data, lg.bc.abs);
        Step(R.LogWrite(i, b, data));
        if !absorbed {
          spent := spent[i := spent[i] + 1];
        }
      }
    }

    /** A read of block b: the last contents logged for it, or else the disk's.  It panics exactly when the
        log is full and b is not in it. */
    method Get(b: nat) returns (ok: bool, data: Block)
      requires Valid() && b < |lg.bc.disk|
      modifies lg.bc
      ensures Valid() && (!ok <==> Panics(Call.Get(b), lg.block[..lg.n], lg.outstanding))
      ensures ok ==> b < |s.disk| && data == Seen(s, b)
    {
      hide Calm, Shows, HeadOk, R.Legal, R.After, R.Init, R.Inv, Seen;
      ghost var lh := lg.block[..lg.n];
      ShowsIs(start, lh, lg.bc.disk, lg.bc.abs, spent, s);
      SeenIs(start, lh, lg.bc.next, lg.bc.prev, lg.bc.ring, lg.bc.buf, lg.bc.disk, lg.bc.abs, spent, s, b);
      ok, data := lg.n < LOGBLOCKS || (b < UINT_LIMIT && b in lg.block[..lg.n]), Zero();
      if ok {
        data := lg.Read(b);
      }
    }

    /** The last end_op, with its commit. */
    method LastOp()
      requires Valid() && |spent| == 1 && lg.n < LOGBLOCKS
      modifies this, lg, lg.bc
      ensures Valid() && lg == old(lg) && s0 == old(s0) && spent == [] && old(es) + [R.End(0)] <= es && Blank(s)
      ensures s.durable == Durable(old(s))
      ensures start < |old(s).disk| && |old(s).lh| <= LOGBLOCKS
      ensures (forall w :: w in GroupOf(old(s).lh, old(s).cache) ==> w.bno < UINT_LIMIT)
      ensures lg.bc.abs.writes ==
          old(lg.bc.abs).writes + CommitWrites(start, old(s).disk, GroupOf(old(s).lh, old(s).cache))
    {
      hide Calm, Shows, HeadOk, R.Legal, R.After, R.Init, R.Inv, CommitWrites, Apply, GroupOf, BufsOk, RingOk, Refs,
           Idle, Pending, Blank, Quiet, SameData, R.Do, Durable;
      ghost var lh, abs := lg.block[..lg.n], lg.bc.abs;
      ShowsFacts(start, lh, lg.bc.disk, abs, spent, s);
      ShowsIs(start, lh, lg.bc.disk, abs, spent, s);
      CalmIs(lg.bc.next, lg.bc.prev, lg.bc.ring, lg.bc.buf, lg.bc.disk, lg.bc.abs);
      CalmIdle(start, lh, lg.bc.next, lg.bc.prev, lg.bc.ring, lg.bc.buf, lg.bc.disk, lg.bc.abs);
      PinnedCount(start, lh, abs);
      ghost var fs := LastEnd(start, s0, es, 0);
      var commits := lg.EndOp();
      es, s, spent := es + fs, R.After(start, s0, es + fs), [];
      CalmBoot(lg.bc.next, lg.bc.prev, lg.bc.ring, lg.bc.buf, lg.bc.disk, lg.bc.abs);
      ShowsBlank(start, lg.bc.disk, lg.bc.abs, s);
      assert lg.block[..0] == [];
    }

    /** An end_op that leaves others behind. */
    method LeaveOp(i: nat)
      requires Valid() && i < |spent| && |spent| > 1
      modifies this, lg, lg.bc
      ensures Valid() && lg == old(lg) && s0 == old(s0) && spent == old(spent)[..i] + old(spent)[i + 1..]
      ensures es == old(es) + [R.End(i)]
    {
      hide Calm, Shows, HeadOk, R.Legal, R.After, R.Init, R.Inv, CommitWrites, Apply, GroupOf, BufsOk, RingOk, Refs,
           Idle, Pending;
      ghost var lh, abs := lg.block[..lg.n], lg.bc.abs;
      ShowsFacts(start, lh, lg.bc.disk, abs, spent, s);
      ShowsIs(start, lh, lg.bc.disk, abs, spent, s);
      CalmIs(lg.bc.next, lg.bc.prev, lg.bc.ring, lg.bc.buf, lg.bc.disk, lg.bc.abs);
      var commits := lg.EndOp();
      ShowsEnd(start, lh, lg.bc.disk, abs, spent, s, i);
      CalmAgain(lg.bc.next, lg.bc.prev, lg.bc.ring, lg.bc.buf, lg.bc.disk, lg.bc.abs);
      Step(R.End(i));
      spent := spent[..i] + spent[i + 1..];
    }

    /** end_op: operation i leaves, and the last one commits.  It panics exactly when it is the last and the
        log is full. */
    method EndOp(i: nat) returns (ok: bool)
      requires Valid() && i < |spent|
      modifies this, lg, lg.bc
      ensures Valid() && lg == old(lg) && s0 == old(s0) && (ok <==> !(old(|spent|) == 1 && old(lg.n) == LOGBLOCKS))
      ensures if ok then old(es) + [R.End(i)] <= es
          else es == old(es) && s == old(s) && lg.n == old(lg.n) && spent == old(spent)
      ensures ok && old(|spent|) > 1 ==> es == old(es) + [R.End(i)]
      ensures ok ==> spent == old(spent)[..i] + old(spent)[i + 1..]
      ensures ok && spent == [] ==> Blank(s) && s.durable == Durable(old(s))
    {
      hide Calm, Shows, R.Legal, R.After, R.Init, CommitWrites, GroupOf, Blank, Durable;
      ok := !(|spent| == 1 && lg.n == LOGBLOCKS);
      if ok {
        if |spent| == 1 {
          LastOp();
        } else {
          LeaveOp(i);
        }
      }
    }

    /** The power fails between calls, and the machine boots again. */
    method Restart()
      requires Valid()
      modifies this
      ensures Valid() && fresh(lg) && fresh(lg.bc) && s0 == old(s0) && spent == [] && old(es) + [R.Crash] <= es
      ensures Blank(s) && s.durable == old(s).durable
    {
      hide Calm, Shows, HeadOk, R.Legal, R.After, R.Init, R.Inv, RecoveryWrites, Apply, BufsOk, RingOk, Refs, Idle;
      ghost var lh, s1 := lg.block[..lg.n], s;
      ShowsFacts(start, lh, lg.bc.disk, lg.bc.abs, spent, s);
      ShowsIs(start, lh, lg.bc.disk, lg.bc.abs, spent, s);
      var bc := new Cache(lg.bc.disk);
      var l := new Logger(bc, start);
      l.RecoverFromLog();
      ghost var mid := R.Do(start, s, R.Crash);
      Step(R.Crash);
      One(start, s1, R.Crash);
      ghost var fs := RecoverRun(start, mid);
      Append(start, s0, es, fs);
      es, s := es + fs, R.After(start, mid, fs);
      CalmBoot(bc.next, bc.prev, bc.ring, bc.buf, bc.disk, bc.abs);
      ShowsBlank(start, bc.disk, bc.abs, s);
      assert l.block[..0] == [];
      lg, spent := l, [];
    }

    /** One call; those that name no operation, a block of the log or a block beyond the disk, or that would
        break an operation's promise of MAXOPBLOCKS blocks, do nothing. */
    method Exec(c: Call) returns (ok: bool, got: Option<Block>)
      requires Valid()
      modifies this, lg, lg.bc
      ensures Valid() && (lg == old(lg) || fresh(lg)) && (lg.bc == old(lg.bc) || fresh(lg.bc)) && s0 == old(s0)
      ensures old(es) <= es
      ensures !ok <==> Fails(start, c, old(s))
      ensures if ok then Called(start, c, old(s), es[|old(es)|..], s, got) else es == old(es) && s == old(s)
    {
      hide Calm, Shows, HeadOk, R.Legal, R.After, R.Init, R.Inv, Seen, Blank, CommitWrites, Durable;
      ok, got := true, None;
      ShowsIs(start, lg.block[..lg.n], lg.bc.disk, lg.bc.abs, spent, s);
      match c {
        case Begin => var _ := BeginOp();
        case Put(i, b, data) =>
          if i < |spent| && b < |lg.bc.disk| && !InLog(start, b) && (b in lg.block[..lg.n] || spent[i] < MAXOPBLOCKS) {
            ok := Put(i, b, data);
          }
        case Get(b) =>
          if b < |lg.bc.disk| {
            var data;
            ok, data := Get(b);
            got := Some(data);
          }
        case End(i) =>
          if i < |spent| {
            ok := EndOp(i);
          }
        case Restart => Restart();
      }
      ghost var fs := es[|old(es)|..];
      assert es == old(es) + fs;
      Split(start, s0, old(es), fs);
    }

    /** Any sequence of calls from boot, up to its end or a panic: one legal run of LogRuns, call by call, whose
        disk is this disk. */
    method Run(calls: seq<Call>)
      returns (gots: seq<Option<Block>>, ghost states: seq<R.State>, ghost runs: seq<seq<R.Step>>)
      requires Valid()
      modifies this, lg, lg.bc
      ensures Valid() && |gots| <= |calls| && s0 == old(s0) && old(es) <= es
      ensures |gots| < |calls| ==> Fails(start, calls[|gots|], s)
      ensures R.Init(start, s0) && R.Legal(start, s0, es) && R.After(start, s0, es).disk == lg.bc.disk
      ensures |runs| == |gots| && |states| == |gots| + 1 && states[0] == old(s) && states[|gots|] == s
      ensures forall j: nat :: j < |gots| ==> Called(start, calls[j], states[j], runs[j], states[j + 1], gots[j])
    {
      hide Calm, HeadOk, R.Legal, R.After, R.Init, R.Inv, Fails, Pending, Called;
      gots, states, runs := [], [s], [];
      while |gots| < |calls|
        invariant |gots| <= |calls| && Valid() && s0 == old(s0) && old(es) <= es
        invariant (lg == old(lg) || fresh(lg)) && (lg.bc == old(lg.bc) || fresh(lg.bc))
        invariant |runs| == |gots| && |states| == |gots| + 1 && states[0] == old(s) && states[|gots|] == s
        invariant forall j: nat :: j < |gots| ==> Called(start, calls[j], states[j], runs[j], states[j + 1], gots[j])
      {
        ghost var m := |es|;
        var ok, got := Exec(calls[|gots|]);
        if !ok {
          return;
        }
        gots, states, runs := gots + [got], states + [s], runs + [es[m..]];
      }
    }
  }
}
