/** The logging system as its callers see it: every block has contents now and contents that a power failure
    leaves, and each call changes them as it would on a plain disk. */
module LogLaws {
  import opened Basics
  import opened Blocks
  import opened DiskLog
  import R = LogRuns
  import L = LogSystem

  /** What a reader sees in a block, what is left of it after a power failure, and the outstanding operations. */
  datatype Cell = Cell(now: Block, safe: Block, open: nat)

  /** A block outside the log. */
  ghost predicate Home(start: nat, s: R.State, b: nat) { b < |s.disk| && b < UINT_LIMIT && !(start <= b <= start + 30) }

  ghost function CellOf(s: R.State, b: nat): Cell
    requires b < |s.disk| && b < |R.Replay(s.init, s.durable)|
  {
    Cell(L.Seen(s, b), R.Replay(s.init, s.durable)[b], |s.active|)
  }

  /** One call, as it changes block b. */
  ghost predicate CellStep(c: L.Call, takes: bool, x: Cell, y: Cell, b: nat, got: Option<Block>) {
    match c
    case Begin => y.now == x.now && y.safe == x.safe && (y.open == x.open || y.open == x.open + 1)
    case Put(i, bno, data) => y == if bno == b && takes then x.(now := data) else x
    case Get(bno) => y == x && (bno == b ==> got == Some(x.now))
    case End(i) =>
      y == if i >= x.open then x else if x.open == 1 then Cell(x.now, x.now, 0) else x.(open := x.open - 1)
    case Restart => y == Cell(x.safe, x.safe, 0)
  }

  lemma Sized(start: nat, s: R.State)
    requires R.Inv(start, s) && s.phase.Running?
    ensures |R.Replay(s.init, s.durable)| == |s.disk|
  {
  }

  /** A reader sees the durable groups and, over them, the group in the log. */
  lemma SeenNow(start: nat, s: R.State, b: nat)
    requires R.Inv(start, s) && s.phase.Running? && Home(start, s, b)
    ensures |R.Replay(s.init, s.durable)| == |s.disk|
    ensures L.Seen(s, b) == Apply(R.Replay(s.init, s.durable), R.Writes(s.cur))[b]
  {
    hide R.HistoryInv, R.SpaceInv, R.Replay;
    ApplyAt(R.Replay(s.init, s.durable), R.Writes(s.cur), b);
  }

  lemma {:induction false} NothingCurrent(start: nat, s: R.State)
    requires R.Inv(start, s) && s.phase.Running? && s.lh == []
    ensures s.cur == []
  {
    hide R.HistoryInv, R.SpaceInv, R.Replay;
    if s.cur != [] {
      var ws := R.Writes(s.cur);
      var b := ws[|ws| - 1].bno;
      assert s.cur[|ws| - 1] in s.cur;
      assert b !in s.lh && b !in s.cache;
      L.LastIsFinal(ws);
      assert false;
    }
  }

  /** Once the group in the log is durable, what a reader sees is safe. */
  lemma EndsSafe(start: nat, s: R.State, s': R.State, b: nat)
    requires R.Inv(start, s) && s.phase.Running? && Home(start, s, b) && R.Inv(start, s') && L.Blank(s')
    requires s'.init == s.init && s'.durable == L.Durable(s) && |s'.disk| == |s.disk|
    ensures |R.Replay(s.init, s.durable)| == |s.disk| == |R.Replay(s'.init, s'.durable)|
    ensures L.Seen(s, b) == R.Replay(s'.init, s'.durable)[b] == L.Seen(s', b)
  {
    SeenNow(start, s, b);
    SeenNow(start, s', b);
    hide R.Inv, Apply, L.Seen;
    assert R.Writes(s'.cur) == [];
    if s.lh == [] {
      NothingCurrent(start, s);
      assert R.Writes(s.cur) == [];
    } else {
      assert (s.durable + [s.cur])[..|s.durable|] == s.durable;
    }
  }

  lemma DiskSize(start: nat, s: R.State)
    requires R.Inv(start, s)
    ensures |s.disk| == |s.init|
  {
  }

  /** A log_write changes what a reader sees of its own block, and nothing a power failure would leave. */
  lemma PutCell(start: nat, s: R.State, i: nat, bno: Uint, data: Block, b: nat)
    requires R.Inv(start, s) && R.Can(start, s, R.LogWrite(i, bno, data)) && Home(start, s, b)
    ensures var s' := R.Do(start, s, R.LogWrite(i, bno, data));
            && s'.disk == s.disk && |R.Replay(s.init, s.durable)| == |s.disk| && s'.init == s.init
            && s'.durable == s.durable
            && CellOf(s', b) == if bno == b then CellOf(s, b).(now := data) else CellOf(s, b)
  {
    Sized(start, s);
    hide R.Inv, R.Replay;
  }

  lemma LastCell(start: nat, s: R.State, fs: seq<R.Step>, s': R.State, b: nat)
    requires R.Inv(start, s) && s.phase.Running? && Home(start, s, b)
    requires R.Legal(start, s, fs) && s' == R.After(start, s, fs) && L.Blank(s')
    ensures Home(start, s', b) && |R.Replay(s.init, s.durable)| == |s.disk|
    ensures |R.Replay(s'.init, s'.durable)| == |s'.disk|
    ensures s'.durable == L.Durable(s) ==> CellOf(s', b) == Cell(CellOf(s, b).now, CellOf(s, b).now, 0)
    ensures s'.durable == s.durable ==> CellOf(s', b) == Cell(CellOf(s, b).safe, CellOf(s, b).safe, 0)
  {
    hide R.Inv, R.Legal, R.After, R.Replay, L.Seen, L.Durable, Apply;
    R.RunInv(start, s, fs);
    DiskSize(start, s);
    DiskSize(start, s');
    Sized(start, s);
    Sized(start, s');
    SeenNow(start, s', b);
    assert R.Writes(s'.cur) == [];
    ApplyNone(R.Replay(s'.init, s'.durable));
    if s'.durable == L.Durable(s) {
      EndsSafe(start, s, s', b);
    }
  }

  lemma ApplyNone(d: Disk)
    ensures Apply(d, []) == d
  {
  }

  /** Every call of a run does to every block what it says. */
  lemma CallIs(start: nat, c: L.Call, s: R.State, fs: seq<R.Step>, s': R.State, got: Option<Block>, b: nat)
    requires R.Inv(start, s) && s.phase.Running? && Home(start, s, b) && L.Called(start, c, s, fs, s', got)
    ensures Home(start, s', b) && |R.Replay(s.init, s.durable)| == |s.disk|
    ensures |R.Replay(s'.init, s'.durable)| == |s'.disk|
    ensures CellStep(c, L.Applies(start, c, s), CellOf(s, b), CellOf(s', b), b, got)
  {
    hide R.Inv, R.Replay, R.Legal, R.After, L.Durable, L.Fails;
    Sized(start, s);
    StepsAre(start, s, fs);
    match c
    case Begin => return;
    case Put(i, bno, data) =>
      if L.Applies(start, c, s) {
        PutCell(start, s, i, bno, data, b);
      }
    case Get(_) => return;
    case End(i) =>
      if i < |s.active| == 1 {
        LastCell(start, s, fs, s', b);
      }
    case Restart =>
      LastCell(start, s, fs, s', b);
  }

  lemma StepsAre(start: nat, s: R.State, fs: seq<R.Step>)
    requires R.Legal(start, s, fs)
    ensures fs == [] ==> R.After(start, s, fs) == s
    ensures |fs| == 1 ==> R.Can(start, s, fs[0]) && R.After(start, s, fs) == R.Do(start, s, fs[0])
  {
    hide R.Do, R.Can;
    if |fs| == 1 {
      assert fs[1..] == [];
      assert R.Legal(start, R.Do(start, s, fs[0]), []);
    }
  }

  /** A call panics only when all 30 slots are taken: any log_write, a read of a block that is not logged, and the end
      of the last operation. */
  lemma FailsIs(start: nat, c: L.Call, s: R.State)
    ensures L.Fails(start, c, s) <==>
            && |s.lh| >= 30
            && match c
               case Put(i, b, _) => L.Applies(start, c, s)
               case Get(b) => b < |s.disk| && forall i: nat :: i < |s.lh| ==> s.lh[i] != b
               case End(i) => i == 0 && |s.active| == 1
               case _ => false
  {
  }
}
