/** The multi-level feedback queue scheduler of kernel/proc.c on one CPU: four queues of processes,
    longer time slices further down, demotion of those that compute, and a boost when the scheduler looks
    for a process at a tick that is a multiple of 128. */
module Mlfq {
  import opened Basics

  const LEVELS: nat := 4
  const CLOCK: nat := 0x1_0000_0000   // ticks is a uint
  const TICKSCHAN: nat := 0       // the channel of sys_pause, &ticks
  const NEW := Proc(Unused, 0, 0, 0, 0, 0)

  datatype State = Unused | Sleeping | Runnable | Running | Zombie

  datatype Proc = Proc(state: State, qlevel: nat, pticks: nat, sysCount: nat, dSysCount: nat, chan: nat)

  type Queues = seq<seq<nat>>

  // ----- the queues hold exactly the runnable processes -----

  /** What queue l may hold: runnable processes of that level, each once. */
  ghost predicate LevelOk(procs: seq<Proc>, s: seq<nat>, l: nat) {
    && Distinct(s)
    && forall i: nat :: i < |s| ==> s[i] < |procs| && procs[s[i]].state == Runnable && procs[s[i]].qlevel == l
  }

  /** Each runnable process is in the queue of its level, once, but for those lost by a kill, and nothing
      else is queued. */
  ghost predicate QueuesOk(procs: seq<Proc>, q: Queues, lost: set<nat>) {
    && |q| == LEVELS
    && (forall p: nat :: p < |procs| ==> procs[p].qlevel < LEVELS)
    && (forall l: nat :: l < LEVELS ==> LevelOk(procs, q[l], l))
    && (forall p: nat :: p < |procs| && procs[p].state == Runnable && p !in lost ==> p in q[procs[p].qlevel])
    && (forall p: nat :: p in lost ==> p < |procs| && procs[p].state == Runnable && p !in q[procs[p].qlevel])
  }

  /** At most one process runs: the one the CPU is at, or none (-1). */
  ghost predicate CpuOk(procs: seq<Proc>, cur: int) {
    -1 <= cur < |procs| && forall p: nat :: p < |procs| ==> (procs[p].state == Running <==> p == cur)
  }

  function Pushed(q: Queues, l: nat, p: nat): Queues
    requires l < |q|
  {
    q[l := q[l] + [p]]
  }

  /** A process that becomes runnable goes to the end of its queue. */
  lemma PushOk(procs: seq<Proc>, q: Queues, lost: set<nat>, p: nat, me: Proc)
    requires QueuesOk(procs, q, lost) && p < |procs| && procs[p].state != Runnable && me.state == Runnable
    requires me.qlevel < LEVELS
    ensures QueuesOk(procs[p := me], Pushed(q, me.qlevel, p), lost)
  {
  }

  /** A process that is not runnable may change as it likes. */
  lemma OffQueueOk(procs: seq<Proc>, q: Queues, lost: set<nat>, p: nat, me: Proc)
    requires QueuesOk(procs, q, lost) && p < |procs| && procs[p].state != Runnable && me.state != Runnable
    requires me.qlevel < LEVELS
    ensures QueuesOk(procs[p := me], q, lost)
  {
  }

  /** There is always room for a process that is not queued, so push_proc never drops one. */
  lemma Room(procs: seq<Proc>, q: Queues, lost: set<nat>, p: nat, l: nat)
    requires QueuesOk(procs, q, lost) && p < |procs| && procs[p].state != Runnable && l < LEVELS
    ensures |q[l]| < |procs|
  {
    assert LevelOk(procs, q[l], l);
    assert p !in q[l];
    AtMost(q[l] + [p], |procs|);
  }

  // ----- time slices, boost, wakeup -----

  /** ticks_max, as qinit fills it. */
  function Slice(level: nat): (n: nat)
    ensures n >= 2
  {
    if level == 0 then 2 else 2 * Slice(level - 1)
  }

  /** The values ticks_max takes. */
  const TICKS: seq<nat> := [2, 4, 8, 16]

  lemma Slices()
    ensures Slice(0) == 2 && Slice(1) == 4 && Slice(2) == 8 && Slice(3) == 16
  {
    assert Slice(1) == 2 * Slice(0) && Slice(2) == 2 * Slice(1) && Slice(3) == 2 * Slice(2);
  }

  predicate HigherWaiting(q: Queues, level: nat) { exists l: nat :: l < level && l < |q| && q[l] != [] }

  /** event_tick gives up the CPU: the slice is used up, or a higher queue has someone waiting. */
  predicate GivesUp(me: Proc, q: Queues) { me.pticks + 1 >= Slice(me.qlevel) || HigherWaiting(q, me.qlevel) }

  /** The process after a tick: demoted at the end of a slice if it made fewer system calls than it used ticks. */
  function Ticked(me: Proc, q: Queues): Proc {
    var t := me.pticks + 1;
    var me1 :=
      if t >= Slice(me.qlevel) then
        me.(pticks := 0, dSysCount := me.sysCount,
            qlevel := if me.sysCount - me.dSysCount < t && me.qlevel < LEVELS - 1 then me.qlevel + 1 else me.qlevel)
      else me.(pticks := t);
    if GivesUp(me, q) then me1.(state := Runnable) else me1
  }

  predicate Wakes(p: Proc, chan: nat) { p.state == Sleeping && p.chan == chan }

  function WokenProc(p: Proc, chan: nat): Proc { if Wakes(p, chan) then p.(state := Runnable) else p }

  /** The processes below n that a wakeup moves to queue l, in table order. */
  function WokenAt(procs: seq<Proc>, chan: nat, l: nat, n: nat): seq<nat>
    requires n <= |procs|
  {
    if n == 0 then []
    else WokenAt(procs, chan, l, n - 1) + if Wakes(procs[n - 1], chan) && procs[n - 1].qlevel == l then [n - 1] else []
  }

  /** The process table when wakeup has looked at the first n. */
  function WokenProcs(procs: seq<Proc>, chan: nat, n: nat): seq<Proc>
    requires n <= |procs|
  {
    seq(|procs|, i requires 0 <= i < |procs| => if i < n then WokenProc(procs[i], chan) else procs[i])
  }

  predicate Active(p: Proc) { p.state == Runnable || p.state == Running }

  function BoostedProc(p: Proc): Proc { if Active(p) then p.(qlevel := 0, pticks := 0, dSysCount := p.sysCount) else p }

  function BoostedProcs(procs: seq<Proc>, n: nat): seq<Proc>
    requires n <= |procs|
  {
    seq(|procs|, i requires 0 <= i < |procs| => if i < n then BoostedProc(procs[i]) else procs[i])
  }

  function ActiveBelow(procs: seq<Proc>, n: nat): seq<nat>
    requires n <= |procs|
  {
    if n == 0 then [] else ActiveBelow(procs, n - 1) + if Active(procs[n - 1]) then [n - 1] else []
  }

  lemma {:induction false} ActiveBelowIs(procs: seq<Proc>, n: nat)
    requires n <= |procs|
    ensures forall p: nat :: p in ActiveBelow(procs, n) <==> p < n && Active(procs[p])
    ensures Distinct(ActiveBelow(procs, n)) && |ActiveBelow(procs, n)| <= n
  {
    if n > 0 {
      ActiveBelowIs(procs, n - 1);
    }
  }

  lemma BoostedHead(procs: seq<Proc>)
    requires CpuOk(procs, -1)
    ensures LevelOk(BoostedProcs(procs, |procs|), ActiveBelow(procs, |procs|), 0)
  {
    ActiveBelowIs(procs, |procs|);
    var procs', s := BoostedProcs(procs, |procs|), ActiveBelow(procs, |procs|);
    hide ActiveBelow;
    forall i: nat | i < |s|
      ensures s[i] < |procs'| && procs'[s[i]].state == Runnable && procs'[s[i]].qlevel == 0
    {
      assert s[i] in s;
    }
  }

  lemma BoostedCpu(procs: seq<Proc>, p: nat)
    requires CpuOk(procs, -1) && p < |procs| && procs[p].qlevel < LEVELS
    ensures var r := BoostedProcs(procs, |procs|)[p];
            r.state != Running && r.qlevel < LEVELS &&
              (r.state == Runnable ==> r.qlevel == 0 && p in ActiveBelow(procs, |procs|))
  {
    ActiveBelowIs(procs, |procs|);
    hide ActiveBelow;
  }

  /** Only level 0 has anyone. */
  function TopOnly(s: seq<nat>): (q: Queues)
    ensures |q| == LEVELS && q[0] == s && forall l: nat :: 0 < l < LEVELS ==> q[l] == []
  {
    [s, [], [], []]
  }

  lemma PushTop(s: seq<nat>, p: nat)
    ensures Pushed(TopOnly(s), 0, p) == TopOnly(s + [p])
  {
  }

  /** The queues after a boost: everyone at level 0, in table order. */
  function Boosted(procs: seq<Proc>): Queues { TopOnly(ActiveBelow(procs, |procs|)) }

  /** With nobody running, a boost rebuilds the invariant whatever the queues held before. */
  lemma BoostOk(procs: seq<Proc>)
    requires CpuOk(procs, -1) && forall p: nat :: p < |procs| ==> procs[p].qlevel < LEVELS
    ensures QueuesOk(BoostedProcs(procs, |procs|), Boosted(procs), {})
    ensures CpuOk(BoostedProcs(procs, |procs|), -1)
  {
    hide ActiveBelow, BoostedProc, TopOnly;
    BoostedHead(procs);
    var procs', q := BoostedProcs(procs, |procs|), Boosted(procs);
    forall p: nat | p < |procs|
      ensures procs'[p].state != Running && procs'[p].qlevel < LEVELS
      ensures (procs'[p].state == Runnable ==> procs'[p].qlevel == 0 && p in q[0])
    {
      BoostedCpu(procs, p);
    }
    assert forall l: nat :: l < LEVELS ==> LevelOk(procs', q[l], l);
    assert |procs'| == |procs|;
    hide LevelOk, BoostedProcs;
  }

  ghost predicate Grown(procs: seq<Proc>, q: Queues, chan: nat, n: nat, q': Queues)
    requires n <= |procs|
  {
    |q'| == |q| == LEVELS && forall l: nat :: l < LEVELS ==> q'[l] == q[l] + WokenAt(procs, chan, l, n)
  }

  // ----- the kernel's data -----

  /** The arrays of pqueue show the queues q: row l up to tail[l] is queue l. */
  ghost predicate Shows(rows: array2<nat>, tails: array<nat>, q: Queues)
    reads rows, tails
  {
    && |q| == LEVELS && rows.Length0 == LEVELS && tails.Length == LEVELS
    && (forall l: nat :: l < LEVELS ==> tails[l] == |q[l]| <= rows.Length1)
    && (forall l: nat, i: nat :: l < LEVELS && i < |q[l]| ==> rows[l, i] == q[l][i])
  }

  /** push_proc: a full queue drops the process. */
  method Push(rows: array2<nat>, tails: array<nat>, level: nat, p: nat, ghost q: Queues)
    requires Shows(rows, tails, q) && level < LEVELS
    modifies rows, tails
    ensures Shows(rows, tails, if |q[level]| < rows.Length1 then Pushed(q, level, p) else q)
  {
    var tail := tails[level];
    if tail < rows.Length1 {
      rows[level, tail] := p;
      tail := tail + 1;
    }
    tails[level] := tail;
  }

  /** pop_proc: the queue moves up by one. */
  method Pop(rows: array2<nat>, tails: array<nat>, level: nat, ghost q: Queues)
    requires Shows(rows, tails, q) && level < LEVELS
    modifies rows, tails
    ensures Shows(rows, tails, if q[level] == [] then q else q[level := q[level][1..]])
  {
    if tails[level] < 1 {
      return;
    }
    ghost var s := q[level];
    var i := 1;
    while i < tails[level]
      invariant 1 <= i <= tails[level] == |s| && tails[..] == old(tails[..])
      invariant forall l: nat, k: nat :: l < LEVELS && l != level && k < |q[l]| ==> rows[l, k] == q[l][k]
      invariant forall k: nat :: k < i - 1 ==> rows[level, k] == s[1..][k]
      invariant forall k: nat :: i - 1 <= k < |s| ==> rows[level, k] == s[k]
    {
      rows[level, i - 1] := rows[level, i];
      i := i + 1;
    }
    tails[level] := tails[level] - 1;
  }

  datatype Op =
    | Fork(p: nat)        // userinit or kfork: the unused slot p becomes a runnable process
    | Schedule            // one turn of the scheduler, when no process has the CPU
    | Tick                // a timer interrupt
    | Sleep(chan: nat)    // the running process sleeps
    | Wakeup(chan: nat)   // the running process, or an interrupt, wakes a channel
    | Exit                // the running process exits
    | Reap(p: nat)        // a zombie is freed
    | Kill(p: nat)        // the process in slot p is killed
    | Syscall             // the running process enters the kernel

  /** Everything the scheduler keeps, as one value. */
  datatype Machine = Machine(procs: seq<Proc>, q: Queues, cur: int, lost: set<nat>)

  ghost predicate MachineOk(m: Machine) { QueuesOk(m.procs, m.q, m.lost) && CpuOk(m.procs, m.cur) }

  lemma QueuesAre(m: Machine)
    requires MachineOk(m)
    ensures |m.q| == LEVELS && -1 <= m.cur < |m.procs| && forall p: nat :: p < |m.procs| ==> m.procs[p].qlevel < LEVELS
  {
  }

  /** The running process stops, with its new record off the queues or at the end of one. */
  function Stopped(m: Machine, me: Proc): Machine
    requires 0 <= m.cur < |m.procs| && me.qlevel < |m.q|
  {
    Machine(m.procs[m.cur := me], if me.state == Runnable then Pushed(m.q, me.qlevel, m.cur) else m.q,
            if me.state == Running then m.cur else -1, m.lost)
  }

  lemma StoppedOk(m: Machine, me: Proc)
    requires MachineOk(m) && m.cur >= 0 && me.qlevel < LEVELS
    ensures MachineOk(Stopped(m, me))
  {
  }

  /** l is the first queue with someone in it. */
  predicate FirstWaiting(q: Queues, l: nat) { l < |q| && q[l] != [] && forall k: nat :: k < l ==> q[k] == [] }

  /** The head of queue l gets the CPU. */
  function Dispatched(m: Machine, l: nat): Machine
    requires l < |m.q| && m.q[l] != [] && m.q[l][0] < |m.procs|
  {
    Machine(m.procs[m.q[l][0] := m.procs[m.q[l][0]].(state := Running)], m.q[l := m.q[l][1..]], m.q[l][0], m.lost)
  }

  lemma DispatchedOk(m: Machine, l: nat)
    requires MachineOk(m) && m.cur == -1 && l < LEVELS && m.q[l] != []
    ensures m.q[l][0] < |m.procs| && m.procs[m.q[l][0]].state == Runnable && MachineOk(Dispatched(m, l))
  {
  }

  /** The moment of a boost: the tick count is a positive multiple of 128 not yet served. */
  predicate BoostDue(ticks: nat, last: nat) { ticks > 0 && ticks % 128 == 0 && ticks != last }

  /** The machine when the scheduler starts looking for a process. */
  function AtSchedule(m: Machine, ticks: nat, last: nat): Machine {
    if BoostDue(ticks, last) then Machine(BoostedProcs(m.procs, |m.procs|), Boosted(m.procs), m.cur, {}) else m
  }

  lemma BoostStep(procs: seq<Proc>, p: nat)
    requires p < |procs|
    ensures BoostedProcs(procs, p)[p] == procs[p]
    ensures BoostedProcs(procs, p + 1) == BoostedProcs(procs, p)[p := BoostedProc(procs[p])]
    ensures !Active(procs[p]) ==> BoostedProc(procs[p]) == procs[p]
    ensures |ActiveBelow(procs, p)| <= p
    ensures ActiveBelow(procs, p + 1) == if Active(procs[p]) then ActiveBelow(procs, p) + [p] else ActiveBelow(procs, p)
  {
    ActiveBelowIs(procs, p);
  }

  lemma BoostNone(procs: seq<Proc>)
    ensures BoostedProcs(procs, 0) == procs && ActiveBelow(procs, 0) == []
  {
  }

  lemma TickedOk(me: Proc, q: Queues)
    requires me.qlevel < LEVELS && me.state == Running
    ensures Ticked(me, q).qlevel < LEVELS && Ticked(me, q).state == if GivesUp(me, q) then Runnable else Running
  {
  }

  lemma RunningIs(m: Machine)
    requires MachineOk(m) && m.cur >= 0
    ensures m.procs[m.cur].state == Running && QueuesOk(m.procs, m.q, m.lost)
  {
  }

  lemma WakeNone(procs: seq<Proc>, q: Queues, chan: nat)
    requires |q| == LEVELS
    ensures WokenProcs(procs, chan, 0) == procs && Grown(procs, q, chan, 0, q)
  {
  }

  lemma WakeOk(m: Machine, p: nat)
    requires MachineOk(m) && p < |m.procs| && m.procs[p].state == Sleeping
    ensures m.procs[p].qlevel < LEVELS && QueuesOk(m.procs, m.q, m.lost)
    ensures var woken := m.procs[p := m.procs[p].(state := Runnable)];
            MachineOk(Machine(woken, Pushed(m.q, m.procs[p].qlevel, p), m.cur, m.lost))
  {
  }

  /** One turn of wakeup's loop. */
  lemma WakeStep(procs: seq<Proc>, q: Queues, chan: nat, p: nat, m: Machine, m': Machine)
    requires p < |procs| && m.procs == WokenProcs(procs, chan, p) && Grown(procs, q, chan, p, m.q) && MachineOk(m)
    requires m' == if Wakes(m.procs[p], chan) && p != m.cur then
                     var woken := m.procs[p := m.procs[p].(state := Runnable)];
                     Machine(woken, Pushed(m.q, m.procs[p].qlevel, p), m.cur, m.lost)
                   else m
    ensures m'.procs == WokenProcs(procs, chan, p + 1) && Grown(procs, q, chan, p + 1, m'.q)
  {
  }

  /** kkill: a sleeper becomes runnable without being queued. */
  function Killed(procs: seq<Proc>, p: nat): seq<Proc>
    requires p < |procs|
  {
    if procs[p].state == Sleeping then procs[p := procs[p].(state := Runnable)] else procs
  }

  /** kkill keeps the queues complete exactly when its victim is not asleep; otherwise the victim is lost. */
  lemma KillStrands(m: Machine, p: nat)
    requires MachineOk(m) && p < |m.procs|
    ensures MachineOk(m.(procs := Killed(m.procs, p))) <==> m.procs[p].state != Sleeping
    ensures m.procs[p].state == Sleeping ==> MachineOk(m.(procs := Killed(m.procs, p), lost := m.lost + {p}))
  {
    if m.procs[p].state == Sleeping {
      var procs', l := Killed(m.procs, p), m.procs[p].qlevel;
      assert LevelOk(m.procs, m.q[l], l);
      assert procs'[p].state == Runnable && procs'[p].qlevel == l && p !in m.q[l] && p !in m.lost;
    }
  }

  /** Every runnable process is queued exactly when none is lost. */
  lemma NoneLost(m: Machine)
    requires MachineOk(m)
    ensures m.lost == {} <==>
        forall p: nat :: p < |m.procs| && m.procs[p].state == Runnable ==> p in m.q[m.procs[p].qlevel]
  {
    if m.lost != {} {
      var p :| p in m.lost;
    }
  }

  // ----- the scheduler as a function of its operations -----

  datatype Sys = Sys(m: Machine, ticks: nat, last: nat)

  function FirstFrom(q: Queues, l: nat): nat
    decreases |q| - l
  {
    if l >= |q| || q[l] != [] then l else FirstFrom(q, l + 1)
  }

  /** The head of the first queue that has one gets the CPU. */
  function Picked(m: Machine): Machine {
    var l := FirstFrom(m.q, 0);
    if l < |m.q| && m.q[l] != [] && m.q[l][0] < |m.procs| then Dispatched(m, l) else m
  }

  function WokenUp(m: Machine, chan: nat): Machine {
    Machine(WokenProcs(m.procs, chan, |m.procs|),
            seq(|m.q|, l requires 0 <= l < |m.q| => m.q[l] + WokenAt(m.procs, chan, l, |m.procs|)), m.cur, m.lost)
  }

  predicate HasCpu(m: Machine) { 0 <= m.cur < |m.procs| }

  /** The running process carries on or stops with a new record. */
  function Left(m: Machine, me: Proc): Machine { if HasCpu(m) && me.qlevel < |m.q| then Stopped(m, me) else m }

  function SysStep(s: Sys, op: Op): Sys {
    var m := s.m;
    match op
    case Fork(p) =>
      if p < |m.procs| && m.procs[p].state == Unused && 0 < |m.q| then
        s.(m := Machine(m.procs[p := NEW.(state := Runnable)], Pushed(m.q, 0, p), m.cur, m.lost))
      else s
    case Schedule =>
      if m.cur == -1 then
        Sys(Picked(AtSchedule(m, s.ticks, s.last)), s.ticks, if BoostDue(s.ticks, s.last) then s.ticks else s.last)
      else s
    case Tick =>
      var w := WokenUp(m, TICKSCHAN);
      Sys(if HasCpu(w) then Left(w, Ticked(w.procs[w.cur], w.q)) else w, (s.ticks + 1) % CLOCK, s.last)
    case Sleep(chan) => if HasCpu(m) then s.(m := Left(m, m.procs[m.cur].(state := Sleeping, chan := chan))) else s
    case Wakeup(chan) => s.(m := WokenUp(m, chan))
    case Exit => if HasCpu(m) then s.(m := Left(m, m.procs[m.cur].(state := Zombie))) else s
    case Reap(p) =>
      if p < |m.procs| && m.procs[p].state == Zombie then
        s.(m := m.(procs := m.procs[p := m.procs[p].(state := Unused)]))
      else s
    case Kill(p) =>
      if p < |m.procs| && m.procs[p].state == Sleeping then
        s.(m := m.(procs := Killed(m.procs, p), lost := m.lost + {p}))
      else s
    case Syscall =>
      if HasCpu(m) then
        s.(m := m.(procs := m.procs[m.cur := m.procs[m.cur].(sysCount := m.procs[m.cur].sysCount + 1)]))
      else s
  }

  function SysRun(s: Sys, ops: seq<Op>): Sys {
    if ops == [] then s else SysStep(SysRun(s, ops[..|ops| - 1]), ops[|ops| - 1])
  }

  // ----- how long a killed sleeper waits -----

  predicate Boosts(s: Sys, op: Op) { op.Schedule? && s.m.cur == -1 && BoostDue(s.ticks, s.last) }

  /** No step of the run boosts. */
  predicate NoBoost(s: Sys, ops: seq<Op>) {
    ops == [] || (NoBoost(s, ops[..|ops| - 1]) && !Boosts(SysRun(s, ops[..|ops| - 1]), ops[|ops| - 1]))
  }

  /** p is lost throughout the run. */
  predicate StaysLost(s: Sys, ops: seq<Op>, p: nat) {
    p in SysRun(s, ops).m.lost && (ops == [] || StaysLost(s, ops[..|ops| - 1], p))
  }

  lemma LostStep(s: Sys, op: Op)
    ensures if Boosts(s, op) then SysStep(s, op).m.lost == {} else s.m.lost <= SysStep(s, op).m.lost
  {
    hide Ticked, WokenAt, WokenProcs, BoostedProcs, Boosted, FirstFrom, Slice;
  }

  /** Over any run a killed sleeper stays unqueued exactly until the scheduler boosts. */
  lemma {:induction false} KilledWaits(s: Sys, ops: seq<Op>, p: nat)
    requires p in s.m.lost
    ensures StaysLost(s, ops, p) <==> NoBoost(s, ops)
  {
    hide SysStep;
    if ops != [] {
      KilledWaits(s, ops[..|ops| - 1], p);
      LostStep(SysRun(s, ops[..|ops| - 1]), ops[|ops| - 1]);
    }
  }

  /** The clock when the slice in progress ends. */
  function SliceEnd(ticks: nat, level: nat, pticks: nat): nat { (ticks - pticks + Slice(level)) % CLOCK }

  /** From a slice that ends at tick `end`, a process that computes alone, after `calls` system calls in this
      slice, never ends one at the moment of a boost.  Level 3 is the last, and its slices are 16 ticks, so
      there it is enough not to end one at a multiple of 16. */
  predicate Misses(end: nat, level: nat, calls: int, last: nat)
    decreases 3 - level, calls
  {
    if level >= 3 then end % 16 != 0
    else
      && !BoostDue(end, last)
      && if calls < Slice(level) then Misses((end + Slice(level + 1)) % CLOCK, level + 1, 0, last)
         else Misses((end + Slice(level)) % CLOCK, level, 0, last)
  }

  /** A process that computes has the CPU to itself. */
  ghost predicate Alone(s: Sys) {
    && HasCpu(s.m) && s.m.q == TopOnly([]) && (forall p: nat :: p < |s.m.procs| ==> !Wakes(s.m.procs[p], TICKSCHAN))
    && s.ticks < CLOCK
    && var me := s.m.procs[s.m.cur];
       me.state == Running && me.qlevel < LEVELS && me.pticks < Slice(me.qlevel)
  }

  /** What decides whether a lone process ever lets the scheduler boost. */
  predicate NeverDue(s: Sys) {
    HasCpu(s.m) ==>
      var me := s.m.procs[s.m.cur];
      Misses(SliceEnd(s.ticks, me.qlevel, me.pticks), me.qlevel, me.sysCount - me.dSysCount, s.last)
  }

  /** The level after a slice. */
  function Below(level: nat, calls: int): nat {
    if level < 3 && calls < Slice(level) then level + 1 else level
  }

  /** A slice that goes on still ends at the same tick. */
  lemma SameEnd(ticks: nat, level: nat, pticks: nat)
    requires ticks < CLOCK && pticks + 1 < Slice(level)
    ensures SliceEnd((ticks + 1) % CLOCK, level, pticks + 1) == SliceEnd(ticks, level, pticks)
  {
    hide Slice;
    if ticks + 1 == CLOCK {
      WrapOnce(Slice(level) - pticks - 1);
    }
  }

  lemma WrapOnce(x: int)
    ensures (x + CLOCK) % CLOCK == x % CLOCK
  {
  }

  /** The last tick of a slice is the one it ends at. */
  lemma AtEnd(ticks: nat, level: nat, pticks: nat)
    requires ticks < CLOCK && pticks + 1 == Slice(level)
    ensures SliceEnd(ticks, level, pticks) == (ticks + 1) % CLOCK
  {
    hide Slice;
  }

  lemma Mod16(x: nat)
    ensures x % CLOCK % 16 == x % 16 && (x % 128 == 0 ==> x % 16 == 0)
  {
    assert x == CLOCK * (x / CLOCK) + x % CLOCK;
    assert CLOCK == 16 * 0x1000_0000;
    var a, r := x / CLOCK, x % CLOCK;
    Sixteens(0x1000_0000 * a, r);
    assert x == 128 * (x / 128) + x % 128;
    Sixteens(8 * (x / 128), x % 128);
  }

  lemma Sixteens(a: int, r: int)
    ensures (16 * a + r) % 16 == r % 16
  {
  }

  /** A slice ends without a boost: what decides carries over to the next one. */
  lemma MissesNext(end: nat, level: nat, calls: int, last: nat)
    requires level < LEVELS && end < CLOCK && !BoostDue(end, last)
    ensures var l := Below(level, calls);
            Misses((end + Slice(l)) % CLOCK, l, 0, last) <==> Misses(end, level, calls, last)
  {
    Slices();
    if level == 3 {
      Mod16(end + 16);
      Sixteens(1, end);
    }
  }

  /** A slice ends with a boost. */
  lemma MissesNot(end: nat, level: nat, calls: int, last: nat)
    requires level < LEVELS && BoostDue(end, last)
    ensures !Misses(end, level, calls, last)
  {
    Mod16(end);
  }

  lemma {:induction false} NobodyWakes(procs: seq<Proc>, chan: nat, l: nat, n: nat)
    requires n <= |procs| && forall p: nat :: p < |procs| ==> !Wakes(procs[p], chan)
    ensures WokenAt(procs, chan, l, n) == []
  {
    if n > 0 {
      NobodyWakes(procs, chan, l, n - 1);
    }
  }

  lemma NobodyWoken(m: Machine, chan: nat)
    requires forall p: nat :: p < |m.procs| ==> !Wakes(m.procs[p], chan)
    ensures WokenUp(m, chan) == m
  {
    assert WokenProcs(m.procs, chan, |m.procs|) == m.procs;
    forall l: nat | l < |m.q|
      ensures m.q[l] + WokenAt(m.procs, chan, l, |m.procs|) == m.q[l]
    {
      NobodyWakes(m.procs, chan, l, |m.procs|);
    }
    assert WokenUp(m, chan).q == m.q;
  }

  /** A tick alone: the process goes on, or at the end of its slice goes one level down, if there is one. */
  lemma TickAlone(s: Sys)
    requires Alone(s)
    ensures var m, me, s1 := s.m, s.m.procs[s.m.cur], SysStep(s, Tick);
            && s1.ticks == (s.ticks + 1) % CLOCK && s1.last == s.last
            && if me.pticks + 1 < Slice(me.qlevel) then
                 s1.m == m.(procs := m.procs[m.cur := me.(pticks := me.pticks + 1)])
               else
                 var me1 := me.(state := Runnable, pticks := 0, dSysCount := me.sysCount,
                                qlevel := Below(me.qlevel, me.sysCount - me.dSysCount));
                 s1.m == Machine(m.procs[m.cur := me1], Pushed(TopOnly([]), me1.qlevel, m.cur), -1, m.lost)
  {
    NobodyWoken(s.m, TICKSCHAN);
    hide WokenUp, Slice, TopOnly;
    assert !HigherWaiting(s.m.q, s.m.procs[s.m.cur].qlevel);
  }

  /** The one runnable process gets the CPU back: no boost is due. */
  lemma ScheduleAlone(m: Machine, ticks: nat, last: nat, l: nat, p: nat)
    requires p < |m.procs| && l < LEVELS && m.q == Pushed(TopOnly([]), l, p) && m.cur == -1 && !BoostDue(ticks, last)
    ensures SysStep(Sys(m, ticks, last), Schedule) ==
        Sys(m.(procs := m.procs[p := m.procs[p].(state := Running)], q := TopOnly([]), cur := p), ticks, last)
  {
    hide TopOnly;
    assert m.q[l] == [p];
    FirstFromIs(m.q, l, 0);
    hide FirstFrom;
    assert m.q[l][1..] == [] == TopOnly([])[l];
    assert m.q[l := []] == TopOnly([]);
  }

  /** A tick and a turn of the scheduler within a slice. */
  lemma RoundWithin(s: Sys)
    requires Alone(s) && s.m.procs[s.m.cur].pticks + 1 < Slice(s.m.procs[s.m.cur].qlevel)
    ensures !Boosts(SysStep(s, Tick), Schedule)
    ensures var me := s.m.procs[s.m.cur];
            var s2 := SysStep(SysStep(s, Tick), Schedule);
            && Alone(s2) && s2.m == s.m.(procs := s.m.procs[s.m.cur := me.(pticks := me.pticks + 1)])
            && s2.ticks == (s.ticks + 1) % CLOCK && s2.last == s.last
  {
    hide SysStep, Slice, TopOnly;
    TickAlone(s);
    StaysOnCpu(SysStep(s, Tick));
  }

  /** A tick and a turn of the scheduler at the end of a slice: a boost exactly when one is due. */
  lemma RoundAtEnd(s: Sys)
    requires Alone(s) && s.m.procs[s.m.cur].pticks + 1 == Slice(s.m.procs[s.m.cur].qlevel)
    ensures Boosts(SysStep(s, Tick), Schedule) <==> BoostDue((s.ticks + 1) % CLOCK, s.last)
    ensures var me := s.m.procs[s.m.cur];
            var s2 := SysStep(SysStep(s, Tick), Schedule);
            !BoostDue((s.ticks + 1) % CLOCK, s.last) ==>
              && Alone(s2) && s2.ticks == (s.ticks + 1) % CLOCK && s2.last == s.last && s2.m.lost == s.m.lost
              && s2.m.cur == s.m.cur && |s2.m.procs| == |s.m.procs|
              && s2.m.procs[s.m.cur] == me.(pticks := 0, dSysCount := me.sysCount,
                                            qlevel := Below(me.qlevel, me.sysCount - me.dSysCount))
  {
    hide SysStep, TopOnly;
    Slices();
    TickAlone(s);
    var m, me, s1 := s.m, s.m.procs[s.m.cur], SysStep(s, Tick);
    var l := Below(me.qlevel, me.sysCount - me.dSysCount);
    assert l < LEVELS && Slice(l) > 0;
    hide Slice;
    if !BoostDue(s1.ticks, s1.last) {
      ScheduleAlone(s1.m, s1.ticks, s1.last, l, m.cur);
    }
  }

  /** A round later: alone still, with the same process, and nearer to level 3. */
  ghost predicate Next(s: Sys, s2: Sys)
    requires Alone(s)
  {
    && Alone(s2) && s2.m.cur == s.m.cur && s2.ticks == (s.ticks + 1) % CLOCK && s2.last == s.last
    && s2.m.lost == s.m.lost && (Rank(s2) < Rank(s) || Rank(s2) == Rank(s) == 0)
  }

  /** How many rounds a process with this slice needs to come down to level 3. */
  function ToLast(level: nat, pticks: nat, calls: int): int
    decreases 3 - level, calls
  {
    if level >= 3 then 0
    else
      Slice(level) - pticks + if calls < Slice(level) then ToLast(level + 1, 0, 0) else ToLast(level, 0, 0)
  }

  function Rank(s: Sys): int {
    if !HasCpu(s.m) then 0
    else
      var me := s.m.procs[s.m.cur];
      ToLast(me.qlevel, me.pticks, me.sysCount - me.dSysCount)
  }

  /** A round brings a process nearer to level 3. */
  lemma ToLastNext(level: nat, pticks: nat, calls: int)
    requires level < LEVELS && pticks < Slice(level)
    ensures pticks + 1 < Slice(level) && level < 3 ==>
              ToLast(level, pticks + 1, calls) == ToLast(level, pticks, calls) - 1
    ensures pticks + 1 == Slice(level) && level < 3 ==>
              ToLast(Below(level, calls), 0, 0) == ToLast(level, pticks, calls) - 1
    ensures level < 3 <==> ToLast(level, pticks, calls) > 0
    ensures level == 3 ==> Below(level, calls) == 3 && ToLast(3, pticks + 1, calls) == ToLast(3, 0, 0) == 0
  {
    Slices();
    ToLastNonNegative(level, calls);
  }

  lemma ToLastNonNegative(level: nat, calls: int)
    ensures ToLast(level, 0, calls) >= 0
    decreases 3 - level, calls
  {
  }

  lemma WithinAlone(s: Sys)
    requires Alone(s) && s.m.procs[s.m.cur].pticks + 1 < Slice(s.m.procs[s.m.cur].qlevel)
    ensures !Boosts(SysStep(s, Tick), Schedule)
    ensures var s2 := SysStep(SysStep(s, Tick), Schedule); Next(s, s2) && (NeverDue(s2) <==> NeverDue(s))
  {
    hide SysStep, Slice, TopOnly, Misses, SliceEnd, BoostDue, Boosts, ToLast, Alone;
    RoundWithin(s);
    AloneFacts(s);
    var me := s.m.procs[s.m.cur];
    ToLastNext(me.qlevel, me.pticks, me.sysCount - me.dSysCount);
    SameEnd(s.ticks, me.qlevel, me.pticks);
  }

  lemma EndAlone(s: Sys)
    requires Alone(s) && s.m.procs[s.m.cur].pticks + 1 == Slice(s.m.procs[s.m.cur].qlevel)
    ensures Boosts(SysStep(s, Tick), Schedule) ==> !NeverDue(s)
    ensures var s2 := SysStep(SysStep(s, Tick), Schedule);
            !Boosts(SysStep(s, Tick), Schedule) ==> Next(s, s2) && (NeverDue(s2) <==> NeverDue(s))
  {
    hide SysStep, Slice, TopOnly, Misses, Below, SliceEnd, BoostDue, Boosts, ToLast, Alone;
    RoundAtEnd(s);
    AloneFacts(s);
    var me := s.m.procs[s.m.cur];
    var calls, end := me.sysCount - me.dSysCount, (s.ticks + 1) % CLOCK;
    ToLastNext(me.qlevel, me.pticks, calls);
    AtEnd(s.ticks, me.qlevel, me.pticks);
    if BoostDue(end, s.last) {
      MissesNot(end, me.qlevel, calls, s.last);
    } else {
      MissesNext(end, me.qlevel, calls, s.last);
      FromStart(end, Below(me.qlevel, calls));
    }
  }

  /** A round of a lone process boosts only if that was to come; otherwise the process is alone again and
      what is to come has not changed. */
  lemma RoundAlone(s: Sys)
    requires Alone(s)
    ensures Boosts(SysStep(s, Tick), Schedule) ==> !NeverDue(s)
    ensures var s2 := SysStep(SysStep(s, Tick), Schedule);
            !Boosts(SysStep(s, Tick), Schedule) ==> Next(s, s2) && (NeverDue(s2) <==> NeverDue(s))
  {
    hide SysStep, Slice, NeverDue, Boosts, Next;
    var me := s.m.procs[s.m.cur];
    if me.pticks + 1 < Slice(me.qlevel) {
      WithinAlone(s);
    } else {
      EndAlone(s);
    }
  }

  lemma FromStart(ticks: nat, level: nat)
    ensures SliceEnd(ticks, level, 0) == (ticks + Slice(level)) % CLOCK
  {
  }

  lemma StaysOnCpu(s: Sys)
    requires s.m.cur != -1
    ensures SysStep(s, Schedule) == s
  {
  }

  function Spin(k: nat): seq<Op> { if k == 0 then [] else Spin(k - 1) + [Tick, Schedule] }

  lemma RunTwo(s: Sys, ops: seq<Op>, a: Op, b: Op)
    ensures SysRun(s, ops + [a, b]) == SysStep(SysStep(SysRun(s, ops), a), b)
  {
    hide SysStep;
    assert (ops + [a, b])[..|ops| + 1] == ops + [a] && (ops + [a])[..|ops|] == ops;
    assert SysRun(s, ops + [a]) == SysStep(SysRun(s, ops), a);
  }

  /** One round more. */
  lemma SpinSplit(s: Sys, k: nat)
    ensures var t := SysRun(s, Spin(k));
            && SysRun(s, Spin(k + 1)) == SysStep(SysStep(t, Tick), Schedule)
            && (NoBoost(s, Spin(k + 1)) <==> NoBoost(s, Spin(k)) && !Boosts(SysStep(t, Tick), Schedule))
  {
    hide SysStep;
    var ops := Spin(k);
    RunTwo(s, ops, Tick, Schedule);
    assert Spin(k + 1) == ops + [Tick, Schedule];
    assert (ops + [Tick, Schedule])[..|ops| + 1] == ops + [Tick] && (ops + [Tick])[..|ops|] == ops;
    assert SysRun(s, ops + [Tick]) == SysStep(SysRun(s, ops), Tick);
  }

  lemma ClockNext(ticks: nat, k: nat)
    ensures ((ticks + k) % CLOCK + 1) % CLOCK == (ticks + k + 1) % CLOCK
  {
  }

  lemma AloneFacts(s: Sys)
    requires Alone(s)
    ensures s.ticks < CLOCK && s.ticks % CLOCK == s.ticks && Rank(s) >= 0
    ensures HasCpu(s.m) && s.m.procs[s.m.cur].qlevel < LEVELS
    ensures Rank(s) == 0 ==> s.m.procs[s.m.cur].qlevel == 3
  {
    var me := s.m.procs[s.m.cur];
    ToLastNext(me.qlevel, me.pticks, me.sysCount - me.dSysCount);
    hide ToLast, Slice, TopOnly;
  }

  /** As long as no round boosts, the process stays alone and what is to come stays as it is. */
  lemma {:induction false} StaysAlone(s: Sys, k: nat)
    requires Alone(s) && NoBoost(s, Spin(k))
    ensures var t := SysRun(s, Spin(k));
            && Alone(t) && t.m.lost == s.m.lost && t.last == s.last && t.ticks == (s.ticks + k) % CLOCK
            && (NeverDue(t) <==> NeverDue(s)) && Rank(t) <= if Rank(s) > k then Rank(s) - k else 0
  {
    hide SysStep, Alone, NeverDue, Boosts, Rank;
    if k == 0 {
      AloneFacts(s);
    } else {
      SpinSplit(s, k - 1);
      StaysAlone(s, k - 1);
      RoundAlone(SysRun(s, Spin(k - 1)));
      ClockNext(s.ticks, k - 1);
    }
  }

  /** A lone process whose slices miss the boosts: for any number of ticks nobody is boosted, and a killed
      sleeper stays unqueued. */
  lemma {:induction false} NeverBoosted(s: Sys, k: nat)
    requires Alone(s) && NeverDue(s)
    ensures NoBoost(s, Spin(k)) && SysRun(s, Spin(k)).m.lost == s.m.lost
  {
    hide SysStep, Alone, NeverDue, Boosts, Rank;
    if k > 0 {
      NeverBoosted(s, k - 1);
      StaysAlone(s, k - 1);
      SpinSplit(s, k - 1);
      RoundAlone(SysRun(s, Spin(k - 1)));
    }
    StaysAlone(s, k);
  }

  lemma LastEnd(ticks: nat, pticks: nat)
    requires pticks <= 16
    ensures SliceEnd(ticks, 3, pticks) % 16 == (ticks - pticks) % 16
  {
    Slices();
    hide Slice;
    Mod16(ticks - pticks + 16);
    Sixteens(1, ticks - pticks);
  }

  /** At level 3, with slices that end at multiples of 16, a due tick is the last of a slice. */
  lemma DueAtEnd(ticks: nat, pticks: nat)
    requires ticks < CLOCK - 1 && (ticks + 1) % 128 == 0 && pticks < 16
    requires SliceEnd(ticks, 3, pticks) % 16 == 0
    ensures pticks == 15
  {
    LastEnd(ticks, pticks);
    Mod16(ticks + 1);
    hide SliceEnd;
  }

  /** Otherwise a boost comes. */
  lemma BoostComes(s: Sys) returns (k: nat)
    requires Alone(s) && !NeverDue(s)
    ensures !NoBoost(s, Spin(k))
  {
    hide SysStep, Alone, NeverDue, Boosts, Rank;
    AloneFacts(s);
    var due: nat := if s.last == 128 then 256 else 128;
    var r: nat := Rank(s);
    var j: nat := (due - 1 - s.ticks - r) % CLOCK + r;
    k := j + 1;
    SpinSplit(s, j);
    if NoBoost(s, Spin(j)) {
      StaysAlone(s, j);
      ClockReaches(s.ticks, r, due - 1);
      BoostNow(SysRun(s, Spin(j)));
    }
  }

  lemma ClockReaches(ticks: nat, r: nat, t: nat)
    requires t < CLOCK
    ensures (ticks + ((t - ticks - r) % CLOCK + r)) % CLOCK == t
  {
    var x := t - ticks - r;
    assert x == CLOCK * (x / CLOCK) + x % CLOCK;
    assert ticks + (x % CLOCK + r) == t + CLOCK * -(x / CLOCK);
    Multiples(t, -(x / CLOCK));
  }

  lemma Multiples(t: nat, a: int)
    requires t < CLOCK
    ensures (t + CLOCK * a) % CLOCK == t
  {
  }

  lemma BoostNow(s: Sys)
    requires Alone(s) && !NeverDue(s) && Rank(s) <= 0 && (s.ticks + 1 == 128 || s.ticks + 1 == 256)
    requires s.ticks + 1 != s.last
    ensures Boosts(SysStep(s, Tick), Schedule)
  {
    hide SysStep, SliceEnd, Rank;
    AloneFacts(s);
    Slices();
    var me := s.m.procs[s.m.cur];
    hide Slice;
    DueAtEnd(s.ticks, me.pticks);
    RoundAtEnd(s);
  }

  /** While a process computes alone there is no boost, for any number of ticks, exactly when no slice of its
      way down to level 3 ends at a boost, and those at level 3 do not end at multiples of 16. */
  lemma LoneBoost(s: Sys)
    requires Alone(s)
    ensures (forall k: nat :: NoBoost(s, Spin(k))) <==> NeverDue(s)
  {
    hide SysStep, Alone, NeverDue, Boosts;
    if NeverDue(s) {
      forall k: nat
        ensures NoBoost(s, Spin(k))
      {
        NeverBoosted(s, k);
      }
    } else {
      var k := BoostComes(s);
    }
  }

  /** At level 3 the phase of the clock decides. */
  lemma LastLevelBoost(s: Sys)
    requires Alone(s) && s.m.procs[s.m.cur].qlevel == 3
    ensures (forall k: nat :: NoBoost(s, Spin(k))) <==> (s.ticks - s.m.procs[s.m.cur].pticks) % 16 != 0
  {
    hide NoBoost, SliceEnd, Slice;
    LoneBoost(s);
    Slices();
    LastEnd(s.ticks, s.m.procs[s.m.cur].pticks);
  }

  /** From boot: the first process runs, and forks another. */
  lemma Parent(s: Sys)
    requires s == Sys(Machine([NEW, NEW], TopOnly([]), -1, {}), 0, 0)
    ensures SysStep(SysStep(SysStep(SysStep(s, Fork(0)), Schedule), Syscall), Fork(1)) ==
        Sys(Machine([NEW.(state := Running, sysCount := 1), NEW.(state := Runnable)], TopOnly([1]), 0, {}), 0, 0)
  {
    hide TopOnly;
    var s1 := SysStep(s, Fork(0));
    ScheduleAlone(s1.m, 0, 0, 0, 0);
    var s2 := SysStep(s1, Schedule);
    assert s2.m.procs == [NEW.(state := Running), NEW];
    PushTop([], 1);
    assert [] + [1] == [1];
  }

  /** It goes to sleep, and the other one gets the CPU. */
  lemma Sleeper(s: Sys)
    requires s == Sys(Machine([NEW.(state := Running, sysCount := 1), NEW.(state := Runnable)], TopOnly([1]), 0, {}),
                      0, 0)
    ensures SysStep(SysStep(SysStep(s, Syscall), Sleep(5)), Schedule) ==
        Sys(Machine([NEW.(state := Sleeping, chan := 5, sysCount := 2), NEW.(state := Running)], TopOnly([]), 1, {}),
            0, 0)
  {
    PushTop([], 1);
    assert [] + [1] == [1];
    hide TopOnly;
    var s2 := SysStep(SysStep(s, Syscall), Sleep(5));
    ScheduleAlone(s2.m, 0, 0, 0, 1);
  }

  /** The other one kills it; the slices it starts here end at the ticks 2, 6, 14, 30, ... */
  lemma Killer(s: Sys)
    requires s == Sys(Machine([NEW.(state := Sleeping, chan := 5, sysCount := 2), NEW.(state := Running)],
                              TopOnly([]), 1, {}), 0, 0)
    ensures var t := SysStep(SysStep(s, Syscall), Kill(0)); Alone(t) && NeverDue(t) && t.m.lost == {0}
  {
    Slices();
    hide TopOnly, Slice;
    var t := SysStep(SysStep(s, Syscall), Kill(0));
    var one := NEW.(state := Running, sysCount := 1);
    assert t.m.procs == [NEW.(state := Runnable, chan := 5, sysCount := 2), one] && t.m.procs[1] == one;
    assert Misses(14, 2, 0, 0) && Misses(6, 1, 0, 0) && Misses(2, 0, 1, 0);
  }

  /** A run from boot and k more ticks: a sleeper is killed by the process it forked, which then computes. */
  method KilledSleeperStarves(k: nat) returns (s: Scheduler)
    ensures s.Valid() && MachineOk(s.Now()) && |s.procs| == 2
    ensures s.procs[0].state == Runnable && forall l: nat :: l < LEVELS ==> 0 !in s.q[l]
  {
    s := new Scheduler(2);
    hide MachineOk, Alone, NeverDue, SysStep, Shows;
    assert s.All() == Sys(Machine([NEW, NEW], TopOnly([]), -1, {}), 0, 0);
    Parent(s.All());
    s.Exec(Fork(0));
    s.Exec(Schedule);
    s.Exec(Syscall);
    s.Exec(Fork(1));
    Sleeper(s.All());
    s.Exec(Syscall);
    s.Exec(Sleep(5));
    s.Exec(Schedule);
    Killer(s.All());
    s.Exec(Syscall);
    s.Exec(Kill(0));
    NeverBoosted(s.All(), k);
    s.Run(Spin(k));
    LostIsUnqueued(s.Now(), 0);
  }

  lemma LostIsUnqueued(m: Machine, p: nat)
    requires MachineOk(m) && p in m.lost
    ensures p < |m.procs| && m.procs[p].state == Runnable && |m.q| == LEVELS
    ensures forall l: nat :: l < LEVELS ==> p !in m.q[l]
  {
    forall l: nat | l < LEVELS
      ensures p !in m.q[l]
    {
      assert LevelOk(m.procs, m.q[l], l);
    }
  }

  lemma {:induction false} FirstFromIs(q: Queues, l: nat, i: nat)
    requires i <= l <= |q| && (forall k: nat :: k < l ==> q[k] == []) && (l < |q| ==> q[l] != [])
    ensures FirstFrom(q, i) == l
    decreases l - i
  {
    if i < l {
      FirstFromIs(q, l, i + 1);
    }
  }

  lemma PickedIs(m: Machine, m': Machine, found: bool, l: nat)
    requires if found then FirstWaiting(m.q, l) && m.q[l][0] < |m.procs| && m' == Dispatched(m, l)
             else m' == m && |m.q| == LEVELS && forall l: nat :: l < LEVELS ==> m.q[l] == []
    ensures m' == Picked(m)
  {
    FirstFromIs(m.q, if found then l else |m.q|, 0);
  }

  lemma ScheduledIs(m: Machine, ticks: nat, last: nat, m': Machine, found: bool, l: nat)
    requires |m.q| == LEVELS
    requires var start := AtSchedule(m, ticks, last);
             if found then FirstWaiting(start.q, l) && start.q[l][0] < |start.procs| && m' == Dispatched(start, l)
             else m' == start && forall l: nat :: l < LEVELS ==> start.q[l] == []
    ensures m' == Picked(AtSchedule(m, ticks, last))
  {
    hide Picked, Dispatched, BoostedProcs, ActiveBelow;
    PickedIs(AtSchedule(m, ticks, last), m', found, l);
  }

  lemma WokenUpIs(m: Machine, chan: nat, w: Machine)
    requires w.procs == WokenProcs(m.procs, chan, |m.procs|) && w.cur == m.cur && w.lost == m.lost
    requires Grown(m.procs, m.q, chan, |m.procs|, w.q)
    ensures w == WokenUp(m, chan)
  {
    hide WokenAt;
    assert w.q == WokenUp(m, chan).q;
  }

  class Scheduler {
    const rows: array2<nat>       // pqueue[l].qproc
    const tails: array<nat>       // pqueue[l].tail
    var procs: seq<Proc>
    var cur: int                  // mycpu()->proc
    var ticks: nat
    var lastMod128: nat
    ghost var q: Queues
    ghost var lost: set<nat>      // sleepers made runnable by a kill since the last boost

    ghost predicate Valid()
      reads this, rows, tails
    {
      Shows(rows, tails, q) && rows.Length1 == |procs|
    }

    ghost function Now(): Machine
      reads this
    {
      Machine(procs, q, cur, lost)
    }

    ghost function All(): Sys
      reads this
    {
      Sys(Now(), ticks, lastMod128)
    }

    /** qinit and procinit. */
    constructor (nproc: nat)
      ensures Valid() && MachineOk(Now()) && fresh(rows) && fresh(tails)
      ensures |procs| == nproc && cur == -1 && q == [[], [], [], []] && ticks == 0 && lastMod128 == 0 && lost == {}
      ensures forall p: nat :: p < nproc ==> procs[p] == NEW
    {
      rows := new nat[LEVELS, nproc];
      tails := new nat[LEVELS](_ => 0);
      procs := seq(nproc, _ => NEW);
      cur, ticks, lastMod128 := -1, 0, 0;
      q, lost := [[], [], [], []], {};
      new;
      assert forall l: nat :: l < LEVELS ==> q[l] == [];
    }

    /** push_proc of a process that has just become runnable: it is never dropped. */
    method PushProc(p: nat, ghost was: seq<Proc>)
      requires Valid() && p < |procs| && procs[p].qlevel < LEVELS
      requires QueuesOk(was, q, lost) && |was| == |procs| && was[p].state != Runnable
      modifies this`q, rows, tails
      ensures Valid() && q == Pushed(old(q), procs[p].qlevel, p)
    {
      Room(was, q, lost, p, procs[p].qlevel);
      Push(rows, tails, procs[p].qlevel, p, q);
      q := Pushed(q, procs[p].qlevel, p);
    }

    /** kfork and userinit: the new process starts at level 0. */
    method Fork(p: nat)
      requires Valid() && MachineOk(Now()) && p < |procs| && procs[p].state == Unused
      modifies this`procs, this`q, rows, tails
      ensures Valid() && MachineOk(Now())
      ensures procs == old(procs)[p := NEW.(state := Runnable)] && q == Pushed(old(q), 0, p)
    {
      ghost var was := procs;
      PushOk(procs, q, lost, p, NEW.(state := Runnable));
      procs := procs[p := NEW.(state := Runnable)];
      PushProc(p, was);
    }

    /** The first loop of a boost empties every queue. */
    method ClearQueues()
      requires Valid()
      modifies this`q, tails
      ensures Valid() && q == TopOnly([])
    {
      for i := 0 to LEVELS
        invariant forall l: nat :: l < i ==> tails[l] == 0
      {
        tails[i] := 0;
      }
      q := TopOnly([]);
      hide TopOnly;
      assert forall l: nat :: l < LEVELS ==> q[l] == [];
    }

    /** One turn of the boost's second loop. */
    method BoostOne(p: nat, ghost was: seq<Proc>)
      requires Shows(rows, tails, q) && p < rows.Length1 == |procs| == |was|
      requires procs == BoostedProcs(was, p) && q == TopOnly(ActiveBelow(was, p))
      modifies this`procs, this`q, rows, tails
      ensures Shows(rows, tails, q) && |procs| == |was|
      ensures procs == BoostedProcs(was, p + 1) && q == TopOnly(ActiveBelow(was, p + 1))
    {
      hide Shows, Active, BoostedProc, BoostedProcs, ActiveBelow, TopOnly;
      BoostStep(was, p);
      PushTop(ActiveBelow(was, p), p);
      if Active(procs[p]) {
        procs := procs[p := BoostedProc(procs[p])];
        Push(rows, tails, 0, p, q);
        q := Pushed(q, 0, p);
      }
    }

    /** The boost inside the scheduler: every active process to level 0, in table order. */
    method Boost()
      requires Valid() && CpuOk(procs, -1) && forall p: nat :: p < |procs| ==> procs[p].qlevel < LEVELS
      modifies this`procs, this`q, rows, tails
      ensures Valid() && procs == BoostedProcs(old(procs), |old(procs)|) && q == Boosted(old(procs))
      ensures QueuesOk(procs, q, {}) && CpuOk(procs, -1)
    {
      BoostOk(procs);
      hide QueuesOk, CpuOk, Active, BoostedProc, TopOnly, BoostedProcs, ActiveBelow, Shows;
      ghost var was := procs;
      ClearQueues();
      BoostNone(was);
      for p := 0 to |procs|
        invariant Shows(rows, tails, q) && rows.Length1 == |procs| == |was| && procs == BoostedProcs(was, p)
        invariant q == TopOnly(ActiveBelow(was, p))
      {
        BoostOne(p, was);
      }
    }

    /** The scheduler's search: the head of the first queue that has one gets the CPU. */
    method Dispatch() returns (found: bool, ghost level: nat)
      requires Valid() && MachineOk(Now()) && cur == -1
      modifies this`procs, this`cur, this`q, rows, tails
      ensures Valid() && MachineOk(Now()) && |procs| == |old(procs)|
      ensures if found then FirstWaiting(old(q), level) && old(q)[level][0] < |old(procs)| &&
          Now() == Dispatched(old(Now()), level)
              else Now() == old(Now()) && forall l: nat :: l < LEVELS ==> old(q)[l] == []
    {
      hide MachineOk;
      ghost var start := Now();
      found, level := false, LEVELS;
      for i := 0 to LEVELS
        invariant Valid() && Now() == start
        invariant forall l: nat :: l < i ==> start.q[l] == []
      {
        if tails[i] > 0 {
          DispatchedOk(start, i);
          var p := rows[i, 0];
          Pop(rows, tails, i, q);
          q := q[i := q[i][1..]];
          if procs[p].state == Runnable {
            procs := procs[p := procs[p].(state := Running)];
            cur := p;
            found, level := true, i;
            return;
          } else {
            assert false;
          }
        }
      }
    }

    /** One turn of SC_MLFQ: a boost if one is due, then the search. */
    method Schedule() returns (found: bool, ghost level: nat)
      requires Valid() && MachineOk(Now()) && cur == -1
      modifies this`procs, this`cur, this`q, this`lost, this`lastMod128, rows, tails
      ensures Valid() && MachineOk(Now()) && |procs| == |old(procs)|
      ensures lastMod128 == if BoostDue(ticks, old(lastMod128)) then ticks else old(lastMod128)
      ensures var start := AtSchedule(old(Now()), ticks, old(lastMod128));
              if found then FirstWaiting(start.q, level) && start.q[level][0] < |start.procs| &&
                Now() == Dispatched(start, level)
              else Now() == start && forall l: nat :: l < LEVELS ==> start.q[l] == []
    {
      hide QueuesOk, CpuOk, BoostedProc, TopOnly, ActiveBelow;
      if ticks > 0 && ticks % 128 == 0 && ticks != lastMod128 {
        lastMod128 := ticks;
        QueuesAre(Now());
        Boost();
        lost := {};
      }
      found, level := Dispatch();
    }

    /** The decision event_tick makes about the running process. */
    method Decide(p: nat) returns (me: Proc, shouldYield: bool)
      requires Valid() && p < |procs| && procs[p].qlevel < LEVELS
      ensures shouldYield <==> GivesUp(procs[p], q)
      ensures (if shouldYield then me.(state := Runnable) else me) == Ticked(procs[p], q)
      ensures var used, calls := procs[p].pticks + 1, procs[p].sysCount - procs[p].dSysCount;
              var level, end := procs[p].qlevel, used >= TICKS[procs[p].qlevel];
              && (shouldYield <==> end || exists l: nat :: l < level && q[l] != [])
              && me.state == procs[p].state && me.pticks == (if end then 0 else used)
              && me.qlevel == (if end && calls < used && level < 3 then level + 1 else level)
              && me.dSysCount == (if end then me.sysCount else procs[p].dSysCount)
    {
      hide Slice;
      Slices();
      me, shouldYield := procs[p], false;
      var ptick, level := me.pticks + 1, me.qlevel;
      var deltaS := me.sysCount - me.dSysCount;
      me := me.(pticks := ptick);
      if me.pticks >= Slice(level) {
        me := me.(pticks := 0, dSysCount := me.sysCount);
        if deltaS < ptick && level < LEVELS - 1 {
          me := me.(qlevel := me.qlevel + 1);
        }
        shouldYield := true;
      } else {
        var i := 0;
        while i < level
          invariant i <= level && !shouldYield && forall l: nat :: l < i ==> q[l] == []
        {
          if tails[i] > 0 {
            assert q[i] != [];
            shouldYield := true;
            break;
          }
          i := i + 1;
        }
      }
    }

    /** event_tick for the running process. */
    method EventTick()
      requires Valid() && MachineOk(Now()) && cur >= 0
      modifies this`procs, this`cur, this`q, rows, tails
      ensures Valid() && MachineOk(Now()) && |procs| == |old(procs)|
      ensures Ticked(old(procs)[old(cur)], old(q)).qlevel < LEVELS
      ensures Now() == Stopped(old(Now()), Ticked(old(procs)[old(cur)], old(q)))
      ensures var p, me, level := old(cur), procs[old(cur)], old(procs)[old(cur)].qlevel;
              if old(procs)[p].pticks + 1 >= TICKS[level] || exists l: nat :: l < level && old(q)[l] != [] then
                cur == -1 && me.state == Runnable && q == old(q)[me.qlevel := old(q)[me.qlevel] + [p]]
              else cur == p && me.state == Running && q == old(q)
    {
      hide MachineOk, QueuesOk, Ticked, GivesUp, Shows;
      ghost var was := Now();
      QueuesAre(was);
      RunningIs(was);
      TickedOk(procs[cur], q);
      StoppedOk(was, Ticked(procs[cur], q));
      var p := cur;
      var me, shouldYield := Decide(p);
      procs := procs[p := me];
      if shouldYield {
        procs := procs[p := me.(state := Runnable)];
        cur := -1;
        PushProc(p, was.procs);
      }
      assert procs == Stopped(was, Ticked(was.procs[p], was.q)).procs;
    }

    /** wakeup: every process asleep on the channel becomes runnable and joins its queue, in table order. */
    method Wakeup(chan: nat)
      requires Valid() && MachineOk(Now())
      modifies this`procs, this`q, rows, tails
      ensures Valid() && MachineOk(Now())
      ensures procs == WokenProcs(old(procs), chan, |old(procs)|) && Grown(old(procs), old(q), chan, |procs|, q)
    {
      hide MachineOk, QueuesOk, WokenAt, WokenProcs, Grown, Shows;
      ghost var was, q0 := procs, q;
      QueuesAre(Now());
      WakeNone(was, q, chan);
      for p := 0 to |procs|
        invariant Valid() && |procs| == |was| && procs == WokenProcs(was, chan, p) && MachineOk(Now())
        invariant Grown(was, q0, chan, p, q)
      {
        ghost var m := Now();
        if p != cur {
          if procs[p].state == Sleeping && procs[p].chan == chan {
            WakeOk(m, p);
            procs := procs[p := procs[p].(state := Runnable)];
            PushProc(p, m.procs);
          }
        }
        WakeStep(was, q0, chan, p, m, Now());
      }
    }

    /** sleep, up to the switch to the scheduler. */
    method Sleep(chan: nat)
      requires Valid() && MachineOk(Now()) && cur >= 0
      modifies this`procs, this`cur
      ensures Valid() && MachineOk(Now()) && old(procs)[old(cur)].qlevel < LEVELS
      ensures Now() == Stopped(old(Now()), old(procs)[old(cur)].(state := Sleeping, chan := chan))
    {
      QueuesAre(Now());
      StoppedOk(Now(), procs[cur].(state := Sleeping, chan := chan));
      hide QueuesOk;
      procs := procs[cur := procs[cur].(state := Sleeping, chan := chan)];
      cur := -1;
    }

    /** The last part of kexit. */
    method Exit()
      requires Valid() && MachineOk(Now()) && cur >= 0
      modifies this`procs, this`cur
      ensures Valid() && MachineOk(Now()) && old(procs)[old(cur)].qlevel < LEVELS
      ensures Now() == Stopped(old(Now()), old(procs)[old(cur)].(state := Zombie))
    {
      QueuesAre(Now());
      StoppedOk(Now(), procs[cur].(state := Zombie));
      hide QueuesOk;
      procs := procs[cur := procs[cur].(state := Zombie)];
      cur := -1;
    }

    /** freeproc of a zombie. */
    method Reap(p: nat)
      requires Valid() && MachineOk(Now()) && p < |procs| && procs[p].state == Zombie
      modifies this`procs
      ensures Valid() && MachineOk(Now()) && procs == old(procs)[p := old(procs)[p].(state := Unused)]
    {
      OffQueueOk(procs, q, lost, p, procs[p].(state := Unused));
      hide QueuesOk;
      procs := procs[p := procs[p].(state := Unused)];
    }

    /** kkill of the process in slot p. */
    method Kill(p: nat)
      requires Valid() && MachineOk(Now()) && p < |procs|
      modifies this`procs, this`lost
      ensures Valid() && MachineOk(Now()) && procs == Killed(old(procs), p)
      ensures lost == if old(procs)[p].state == Sleeping then old(lost) + {p} else old(lost)
    {
      KillStrands(Now(), p);
      hide QueuesOk;
      if procs[p].state == Sleeping {
        procs := procs[p := procs[p].(state := Runnable)];
        lost := lost + {p};
      }
    }

    /** The system call counter of the running process. */
    method Syscall()
      requires Valid() && MachineOk(Now()) && cur >= 0
      modifies this`procs
      ensures Valid() && MachineOk(Now())
      ensures procs == old(procs)[cur := old(procs)[cur].(sysCount := old(procs)[cur].sysCount + 1)]
    {
      QueuesAre(Now());
      OffQueueOk(procs, q, lost, cur, procs[cur].(sysCount := procs[cur].sysCount + 1));
      hide QueuesOk;
      procs := procs[cur := procs[cur].(sysCount := procs[cur].sysCount + 1)];
    }

    /** A timer interrupt: the clock moves, sleepers on it wake, and the running process is charged. */
    method Tick() returns (ghost woken: Machine)
      requires Valid() && MachineOk(Now())
      modifies this, rows, tails
      ensures Valid() && MachineOk(Now()) && |procs| == |old(procs)|
      ensures ticks == (old(ticks) + 1) % CLOCK && lastMod128 == old(lastMod128)
      ensures woken.procs == WokenProcs(old(procs), TICKSCHAN, |old(procs)|) && woken.cur == old(cur)
      ensures woken.lost == old(lost)
      ensures Grown(old(procs), old(q), TICKSCHAN, |old(procs)|, woken.q)
      ensures old(cur) < 0 ==> Now() == woken
      ensures old(cur) >= 0 ==> old(cur) < |woken.procs| && Ticked(woken.procs[old(cur)], woken.q).qlevel < |woken.q|
                                && Now() == Stopped(woken, Ticked(woken.procs[old(cur)], woken.q))
    {
      hide QueuesOk, CpuOk, Ticked, WokenAt, WokenProcs;
      ticks := (ticks + 1) % CLOCK;
      Wakeup(TICKSCHAN);
      woken := Now();
      QueuesAre(woken);
      if cur >= 0 {
        EventTick();
      }
    }

    /** One operation, when it applies. */
    method Exec(op: Op)
      requires Valid() && MachineOk(Now())
      modifies this, rows, tails
      ensures Valid() && MachineOk(Now()) && |procs| == |old(procs)| && All() == SysStep(old(All()), op)
    {
      hide MachineOk, Shows, WokenAt, WokenProcs, Grown, Dispatched, Stopped, AtSchedule, BoostDue, Picked, WokenUp,
           Ticked;
      ghost var m := Now();
      QueuesAre(m);
      match op
      case Fork(p) => if p < |procs| && procs[p].state == Unused { Fork(p); }
      case Schedule =>
        if cur == -1 {
          var found, level := Schedule();
          ScheduledIs(m, ticks, old(lastMod128), Now(), found, level);
        }
      case Tick =>
        ghost var w := Tick();
        WokenUpIs(m, TICKSCHAN, w);
      case Sleep(chan) => if cur >= 0 { Sleep(chan); }
      case Wakeup(chan) =>
        Wakeup(chan);
        WokenUpIs(m, chan, Now());
      case Exit => if cur >= 0 { Exit(); }
      case Reap(p) => if p < |procs| && procs[p].state == Zombie { Reap(p); }
      case Kill(p) => if p < |procs| { Kill(p); }
      case Syscall => if cur >= 0 { Syscall(); }
    }

    /** In every run, each runnable process is queued once, at its level, and nothing else is, but for
        sleepers killed since the last boost; and the run is the one SysRun describes. */
    method Run(ops: seq<Op>)
      requires Valid() && MachineOk(Now())
      modifies this, rows, tails
      ensures Valid() && MachineOk(Now()) && All() == SysRun(old(All()), ops)
    {
      hide MachineOk, Shows, SysStep;
      for i := 0 to |ops|
        invariant Valid() && MachineOk(Now()) && All() == SysRun(old(All()), ops[..i])
      {
        assert ops[..i + 1][..i] == ops[..i];
        Exec(ops[i]);
      }
      assert ops[..|ops|] == ops;
    }
  }
}
