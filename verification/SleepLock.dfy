/** Sleep locks at the grain of single steps: acquiresleep and releasesleep of kernel/sleeplock.c over
    sleep and wakeup of kernel/proc.c, for any number of processes on any number of CPUs.

    Taking and releasing each spinlock, each store and each turn of the wakeup loop is a step of its
    own, and steps of different processes interleave freely. */
module SleepLock {
  import opened Basics

  datatype RunState = Running | Runnable | Sleeping

  /** Where a process is.  Want... is spinning in acquire(). */
  datatype Pc =
    | Outside
    // acquiresleep
    | WantSpin            // acquire(&lk->lk), first or on return from sleep
    | Test                // while (lk->locked)
    | WantOwn             // sleep: acquire(&p->lock)
    | DropSpin            // sleep: release(lk)
    | SetChan             // p->chan = chan
    | SetState            // p->state = SLEEPING
    | Switch              // sched(); the scheduler releases p->lock
    | Asleep              // inside sched()
    | ClearChan           // p->chan = 0
    | DropOwn             // release(&p->lock)
    | TakeLock            // lk->locked = 1
    | TakePid             // lk->pid = myproc()->pid
    | DropTaken           // release(&lk->lk)
    | Critical
    // releasesleep
    | WantRelease         // acquire(&lk->lk)
    | ClearLock           // lk->locked = 0
    | ClearPid            // lk->pid = 0
    | Scan(i: nat)        // wakeup at proc[i]: acquire its lock, skip it if it is this one, or leave at the end
    | Check(i: nat)       // proc[i].lock held: wake it if it sleeps on this channel
    | DropChecked(i: nat) // release(&proc[i].lock)

  /** One process: its place, its scheduling state, whether its channel is the lock, and who holds its p->lock. */
  datatype Proc = Proc(pc: Pc, state: RunState, onLock: bool, own: Option<nat>)

  /** `holder` is not in the source: it remembers which process set lk->locked. */
  datatype State = State(procs: seq<Proc>, spin: Option<nat>, locked: bool, pid: nat, holder: Option<nat>)

  datatype Step =
    | Go(p: nat)          // process p runs one step
    | Kill(p: nat)        // kkill wakes p early
    | Preempt(p: nat)     // a timer tick takes the CPU away from p
    | Dispatch(p: nat)    // the scheduler runs p

  function Pid(p: nat): nat { p + 1 }

  function Init(n: nat): State { State(seq(n, _ => Proc(Outside, Running, false, None)), None, false, 0, None) }

  /** Interrupts are off while a process holds a spinlock; before it takes one, on entry or on return from
      sleep, a tick can take the CPU away. */
  predicate Preemptible(pc: Pc) { pc.Outside? || pc.Critical? || pc.WantSpin? || pc.WantRelease? }

  /** The step is not blocked on a spinlock. */
  predicate CanGo(s: State, p: nat)
    requires p < |s.procs|
  {
    && s.procs[p].pc != Asleep && (s.procs[p].state == Running || s.procs[p].pc == Switch)
    && match s.procs[p].pc
       case WantSpin => s.spin.None?
       case WantRelease => s.spin.None?
       case WantOwn => s.procs[p].own.None?
       case Scan(i) => i < |s.procs| && i != p ==> s.procs[i].own.None?
       case _ => true
  }

  predicate Can(s: State, st: Step) {
    && st.p < |s.procs|
    && var q := s.procs[st.p];
       match st
       case Go(p) => CanGo(s, p)
       case Kill(p) => q.own.None? && q.state == Sleeping
       case Preempt(p) => Preemptible(q.pc) && q.state == Running
       case Dispatch(p) => q.own.None? && q.state == Runnable
  }

  function At(s: State, p: nat, pc: Pc): State
    requires p < |s.procs|
  {
    s.(procs := s.procs[p := s.procs[p].(pc := pc)])
  }

  function Put(s: State, p: nat, q: Proc): State
    requires p < |s.procs|
  {
    s.(procs := s.procs[p := q])
  }

  /** What wakeup does to proc[i], whose lock it holds. */
  function Woken(q: Proc): Proc { if q.state == Sleeping && q.onLock then q.(state := Runnable) else q }

  /** acquiresleep up to the loop's exit, with the sleep inside it. */
  predicate Sleepy(pc: Pc) {
    pc.WantOwn? || pc.DropSpin? || pc.SetChan? || pc.SetState? || pc.Switch? || pc.ClearChan? || pc.DropOwn?
  }

  predicate Wakeful(pc: Pc) { pc.Scan? || pc.Check? || pc.DropChecked? }

  function DoSleep(s: State, p: nat): State
    requires p < |s.procs| && Sleepy(s.procs[p].pc)
  {
    var me := s.procs[p];
    match me.pc
    case WantOwn => Put(s, p, me.(pc := DropSpin, own := Some(p)))
    case DropSpin => At(s, p, SetChan).(spin := None)
    case SetChan => Put(s, p, me.(pc := SetState, onLock := true))
    case SetState => Put(s, p, me.(pc := Switch, state := Sleeping))
    case Switch => Put(s, p, me.(pc := Asleep, own := None))
    case ClearChan => Put(s, p, me.(pc := DropOwn, onLock := false))
    case DropOwn => Put(s, p, me.(pc := WantSpin, own := None))
  }

  function DoWakeup(s: State, p: nat): State
    requires p < |s.procs| && Wakeful(s.procs[p].pc)
  {
    match s.procs[p].pc
    case Scan(i) =>
      if i >= |s.procs| then At(s, p, Outside).(spin := None)
      else if i == p then At(s, p, Scan(i + 1))
      else At(Put(s, i, s.procs[i].(own := Some(p))), p, Check(i))
    case Check(i) =>
      if i < |s.procs| then At(Put(s, i, Woken(s.procs[i])), p, DropChecked(i)) else s
    case DropChecked(i) =>
      if i < |s.procs| then At(Put(s, i, s.procs[i].(own := None)), p, Scan(i + 1)) else s
  }

  /** The stores of acquiresleep and releasesleep themselves. */
  function DoLock(s: State, p: nat): State
    requires p < |s.procs|
  {
    match s.procs[p].pc
    case Outside => At(s, p, WantSpin)
    case WantSpin => At(s, p, Test).(spin := Some(p))
    case Test => At(s, p, if s.locked then WantOwn else TakeLock)
    case TakeLock => At(s, p, TakePid).(locked := true, holder := Some(p))
    case TakePid => At(s, p, DropTaken).(pid := Pid(p))
    case DropTaken => At(s, p, Critical).(spin := None)
    case Critical => At(s, p, WantRelease)
    case WantRelease => At(s, p, ClearLock).(spin := Some(p))
    case ClearLock => At(s, p, ClearPid).(locked := false, holder := None)
    case ClearPid => At(s, p, Scan(0)).(pid := 0)
    case _ => s
  }

  function DoGo(s: State, p: nat): State
    requires p < |s.procs|
  {
    if Sleepy(s.procs[p].pc) then DoSleep(s, p) else if Wakeful(s.procs[p].pc) then DoWakeup(s, p) else DoLock(s, p)
  }

  /** What is done to p from outside. */
  function DoTo(s: State, st: Step): State
    requires st.p < |s.procs|
  {
    var q := s.procs[st.p];
    match st
    case Go(p) => s
    case Kill(p) => Put(s, p, q.(state := Runnable))
    case Preempt(p) => Put(s, p, q.(state := Runnable))
    case Dispatch(p) =>
      if q.pc == Asleep then Put(s, p, q.(pc := ClearChan, state := Running, own := Some(p)))
      else Put(s, p, q.(state := Running))
  }

  function Do(s: State, st: Step): State
    requires Can(s, st)
  {
    if st.Go? then DoGo(s, st.p) else DoTo(s, st)
  }

  ghost predicate Legal(s: State, steps: seq<Step>)
    decreases |steps|
  {
    steps == [] || (Can(s, steps[0]) && Legal(Do(s, steps[0]), steps[1..]))
  }

  ghost function After(s: State, steps: seq<Step>): State
    requires Legal(s, steps)
    decreases |steps|
  {
    if steps == [] then s else After(Do(s, steps[0]), steps[1..])
  }

  // ----- the invariant -----

  predicate HoldsSpin(pc: Pc) {
    pc.Test? || pc.WantOwn? || pc.DropSpin? || pc.TakeLock? || pc.TakePid? || pc.DropTaken?
    || pc.ClearLock? || pc.ClearPid? || pc.Scan? || pc.Check? || pc.DropChecked?
  }

  predicate HoldsOwn(pc: Pc) {
    pc.DropSpin? || pc.SetChan? || pc.SetState? || pc.Switch? || pc.ClearChan? || pc.DropOwn?
  }

  /** Process p holds the p->lock of process q. */
  predicate HoldsLockOf(s: State, p: nat, q: nat)
    requires p < |s.procs|
  {
    var pc := s.procs[p].pc;
    (p == q && HoldsOwn(pc)) || ((pc.Check? || pc.DropChecked?) && pc.i == q)
  }

  /** From setting lk->locked to clearing it. */
  predicate HasLock(pc: Pc) { pc.TakePid? || pc.DropTaken? || pc.Critical? || pc.WantRelease? || pc.ClearLock? }

  /** Waking the sleepers; those from Next on are still to be looked at. */
  predicate Waking(pc: Pc) { pc.ClearPid? || pc.Scan? || pc.Check? || pc.DropChecked? }

  function NextToWake(pc: Pc): nat {
    match pc
    case Scan(i) => i
    case Check(i) => i
    case DropChecked(i) => i + 1
    case _ => 0
  }

  /** On the way to sleep on the lock, or asleep on it. */
  predicate Waiting(q: Proc) {
    q.pc.WantOwn? || q.pc.DropSpin? || q.pc.SetChan? || q.pc.SetState? || q.pc.Switch? ||
      (q.pc.Asleep? && q.state == Sleeping)
  }

  ghost predicate ProcOk(s: State, p: nat)
    requires p < |s.procs|
  {
    var q := s.procs[p];
    && (HoldsSpin(q.pc) <==> s.spin == Some(p))
    && (HasLock(q.pc) <==> s.holder == Some(p))
    && (q.state == Sleeping ==> q.pc.Switch? || q.pc.Asleep?)
    && (q.state == Runnable ==> q.pc.Asleep? || Preemptible(q.pc))
    && (q.pc.Asleep? ==> q.state != Running)
    && (q.pc.Switch? ==> q.state == Sleeping)
    && (q.pc.SetState? || q.pc.Switch? || q.pc.Asleep? || q.pc.ClearChan? <==> q.onLock)
    && (q.pc.WantOwn? ==> s.locked)
    && (q.pc.TakeLock? || Waking(q.pc) ==> !s.locked)
    && (q.pc.DropTaken? || q.pc.Critical? || q.pc.WantRelease? || q.pc.ClearLock? ==> s.pid == Pid(p))
    && ((q.pc.Check? || q.pc.DropChecked?) ==> q.pc.i < |s.procs| && q.pc.i != p)
  }

  /** A waiter's lock is taken, or the process that freed it has yet to look at the waiter. */
  ghost predicate WillWake(s: State, q: nat)
    requires q < |s.procs|
  {
    Waiting(s.procs[q]) && !s.locked ==>
      s.spin.Some? && s.spin.value < |s.procs| && Waking(s.procs[s.spin.value].pc) &&
        NextToWake(s.procs[s.spin.value].pc) <= q
  }

  ghost predicate OwnOk(s: State, q: nat)
    requires q < |s.procs|
  {
    && (s.procs[q].own.Some? ==> s.procs[q].own.value < |s.procs|)
    && forall p: nat :: p < |s.procs| ==> (HoldsLockOf(s, p, q) <==> s.procs[q].own == Some(p))
  }

  ghost predicate Inv(s: State) {
    && (s.locked <==> s.holder.Some?)
    && (s.spin.Some? ==> s.spin.value < |s.procs|) && (s.holder.Some? ==> s.holder.value < |s.procs|)
    && (forall p: nat :: p < |s.procs| ==> ProcOk(s, p))
    && (forall q: nat :: q < |s.procs| ==> OwnOk(s, q))
    && (forall q: nat :: q < |s.procs| ==> WillWake(s, q))
  }

  lemma InitOk(n: nat)
    ensures Inv(Init(n))
  {
  }

  /** The process whose p->lock or state a step of p may touch besides its own. */
  function Target(s: State, st: Step): nat
    requires st.p < |s.procs|
  {
    var pc := s.procs[st.p].pc;
    if st.Go? && (pc.Scan? || pc.Check? || pc.DropChecked?) then pc.i else st.p
  }

  /** A lock stays with its holder, or p takes it, or p lets it go. */
  predicate Handed(l: Option<nat>, l': Option<nat>, p: nat) {
    l' == l || (l.None? && l' == Some(p)) || (l == Some(p) && l'.None?)
  }

  /** A step moves the spinlock and the lock only if its process holds or takes them. */
  ghost predicate Framed(s: State, st: Step, s': State)
    requires st.p < |s.procs|
  {
    var p := st.p;
    && |s'.procs| == |s.procs|
    && (forall r: nat :: r < |s.procs| && r != p && r != Target(s, st) ==> s'.procs[r] == s.procs[r])
    && (forall r: nat :: r < |s.procs| && r != p ==> s'.procs[r].pc == s.procs[r].pc)
    && (forall r: nat :: r < |s.procs| ==> Handed(s.procs[r].own, s'.procs[r].own, p))
    && Handed(s.spin, s'.spin, p) && Handed(s.holder, s'.holder, p)
    && (s.spin != Some(p) ==> s'.locked == s.locked && s'.pid == s.pid && s'.holder == s.holder)
    && (s'.locked <==> s'.holder.Some?)
    && (s'.pid != s.pid ==> s.procs[p].pc.TakePid? || s.procs[p].pc.ClearPid?)
  }

  /** What is known of the process that makes a step. */
  lemma Actor(s: State, st: Step)
    requires Inv(s) && Can(s, st)
    ensures ProcOk(s, st.p) && (HoldsLockOf(s, st.p, st.p) <==> s.procs[st.p].own == Some(st.p))
    ensures Target(s, st) < |s.procs| ==>
              (HoldsLockOf(s, st.p, Target(s, st)) <==> s.procs[Target(s, st)].own == Some(st.p))
    ensures s.locked <==> s.holder.Some?
    ensures s.holder.Some? && s.holder.value != st.p && s.holder.value < |s.procs| ==>
              HasLock(s.procs[s.holder.value].pc)
  {
    assert OwnOk(s, st.p) && (Target(s, st) < |s.procs| ==> OwnOk(s, Target(s, st)));
    assert s.holder.Some? ==> ProcOk(s, s.holder.value);
  }

  lemma SleepFrame(s: State, st: Step)
    requires Inv(s) && Can(s, st) && st.Go? && Sleepy(s.procs[st.p].pc)
    ensures Framed(s, st, Do(s, st))
  {
    Actor(s, st);
    hide Inv, DoWakeup, DoLock, DoTo, CanGo;
  }

  lemma SleepStep(s: State, st: Step)
    requires Inv(s) && Can(s, st) && st.Go? && Sleepy(s.procs[st.p].pc)
    ensures Framed(s, st, Do(s, st)) && ProcOk(Do(s, st), st.p)
  {
    SleepFrame(s, st);
    Actor(s, st);
    hide Inv, Framed, DoWakeup, DoLock, DoTo, CanGo;
  }

  lemma WakeupFrame(s: State, st: Step)
    requires Inv(s) && Can(s, st) && st.Go? && Wakeful(s.procs[st.p].pc)
    ensures Framed(s, st, Do(s, st))
  {
    Actor(s, st);
    hide Inv, DoSleep, DoLock, DoTo;
  }

  lemma WakeupStep(s: State, st: Step)
    requires Inv(s) && Can(s, st) && st.Go? && Wakeful(s.procs[st.p].pc)
    ensures Framed(s, st, Do(s, st)) && ProcOk(Do(s, st), st.p)
  {
    WakeupFrame(s, st);
    Actor(s, st);
    hide Inv, Framed, DoSleep, DoLock, DoTo;
  }

  lemma LockFrame(s: State, st: Step)
    requires Inv(s) && Can(s, st) && st.Go? && !Sleepy(s.procs[st.p].pc) && !Wakeful(s.procs[st.p].pc)
    ensures Framed(s, st, Do(s, st))
  {
    Actor(s, st);
    hide Inv, DoSleep, DoWakeup, DoTo;
  }

  lemma LockStep(s: State, st: Step)
    requires Inv(s) && Can(s, st) && st.Go? && !Sleepy(s.procs[st.p].pc) && !Wakeful(s.procs[st.p].pc)
    ensures Framed(s, st, Do(s, st)) && ProcOk(Do(s, st), st.p)
  {
    LockFrame(s, st);
    Actor(s, st);
    hide Inv, Framed, DoSleep, DoWakeup, DoTo;
  }

  lemma OutsideFrame(s: State, st: Step)
    requires Inv(s) && Can(s, st) && !st.Go?
    ensures Framed(s, st, Do(s, st))
  {
    Actor(s, st);
    hide Inv, DoGo;
  }

  lemma OutsideStep(s: State, st: Step)
    requires Inv(s) && Can(s, st) && !st.Go?
    ensures Framed(s, st, Do(s, st)) && ProcOk(Do(s, st), st.p)
  {
    OutsideFrame(s, st);
    Actor(s, st);
    hide Inv, Framed, DoGo;
  }

  lemma StepSelf(s: State, st: Step)
    requires Inv(s) && Can(s, st)
    ensures Framed(s, st, Do(s, st)) && ProcOk(Do(s, st), st.p)
  {
    assert st.p < |s.procs|;
    hide Inv, Do, Can, ProcOk, Framed;
    if !st.Go? {
      OutsideStep(s, st);
    } else if Sleepy(s.procs[st.p].pc) {
      SleepStep(s, st);
    } else if Wakeful(s.procs[st.p].pc) {
      WakeupStep(s, st);
    } else {
      LockStep(s, st);
    }
  }

  /** A process the step does not touch. */
  lemma StepOther(s: State, st: Step, r: nat)
    requires Inv(s) && Can(s, st) && Framed(s, st, Do(s, st)) && r < |s.procs| && r != st.p && r != Target(s, st)
    ensures ProcOk(Do(s, st), r)
  {
    assert ProcOk(s, st.p) && ProcOk(s, r);
    hide Inv, Do, Can;
  }

  /** A process that wakeup looks at. */
  lemma StepTarget(s: State, st: Step)
    requires Inv(s) && Can(s, st) && Framed(s, st, Do(s, st)) && Target(s, st) != st.p && Target(s, st) < |s.procs|
    ensures ProcOk(Do(s, st), Target(s, st))
  {
    var t := Target(s, st);
    assert ProcOk(s, st.p) && ProcOk(s, t);
    assert OwnOk(s, t) && (HoldsLockOf(s, t, t) <==> s.procs[t].own == Some(t)) &&
      (HoldsLockOf(s, st.p, t) <==> s.procs[t].own == Some(st.p));
    hide Inv, OwnOk, WillWake, DoSleep, DoLock, DoTo;
  }

  lemma StepProc(s: State, st: Step, r: nat)
    requires Inv(s) && Can(s, st) && r < |s.procs|
    ensures |Do(s, st).procs| == |s.procs| && ProcOk(Do(s, st), r)
  {
    StepSelf(s, st);
    hide Inv, ProcOk, Do, Can;
    if r == st.p {
    } else if r == Target(s, st) {
      StepTarget(s, st);
    } else {
      StepOther(s, st, r);
    }
  }

  lemma OwnSleep(s: State, st: Step, q: nat)
    requires Inv(s) && Can(s, st) && q < |s.procs| && st.Go? && Sleepy(s.procs[st.p].pc)
    ensures |Do(s, st).procs| == |s.procs|
    ensures (HoldsLockOf(Do(s, st), st.p, q) <==> Do(s, st).procs[q].own == Some(st.p))
  {
    Actor(s, st);
    assert OwnOk(s, q) && (HoldsLockOf(s, st.p, q) <==> s.procs[q].own == Some(st.p));
    hide Inv, OwnOk, HasLock, HoldsSpin, DoWakeup, DoLock, DoTo;
  }

  lemma OwnWakeup(s: State, st: Step, q: nat)
    requires Inv(s) && Can(s, st) && q < |s.procs| && st.Go? && Wakeful(s.procs[st.p].pc)
    ensures |Do(s, st).procs| == |s.procs|
    ensures (HoldsLockOf(Do(s, st), st.p, q) <==> Do(s, st).procs[q].own == Some(st.p))
  {
    Actor(s, st);
    assert OwnOk(s, q) && (HoldsLockOf(s, st.p, q) <==> s.procs[q].own == Some(st.p));
    hide Inv, OwnOk, HasLock, HoldsSpin, DoSleep, DoLock, DoTo;
  }

  lemma OwnLock(s: State, st: Step, q: nat)
    requires Inv(s) && Can(s, st) && q < |s.procs| && st.Go? && !Sleepy(s.procs[st.p].pc) && !Wakeful(s.procs[st.p].pc)
    ensures |Do(s, st).procs| == |s.procs|
    ensures (HoldsLockOf(Do(s, st), st.p, q) <==> Do(s, st).procs[q].own == Some(st.p))
  {
    Actor(s, st);
    assert OwnOk(s, q) && (HoldsLockOf(s, st.p, q) <==> s.procs[q].own == Some(st.p));
    hide Inv, OwnOk, HasLock, HoldsSpin, DoSleep, DoWakeup, DoTo;
  }

  lemma OwnOutside(s: State, st: Step, q: nat)
    requires Inv(s) && Can(s, st) && q < |s.procs| && !st.Go?
    ensures |Do(s, st).procs| == |s.procs|
    ensures (HoldsLockOf(Do(s, st), st.p, q) <==> Do(s, st).procs[q].own == Some(st.p))
  {
    Actor(s, st);
    assert OwnOk(s, q) && (HoldsLockOf(s, st.p, q) <==> s.procs[q].own == Some(st.p));
    hide Inv, OwnOk, HasLock, HoldsSpin, DoGo;
  }

  lemma OwnSelf(s: State, st: Step, q: nat)
    requires Inv(s) && Can(s, st) && q < |s.procs|
    ensures |Do(s, st).procs| == |s.procs|
    ensures (HoldsLockOf(Do(s, st), st.p, q) <==> Do(s, st).procs[q].own == Some(st.p))
  {
    assert st.p < |s.procs|;
    hide Inv, Do, Can, HoldsLockOf;
    if !st.Go? {
      OwnOutside(s, st, q);
    } else if Sleepy(s.procs[st.p].pc) {
      OwnSleep(s, st, q);
    } else if Wakeful(s.procs[st.p].pc) {
      OwnWakeup(s, st, q);
    } else {
      OwnLock(s, st, q);
    }
  }

  lemma StepOwn(s: State, st: Step, q: nat)
    requires Inv(s) && Can(s, st) && q < |s.procs|
    ensures |Do(s, st).procs| == |s.procs| && OwnOk(Do(s, st), q)
  {
    assert st.p < |s.procs| && OwnOk(s, q);
    hide Do, Can;
    StepSelf(s, st);
    assert Handed(s.procs[q].own, Do(s, st).procs[q].own, st.p);
    forall r: nat | r < |s.procs|
      ensures HoldsLockOf(Do(s, st), r, q) <==> Do(s, st).procs[q].own == Some(r)
    {
      if r == st.p {
        OwnSelf(s, st, q);
      } else {
        assert OwnOk(s, q) && (HoldsLockOf(s, r, q) <==> s.procs[q].own == Some(r));
      }
    }
    hide Inv, HoldsLockOf;
  }

  lemma WakeSelf(s: State, st: Step)
    requires Inv(s) && Can(s, st) && Framed(s, st, Do(s, st))
    ensures WillWake(Do(s, st), st.p)
  {
    assert ProcOk(s, st.p) && WillWake(s, st.p);
    assert s.spin.Some? ==> ProcOk(s, s.spin.value);
    hide Inv, OwnOk;
  }

  lemma WakeOther(s: State, st: Step, q: nat)
    requires Inv(s) && Can(s, st) && q < |s.procs| && q != st.p && Framed(s, st, Do(s, st))
    ensures WillWake(Do(s, st), q)
  {
    hide Inv, WillWake, Can, Do, Framed;
    if st.Go? {
      WakeByGo(s, st, q);
    } else {
      WakeByOther(s, st, q);
    }
  }

  lemma WakeByOther(s: State, st: Step, q: nat)
    requires Inv(s) && Can(s, st) && !st.Go? && q < |s.procs| && q != st.p && Framed(s, st, Do(s, st))
    ensures WillWake(Do(s, st), q)
  {
    assert ProcOk(s, st.p) && ProcOk(s, q) && WillWake(s, q);
    assert s.spin.Some? ==> ProcOk(s, s.spin.value);
    hide Inv, OwnOk;
  }

  lemma WakeByGo(s: State, st: Step, q: nat)
    requires Inv(s) && Can(s, st) && st.Go? && q < |s.procs| && q != st.p && Framed(s, st, Do(s, st))
    ensures WillWake(Do(s, st), q)
  {
    assert ProcOk(s, st.p) && ProcOk(s, q) && WillWake(s, q);
    assert s.spin.Some? ==> ProcOk(s, s.spin.value);
    assert OwnOk(s, q) && (HoldsLockOf(s, q, q) <==> s.procs[q].own == Some(q)) &&
      (HoldsLockOf(s, st.p, q) <==> s.procs[q].own == Some(st.p));
    hide Inv, OwnOk;
  }

  lemma StepWake(s: State, st: Step, q: nat)
    requires Inv(s) && Can(s, st) && q < |s.procs|
    ensures |Do(s, st).procs| == |s.procs| && WillWake(Do(s, st), q)
  {
    StepSelf(s, st);
    hide Inv, Do, Can, WillWake;
    if q == st.p {
      WakeSelf(s, st);
    } else {
      WakeOther(s, st, q);
    }
  }

  lemma StepOk(s: State, st: Step)
    requires Inv(s) && Can(s, st)
    ensures Inv(Do(s, st))
  {
    var s' := Do(s, st);
    forall p: nat | p < |s.procs|
      ensures |s'.procs| == |s.procs| && ProcOk(s', p) && OwnOk(s', p) && WillWake(s', p)
    {
      StepProc(s, st, p);
      StepOwn(s, st, p);
      StepWake(s, st, p);
    }
    assert ProcOk(s, st.p) && ProcOk(s', st.p);
    hide OwnOk, WillWake;
  }

  lemma {:induction false} RunOk(s: State, steps: seq<Step>)
    requires Inv(s) && Legal(s, steps)
    ensures Inv(After(s, steps))
    decreases |steps|
  {
    if steps != [] {
      StepOk(s, steps[0]);
      RunOk(Do(s, steps[0]), steps[1..]);
    }
  }

  // ----- what it is for -----

  /** In every run, at most one process is between setting the lock and clearing it. */
  lemma MutualExclusion(n: nat, steps: seq<Step>, p: nat, q: nat)
    requires Legal(Init(n), steps)
    ensures var s := After(Init(n), steps);
            p < |s.procs| && q < |s.procs| && HasLock(s.procs[p].pc) && HasLock(s.procs[q].pc) ==> p == q && s.locked
  {
    InitOk(n);
    RunOk(Init(n), steps);
    var s := After(Init(n), steps);
    hide After;
    assert p < |s.procs| && q < |s.procs| ==> ProcOk(s, p) && ProcOk(s, q);
  }

  /** In every run, no process sleeps on the lock's channel while the lock is free and nobody is
      inside its spinlock. */
  lemma NoLostWakeup(n: nat, steps: seq<Step>, q: nat)
    requires Legal(Init(n), steps)
    ensures var s := After(Init(n), steps);
            q < |s.procs| && !s.locked && s.spin.None? ==> !(s.procs[q].state == Sleeping && s.procs[q].onLock)
  {
    InitOk(n);
    RunOk(Init(n), steps);
    var s := After(Init(n), steps);
    hide After;
    if q < |s.procs| {
      assert ProcOk(s, q) && WillWake(s, q);
    }
  }

  /** holdingsleep's answer, read under the spinlock, is right for every process. */
  lemma HoldingSleep(n: nat, steps: seq<Step>, p: nat)
    requires Legal(Init(n), steps)
    ensures var s := After(Init(n), steps);
            p < |s.procs| && s.spin.None? ==> (s.locked && s.pid == Pid(p) <==> HasLock(s.procs[p].pc))
  {
    InitOk(n);
    RunOk(Init(n), steps);
    var s := After(Init(n), steps);
    hide After;
    if p < |s.procs| {
      assert ProcOk(s, p);
      assert s.holder.Some? ==> ProcOk(s, s.holder.value);
    }
  }

  /** A process that can move without the sleeper q being woken early. */
  ghost predicate Moves(s: State, p: nat, q: nat) {
    p < |s.procs| && p != q && (Can(s, Go(p)) || Can(s, Dispatch(p)))
  }

  /** Whom a sleeper on the lock waits for: the holder of the sleep lock or, while its spinlock is held,
      the process that holds it, unless that one waits for a p->lock, whose owner it then is. */
  ghost function Mover(s: State): nat {
    if s.spin.None? then if s.holder.Some? then s.holder.value else 0
    else
      var r := s.spin.value;
      var t := Awaits(s, r);
      if t.Some? && t.value < |s.procs| && s.procs[t.value].own.Some? then s.procs[t.value].own.value else r
  }

  /** The process whose p->lock process r is about to take. */
  function Awaits(s: State, r: nat): Option<nat> {
    if r >= |s.procs| then None
    else
      match s.procs[r].pc
      case WantOwn => Some(r)
      case Scan(i) => if i < |s.procs| && i != r then Some(i) else None
      case _ => None
  }

  /** A sleeper on the lock never waits for a process that is stuck: the one it waits for can move. */
  lemma SleeperNotStranded(n: nat, steps: seq<Step>, q: nat)
    requires Legal(Init(n), steps)
    ensures var s := After(Init(n), steps);
            q < |s.procs| && s.procs[q].pc == Asleep && s.procs[q].state == Sleeping ==> Moves(s, Mover(s), q)
  {
    InitOk(n);
    RunOk(Init(n), steps);
    var s := After(Init(n), steps);
    hide After;
    if q < |s.procs| && s.procs[q].pc == Asleep && s.procs[q].state == Sleeping {
      assert ProcOk(s, q) && WillWake(s, q);
      if s.spin.None? {
        HolderMoves(s, q);
      } else {
        SpinnerMoves(s, q);
      }
    }
  }

  lemma HolderMoves(s: State, q: nat)
    requires Inv(s) && q < |s.procs| && s.procs[q].pc == Asleep && s.spin.None? && s.locked
    ensures Moves(s, Mover(s), q)
  {
    var h := s.holder.value;
    assert ProcOk(s, h) && OwnOk(s, h);
    forall x: nat | x < |s.procs|
      ensures !HoldsLockOf(s, x, h)
    {
      assert ProcOk(s, x);
    }
  }

  lemma SpinnerMoves(s: State, q: nat)
    requires Inv(s) && q < |s.procs| && s.procs[q].pc == Asleep && s.spin.Some?
    ensures Moves(s, Mover(s), q)
  {
    var r := s.spin.value;
    assert ProcOk(s, r) && OwnOk(s, r) && ProcOk(s, q);
    var t := Awaits(s, r);
    if t.Some? {
      assert OwnOk(s, t.value);
      if s.procs[t.value].own.Some? {
        var x := s.procs[t.value].own.value;
        assert ProcOk(s, x) && HoldsLockOf(s, x, t.value);
      }
    }
  }

  // ----- what a process gets done on its own -----

  /** n steps of the same process. */
  function Turns(p: nat, n: nat): seq<Step> { seq(n, _ => Go(p)) }

  /** n steps of p are legal and lead from s to t. */
  ghost predicate Steps(s: State, p: nat, n: nat, t: State) { Legal(s, Turns(p, n)) && After(s, Turns(p, n)) == t }

  lemma NoSteps(s: State, p: nat)
    ensures Steps(s, p, 0, s)
  {
  }

  lemma FirstTurn(s: State, p: nat, s1: State, n: nat, t: State)
    requires Can(s, Go(p)) && s1 == Do(s, Go(p)) && Steps(s1, p, n, t)
    ensures Steps(s, p, n + 1, t)
  {
    hide Can, Do;
    assert Turns(p, n + 1)[1..] == Turns(p, n);
  }

  /** Process p is at pc and has a CPU. */
  ghost predicate IsAt(s: State, p: nat, pc: Pc) { p < |s.procs| && s.procs[p].pc == pc && s.procs[p].state == Running }

  /** A process elsewhere: the same state with p at pc. */
  function Moved(s: State, p: nat, pc: Pc): State
    requires p < |s.procs|
  {
    s.(procs := s.procs[p := s.procs[p].(pc := pc)])
  }

  lemma FromDropTaken(s: State, p: nat)
    requires IsAt(s, p, DropTaken)
    ensures Steps(s, p, 1, Moved(s, p, Critical).(spin := None))
  {
    hide Steps;
    var t := Moved(s, p, Critical).(spin := None);
    NoSteps(t, p);
    FirstTurn(s, p, t, 0, t);
  }

  lemma FromTakePid(s: State, p: nat)
    requires IsAt(s, p, TakePid)
    ensures Steps(s, p, 2, Moved(s, p, Critical).(spin := None, pid := p + 1))
  {
    hide Steps;
    var s1 := Moved(s, p, DropTaken).(pid := p + 1);
    FromDropTaken(s1, p);
    assert s1.procs[p := s1.procs[p].(pc := Critical)] == s.procs[p := s.procs[p].(pc := Critical)];
    FirstTurn(s, p, s1, 1, Moved(s, p, Critical).(spin := None, pid := p + 1));
  }

  lemma FromTakeLock(s: State, p: nat)
    requires IsAt(s, p, TakeLock)
    ensures Steps(s, p, 3, Moved(s, p, Critical).(spin := None, pid := p + 1, locked := true, holder := Some(p)))
  {
    hide Steps;
    var s1 := Moved(s, p, TakePid).(locked := true, holder := Some(p));
    FromTakePid(s1, p);
    assert s1.procs[p := s1.procs[p].(pc := Critical)] == s.procs[p := s.procs[p].(pc := Critical)];
    FirstTurn(s, p, s1, 2, Moved(s, p, Critical).(spin := None, pid := p + 1, locked := true, holder := Some(p)));
  }

  /** A free lock is taken: five steps of its own bring a process into the critical section, with the lock
      marked as its own, the spinlock free again and nothing else changed. */
  lemma Acquires(s: State, p: nat)
    requires IsAt(s, p, WantSpin) && s.spin.None? && !s.locked
    ensures Steps(s, p, 5, Moved(s, p, Critical).(locked := true, pid := p + 1, holder := Some(p)))
  {
    hide Steps;
    var s1 := Moved(s, p, Test).(spin := Some(p));
    var s2 := Moved(s, p, TakeLock).(spin := Some(p));
    var t := Moved(s, p, Critical).(locked := true, pid := p + 1, holder := Some(p));
    FromTakeLock(s2, p);
    assert s2.procs[p := s2.procs[p].(pc := Critical)] == s.procs[p := s.procs[p].(pc := Critical)];
    assert s1.procs[p := s1.procs[p].(pc := TakeLock)] == s2.procs;
    FirstTurn(s1, p, s2, 3, t);
    FirstTurn(s, p, s1, 4, t);
  }

  lemma FromSetState(s: State, p: nat)
    requires IsAt(s, p, SetState) && s.procs[p].onLock
    ensures Steps(s, p, 2, s.(procs := s.procs[p := Proc(Asleep, Sleeping, true, None)]))
  {
    hide Steps;
    var s1 := s.(procs := s.procs[p := s.procs[p].(pc := Switch, state := Sleeping)]);
    var t := s.(procs := s.procs[p := Proc(Asleep, Sleeping, true, None)]);
    NoSteps(t, p);
    assert s1.procs[p := s1.procs[p].(pc := Asleep, own := None)] == t.procs;
    FirstTurn(s1, p, t, 0, t);
    FirstTurn(s, p, s1, 1, t);
  }

  lemma FromDropSpin(s: State, p: nat)
    requires IsAt(s, p, DropSpin)
    ensures Steps(s, p, 4, s.(procs := s.procs[p := Proc(Asleep, Sleeping, true, None)], spin := None))
  {
    hide Steps;
    var s1 := Moved(s, p, SetChan).(spin := None);
    var s2 := s1.(procs := s1.procs[p := s1.procs[p].(pc := SetState, onLock := true)]);
    var t := s.(procs := s.procs[p := Proc(Asleep, Sleeping, true, None)], spin := None);
    FromSetState(s2, p);
    assert s2.procs[p := Proc(Asleep, Sleeping, true, None)] == t.procs;
    FirstTurn(s1, p, s2, 2, t);
    FirstTurn(s, p, s1, 3, t);
  }

  /** A lock that is taken puts the process to sleep on it, with all spinlocks free again. */
  lemma Blocks(s: State, p: nat)
    requires IsAt(s, p, WantSpin) && s.spin.None? && s.locked && s.procs[p].own.None?
    ensures Steps(s, p, 7, s.(procs := s.procs[p := Proc(Asleep, Sleeping, true, None)]))
  {
    hide Steps;
    var s1 := Moved(s, p, Test).(spin := Some(p));
    var s2 := Moved(s, p, WantOwn).(spin := Some(p));
    var s3 := s.(procs := s.procs[p := s.procs[p].(pc := DropSpin, own := Some(p))], spin := Some(p));
    var t := s.(procs := s.procs[p := Proc(Asleep, Sleeping, true, None)]);
    FromDropSpin(s3, p);
    assert s3.procs[p := Proc(Asleep, Sleeping, true, None)] == t.procs;
    assert s2.procs[p := s2.procs[p].(pc := DropSpin, own := Some(p))] == s3.procs;
    FirstTurn(s2, p, s3, 4, t);
    assert s1.procs[p := s1.procs[p].(pc := WantOwn)] == s2.procs;
    FirstTurn(s1, p, s2, 5, t);
    FirstTurn(s, p, s1, 6, t);
  }

  /** A process that was woken and gets the CPU goes on to take the lock, if it is free. */
  lemma Resumes(s: State, p: nat)
    requires p < |s.procs| && s.procs[p] == Proc(Asleep, Runnable, true, None) && s.spin.None? && !s.locked
    ensures Can(s, Dispatch(p))
    ensures Steps(Do(s, Dispatch(p)), p, 7,
                  s.(procs := s.procs[p := Proc(Critical, Running, false, None)], locked := true, pid := p + 1,
                     holder := Some(p)))
  {
    hide Steps;
    var s1 := s.(procs := s.procs[p := Proc(ClearChan, Running, true, Some(p))]);
    var s2 := s.(procs := s.procs[p := Proc(DropOwn, Running, false, Some(p))]);
    var s3 := s.(procs := s.procs[p := Proc(WantSpin, Running, false, None)]);
    var t := s.(procs := s.procs[p := Proc(Critical, Running, false, None)], locked := true, pid := p + 1,
                holder := Some(p));
    Acquires(s3, p);
    assert s3.procs[p := s3.procs[p].(pc := Critical)] == t.procs;
    assert s2.procs[p := s2.procs[p].(pc := WantSpin, own := None)] == s3.procs;
    FirstTurn(s2, p, s3, 5, t);
    assert s1.procs[p := s1.procs[p].(pc := DropOwn, onLock := false)] == s2.procs;
    FirstTurn(s1, p, s2, 6, t);
    assert Do(s, Dispatch(p)).procs == s1.procs;
  }

  /** A process that slept on the lock is runnable; any other is as it was. */
  function Roused1(q: Proc): Proc { if q.state == Sleeping && q.onLock then q.(state := Runnable) else q }

  /** The processes when wakeup by p has gone through those from i on. */
  function Roused(procs: seq<Proc>, p: nat, i: nat): (r: seq<Proc>)
    ensures |r| == |procs|
  {
    seq(|procs|, j requires 0 <= j < |procs| => if i <= j && j != p then Roused1(procs[j]) else procs[j])
  }

  /** One turn of wakeup's loop: lock, wake if asleep on this lock, unlock. */
  lemma RouseOne(s: State, p: nat, i: nat, n: nat, t: State)
    requires IsAt(s, p, Scan(i)) && i < |s.procs| && i != p && s.procs[i].own.None?
    requires Steps(s.(procs := s.procs[i := Roused1(s.procs[i])][p := s.procs[p].(pc := Scan(i + 1))]), p, n, t)
    ensures Steps(s, p, n + 3, t)
  {
    hide Steps, Do, Can;
    var q := s.procs[i];
    var s1 := s.(procs := s.procs[i := q.(own := Some(p))][p := s.procs[p].(pc := Check(i))]);
    var s2 := s.(procs := s.procs[i := Roused1(q).(own := Some(p))][p := s.procs[p].(pc := DropChecked(i))]);
    var s3 := s.(procs := s.procs[i := Roused1(q)][p := s.procs[p].(pc := Scan(i + 1))]);
    RouseThird(s2, p, i, s3, n, t);
    RouseSecond(s1, p, i, s2, n + 1, t);
    RouseFirst(s, p, i, s1, n + 2, t);
  }

  lemma RouseFirst(s: State, p: nat, i: nat, s1: State, n: nat, t: State)
    requires IsAt(s, p, Scan(i)) && i < |s.procs| && i != p && s.procs[i].own.None? && Steps(s1, p, n, t)
    requires s1 == s.(procs := s.procs[i := s.procs[i].(own := Some(p))][p := s.procs[p].(pc := Check(i))])
    ensures Steps(s, p, n + 1, t)
  {
    hide Steps;
    assert Do(s, Go(p)).procs == s1.procs;
    FirstTurn(s, p, s1, n, t);
  }

  lemma RouseSkip(s: State, p: nat, n: nat, t: State)
    requires IsAt(s, p, Scan(p)) && Steps(Moved(s, p, Scan(p + 1)), p, n, t)
    ensures Steps(s, p, n + 1, t)
  {
    hide Steps;
    FirstTurn(s, p, Moved(s, p, Scan(p + 1)), n, t);
  }

  lemma RouseEnd(s: State, p: nat)
    requires IsAt(s, p, Scan(|s.procs|))
    ensures Steps(s, p, 1, Moved(s, p, Outside).(spin := None))
  {
    hide Steps;
    var t := Moved(s, p, Outside).(spin := None);
    NoSteps(t, p);
    FirstTurn(s, p, t, 0, t);
  }

  lemma RouseSecond(s: State, p: nat, i: nat, s1: State, n: nat, t: State)
    requires IsAt(s, p, Check(i)) && i < |s.procs| && i != p && Steps(s1, p, n, t)
    requires s1 == s.(procs := s.procs[i := Roused1(s.procs[i])][p := s.procs[p].(pc := DropChecked(i))])
    ensures Steps(s, p, n + 1, t)
  {
    hide Steps;
    assert Do(s, Go(p)).procs == s1.procs;
    FirstTurn(s, p, s1, n, t);
  }

  lemma RouseThird(s: State, p: nat, i: nat, s1: State, n: nat, t: State)
    requires IsAt(s, p, DropChecked(i)) && i < |s.procs| && i != p && Steps(s1, p, n, t)
    requires s1 == s.(procs := s.procs[i := s.procs[i].(own := None)][p := s.procs[p].(pc := Scan(i + 1))])
    ensures Steps(s, p, n + 1, t)
  {
    hide Steps;
    assert Do(s, Go(p)).procs == s1.procs;
    FirstTurn(s, p, s1, n, t);
  }

  /** wakeup's loop from process i on, when nobody holds a p->lock. */
  lemma {:induction false} Rouses(s: State, p: nat, i: nat) returns (n: nat)
    requires IsAt(s, p, Scan(i)) && i <= |s.procs| && forall q: nat :: q < |s.procs| ==> s.procs[q].own.None?
    ensures Steps(s, p, n, s.(procs := Roused(s.procs, p, i)[p := s.procs[p].(pc := Outside)], spin := None))
    decreases |s.procs| - i
  {
    hide Steps, Do, Can;
    var t := s.(procs := Roused(s.procs, p, i)[p := s.procs[p].(pc := Outside)], spin := None);
    if i == |s.procs| {
      assert Roused(s.procs, p, i) == s.procs;
      RouseEnd(s, p);
      n := 1;
    } else if i == p {
      var s1 := Moved(s, p, Scan(i + 1));
      n := Rouses(s1, p, i + 1);
      assert Roused(s1.procs, p, i + 1)[p := s1.procs[p].(pc := Outside)] == t.procs;
      RouseSkip(s, p, n, t);
      n := n + 1;
    } else {
      var s3 := s.(procs := s.procs[i := Roused1(s.procs[i])][p := s.procs[p].(pc := Scan(i + 1))]);
      n := Rouses(s3, p, i + 1);
      assert Roused(s3.procs, p, i + 1)[p := s3.procs[p].(pc := Outside)] == t.procs;
      RouseOne(s, p, i, n, t);
      n := n + 3;
    }
  }

  /** Where releasesleep leads. */
  function Released(s: State, p: nat): State
    requires p < |s.procs|
  {
    State(Roused(s.procs, p, 0)[p := s.procs[p].(pc := Outside)], None, false, 0, None)
  }

  /** The place of p itself does not matter to that. */
  lemma ReleasedSame(s: State, p: nat, pc: Pc, s': State)
    requires p < |s.procs| && s'.procs == s.procs[p := s.procs[p].(pc := pc)]
    ensures Released(s', p) == Released(s, p)
  {
    assert Released(s', p).procs == Released(s, p).procs;
  }

  lemma FromClearPid(s: State, p: nat) returns (n: nat)
    requires IsAt(s, p, ClearPid) && !s.locked && s.holder.None?
    requires forall q: nat :: q < |s.procs| ==> s.procs[q].own.None?
    ensures Steps(s, p, n, Released(s, p))
  {
    hide Steps;
    var s1 := Moved(s, p, Scan(0)).(pid := 0);
    n := Rouses(s1, p, 0);
    ReleasedSame(s, p, Scan(0), s1);
    FirstTurn(s, p, s1, n, Released(s, p));
    n := n + 1;
  }

  lemma FromClearLock(s: State, p: nat) returns (n: nat)
    requires IsAt(s, p, ClearLock) && forall q: nat :: q < |s.procs| ==> s.procs[q].own.None?
    ensures Steps(s, p, n, Released(s, p))
  {
    hide Steps, Released;
    var s1 := Moved(s, p, ClearPid).(locked := false, holder := None);
    n := FromClearPid(s1, p);
    ReleasedSame(s, p, ClearPid, s1);
    FirstTurn(s, p, s1, n, Released(s, p));
    n := n + 1;
  }

  /** releasesleep: its own steps bring the holder out of the critical section, with the lock free and every
      process that slept on it runnable. */
  lemma Releases(s: State, p: nat) returns (n: nat)
    requires IsAt(s, p, Critical) && s.spin.None? && forall q: nat :: q < |s.procs| ==> s.procs[q].own.None?
    ensures Steps(s, p, n, Released(s, p))
    ensures forall q: nat :: q < |s.procs| && q != p && s.procs[q].state == Sleeping && s.procs[q].onLock ==>
              Released(s, p).procs[q].state == Runnable
  {
    hide Steps;
    var s1 := Moved(s, p, WantRelease);
    var s2 := Moved(s1, p, ClearLock).(spin := Some(p));
    n := FromClearLock(s2, p);
    ReleasedSame(s1, p, ClearLock, s2);
    ReleasedSame(s, p, WantRelease, s1);
    FirstTurn(s1, p, s2, n, Released(s, p));
    FirstTurn(s, p, s1, n + 1, Released(s, p));
    n := n + 2;
  }

  /** A sleeper that is killed while the lock is taken goes back to sleep on it, and the rest is as before. */
  lemma KilledSleepsAgain(s: State, p: nat)
    requires p < |s.procs| && s.procs[p] == Proc(Asleep, Sleeping, true, None) && s.spin.None? && s.locked
    ensures Can(s, Kill(p)) && Can(Do(s, Kill(p)), Dispatch(p))
    ensures Steps(Do(Do(s, Kill(p)), Dispatch(p)), p, 9, s)
  {
    hide Steps;
    var s1 := s.(procs := s.procs[p := Proc(ClearChan, Running, true, Some(p))]);
    var s2 := s.(procs := s.procs[p := Proc(DropOwn, Running, false, Some(p))]);
    var s3 := s.(procs := s.procs[p := Proc(WantSpin, Running, false, None)]);
    Blocks(s3, p);
    assert s3.procs[p := Proc(Asleep, Sleeping, true, None)] == s.procs;
    assert s2.procs[p := s2.procs[p].(pc := WantSpin, own := None)] == s3.procs;
    FirstTurn(s2, p, s3, 7, s);
    assert s1.procs[p := s1.procs[p].(pc := DropOwn, onLock := false)] == s2.procs;
    FirstTurn(s1, p, s2, 8, s);
    assert Do(Do(s, Kill(p)), Dispatch(p)).procs == s1.procs;
  }

  /** A tick takes the CPU from a process that holds no spinlock; it makes no step until it is dispatched, and then
      goes on where it was. */
  lemma PreemptedGoesOn(s: State, p: nat)
    requires p < |s.procs| && s.procs[p].state == Running && s.procs[p].own.None?
    requires s.procs[p].pc in {Outside, WantSpin, Critical, WantRelease}
    ensures Can(s, Preempt(p)) && !Can(Do(s, Preempt(p)), Go(p)) && Can(Do(s, Preempt(p)), Dispatch(p))
    ensures Do(Do(s, Preempt(p)), Dispatch(p)) == s
  {
    assert Do(Do(s, Preempt(p)), Dispatch(p)).procs == s.procs;
  }
}
