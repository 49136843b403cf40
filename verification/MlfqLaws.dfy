/** What the scheduler's steps do, said of the process table and the queues alone: who runs, who waits where,
    and what each process's record holds afterwards. */
module MlfqLaws {
  import opened Mlfq

  // ----- the timer tick -----

  /** A sleeper on the clock, which every tick wakes. */
  predicate OnClock(p: Proc) { p.state == Sleeping && p.chan == 0 }

  /** The running process has left the CPU for the end of the queue of its level. */
  ghost predicate Yielded(m: Machine, m': Machine, me: Proc) {
    && HasCpu(m) && m'.cur == -1 && |m'.procs| == |m.procs| && m'.procs[m.cur] == me && me.state == Runnable
    && me.qlevel < |m'.q| && m'.q[me.qlevel] != [] && m'.q[me.qlevel][|m'.q[me.qlevel]| - 1] == m.cur
  }

  /** The decision alone: a process gives up the CPU exactly when its slice is used up or someone waits above it. */
  lemma TickedIs(me: Proc, q: Queues)
    requires me.qlevel < LEVELS <= |q| && me.state == Running
    ensures Ticked(me, q).state == Runnable <==>
            me.pticks + 1 >= TICKS[me.qlevel] || exists l: nat :: l < me.qlevel && q[l] != []
    ensures forall l: nat :: l < me.qlevel && q[l] != [] ==> Ticked(me, q).state == Runnable
  {
    Slices();
  }

  /** The end of a slice: the process starts a new one at the end of a queue, one level down unless it made as
      many system calls as it used ticks. */
  lemma SliceEnds(s: Sys)
    requires MachineOk(s.m) && HasCpu(s.m) && s.m.procs[s.m.cur].qlevel < LEVELS
    requires s.m.procs[s.m.cur].pticks + 1 >= TICKS[s.m.procs[s.m.cur].qlevel]
    ensures var me := s.m.procs[s.m.cur];
            var down := me.sysCount - me.dSysCount < me.pticks + 1 && me.qlevel < 3;
            Yielded(s.m, SysStep(s, Tick).m,
                    me.(state := Runnable, pticks := 0, dSysCount := me.sysCount,
                        qlevel := if down then me.qlevel + 1 else me.qlevel))
  {
    CurStays(s.m, TICKSCHAN);
    Slices();
  }

  /** Somebody waits in a higher queue, or is woken into one: the process gives up the CPU, keeps its level and
      what it has used of its slice. */
  lemma Preempts(s: Sys, l: nat)
    requires MachineOk(s.m) && HasCpu(s.m) && l < s.m.procs[s.m.cur].qlevel < LEVELS
    requires s.m.q[l] != [] || exists z: nat :: z < |s.m.procs| && OnClock(s.m.procs[z]) && s.m.procs[z].qlevel == l
    requires s.m.procs[s.m.cur].pticks + 1 < TICKS[s.m.procs[s.m.cur].qlevel]
    ensures var me := s.m.procs[s.m.cur];
            Yielded(s.m, SysStep(s, Tick).m, me.(state := Runnable, pticks := me.pticks + 1))
  {
    CurStays(s.m, TICKSCHAN);
    Slices();
    if s.m.q[l] == [] {
      var z: nat :| z < |s.m.procs| && OnClock(s.m.procs[z]) && s.m.procs[z].qlevel == l;
      WokenIn(s.m.procs, TICKSCHAN, l, |s.m.procs|, z);
    }
    assert WokenUp(s.m, TICKSCHAN).q[l] != [];
    assert HigherWaiting(WokenUp(s.m, TICKSCHAN).q, s.m.procs[s.m.cur].qlevel);
  }

  /** Nobody does: the process goes on, charged with the tick. */
  lemma GoesOn(s: Sys)
    requires MachineOk(s.m) && HasCpu(s.m) && s.m.procs[s.m.cur].qlevel < LEVELS
    requires forall l: nat :: l < s.m.procs[s.m.cur].qlevel ==> s.m.q[l] == []
    requires forall z: nat :: z < |s.m.procs| && OnClock(s.m.procs[z]) ==>
               s.m.procs[z].qlevel >= s.m.procs[s.m.cur].qlevel
    requires s.m.procs[s.m.cur].pticks + 1 < TICKS[s.m.procs[s.m.cur].qlevel]
    ensures var m' := SysStep(s, Tick).m;
            && m'.cur == s.m.cur && |m'.procs| == |s.m.procs|
            && m'.procs[s.m.cur] == s.m.procs[s.m.cur].(pticks := s.m.procs[s.m.cur].pticks + 1)
  {
    CurStays(s.m, TICKSCHAN);
    Slices();
    forall l: nat | l < s.m.procs[s.m.cur].qlevel
      ensures WokenUp(s.m, TICKSCHAN).q[l] == []
    {
      NoneWoken(s.m.procs, TICKSCHAN, l, |s.m.procs|);
    }
    assert !HigherWaiting(WokenUp(s.m, TICKSCHAN).q, s.m.procs[s.m.cur].qlevel);
  }

  /** Every tick moves the clock and wakes its sleepers, and touches no other process but the running one. */
  lemma TickElsewhere(s: Sys, p: nat)
    requires MachineOk(s.m) && p < |s.m.procs| && p != s.m.cur
    ensures var s' := SysStep(s, Tick);
            && s'.ticks == (s.ticks + 1) % 0x1_0000_0000
            && s'.last == s.last && s'.m.lost == s.m.lost && |s'.m.procs| == |s.m.procs|
            && s'.m.procs[p] ==
                 if OnClock(s.m.procs[p]) then s.m.procs[p].(state := Runnable) else s.m.procs[p]
  {
    if HasCpu(s.m) {
      CurStays(s.m, TICKSCHAN);
    }
  }

  /** The process that runs is not woken. */
  lemma CurStays(m: Machine, chan: nat)
    requires MachineOk(m) && HasCpu(m)
    ensures m.procs[m.cur].state == Running && m.procs[m.cur].qlevel < LEVELS && |m.q| == LEVELS
    ensures var w := WokenUp(m, chan);
            w.cur == m.cur && |w.procs| == |m.procs| && |w.q| == LEVELS && w.procs[m.cur] == m.procs[m.cur]
  {
    RunningIs(m);
    QueuesAre(m);
  }

  lemma {:induction false} WokenIn(procs: seq<Proc>, chan: nat, l: nat, n: nat, z: nat)
    requires z < n <= |procs| && procs[z].state == Sleeping && procs[z].chan == chan && procs[z].qlevel == l
    ensures z in WokenAt(procs, chan, l, n)
  {
    if z < n - 1 {
      WokenIn(procs, chan, l, n - 1, z);
    }
  }

  lemma {:induction false} NoneWoken(procs: seq<Proc>, chan: nat, l: nat, n: nat)
    requires n <= |procs|
    requires forall z: nat :: z < n && procs[z].state == Sleeping && procs[z].chan == chan ==> procs[z].qlevel != l
    ensures WokenAt(procs, chan, l, n) == []
  {
    if n > 0 {
      NoneWoken(procs, chan, l, n - 1);
    }
  }

  // ----- wakeup -----

  /** The processes woken into queue l are exactly the sleepers on the channel at that level, in table order. */
  lemma {:induction false} WokenExactly(procs: seq<Proc>, chan: nat, l: nat, n: nat)
    requires n <= |procs|
    ensures forall z: nat :: z in WokenAt(procs, chan, l, n) <==>
              z < n && procs[z].state == Sleeping && procs[z].chan == chan && procs[z].qlevel == l
    ensures forall i: nat, j: nat :: i < j < |WokenAt(procs, chan, l, n)| ==>
              WokenAt(procs, chan, l, n)[i] < WokenAt(procs, chan, l, n)[j]
  {
    if n > 0 {
      WokenExactly(procs, chan, l, n - 1);
      var before := WokenAt(procs, chan, l, n - 1);
      assert forall i: nat :: i < |before| ==> before[i] in before;
    }
  }

  /** A wakeup makes exactly the sleepers on its channel runnable, and leaves every other process and what
      was in the queues as it was. */
  lemma WakeupIs(s: Sys, chan: nat, p: nat)
    requires p < |s.m.procs|
    ensures var m' := SysStep(s, Wakeup(chan)).m;
            && m'.cur == s.m.cur && |m'.procs| == |s.m.procs| && |m'.q| == |s.m.q|
            && m'.procs[p] == (if s.m.procs[p].state == Sleeping && s.m.procs[p].chan == chan
                               then s.m.procs[p].(state := Runnable) else s.m.procs[p])
            && forall l: nat :: l < |s.m.q| ==>
                 && s.m.q[l] <= m'.q[l]
                 && (p in m'.q[l][|s.m.q[l]|..] <==>
                       s.m.procs[p].state == Sleeping && s.m.procs[p].chan == chan && s.m.procs[p].qlevel == l)
  {
    var m' := SysStep(s, Wakeup(chan)).m;
    forall l: nat | l < |s.m.q|
      ensures s.m.q[l] <= m'.q[l] && m'.q[l][|s.m.q[l]|..] == WokenAt(s.m.procs, chan, l, |s.m.procs|)
      ensures p in WokenAt(s.m.procs, chan, l, |s.m.procs|) <==>
                s.m.procs[p].state == Sleeping && s.m.procs[p].chan == chan && s.m.procs[p].qlevel == l
    {
      WokenExactly(s.m.procs, chan, l, |s.m.procs|);
    }
  }

  // ----- the scheduler -----

  /** A multiple of 128 that no boost has served. */
  predicate AtBoost(s: Sys) { s.ticks > 0 && s.ticks % 128 == 0 && s.ticks != s.last }

  /** No boost: the head of the first queue that has one gets the CPU, and nothing else changes. */
  lemma ScheduleIs(s: Sys, l: nat)
    requires MachineOk(s.m) && s.m.cur == -1 && !AtBoost(s)
    requires l < LEVELS && s.m.q[l] != [] && forall k: nat :: k < l ==> s.m.q[k] == []
    ensures var s', p := SysStep(s, Schedule), s.m.q[l][0];
            && p < |s.m.procs| && s'.ticks == s.ticks && s'.last == s.last && s'.m.lost == s.m.lost
            && s'.m.cur == p && s'.m.procs == s.m.procs[p := s.m.procs[p].(state := Running)]
            && s'.m.q == s.m.q[l := s.m.q[l][1..]]
  {
    QueuesAre(s.m);
    DispatchedOk(s.m, l);
    FirstFromIs(s.m.q, l, 0);
  }

  /** Nobody waits: nothing happens. */
  lemma ScheduleIdles(s: Sys)
    requires MachineOk(s.m) && s.m.cur == -1 && !AtBoost(s) && forall k: nat :: k < LEVELS ==> s.m.q[k] == []
    ensures SysStep(s, Schedule) == s
  {
    QueuesAre(s.m);
    FirstFromIs(s.m.q, |s.m.q|, 0);
  }

  /** The machine once a boost has filled queue 0 and its head, if any, has been picked. */
  lemma BoostPicks(s: Sys)
    requires MachineOk(s.m) && s.m.cur == -1 && AtBoost(s)
    ensures var procs, act := BoostedProcs(s.m.procs, |s.m.procs|), ActiveBelow(s.m.procs, |s.m.procs|);
            && SysStep(s, Schedule).ticks == SysStep(s, Schedule).last == s.ticks
            && (act == [] ==> SysStep(s, Schedule).m == Machine(procs, TopOnly(act), -1, {}))
            && (act != [] ==>
                  && act[0] < |procs|
                  && SysStep(s, Schedule).m ==
                       Machine(procs[act[0] := procs[act[0]].(state := Running)], TopOnly(act[1..]), act[0], {}))
  {
    hide ActiveBelow, BoostedProcs, MachineOk;
    var procs, act := BoostedProcs(s.m.procs, |s.m.procs|), ActiveBelow(s.m.procs, |s.m.procs|);
    ActiveBelowIs(s.m.procs, |s.m.procs|);
    BoostSize(s.m.procs);
    FirstFromIs(TopOnly(act), if act == [] then LEVELS else 0, 0);
    if act != [] {
      assert act[0] in act;
      assert TopOnly(act)[0 := act[1..]] == TopOnly(act[1..]);
    }
  }

  lemma BoostSize(procs: seq<Proc>)
    ensures |BoostedProcs(procs, |procs|)| == |procs|
  {
  }

  lemma BoostedAt(procs: seq<Proc>, p: nat)
    requires p < |procs| && procs[p].state != Running
    ensures |BoostedProcs(procs, |procs|)| == |procs|
    ensures BoostedProcs(procs, |procs|)[p] ==
            if procs[p].state == Runnable then procs[p].(qlevel := 0, pticks := 0, dSysCount := procs[p].sysCount)
            else procs[p]
    ensures p in ActiveBelow(procs, |procs|) <==> procs[p].state == Runnable
  {
    ActiveBelowIs(procs, |procs|);
  }

  lemma NobodyRuns(m: Machine, p: nat)
    requires MachineOk(m) && m.cur == -1 && p < |m.procs|
    ensures m.procs[p].state != Running
  {
  }

  /** A boost: every process that can run is at level 0 with a new slice, and the first of the table runs. */
  lemma BoostIs(s: Sys, p: nat)
    requires MachineOk(s.m) && s.m.cur == -1 && AtBoost(s) && p < |s.m.procs|
    ensures var s' := SysStep(s, Schedule);
            && s'.last == s.ticks && s'.m.lost == {} && |s'.m.procs| == |s.m.procs|
            && var q, q' := s.m.procs[p], s'.m.procs[p];
               if q.state == Runnable then
                 && q' == q.(qlevel := 0, pticks := 0, dSysCount := q.sysCount, state := q'.state)
                 && (q'.state == if s'.m.cur == p then Running else Runnable)
                 && (s'.m.cur != p ==> |s'.m.q| == LEVELS && p in s'.m.q[0])
                 && 0 <= s'.m.cur <= p
               else q' == q
  {
    hide ActiveBelow, BoostedProcs, MachineOk, SysStep;
    BoostPicks(s);
    NobodyRuns(s.m, p);
    BoostedAt(s.m.procs, p);
    ActiveSorted(s.m.procs, |s.m.procs|);
    var act := ActiveBelow(s.m.procs, |s.m.procs|);
    ActiveBelowIs(s.m.procs, |s.m.procs|);
    if p in act {
      var i: nat :| i < |act| && act[i] == p;
      assert i > 0 ==> act[0] < act[i] && act[1..][i - 1] == p;
    } else if act != [] {
      assert act[0] in act;
    }
  }

  lemma {:induction false} ActiveSorted(procs: seq<Proc>, n: nat)
    requires n <= |procs|
    ensures forall i: nat, j: nat :: i < j < |ActiveBelow(procs, n)| ==>
              ActiveBelow(procs, n)[i] < ActiveBelow(procs, n)[j]
  {
    if n > 0 {
      ActiveSorted(procs, n - 1);
      ActiveBelowIs(procs, n - 1);
      var before := ActiveBelow(procs, n - 1);
      assert forall i: nat :: i < |before| ==> before[i] in before;
    }
  }

  // ----- the other steps -----

  /** A new process is runnable at the end of queue 0, with nothing charged to it. */
  lemma ForkIs(s: Sys, p: nat)
    requires MachineOk(s.m) && p < |s.m.procs| && s.m.procs[p].state == Unused
    ensures var m' := SysStep(s, Fork(p)).m;
            && m'.procs == s.m.procs[p := Proc(Runnable, 0, 0, 0, 0, 0)] && m'.cur == s.m.cur && m'.lost == s.m.lost
            && |s.m.q| == LEVELS && m'.q == s.m.q[0 := s.m.q[0] + [p]]
  {
    QueuesAre(s.m);
  }

  /** The running process sleeps or exits: it leaves the CPU, and the queues stay as they are. */
  lemma LeavesIs(s: Sys, chan: nat)
    requires MachineOk(s.m) && HasCpu(s.m)
    ensures var p, me := s.m.cur, s.m.procs[s.m.cur];
            && SysStep(s, Sleep(chan)).m ==
                 Machine(s.m.procs[p := me.(state := Sleeping, chan := chan)], s.m.q, -1, s.m.lost)
            && SysStep(s, Exit).m == Machine(s.m.procs[p := me.(state := Zombie)], s.m.q, -1, s.m.lost)
  {
    QueuesAre(s.m);
  }

  /** A zombie's slot is free once it is reaped, a system call is counted for the running process, and a killed
      sleeper is runnable in no queue. */
  lemma RecordsAre(s: Sys, p: nat)
    requires MachineOk(s.m) && p < |s.m.procs|
    ensures s.m.procs[p].state == Zombie ==>
              SysStep(s, Reap(p)).m == s.m.(procs := s.m.procs[p := s.m.procs[p].(state := Unused)])
    ensures s.m.cur == p ==>
              SysStep(s, Syscall).m ==
                s.m.(procs := s.m.procs[p := s.m.procs[p].(sysCount := s.m.procs[p].sysCount + 1)])
    ensures s.m.procs[p].state == Sleeping ==>
              var m' := SysStep(s, Kill(p)).m;
              m'.procs == s.m.procs[p := s.m.procs[p].(state := Runnable)] && m'.q == s.m.q && m'.cur == s.m.cur &&
                forall l: nat :: l < |m'.q| ==> p !in m'.q[l]
    ensures s.m.procs[p].state != Sleeping ==> SysStep(s, Kill(p)) == s
  {
    forall l: nat | l < |s.m.q| && p in s.m.q[l]
      ensures s.m.procs[p].state == Runnable
    {
      assert LevelOk(s.m.procs, s.m.q[l], l);
    }
  }
}
