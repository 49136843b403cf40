/** The victim choice of evict_page in kernel/vm.c: a second-chance clock over the frame table that
    skips processes running on another CPU and prefers the lowest scheduling priority. */
module Eviction {
  import opened Frames

  /** A frame evict_page may take: recorded for a process that is not running elsewhere. */
  predicate Eligible(procs: seq<Proc>, frames: seq<Frame>, me: nat, f: nat) {
    && f < |frames| && frames[f].used && 0 <= frames[f].p < |procs|
    && !(procs[frames[f].p].state == Running && frames[f].p != me)
  }

  function Level(procs: seq<Proc>, frames: seq<Frame>, f: nat): nat {
    if f < |frames| && 0 <= frames[f].p < |procs| then procs[frames[f].p].qlevel else 0
  }

  /** How far the hand travels to reach f. */
  function Dist(n: nat, hand: nat, f: nat): int { if f >= hand then f - hand else f + n - hand }

  /** The frame the hand is at after i steps. */
  function At(n: nat, hand: nat, i: nat): int { if hand + i < n then hand + i else hand + i - n }

  /** v is at least as good a victim as f: a lower priority, or the same and met no later. */
  predicate Beats(procs: seq<Proc>, frames: seq<Frame>, hand: nat, v: nat, f: nat) {
    || Level(procs, frames, v) > Level(procs, frames, f)
    || (Level(procs, frames, v) == Level(procs, frames, f) && Dist(|frames|, hand, v) <= Dist(|frames|, hand, f))
  }

  /** Candidates: the eligible frames without a second chance, or all eligible ones if every one had it. */
  ghost predicate Candidate(procs: seq<Proc>, frames: seq<Frame>, me: nat, f: nat) {
    && Eligible(procs, frames, me, f)
    && (frames[f].rb ==> forall g: nat :: Eligible(procs, frames, me, g) ==> frames[g].rb)
  }

  ghost predicate IsVictim(procs: seq<Proc>, frames: seq<Frame>, me: nat, hand: nat, v: nat) {
    && Candidate(procs, frames, me, v)
    && forall f: nat :: Candidate(procs, frames, me, f) ==> Beats(procs, frames, hand, v, f)
  }

  /** The frame table with the second chances of all eligible frames used up. */
  ghost predicate Swept(procs: seq<Proc>, frames: seq<Frame>, me: nat, after: seq<Frame>) {
    && |after| == |frames|
    && forall f: nat :: f < |frames| ==>
         after[f] == if Eligible(procs, frames, me, f) then frames[f].(rb := false) else frames[f]
  }

  /** Nothing to evict, or nowhere to put it. */
  ghost predicate Stuck(k: Vm, me: nat) {
    || (forall f: nat :: !Eligible(k.procs, k.frames, me, f))
    || (forall i: nat :: i < |k.mask| ==> k.mask[i])
  }

  /** No memory is left for a process: no free frame, and nothing can be evicted. */
  ghost predicate Exhausted(k: Vm, me: nat) { k.freelist == [] && Stuck(k, me) }

  lemma StillStuck(k: Vm, me: nat, after: seq<Frame>, hand: nat)
    requires Swept(k.procs, k.frames, me, after) && Stuck(k, me)
    ensures Stuck(k.(frames := after, clock := hand), me)
  {
    var k' := k.(frames := after, clock := hand);
    assert forall f: nat :: Eligible(k'.procs, k'.frames, me, f) ==> Eligible(k.procs, k.frames, me, f);
  }

  lemma Step(c: nat, n: nat)
    requires c < n
    ensures (c + 1) % n == if c + 1 == n then 0 else c + 1
  {
  }

  /** One revolution of the hand: second chances are taken away, and the best frame without one is returned. */
  method Sweep(procs: seq<Proc>, frames: seq<Frame>, clock: nat, me: nat)
    returns (toEvict: int, after: seq<Frame>, hand: nat)
    requires clock < |frames|
    requires forall f: nat :: f < |frames| && frames[f].used ==> frames[f].p < |procs|
    ensures hand == clock && Swept(procs, frames, me, after)
    ensures toEvict < 0 ==> forall f: nat :: Eligible(procs, frames, me, f) ==> frames[f].rb
    ensures toEvict >= 0 ==>
              && Eligible(procs, frames, me, toEvict) && !frames[toEvict].rb
              && forall f: nat :: Eligible(procs, frames, me, f) && !frames[f].rb ==>
                   Beats(procs, frames, clock, toEvict, f)
  {
    var n := |frames|;
    toEvict, after, hand := -1, frames, clock;
    var i := 0;
    while i < n
      invariant i <= n == |after| && hand == (if i == n then clock else At(n, clock, i)) && hand < n
      invariant forall f: nat :: f < n ==>
                  after[f] == if Dist(n, clock, f) < i && Eligible(procs, frames, me, f) then frames[f].(rb := false)
                    else frames[f]
      invariant toEvict < 0 ==>
                  forall f: nat :: Dist(n, clock, f) < i && Eligible(procs, frames, me, f) ==> frames[f].rb
      invariant toEvict >= 0 ==>
                  && Eligible(procs, frames, me, toEvict) && !frames[toEvict].rb && Dist(n, clock, toEvict) < i
                  && forall f: nat :: Dist(n, clock, f) < i && Eligible(procs, frames, me, f) && !frames[f].rb ==>
                       Beats(procs, frames, clock, toEvict, f)
    {
      var v := after[hand];
      assert Dist(n, clock, hand) == i;
      Step(hand, n);
      if v.used && v.p >= 0 {
        if procs[v.p].state == Running && v.p != me {
        } else if v.rb {
          after := after[hand := v.(rb := false)];
        } else {
          if toEvict < 0 {
            toEvict := hand;
          } else if procs[after[toEvict].p].qlevel < procs[v.p].qlevel {
            toEvict := hand;
          }
        }
      }
      hand := (hand + 1) % n;
      i := i + 1;
    }
  }

  /** evict_page's two sweeps: a victim is found exactly when some frame is eligible, it is the best
      candidate, second chances of all eligible frames are gone and the hand is back where it was. */
  method FindVictim(procs: seq<Proc>, frames: seq<Frame>, clock: nat, me: nat)
    returns (toEvict: int, after: seq<Frame>, hand: nat)
    requires clock < |frames|
    requires forall f: nat :: f < |frames| && frames[f].used ==> frames[f].p < |procs|
    ensures hand == clock && Swept(procs, frames, me, after)
    ensures toEvict >= 0 <==> exists f: nat :: Eligible(procs, frames, me, f)
    ensures toEvict >= 0 ==> IsVictim(procs, frames, me, clock, toEvict)
  {
    toEvict, after, hand := -1, frames, clock;
    var pass := 0;
    while pass < 2
      invariant hand == clock && |after| == |frames|
      invariant pass == 0 ==> toEvict < 0 && after == frames
      invariant pass > 0 ==> Swept(procs, frames, me, after)
      invariant pass == 1 ==> toEvict < 0 && forall f: nat :: Eligible(procs, frames, me, f) ==> frames[f].rb
      invariant toEvict >= 0 ==> pass >= 2 && IsVictim(procs, frames, me, clock, toEvict)
      invariant pass >= 2 && toEvict < 0 ==> forall f: nat :: !Eligible(procs, frames, me, f)
      decreases 2 - pass
    {
      ghost var before := after;
      toEvict, after, hand := Sweep(procs, after, hand, me);
      SweepAgain(procs, frames, before, after, me, clock, pass, toEvict);
      if toEvict >= 0 {
        pass := 2;
      }
      pass := pass + 1;
    }
  }

  lemma SweepAgain(procs: seq<Proc>, frames: seq<Frame>, before: seq<Frame>, after: seq<Frame>, me: nat, clock: nat,
                   pass: nat, v: int)
    requires pass < 2 && clock < |frames| == |before|
    requires if pass == 0 then before == frames
             else Swept(procs, frames, me, before) && forall f: nat :: Eligible(procs, frames, me, f) ==> frames[f].rb
    requires Swept(procs, before, me, after)
    requires v < 0 ==> forall f: nat :: Eligible(procs, before, me, f) ==> before[f].rb
    requires v >= 0 ==> Eligible(procs, before, me, v) && !before[v].rb
                        && forall f: nat :: Eligible(procs, before, me, f) && !before[f].rb ==>
                             Beats(procs, before, clock, v, f)
    ensures Swept(procs, frames, me, after)
    ensures v >= 0 ==> IsVictim(procs, frames, me, clock, v)
    ensures v < 0 && pass == 1 ==> forall f: nat :: !Eligible(procs, frames, me, f)
  {
  }

  // ----- the choice, said of the tables alone -----

  /** Frame f holds a page of a process that no other CPU is running. */
  predicate Takable(procs: seq<Proc>, f: Frame, me: nat) {
    f.used && 0 <= f.p < |procs| && (procs[f.p].state != Running || f.p == me)
  }

  /** The victim is such a frame, without a second chance unless none is without, from the lowest priority there
      is among those, and of several the first the hand comes to. */
  lemma VictimIs(procs: seq<Proc>, frames: seq<Frame>, me: nat, hand: nat, v: nat, f: nat)
    requires IsVictim(procs, frames, me, hand, v) && hand < |frames| && f < |frames|
    ensures v < |frames| && Takable(procs, frames[v], me)
    ensures frames[v].rb && Takable(procs, frames[f], me) ==> frames[f].rb
    ensures Takable(procs, frames[f], me) && frames[f].rb == frames[v].rb ==>
              procs[frames[f].p].qlevel <= procs[frames[v].p].qlevel
    ensures Takable(procs, frames[f], me) && frames[f].rb == frames[v].rb && f != v &&
            procs[frames[f].p].qlevel == procs[frames[v].p].qlevel ==>
              hand <= v < f || v < f < hand || f < hand <= v
  {
    if Eligible(procs, frames, me, f) && frames[f].rb == frames[v].rb {
      assert Candidate(procs, frames, me, f);
    }
  }

  /** No memory is left exactly when no frame is free, and none is takable or every slot is used. */
  lemma ExhaustedIs(k: Vm, me: nat)
    ensures Exhausted(k, me) <==>
            && k.freelist == []
            && ((forall f: nat :: f < |k.frames| ==> !Takable(k.procs, k.frames[f], me)) || false !in k.mask)
  {
    assert forall f: nat :: f < |k.frames| ==>
        (Takable(k.procs, k.frames[f], me) <==> Eligible(k.procs, k.frames, me, f));
    if false in k.mask {
      var i: nat :| i < |k.mask| && !k.mask[i];
    }
  }
}
