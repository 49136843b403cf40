/** What the disk driver's callers may rely on, over any run of the simple disk that the driver refines, and where
    its requests stand in memory the device reads. */
module VirtioLaws {
  import opened Basics
  import opened Virtio

  // ----- what is on the disk -----

  ghost predicate Shaped(a: Abs) { |a.out| == |a.data| == |a.block| }

  /** This event is the transfer of a write to block k. */
  predicate WritesTo(a: Abs, ev: Event, k: nat) {
    ev.Move? && ev.b < |a.out| && ev.b < |a.block| && a.out[ev.b] == Some(Waiting(true)) && a.block[ev.b] == k
  }

  /** What the last write to block k carried, or x if there was none. */
  ghost function LastTo(a: Abs, evs: seq<Event>, k: nat, x: seq<int>): seq<int> {
    if evs == [] then x
    else
      var m, ev := After(a, evs[..|evs| - 1]), evs[|evs| - 1];
      if WritesTo(m, ev, k) && ev.b < |m.data| then m.data[ev.b] else LastTo(a, evs[..|evs| - 1], k, x)
  }

  lemma ShapeStays(a: Abs, ev: Event)
    requires Shaped(a) && Enabled(a, ev)
    ensures var a' := Apply(a, ev);
            Shaped(a') && |a'.out| == |a.out| && |a'.store| == |a.store|
  {
  }

  /** Every block holds what was last written to it. */
  lemma {:induction false} StoreIsLast(a: Abs, evs: seq<Event>, k: nat)
    requires Legal(a, evs) && Shaped(a) && k < |a.store|
    ensures var a' := After(a, evs);
            && Shaped(a') && |a'.out| == |a.out| && |a'.store| == |a.store|
            && a'.store[k] == LastTo(a, evs, k, a.store[k])
  {
    if evs != [] {
      var pre, ev := evs[..|evs| - 1], evs[|evs| - 1];
      StoreIsLast(a, pre, k);
      ShapeStays(After(a, pre), ev);
    }
  }

  // ----- a request -----

  /** No event of the run closes a request of buffer b. */
  predicate NotClosed(evs: seq<Event>, b: nat) { forall i: nat :: i < |evs| ==> evs[i] != Close(b) }

  /** Buffer b's request, queued in a, as it stands at the end of a run that has not closed it: a write still has
      the data it was queued with.  A read has the buffer as it was until its one transfer, and from then on what
      was last written to its block before that transfer. */
  ghost predicate UnderWay(a: Abs, write: bool, evs: seq<Event>, b: nat, a': Abs) {
    && Shaped(a) && Shaped(a') && b < |a.out| == |a'.out| && a'.block[b] == a.block[b] && a'.out[b].Some?
    && (a'.out[b].value.Waiting? ==> a'.out[b].value.write == write)
    && (write || a'.out[b].value.Waiting? ==> a'.data[b] == a.data[b])
    && (!a'.out[b].value.Waiting? ==> Transferred(a, write, evs, b, a'.data[b]))
  }

  /** The transfer took place at some point of the run: a write changed the block then, and a read got it. */
  ghost predicate Transferred(a: Abs, write: bool, evs: seq<Event>, b: nat, data: seq<int>) {
    exists j: nat :: j < |evs| && evs[j] == Move(b) && TransferAt(a, write, evs[..j], b, data)
  }

  ghost predicate TransferAt(a: Abs, write: bool, pre: seq<Event>, b: nat, data: seq<int>) {
    && b < |a.block| && b < |a.data| && a.block[b] < |a.store|
    && if write then LastTo(a, pre + [Move(b)], a.block[b], a.store[a.block[b]]) == data == a.data[b]
       else data == LastTo(a, pre, a.block[b], a.store[a.block[b]])
  }

  lemma TransferredMore(a: Abs, write: bool, evs: seq<Event>, ev: Event, b: nat, data: seq<int>)
    requires Transferred(a, write, evs, b, data)
    ensures Transferred(a, write, evs + [ev], b, data)
  {
    var j: nat :| j < |evs| && evs[j] == Move(b) && TransferAt(a, write, evs[..j], b, data);
    assert (evs + [ev])[j] == Move(b) && (evs + [ev])[..j] == evs[..j];
  }

  /** The transfer of a waiting request, between its own buffer and its own block. */
  lemma MoveIs(m: Abs, b: nat, write: bool)
    requires Shaped(m) && Enabled(m, Move(b)) && m.out[b] == Some(Waiting(write))
    ensures var a' := Apply(m, Move(b));
            && Shaped(a') && |a'.out| == |m.out| && a'.block == m.block && a'.out[b] == Some(Served)
            && a'.data[b] == if write then m.data[b] else m.store[m.block[b]]
  {
  }

  lemma LastToMove(a: Abs, pre: seq<Event>, b: nat, x: seq<int>)
    requires var m := After(a, pre); Shaped(m) && b < |m.out| && m.out[b] == Some(Waiting(true))
    ensures LastTo(a, pre + [Move(b)], After(a, pre).block[b], x) == After(a, pre).data[b]
  {
    hide After;
    assert (pre + [Move(b)])[..|pre|] == pre;
  }

  /** The transfer as a step of the run. */
  lemma Transfers(a: Abs, write: bool, pre: seq<Event>, b: nat)
    requires Legal(a, pre) && UnderWay(a, write, pre, b, After(a, pre)) && Enabled(After(a, pre), Move(b))
    ensures UnderWay(a, write, pre + [Move(b)], b, Apply(After(a, pre), Move(b)))
  {
    hide Legal, After, Apply, LastTo, WritesTo;
    var m, evs := After(a, pre), pre + [Move(b)];
    var k, a' := a.block[b], Apply(m, Move(b));
    MoveIs(m, b, write);
    StoreSize(a, pre);
    StoreIsLast(a, pre, k);
    if write {
      LastToMove(a, pre, b, a.store[k]);
    }
    assert TransferAt(a, write, pre, b, a'.data[b]);
    assert evs[..|pre|] == pre && evs[|pre|] == Move(b);
    assert TransferAt(a, write, evs[..|pre|], b, a'.data[b]);
    assert Transferred(a, write, evs, b, a'.data[b]);
  }

  lemma {:induction false} StoreSize(a: Abs, evs: seq<Event>)
    requires Legal(a, evs) && Shaped(a)
    ensures |After(a, evs).store| == |a.store| && Shaped(After(a, evs))
  {
    if evs != [] {
      StoreSize(a, evs[..|evs| - 1]);
      ShapeStays(After(a, evs[..|evs| - 1]), evs[|evs| - 1]);
    }
  }

  /** Any other event leaves the request where it is, or moves it on to be reported. */
  lemma OtherEvent(a: Abs, write: bool, pre: seq<Event>, b: nat, m: Abs, ev: Event)
    requires UnderWay(a, write, pre, b, m) && Enabled(m, ev) && ev != Move(b) && ev != Close(b)
    ensures UnderWay(a, write, pre + [ev], b, Apply(m, ev))
  {
    hide Transferred;
    if !m.out[b].value.Waiting? {
      TransferredMore(a, write, pre, ev, b, m.data[b]);
    }
  }

  /** A request from the moment it is queued until it is closed, whatever other requests do meanwhile. */
  lemma {:induction false} RequestRuns(a: Abs, write: bool, evs: seq<Event>, b: nat)
    requires Shaped(a) && b < |a.out| && a.out[b] == Some(Waiting(write)) && Legal(a, evs) && NotClosed(evs, b)
    ensures UnderWay(a, write, evs, b, After(a, evs))
  {
    hide Transferred;
    if evs != [] {
      var pre, ev := evs[..|evs| - 1], evs[|evs| - 1];
      RequestRuns(a, write, pre, b);
      assert evs == pre + [ev];
      if ev == Move(b) {
        Transfers(a, write, pre, b);
      } else {
        OtherEvent(a, write, pre, b, After(a, pre), ev);
      }
    }
  }

  /** An interrupt reports every request served, and moves nothing. */
  lemma ReportIs(a: Abs, b: nat)
    requires b < |a.out|
    ensures var a' := Apply(a, Report);
            && a'.store == a.store && a'.data == a.data && a'.block == a.block && |a'.out| == |a.out|
            && a'.out[b] == if a.out[b] == Some(Served) then Some(Acked) else a.out[b]
  {
  }

  // ----- a request gets on -----

  /** A request under way can be moved on: a waiting one is with the device or in the avail ring, a served one is in
      the used ring, and a reported one has its flag down. */
  lemma CanMove(d: Dev, g: Track, b: nat) returns (h: nat)
    requires Inv(d, g) && b < |d.bufs| && Outstanding(g, b).Some?
    ensures h < NUM && d.info[h].b == Some(b)
    ensures match Outstanding(g, b).value
            case Waiting(_) => h in d.working || h in g.pend
            case Served => d.usedSeen != d.usedIdx && h in g.done
            case Acked => !d.bufs[b].disk
  {
    h := g.busy[b].value;
    assert BufOk(d, g, b) && RqOk(d, g, h);
    Unseen(d, g);
  }

  /** The device takes n chains. */
  ghost function TakeN(d: Dev, g: Track, n: nat): (Dev, Track)
    requires Inv(d, g) && n <= |g.pend|
    decreases n
  {
    if n == 0 then (d, g)
    else
      TakenOk(d, g);
      TakeN(TakenDev(d), TakenTrack(g), n - 1)
  }

  /** Each chain in the avail ring is with the device once it has taken those before it and the chain itself. */
  lemma {:induction false} Reaches(d: Dev, g: Track, k: nat)
    requires Inv(d, g) && k < |g.pend|
    ensures g.pend[k] in TakeN(d, g, k + 1).0.working
    decreases k
  {
    TakenOk(d, g);
    hide Inv;
    if k > 0 {
      Reaches(TakenDev(d), TakenTrack(g), k - 1);
    } else {
      assert TakeN(TakenDev(d), TakenTrack(g), 0) == (TakenDev(d), TakenTrack(g));
    }
  }

  // ----- in memory -----

  /** A buffer's flag is up exactly while it has a request that has not been reported. */
  lemma FlagIs(d: Dev, g: Track, b: nat)
    requires Inv(d, g) && b < |d.bufs|
    ensures d.bufs[b].disk <==> AbsOf(d, g).out[b].Some? && AbsOf(d, g).out[b] != Some(Acked)
  {
    assert BufOk(d, g, b);
    if g.busy[b].Some? {
      assert RqOk(d, g, g.busy[b].value);
    }
  }

  /** Block b is the two 512-byte sectors at byte 1024 * b. */
  lemma SectorIs(b: nat)
    requires b < 0x8000_0000
    ensures 512 * Sector(b) == 1024 * b
  {
  }

  /** A chain that names sector s moves the block at byte 512 * s, in the direction its header says. */
  lemma TransferTo(d: Dev, h: nat, k: nat)
    requires HeaderOf(d, h).Some? && DataOf(d, h, !HeaderOf(d, h).value.write).Some? && StatusOf(d, h).Some?
    requires k < |d.store| && 512 * HeaderOf(d, h).value.sector == 1024 * k
    ensures var write, d' := HeaderOf(d, h).value.write, Transfer(d, h);
            var b := DataOf(d, h, !write).value;
            && b < |d.bufs| == |d'.bufs|
            && (write ==> d'.store == d.store[k := d.bufs[b].data] && d'.bufs == d.bufs)
            && (!write ==> d'.store == d.store && d'.bufs == d.bufs[b := d.bufs[b].(data := d.store[k])])
  {
  }

  lemma By8(x: nat, y: nat)
    ensures (8 * x + y) % 8 == y % 8
  {
  }

  lemma By64K(x: nat, y: nat)
    ensures (0x1_0000 * x + y) % 0x1_0000 == y % 0x1_0000
  {
  }

  lemma Mod8(n: nat, j: nat)
    ensures (n % 0x1_0000 + j) % 8 == (n + j) % 8 && (n % 0x1_0000 + j) % 0x1_0000 == (n + j) % 0x1_0000
  {
    var q, r := n / 0x1_0000, n % 0x1_0000 + j;
    assert n + j == 0x1_0000 * q + r == 8 * (0x2000 * q) + r;
    By8(0x2000 * q, r);
    By64K(q, r);
  }

  /** The chains not yet taken are the avail ring's entries between the two 16-bit indices, modulo 8, and those not
      yet seen are the used ring's. */
  lemma RingEntries(d: Dev, g: Track, j: nat)
    requires Inv(d, g)
    ensures d.availIdx == (d.taken + |g.pend|) % 0x1_0000 && d.usedIdx == (d.usedSeen + |g.done|) % 0x1_0000
    ensures j < |g.pend| ==> d.avail[(d.taken + j) % 8] == g.pend[j]
    ensures j < |g.done| ==> d.used[(d.usedSeen + j) % 8] == g.done[j]
  {
    Mod8(g.takenN, |g.pend|);
    Mod8(g.takenN, j);
    Mod8(g.seenN, |g.done|);
    Mod8(g.seenN, j);
  }
}
