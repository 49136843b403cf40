/** What malloc and free do, said of the addresses they hand over. */
module HeapLaws {
  import opened Heap

  predicate In(b: Blk, a: int) { b.addr <= a < b.addr + 16 * b.units }

  /** Address a belongs to one of these blocks. */
  ghost predicate Covers(s: seq<Blk>, a: int) { exists i: nat :: i < |s| && In(s[i], a) }

  lemma CoversAt(s: seq<Blk>, i: nat, a: int)
    requires i < |s| && In(s[i], a)
    ensures Covers(s, a)
  {
  }

  lemma CoversJoin(s: seq<Blk>, x: Blk, t: seq<Blk>, a: int)
    ensures Covers(s + [x] + t, a) <==> Covers(s, a) || In(x, a) || Covers(t, a)
  {
    var all := s + [x] + t;
    if i: nat :| i < |s| && In(s[i], a) {
      CoversAt(all, i, a);
    }
    if In(x, a) {
      CoversAt(all, |s|, a);
    }
    if i: nat :| i < |t| && In(t[i], a) {
      CoversAt(all, |s| + 1 + i, a);
    }
    if i: nat :| i < |all| && In(all[i], a) {
      assert i < |s| ==> In(s[i], a);
      assert i > |s| ==> In(t[i - |s| - 1], a);
    }
  }

  lemma CoversSplit(s: seq<Blk>, i: nat, a: int)
    requires i < |s|
    ensures Covers(s, a) <==> Covers(s[..i], a) || In(s[i], a) || Covers(s[i + 1..], a)
  {
    CoversJoin(s[..i], s[i], s[i + 1..], a);
    assert s == s[..i] + [s[i]] + s[i + 1..];
  }

  lemma CoversHalves(s: seq<Blk>, t: nat, a: int)
    requires t <= |s|
    ensures Covers(s, a) <==> Covers(s[..t], a) || Covers(s[t..], a)
  {
    if i: nat :| i < |s[..t]| && In(s[..t][i], a) {
      CoversAt(s, i, a);
    }
    if i: nat :| i < |s[t..]| && In(s[t..][i], a) {
      CoversAt(s, t + i, a);
    }
    if i: nat :| i < |s| && In(s[i], a) {
      assert i < t ==> s[..t][i] == s[i];
      assert i >= t ==> s[t..][i - t] == s[i];
    }
  }

  lemma BehindCovers(free: seq<Blk>, t: nat, b: Blk, a: int)
    requires t <= |free| && b.units > 0 && (t < |free| ==> free[t].units > 0)
    ensures In(Grown(free, t, b), a) || Covers(Behind(free, t, b), a) <==> In(b, a) || Covers(free[t..], a)
  {
    if t < |free| {
      CoversSplit(free[t..], 0, a);
      assert free[t..][..0] == [] && free[t..][0 + 1..] == free[t + 1..];
    }
  }

  lemma BeforeCovers(free: seq<Blk>, t: nat, b: Blk, a: int)
    requires t <= |free| && b.units > 0 && (t < |free| ==> free[t].units > 0) && (t > 0 ==> free[t - 1].units > 0)
    ensures Covers(Before(free, t, b), a) || In(Joined(free, t, b), a) <==>
            Covers(free[..t], a) || In(Grown(free, t, b), a)
  {
    if t > 0 {
      CoversSplit(free[..t], t - 1, a);
      assert free[..t][..t - 1] == free[..t - 1] && free[..t][t - 1 + 1..] == [];
    }
  }

  /** Coalescing: the addresses on the list are those that were there and the block's. */
  lemma CoalesceCovers(free: seq<Blk>, t: nat, b: Blk, a: int)
    requires t <= |free| && b.units > 0 && forall i: nat :: i < |free| ==> free[i].units > 0
    ensures Covers(Coalesce(free, t, b), a) <==> Covers(free, a) || In(b, a)
  {
    hide Covers, Before, Behind, Joined, Grown, In;
    CoversJoin(Before(free, t, b), Joined(free, t, b), Behind(free, t, b), a);
    BeforeCovers(free, t, b, a);
    BehindCovers(free, t, b, a);
    CoversHalves(free, t, a);
  }

  /** free: the block's addresses join the list, which stays in order with a gap between any two, and it is the
      only block that is given up. */
  lemma FreeIs(base: int, w: World, k: nat, w': World, a: int)
    requires CallStep(Call.Free(k), w, w') && k < |w.g.live|
    requires Spaced(base, w.brk, w.g.free) && Freeable(base, w.brk, w.g.free, w.g.live[k])
    ensures Covers(w'.g.free, a) <==> Covers(w.g.free, a) || In(w.g.live[k], a)
    ensures Spaced(base, w.brk, w'.g.free) && w'.g.live == w.g.live[..k] + w.g.live[k + 1..] && w'.brk == w.brk
  {
    var b := w.g.live[k];
    var t := Place(w.g.free, b.addr);
    assert forall i: nat :: i < |w.g.free| ==> Inside(base, w.brk, w.g.free[i]);
    CoalesceCovers(w.g.free, t, b, a);
    CoalesceSpaced(base, w.brk, w.g.free, b, t);
  }

  /** Block i is the first of at least n units from position `at` on, going round. */
  ghost predicate FirstFit(free: seq<Blk>, at: nat, n: int, i: nat) {
    && i < |free| && free[i].units >= n
    && if at <= i then forall j: nat :: at <= j < i ==> free[j].units < n
       else forall j: nat :: j < |free| && (at <= j || j < i) ==> free[j].units < n
  }

  /** malloc's choice: the first fit from where the last search ended; the block is cut from its end, and the next
      search starts there. */
  lemma TookIs(src: seq<Blk>, at: nat, live: seq<Blk>, n: int, g: Blocks, ap: int) returns (i: nat)
    requires Took(src, at, live, n, g, ap) && n > 0
    ensures FirstFit(src, at, n, i) && g.at == i && g.live == live + [Blk(ap - 16, n)]
    ensures ap - 16 + 16 * n == src[i].addr + 16 * src[i].units
    ensures g.free == if src[i].units == n then src[..i] + src[i + 1..]
                      else src[..i] + [Blk(src[i].addr, src[i].units - n)] + src[i + 1..]
  {
    i :| TookAt(src, at, live, n, g, ap, i);
    forall j: nat | j < |src| && (if at <= i then at <= j < i else at <= j || j < i)
      ensures src[j].units < n
    {
      assert SizeAt(src, j + 1) == src[j].units;
      assert 0 < Steps(|src|, at, j + 1) <= Steps(|src|, at, i);
    }
  }

  /** The addresses of the block handed out are those that left the list. */
  lemma TookCovers(src: seq<Blk>, at: nat, live: seq<Blk>, n: int, g: Blocks, ap: int, a: int)
    requires Took(src, at, live, n, g, ap) && n > 0
    ensures Covers(src, a) <==> Covers(g.free, a) || In(Blk(ap - 16, n), a)
  {
    var i := TookIs(src, at, live, n, g, ap);
    CoversSplit(src, i, a);
    if src[i].units == n {
      CoversHalves(src[..i] + src[i + 1..], i, a);
      assert (src[..i] + src[i + 1..])[..i] == src[..i] && (src[..i] + src[i + 1..])[i..] == src[i + 1..];
    } else {
      CoversJoin(src[..i], Blk(src[i].addr, src[i].units - n), src[i + 1..], a);
    }
  }

  /** A free block has room for a request. */
  ghost predicate HasRoom(free: seq<Blk>, nbytes: nat) {
    exists i: nat :: i < |free| && 16 * free[i].units - 16 >= nbytes
  }

  /** The new block has room for the request and less than a header more, and its addresses, with those now on the
      list, are those the list and the memory just obtained had. */
  ghost predicate Handed(w: World, nbytes: nat, w': World, a: int) {
    && |w'.g.live| == |w.g.live| + 1 && w'.g.live[..|w.g.live|] == w.g.live
    && var b := w'.g.live[|w.g.live|];
       && 16 * b.units - 32 < nbytes <= 16 * b.units - 16
       && (Covers(w'.g.free, a) || In(b, a) <==> Covers(w.g.free, a) || w.brk <= a < w'.brk)
  }

  lemma RoomIs(free: seq<Blk>, nbytes: nat)
    ensures Fits(free, Units(nbytes)) <==> HasRoom(free, nbytes)
  {
    var n := Units(nbytes);
    assert forall i: nat :: i < |free| ==> (free[i].units >= n <==> 16 * free[i].units - 16 >= nbytes);
  }

  lemma HandedFrom(w: World, src: seq<Blk>, at: nat, nbytes: nat, w': World, a: int)
    requires Took(src, at, w.g.live, Units(nbytes), w'.g, Newest(w'.g.live) + 16)
    requires Covers(src, a) <==> Covers(w.g.free, a) || w.brk <= a < w'.brk
    ensures Handed(w, nbytes, w', a)
  {
    hide Took, Covers;
    var n, ap := Units(nbytes), Newest(w'.g.live) + 16;
    var _ := TookIs(src, at, w.g.live, n, w'.g, ap);
    TookCovers(src, at, w.g.live, n, w'.g, ap, a);
  }

  /** malloc hands out such a block, with memory obtained only when no free block has room, and then 64 KiB and
      the request at least.  It hands out none only when sbrk refuses as well. */
  lemma MallocIs(base: int, w: World, nbytes: Uint, deny: bool, w': World, a: int)
    requires CallStep(Call.Malloc(nbytes, deny), w, w') && Spaced(base, w.brk, w.g.free)
    ensures HasRoom(w.g.free, nbytes) ==> Handed(w, nbytes, w', a) && w'.brk == w.brk && w'.given == w.given
    ensures !HasRoom(w.g.free, nbytes) ==>
              || (w'.g == w.g && w'.brk == w.brk && w'.given == w.given)
              || (Handed(w, nbytes, w', a) && w'.brk >= w.brk + 0x1_0000 && w'.brk >= w.brk + nbytes + 16)
  {
    hide Took, Coalesce, Place, Covers, Asked, Refused, Handed, HasRoom;
    var g, n := w.g, Units(nbytes);
    RoomIs(g.free, nbytes);
    if Fits(g.free, n) {
      HandedFrom(w, g.free, g.at, nbytes, w', a);
    } else if !Refused(w.brk, w.given, Asked(n), deny) {
      var t, b := Place(g.free, w.brk), Blk(w.brk, AtLeast(n));
      assert forall i: nat :: i < |g.free| ==> Inside(base, w.brk, g.free[i]);
      CoalesceCovers(g.free, t, b, a);
      HandedFrom(w, Refilled(g.free, w.brk, n), t, nbytes, w', a);
    }
  }

  /** When: with need the request and a header, rounded up to whole headers and to 64 KiB, sbrk refuses exactly when
      it denies, or need does not fit below the trapframe or in memory.  Otherwise the break moves by need. */
  lemma MallocGrows(w: World, nbytes: Uint, deny: bool, w': World, need: int)
    requires CallStep(Call.Malloc(nbytes, deny), w, w') && !HasRoom(w.g.free, nbytes) && nbytes <= 0x7fff_ffe0
    requires need % 16 == 0 && (need == 0x1_0000 || need - 32 < nbytes)
    requires need >= 0x1_0000 && nbytes <= need - 16
    ensures w'.brk == w.brk || w'.brk == w.brk + need
    ensures w'.brk == w.brk <==> deny || w.brk + need > 0x3f_ffff_e000 || w.given + need > 0x8_0000_0000
    ensures w'.brk == w.brk ==> w'.g == w.g
  {
    hide Took, Coalesce, Place, HasRoom;
    RoomIs(w.g.free, nbytes);
    AskedIsEnough(nbytes);
    assert need == 16 * AtLeast(Units(nbytes));
  }
}
