/** The block allocator and file contents of kernel/fs.c, and filewrite of kernel/file.c. */
module FileSystem {
  import opened Blocks
  import opened FileBlocks

  const MAXCHUNK: nat := (MAXOPBLOCKS - 1 - 1 - 2) / 2 * 1024   // what filewrite writes in one transaction

  /** Blocks bmap logs: a new block with its bitmap block, and the indirect block when its entry is set. */
  function Logged(sb: Layout, fs: Fs, fs': Fs, n: nat, bn: nat): set<nat> {
    var ib, a := IndirectOf(fs', n), BlockMap(fs', n, bn);
    var newInd, isNew := IndirectOf(fs, n) == 0 && ib != 0, BlockMap(fs, n, bn) == 0 && a != 0;
    if newInd && isNew then {BitmapBlock(sb, ib), ib, BitmapBlock(sb, a), a}
    else if newInd then {BitmapBlock(sb, ib), ib}
    else if isNew && bn >= 12 then {BitmapBlock(sb, a), a, ib}
    else if isNew then {BitmapBlock(sb, a), a}
    else {}
  }

  /** What bmap may do to the maps: logical block bn of file n, and its indirect block, may appear. */
  ghost predicate Mapped(fs: Fs, fs': Fs, n: nat, bn: nat) {
    && |fs'.disk| == |fs.disk| && |fs'.inodes| == |fs.inodes|
    && (forall m: nat :: m < |fs.inodes| ==> fs'.inodes[m].size == fs.inodes[m].size)
    && (forall m: nat, j: nat :: !(m == n && j == bn) ==> BlockMap(fs', m, j) == BlockMap(fs, m, j))
    && (BlockMap(fs, n, bn) != 0 ==> fs' == fs)
  }

  /** Blocks that had an owner keep it. */
  ghost predicate Kept(own: seq<Owner>, own': seq<Owner>) {
    |own'| == |own| && forall b: nat :: b < |own| && own[b] != Free ==> own'[b] == own[b]
  }

  ghost predicate NoneFree(own: seq<Owner>) { forall c: nat :: c < |own| ==> own[c] != Free }

  lemma IsFree(own: seq<Owner>, c: nat)
    requires c < |own| && own[c] == Free
    ensures !NoneFree(own)
  {
  }

  ghost predicate UsedBelow(own: seq<Owner>, n: nat) { forall c: nat :: c < n && c < |own| ==> own[c] != Free }

  lemma NoneBelow(own: seq<Owner>)
    ensures UsedBelow(own, 0)
  {
  }

  lemma UsedNext(own: seq<Owner>, n: nat)
    requires UsedBelow(own, n) && n < |own| && own[n] != Free
    ensures UsedBelow(own, n + 1)
  {
  }

  lemma UsedAll(own: seq<Owner>, n: nat, m: nat)
    requires UsedBelow(own, n) && n >= |own|
    ensures NoneFree(own) && UsedBelow(own, m)
  {
  }

  lemma BitTells(sb: Layout, fs: Fs, own: seq<Owner>, b: nat)
    requires FsOk(sb, fs, own) && b < sb.size
    ensures BitmapBlock(sb, b) < sb.nmeta <= |fs.disk| && (BitAt(sb, fs.disk, b) <==> own[b] != Free) && own[0] == Meta
  {
    Placed(sb, fs, own, b);
    Placed(sb, fs, own, 0);
  }

  lemma SameBitmapBlock(sb: Layout, b: nat, bi: nat)
    requires b % 8192 == 0 && bi < 8192
    ensures BitmapBlock(sb, b + bi) == BitmapBlock(sb, b) && (b + bi) % 8192 == bi
  {
  }

  /** Bit bi of the bitmap block for b, as balloc tests and sets it. */
  lemma BitHere(sb: Layout, fs: Fs, own: seq<Owner>, b: nat, bi: nat)
    requires FsOk(sb, fs, own) && b % 8192 == 0 && bi < 8192 && b + bi < sb.size
    ensures BitmapBlock(sb, b) < sb.nmeta <= |fs.disk| == |own|
    ensures (Bit(fs.disk[BitmapBlock(sb, b)], bi) <==> own[b + bi] != Free)
    ensures BitmapBlock(sb, b + bi) == BitmapBlock(sb, b) && own[0] == Meta && b + bi < |fs.disk|
    ensures Alloced(sb, fs, b + bi) ==
        fs.(disk := fs.disk[BitmapBlock(sb, b) := PutBit(fs.disk[BitmapBlock(sb, b)], bi, true)]
                           [b + bi := Zero()])
  {
    SameBitmapBlock(sb, b, bi);
    BitTells(sb, fs, own, b + bi);
    hide FsOk, Bit, PutBit;
  }

  // ----- what a transaction changes, it logs -----

  /** Between two moments of a transaction on file n: every block that changed has been logged, as have only
      blocks of the bitmap, of files, and the block of inode n, and no other inode changed. */
  ghost predicate Logs(sb: Layout, fs: Fs, fs': Fs, n: nat, before: set<nat>, writes: set<nat>) {
    && |fs'.disk| == |fs.disk| && |fs'.inodes| == |fs.inodes| && before <= writes
    && (forall b: nat :: b < |fs.disk| && b !in writes ==> fs'.disk[b] == fs.disk[b])
    && (forall b: nat :: b in writes && b !in before ==> b == InodeBlock(sb, n) || sb.bmapstart <= b < sb.size)
    && (forall m: nat :: m < |fs.inodes| && m != n ==> fs'.inodes[m] == fs.inodes[m])
  }

  lemma LogsSelf(sb: Layout, fs: Fs, n: nat, writes: set<nat>)
    ensures Logs(sb, fs, fs, n, writes, writes)
  {
  }

  lemma LogsTrans(sb: Layout, fs0: Fs, fs1: Fs, fs2: Fs, n: nat, w0: set<nat>, w1: set<nat>, w2: set<nat>)
    requires Logs(sb, fs0, fs1, n, w0, w1) && Logs(sb, fs1, fs2, n, w1, w2)
    ensures Logs(sb, fs0, fs2, n, w0, w2)
  {
  }

  /** A store into a block, and its log_write. */
  lemma LogsPut(sb: Layout, fs: Fs, n: nat, writes: set<nat>, b: nat, x: Block)
    requires b < |fs.disk| && sb.bmapstart <= b < sb.size
    ensures Logs(sb, fs, fs.(disk := fs.disk[b := x]), n, writes, writes + {b})
  {
  }

  /** A store into the inode in memory. */
  lemma LogsInode(sb: Layout, fs: Fs, n: nat, writes: set<nat>, ip: Inode)
    requires n < |fs.inodes|
    ensures Logs(sb, fs, fs.(inodes := fs.inodes[n := ip]), n, writes, writes)
  {
  }

  /** The log_write of iupdate. */
  lemma LogsUpdate(sb: Layout, fs: Fs, n: nat, writes: set<nat>)
    ensures Logs(sb, fs, fs, n, writes, writes + {InodeBlock(sb, n)})
  {
  }

  lemma LogsAlloced(sb: Layout, fs: Fs, n: nat, writes: set<nat>, b: nat)
    requires LayoutOk(sb) && BitmapBlock(sb, b) < sb.nmeta && |fs.disk| == sb.size && sb.nmeta <= b < sb.size
    ensures Logs(sb, fs, Alloced(sb, fs, b), n, writes, writes + {BitmapBlock(sb, b), b})
  {
    hide PutBit, Logs;
    var bb := BitmapBlock(sb, b);
    var x := PutBit(fs.disk[bb], b % 8192, true);
    var fs1 := fs.(disk := fs.disk[bb := x]);
    LogsPut(sb, fs, n, writes, bb, x);
    LogsPut(sb, fs1, n, writes + {bb}, b, Zero());
    LogsTrans(sb, fs, fs1, Alloced(sb, fs, b), n, writes, writes + {bb}, writes + {bb} + {b});
    assert writes + {bb} + {b} == writes + {bb, b};
  }

  /** balloc and the store of the new address. */
  lemma LogsExtended(sb: Layout, fs: Fs, own: seq<Owner>, n: nat, k: nat, b: nat, writes: set<nat>)
    requires CanExtend(sb, fs, own, n, k, b)
    ensures IndirectOf(fs, n) < |fs.disk| && |fs.inodes[n].addrs| == 13 && b < |fs.disk|
    ensures var w := writes + {BitmapBlock(sb, b), b} + (if k >= 12 then {IndirectOf(fs, n)} else {});
            Logs(sb, fs, Extended(sb, fs, n, k, b), n, writes, w)
  {
    assert IndOk(fs, own, n);
    SizesOf(sb, fs, own);
    Placed(sb, fs, own, b);
    var w1 := writes + {BitmapBlock(sb, b), b};
    LogsAlloced(sb, fs, n, writes, b);
    var fs1 := Alloced(sb, fs, b);
    if k < 12 {
      LogsInode(sb, fs1, n, w1, fs1.inodes[n].(addrs := fs1.inodes[n].addrs[k := b]));
      assert w1 + {} == w1;
      LogsTrans(sb, fs, fs1, Extended(sb, fs, n, k, b), n, writes, w1, w1);
    } else {
      var ib := IndirectOf(fs, n);
      Placed(sb, fs, own, ib);
      hide FsOk, Alloced, Logs, SetWord;
      LogsPut(sb, fs1, n, w1, ib, SetWord(fs1.disk[ib], k - 12, b));
      LogsTrans(sb, fs, fs1, Extended(sb, fs, n, k, b), n, writes, w1, w1 + {ib});
    }
  }

  lemma LogsIndirected(sb: Layout, fs: Fs, own: seq<Owner>, n: nat, b: nat, writes: set<nat>)
    requires CanIndirect(sb, fs, own, n, b)
    ensures |fs.inodes[n].addrs| == 13 && b < |fs.disk|
    ensures Logs(sb, fs, Indirected(sb, fs, n, b), n, writes, writes + {BitmapBlock(sb, b), b})
  {
    SizesOf(sb, fs, own);
    Placed(sb, fs, own, b);
    LogsAlloced(sb, fs, n, writes, b);
    var w1, fs1 := writes + {BitmapBlock(sb, b), b}, Alloced(sb, fs, b);
    hide FsOk, Logs;
    LogsInode(sb, fs1, n, w1, fs1.inodes[n].(addrs := fs1.inodes[n].addrs[12 := b]));
    LogsTrans(sb, fs, fs1, Indirected(sb, fs, n, b), n, writes, w1, w1);
  }

  /** bfree, and a store into the inode in memory. */
  lemma LogsFreed(sb: Layout, fs: Fs, n: nat, writes: set<nat>, b: nat, ip: Inode)
    requires LayoutOk(sb) && |fs.disk| == sb.size && b < sb.size && BitmapBlock(sb, b) in BitmapBlocks(sb)
    requires n < |fs.inodes|
    ensures BitmapBlock(sb, b) < |fs.disk|
    ensures var fs1 := fs.(disk := PutBitAt(sb, fs.disk, b, false));
            Logs(sb, fs, fs1.(inodes := fs1.inodes[n := ip]), n, writes, writes + {BitmapBlock(sb, b)})
  {
    var bb := BitmapBlock(sb, b);
    var x := PutBit(fs.disk[bb], b % 8192, false);
    hide PutBit, Logs, BitmapBlock;
    var fs1 := fs.(disk := fs.disk[bb := x]);
    LogsPut(sb, fs, n, writes, bb, x);
    LogsInode(sb, fs1, n, writes + {bb}, ip);
    LogsTrans(sb, fs, fs1, fs1.(inodes := fs1.inodes[n := ip]), n, writes, writes + {bb}, writes + {bb});
  }

  /** bmap stores a new address into the inode itself. */
  ghost predicate Grows(fs: Fs, own: seq<Owner>, n: nat, k: nat) {
    BlockMap(fs, n, k) == 0 && (k < 12 || IndirectOf(fs, n) == 0) && !NoneFree(own)
  }

  /** What a read logs: not the inode, though bmap may have changed that. */
  ghost predicate ReadLogs(sb: Layout, fs: Fs, fs': Fs, n: nat, before: set<nat>, writes: set<nat>) {
    && Logs(sb, fs, fs', n, before, writes)
    && (forall b: nat :: b in writes && b !in before ==> sb.bmapstart <= b < sb.size)
    && (forall m: nat :: IndirectOf(fs, m) != 0 ==> IndirectOf(fs', m) == IndirectOf(fs, m))
  }

  lemma LoggedFew(sb: Layout, fs: Fs, fs': Fs, n: nat, k: nat, before: set<nat>)
    ensures |before + Logged(sb, fs, fs', n, k)| <= |before| + 4
  {
    var l := Logged(sb, fs, fs', n, k);
    assert |l| <= 4;
    hide Logged, BlockMap, IndirectOf;
    assert before + l == before + (l - before);
    SubsetSize(l - before, l);
  }

  lemma BmapLogs(sb: Layout, fs: Fs, fs': Fs, own: seq<Owner>, n: nat, k: nat, before: set<nat>)
    requires FsOk(sb, fs', own) && n < |fs'.inodes| && k < 268
    requires Logs(sb, fs, fs', n, before, before + Logged(sb, fs, fs', n, k))
    requires IndirectOf(fs, n) != 0 ==> IndirectOf(fs', n) == IndirectOf(fs, n)
    ensures ReadLogs(sb, fs, fs', n, before, before + Logged(sb, fs, fs', n, k))
  {
    hide FsOk, BlockMap, BitmapBlock, Logged, Logs;
    LoggedBehind(sb, fs, fs', own, n, k);
    IndirectsStay(sb, fs, fs', n, before, before + Logged(sb, fs, fs', n, k));
  }

  lemma LoggedBehind(sb: Layout, fs: Fs, fs': Fs, own: seq<Owner>, n: nat, k: nat)
    requires FsOk(sb, fs', own) && n < |fs'.inodes| && k < 268
    ensures forall b: nat :: b in Logged(sb, fs, fs', n, k) ==> sb.bmapstart <= b < sb.size
  {
    hide FsOk, BlockMap, BitmapBlock, IndirectOf, Word;
    NewBlocksIn(sb, fs', own, n, k);
    IndirectBehind(sb, fs', own, n);
    MapCases(sb, fs', own, n, k);
    assert sb.bmapstart <= BitmapBlock(sb, IndirectOf(fs', n)) < sb.nmeta;
    assert sb.bmapstart <= BitmapBlock(sb, BlockMap(fs', n, k)) < sb.nmeta;
  }

  lemma IndirectBehind(sb: Layout, fs: Fs, own: seq<Owner>, n: nat)
    requires FsOk(sb, fs, own)
    ensures IndirectOf(fs, n) != 0 ==> sb.bmapstart <= IndirectOf(fs, n) < sb.size
    ensures sb.nmeta <= sb.size
  {
    assert IndOk(fs, own, n);
    if IndirectOf(fs, n) != 0 {
      Placed(sb, fs, own, IndirectOf(fs, n));
    }
  }

  lemma IndirectsStay(sb: Layout, fs: Fs, fs': Fs, n: nat, before: set<nat>, writes: set<nat>)
    requires Logs(sb, fs, fs', n, before, writes)
    requires IndirectOf(fs, n) != 0 ==> IndirectOf(fs', n) == IndirectOf(fs, n)
    ensures forall m: nat :: IndirectOf(fs, m) != 0 ==> IndirectOf(fs', m) == IndirectOf(fs, m)
  {
  }

  class Volume {
    const sb: Layout
    var fs: Fs
    var writes: set<nat>          // blocks given to log_write in this transaction
    ghost var own: seq<Owner>

    /** A file system is mounted: an image with the invariant. */
    constructor (sb: Layout, fs: Fs, ghost own: seq<Owner>)
      requires FsOk(sb, fs, own)
      ensures this.sb == sb && this.fs == fs && this.own == own && writes == {}
    {
      this.sb, this.fs, this.own, writes := sb, fs, own, {};
    }

    /** balloc: the first free block, marked and zeroed; 0 when there is none.  Without an outstanding
        operation (trans false) the first log_write panics, which is ok false. */
    method Balloc(trans: bool) returns (ok: bool, r: nat)
      requires FsOk(sb, fs, own)
      modifies `fs, `writes
      ensures (ok <==> trans || NoneFree(own)) && (!trans ==> r == 0)
      ensures r == 0 ==> fs == old(fs) && writes == old(writes) && (ok ==> NoneFree(own))
      ensures r != 0 ==>
                && r < sb.size && own[r] == Free && BitmapBlock(sb, r) < sb.nmeta <= |old(fs).disk|
                && fs == Alloced(sb, old(fs), r)
      ensures r != 0 ==> writes == old(writes) + {BitmapBlock(sb, r), r} && UsedBelow(own, r)
    {
      hide FsOk, Bit, PutBit, BitmapBlock, Alloced, NoneFree, UsedBelow;
      SizesOf(sb, fs, own);
      NoneBelow(own);
      var b := 0;
      while b < sb.size
        invariant b % 8192 == 0 && fs == old(fs) && writes == old(writes) && UsedBelow(own, b)
        decreases sb.size - b
      {
        BitHere(sb, fs, own, b, 0);
        var bb := BitmapBlock(sb, b);
        var bp := fs.disk[bb];
        var bi := 0;
        while bi < 8192 && b + bi < sb.size
          invariant bi <= 8192 && fs == old(fs) && writes == old(writes) && UsedBelow(own, b + bi)
        {
          BitHere(sb, fs, own, b, bi);
          if !Bit(bp, bi) {
            IsFree(own, b + bi);
            if !trans {
              return false, 0;
            }
            bp := PutBit(bp, bi, true);
            fs := fs.(disk := fs.disk[bb := bp]);
            writes := writes + {bb};
            fs := fs.(disk := fs.disk[b + bi := Zero()]);
            writes := writes + {b + bi};
            return true, b + bi;
          }
          UsedNext(own, b + bi);
          bi := bi + 1;
        }
        if bi < 8192 {
          UsedAll(own, b + bi, b + 8192);
        }
        b := b + 8192;
      }
      UsedAll(own, b, b);
      return true, 0;
    }

    /** bfree of a block whose bit is set; "freeing free block" is for the callers to rule out. */
    method Bfree(b: nat)
      requires LayoutOk(sb) && |fs.disk| == sb.size && b < sb.size && BitmapBlock(sb, b) < sb.size
      requires BitAt(sb, fs.disk, b)
      modifies `fs, `writes
      ensures fs == old(fs).(disk := PutBitAt(sb, old(fs).disk, b, false))
      ensures writes == old(writes) + {BitmapBlock(sb, b)}
    {
      var bb := BitmapBlock(sb, b);
      var bp := fs.disk[bb];
      var bi := b % 8192;
      if !Bit(bp, bi) {
        assert false;
      }
      bp := PutBit(bp, bi, false);
      fs := fs.(disk := fs.disk[bb := bp]);
      writes := writes + {bb};
    }

    /** A missing block of file n, when its place in the map exists. */
    method NewBlock(n: nat, bn: nat, trans: bool) returns (ok: bool, addr: nat)
      requires FsOk(sb, fs, own) && n < |fs.inodes| && bn < 268 && BlockMap(fs, n, bn) == 0
      requires (bn >= 12 ==> IndirectOf(fs, n) != 0)
      modifies this
      ensures FsOk(sb, fs, own) && SameFiles(old(fs), fs) && Mapped(old(fs), fs, n, bn) && addr == BlockMap(fs, n, bn)
      ensures (ok <==> trans || NoneFree(old(own))) && (!trans ==> addr == 0)
      ensures addr == 0 ==> fs == old(fs) && own == old(own) && (ok ==> NoneFree(own))
      ensures IndirectOf(fs, n) == IndirectOf(old(fs), n) && Kept(old(own), own)
      ensures writes == old(writes) + if addr == 0 then {}
          else {BitmapBlock(sb, addr), addr} + (if bn >= 12 then {IndirectOf(fs, n)} else {})
      ensures Logs(sb, old(fs), fs, n, old(writes), writes) && (trans ==> (addr == 0 <==> NoneFree(old(own))))
      ensures if bn < 12 && addr != 0 then fs.inodes[n] != old(fs).inodes[n] else fs.inodes == old(fs).inodes
    {
      hide FsOk, SameFiles, BlockMap, PutBit, SetWord, Logs;
      SameSelf(fs);
      LogsSelf(sb, fs, n, writes);
      SizesOf(sb, fs, own);
      MapCases(sb, fs, own, n, bn);
      ok, addr := Balloc(trans);
      if addr == 0 {
        return;
      }
      IsFree(old(own), addr);
      Extends(sb, old(fs), own, n, bn, addr);
      LogsExtended(sb, old(fs), own, n, bn, addr, old(writes));
      if bn < 12 {
        fs := fs.(inodes := fs.inodes[n := fs.inodes[n].(addrs := fs.inodes[n].addrs[bn := addr])]);
      } else {
        var ib := fs.inodes[n].addrs[12];
        fs := fs.(disk := fs.disk[ib := SetWord(fs.disk[ib], bn - 12, addr)]);
        writes := writes + {ib};
      }
      assert writes == old(writes) + {BitmapBlock(sb, addr), addr} + (if bn >= 12 then {IndirectOf(fs, n)} else {});
      own := own[addr := Data(n, bn)];
    }

    /** The indirect block of file n, allocated if it is missing. */
    method NeedIndirect(n: nat, trans: bool) returns (ok: bool, ib: nat)
      requires FsOk(sb, fs, own) && n < |fs.inodes|
      modifies this
      ensures FsOk(sb, fs, own) && SameFiles(old(fs), fs) && ib == IndirectOf(fs, n)
      ensures (forall m: nat, j: nat :: BlockMap(fs, m, j) == BlockMap(old(fs), m, j)) && SameSizes(old(fs), fs)
      ensures (IndirectOf(old(fs), n) != 0 ==> fs == old(fs)) && Kept(old(own), own)
      ensures ok <==> trans || IndirectOf(old(fs), n) != 0 || NoneFree(old(own))
      ensures ib == 0 || !trans ==> fs == old(fs) && own == old(own)
      ensures ib == 0 && ok ==> NoneFree(own)
      ensures writes == old(writes) + if IndirectOf(old(fs), n) == 0 && ib != 0 then {BitmapBlock(sb, ib), ib} else {}
      ensures Logs(sb, old(fs), fs, n, old(writes), writes)
      ensures trans ==> (fs.inodes[n] != old(fs).inodes[n] <==> IndirectOf(old(fs), n) == 0 && !NoneFree(old(own)))
    {
      hide FsOk, SameFiles, BlockMap, PutBit, Logs;
      SameSelf(fs);
      LogsSelf(sb, fs, n, writes);
      SizesOf(sb, fs, own);
      ok, ib := true, fs.inodes[n].addrs[12];
      if ib == 0 {
        ok, ib := Balloc(trans);
        if ib == 0 {
          return;
        }
        Indirects(sb, old(fs), own, n, ib);
        LogsIndirected(sb, old(fs), own, n, ib, old(writes));
        fs := fs.(inodes := fs.inodes[n := fs.inodes[n].(addrs := fs.inodes[n].addrs[12 := ib])]);
        own := own[ib := Ind(n)];
      }
    }

    /** bmap for a block that the indirect block names. */
    method BmapIndirect(n: nat, bn: nat, trans: bool) returns (ok: bool, addr: nat)
      requires FsOk(sb, fs, own) && n < |fs.inodes| && 12 <= bn < 268
      modifies this
      ensures FsOk(sb, fs, own) && SameFiles(old(fs), fs) && Mapped(old(fs), fs, n, bn) && addr == BlockMap(fs, n, bn)
      ensures ok <==> trans || BlockMap(old(fs), n, bn) != 0 || NoneFree(old(own))
      ensures (ok && addr == 0 ==> NoneFree(own)) && Kept(old(own), own)
      ensures (!trans ==> fs == old(fs) && own == old(own))
      ensures writes == old(writes) + Logged(sb, old(fs), fs, n, bn)
      ensures IndirectOf(old(fs), n) != 0 ==> IndirectOf(fs, n) == IndirectOf(old(fs), n)
      ensures Logs(sb, old(fs), fs, n, old(writes), writes)
      ensures trans ==> (fs.inodes[n] != old(fs).inodes[n] <==> Grows(old(fs), old(own), n, bn))
    {
      hide FsOk, SameFiles, BlockMap, Word, NoneFree, BitmapBlock, Logs, IndirectOf;
      MapCases(sb, fs, own, n, bn);
      var ib;
      ok, ib := NeedIndirect(n, trans);
      if ib == 0 {
        addr := 0;
        return;
      }
      ghost var fs1, w1 := fs, writes;
      MapCases(sb, fs, own, n, bn);
      addr := Word(fs.disk[ib], bn - 12);
      if addr == 0 {
        ok, addr := NewBlock(n, bn, trans);
        SameTrans(old(fs), fs1, fs);
        LogsTrans(sb, old(fs), fs1, fs, n, old(writes), w1, writes);
      }
    }

    /** bmap: the disk block of logical block bn, allocated if it is missing; 0 when no block is left.
        No file reads differently afterwards. */
    method Bmap(n: nat, bn: nat, trans: bool) returns (ok: bool, addr: nat)
      requires FsOk(sb, fs, own) && n < |fs.inodes| && bn < 268
      modifies this
      ensures FsOk(sb, fs, own) && SameFiles(old(fs), fs) && Mapped(old(fs), fs, n, bn) && addr == BlockMap(fs, n, bn)
      ensures ok <==> trans || BlockMap(old(fs), n, bn) != 0 || NoneFree(old(own))
      ensures (ok && addr == 0 ==> NoneFree(own)) && Kept(old(own), own)
      ensures (!trans ==> fs == old(fs) && own == old(own))
      ensures writes == old(writes) + Logged(sb, old(fs), fs, n, bn)
      ensures IndirectOf(old(fs), n) != 0 ==> IndirectOf(fs, n) == IndirectOf(old(fs), n)
      ensures Logs(sb, old(fs), fs, n, old(writes), writes)
      ensures trans ==> (fs.inodes[n] != old(fs).inodes[n] <==> Grows(old(fs), old(own), n, bn))
    {
      hide FsOk, SameFiles, BlockMap, Word, NoneFree, BitmapBlock, Logs, IndirectOf;
      if bn >= 12 {
        ok, addr := BmapIndirect(n, bn, trans);
        return;
      }
      SameSelf(fs);
      LogsSelf(sb, fs, n, writes);
      MapCases(sb, fs, own, n, bn);
      ok, addr := true, fs.inodes[n].addrs[bn];
      if addr == 0 {
        ok, addr := NewBlock(n, bn, trans);
      }
    }

    /** One turn of readi's loop: the bytes wanted from the block at off. */
    method ReadOne(n: nat, off: nat, want: nat, trans: bool) returns (ok: bool, chunk: seq<Byte>)
      requires FsOk(sb, fs, own) && n < |fs.inodes| && off < MAXBYTES && want > 0
      modifies this
      ensures FsOk(sb, fs, own) && SameFiles(old(fs), fs) && SameSizes(old(fs), fs) && Grew(old(fs), fs)
      ensures ok <==> trans || BlockMap(old(fs), n, off / 1024) != 0 || NoneFree(old(own))
      ensures chunk == FileBytes(old(fs), n, off, |chunk|) && (!trans ==> fs == old(fs) && own == old(own))
      ensures if chunk == [] then BlockMap(old(fs), n, off / 1024) == 0 && (ok ==> NoneFree(own))
          else |chunk| == if want < 1024 - off % 1024 then want else 1024 - off % 1024
      ensures BlockMap(old(fs), n, off / 1024) != 0 ==> fs == old(fs) && chunk != []
      ensures !trans && chunk != [] ==> BlockMap(old(fs), n, off / 1024) != 0
      ensures ReadLogs(sb, old(fs), fs, n, old(writes), writes) && |writes| <= |old(writes)| + 4
      ensures trans ==> (fs.inodes[n] != old(fs).inodes[n] <==> Grows(old(fs), old(own), n, off / 1024))
    {
      hide FsOk, SameFiles, BlockMap, IndirectOf, Logged, NoneFree, FileBytes, Grows, ReadLogs, Logs;
      BlockInRange(off);
      var addr;
      ok, addr := Bmap(n, off / 1024, trans);
      BmapLogs(sb, old(fs), fs, own, n, off / 1024, old(writes));
      LoggedFew(sb, old(fs), fs, n, off / 1024, old(writes));
      if addr == 0 {
        EmptyBytes(old(fs), n, off);
        chunk := [];
        return;
      }
      MappedBlock(sb, fs, own, n, off / 1024);
      var m := if want < 1024 - off % 1024 then want else 1024 - off % 1024;
      ReadChunk(old(fs), fs, n, off, m);
      chunk := fs.disk[addr].bytes[off % 1024..off % 1024 + m];
    }

    /** readi's loop, over a range below the size. */
    method ReadRange(n: nat, offset: nat, cnt: nat, trans: bool) returns (ok: bool, data: seq<Byte>)
      requires FsOk(sb, fs, own) && n < |fs.inodes| && offset + cnt <= fs.inodes[n].size
      modifies this
      ensures FsOk(sb, fs, own) && SameFiles(old(fs), fs) && SameSizes(old(fs), fs) && Grew(old(fs), fs)
      ensures !ok <==> !trans && HoleIn(old(fs), n, offset, cnt) && !NoneFree(old(own))
      ensures data == FileBytes(old(fs), n, offset, |data|) && (!trans ==> fs == old(fs) && own == old(own))
      ensures ok ==> ReadEnds(old(fs), own, n, offset, cnt, |data|)
      ensures !HoleIn(old(fs), n, offset, cnt) ==> fs == old(fs) && |data| == cnt
    {
      hide FsOk, SameFiles, BlockMap, NoneFree, FileBytes, Grew, HoleIn, ReadEnds, Reading, ReadLogs, Grows, Logs;
      SizesOf(sb, fs, own);
      EmptyBytes(fs, n, offset);
      ReadStart(fs, own, n, offset, trans);
      var off := offset;
      ok, data := true, [];
      while |data| < cnt
        invariant FsOk(sb, fs, own) && ok && n < |fs.inodes|
        invariant |data| <= cnt && off == offset + |data| && data == FileBytes(old(fs), n, offset, |data|)
        invariant 0 < |data| < cnt ==> off % 1024 == 0
        invariant Reading(old(fs), old(own), fs, own, n, offset, |data|, trans)
        decreases cnt - |data|
      {
        ghost var fs1, own1 := fs, own;
        var chunk;
        ok, chunk := ReadOne(n, off, cnt - |data|, trans);
        if chunk == [] {
          ReadStops(old(fs), old(own), fs1, own1, fs, own, n, offset, |data|, cnt, trans, ok);
          return;
        }
        ReadMore(old(fs), old(own), fs1, own1, fs, own, n, offset, |data|, chunk, trans);
        data := data + chunk;
        off := off + |chunk|;
      }
      ReadAll(old(fs), old(own), fs, own, n, offset, cnt, trans);
    }

    /** readi: a slice of the file's bytes, all that was asked for and exists unless a missing block
        could not be allocated.  A range without holes is read without any change to the disk.  Outside a
        transaction a hole is fatal exactly when a block is free to fill it. */
    method Readi(n: nat, offset: Uint, count: Uint, trans: bool) returns (ok: bool, data: seq<Byte>)
      requires FsOk(sb, fs, own) && n < |fs.inodes|
      modifies this
      ensures FsOk(sb, fs, own) && SameFiles(old(fs), fs) && SameSizes(old(fs), fs) && Grew(old(fs), fs)
      ensures var len := ReadLen(old(fs).inodes[n].size, offset, count);
              && (!ok <==> !trans && HoleIn(old(fs), n, offset, len) && !NoneFree(old(own)))
              && (ok ==> ReadEnds(old(fs), own, n, offset, len, |data|))
              && (!HoleIn(old(fs), n, offset, len) ==> fs == old(fs) && |data| == len)
      ensures data == FileBytes(old(fs), n, offset, |data|) && (!trans ==> fs == old(fs) && own == old(own))
      ensures var size, end := old(fs).inodes[n].size, offset + count;
              NoHoles(old(fs), n) || (ok && !NoneFree(own)) ==>
                if offset > size || end >= 0x1_0000_0000 then data == []
                else data == Content(old(fs), n)[offset..if end < size then end else size]
    {
      var off: nat, cnt: nat := offset, count;
      if off > fs.inodes[n].size || off + cnt >= UINT_LIMIT {
        SameSelf(fs);
        return true, [];
      }
      if off + cnt > fs.inodes[n].size {
        cnt := fs.inodes[n].size - off;
      }
      hide FsOk, SameFiles, BlockMap, NoneFree, FileBytes, Grew, HoleIn, ReadEnds;
      ok, data := ReadRange(n, off, cnt, trans);
      ReadSlice(old(fs), own, n, off, cnt, |data|, ok);
    }

    /** The bytes of a turn go into their block, which bmap has found. */
    method StoreChunk(n: nat, src: seq<Byte>, off: nat, tot: nat, m: nat, ghost fs0: Fs, ghost fs1: Fs)
      requires FsOk(sb, fs, own) && n < |fs.inodes| && m > 0 && tot + m <= |src| && off + |src| <= MAXBYTES
      requires (off + tot) % 1024 + m <= 1024 && BlockMap(fs, n, (off + tot) / 1024) != 0
      requires Spliced(fs0, fs1, n, src, off, tot) && SameSizes(fs0, fs1) && Covered(fs0, fs1, n, off, tot)
      requires SameFiles(fs1, fs) && Mapped(fs1, fs, n, (off + tot) / 1024)
      modifies `fs, `writes
      ensures FsOk(sb, fs, own) && Spliced(fs0, fs, n, src, off, tot + m) && SameSizes(fs0, fs)
      ensures Covered(fs0, fs, n, off, tot + m) && IndirectOf(fs, n) == IndirectOf(old(fs), n)
      ensures writes == old(writes) + {BlockMap(old(fs), n, (off + tot) / 1024)}
      ensures Logs(sb, old(fs), fs, n, old(writes), writes)
    {
      hide FsOk, SameFiles, BlockMap, IndirectOf, Spliced, Covered, Overlay, Logs;
      var o := off + tot;
      var k := o / 1024;
      BlockInRange(o);
      MapCases(sb, fs, own, n, k);
      MappedBlock(sb, fs, own, n, k);
      NewBlocksIn(sb, fs, own, n, k);
      var addr := BlockMap(fs, n, k);
      ghost var fs2, w2, x := fs, writes, Overlay(fs.disk[addr], o % 1024, src[tot..tot + m]);
      StoredOk(sb, fs, own, n, k, x);
      fs := fs.(disk := fs.disk[addr := Overlay(fs.disk[addr], o % 1024, src[tot..tot + m])]);
      writes := writes + {addr};
      LogsPut(sb, fs2, n, w2, addr, x);
      SplicedMore(fs0, fs1, fs2, fs, n, src, off, tot, m, x);
      CoveredMore(fs0, fs1, fs2, fs, n, off, tot, m);
      SameIndirect(fs2, fs, n);
    }

    /** One turn of writei's loop: the chunk of src that goes into the block at off + tot. */
    method WriteChunk(n: nat, src: seq<Byte>, off: nat, tot: nat, ghost fs0: Fs, ghost start: set<nat>, ghost t: Tally)
      returns (m: nat, ghost t': Tally)
      requires FsOk(sb, fs, own) && n < |fs.inodes| && tot < |src| && off + |src| <= MAXBYTES
      requires Spliced(fs0, fs, n, src, off, tot) && SameSizes(fs0, fs) && Covered(fs0, fs, n, off, tot)
      requires Tallied(sb, start, writes, t, IndirectOf(fs, n))
      modifies this
      ensures FsOk(sb, fs, own) && tot + m <= |src| && Spliced(fs0, fs, n, src, off, tot + m) && SameSizes(fs0, fs)
      ensures Covered(fs0, fs, n, off, tot + m) && Tallied(sb, start, writes, t', IndirectOf(fs, n))
      ensures (m == 0 ==> NoneFree(own)) && Kept(old(own), own)
      ensures m > 0 ==> (off + tot) % 1024 + m <= 1024 && (tot + m < |src| ==> (off + tot + m) % 1024 == 0)
      ensures t'.written == t.written + One(m > 0)
      ensures t'.created == t.created + One(m > 0 && BlockMap(old(fs), n, (off + tot) / 1024) == 0)
      ensures Logs(sb, old(fs), fs, n, old(writes), writes)
    {
      hide FsOk, SameFiles, BlockMap, IndirectOf, Logged, NoneFree, Spliced, Covered, Tallied, Logs;
      var o := off + tot;
      var k := o / 1024;
      BlockInRange(o);
      var _, addr := Bmap(n, k, true);
      ghost var fs1, w1 := fs, writes;
      TallyStep(sb, start, old(writes), old(fs), fs, own, n, k, t);
      t' := Counted(old(fs), fs, n, k, t);
      if addr == 0 {
        CoveredMapped(fs0, old(fs), fs, n, off, tot, k);
        SplicedSame(fs0, old(fs), fs, n, src, off, tot);
        assert writes + {} == writes;
        return 0, t';
      }
      m := if |src| - tot < 1024 - o % 1024 then |src| - tot else 1024 - o % 1024;
      StoreChunk(n, src, off, tot, m, fs0, old(fs));
      LogsTrans(sb, old(fs), fs1, fs, n, old(writes), w1, writes);
    }

    /** writei's loop: the blocks of the range, as far as there are free blocks for the missing ones. */
    method WriteRange(n: nat, src: seq<Byte>, off: nat) returns (tot: nat, ghost t: Tally)
      requires FsOk(sb, fs, own) && n < |fs.inodes| && off <= fs.inodes[n].size && off + |src| <= MAXBYTES
      modifies this
      ensures FsOk(sb, fs, own) && Kept(old(own), own) && SameSizes(old(fs), fs)
      ensures tot <= |src| && (tot < |src| ==> NoneFree(own)) && Spliced(old(fs), fs, n, src, off, tot)
      ensures Covered(old(fs), fs, n, off, tot) && Tallied(sb, old(writes), writes, t, IndirectOf(fs, n))
      ensures t.written == Touched(off, tot) && (NoHoles(old(fs), n) ==> FewFresh(off, t))
      ensures Logs(sb, old(fs), fs, n, old(writes), writes)
    {
      hide FsOk, BlockMap, IndirectOf, NoneFree, Spliced, Covered, Tallied, FewFresh, Touched, Logs, NoHoles;
      LogsSelf(sb, fs, n, writes);
      tot, t := 0, Tally(0, 0, false, false);
      WriteStart(sb, fs, n, src, off, writes);
      while tot < |src|
        invariant FsOk(sb, fs, own) && tot <= |src| && Spliced(old(fs), fs, n, src, off, tot) && SameSizes(old(fs), fs)
        invariant Kept(old(own), own) && Logs(sb, old(fs), fs, n, old(writes), writes)
        invariant Covered(old(fs), fs, n, off, tot) && Tallied(sb, old(writes), writes, t, IndirectOf(fs, n))
        invariant 0 < tot < |src| ==> (off + tot) % 1024 == 0
        invariant t.written == Touched(off, tot) && (NoHoles(old(fs), n) ==> FewFresh(off, t))
        decreases |src| - tot
      {
        ghost var fs1, t1, w1 := fs, t, writes;
        var m;
        m, t := WriteChunk(n, src, off, tot, old(fs), old(writes), t);
        LogsTrans(sb, old(fs), fs1, fs, n, old(writes), w1, writes);
        if m == 0 {
          FewSame(off, t1, t);
          break;
        }
        TouchedStep(off, tot, m);
        FreshStep(old(fs), fs1, n, off, tot, t1, t);
        tot := tot + m;
      }
    }

    /** writei: -1 when the range is refused; otherwise the first r bytes of src replace those at off,
        all of them unless the disk is full, the file grows as needed and no other file changes.
        With at most MAXCHUNK bytes, and no holes below the size or few bitmap blocks, at most MAXOPBLOCKS
        blocks are logged, and all that changed are. */
    method Writei(n: nat, src: seq<Byte>, offset: Uint) returns (r: int)
      requires FsOk(sb, fs, own) && n < |fs.inodes| && |src| < UINT_LIMIT
      modifies this
      ensures FsOk(sb, fs, own) && |fs.inodes| == |old(fs).inodes| && Kept(old(own), own)
      ensures r == -1 <==> offset > old(fs).inodes[n].size || offset + |src| >= UINT_LIMIT || offset + |src| > MAXBYTES
      ensures r == -1 ==> fs == old(fs) && writes == old(writes)
      ensures r != -1 ==> 0 <= r <= |src| && (r < |src| ==> NoneFree(own)) && Spliced(old(fs), fs, n, src, offset, r)
      ensures r != -1 ==>
          Resized(old(fs), fs, n, if offset + r > old(fs).inodes[n].size then offset + r else old(fs).inodes[n].size)
      ensures NoHoles(old(fs), n) ==> NoHoles(fs, n)
      ensures (NoHoles(old(fs), n) || FewBitmaps(sb)) && |src| <= MAXCHUNK ==> |writes| <= |old(writes)| + MAXOPBLOCKS
      ensures Logs(sb, old(fs), fs, n, old(writes), writes) && (r != -1 ==> InodeBlock(sb, n) in writes)
    {
      hide FsOk, BlockMap, IndirectOf, NoneFree, Spliced, Covered, Tallied, FewFresh, Touched, Logs, NoHoles,
           FewBitmaps;
      LogsSelf(sb, fs, n, writes);
      var off: nat := offset;
      if off > fs.inodes[n].size || off + |src| >= UINT_LIMIT {
        return -1;
      }
      if off + |src| > MAXBYTES {
        return -1;
      }
      var tot;
      ghost var t;
      tot, t := WriteRange(n, src, off);
      r := tot;
      ghost var fs2, w2 := fs, writes;
      if off + tot > fs.inodes[n].size {
        LogsInode(sb, fs, n, writes, fs.inodes[n].(size := off + tot));
        fs := fs.(inodes := fs.inodes[n := fs.inodes[n].(size := off + tot)]);
        LogsTrans(sb, old(fs), fs2, fs, n, old(writes), w2, w2);
      }
      writes := writes + {InodeBlock(sb, n)};
      LogsUpdate(sb, fs, n, w2);
      LogsTrans(sb, old(fs), fs, fs, n, old(writes), w2, writes);
      WriteCount(sb, old(writes), w2, t, IndirectOf(fs2, n), InodeBlock(sb, n), off, tot);
      WriteEnd(sb, old(fs), fs2, fs, own, n, src, off, tot);
    }

    /** filewrite: chunks of at most MAXCHUNK bytes, each a transaction of its own.  The bytes written are
        those by which the file offset moves, and the result says whether that was all of them. */
    method Filewrite(n: nat, src: seq<Byte>, offset: Uint) returns (ret: int, off: nat, ghost largest: nat)
      requires FsOk(sb, fs, own) && n < |fs.inodes| && |src| < 0x8000_0000
      modifies this
      ensures FsOk(sb, fs, own) && |fs.inodes| == |old(fs).inodes|
      ensures offset <= off <= offset + |src| && Wrote(old(fs), fs, n, src, offset, off - offset)
      ensures ret == if off == offset + |src| then |src| else -1
      ensures off < offset + |src| ==> NoneFree(own) || offset > old(fs).inodes[n].size || offset + |src| > MAXBYTES
      ensures NoHoles(old(fs), n) ==> NoHoles(fs, n)
      ensures NoHoles(old(fs), n) || FewBitmaps(sb) ==> largest <= MAXOPBLOCKS
    {
      hide FsOk, NoneFree, Spliced, NoHoles, FewBitmaps, Logs, Kept, Wrote, Resized;
      off, largest := offset, 0;
      var i := 0;
      WroteNone(fs, n, src, offset);
      while i < |src|
        invariant FsOk(sb, fs, own) && i <= |src| && off == offset + i && |fs.inodes| == |old(fs).inodes|
        invariant Wrote(old(fs), fs, n, src, offset, i)
        invariant if i > 0 then off <= fs.inodes[n].size <= MAXBYTES else fs == old(fs)
        invariant (NoHoles(old(fs), n) ==> NoHoles(fs, n))
        invariant (NoHoles(old(fs), n) || FewBitmaps(sb) ==> largest <= MAXOPBLOCKS)
        decreases |src| - i
      {
        var n1 := if |src| - i > MAXCHUNK then MAXCHUNK else |src| - i;
        writes := {};
        ghost var fs1 := fs;
        var r := Writei(n, src[i..i + n1], off);
        largest := if |writes| > largest then |writes| else largest;
        if r != -1 {
          WroteMore(old(fs), fs1, fs, n, src, offset, i, n1, r);
        }
        if r > 0 {
          off := off + r;
        }
        SizesOf(sb, fs, own);
        if r != n1 {
          break;
        }
        i := i + r;
      }
      ret := if i == |src| then |src| else -1;
    }

    /** The first loop of itrunc: the direct blocks. */
    method FreeDirects(n: nat)
      requires FsOk(sb, fs, own) && n < |fs.inodes|
      modifies this
      ensures FsOk(sb, fs, own) && OthersSame(old(fs), fs, n) && Released(old(own), own, n, 12)
      ensures OnlyAddrs(old(fs), fs, n) && (forall k: nat :: k < 12 ==> fs.inodes[n].addrs[k] == 0)
      ensures writes <= old(writes) + BitmapBlocks(sb)
      ensures IndirectOf(fs, n) == IndirectOf(old(fs), n) && Logs(sb, old(fs), fs, n, old(writes), writes)
    {
      hide FsOk, OthersSame, BlockMap, IndirectOf, Logs;
      SizesOf(sb, fs, own);
      LogsSelf(sb, fs, n, writes);
      TruncStart(fs, own, n);
      var i := 0;
      while i < 12
        invariant 0 <= i <= 12 && FsOk(sb, fs, own) && OthersSame(old(fs), fs, n) && Released(old(own), own, n, i)
        invariant OnlyAddrs(old(fs), fs, n) && IndirectOf(fs, n) == IndirectOf(old(fs), n)
        invariant writes <= old(writes) + BitmapBlocks(sb) && Logs(sb, old(fs), fs, n, old(writes), writes)
        invariant forall k: nat :: k < i ==> fs.inodes[n].addrs[k] == 0
      {
        ghost var fs1, own1, w1 := fs, own, writes;
        MapCases(sb, fs, own, n, i);
        if fs.inodes[n].addrs[i] != 0 {
          DetachedOk(sb, fs, own, n, i);
          DetachedMaps(sb, fs, own, n, i, n, 0);
          SizesOf(sb, fs, own);
          var b := fs.inodes[n].addrs[i];
          BitmapBlockIs(sb, b);
          Bfree(b);
          fs := fs.(inodes := fs.inodes[n := fs.inodes[n].(addrs := fs.inodes[n].addrs[i := 0])]);
          own := own[b := Free];
          LogsFreed(sb, fs1, n, w1, b, fs.inodes[n]);
          LogsTrans(sb, old(fs), fs1, fs, n, old(writes), w1, writes);
          RangeMore(sb, fs1, old(own), own1, n, 0, i, b);
          OthersTrans(old(fs), fs1, fs, n);
        } else {
          RangeNone(sb, fs, old(own), own, n, 0, i);
        }
        i := i + 1;
      }
    }

    /** The second loop of itrunc frees the blocks the indirect block names, but leaves its words as they
        are; v is the file system with the words already passed cleared. */
    method FreeEntries(n: nat, ib: nat) returns (ghost x: Block)
      requires FsOk(sb, fs, own) && n < |fs.inodes| && 0 != ib < |fs.disk| && ib == IndirectOf(fs, n)
      modifies this
      ensures ib < |fs.disk| && FsOk(sb, fs.(disk := fs.disk[ib := x]), own)
      ensures OthersSame(old(fs), fs.(disk := fs.disk[ib := x]), n)
      ensures writes <= old(writes) + BitmapBlocks(sb)
      ensures ReleasedRange(old(own), own, n, 12, 268) && fs.inodes == old(fs).inodes
      ensures (forall k: nat :: k < 256 ==> Word(x, k) == 0) && Logs(sb, old(fs), fs, n, old(writes), writes)
    {
      hide FsOk, OthersSame, BlockMap, Word, SetWord, PutBit, ReleasedRange, Detached, Logs;
      SizesOf(sb, fs, own);
      LogsSelf(sb, fs, n, writes);
      TruncStart(fs, own, n);
      var bp := fs.disk[ib];
      x := bp;
      assert fs.disk[ib := x] == fs.disk;
      var j := 0;
      while j < 256
        invariant 0 <= j <= 256 && |fs.disk| == |old(fs).disk| && fs.inodes == old(fs).inodes
        invariant FsOk(sb, fs.(disk := fs.disk[ib := x]), own) && OthersSame(old(fs), fs.(disk := fs.disk[ib := x]), n)
        invariant ReleasedRange(old(own), own, n, 12, 12 + j) && writes <= old(writes) + BitmapBlocks(sb)
        invariant forall k: nat :: k < 256 ==> Word(x, k) == if k < j then 0 else Word(bp, k)
        invariant Logs(sb, old(fs), fs, n, old(writes), writes)
      {
        ghost var v, own1 := fs.(disk := fs.disk[ib := x]), own;
        ghost var fs1, w1 := fs, writes;
        SizesOf(sb, v, own);
        SameIndirect(fs, v, n);
        SameIndirect(old(fs), fs, n);
        MapCases(sb, v, own, n, 12 + j);
        var b := Word(bp, j);
        if b != 0 {
          DetachedOk(sb, v, own, n, 12 + j);
          EntryDetached(sb, fs, own, n, ib, x, j, b);
          BitmapBlockIs(sb, b);
          Bfree(b);
          LogsFreed(sb, fs1, n, w1, b, fs1.inodes[n]);
          assert fs1.inodes[n := fs1.inodes[n]] == fs1.inodes;
          LogsTrans(sb, old(fs), fs1, fs, n, old(writes), w1, writes);
          x := SetWord(x, j, 0);
          own := own[b := Free];
          RangeMore(sb, v, old(own), own1, n, 12, 12 + j, b);
          OthersTrans(old(fs), v, fs.(disk := fs.disk[ib := x]), n);
        } else {
          RangeNone(sb, v, old(own), own, n, 12, 12 + j);
        }
        j := j + 1;
      }
    }

    /** The indirect part of itrunc: its blocks, then the indirect block itself. */
    method FreeIndirect(n: nat)
      requires FsOk(sb, fs, own) && n < |fs.inodes| && IndirectOf(fs, n) != 0
      modifies this
      ensures FsOk(sb, fs, own) && OthersSame(old(fs), fs, n) && OnlyAddrs(old(fs), fs, n)
      ensures fs.inodes[n].addrs == old(fs).inodes[n].addrs[12 := 0] && writes <= old(writes) + BitmapBlocks(sb)
      ensures |own| == |old(own)| && forall b: nat :: b < |own| ==>
                own[b] == if old(own)[b] == Ind(n) ||
                  (old(own)[b].Data? && old(own)[b].n == n && old(own)[b].k >= 12) then Free else old(own)[b]
      ensures Logs(sb, old(fs), fs, n, old(writes), writes)
    {
      hide FsOk, OthersSame, BlockMap, Word, PutBit, Logs;
      SizesOf(sb, fs, own);
      IndirectPlaced(sb, fs, own, n);
      var ib := fs.inodes[n].addrs[12];
      ghost var x := FreeEntries(n, ib);
      ghost var v, own1, orig := fs.(disk := fs.disk[ib := x]), own, fs.disk[ib];
      ghost var fs1, w1 := fs, writes;
      NoEntries(sb, v, own, n, x);
      IndFreedOk(sb, v, own, n);
      SizesOf(sb, v, own);
      IndApart(sb, fs, own, n, ib, x);
      BitmapBlockIs(sb, ib);
      Bfree(ib);
      fs := fs.(inodes := fs.inodes[n := fs.inodes[n].(addrs := fs.inodes[n].addrs[12 := 0])]);
      own := own[ib := Free];
      LogsFreed(sb, fs1, n, w1, ib, fs.inodes[n]);
      LogsTrans(sb, old(fs), fs1, fs, n, old(writes), w1, writes);
      FreeContent(sb, IndFreed(sb, v, n), own, ib, orig);
      OthersChain(old(fs), v, IndFreed(sb, v, n), fs, n);
      IndOwners(sb, old(fs), old(own), own1, n, ib);
    }

    /** itrunc: the file is empty, exactly its blocks are free again and no other file changed.  Every
        block it frees has its bit set, so "freeing free block" cannot happen.  It logs the inode's block
        and blocks of the bitmap. */
    method Itrunc(n: nat)
      requires FsOk(sb, fs, own) && n < |fs.inodes|
      modifies this
      ensures FsOk(sb, fs, own) && OthersSame(old(fs), fs, n)
      ensures fs.inodes == old(fs).inodes[n := Inode(0, seq(13, _ => 0))]
      ensures writes <= old(writes) + BitmapBlocks(sb) + {InodeBlock(sb, n)}
      ensures |writes| <= |old(writes)| + (sb.nmeta - sb.bmapstart) + 1
      ensures |own| == |old(own)| && forall b: nat :: b < |own| ==>
                own[b] == if (old(own)[b].Ind? || old(own)[b].Data?) && old(own)[b].n == n then Free else old(own)[b]
      ensures Logs(sb, old(fs), fs, n, old(writes), writes) && InodeBlock(sb, n) in writes
    {
      SizesOf(sb, fs, own);
      hide FsOk, OthersSame, BlockMap, BitmapBlocks, LayoutOk, Logs;
      FreeDirects(n);
      ghost var fs1, own1, w1 := fs, own, writes;
      if fs.inodes[n].addrs[12] != 0 {
        FreeIndirect(n);
        OthersTrans(old(fs), fs1, fs, n);
        LogsTrans(sb, old(fs), fs1, fs, n, old(writes), w1, writes);
      } else {
        NoIndirect(sb, fs, own, n);
      }
      ghost var fs2, w2 := fs, writes;
      assert fs.inodes[n].addrs == seq(13, _ => 0);
      fs := fs.(inodes := fs.inodes[n := fs.inodes[n].(size := 0)]);
      writes := writes + {InodeBlock(sb, n)};
      LogsInode(sb, fs2, n, w2, fs.inodes[n]);
      LogsTrans(sb, old(fs), fs2, fs, n, old(writes), w2, w2);
      LogsUpdate(sb, fs, n, w2);
      LogsTrans(sb, old(fs), fs, fs, n, old(writes), w2, writes);
      SizeOnly(sb, fs2, fs, own, n);
      OthersTrans(old(fs), fs2, fs, n);
      TruncCount(sb, old(writes), writes, InodeBlock(sb, n));
    }

    /** One operation on a file: what it returns, and for a read the bytes.  It falls short only when the
        disk is full, and panics exactly for a read outside a transaction that meets a hole and a free
        block. */
    method Exec(op: FileOp) returns (ok: bool, r: int, data: seq<Byte>)
      requires FsOk(sb, fs, own)
      modifies this
      ensures FsOk(sb, fs, own) && |fs.inodes| == |old(fs).inodes| && HolesStay(old(fs), fs)
      ensures ok <==> !Fatal(old(fs), old(own), op)
      ensures if ok then Contents(fs) == FileStep(Contents(old(fs)), op, r) else fs == old(fs) && own == old(own)
      ensures ok ==> Answered(Contents(old(fs)), op, r, data) && Complete(old(fs), op, r, own)
      ensures op.Write? && op.n < |fs.inodes| && (NoHoles(old(fs), op.n) || FewBitmaps(sb)) && |op.data| <= MAXCHUNK ==>
                |writes| <= |old(writes)| + MAXOPBLOCKS
      ensures op.Truncate? && FewBitmaps(sb) ==> |writes| <= |old(writes)| + MAXOPBLOCKS
      ensures !op.Read? ==> Logs(sb, old(fs), fs, op.n, old(writes), writes)
      ensures !op.Read? && (fs != old(fs) || writes != old(writes)) ==> InodeBlock(sb, op.n) in writes
      ensures op.Read? && !op.trans ==> fs == old(fs) && own == old(own)
    {
      hide FsOk, SameFiles, Spliced, BlockMap, NoneFree, OthersSame, NoHoles, FileBytes, Contents, Content, HoleIn,
           ReadEnds, Logs;
      LogsSelf(sb, fs, op.n, writes);
      ok, r, data := true, -1, [];
      HolesSelf(fs);
      ContentsSize(fs);
      if op.n >= |fs.inodes| {
        return;
      }
      match op
      case Write(n, src, off) =>
        if |src| < UINT_LIMIT {
          r := Writei(n, src, off);
          WroteContents(old(fs), fs, n, src, off, r);
          WroteHoles(sb, old(fs), old(own), fs, own, n);
        }
      case Read(n, off, cnt, trans) =>
        ok, data := Readi(n, off, cnt, trans);
        r := |data|;
        GrewHoles(old(fs), fs);
        if ok {
          SameContents(old(fs), fs);
          ContentSlice(old(fs), n, off, r);
          ReadWithin(old(fs), own, n, off, cnt, r);
        }
      case Truncate(n) =>
        Itrunc(n);
        TruncContents(old(fs), fs, n);
        TruncHoles(sb, old(fs), old(own), fs, own, n);
        r := 0;
    }

    /** Any sequence of writes, reads and truncations, up to its end or a fatal read: the files are what
        plain byte sequences would be after as many bytes as each write returned, each read gives what is
        there, and nothing falls short while a block is free.  trace is the file system and the owners
        before each operation and at the end. */
    method Run(ops: seq<FileOp>) returns (rs: seq<int>, ds: seq<seq<Byte>>, ghost trace: seq<(Fs, seq<Owner>)>)
      requires FsOk(sb, fs, own)
      modifies this
      ensures FsOk(sb, fs, own) && HolesStay(old(fs), fs) && |rs| == |ds| <= |ops|
      ensures Contents(fs) == Replay(Contents(old(fs)), ops[..|rs|], rs)
      ensures |rs| < |ops| ==> Fatal(fs, own, ops[|rs|])
      ensures (forall n: nat :: n < |old(fs).inodes| ==> NoHoles(old(fs), n)) ==> |rs| == |ops|
      ensures |trace| == |rs| + 1 && trace[0] == (old(fs), old(own)) && trace[|rs|] == (fs, own)
      ensures forall i: nat :: i < |rs| ==> Ran(trace[i], ops[i], rs[i], ds[i], trace[i + 1])
    {
      hide FsOk, HolesStay, Contents, FileStep, Answered, Fatal, Complete, NoHoles;
      rs, ds, trace := [], [], [(fs, own)];
      HolesSelf(fs);
      for i := 0 to |ops|
        invariant FsOk(sb, fs, own) && HolesStay(old(fs), fs) && |rs| == |ds| == i && |trace| == i + 1
        invariant Contents(fs) == Replay(Contents(old(fs)), ops[..i], rs)
        invariant trace[0] == (old(fs), old(own)) && trace[i] == (fs, own)
        invariant forall j: nat :: j < i ==> Ran(trace[j], ops[j], rs[j], ds[j], trace[j + 1])
      {
        ghost var fs1 := fs;
        var ok, r, data := Exec(ops[i]);
        if !ok {
          FatalNeedsHole(old(fs), fs, own, ops[i]);
          return;
        }
        HolesTrans(old(fs), fs1, fs);
        assert ops[..i + 1][..i] == ops[..i] && (rs + [r])[..i] == rs;
        rs, ds, trace := rs + [r], ds + [data], trace + [(fs, own)];
      }
      assert ops[..|ops|] == ops;
    }
  }

  function Range(lo: nat, hi: nat): (s: set<nat>)
    ensures |s| == (if lo < hi then hi - lo else 0) && forall b: nat :: b in s <==> lo <= b < hi
    decreases hi
  {
    if lo >= hi then {} else Range(lo, hi - 1) + {hi - 1}
  }

  function BitmapBlocks(sb: Layout): set<nat> { Range(sb.bmapstart, sb.nmeta) }

  lemma BitmapBlockIs(sb: Layout, b: nat)
    requires LayoutOk(sb) && b < sb.size
    ensures BitmapBlock(sb, b) in BitmapBlocks(sb)
  {
  }

  lemma TruncCount(sb: Layout, before: set<nat>, writes: set<nat>, inode: nat)
    requires LayoutOk(sb) && writes <= before + BitmapBlocks(sb) + {inode}
    ensures |writes| <= |before| + (sb.nmeta - sb.bmapstart) + 1
  {
    var all := before + BitmapBlocks(sb) + {inode};
    assert all == writes + (all - writes);
  }

  /** The map entry as bmap reads it. */
  lemma MapCases(sb: Layout, fs: Fs, own: seq<Owner>, n: nat, k: nat)
    requires FsOk(sb, fs, own) && n < |fs.inodes| && k < 268
    ensures |fs.inodes[n].addrs| == 13 && fs.inodes[n].addrs[12] == IndirectOf(fs, n) < |fs.disk|
    ensures k < 12 ==> BlockMap(fs, n, k) == fs.inodes[n].addrs[k]
    ensures k >= 12 && IndirectOf(fs, n) == 0 ==> BlockMap(fs, n, k) == 0
    ensures k >= 12 && IndirectOf(fs, n) != 0 ==> BlockMap(fs, n, k) == Word(fs.disk[IndirectOf(fs, n)], k - 12)
  {
    assert IndOk(fs, own, n);
  }

  ghost predicate SameSizes(fs: Fs, fs': Fs) {
    && |fs'.disk| == |fs.disk| && |fs'.inodes| == |fs.inodes|
    && forall m: nat :: m < |fs.inodes| ==> fs'.inodes[m].size == fs.inodes[m].size
  }

  // ----- a file as one sequence of bytes -----

  function FileBytes(fs: Fs, n: nat, off: nat, len: nat): (s: seq<Byte>)
    ensures |s| == len && forall i: nat :: i < len ==> s[i] == ByteAt(fs, n, off + i)
  {
    seq<Byte>(len, i requires 0 <= i < len => ByteAt(fs, n, off + i))
  }

  /** The contents of file n. */
  function Content(fs: Fs, n: nat): seq<Byte>
    requires n < |fs.inodes|
  {
    FileBytes(fs, n, 0, fs.inodes[n].size)
  }

  /** Every block below the file's size is there. */
  ghost predicate NoHoles(fs: Fs, n: nat)
    requires n < |fs.inodes|
  {
    forall k: nat :: 1024 * k < fs.inodes[n].size ==> BlockMap(fs, n, k) != 0
  }

  /** How many bytes a read of cnt at off may return: none beyond the end, or if off + cnt overflows a uint. */
  function ReadLen(size: nat, off: Uint, cnt: Uint): nat {
    if off > size || off + cnt >= UINT_LIMIT then 0 else if off + cnt > size then size - off else cnt
  }

  /** A block of the range is missing. */
  ghost predicate HoleIn(fs: Fs, n: nat, off: nat, len: nat) {
    len > 0 && exists k: nat :: off / 1024 <= k && 1024 * k < off + len && BlockMap(fs, n, k) == 0
  }

  /** A read of len bytes ends after r: with all of them, or at a missing block with none free. */
  ghost predicate ReadEnds(fs: Fs, own: seq<Owner>, n: nat, off: nat, len: nat, r: nat) {
    r <= len && (r < len ==> BlockMap(fs, n, (off + r) / 1024) == 0 && NoneFree(own))
  }

  /** Blocks are added to the maps and none is taken away. */
  ghost predicate Grew(fs: Fs, fs': Fs) {
    forall m: nat, k: nat :: BlockMap(fs, m, k) != 0 ==> BlockMap(fs', m, k) == BlockMap(fs, m, k)
  }

  lemma GrewTrans(a: Fs, b: Fs, c: Fs)
    requires Grew(a, b) && Grew(b, c)
    ensures Grew(a, c)
  {
    hide BlockMap;
  }

  lemma HoleMore(fs: Fs, n: nat, off: nat, done: nat, m: nat)
    requires m > 0 && (off + done) % 1024 + m <= 1024 && (done > 0 ==> (off + done) % 1024 == 0)
    ensures HoleIn(fs, n, off, done + m) <==> HoleIn(fs, n, off, done) || BlockMap(fs, n, (off + done) / 1024) == 0
  {
    hide BlockMap;
    forall k: nat | off / 1024 <= k && 1024 * k < off + done + m
      ensures k == (off + done) / 1024 || (1024 * k < off + done && done > 0)
    {
    }
  }

  /** A read after done bytes: outside a transaction, and while it has met no hole, nothing has changed. */
  ghost predicate Reading(fs0: Fs, own0: seq<Owner>, fs: Fs, own: seq<Owner>, n: nat, off: nat, done: nat,
                          trans: bool) {
    && SameFiles(fs0, fs) && SameSizes(fs0, fs) && Grew(fs0, fs)
    && (!trans ==> fs == fs0 && own == own0) && (if HoleIn(fs0, n, off, done) then trans else fs == fs0)
  }

  lemma ReadStart(fs: Fs, own: seq<Owner>, n: nat, off: nat, trans: bool)
    ensures Reading(fs, own, fs, own, n, off, 0, trans)
  {
    SameSelf(fs);
  }

  /** One turn of a read found its block, or made it. */
  lemma ReadMore(fs0: Fs, own0: seq<Owner>, fs1: Fs, own1: seq<Owner>, fs: Fs, own: seq<Owner>,
                 n: nat, off: nat, done: nat, chunk: seq<Byte>, trans: bool)
    requires Reading(fs0, own0, fs1, own1, n, off, done, trans) && chunk == FileBytes(fs1, n, off + done, |chunk|)
    requires SameFiles(fs1, fs) && SameSizes(fs1, fs) && Grew(fs1, fs) && (!trans ==> fs == fs1 && own == own1)
    requires BlockMap(fs1, n, (off + done) / 1024) != 0 ==> fs == fs1
    requires !trans ==> BlockMap(fs1, n, (off + done) / 1024) != 0
    requires chunk != [] && (off + done) % 1024 + |chunk| <= 1024 && (done > 0 ==> (off + done) % 1024 == 0)
    ensures Reading(fs0, own0, fs, own, n, off, done + |chunk|, trans)
    ensures FileBytes(fs0, n, off, done) + chunk == FileBytes(fs0, n, off, done + |chunk|)
  {
    SameTrans(fs0, fs1, fs);
    GrewTrans(fs0, fs1, fs);
    BytesStay(fs0, fs1, n, off + done, |chunk|);
    BytesJoin(fs0, n, off, done, |chunk|);
    HoleMore(fs0, n, off, done, |chunk|);
    hide SameFiles, Grew, BlockMap, FileBytes, HoleIn;
  }

  lemma ReadStops(fs0: Fs, own0: seq<Owner>, fs1: Fs, own1: seq<Owner>, fs: Fs, own: seq<Owner>,
                  n: nat, off: nat, done: nat, len: nat, trans: bool, ok: bool)
    requires Reading(fs0, own0, fs1, own1, n, off, done, trans) && done < len
    requires BlockMap(fs1, n, (off + done) / 1024) == 0
    requires SameFiles(fs1, fs) && SameSizes(fs1, fs) && Grew(fs1, fs) && (!trans ==> fs == fs1 && own == own1)
    requires (ok <==> trans || NoneFree(own1)) && (ok ==> NoneFree(own))
    ensures SameFiles(fs0, fs) && SameSizes(fs0, fs) && Grew(fs0, fs) && (!trans ==> fs == fs0 && own == own0)
    ensures HoleIn(fs0, n, off, len) && (!ok <==> !trans && !NoneFree(own0))
    ensures (ok ==> ReadEnds(fs0, own, n, off, len, done))
  {
    SameTrans(fs0, fs1, fs);
    GrewTrans(fs0, fs1, fs);
    hide SameFiles, BlockMap, NoneFree;
  }

  lemma ReadAll(fs0: Fs, own0: seq<Owner>, fs: Fs, own: seq<Owner>, n: nat, off: nat, len: nat, trans: bool)
    requires Reading(fs0, own0, fs, own, n, off, len, trans)
    ensures SameFiles(fs0, fs) && SameSizes(fs0, fs) && Grew(fs0, fs) && (!trans ==> fs == fs0 && own == own0)
    ensures ReadEnds(fs0, own, n, off, len, len) && if HoleIn(fs0, n, off, len) then trans else fs == fs0
  {
  }

  /** A read that met no hole, or found a block for each, is a slice of the file. */
  lemma ReadSlice(fs: Fs, own: seq<Owner>, n: nat, off: nat, cnt: nat, r: nat, ok: bool)
    requires n < |fs.inodes| && off + cnt <= fs.inodes[n].size && (!HoleIn(fs, n, off, cnt) ==> r == cnt)
    requires ok ==> ReadEnds(fs, own, n, off, cnt, r)
    ensures NoHoles(fs, n) || (ok && !NoneFree(own)) ==> FileBytes(fs, n, off, r) == Content(fs, n)[off..off + cnt]
  {
    hide BlockMap, ByteAt, NoneFree;
  }

  lemma ChunkIs(fs: Fs, n: nat, off: nat, m: nat)
    requires 0 != BlockMap(fs, n, off / 1024) < |fs.disk| && off % 1024 + m <= 1024
    ensures fs.disk[BlockMap(fs, n, off / 1024)].bytes[off % 1024..off % 1024 + m] == FileBytes(fs, n, off, m)
  {
  }

  lemma BytesStay(fs: Fs, fs': Fs, n: nat, off: nat, len: nat)
    requires SameFiles(fs, fs')
    ensures FileBytes(fs', n, off, len) == FileBytes(fs, n, off, len)
  {
    forall i: nat | i < len
      ensures FileBytes(fs', n, off, len)[i] == FileBytes(fs, n, off, len)[i]
    {
      assert SameByte(fs, fs', n, off + i);
    }
  }

  lemma BytesJoin(fs: Fs, n: nat, off: nat, a: nat, b: nat)
    ensures FileBytes(fs, n, off, a) + FileBytes(fs, n, off + a, b) == FileBytes(fs, n, off, a + b)
  {
  }

  lemma EmptyBytes(fs: Fs, n: nat, off: nat)
    ensures FileBytes(fs, n, off, 0) == []
  {
  }

  /** The chunk of a read, after bmap. */
  lemma ReadChunk(fs0: Fs, fs: Fs, n: nat, off: nat, m: nat)
    requires SameFiles(fs0, fs) && 0 != BlockMap(fs, n, off / 1024) < |fs.disk| && off % 1024 + m <= 1024
    ensures fs.disk[BlockMap(fs, n, off / 1024)].bytes[off % 1024..off % 1024 + m] == FileBytes(fs0, n, off, m)
  {
    ChunkIs(fs, n, off, m);
    BytesStay(fs0, fs, n, off, m);
  }

  /** Where a read or write of a file may be: below its largest size. */
  lemma BlockInRange(off: nat)
    requires off < MAXBYTES
    ensures off / 1024 < 268
  {
  }

  lemma MappedBlock(sb: Layout, fs: Fs, own: seq<Owner>, n: nat, k: nat)
    requires FsOk(sb, fs, own) && BlockMap(fs, n, k) != 0
    ensures BlockMap(fs, n, k) < |fs.disk|
  {
    assert MapOk(fs, own, n, k);
  }

  // ----- writing -----

  /** memmove of s into a block. */
  function Overlay(x: Block, at: nat, s: seq<Byte>): Block
    requires at + |s| <= 1024
  {
    Block(x.bytes[..at] + s + x.bytes[at + |s|..])
  }

  /** The first tot bytes of src are in place at off of file n, and no other byte of any file moved. */
  ghost predicate Spliced(fs0: Fs, fs: Fs, n: nat, src: seq<Byte>, off: nat, tot: nat)
    requires tot <= |src|
  {
    forall m: nat, p: nat ::
      ByteAt(fs, m, p) == if m == n && off <= p < off + tot then src[p - off] else ByteAt(fs0, m, p)
  }

  /** Blocks stay mapped, and those of the bytes written are. */
  ghost predicate Covered(fs0: Fs, fs: Fs, n: nat, off: nat, tot: nat) {
    && (forall k: nat :: BlockMap(fs0, n, k) != 0 ==> BlockMap(fs, n, k) != 0)
    && (forall p: nat :: off <= p < off + tot ==> BlockMap(fs, n, p / 1024) != 0)
  }

  lemma SplicedMore(fs0: Fs, fs: Fs, fs1: Fs, fs2: Fs, n: nat, src: seq<Byte>, off: nat, tot: nat, m: nat, x: Block)
    requires tot + m <= |src| && (off + tot) % 1024 + m <= 1024
    requires Spliced(fs0, fs, n, src, off, tot) && SameFiles(fs, fs1)
    requires var a := BlockMap(fs1, n, (off + tot) / 1024);
             a < |fs1.disk| && a != 0 && x == Overlay(fs1.disk[a], (off + tot) % 1024, src[tot..tot + m])
    requires forall q: nat, p: nat ::
        ByteAt(fs2, q, p) == if q == n && p / 1024 == (off + tot) / 1024 then x.bytes[p % 1024] else ByteAt(fs1, q, p)
    ensures Spliced(fs0, fs2, n, src, off, tot + m)
  {
    var k, at := (off + tot) / 1024, (off + tot) % 1024;
    forall q: nat, p: nat
      ensures ByteAt(fs2, q, p) == if q == n && off <= p < off + tot + m then src[p - off] else ByteAt(fs0, q, p)
    {
      assert SameByte(fs, fs1, q, p);
      if q == n && p / 1024 == k {
        assert ByteAt(fs2, q, p) == x.bytes[p % 1024];
        InBlock(p, k, off + tot, m);
        if at <= p % 1024 < at + m {
          assert x.bytes[p % 1024] == src[tot..tot + m][p % 1024 - at];
        } else {
          assert x.bytes[p % 1024] == fs1.disk[BlockMap(fs1, n, k)].bytes[p % 1024];
          assert ByteAt(fs1, q, p) == fs1.disk[BlockMap(fs1, n, k)].bytes[p % 1024];
        }
      } else {
        assert ByteAt(fs2, q, p) == ByteAt(fs1, q, p);
        OtherBlock(p, k, off + tot, m);
      }
    }
  }

  lemma InBlock(p: nat, k: nat, o: nat, m: nat)
    requires p / 1024 == k == o / 1024 && o % 1024 + m <= 1024
    ensures o % 1024 <= p % 1024 < o % 1024 + m <==> o <= p < o + m
    ensures p - o == p % 1024 - o % 1024
  {
  }

  lemma OtherBlock(p: nat, k: nat, o: nat, m: nat)
    requires k == o / 1024 && o % 1024 + m <= 1024
    ensures p / 1024 != k ==> !(o <= p < o + m)
  {
  }

  lemma SplicedSame(fs0: Fs, fs: Fs, fs1: Fs, n: nat, src: seq<Byte>, off: nat, tot: nat)
    requires tot <= |src| && Spliced(fs0, fs, n, src, off, tot) && SameFiles(fs, fs1)
    ensures Spliced(fs0, fs1, n, src, off, tot)
  {
    forall m: nat, p: nat
      ensures ByteAt(fs1, m, p) == if m == n && off <= p < off + tot then src[p - off] else ByteAt(fs0, m, p)
    {
      assert SameByte(fs, fs1, m, p);
    }
  }

  lemma CoveredMapped(fs0: Fs, fs: Fs, fs1: Fs, n: nat, off: nat, tot: nat, k: nat)
    requires Covered(fs0, fs, n, off, tot) && Mapped(fs, fs1, n, k)
    ensures Covered(fs0, fs1, n, off, tot)
  {
  }

  lemma CoveredMore(fs0: Fs, fs: Fs, fs1: Fs, fs2: Fs, n: nat, off: nat, tot: nat, m: nat)
    requires Covered(fs0, fs, n, off, tot) && Mapped(fs, fs1, n, (off + tot) / 1024)
    requires BlockMap(fs1, n, (off + tot) / 1024) != 0
    requires (forall q: nat, j: nat :: BlockMap(fs2, q, j) == BlockMap(fs1, q, j)) && (off + tot) % 1024 + m <= 1024
    ensures Covered(fs0, fs2, n, off, tot + m)
  {
  }

  lemma SameIndirect(fs: Fs, fs': Fs, n: nat)
    requires fs'.inodes == fs.inodes
    ensures IndirectOf(fs', n) == IndirectOf(fs, n)
  {
  }

  lemma SplicedTrans(fs0: Fs, fs1: Fs, fs2: Fs, n: nat, src: seq<Byte>, off: nat, i: nat, n1: nat, r: nat)
    requires i + n1 <= |src| && r <= n1 && Spliced(fs0, fs1, n, src, off, i)
    requires Spliced(fs1, fs2, n, src[i..i + n1], off + i, r)
    ensures Spliced(fs0, fs2, n, src, off, i + r)
  {
  }

  /** The first i bytes of src are in place, and the file is as long as that makes it. */
  ghost predicate Wrote(fs0: Fs, fs: Fs, n: nat, src: seq<Byte>, off: nat, i: nat)
    requires i <= |src| && n < |fs0.inodes|
  {
    && Spliced(fs0, fs, n, src, off, i)
    && Resized(fs0, fs, n, if i > 0 && off + i > fs0.inodes[n].size then off + i else fs0.inodes[n].size)
  }

  /** One chunk more. */
  lemma WroteMore(fs0: Fs, fs1: Fs, fs2: Fs, n: nat, src: seq<Byte>, off: nat, i: nat, n1: nat, r: nat)
    requires n < |fs0.inodes| && i + n1 <= |src| && r <= n1 && Wrote(fs0, fs1, n, src, off, i)
    requires n < |fs1.inodes| && off + i <= fs1.inodes[n].size && Spliced(fs1, fs2, n, src[i..i + n1], off + i, r)
    requires Resized(fs1, fs2, n, if off + i + r > fs1.inodes[n].size then off + i + r else fs1.inodes[n].size)
    ensures Wrote(fs0, fs2, n, src, off, i + r) && n < |fs2.inodes| && (r > 0 ==> off + i + r <= fs2.inodes[n].size)
  {
    SplicedTrans(fs0, fs1, fs2, n, src, off, i, n1, r);
    hide Spliced;
  }

  lemma WroteNone(fs: Fs, n: nat, src: seq<Byte>, off: nat)
    requires n < |fs.inodes|
    ensures Wrote(fs, fs, n, src, off, 0)
  {
  }

  /** s in place of the bytes of c at off, which may extend it. */
  function Splice(c: seq<Byte>, off: nat, s: seq<Byte>): seq<Byte>
    requires off <= |c|
  {
    c[..off] + s + if off + |s| < |c| then c[off + |s|..] else []
  }

  /** A write is a splice of the file's contents and leaves every other file's contents alone. */
  lemma WriteIsSplice(fs0: Fs, fs: Fs, n: nat, src: seq<Byte>, off: nat, r: nat)
    requires n < |fs0.inodes| && r <= |src| && off <= fs0.inodes[n].size && Spliced(fs0, fs, n, src, off, r)
    requires Resized(fs0, fs, n, if off + r > fs0.inodes[n].size then off + r else fs0.inodes[n].size)
    ensures Content(fs, n) == Splice(Content(fs0, n), off, src[..r])
    ensures forall m: nat :: m < |fs.inodes| && m != n ==> Content(fs, m) == Content(fs0, m)
  {
  }

  // ----- counting the blocks of a transaction -----

  /** The tally of a write: data blocks written, new ones among them, whether the indirect block has been
      logged, and whether it is new. */
  datatype Tally = Tally(written: nat, created: nat, indirect: bool, newIndirect: bool)

  function One(b: bool): nat { if b then 1 else 0 }

  /** The log set is no larger than the tally says. */
  ghost predicate Within(start: set<nat>, writes: set<nat>, t: Tally, ib: nat) {
    && |writes| <= |start| + t.written + t.created + One(t.indirect) + One(t.newIndirect)
    && (t.indirect ==> ib != 0 && ib in writes) && (t.newIndirect ==> ib != 0)
  }

  /** Nor are the blocks in it outside the bitmap. */
  ghost predicate Apart(bits: set<nat>, start: set<nat>, writes: set<nat>, t: Tally, ib: nat) {
    |writes - bits| <= |start - bits| + t.written + One(t.indirect) && (t.indirect ==> ib in writes)
  }

  ghost predicate Tallied(sb: Layout, start: set<nat>, writes: set<nat>, t: Tally, ib: nat) {
    Within(start, writes, t, ib) && Apart(BitmapBlocks(sb), start, writes, t, ib)
  }

  /** The tally after bmap, and after the data is in place if the block was found. */
  function Counted(fs: Fs, fs': Fs, n: nat, k: nat, t: Tally): Tally {
    var got := BlockMap(fs', n, k) != 0;
    var isNew := got && BlockMap(fs, n, k) == 0;
    var newInd := IndirectOf(fs, n) == 0 && IndirectOf(fs', n) != 0;
    Tally(t.written + One(got), t.created + One(isNew), t.indirect || newInd || (isNew && k >= 12),
          t.newIndirect || newInd)
  }

  /** A block's bit is in the bitmap. */
  lemma NewBlocksIn(sb: Layout, fs: Fs, own: seq<Owner>, n: nat, k: nat)
    requires FsOk(sb, fs, own) && n < |fs.inodes| && k < 268
    ensures BitmapBlock(sb, IndirectOf(fs, n)) in BitmapBlocks(sb)
    ensures BitmapBlock(sb, BlockMap(fs, n, k)) in BitmapBlocks(sb)
    ensures BlockMap(fs, n, k) != 0 ==> sb.bmapstart <= BlockMap(fs, n, k) < sb.size
  {
    assert IndOk(fs, own, n) && MapOk(fs, own, n, k);
    BitmapBlockIs(sb, IndirectOf(fs, n));
    BitmapBlockIs(sb, BlockMap(fs, n, k));
    if BlockMap(fs, n, k) != 0 {
      assert OwnOk(sb, fs, own, BlockMap(fs, n, k));
    }
  }

  /** The blocks one turn of writei logs, against the tally. */
  lemma CountStep(sb: Layout, start: set<nat>, writes: set<nat>, fs: Fs, fs': Fs, n: nat, k: nat, t: Tally)
    requires Within(start, writes, t, IndirectOf(fs, n))
    requires IndirectOf(fs, n) != 0 ==> IndirectOf(fs', n) == IndirectOf(fs, n)
    requires k >= 12 && BlockMap(fs', n, k) != 0 ==> IndirectOf(fs', n) != 0
    ensures Within(start, Turn(sb, writes, fs, fs', n, k), Counted(fs, fs', n, k, t), IndirectOf(fs', n))
  {
  }

  /** The log set after a turn. */
  function Turn(sb: Layout, writes: set<nat>, fs: Fs, fs': Fs, n: nat, k: nat): set<nat> {
    var a := BlockMap(fs', n, k);
    writes + Logged(sb, fs, fs', n, k) + (if a != 0 then {a} else {})
  }

  /** bmap logs the indirect block. */
  function LogsIndirect(fs: Fs, fs': Fs, n: nat, k: nat): bool {
    var a, ib := BlockMap(fs', n, k), IndirectOf(fs', n);
    (IndirectOf(fs, n) == 0 && ib != 0) || (BlockMap(fs, n, k) == 0 && a != 0 && k >= 12)
  }

  /** Of these blocks, those outside the bitmap. */
  lemma TurnApart(sb: Layout, writes: set<nat>, fs: Fs, fs': Fs, n: nat, k: nat, bits: set<nat>)
    requires BitmapBlock(sb, IndirectOf(fs', n)) in bits && BitmapBlock(sb, BlockMap(fs', n, k)) in bits
    ensures var more := if LogsIndirect(fs, fs', n, k) then {IndirectOf(fs', n)} else {};
            var data := if BlockMap(fs', n, k) != 0 then {BlockMap(fs', n, k)} else {};
            Turn(sb, writes, fs, fs', n, k) - bits <= (writes - bits) + (more - bits) + data
    ensures LogsIndirect(fs, fs', n, k) ==> IndirectOf(fs', n) in Turn(sb, writes, fs, fs', n, k)
    ensures writes <= Turn(sb, writes, fs, fs', n, k)
  {
    hide BitmapBlock, IndirectOf, BlockMap;
  }

  lemma ApartStep(sb: Layout, bits: set<nat>, start: set<nat>, writes: set<nat>, fs: Fs, fs': Fs, n: nat, k: nat,
                  t: Tally)
    requires Apart(bits, start, writes, t, IndirectOf(fs, n))
    requires t.indirect ==> IndirectOf(fs, n) != 0
    requires IndirectOf(fs, n) != 0 ==> IndirectOf(fs', n) == IndirectOf(fs, n)
    requires BitmapBlock(sb, IndirectOf(fs', n)) in bits && BitmapBlock(sb, BlockMap(fs', n, k)) in bits
    ensures Apart(bits, start, Turn(sb, writes, fs, fs', n, k), Counted(fs, fs', n, k, t), IndirectOf(fs', n))
  {
    hide BitmapBlock, IndirectOf, BlockMap, Turn;
    TurnApart(sb, writes, fs, fs', n, k, bits);
    var ib, a := IndirectOf(fs', n), BlockMap(fs', n, k);
    var more := if LogsIndirect(fs, fs', n, k) && !t.indirect then {ib} else {};
    var data := if a != 0 then {a} else {};
    SubsetSize(Turn(sb, writes, fs, fs', n, k) - bits, (writes - bits) + more + data);
  }

  lemma TallyStep(sb: Layout, start: set<nat>, writes: set<nat>, fs: Fs, fs': Fs, own: seq<Owner>, n: nat, k: nat,
                  t: Tally)
    requires FsOk(sb, fs', own) && n < |fs'.inodes| && k < 268
    requires Tallied(sb, start, writes, t, IndirectOf(fs, n))
    requires IndirectOf(fs, n) != 0 ==> IndirectOf(fs', n) == IndirectOf(fs, n)
    ensures Tallied(sb, start, Turn(sb, writes, fs, fs', n, k), Counted(fs, fs', n, k, t), IndirectOf(fs', n))
    ensures BlockMap(fs', n, k) != 0 ==> sb.bmapstart <= BlockMap(fs', n, k) < sb.size
  {
    MapCases(sb, fs', own, n, k);
    NewBlocksIn(sb, fs', own, n, k);
    hide FsOk, BitmapBlock, IndirectOf, BlockMap, Turn, Counted, BitmapBlocks;
    CountStep(sb, start, writes, fs, fs', n, k, t);
    ApartStep(sb, BitmapBlocks(sb), start, writes, fs, fs', n, k, t);
  }

  lemma SubsetSize(s: set<nat>, t: set<nat>)
    requires s <= t
    ensures |s| <= |t|
  {
    assert t == s + (t - s);
  }

  /** How many blocks tot bytes at off touch. */
  function Touched(off: nat, tot: nat): nat { if tot == 0 then 0 else (off + tot - 1) / 1024 - off / 1024 + 1 }

  lemma TouchedStep(off: nat, tot: nat, m: nat)
    requires m > 0 && (off + tot) % 1024 + m <= 1024 && (tot > 0 ==> (off + tot) % 1024 == 0)
    ensures Touched(off, tot + m) == Touched(off, tot) + 1
  {
  }

  /** In a file without holes the first block of an unaligned write is not new. */
  ghost predicate FewFresh(off: nat, t: Tally) {
    t.created <= t.written && (off % 1024 != 0 && t.written > 0 ==> t.created < t.written)
  }

  lemma FewSame(off: nat, t: Tally, t': Tally)
    requires t'.written == t.written && t'.created == t.created
    ensures FewFresh(off, t) ==> FewFresh(off, t')
  {
  }

  lemma FreshStep(fs0: Fs, fs: Fs, n: nat, off: nat, tot: nat, t: Tally, t': Tally)
    requires n < |fs0.inodes| && off <= fs0.inodes[n].size && Covered(fs0, fs, n, off, tot)
    requires t.written == Touched(off, tot)
    requires t'.written == t.written + 1 && t'.created == t.created + One(BlockMap(fs, n, (off + tot) / 1024) == 0)
    ensures NoHoles(fs0, n) && FewFresh(off, t) ==> FewFresh(off, t')
  {
  }

  lemma WriteStart(sb: Layout, fs: Fs, n: nat, src: seq<Byte>, off: nat, writes: set<nat>)
    ensures Spliced(fs, fs, n, src, off, 0) && Covered(fs, fs, n, off, 0) && Touched(off, 0) == 0
    ensures Tallied(sb, writes, writes, Tally(0, 0, false, false), IndirectOf(fs, n))
    ensures FewFresh(off, Tally(0, 0, false, false))
  {
  }

  /** The size of file n is now sz; inodes are otherwise as they were, up to the blocks they name. */
  ghost predicate Resized(fs: Fs, fs': Fs, n: nat, sz: nat) {
    && |fs'.inodes| == |fs.inodes|
    && forall m: nat :: m < |fs.inodes| ==> fs'.inodes[m].size == if m == n then sz else fs.inodes[m].size
  }

  /** The end of writei: the size is set, which moves no byte and no block. */
  lemma WriteEnd(sb: Layout, fs0: Fs, fs: Fs, fs': Fs, own: seq<Owner>, n: nat, src: seq<Byte>, off: nat, tot: nat)
    requires FsOk(sb, fs, own) && n < |fs.inodes| && SameSizes(fs0, fs) && tot <= |src| && off <= fs0.inodes[n].size
    requires off + tot <= MAXBYTES
    requires Spliced(fs0, fs, n, src, off, tot) && Covered(fs0, fs, n, off, tot)
    requires fs' ==
        if off + tot > fs.inodes[n].size then fs.(inodes := fs.inodes[n := fs.inodes[n].(size := off + tot)]) else fs
    ensures FsOk(sb, fs', own) && Spliced(fs0, fs', n, src, off, tot)
    ensures Resized(fs0, fs', n, if off + tot > fs0.inodes[n].size then off + tot else fs0.inodes[n].size)
    ensures NoHoles(fs0, n) ==> NoHoles(fs', n)
  {
    SizesOf(sb, fs, own);
    forall m: nat, k: nat
      ensures BlockMap(fs', m, k) == BlockMap(fs, m, k)
    {
    }
    forall m: nat
      ensures IndirectOf(fs', m) == IndirectOf(fs, m)
    {
    }
    forall m: nat, p: nat
      ensures ByteAt(fs', m, p) == ByteAt(fs, m, p)
    {
    }
    hide BlockMap, IndirectOf, ByteAt;
    StoredOwn(sb, fs, own, fs');
    NoHolesAfter(fs0, fs, fs', n, off, tot);
  }

  lemma NoHolesAfter(fs0: Fs, fs: Fs, fs': Fs, n: nat, off: nat, tot: nat)
    requires n < |fs0.inodes| == |fs'.inodes| && off <= fs0.inodes[n].size && Covered(fs0, fs, n, off, tot)
    requires forall m: nat, k: nat :: BlockMap(fs', m, k) == BlockMap(fs, m, k)
    requires fs'.inodes[n].size == if off + tot > fs0.inodes[n].size then off + tot else fs0.inodes[n].size
    ensures NoHoles(fs0, n) ==> NoHoles(fs', n)
  {
    hide BlockMap;
    if NoHoles(fs0, n) {
      forall k: nat | 1024 * k < fs'.inodes[n].size
        ensures BlockMap(fs', n, k) != 0
      {
        assert BlockMap(fs', n, k) == BlockMap(fs, n, k);
        if 1024 * k < fs0.inodes[n].size {
          assert BlockMap(fs0, n, k) != 0;
        } else {
          assert BlockMap(fs, n, 1024 * k / 1024) != 0;
        }
      }
    }
  }

  /** So few blocks of bitmap that a chunk with holes still keeps to the log's reservation; mkfs makes one. */
  predicate FewBitmaps(sb: Layout) { sb.nmeta - sb.bmapstart <= 4 }

  lemma WriteCount(sb: Layout, start: set<nat>, writes: set<nat>, t: Tally, ib: nat, x: nat, off: nat, tot: nat)
    requires Tallied(sb, start, writes, t, ib) && t.written == Touched(off, tot)
    ensures tot <= MAXCHUNK && (FewFresh(off, t) || FewBitmaps(sb)) ==> |writes + {x}| <= |start| + MAXOPBLOCKS
  {
    var bits := BitmapBlocks(sb);
    assert FewBitmaps(sb) ==> |bits| <= 4;
    SizeApart(start, writes, bits);
    hide BitmapBlocks, FewBitmaps;
    if tot <= MAXCHUNK {
      assert Touched(off, tot) <= 4 && (off % 1024 == 0 ==> Touched(off, tot) <= 3);
    }
  }

  lemma SizeApart(start: set<nat>, writes: set<nat>, bits: set<nat>)
    ensures |writes| <= |writes - bits| + |bits| && |start - bits| <= |start|
  {
    assert writes == (writes - bits) + writes * bits;
    assert bits == writes * bits + (bits - writes);
    assert start == (start - bits) + start * bits;
  }

  /** The inode block. */
  function InodeBlock(sb: Layout, n: nat): nat { sb.inodestart + n / 16 }

  lemma SizesOf(sb: Layout, fs: Fs, own: seq<Owner>)
    requires FsOk(sb, fs, own)
    ensures Sizes(sb, fs, own)
  {
  }

  lemma IndirectPlaced(sb: Layout, fs: Fs, own: seq<Owner>, n: nat)
    requires FsOk(sb, fs, own) && IndirectOf(fs, n) != 0
    ensures IndirectOf(fs, n) < |fs.disk|
  {
    assert IndOk(fs, own, n);
  }

  lemma SameSelf(fs: Fs)
    ensures SameFiles(fs, fs)
  {
  }

  lemma SameTrans(a: Fs, b: Fs, c: Fs)
    requires SameFiles(a, b) && SameFiles(b, c)
    ensures SameFiles(a, c)
  {
    forall n: nat, p: nat
      ensures SameByte(a, c, n, p)
    {
      assert SameByte(a, b, n, p) && SameByte(b, c, n, p);
    }
  }

  /** bmap's allocation of a data block, as one step. */
  lemma Extends(sb: Layout, fs: Fs, own: seq<Owner>, n: nat, k: nat, b: nat)
    requires FsOk(sb, fs, own) && n < |fs.inodes| && k < 268 && b < |own| && own[b] == Free
    requires BitmapBlock(sb, b) < sb.nmeta
    requires BlockMap(fs, n, k) == 0 && (k >= 12 ==> IndirectOf(fs, n) != 0)
    ensures |fs.inodes[n].addrs| == 13 && |own| == |fs.disk| < 0x8000_0000 && IndirectOf(fs, n) < |fs.disk|
    ensures var fs' := Extended(sb, fs, n, k, b);
            && FsOk(sb, fs', own[b := Data(n, k)]) && SameFiles(fs, fs') && Mapped(fs, fs', n, k)
            && BlockMap(fs', n, k) == b && (forall m: nat :: IndirectOf(fs', m) == IndirectOf(fs, m))
  {
    assert CanExtend(sb, fs, own, n, k, b);
    ExtendedOk(sb, fs, own, n, k, b);
    var fs' := Extended(sb, fs, n, k, b);
    forall m: nat, j: nat
      ensures BlockMap(fs', m, j) == (if m == n && j == k then b else BlockMap(fs, m, j))
      ensures IndirectOf(fs', m) == IndirectOf(fs, m)
    {
      ExtendedMaps(sb, fs, own, n, k, b, m, j);
    }
    hide FsOk, BlockMap, IndirectOf;
    assert forall m: nat :: IndirectOf(fs', m) == IndirectOf(fs, m) by {
      forall m: nat
        ensures IndirectOf(fs', m) == IndirectOf(fs, m)
      {
        ExtendedMaps(sb, fs, own, n, k, b, m, 0);
      }
    }
  }

  lemma Indirects(sb: Layout, fs: Fs, own: seq<Owner>, n: nat, b: nat)
    requires FsOk(sb, fs, own) && n < |fs.inodes| && b < |own| && own[b] == Free && BitmapBlock(sb, b) < sb.nmeta
    requires IndirectOf(fs, n) == 0
    ensures |fs.inodes[n].addrs| == 13 && |own| == |fs.disk|
    ensures var fs' := Indirected(sb, fs, n, b);
            && FsOk(sb, fs', own[b := Ind(n)]) && SameFiles(fs, fs')
            && (forall m: nat, j: nat :: BlockMap(fs', m, j) == BlockMap(fs, m, j)) && IndirectOf(fs', n) == b
  {
    assert CanIndirect(sb, fs, own, n, b);
    IndirectedOk(sb, fs, own, n, b);
    var fs' := Indirected(sb, fs, n, b);
    forall m: nat, j: nat
      ensures BlockMap(fs', m, j) == BlockMap(fs, m, j)
    {
      IndirectedMaps(sb, fs, own, n, b, m, j);
    }
    IndirectedMaps(sb, fs, own, n, b, n, 0);
    hide FsOk, BlockMap, IndirectOf;
  }

  // ----- truncation -----

  /** Blocks lo to hi of file n have been released, and nothing else. */
  ghost predicate ReleasedRange(own0: seq<Owner>, own: seq<Owner>, n: nat, lo: nat, hi: nat) {
    |own| == |own0| && forall b: nat :: b < |own0| ==>
      own[b] == if own0[b].Data? && own0[b].n == n && lo <= own0[b].k < hi then Free else own0[b]
  }

  ghost predicate Released(own0: seq<Owner>, own: seq<Owner>, n: nat, lim: nat) { ReleasedRange(own0, own, n, 0, lim) }

  /** Only the addresses in inode n have changed. */
  ghost predicate OnlyAddrs(fs: Fs, fs': Fs, n: nat) {
    && |fs'.disk| == |fs.disk| && |fs'.inodes| == |fs.inodes| && n < |fs.inodes| && |fs'.inodes[n].addrs| == 13
    && fs'.inodes == fs.inodes[n := fs.inodes[n].(addrs := fs'.inodes[n].addrs)]
  }

  lemma TruncStart(fs: Fs, own: seq<Owner>, n: nat)
    requires n < |fs.inodes| && |fs.inodes[n].addrs| == 13
    ensures OthersSame(fs, fs, n) && Released(own, own, n, 0) && OnlyAddrs(fs, fs, n)
    ensures ReleasedRange(own, own, n, 12, 12)
  {
  }

  lemma RangeMore(sb: Layout, fs: Fs, own0: seq<Owner>, own: seq<Owner>, n: nat, lo: nat, k: nat, b: nat)
    requires FsOk(sb, fs, own) && ReleasedRange(own0, own, n, lo, k) && b < |own| && own[b] == Data(n, k) && lo <= k
    ensures ReleasedRange(own0, own[b := Free], n, lo, k + 1)
  {
    assert OwnOk(sb, fs, own, b);
    forall c: nat | c < |own| && own[c] == Data(n, k)
      ensures c == b
    {
      assert OwnOk(sb, fs, own, c);
    }
  }

  lemma RangeNone(sb: Layout, fs: Fs, own0: seq<Owner>, own: seq<Owner>, n: nat, lo: nat, k: nat)
    requires FsOk(sb, fs, own) && ReleasedRange(own0, own, n, lo, k) && BlockMap(fs, n, k) == 0 && lo <= k
    ensures ReleasedRange(own0, own, n, lo, k + 1)
  {
    assert OwnOk(sb, fs, own, 0);
    forall c: nat | c < |own|
      ensures own[c] != Data(n, k)
    {
      assert OwnOk(sb, fs, own, c);
    }
  }

  lemma OthersTrans(a: Fs, b: Fs, c: Fs, n: nat)
    requires OthersSame(a, b, n) && OthersSame(b, c, n)
    ensures OthersSame(a, c, n)
  {
    forall m: nat, p: nat | m != n
      ensures SameByte(a, c, m, p)
    {
      assert SameByte(a, b, m, p) && SameByte(b, c, m, p);
    }
  }

  /** Freeing an entry in the view v is freeing its block on the disk: the indirect block and the bitmap
      are different blocks. */
  lemma EntryDetached(sb: Layout, fs: Fs, own: seq<Owner>, n: nat, ib: nat, x: Block, j: nat, b: nat)
    requires n < |fs.inodes| && |fs.inodes[n].addrs| == 13 && ib == fs.inodes[n].addrs[12] && 0 != ib < |fs.disk|
    requires j < 256 && b < sb.size
    requires FsOk(sb, fs.(disk := fs.disk[ib := x]), own)
    ensures BitmapBlock(sb, b) < |fs.disk| && (BitAt(sb, fs.disk, b) <==> BitAt(sb, fs.disk[ib := x], b))
    ensures Detached(sb, fs.(disk := fs.disk[ib := x]), n, 12 + j, b)
            == fs.(disk := PutBitAt(sb, fs.disk, b, false)[ib := SetWord(x, j, 0)])
  {
    var v := fs.(disk := fs.disk[ib := x]);
    assert IndOk(v, own, n);
    Placed(sb, v, own, b);
    hide FsOk, Bit, PutBit, SetWord;
    var d := PutBitAt(sb, v.disk, b, false);
    assert d[ib] == x;
    assert d[ib := SetWord(x, j, 0)] == PutBitAt(sb, fs.disk, b, false)[ib := SetWord(x, j, 0)];
  }

  lemma NoEntries(sb: Layout, v: Fs, own: seq<Owner>, n: nat, x: Block)
    requires FsOk(sb, v, own) && n < |v.inodes| && IndirectOf(v, n) != 0 && IndirectOf(v, n) < |v.disk|
    requires v.disk[IndirectOf(v, n)] == x
    requires forall k: nat :: k < 256 ==> Word(x, k) == 0
    ensures forall k: nat :: 12 <= k < 268 ==> BlockMap(v, n, k) == 0
  {
  }

  /** Freeing the indirect block in the view and on the disk differ only in what that block holds. */
  lemma IndApart(sb: Layout, fs: Fs, own: seq<Owner>, n: nat, ib: nat, x: Block)
    requires n < |fs.inodes| && |fs.inodes[n].addrs| == 13 && ib == fs.inodes[n].addrs[12]
    requires 0 != ib < |fs.disk| == sb.size
    requires FsOk(sb, fs.(disk := fs.disk[ib := x]), own)
    ensures BitmapBlock(sb, ib) < |fs.disk| && (BitAt(sb, fs.disk, ib) <==> BitAt(sb, fs.disk[ib := x], ib))
    ensures var f := IndFreed(sb, fs.(disk := fs.disk[ib := x]), n);
            ib < |f.disk| && f.(disk := f.disk[ib := fs.disk[ib]])
            == fs.(disk := PutBitAt(sb, fs.disk, ib, false),
              inodes := fs.inodes[n := fs.inodes[n].(addrs := fs.inodes[n].addrs[12 := 0])])
  {
    var v := fs.(disk := fs.disk[ib := x]);
    assert IndOk(v, own, n);
    Placed(sb, v, own, ib);
    hide FsOk, Bit, PutBit;
    assert PutBitAt(sb, v.disk, ib, false)[ib := fs.disk[ib]] == PutBitAt(sb, fs.disk, ib, false);
  }

  lemma OthersChain(a: Fs, b: Fs, c: Fs, d: Fs, n: nat)
    requires OthersSame(a, b, n) && SameFiles(b, c) && SameFiles(c, d)
    ensures OthersSame(a, d, n)
  {
    forall m: nat, p: nat | m != n
      ensures SameByte(a, d, m, p)
    {
      assert SameByte(a, b, m, p) && SameByte(b, c, m, p) && SameByte(c, d, m, p);
    }
  }

  lemma IndOwners(sb: Layout, fs: Fs, own0: seq<Owner>, own: seq<Owner>, n: nat, ib: nat)
    requires FsOk(sb, fs, own0) && ib == IndirectOf(fs, n) && 0 != ib < |own0| && ReleasedRange(own0, own, n, 12, 268)
    requires own[ib] == Ind(n)
    ensures forall b: nat :: b < |own| ==>
              own[ib := Free][b] ==
                if own0[b] == Ind(n) || (own0[b].Data? && own0[b].n == n && own0[b].k >= 12) then Free else own0[b]
  {
    forall b: nat | b < |own|
      ensures own[ib := Free][b] ==
          if own0[b] == Ind(n) || (own0[b].Data? && own0[b].n == n && own0[b].k >= 12) then Free else own0[b]
    {
      assert OwnOk(sb, fs, own0, b);
    }
  }

  lemma NoIndirect(sb: Layout, fs: Fs, own: seq<Owner>, n: nat)
    requires FsOk(sb, fs, own) && n < |fs.inodes| && fs.inodes[n].addrs[12] == 0
    ensures forall b: nat :: b < |own| ==> own[b] != Ind(n) && !(own[b].Data? && own[b].n == n && own[b].k >= 12)
  {
    assert OwnOk(sb, fs, own, 0);
    forall b: nat | b < |own|
      ensures own[b] != Ind(n) && !(own[b].Data? && own[b].n == n && own[b].k >= 12)
    {
      assert OwnOk(sb, fs, own, b);
    }
  }

  lemma SizeOnly(sb: Layout, fs: Fs, fs': Fs, own: seq<Owner>, n: nat)
    requires FsOk(sb, fs, own) && n < |fs.inodes| && fs' == fs.(inodes := fs.inodes[n := fs.inodes[n].(size := 0)])
    ensures FsOk(sb, fs', own) && OthersSame(fs, fs', n)
  {
    SizesOf(sb, fs, own);
    forall m: nat, k: nat
      ensures BlockMap(fs', m, k) == BlockMap(fs, m, k)
    {
    }
    forall m: nat
      ensures IndirectOf(fs', m) == IndirectOf(fs, m)
    {
    }
    hide BlockMap, IndirectOf;
    StoredOwn(sb, fs, own, fs');
  }

  // ----- files as plain byte sequences -----

  /** A read says whether some operation is outstanding at the time: fileread begins none itself. */
  datatype FileOp =
    | Write(n: nat, data: seq<Byte>, off: Uint)
    | Read(n: nat, off: Uint, cnt: Uint, trans: bool)
    | Truncate(n: nat)

  /** A file without holes gets none. */
  ghost predicate HolesStay(fs: Fs, fs': Fs) {
    |fs'.inodes| == |fs.inodes| && forall n: nat :: n < |fs.inodes| && NoHoles(fs, n) ==> NoHoles(fs', n)
  }

  lemma HolesSelf(fs: Fs)
    ensures HolesStay(fs, fs)
  {
  }

  lemma HolesTrans(a: Fs, b: Fs, c: Fs)
    requires HolesStay(a, b) && HolesStay(b, c)
    ensures HolesStay(a, c)
  {
    hide NoHoles;
  }

  function Contents(fs: Fs): seq<seq<Byte>> {
    seq<seq<Byte>>(|fs.inodes|, n requires 0 <= n < |fs.inodes| => Content(fs, n))
  }

  /** An operation that returned r, on plain sequences. */
  function FileStep(files: seq<seq<Byte>>, op: FileOp, r: int): seq<seq<Byte>> {
    if op.n >= |files| then files
    else
      match op
      case Write(n, data, off) =>
        if 0 <= r <= |data| && off <= |files[n]| then files[n := Splice(files[n], off, data[..r])] else files
      case Read(_, _, _, _) => files
      case Truncate(n) => files[n := []]
  }

  /** What an operation may return on plain sequences. */
  ghost predicate Answered(files: seq<seq<Byte>>, op: FileOp, r: int, data: seq<Byte>) {
    if op.n >= |files| then r == -1
    else
      match op
      case Write(n, src, off) =>
        -1 <= r <= |src| && (r == -1 <==> off > |files[n]| || off + |src| >= UINT_LIMIT || off + |src| > MAXBYTES)
      case Read(n, off, cnt, _) =>
        r == |data| <= ReadLen(|files[n]|, off, cnt) &&
          (r > 0 ==> off + r <= |files[n]| && data == files[n][off..off + r])
      case Truncate(_) => r == 0
  }

  /** How much of it is done: all, unless no block is left; then a read ends at a hole. */
  ghost predicate Complete(fs: Fs, op: FileOp, r: int, own: seq<Owner>) {
    op.n < |fs.inodes| ==>
      match op
      case Write(_, src, _) => 0 <= r < |src| ==> NoneFree(own)
      case Read(n, off, cnt, _) => r >= 0 && ReadEnds(fs, own, n, off, ReadLen(fs.inodes[n].size, off, cnt), r)
      case Truncate(_) => true
  }

  /** log_write panics: a block in the range is missing, one is free, and no operation is outstanding. */
  ghost predicate Fatal(fs: Fs, own: seq<Owner>, op: FileOp) {
    && op.Read? && op.n < |fs.inodes| && !op.trans && !NoneFree(own)
    && HoleIn(fs, op.n, op.off, ReadLen(fs.inodes[op.n].size, op.off, op.cnt))
  }

  /** A read is fatal only in a file that had a hole from the start. */
  lemma FatalNeedsHole(fs0: Fs, fs: Fs, own: seq<Owner>, op: FileOp)
    requires HolesStay(fs0, fs) && Fatal(fs, own, op)
    ensures op.n < |fs0.inodes| && !NoHoles(fs0, op.n)
  {
    hide BlockMap;
  }

  ghost predicate Ran(st: (Fs, seq<Owner>), op: FileOp, r: int, data: seq<Byte>, st': (Fs, seq<Owner>)) {
    && !Fatal(st.0, st.1, op) && Contents(st'.0) == FileStep(Contents(st.0), op, r)
    && Answered(Contents(st.0), op, r, data) && Complete(st.0, op, r, st'.1)
  }

  lemma ContentsSize(fs: Fs)
    ensures |Contents(fs)| == |fs.inodes| && forall n: nat :: n < |fs.inodes| ==> |Contents(fs)[n]| == fs.inodes[n].size
  {
  }

  lemma SameContents(fs: Fs, fs': Fs)
    requires SameFiles(fs, fs') && SameSizes(fs, fs')
    ensures Contents(fs') == Contents(fs)
  {
    hide SameFiles, FileBytes;
    forall n: nat | n < |fs.inodes|
      ensures Content(fs', n) == Content(fs, n)
    {
      BytesStay(fs, fs', n, 0, fs.inodes[n].size);
    }
  }

  lemma GrewHoles(fs: Fs, fs': Fs)
    requires Grew(fs, fs') && SameSizes(fs, fs')
    ensures HolesStay(fs, fs')
  {
    hide BlockMap;
  }

  lemma ReadWithin(fs: Fs, own: seq<Owner>, n: nat, off: Uint, cnt: Uint, r: nat)
    requires n < |fs.inodes| && ReadEnds(fs, own, n, off, ReadLen(fs.inodes[n].size, off, cnt), r)
    ensures r <= ReadLen(fs.inodes[n].size, off, cnt) && (r > 0 ==> off + r <= fs.inodes[n].size)
  {
  }

  lemma ContentSlice(fs: Fs, n: nat, off: nat, r: nat)
    requires n < |fs.inodes|
    ensures |Contents(fs)| == |fs.inodes| && |Contents(fs)[n]| == fs.inodes[n].size
    ensures off + r <= fs.inodes[n].size ==> FileBytes(fs, n, off, r) == Contents(fs)[n][off..off + r]
  {
    hide ByteAt;
  }

  function Replay(files: seq<seq<Byte>>, ops: seq<FileOp>, rs: seq<int>): seq<seq<Byte>>
    requires |rs| == |ops|
  {
    if ops == [] then files
    else FileStep(Replay(files, ops[..|ops| - 1], rs[..|rs| - 1]), ops[|ops| - 1], rs[|rs| - 1])
  }

  /** A block with an owner that keeps it stays where it was in that file. */
  lemma KeptMap(sb: Layout, fs: Fs, own: seq<Owner>, fs': Fs, own': seq<Owner>, m: nat, k: nat)
    requires FsOk(sb, fs, own) && FsOk(sb, fs', own') && BlockMap(fs, m, k) != 0
    requires BlockMap(fs, m, k) < |own| == |own'| && own[BlockMap(fs, m, k)] == Data(m, k) ==>
               own'[BlockMap(fs, m, k)] == Data(m, k)
    ensures BlockMap(fs', m, k) == BlockMap(fs, m, k)
  {
    assert MapOk(fs, own, m, k);
    SizesOf(sb, fs, own);
    SizesOf(sb, fs', own');
    assert OwnOk(sb, fs', own', BlockMap(fs, m, k));
  }

  lemma WroteContents(fs0: Fs, fs: Fs, n: nat, src: seq<Byte>, off: Uint, r: int)
    requires n < |fs0.inodes| == |fs.inodes| && (r == -1 ==> fs == fs0)
    requires r != -1 ==> 0 <= r <= |src| && off <= fs0.inodes[n].size && Spliced(fs0, fs, n, src, off, r)
    requires r != -1 ==> Resized(fs0, fs, n, if off + r > fs0.inodes[n].size then off + r else fs0.inodes[n].size)
    ensures Contents(fs) == FileStep(Contents(fs0), Write(n, src, off), r)
  {
    if r != -1 {
      WriteIsSplice(fs0, fs, n, src, off, r);
      hide Spliced, Content, BlockMap;
    }
  }

  /** Files whose blocks keep their owner get no hole. */
  lemma KeptHoles(sb: Layout, fs0: Fs, own0: seq<Owner>, fs: Fs, own: seq<Owner>, m: nat)
    requires m < |fs0.inodes| == |fs.inodes| && FsOk(sb, fs0, own0) && FsOk(sb, fs, own) && NoHoles(fs0, m)
    requires fs.inodes[m].size == fs0.inodes[m].size && |own| == |own0|
    requires forall b: nat :: b < |own0| && own0[b].Data? && own0[b].n == m ==> own[b] == own0[b]
    ensures NoHoles(fs, m)
  {
    hide FsOk, BlockMap;
    forall k: nat | 1024 * k < fs.inodes[m].size
      ensures BlockMap(fs, m, k) != 0
    {
      assert BlockMap(fs0, m, k) != 0;
      KeptMap(sb, fs0, own0, fs, own, m, k);
    }
  }

  lemma WroteHoles(sb: Layout, fs0: Fs, own0: seq<Owner>, fs: Fs, own: seq<Owner>, n: nat)
    requires n < |fs0.inodes| == |fs.inodes| && FsOk(sb, fs0, own0) && FsOk(sb, fs, own) && Kept(own0, own)
    requires (NoHoles(fs0, n) ==> NoHoles(fs, n))
    requires forall m: nat :: m < |fs.inodes| && m != n ==> fs.inodes[m].size == fs0.inodes[m].size
    ensures HolesStay(fs0, fs)
  {
    hide FsOk, NoHoles;
    forall m: nat | m < |fs.inodes| && m != n && NoHoles(fs0, m)
      ensures NoHoles(fs, m)
    {
      KeptHoles(sb, fs0, own0, fs, own, m);
    }
  }

  lemma TruncContents(fs0: Fs, fs: Fs, n: nat)
    requires n < |fs0.inodes| && OthersSame(fs0, fs, n) && fs.inodes == fs0.inodes[n := Inode(0, seq(13, _ => 0))]
    ensures Contents(fs) == FileStep(Contents(fs0), Truncate(n), 0)
  {
    hide BlockMap, ByteAt;
    forall m: nat | m < |fs.inodes|
      ensures (m != n ==> Content(fs, m) == Content(fs0, m)) && (m == n ==> Content(fs, m) == [])
    {
      if m != n {
        forall p: nat | p < fs.inodes[m].size
          ensures Content(fs, m)[p] == Content(fs0, m)[p]
        {
          assert SameByte(fs0, fs, m, 0 + p);
        }
      }
    }
    assert Contents(fs) == Contents(fs0)[n := []];
  }

  lemma TruncHoles(sb: Layout, fs0: Fs, own0: seq<Owner>, fs: Fs, own: seq<Owner>, n: nat)
    requires n < |fs0.inodes| && FsOk(sb, fs0, own0) && FsOk(sb, fs, own)
    requires fs.inodes == fs0.inodes[n := Inode(0, seq(13, _ => 0))] && |own| == |own0|
    requires forall b: nat :: b < |own| ==>
               own[b] == if (own0[b].Ind? || own0[b].Data?) && own0[b].n == n then Free else own0[b]
    ensures HolesStay(fs0, fs)
  {
    assert NoHoles(fs, n);
    hide FsOk, NoHoles;
    forall m: nat | m < |fs.inodes| && m != n && NoHoles(fs0, m)
      ensures NoHoles(fs, m)
    {
      KeptHoles(sb, fs0, own0, fs, own, m);
    }
  }

  // ----- ownership, read off the maps -----

  /** File n names block b: as logical block k, or as its indirect block when k is 268. */
  ghost predicate Names(fs: Fs, n: nat, k: nat, b: nat) {
    b != 0 && if k == 268 then IndirectOf(fs, n) == b else BlockMap(fs, n, k) == b
  }

  /** A bit is set exactly when its block is metadata or is named once by one file; a block is never both,
      and no two places name the same block. */
  lemma BlockOwnership(sb: Layout, fs: Fs, own: seq<Owner>, b: nat)
    requires FsOk(sb, fs, own) && b < sb.size
    ensures BitmapBlock(sb, b) < |fs.disk|
    ensures BitAt(sb, fs.disk, b) <==> b < sb.nmeta || exists n: nat, k: nat :: Names(fs, n, k, b)
    ensures forall n: nat, k: nat :: Names(fs, n, k, b) ==> b >= sb.nmeta
    ensures forall n: nat, k: nat, m: nat, j: nat :: Names(fs, n, k, b) && Names(fs, m, j, b) ==> n == m && k == j
  {
    BitTells(sb, fs, own, b);
    Placed(sb, fs, own, b);
    assert OwnOk(sb, fs, own, b);
    forall n: nat, k: nat | Names(fs, n, k, b)
      ensures own[b] == if k == 268 then Ind(n) else Data(n, k)
    {
      assert MapOk(fs, own, n, k) && IndOk(fs, own, n);
    }
    hide FsOk, BlockMap, IndirectOf, Bit;
    if own[b].Data? {
      assert Names(fs, own[b].n, own[b].k, b);
    } else if own[b].Ind? {
      assert Names(fs, own[b].n, 268, b);
    }
  }
}
