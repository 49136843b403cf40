/** The file system mkfs/mkfs.c builds: blocks are handed out by bumping a counter and the bitmap is
    written last, so until then a view with the bitmap already in place is kept beside the image. */
module Mkfs {
  import opened Blocks
  import opened FileBlocks
  import opened FileSystem

  const NLOG: nat := 31             // LOGBLOCKS + 1

  /** The layout main() computes: boot block, superblock, log, inodes, bitmap, data. */
  function MkLayout(fssize: nat, ninodes: nat): Layout {
    var inodestart := 2 + NLOG;
    var bmapstart := inodestart + ninodes / 16 + 1;
    Layout(fssize, ninodes, inodestart, bmapstart, bmapstart + fssize / 8192 + 1)
  }

  lemma LayoutFits(fssize: nat, ninodes: nat)
    requires MkLayout(fssize, ninodes).nmeta <= fssize < 0x8000_0000
    ensures LayoutOk(MkLayout(fssize, ninodes))
  {
  }

  /** The kernel's own FSSIZE and NINODES: 2 blocks, 31 of log, 13 of inodes and 1 of bitmap come before the data. */
  lemma KernelLayout()
    ensures MkLayout(2000, 200) == Layout(2000, 200, 33, 46, 47)
  {
  }

  /** The log with its header lies behind the superblock and before the inodes, each inode's 64 bytes before the
      bitmap, and each block's bit before the data. */
  lemma Regions(fssize: nat, ninodes: nat, n: nat, b: nat)
    requires n < ninodes && b < fssize
    ensures var sb := MkLayout(fssize, ninodes);
            && 2 + 1 + 30 == sb.inodestart && 1024 * sb.inodestart + 64 * n + 64 <= 1024 * sb.bmapstart
            && 8192 * sb.bmapstart + b < 8192 * sb.nmeta
  {
  }

  predicate InBitmap(sb: Layout, b: nat) { sb.bmapstart <= b < sb.nmeta }

  /** The image and the view differ only in the bitmap. */
  ghost predicate Agree(sb: Layout, fs: Fs, v: Fs) {
    && |fs.disk| == |v.disk| && fs.inodes == v.inodes
    && forall b: nat :: b < |fs.disk| && !InBitmap(sb, b) ==> fs.disk[b] == v.disk[b]
  }

  /** Blocks from fb on are unused and zero; the image's bitmap is still zero. */
  ghost predicate Unused(sb: Layout, fs: Fs, own: seq<Owner>, fb: nat) {
    && |own| == |fs.disk| && sb.nmeta <= fb <= |own|
    && (forall b: nat :: b < |own| ==> (own[b] != Free <==> b < fb))
    && (forall b: nat :: b < |own| && (b >= fb || InBitmap(sb, b)) ==> fs.disk[b] == Zero())
  }

  ghost predicate Built(sb: Layout, fs: Fs, v: Fs, own: seq<Owner>, fb: nat) {
    FsOk(sb, v, own) && Agree(sb, fs, v) && Unused(sb, fs, own, fb)
  }

  lemma SameMaps(sb: Layout, fs: Fs, v: Fs, own: seq<Owner>, n: nat, k: nat)
    requires FsOk(sb, v, own) && Agree(sb, fs, v)
    ensures BlockMap(fs, n, k) == BlockMap(v, n, k) && IndirectOf(fs, n) == IndirectOf(v, n)
    ensures IndirectOf(v, n) != 0 ==> IndirectOf(v, n) < |fs.disk| && !InBitmap(sb, IndirectOf(v, n))
    ensures BlockMap(v, n, k) != 0 ==> BlockMap(v, n, k) < |fs.disk| && !InBitmap(sb, BlockMap(v, n, k))
  {
    assert IndOk(v, own, n) && MapOk(v, own, n, k);
    if IndirectOf(v, n) != 0 {
      Placed(sb, v, own, IndirectOf(v, n));
    }
    if BlockMap(v, n, k) != 0 {
      Placed(sb, v, own, BlockMap(v, n, k));
    }
    hide FsOk, Word;
  }

  /** The next block becomes logical block k of file n. */
  lemma BumpBlock(sb: Layout, fs: Fs, v: Fs, own: seq<Owner>, fb: nat, n: nat, k: nat)
    requires Built(sb, fs, v, own, fb) && fb < sb.size && n < |fs.inodes| && k < 268 && BlockMap(fs, n, k) == 0
    requires (k >= 12 ==> IndirectOf(fs, n) != 0)
    ensures |fs.inodes[n].addrs| == 13 && IndirectOf(fs, n) < |fs.disk| && |fs.disk| < 0x8000_0000
    ensures BitmapBlock(sb, fb) < |v.disk| && IndirectOf(v, n) < |v.disk|
    ensures var fs', v' := Attached(fs, n, k, fb), Extended(sb, v, n, k, fb);
            && Built(sb, fs', v', own[fb := Data(n, k)], fb + 1) && SameFiles(v, v') && Mapped(v, v', n, k)
            && BlockMap(v', n, k) == fb && IndirectOf(v', n) == IndirectOf(v, n) && OthersIndirect(v, v', n)
  {
    SameMaps(sb, fs, v, own, n, k);
    SizesOf(sb, v, own);
    Placed(sb, v, own, fb);
    Extends(sb, v, own, n, k, fb);
    assert k >= 12 ==> own[IndirectOf(v, n)] == Ind(n) by {
      assert IndOk(v, own, n);
    }
    hide FsOk, BlockMap, SameFiles, Mapped, SetWord, PutBit, Agree, Unused, Extended, Attached;
    AttachedAgree(sb, fs, v, own, fb, n, k);
    AttachedUnused(sb, fs, own, fb, n, k);
  }

  lemma AttachedAgree(sb: Layout, fs: Fs, v: Fs, own: seq<Owner>, fb: nat, n: nat, k: nat)
    requires LayoutOk(sb) && Agree(sb, fs, v) && Unused(sb, fs, own, fb) && fb < sb.size == |fs.disk| && n < |fs.inodes|
    requires k < 268
    requires |fs.inodes[n].addrs| == 13 && BitmapBlock(sb, fb) < sb.nmeta
    requires k >= 12 ==>
               IndirectOf(v, n) < |fs.disk| && !InBitmap(sb, IndirectOf(v, n)) && own[IndirectOf(v, n)] == Ind(n)
    ensures Agree(sb, Attached(fs, n, k, fb), Extended(sb, v, n, k, fb))
  {
    hide SetWord, PutBit;
    BitmapBlockIn(sb, fb);
    if k >= 12 {
      assert fs.disk[IndirectOf(v, n)] == v.disk[IndirectOf(v, n)];
    }
  }

  lemma AttachedUnused(sb: Layout, fs: Fs, own: seq<Owner>, fb: nat, n: nat, k: nat)
    requires Unused(sb, fs, own, fb) && fb < |own| && |own| < 0x8000_0000 && n < |fs.inodes|
    requires |fs.inodes[n].addrs| == 13 && k < 268
    requires k >= 12 ==>
               IndirectOf(fs, n) < |fs.disk| && !InBitmap(sb, IndirectOf(fs, n)) && own[IndirectOf(fs, n)] == Ind(n)
    ensures Unused(sb, Attached(fs, n, k, fb), own[fb := Data(n, k)], fb + 1)
  {
  }

  lemma BitmapBlockIn(sb: Layout, b: nat)
    requires LayoutOk(sb) && b < sb.size
    ensures InBitmap(sb, BitmapBlock(sb, b))
  {
  }

  /** The next block becomes the indirect block of file n. */
  lemma BumpIndirect(sb: Layout, fs: Fs, v: Fs, own: seq<Owner>, fb: nat, n: nat)
    requires Built(sb, fs, v, own, fb) && fb < sb.size && n < |fs.inodes| && IndirectOf(fs, n) == 0
    ensures |fs.inodes[n].addrs| == 13 && BitmapBlock(sb, fb) < |v.disk| && fb < |v.disk| && |v.inodes| == |fs.inodes|
    ensures |v.inodes[n].addrs| == 13
    ensures var fs', v' := WithIndirect(fs, n, fb), Indirected(sb, v, n, fb);
            && Built(sb, fs', v', own[fb := Ind(n)], fb + 1) && SameFiles(v, v') && SameSizes(v, v')
            && (forall m: nat, j: nat :: BlockMap(v', m, j) == BlockMap(v, m, j)) && IndirectOf(v', n) == fb
               && OthersIndirect(v, v', n)
  {
    SameMaps(sb, fs, v, own, n, 0);
    SizesOf(sb, v, own);
    Placed(sb, v, own, fb);
    Indirects(sb, v, own, n, fb);
    hide FsOk, BlockMap, SameFiles, PutBit;
    var fs', v' := WithIndirect(fs, n, fb), Indirected(sb, v, n, fb);
    BitmapBlockIn(sb, fb);
    assert Agree(sb, fs', v');
    assert Unused(sb, fs', own[fb := Ind(n)], fb + 1);
  }

  /** A block of a file is written. */
  lemma BumpStore(sb: Layout, fs: Fs, v: Fs, own: seq<Owner>, fb: nat, n: nat, k: nat, x: Block)
    requires Built(sb, fs, v, own, fb) && BlockMap(fs, n, k) != 0
    ensures BlockMap(fs, n, k) == BlockMap(v, n, k) < |fs.disk| == |v.disk|
    ensures var fs', v' := fs.(disk := fs.disk[BlockMap(fs, n, k) := x]), v.(disk := v.disk[BlockMap(v, n, k) := x]);
            && Built(sb, fs', v', own, fb) && (forall m: nat, j: nat :: BlockMap(v', m, j) == BlockMap(v, m, j))
            && (forall m: nat, p: nat :: ByteAt(v', m, p) == if m == n && p / 1024 == k then x.bytes[p % 1024]
               else ByteAt(v, m, p))
            && fs.disk[BlockMap(fs, n, k)] == v.disk[BlockMap(v, n, k)]
  {
    SameMaps(sb, fs, v, own, n, k);
    StoredOk(sb, v, own, n, k, x);
    assert own[BlockMap(v, n, k)] == Data(n, k) by {
      assert MapOk(v, own, n, k);
    }
    hide FsOk, BlockMap, ByteAt;
    var a := BlockMap(v, n, k);
    assert Agree(sb, fs.(disk := fs.disk[a := x]), v.(disk := v.disk[a := x]));
    assert Unused(sb, fs.(disk := fs.disk[a := x]), own, fb);
  }

  /** At most logical block k of file n has appeared. */
  ghost predicate Gained(v: Fs, v': Fs, n: nat, k: nat) {
    && SameFiles(v, v') && SameSizes(v, v')
    && (forall m: nat, j: nat :: !(m == n && j == k) ==> BlockMap(v', m, j) == BlockMap(v, m, j))
    && (BlockMap(v, n, k) != 0 ==> BlockMap(v', n, k) != 0) && OthersIndirect(v, v', n)
  }

  ghost predicate OthersIndirect(v: Fs, v': Fs, n: nat) {
    forall m: nat :: m != n ==> IndirectOf(v', m) == IndirectOf(v, m)
  }

  lemma GainedSelf(v: Fs, n: nat, k: nat)
    ensures Gained(v, v, n, k)
  {
  }

  lemma GainedTrans(a: Fs, b: Fs, c: Fs, n: nat, k: nat)
    requires Gained(a, b, n, k) && Gained(b, c, n, k)
    ensures Gained(a, c, n, k)
  {
    SameTrans(a, b, c);
    hide BlockMap, SameFiles;
  }

  lemma GainedMapped(v: Fs, v': Fs, n: nat, k: nat)
    requires SameFiles(v, v') && Mapped(v, v', n, k) && BlockMap(v', n, k) != 0 && OthersIndirect(v, v', n)
    ensures Gained(v, v', n, k)
  {
  }

  /** The map entry as iappend reads it from the image. */
  lemma ImageCases(sb: Layout, fs: Fs, v: Fs, own: seq<Owner>, fb: nat, n: nat, k: nat)
    requires Built(sb, fs, v, own, fb) && n < |fs.inodes| && k < 268
    ensures |fs.inodes[n].addrs| == 13 && fs.inodes[n].addrs[12] == IndirectOf(fs, n) == IndirectOf(v, n) < |fs.disk|
    ensures BlockMap(fs, n, k) == BlockMap(v, n, k)
    ensures k < 12 ==> BlockMap(fs, n, k) == fs.inodes[n].addrs[k]
    ensures k >= 12 && IndirectOf(fs, n) == 0 ==> BlockMap(fs, n, k) == 0
    ensures k >= 12 && IndirectOf(fs, n) != 0 ==> BlockMap(fs, n, k) == Word(fs.disk[IndirectOf(fs, n)], k - 12)
  {
    SameMaps(sb, fs, v, own, n, k);
    SizesOf(sb, v, own);
    hide FsOk, Word, Agree, Unused;
    assert fs.inodes == v.inodes by { SameInodes(sb, fs, v); }
  }

  lemma SameInodes(sb: Layout, fs: Fs, v: Fs)
    requires Agree(sb, fs, v)
    ensures fs.inodes == v.inodes && |fs.disk| == |v.disk|
  {
  }

  /** The blocks a file of sz bytes takes, the indirect one included. */
  function BlocksFor(sz: nat): nat { (sz + 1023) / 1024 + One(sz > 12288) }

  /** As many as the bytes fill, and one for the indirect block of a file of more than twelve. */
  lemma BlocksForIs(sz: nat)
    ensures var data := if sz > 12 * 1024 then BlocksFor(sz) - 1 else BlocksFor(sz);
            1024 * data - 1024 < sz <= 1024 * data
  {
  }

  /** The blocks that placing logical block k of file n takes. */
  function Fresh(fs: Fs, n: nat, k: nat): nat { One(BlockMap(fs, n, k) == 0) + One(k >= 12 && IndirectOf(fs, n) == 0) }

  class Builder {
    const sb: Layout
    var fs: Fs
    var freeblock: nat
    var freeinode: nat
    ghost var v: Fs
    ghost var own: seq<Owner>

    /** freeblock++ into a data entry. */
    method TakeBlock(n: nat, k: nat)
      requires Built(sb, fs, v, own, freeblock) && n < |fs.inodes| && k < 268 && freeblock < sb.size
      requires BlockMap(fs, n, k) == 0 && (k >= 12 ==> IndirectOf(fs, n) != 0)
      modifies `fs, `freeblock, `v, `own
      ensures Built(sb, fs, v, own, freeblock) && Gained(old(v), v, n, k) && BlockMap(v, n, k) != 0
      ensures |fs.inodes| == |old(fs).inodes|
      ensures IndirectOf(fs, n) == IndirectOf(old(fs), n) && freeblock == old(freeblock) + 1
    {
      hide FsOk, SameFiles, BlockMap, SetWord, Built, Mapped, Gained;
      BumpBlock(sb, fs, v, own, freeblock, n, k);
      BuiltSizes(sb, fs, v, own, freeblock);
      GainedMapped(v, Extended(sb, v, n, k, freeblock), n, k);
      v, own := Extended(sb, v, n, k, freeblock), own[freeblock := Data(n, k)];
      if k < 12 {
        fs := fs.(inodes := fs.inodes[n := fs.inodes[n].(addrs := fs.inodes[n].addrs[k := freeblock])]);
      } else {
        var ib := fs.inodes[n].addrs[12];
        fs := fs.(disk := fs.disk[ib := SetWord(fs.disk[ib], k - 12, freeblock)]);
      }
      freeblock := freeblock + 1;
    }

    /** freeblock++ into the indirect entry. */
    method TakeIndirect(n: nat, ghost k: nat)
      requires Built(sb, fs, v, own, freeblock) && n < |fs.inodes| && freeblock < sb.size && IndirectOf(fs, n) == 0
      modifies `fs, `freeblock, `v, `own
      ensures Built(sb, fs, v, own, freeblock) && Gained(old(v), v, n, k) && IndirectOf(fs, n) != 0
      ensures |fs.inodes| == |old(fs).inodes|
      ensures (forall k: nat :: BlockMap(v, n, k) == BlockMap(old(v), n, k)) && freeblock == old(freeblock) + 1
    {
      hide FsOk, SameFiles, BlockMap, Built;
      BumpIndirect(sb, fs, v, own, freeblock, n);
      BuiltSizes(sb, fs, v, own, freeblock);
      v, own := Indirected(sb, v, n, freeblock), own[freeblock := Ind(n)];
      fs := fs.(inodes := fs.inodes[n := fs.inodes[n].(addrs := fs.inodes[n].addrs[12 := freeblock])]);
      freeblock := freeblock + 1;
    }

    /** The block for logical block k of file n, taken from the counter if it is missing. */
    method Place(n: nat, k: nat) returns (x: nat)
      requires Built(sb, fs, v, own, freeblock) && n < |fs.inodes| && k < 268 && freeblock + Fresh(fs, n, k) <= sb.size
      modifies `fs, `freeblock, `v, `own
      ensures Built(sb, fs, v, own, freeblock) && Gained(old(v), v, n, k) && |fs.inodes| == |old(fs).inodes|
      ensures x == BlockMap(fs, n, k) == BlockMap(v, n, k) != 0 && freeblock == old(freeblock) + Fresh(old(fs), n, k)
      ensures IndirectOf(fs, n) != 0 <==> IndirectOf(old(fs), n) != 0 || k >= 12
    {
      hide Built, Gained, BlockMap, Word, IndirectOf;
      GainedSelf(v, n, k);
      ImageCases(sb, fs, v, own, freeblock, n, k);
      if k < 12 {
        if fs.inodes[n].addrs[k] == 0 {
          TakeBlock(n, k);
        }
        ImageCases(sb, fs, v, own, freeblock, n, k);
        return fs.inodes[n].addrs[k];
      }
      if fs.inodes[n].addrs[12] == 0 {
        TakeIndirect(n, k);
      }
      ghost var v1 := v;
      ImageCases(sb, fs, v, own, freeblock, n, k);
      if Word(fs.disk[fs.inodes[n].addrs[12]], k - 12) == 0 {
        TakeBlock(n, k);
        GainedTrans(old(v), v1, v, n, k);
      }
      ImageCases(sb, fs, v, own, freeblock, n, k);
      return Word(fs.disk[fs.inodes[n].addrs[12]], k - 12);
    }

    /** One turn of iappend's loop. */
    method AppendChunk(n: nat, data: seq<Byte>, off: nat, tot: nat, ghost v0: Fs) returns (m: nat)
      requires Built(sb, fs, v, own, freeblock) && n < |fs.inodes| && tot < |data| && off + |data| <= MAXBYTES
      requires freeblock + Fresh(fs, n, (off + tot) / 1024) <= sb.size
      requires Spliced(v0, v, n, data, off, tot) && Covered(v0, v, n, off, tot) && OthersMaps(v0, v, n)
      requires NoneBeyond(v0, v, n, off + tot)
      modifies `fs, `freeblock, `v, `own
      ensures Built(sb, fs, v, own, freeblock) && |fs.inodes| == |old(fs).inodes| && 0 < m && tot + m <= |data|
      ensures Spliced(v0, v, n, data, off, tot + m) && Covered(v0, v, n, off, tot + m) && OthersMaps(v0, v, n)
      ensures NoneBeyond(v0, v, n, off + tot + m)
      ensures (off + tot) % 1024 + m <= 1024 && (tot + m < |data| ==> (off + tot + m) % 1024 == 0)
      ensures freeblock == old(freeblock) + Fresh(old(fs), n, (off + tot) / 1024)
      ensures IndirectOf(fs, n) != 0 <==> IndirectOf(old(fs), n) != 0 || (off + tot) / 1024 >= 12
    {
      hide Built, Gained, BlockMap, IndirectOf, Fresh, Spliced, Covered, OthersMaps, NoneBeyond, Overlay;
      var o := off + tot;
      var k := o / 1024;
      BlockInRange(o);
      var x := Place(n, k);
      ghost var v1, fs1 := v, fs;
      m := if |data| - tot < (k + 1) * 1024 - o then |data| - tot else (k + 1) * 1024 - o;
      BuiltSizes(sb, fs, v, own, freeblock);
      BlockPlaced(sb, fs, v, own, freeblock, n, k);
      ghost var y := Overlay(fs.disk[x], o % 1024, data[tot..tot + m]);
      BumpStore(sb, fs, v, own, freeblock, n, k, y);
      var at := o - k * 1024;
      fs := fs.(disk := fs.disk[x := Overlay(fs.disk[x], at, data[tot..tot + m])]);
      v := v.(disk := v.disk[x := y]);
      SameIndirect(fs1, fs, n);
      GainedSame(old(v), v1, n, k);
      SplicedMore(v0, old(v), v1, v, n, data, off, tot, m, y);
      CoveredGained(v0, old(v), v1, v, n, off, tot, m);
    }

    /** iappend's loop: the blocks of the new bytes, with the size still to be set. */
    method AppendBytes(n: nat, data: seq<Byte>, off: nat)
      requires Built(sb, fs, v, own, freeblock) && n < |fs.inodes| && off == fs.inodes[n].size
      requires off + |data| <= MAXBYTES && Tight(v, n)
      requires freeblock + BlocksFor(off + |data|) - BlocksFor(off) <= sb.size
      modifies `fs, `freeblock, `v, `own
      ensures Built(sb, fs, v, own, freeblock) && |fs.inodes| == |old(fs).inodes|
      ensures Spliced(old(v), v, n, data, off, |data|) && Covered(old(v), v, n, off, |data|) && OthersMaps(old(v), v, n)
      ensures NoneBeyond(old(v), v, n, off + |data|)
      ensures freeblock == old(freeblock) + BlocksFor(off + |data|) - BlocksFor(off)
      ensures IndirectOf(fs, n) != 0 <==> off + |data| > 12288
    {
      hide Built, BlockMap, IndirectOf, Spliced, Covered, OthersMaps, NoneBeyond, Tight, BlocksFor, Fresh, Content;
      BuiltSizes(sb, fs, v, own, freeblock);
      AppendStart(v, n, data, off);
      ImageCases(sb, fs, v, own, freeblock, n, 0);
      TightIndirect(v, n);
      var tot := 0;
      while tot < |data|
        invariant Built(sb, fs, v, own, freeblock) && |fs.inodes| == |old(fs).inodes| && tot <= |data|
        invariant Spliced(old(v), v, n, data, off, tot) && Covered(old(v), v, n, off, tot) && OthersMaps(old(v), v, n)
        invariant NoneBeyond(old(v), v, n, off + tot)
        invariant 0 < tot < |data| ==> (off + tot) % 1024 == 0
        invariant freeblock == old(freeblock) + BlocksFor(off + tot) - BlocksFor(off)
        invariant (IndirectOf(fs, n) != 0 <==> off + tot > 12288)
        decreases |data| - tot
      {
        ChunkFresh(sb, fs, v, own, freeblock, n, old(v), off, tot);
        NextBlock(off + tot, |data| - tot);
        var m := AppendChunk(n, data, off, tot, old(v));
        ChunkBlocks(off + tot, m);
        tot := tot + m;
      }
    }

    /** iappend: the bytes go behind those the file has, and no other file changes. */
    method IAppend(n: nat, data: seq<Byte>)
      requires Built(sb, fs, v, own, freeblock) && n < |fs.inodes| && fs.inodes[n].size + |data| <= MAXBYTES
      requires Tight(v, n)
      requires freeblock + BlocksFor(fs.inodes[n].size + |data|) - BlocksFor(fs.inodes[n].size) <= sb.size
      modifies `fs, `freeblock, `v, `own
      ensures Built(sb, fs, v, own, freeblock) && |v.inodes| == |old(v).inodes| && Tight(v, n)
      ensures Content(v, n) == Content(old(v), n) + data
      ensures freeblock ==
          old(freeblock) + BlocksFor(old(fs).inodes[n].size + |data|) - BlocksFor(old(fs).inodes[n].size)
      ensures forall m: nat :: m < |v.inodes| && m != n ==>
                Content(v, m) == Content(old(v), m) && (Tight(old(v), m) ==> Tight(v, m))
    {
      hide Built, BlockMap, IndirectOf, Spliced, Covered, OthersMaps, NoneBeyond, Tight, BlocksFor, Fresh, Content;
      BuiltSizes(sb, fs, v, own, freeblock);
      var off := fs.inodes[n].size;
      AppendBytes(n, data, off);
      ghost var v1 := v;
      ImageCases(sb, fs, v, own, freeblock, n, 0);
      SizedOk(sb, fs, v, own, freeblock, n, off + |data|);
      fs := fs.(inodes := fs.inodes[n := fs.inodes[n].(size := off + |data|)]);
      v := SizedAs(v, n, off + |data|);
      AppendEnd(old(v), v1, v, n, data, off);
    }

    /** The empty image: every block zero, every inode blank. */
    constructor (fssize: nat, ninodes: nat)
      requires MkLayout(fssize, ninodes).nmeta <= fssize < 0x8000_0000
      ensures sb == MkLayout(fssize, ninodes) && freeblock == sb.nmeta && freeinode == 1
      ensures Built(sb, fs, v, own, freeblock) && |v.inodes| == ninodes
      ensures forall n: nat :: n < ninodes ==> Tight(v, n) && Content(v, n) == []
    {
      sb := MkLayout(fssize, ninodes);
      fs := Blank(MkLayout(fssize, ninodes));
      freeblock, freeinode := MkLayout(fssize, ninodes).nmeta, 1;
      v := BlankView(MkLayout(fssize, ninodes));
      own := BlankOwn(MkLayout(fssize, ninodes));
      new;
      LayoutFits(fssize, ninodes);
      BlankOk(sb);
    }

    /** mkfs's balloc: the bits of all blocks handed out, in one bitmap block; the image is then a file
        system with the contents of the view. */
    method WriteBitmap()
      requires Built(sb, fs, v, own, freeblock) && freeblock < 8192
      modifies `fs
      ensures FsOk(sb, fs, own) && fs.inodes == v.inodes && SameFiles(v, fs)
      ensures |own| == sb.size && forall b: nat :: b < |own| ==> (own[b] != Free <==> b < freeblock)
      ensures forall n: nat, k: nat :: BlockMap(fs, n, k) == BlockMap(v, n, k)
    {
      hide Built, Bit, PutBit;
      BuiltSizes(sb, fs, v, own, freeblock);
      var buf := Zero();
      ZeroBits();
      var i := 0;
      while i < freeblock
        invariant 0 <= i <= freeblock
        invariant forall b: nat :: b < 8192 ==> (Bit(buf, b) <==> b < i)
      {
        buf := PutBit(buf, i, true);
        i := i + 1;
      }
      BitmapDone(sb, fs, v, own, freeblock, buf);
      HandedOut(sb, fs, v, own, freeblock);
      fs := fs.(disk := fs.disk[sb.bmapstart := buf]);
    }

    /** The program has no such test: an image that is too small is written past its end. */
    predicate Fits(n: nat, len: nat)
      reads this
    {
      && n < |fs.inodes| && fs.inodes[n].size + len <= MAXBYTES
      && freeblock + BlocksFor(fs.inodes[n].size + len) - BlocksFor(fs.inodes[n].size) <= sb.size
    }

    /** A file copied in chunks of at most a block, as they are read from the host. */
    method AppendFile(n: nat, data: seq<Byte>) returns (ok: bool)
      requires Built(sb, fs, v, own, freeblock) && n < |v.inodes| && AllTight(v)
      modifies `fs, `freeblock, `v, `own
      ensures ok <==> old(Fits(n, |data|))
      ensures ok ==>
                && Built(sb, fs, v, own, freeblock) && AllTight(v) && |v.inodes| == |old(v).inodes|
                && Appended(old(v), v, n, data)
      ensures ok ==>
          freeblock == old(freeblock) + BlocksFor(old(v).inodes[n].size + |data|) - BlocksFor(old(v).inodes[n].size)
    {
      hide Built, Tight, Content, BlocksFor;
      BuiltSizes(sb, fs, v, own, freeblock);
      var i := 0;
      assert data[..0] == [];
      AppendedNone(v, n);
      while i < |data|
        invariant Built(sb, fs, v, own, freeblock) && AllTight(v) && |v.inodes| == |old(v).inodes| && i <= |data|
        invariant Appended(old(v), v, n, data[..i])
        invariant freeblock == old(freeblock) + BlocksFor(old(v).inodes[n].size + i) - BlocksFor(old(v).inodes[n].size)
        invariant freeblock <= sb.size && old(v).inodes[n].size + i <= MAXBYTES
      {
        AppendedSize(old(v), v, n, data[..i]);
        ghost var v1 := v;
        var cc := if |data| - i < 1024 then |data| - i else 1024;
        BuiltSizes(sb, fs, v, own, freeblock);
        MoreBlocks(fs.inodes[n].size + cc, old(v).inodes[n].size + |data|);
        if !Fits(n, cc) {
          return false;
        }
        IAppend(n, data[i..i + cc]);
        AppendedMore(old(v), v1, v, n, data, i, cc);
        i := i + cc;
      }
      assert data[..i] == data;
      ok := true;
    }

    /** The root directory with its entries for itself and its parent. */
    method MakeRoot(dots: seq<Byte>, names: seq<seq<Byte>>, files: seq<seq<Byte>>) returns (ok: bool)
      requires Built(sb, fs, v, own, freeblock) && AllTight(v)
      requires forall n: nat :: n < |v.inodes| ==> Content(v, n) == []
      requires |dots| == 32 && |names| == |files| && freeinode == 1 && 2 + |files| <= |v.inodes|
      modifies this
      ensures ok ==> Built(sb, fs, v, own, freeblock) && AllTight(v) && |v.inodes| == |old(v).inodes| && freeinode == 2
      ensures ok ==> Filled(v, dots, names, files, 0) && Spent(sb, old(freeblock), freeblock, files, 0)
      ensures !ok ==> !Room(sb, old(freeblock), files)
    {
      hide Built, Tight, Content, BlocksFor, Filled, AllTight, Appended, Room;
      BuiltSizes(sb, fs, v, own, freeblock);
      SmallBlocks();
      var rootino := freeinode;
      freeinode := freeinode + 1;
      ghost var v1 := v;
      EmptySize(v);
      ok := AppendFile(rootino, dots[..16]);
      if !ok {
        TooLarge(sb, old(freeblock), files, 0, 16, 0);
        return;
      }
      ghost var v2 := v;
      AppendedSize(v1, v, 1, dots[..16]);
      BuiltSizes(sb, fs, v, own, freeblock);
      ok := AppendFile(rootino, dots[16..]);
      RootStart(v1, v2, v, dots, names, files);
      BuiltSizes(sb, fs, v, own, freeblock);
    }

    /** One file of the command line: its entry in the root directory and its bytes. */
    method AddFile(i: nat, ghost fb: nat, ghost dots: seq<Byte>, names: seq<seq<Byte>>,
                   files: seq<seq<Byte>>) returns (ok: bool)
      requires Built(sb, fs, v, own, freeblock) && AllTight(v) && |v.inodes| >= 2 + |files| && freeinode == 2 + i
      requires i < |files| == |names| && |dots| == 32 && forall j: nat :: j < |names| ==> |names[j]| == 16
      requires Filled(v, dots, names, files, i) && Spent(sb, fb, freeblock, files, i)
      modifies this
      ensures ok ==>
                Built(sb, fs, v, own, freeblock) && AllTight(v) && |v.inodes| == |old(v).inodes| && freeinode == 3 + i
      ensures ok ==> Filled(v, dots, names, files, i + 1) && Spent(sb, fb, freeblock, files, i + 1)
      ensures !ok ==> !Room(sb, fb, files)
    {
      hide Built, Tight, Content, BlocksFor, Filled, AllTight, Appended, Room;
      SmallBlocks();
      var inum := freeinode;
      freeinode := freeinode + 1;
      ghost var v1 := v;
      FilledSizes(v, dots, names, files, i);
      BuiltSizes(sb, fs, v, own, freeblock);
      ok := AppendFile(1, names[i]);
      if !ok {
        TooLarge(sb, fb, files, i, 32 + 16 * (i + 1), 0);
        return;
      }
      ghost var v2 := v;
      AppendedOther(v1, v, 1, names[i], inum);
      BuiltSizes(sb, fs, v, own, freeblock);
      ok := AppendFile(inum, files[i]);
      if !ok {
        TooLarge(sb, fb, files, i, 32 + 16 * (i + 1), |files[i]|);
        return;
      }
      FilledMore(v1, v2, v, dots, names, files, i);
      BuiltSizes(sb, fs, v, own, freeblock);
      assert files[..i + 1][..i] == files[..i];
    }

    /** main: the root directory, the files, the fix of the root's size and the bitmap. */
    method Build(dots: seq<Byte>, names: seq<seq<Byte>>, files: seq<seq<Byte>>) returns (ok: bool)
      requires Built(sb, fs, v, own, freeblock) && freeinode == 1 && AllTight(v)
      requires forall n: nat :: n < |v.inodes| ==> Content(v, n) == []
      requires |dots| == 32 && |names| == |files| && forall i: nat :: i < |names| ==> |names[i]| == 16
      modifies this
      ensures ok <==> Room(sb, old(freeblock), files)
      ensures ok ==> freeblock == old(freeblock) + ImageBlocks(files)
      ensures ok ==> |own| == sb.size && forall b: nat :: b < |own| ==> (own[b] != Free <==> b < freeblock)
      ensures ok ==> FsOk(sb, fs, own) && FilesOk(fs, files) && RootOk(fs, dots + Flatten(names))
    {
      hide Built, Tight, Content, BlocksFor, Filled, AllTight, FilesOk, RootOk, Flatten, SameFiles, FsOk;
      BuiltSizes(sb, fs, v, own, freeblock);
      if |fs.inodes| < 2 + |files| {
        return false;
      }
      ok := MakeRoot(dots, names, files);
      if !ok {
        return;
      }
      var i := 0;
      while i < |files|
        invariant i <= |files| && Built(sb, fs, v, own, freeblock) && AllTight(v) && |v.inodes| == |old(v).inodes|
        invariant freeinode == 2 + i && Filled(v, dots, names, files, i)
        invariant Spent(sb, old(freeblock), freeblock, files, i)
      {
        ok := AddFile(i, old(freeblock), dots, names, files);
        if !ok {
          return;
        }
        i := i + 1;
      }
      assert files[..i] == files;
      BuiltSizes(sb, fs, v, own, freeblock);
      RootSize(v, dots, names, files);
      var off := fs.inodes[1].size;
      off := (off / 1024 + 1) * 1024;
      if off > MAXBYTES || freeblock >= 8192 {
        return false;
      }
      ghost var v1 := v;
      SizedOk(sb, fs, v, own, freeblock, 1, off);
      fs := fs.(inodes := fs.inodes[1 := fs.inodes[1].(size := off)]);
      v := SizedAs(v, 1, off);
      WriteBitmap();
      Closing(v1, v, fs);
      Finished(v1, v, fs, dots, names, files);
    }
  }

  lemma BuiltSizes(sb: Layout, fs: Fs, v: Fs, own: seq<Owner>, fb: nat)
    requires Built(sb, fs, v, own, fb)
    ensures 0 < fb <= sb.size && |v.disk| == |fs.disk| == |own| == sb.size < 0x8000_0000 && fs.inodes == v.inodes
    ensures Sizes(sb, v, own)
  {
  }

  lemma HandedOut(sb: Layout, fs: Fs, v: Fs, own: seq<Owner>, fb: nat)
    requires Built(sb, fs, v, own, fb)
    ensures |own| == sb.size && forall b: nat :: b < |own| ==> (own[b] != Free <==> b < fb)
  {
  }

  /** No file but n has another block than before. */
  ghost predicate OthersMaps(v: Fs, v': Fs, n: nat) {
    SameSizes(v, v') && OthersIndirect(v, v', n) && forall m: nat, j: nat :: m != n ==>
      BlockMap(v', m, j) == BlockMap(v, m, j)
  }

  lemma BlockPlaced(sb: Layout, fs: Fs, v: Fs, own: seq<Owner>, fb: nat, n: nat, k: nat)
    requires Built(sb, fs, v, own, fb) && BlockMap(fs, n, k) != 0
    ensures BlockMap(fs, n, k) < |fs.disk|
  {
    SameMaps(sb, fs, v, own, n, k);
  }

  lemma GainedSame(v: Fs, v': Fs, n: nat, k: nat)
    requires Gained(v, v', n, k)
    ensures SameFiles(v, v')
  {
  }

  /** Blocks that file n has gained lie below the end. */
  ghost predicate NoneBeyond(v: Fs, v': Fs, n: nat, end: nat) {
    forall k: nat :: BlockMap(v', n, k) != 0 && BlockMap(v, n, k) == 0 ==> 1024 * k < end
  }

  lemma CoveredGained(v0: Fs, v: Fs, v1: Fs, v2: Fs, n: nat, off: nat, tot: nat, m: nat)
    requires Covered(v0, v, n, off, tot) && OthersMaps(v0, v, n) && NoneBeyond(v0, v, n, off + tot)
    requires Gained(v, v1, n, (off + tot) / 1024) && BlockMap(v1, n, (off + tot) / 1024) != 0
    requires (forall q: nat, j: nat :: BlockMap(v2, q, j) == BlockMap(v1, q, j)) && v2.inodes == v1.inodes
    requires |v2.disk| == |v1.disk|
    requires (off + tot) % 1024 + m <= 1024 && m > 0
    ensures Covered(v0, v2, n, off, tot + m) && OthersMaps(v0, v2, n) && NoneBeyond(v0, v2, n, off + tot + m)
  {
  }

  /** File n has a block exactly where it has bytes, and an indirect one exactly if it needs it. */
  ghost predicate Tight(v: Fs, n: nat)
    requires n < |v.inodes|
  {
    && (forall k: nat :: BlockMap(v, n, k) != 0 <==> 1024 * k < v.inodes[n].size)
    && (IndirectOf(v, n) != 0 <==> v.inodes[n].size > 12288)
    && (forall p: nat :: p >= v.inodes[n].size ==> ByteAt(v, n, p) == 0)
  }

  lemma TightIndirect(v: Fs, n: nat)
    requires n < |v.inodes| && Tight(v, n)
    ensures IndirectOf(v, n) != 0 <==> v.inodes[n].size > 12288
  {
  }

  /** In the middle of an append the next chunk needs a block exactly at a block's start. */
  lemma ChunkFresh(sb: Layout, fs: Fs, v: Fs, own: seq<Owner>, fb: nat, n: nat, v0: Fs, off: nat, tot: nat)
    requires Built(sb, fs, v, own, fb) && n < |fs.inodes| && n < |v0.inodes| && off == v0.inodes[n].size
    requires off + tot < MAXBYTES
    requires Tight(v0, n) && Covered(v0, v, n, off, tot) && NoneBeyond(v0, v, n, off + tot)
    requires IndirectOf(fs, n) != 0 <==> off + tot > 12288
    ensures var o := off + tot; Fresh(fs, n, o / 1024) == One(o % 1024 == 0) + One(o == 12288)
  {
    var o := off + tot;
    BlockInRange(o);
    ImageCases(sb, fs, v, own, fb, n, o / 1024);
    hide BlockMap, IndirectOf, Built;
    if o % 1024 != 0 && !(1024 * (o / 1024) < off) {
      assert BlockMap(v, n, (o - 1) / 1024) != 0;
      assert (o - 1) / 1024 == o / 1024;
    }
  }

  lemma ChunkBlocks(o: nat, m: nat)
    requires m > 0 && o % 1024 + m <= 1024
    ensures BlocksFor(o + m) == BlocksFor(o) + One(o % 1024 == 0) + One(o == 12288)
  {
  }

  lemma NextBlock(o: nat, len: nat)
    requires len > 0
    ensures BlocksFor(o) + One(o % 1024 == 0) + One(o == 12288) <= BlocksFor(o + len)
  {
    ChunkBlocks(o, 1);
    MoreBlocks(o + 1, o + len);
  }

  lemma MoreBlocks(a: nat, b: nat)
    requires a <= b
    ensures BlocksFor(a) <= BlocksFor(b)
  {
  }

  lemma TightAfter(v0: Fs, v: Fs, v': Fs, n: nat, off: nat, len: nat)
    requires n < |v0.inodes| && off == v0.inodes[n].size && Tight(v0, n) && Covered(v0, v, n, off, len)
    requires NoneBeyond(v0, v, n, off + len)
    requires |v'.inodes| == |v0.inodes| && (forall m: nat, k: nat :: BlockMap(v', m, k) == BlockMap(v, m, k))
    requires v'.inodes[n].size == off + len
    requires IndirectOf(v', n) != 0 <==> off + len > 12288
    requires forall p: nat :: p >= off + len ==> ByteAt(v', n, p) == ByteAt(v0, n, p)
    ensures Tight(v', n)
  {
    hide BlockMap, ByteAt;
    forall k: nat
      ensures BlockMap(v', n, k) != 0 <==> 1024 * k < v'.inodes[n].size
    {
      assert BlockMap(v', n, k) == BlockMap(v, n, k);
      if 1024 * k < off + len && !(1024 * k < off) {
        assert BlockMap(v, n, 1024 * k / 1024) != 0;
      }
    }
  }

  /** iappend's last store: the size. */
  function SizedAs(fs: Fs, n: nat, sz: nat): Fs
    requires n < |fs.inodes|
  {
    fs.(inodes := fs.inodes[n := fs.inodes[n].(size := sz)])
  }

  lemma SizedOk(sb: Layout, fs: Fs, v: Fs, own: seq<Owner>, fb: nat, n: nat, sz: nat)
    requires Built(sb, fs, v, own, fb) && n < |fs.inodes| && sz <= MAXBYTES
    ensures |v.inodes| == |fs.inodes| && Built(sb, SizedAs(fs, n, sz), SizedAs(v, n, sz), own, fb)
    ensures forall m: nat, k: nat :: BlockMap(SizedAs(v, n, sz), m, k) == BlockMap(v, m, k)
    ensures forall m: nat, p: nat :: ByteAt(SizedAs(v, n, sz), m, p) == ByteAt(v, m, p)
    ensures IndirectOf(SizedAs(fs, n, sz), n) == IndirectOf(fs, n)
    ensures forall m: nat :: IndirectOf(SizedAs(v, n, sz), m) == IndirectOf(v, m)
  {
    SizesOf(sb, v, own);
    var v' := SizedAs(v, n, sz);
    forall m: nat, k: nat
      ensures BlockMap(v', m, k) == BlockMap(v, m, k)
    {
    }
    forall m: nat
      ensures IndirectOf(v', m) == IndirectOf(v, m)
    {
    }
    hide BlockMap;
    StoredOwn(sb, v, own, v');
    forall m: nat, p: nat
      ensures ByteAt(v', m, p) == ByteAt(v, m, p)
    {
      assert BlockMap(v', m, p / 1024) == BlockMap(v, m, p / 1024);
    }
  }

  lemma AppendStart(v: Fs, n: nat, data: seq<Byte>, off: nat)
    ensures Spliced(v, v, n, data, off, 0) && Covered(v, v, n, off, 0) && OthersMaps(v, v, n)
    ensures NoneBeyond(v, v, n, off)
  {
  }

  lemma AppendEnd(v0: Fs, v: Fs, v': Fs, n: nat, data: seq<Byte>, off: nat)
    requires n < |v0.inodes| && off == v0.inodes[n].size && Tight(v0, n) && OthersMaps(v0, v, n)
    requires Spliced(v0, v, n, data, off, |data|) && Covered(v0, v, n, off, |data|)
    requires NoneBeyond(v0, v, n, off + |data|)
    requires v' == SizedAs(v, n, off + |data|) && (forall m: nat, k: nat :: BlockMap(v', m, k) == BlockMap(v, m, k))
    requires forall m: nat, p: nat :: ByteAt(v', m, p) == ByteAt(v, m, p)
    requires (forall m: nat :: IndirectOf(v', m) == IndirectOf(v, m))
    requires (IndirectOf(v, n) != 0 <==> off + |data| > 12288)
    ensures |v'.inodes| == |v0.inodes| && Tight(v', n) && Content(v', n) == Content(v0, n) + data
    ensures forall m: nat :: m < |v'.inodes| && m != n ==>
              Content(v', m) == Content(v0, m) && (Tight(v0, m) ==> Tight(v', m))
  {
    hide BlockMap, ByteAt, IndirectOf;
    TightAfter(v0, v, v', n, off, |data|);
    assert Resized(v0, v', n, off + |data|);
    WriteIsSplice(v0, v', n, data, off, |data|);
    assert data[..|data|] == data;
    forall m: nat | m < |v'.inodes| && m != n && Tight(v0, m)
      ensures Tight(v', m)
    {
      forall k: nat
        ensures BlockMap(v', m, k) == BlockMap(v0, m, k)
      {
        assert BlockMap(v', m, k) == BlockMap(v, m, k);
      }
    }
  }

  // ----- the ends -----

  function Blank(sb: Layout): Fs { Fs(seq(sb.size, _ => Zero()), seq(sb.ninodes, _ => Inode(0, seq(13, _ => 0)))) }

  function BlankOwn(sb: Layout): seq<Owner> { seq(sb.size, b => if b < sb.nmeta then Meta else Free) }

  /** A block whose first n bits are set. */
  ghost function Ones(n: nat): (x: Block)
    requires n <= 8192
    ensures forall b: nat :: b < 8192 ==> (Bit(x, b) <==> b < n)
  {
    if n == 0 then ZeroBits(); Zero() else PutBit(Ones(n - 1), n - 1, true)
  }

  /** The bitmap block at b with the bits of the metadata set. */
  ghost function MetaBits(sb: Layout, b: nat): Block {
    var lo := (b - sb.bmapstart) * 8192;
    if !InBitmap(sb, b) || sb.nmeta <= lo then Zero() else Ones(if sb.nmeta - lo < 8192 then sb.nmeta - lo else 8192)
  }

  ghost function BlankView(sb: Layout): Fs {
    Blank(sb).(disk := seq(sb.size, b requires 0 <= b < sb.size => MetaBits(sb, b)))
  }

  lemma {:induction false} ZeroBit(k: nat)
    ensures !NatBit(0, k)
  {
    if k > 0 {
      ZeroBit(k - 1);
    }
  }

  lemma ZeroBits()
    ensures forall b: nat :: b < 8192 ==> !Bit(Zero(), b)
  {
    forall b: nat | b < 8192
      ensures !Bit(Zero(), b)
    {
      ZeroBit(b % 8);
    }
  }

  lemma BlankOk(sb: Layout)
    requires LayoutOk(sb)
    ensures Built(sb, Blank(sb), BlankView(sb), BlankOwn(sb), sb.nmeta)
    ensures forall n: nat :: n < sb.ninodes ==> Tight(BlankView(sb), n) && Content(BlankView(sb), n) == []
  {
    var v, own := BlankView(sb), BlankOwn(sb);
    forall n: nat, k: nat
      ensures BlockMap(v, n, k) == 0 && IndirectOf(v, n) == 0
    {
    }
    forall n: nat
      ensures IndirectOf(v, n) == 0
    {
    }
    hide BlockMap, IndirectOf;
    assert MapsOk(sb, v, own);
    forall b: nat | b < |own| && BitmapBlock(sb, b) < |v.disk|
      ensures BitAt(sb, v.disk, b) <==> own[b] != Free
    {
      BitmapBlockIn(sb, b);
      ZeroBits();
      assert v.disk[BitmapBlock(sb, b)] == MetaBits(sb, BitmapBlock(sb, b));
    }
  }

  lemma BitmapDone(sb: Layout, fs: Fs, v: Fs, own: seq<Owner>, fb: nat, buf: Block)
    requires Built(sb, fs, v, own, fb) && fb < 8192 && sb.bmapstart < |fs.disk|
    requires forall b: nat :: b < 8192 ==> (Bit(buf, b) <==> b < fb)
    ensures var fs' := fs.(disk := fs.disk[sb.bmapstart := buf]);
            FsOk(sb, fs', own) && SameFiles(v, fs') && forall n: nat, k: nat :: BlockMap(fs', n, k) == BlockMap(v, n, k)
  {
    SizesOf(sb, v, own);
    var fs' := fs.(disk := fs.disk[sb.bmapstart := buf]);
    assert Agree(sb, fs', v);
    forall n: nat, k: nat
      ensures BlockMap(fs', n, k) == BlockMap(v, n, k)
    {
      SameMaps(sb, fs', v, own, n, k);
    }
    forall n: nat
      ensures IndirectOf(fs', n) == IndirectOf(v, n)
    {
      SameMaps(sb, fs', v, own, n, 0);
    }
    hide BlockMap, IndirectOf;
    StoredOwn(sb, v, own, fs');
    forall b: nat | b < |own| && BitmapBlock(sb, b) < |fs'.disk|
      ensures BitAt(sb, fs'.disk, b) <==> own[b] != Free
    {
      BitmapBlockIn(sb, b);
      ZeroBits();
    }
    forall n: nat, p: nat
      ensures SameByte(v, fs', n, p)
    {
      SameMaps(sb, fs', v, own, n, p / 1024);
    }
  }

  // ----- what the image holds -----

  ghost predicate AllTight(v: Fs) { forall n: nat :: n < |v.inodes| ==> Tight(v, n) }

  /** File n has data behind what it had; the others are as they were. */
  ghost predicate Appended(v: Fs, v': Fs, n: nat, data: seq<Byte>) {
    && |v'.inodes| == |v.inodes| && n < |v.inodes| && Content(v', n) == Content(v, n) + data
    && forall m: nat :: m < |v.inodes| && m != n ==> Content(v', m) == Content(v, m)
  }

  lemma AppendedNone(v: Fs, n: nat)
    requires n < |v.inodes|
    ensures Appended(v, v, n, [])
  {
  }

  lemma AppendedSize(v: Fs, v': Fs, n: nat, data: seq<Byte>)
    requires Appended(v, v', n, data)
    ensures v'.inodes[n].size == v.inodes[n].size + |data|
  {
    assert |Content(v', n)| == v'.inodes[n].size && |Content(v, n)| == v.inodes[n].size;
  }

  lemma AppendedMore(v0: Fs, v: Fs, v': Fs, n: nat, data: seq<Byte>, i: nat, cc: nat)
    requires i + cc <= |data| && Appended(v0, v, n, data[..i]) && Appended(v, v', n, data[i..i + cc])
    ensures Appended(v0, v', n, data[..i + cc])
  {
  }

  function Flatten(s: seq<seq<Byte>>): seq<Byte> { if s == [] then [] else Flatten(s[..|s| - 1]) + s[|s| - 1] }

  lemma {:induction false} FlattenSize(s: seq<seq<Byte>>)
    requires forall i: nat :: i < |s| ==> |s[i]| == 16
    ensures |Flatten(s)| == 16 * |s|
  {
    if s != [] {
      FlattenSize(s[..|s| - 1]);
    }
  }

  lemma {:induction false} FlattenAt(s: seq<seq<Byte>>, i: nat)
    requires (forall j: nat :: j < |s| ==> |s[j]| == 16) && i < |s|
    ensures 16 * i + 16 <= |Flatten(s)| && Flatten(s)[16 * i..16 * i + 16] == s[i]
  {
    FlattenSize(s);
    FlattenSize(s[..|s| - 1]);
    if i < |s| - 1 {
      FlattenAt(s[..|s| - 1], i);
      assert Flatten(s)[16 * i..16 * i + 16] == Flatten(s[..|s| - 1])[16 * i..16 * i + 16];
    }
  }

  function Total(files: seq<seq<Byte>>): nat {
    if files == [] then 0 else Total(files[..|files| - 1]) + BlocksFor(|files[|files| - 1]|)
  }

  /** The blocks of the root directory and the files. */
  function ImageBlocks(files: seq<seq<Byte>>): nat { BlocksFor(32 + 16 * |files|) + Total(files) }

  /** The inodes, the file sizes, the image and the one bitmap block mkfs writes suffice. */
  ghost predicate Room(sb: Layout, fb: nat, files: seq<seq<Byte>>) {
    && 2 + |files| <= sb.ninodes && 32 + 16 * |files| < MAXBYTES
    && (forall i: nat :: i < |files| ==> |files[i]| <= MAXBYTES)
    && fb + ImageBlocks(files) <= sb.size && fb + ImageBlocks(files) < 8192
  }

  /** The counter with the root directory and the first i files in place. */
  ghost predicate Spent(sb: Layout, fb: nat, fb': nat, files: seq<seq<Byte>>, i: nat)
    requires i <= |files|
  {
    && fb' == fb + BlocksFor(32 + 16 * i) + Total(files[..i]) && fb' <= sb.size
    && 32 + 16 * i <= MAXBYTES && forall j: nat :: j < i ==> |files[j]| <= MAXBYTES
  }

  lemma {:induction false} TotalPrefix(files: seq<seq<Byte>>, i: nat)
    requires i <= |files|
    ensures Total(files[..i]) + (if i < |files| then BlocksFor(|files[i]|) else 0) <= Total(files)
  {
    if i == |files| {
      assert files[..i] == files;
    } else if i < |files| - 1 {
      var front := files[..|files| - 1];
      TotalPrefix(front, i);
      assert front[..i] == files[..i];
    }
  }

  /** Building stops with a bytes in the root directory, i files in place and b bytes of the next one
      only if the whole does not fit. */
  lemma TooLarge(sb: Layout, fb: nat, files: seq<seq<Byte>>, i: nat, a: nat, b: nat)
    requires i <= |files| && a <= 32 + 16 * |files| && (b == 0 || (i < |files| && b == |files[i]|))
    requires a > MAXBYTES || b > MAXBYTES || fb + BlocksFor(a) + Total(files[..i]) + BlocksFor(b) > sb.size
    ensures !Room(sb, fb, files)
  {
    TotalPrefix(files, i);
    MoreBlocks(a, 32 + 16 * |files|);
  }

  lemma SmallBlocks()
    ensures BlocksFor(0) == 0 && BlocksFor(16) == BlocksFor(32) == 1
  {
  }

  lemma EmptySize(v: Fs)
    requires 1 < |v.inodes| && forall n: nat :: n < |v.inodes| ==> Content(v, n) == []
    ensures v.inodes[1].size == 0
  {
    assert |Content(v, 1)| == v.inodes[1].size;
  }

  lemma AppendedOther(v: Fs, v': Fs, n: nat, data: seq<Byte>, m: nat)
    requires Appended(v, v', n, data) && m != n && m < |v.inodes|
    ensures v'.inodes[m].size == v.inodes[m].size
  {
    assert |Content(v', m)| == v'.inodes[m].size && |Content(v, m)| == v.inodes[m].size;
  }

  /** The first i files are in place, with their entries in the root directory. */
  ghost predicate Filled(v: Fs, dots: seq<Byte>, names: seq<seq<Byte>>, files: seq<seq<Byte>>, i: nat)
    requires i <= |files| == |names|
  {
    && |v.inodes| >= 2 + |files| && Content(v, 1) == dots + Flatten(names[..i])
    && (forall j: nat :: j < i ==> Content(v, 2 + j) == files[j])
    && (forall n: nat :: 2 + i <= n < |v.inodes| ==> Content(v, n) == [])
  }

  lemma RootStart(v0: Fs, v1: Fs, v: Fs, dots: seq<Byte>, names: seq<seq<Byte>>, files: seq<seq<Byte>>)
    requires |dots| == 32 && |names| == |files| && |v0.inodes| >= 2 + |files|
    requires forall n: nat :: n < |v0.inodes| ==> Content(v0, n) == []
    requires Appended(v0, v1, 1, dots[..16]) && Appended(v1, v, 1, dots[16..])
    ensures Filled(v, dots, names, files, 0)
  {
  }

  lemma FilledMore(v0: Fs, v1: Fs, v: Fs, dots: seq<Byte>, names: seq<seq<Byte>>, files: seq<seq<Byte>>, i: nat)
    requires i < |files| == |names| && Filled(v0, dots, names, files, i)
    requires Appended(v0, v1, 1, names[i]) && Appended(v1, v, 2 + i, files[i])
    ensures Filled(v, dots, names, files, i + 1)
  {
    hide Content;
    assert names[..i + 1][..i] == names[..i];
    assert dots + Flatten(names[..i]) + names[i] == dots + Flatten(names[..i + 1]);
    forall j: nat | j < i + 1
      ensures Content(v, 2 + j) == files[j]
    {
      assert j < i ==> Content(v0, 2 + j) == files[j];
    }
  }

  lemma FilledSizes(v: Fs, dots: seq<Byte>, names: seq<seq<Byte>>, files: seq<seq<Byte>>, i: nat)
    requires i < |files| == |names| && Filled(v, dots, names, files, i) && |dots| == 32
    requires forall j: nat :: j < |names| ==> |names[j]| == 16
    ensures v.inodes[1].size == 32 + 16 * i && v.inodes[2 + i].size == 0
  {
    FlattenSize(names[..i]);
    assert |Content(v, 1)| == v.inodes[1].size && |Content(v, 2 + i)| == v.inodes[2 + i].size;
  }

  lemma RootSize(v: Fs, dots: seq<Byte>, names: seq<seq<Byte>>, files: seq<seq<Byte>>)
    requires |names| == |files| && Filled(v, dots, names, files, |files|) && |dots| == 32
    requires forall i: nat :: i < |names| ==> |names[i]| == 16
    ensures v.inodes[1].size == 32 + 16 * |files| && Content(v, 1) == dots + Flatten(names)
  {
    assert names[..|files|] == names;
    FlattenSize(names);
    assert |Content(v, 1)| == v.inodes[1].size;
  }

  /** Rounding the root's size up leaves a hole exactly when the size was already whole blocks, and then
      the last block is missing. */
  lemma RootHole(fs: Fs, entries: seq<Byte>)
    requires RootOk(fs, entries)
    ensures NoHoles(fs, 1) <==> |entries| % 1024 != 0
    ensures |entries| % 1024 == 0 ==> HoleIn(fs, 1, |entries|, 1) && |entries| < fs.inodes[1].size
  {
    hide BlockMap, FileBytes;
    if |entries| % 1024 == 0 {
      assert BlockMap(fs, 1, |entries| / 1024) == 0;
    }
  }

  /** The root directory as the kernel reads it: its own two entries, then the files' in order, 16 bytes each, and
      zeros up to its size. */
  lemma RootEntries(fs: Fs, dots: seq<Byte>, names: seq<seq<Byte>>, i: nat)
    requires RootOk(fs, dots + Flatten(names)) && |dots| == 32 && i < |names|
    requires forall j: nat :: j < |names| ==> |names[j]| == 16
    ensures var root := Content(fs, 1);
            && 48 + 16 * i <= |root| && root[..32] == dots && root[32 + 16 * i..48 + 16 * i] == names[i]
            && forall p: nat :: 32 + 16 * |names| <= p < |root| ==> root[p] == 0
  {
    hide ByteAt, Flatten, BlockMap;
    FlattenSize(names);
    FlattenAt(names, i);
    var entries, root := dots + Flatten(names), Content(fs, 1);
    assert entries[32 + 16 * i..48 + 16 * i] == names[i];
    assert forall p: nat :: p < |entries| ==> root[p] == ByteAt(fs, 1, 0 + p) == FileBytes(fs, 1, 0, |entries|)[p];
    assert root[..|entries|] == entries;
    assert root[..32] == entries[..32] == dots;
    assert root[32 + 16 * i..48 + 16 * i] == entries[32 + 16 * i..48 + 16 * i];
    assert forall p: nat :: p < |root| ==> root[p] == ByteAt(fs, 1, 0 + p);
  }

  lemma TightNoHoles(v: Fs, v': Fs, n: nat)
    requires n < |v.inodes| == |v'.inodes| && Tight(v, n) && v'.inodes[n].size == v.inodes[n].size
    requires forall k: nat :: BlockMap(v', n, k) == BlockMap(v, n, k)
    ensures NoHoles(v', n)
  {
  }

  lemma SameContent(v: Fs, fs: Fs, n: nat, len: nat)
    requires SameFiles(v, fs)
    ensures FileBytes(fs, n, 0, len) == FileBytes(v, n, 0, len)
  {
    BytesStay(v, fs, n, 0, len);
  }

  /** Each file holds its bytes, without holes. */
  ghost predicate FilesOk(fs: Fs, files: seq<seq<Byte>>) {
    forall i: nat :: i < |files| ==> FileIs(fs, 2 + i, files[i])
  }

  ghost predicate FileIs(fs: Fs, n: nat, data: seq<Byte>) {
    n < |fs.inodes| && Content(fs, n) == data && NoHoles(fs, n)
  }

  /** The root directory holds its entries, in just the blocks they need, under a size rounded up to
      whole blocks. */
  ghost predicate RootOk(fs: Fs, entries: seq<Byte>) {
    && |fs.inodes| > 1 && FileBytes(fs, 1, 0, |entries|) == entries
    && fs.inodes[1].size == (|entries| / 1024 + 1) * 1024
    && (forall k: nat :: BlockMap(fs, 1, k) != 0 <==> 1024 * k < |entries|)
    && (forall p: nat :: p >= |entries| ==> ByteAt(fs, 1, p) == 0)
  }

  /** From the last append to the finished image: the root's size and the bitmap. */
  ghost predicate Closed(v0: Fs, v: Fs, fs: Fs) {
    && 1 < |v0.inodes| && v == SizedAs(v0, 1, (v0.inodes[1].size / 1024 + 1) * 1024) && fs.inodes == v.inodes
    && SameFiles(v0, fs)
    && forall n: nat, k: nat :: BlockMap(fs, n, k) == BlockMap(v0, n, k)
  }

  lemma Closing(v0: Fs, v: Fs, fs: Fs)
    requires 1 < |v0.inodes| && v == SizedAs(v0, 1, (v0.inodes[1].size / 1024 + 1) * 1024) && fs.inodes == v.inodes
    requires SameFiles(v, fs)
    requires forall m: nat, k: nat :: BlockMap(v, m, k) == BlockMap(v0, m, k)
    requires forall m: nat, p: nat :: ByteAt(v, m, p) == ByteAt(v0, m, p)
    requires forall n: nat, k: nat :: BlockMap(fs, n, k) == BlockMap(v, n, k)
    ensures Closed(v0, v, fs)
  {
    SameTrans(v0, v, fs);
    hide BlockMap, ByteAt, SameFiles;
    forall n: nat, k: nat
      ensures BlockMap(fs, n, k) == BlockMap(v0, n, k)
    {
      assert BlockMap(fs, n, k) == BlockMap(v, n, k) == BlockMap(v0, n, k);
    }
  }

  lemma RootFinished(v0: Fs, v: Fs, fs: Fs, entries: seq<Byte>)
    requires Closed(v0, v, fs) && Tight(v0, 1) && Content(v0, 1) == entries
    ensures RootOk(fs, entries)
  {
    hide BlockMap, ByteAt;
    assert |entries| == v0.inodes[1].size;
    forall p: nat | p >= |entries|
      ensures ByteAt(fs, 1, p) == 0
    {
      assert SameByte(v0, fs, 1, p) && ByteAt(v0, 1, p) == 0;
    }
    assert forall k: nat :: BlockMap(fs, 1, k) == BlockMap(v0, 1, k);
    SameContent(v0, fs, 1, |entries|);
  }

  lemma FileFinished(v0: Fs, v: Fs, fs: Fs, n: nat)
    requires Closed(v0, v, fs) && 1 < n < |v0.inodes| && Tight(v0, n)
    ensures Content(fs, n) == Content(v0, n) && NoHoles(fs, n)
  {
    hide BlockMap, SameFiles;
    TightNoHoles(v0, fs, n);
    SameContent(v0, fs, n, v0.inodes[n].size);
  }

  lemma Finished(v0: Fs, v: Fs, fs: Fs, dots: seq<Byte>, names: seq<seq<Byte>>, files: seq<seq<Byte>>)
    requires |names| == |files| && Filled(v0, dots, names, files, |files|) && AllTight(v0) && Closed(v0, v, fs)
    requires |dots| == 32 && forall i: nat :: i < |names| ==> |names[i]| == 16
    ensures FilesOk(fs, files) && RootOk(fs, dots + Flatten(names))
  {
    RootSize(v0, dots, names, files);
    hide BlockMap, Tight, Content, NoHoles, Flatten, SameFiles;
    assert Tight(v0, 1);
    RootFinished(v0, v, fs, dots + Flatten(names));
    forall i: nat | i < |files|
      ensures FileIs(fs, 2 + i, files[i])
    {
      assert Tight(v0, 2 + i) && Content(v0, 2 + i) == files[i];
      FileFinished(v0, v, fs, 2 + i);
    }
  }

  // ----- an image in use -----

  /** mkfs, then the kernel: the image is mounted and used; the files start as mkfs was given them. */
  method MakeAndRun(fssize: nat, ninodes: nat, dots: seq<Byte>, names: seq<seq<Byte>>, files: seq<seq<Byte>>,
                    ops: seq<FileOp>)
    returns (vol: Volume?, rs: seq<int>, ds: seq<seq<Byte>>, ghost image: Fs, ghost trace: seq<(Fs, seq<Owner>)>)
    requires MkLayout(fssize, ninodes).nmeta <= fssize < 0x8000_0000
    requires |dots| == 32 && |names| == |files| && forall i: nat :: i < |names| ==> |names[i]| == 16
    ensures vol != null <==> Room(MkLayout(fssize, ninodes), MkLayout(fssize, ninodes).nmeta, files)
    ensures vol != null ==> FilesOk(image, files) && RootOk(image, dots + Flatten(names))
    ensures vol != null ==> FsOk(vol.sb, vol.fs, vol.own) && |rs| == |ds| <= |ops|
    ensures vol != null ==> Contents(vol.fs) == Replay(Contents(image), ops[..|rs|], rs)
    ensures vol != null && |rs| < |ops| ==> Fatal(vol.fs, vol.own, ops[|rs|])
    ensures vol != null ==> |trace| == |rs| + 1 && trace[0].0 == image && trace[|rs|] == (vol.fs, vol.own)
    ensures vol != null ==> forall i: nat :: i < |rs| ==> Ran(trace[i], ops[i], rs[i], ds[i], trace[i + 1])
  {
    hide Built, Tight, Content, FsOk, Room, FilesOk, RootOk, Flatten, Contents, Fatal, Replay, BlockMap, Ran;
    vol, rs, ds, trace := null, [], [], [];
    var b := new Builder(fssize, ninodes);
    var ok := b.Build(dots, names, files);
    image := b.fs;
    if ok {
      vol := new Volume(b.sb, b.fs, b.own);
      rs, ds, trace := vol.Run(ops);
    }
  }

  function Sixteen(): (e: seq<Byte>)
    ensures |e| == 16
  {
    seq<Byte>(16, _ => 0)
  }

  lemma {:induction false} NoBlocks(files: seq<seq<Byte>>)
    requires forall i: nat :: i < |files| ==> files[i] == []
    ensures Total(files) == 0
  {
    if files != [] {
      NoBlocks(files[..|files| - 1]);
    }
  }

  /** The kernel's own FSSIZE and NINODES, and 62 empty files: the entries of the root directory fill one
      block, and reading the directory past them outside a transaction is fatal. */
  method FullRootIsFatal() returns (vol: Volume)
    ensures vol.sb == MkLayout(2000, 200) && FsOk(vol.sb, vol.fs, vol.own) && 1 < |vol.fs.inodes|
    ensures !NoHoles(vol.fs, 1)
    ensures Fatal(vol.fs, vol.own, Read(1, 1024, 16, false))
  {
    hide Built, Content, FsOk, FilesOk, Flatten, BlockMap, HoleIn;
    var names, files := seq<seq<Byte>>(62, _ => Sixteen()), seq<seq<Byte>>(62, _ => []);
    var b := new Builder(2000, 200);
    NoBlocks(files);
    assert ImageBlocks(files) == 1;
    var ok := b.Build(Sixteen() + Sixteen(), names, files);
    FlattenSize(names);
    RootHole(b.fs, Sixteen() + Sixteen() + Flatten(names));
    IsFree(b.own, b.freeblock);
    HoleWider(b.fs, 1, 1024, 16);
    vol := new Volume(b.sb, b.fs, b.own);
  }

  lemma HoleWider(fs: Fs, n: nat, off: nat, len: nat)
    requires HoleIn(fs, n, off, 1) && len > 0
    ensures HoleIn(fs, n, off, len)
  {
    hide BlockMap;
  }
}
