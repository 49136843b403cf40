/** Which disk blocks belong to which file: the free bitmap and the direct and indirect block maps of
    kernel/fs.c.

    Blocks are those of the logical disk that bread and log_write provide.  Every block has one owner,
    and a file's bytes are those of the blocks it owns, with zeros where a block is missing. */
module FileBlocks {
  import opened Blocks

  // NDIRECT is 12, NINDIRECT 256, MAXFILE 268 and IPB 16; they are written out below.
  const MAXBYTES: nat := 274432        // MAXFILE * BSIZE

  /** The superblock; blocks below nmeta are the boot block, the superblock, the log, inodes and bitmap. */
  datatype Layout = Layout(size: nat, ninodes: nat, inodestart: nat, bmapstart: nat, nmeta: nat)

  ghost predicate LayoutOk(sb: Layout) {
    && 2 <= sb.inodestart && sb.inodestart + sb.ninodes / 16 < sb.bmapstart
    && sb.bmapstart + sb.size / 8192 < sb.nmeta <= sb.size < 0x8000_0000
  }

  datatype Inode = Inode(size: nat, addrs: seq<nat>)
  datatype Fs = Fs(disk: seq<Block>, inodes: seq<Inode>)

  /** The owner of a block: metadata, nobody, logical block k of file n, or file n as its indirect block. */
  datatype Owner = Meta | Free | Data(n: nat, k: nat) | Ind(n: nat)

  /** The block of the bitmap that holds b's bit. */
  function BitmapBlock(sb: Layout, b: nat): nat { sb.bmapstart + b / 8192 }

  predicate BitAt(sb: Layout, disk: seq<Block>, b: nat)
    requires BitmapBlock(sb, b) < |disk|
  {
    Bit(disk[BitmapBlock(sb, b)], b % 8192)
  }

  function IndirectOf(fs: Fs, n: nat): nat {
    if n < |fs.inodes| && |fs.inodes[n].addrs| == 13 then fs.inodes[n].addrs[12] else 0
  }

  /** The disk block of logical block k of file n, or 0. */
  function BlockMap(fs: Fs, n: nat, k: nat): nat {
    if n >= |fs.inodes| || |fs.inodes[n].addrs| != 13 || k >= 268 then 0
    else if k < 12 then fs.inodes[n].addrs[k]
    else
      var ib := fs.inodes[n].addrs[12];
      if ib == 0 || ib >= |fs.disk| then 0 else Word(fs.disk[ib], k - 12)
  }

  /** Byte p of file n. */
  function ByteAt(fs: Fs, n: nat, p: nat): Byte {
    var a := BlockMap(fs, n, p / 1024);
    if a == 0 || a >= |fs.disk| then 0 else fs.disk[a].bytes[p % 1024]
  }

  // ----- the invariant -----

  ghost predicate Sizes(sb: Layout, fs: Fs, own: seq<Owner>) {
    && LayoutOk(sb) && |fs.disk| == |own| == sb.size && |fs.inodes| == sb.ninodes
    && forall n: nat :: n < |fs.inodes| ==> |fs.inodes[n].addrs| == 13 && fs.inodes[n].size <= MAXBYTES
  }

  /** The blocks a file names are its own. */
  ghost predicate MapOk(fs: Fs, own: seq<Owner>, n: nat, k: nat) {
    BlockMap(fs, n, k) != 0 ==> BlockMap(fs, n, k) < |own| && own[BlockMap(fs, n, k)] == Data(n, k)
  }

  ghost predicate IndOk(fs: Fs, own: seq<Owner>, n: nat) {
    IndirectOf(fs, n) != 0 ==> IndirectOf(fs, n) < |own| && own[IndirectOf(fs, n)] == Ind(n)
  }

  /** A block is named by its owner, and is metadata just when it lies in the metadata area. */
  ghost predicate OwnOk(sb: Layout, fs: Fs, own: seq<Owner>, b: nat)
    requires b < |own|
  {
    && (own[b] == Meta <==> b < sb.nmeta)
    && (own[b].Data? ==> own[b].n < |fs.inodes| && own[b].k < 268 && BlockMap(fs, own[b].n, own[b].k) == b)
    && (own[b].Ind? ==> own[b].n < |fs.inodes| && IndirectOf(fs, own[b].n) == b)
  }

  ghost predicate MapsOk(sb: Layout, fs: Fs, own: seq<Owner>) {
    && Sizes(sb, fs, own)
    && (forall n: nat, k: nat :: MapOk(fs, own, n, k))
    && (forall n: nat :: IndOk(fs, own, n))
    && (forall b: nat :: b < |own| ==> OwnOk(sb, fs, own, b))
  }

  /** A bit is set exactly when its block has an owner. */
  ghost predicate BitsOk(sb: Layout, disk: seq<Block>, own: seq<Owner>) {
    forall b: nat :: b < |own| && BitmapBlock(sb, b) < |disk| ==> (BitAt(sb, disk, b) <==> own[b] != Free)
  }

  ghost predicate FsOk(sb: Layout, fs: Fs, own: seq<Owner>) { MapsOk(sb, fs, own) && BitsOk(sb, fs.disk, own) }

  ghost predicate SameByte(fs: Fs, fs': Fs, n: nat, p: nat) { ByteAt(fs', n, p) == ByteAt(fs, n, p) }

  /** Every file reads the same. */
  ghost predicate SameFiles(fs: Fs, fs': Fs) { forall n: nat, p: nat :: SameByte(fs, fs', n, p) }

  // ----- the bitmap -----

  function PutBitAt(sb: Layout, disk: seq<Block>, b: nat, on: bool): seq<Block>
    requires BitmapBlock(sb, b) < |disk|
  {
    disk[BitmapBlock(sb, b) := PutBit(disk[BitmapBlock(sb, b)], b % 8192, on)]
  }

  lemma BitPosition(sb: Layout, b: nat, c: nat)
    requires LayoutOk(sb) && b < sb.size && c < sb.size
    ensures sb.bmapstart <= BitmapBlock(sb, b) < sb.nmeta
    ensures BitmapBlock(sb, b) == BitmapBlock(sb, c) && b % 8192 == c % 8192 ==> b == c
  {
  }

  /** Setting or clearing one bit changes that bit only. */
  lemma BitsMove(sb: Layout, disk: seq<Block>, own: seq<Owner>, b: nat, who: Owner)
    requires LayoutOk(sb) && |disk| == |own| == sb.size && BitsOk(sb, disk, own) && b < sb.size
    ensures BitmapBlock(sb, b) < sb.nmeta <= sb.size
    ensures BitsOk(sb, PutBitAt(sb, disk, b, who != Free), own[b := who])
  {
  }

  /** Blocks outside the metadata area do not matter to the bitmap. */
  lemma BitsElsewhere(sb: Layout, disk: seq<Block>, own: seq<Owner>, a: nat, x: Block)
    requires LayoutOk(sb) && |disk| == |own| == sb.size && BitsOk(sb, disk, own) && sb.nmeta <= a < sb.size
    ensures BitsOk(sb, disk[a := x], own)
  {
  }

  // ----- taking a block -----

  /** The disk after balloc: the bit set and the block zeroed. */
  function Alloced(sb: Layout, fs: Fs, b: nat): Fs
    requires BitmapBlock(sb, b) < |fs.disk| && b < |fs.disk|
  {
    fs.(disk := PutBitAt(sb, fs.disk, b, true)[b := Zero()])
  }

  /** A change of blocks that are no file's indirect block moves no file's map. */
  lemma MapsStay(fs: Fs, disk': seq<Block>, n: nat, k: nat)
    requires |disk'| == |fs.disk|
    requires IndirectOf(fs, n) < |fs.disk| && IndirectOf(fs, n) != 0 ==>
               disk'[IndirectOf(fs, n)] == fs.disk[IndirectOf(fs, n)]
    ensures BlockMap(fs.(disk := disk'), n, k) == BlockMap(fs, n, k)
    ensures IndirectOf(fs.(disk := disk'), n) == IndirectOf(fs, n)
  {
  }

  lemma AllocedMaps(sb: Layout, fs: Fs, own: seq<Owner>, b: nat, n: nat, k: nat)
    requires MapsOk(sb, fs, own) && b < |own| && own[b] == Free && BitmapBlock(sb, b) < sb.nmeta
    ensures BlockMap(Alloced(sb, fs, b), n, k) == BlockMap(fs, n, k)
    ensures IndirectOf(Alloced(sb, fs, b), n) == IndirectOf(fs, n)
  {
    assert IndOk(fs, own, n) && OwnOk(sb, fs, own, BitmapBlock(sb, b));
    hide MapsOk;
    MapsStay(fs, Alloced(sb, fs, b).disk, n, k);
  }

  /** File n gets block b as its logical block k. */
  function Attached(fs: Fs, n: nat, k: nat, b: nat): Fs
    requires n < |fs.inodes| && |fs.inodes[n].addrs| == 13 && k < 268 && b < UINT_LIMIT
    requires k >= 12 ==> fs.inodes[n].addrs[12] < |fs.disk|
  {
    var ip := fs.inodes[n];
    if k < 12 then fs.(inodes := fs.inodes[n := ip.(addrs := ip.addrs[k := b])])
    else fs.(disk := fs.disk[ip.addrs[12] := SetWord(fs.disk[ip.addrs[12]], k - 12, b)])
  }

  /** Attaching changes just that entry of the map. */
  lemma AttachedMaps(fs: Fs, own: seq<Owner>, n: nat, k: nat, b: nat, m: nat, j: nat)
    requires n < |fs.inodes| && |fs.inodes[n].addrs| == 13 && k < 268 && b < UINT_LIMIT
    requires k >= 12 ==> 0 != IndirectOf(fs, n) < |fs.disk| && IndOk(fs, own, n) && IndOk(fs, own, m)
    ensures BlockMap(Attached(fs, n, k, b), m, j) == if m == n && j == k then b else BlockMap(fs, m, j)
    ensures IndirectOf(Attached(fs, n, k, b), m) == IndirectOf(fs, m)
  {
  }

  /** What balloc followed by the store of the new address does. */
  function Extended(sb: Layout, fs: Fs, n: nat, k: nat, b: nat): Fs
    requires BitmapBlock(sb, b) < |fs.disk| && b < |fs.disk| && b < UINT_LIMIT
    requires n < |fs.inodes| && |fs.inodes[n].addrs| == 13 && k < 268
    requires (k >= 12 ==> fs.inodes[n].addrs[12] < |fs.disk|)
  {
    Attached(Alloced(sb, fs, b), n, k, b)
  }

  /** File n may get free block b as logical block k. */
  ghost predicate CanExtend(sb: Layout, fs: Fs, own: seq<Owner>, n: nat, k: nat, b: nat) {
    && FsOk(sb, fs, own) && n < |fs.inodes| && k < 268 && b < |own| && own[b] == Free && BitmapBlock(sb, b) < sb.nmeta
    && BlockMap(fs, n, k) == 0 && (k >= 12 ==> IndirectOf(fs, n) != 0)
  }

  lemma ExtendedMaps(sb: Layout, fs: Fs, own: seq<Owner>, n: nat, k: nat, b: nat, m: nat, j: nat)
    requires CanExtend(sb, fs, own, n, k, b)
    ensures IndirectOf(fs, n) < |fs.disk|
    ensures BlockMap(Extended(sb, fs, n, k, b), m, j) == if m == n && j == k then b else BlockMap(fs, m, j)
    ensures IndirectOf(Extended(sb, fs, n, k, b), m) == IndirectOf(fs, m)
  {
    assert IndOk(fs, own, n) && IndOk(fs, own, m);
    AllocedMaps(sb, fs, own, b, m, j);
    AllocedMaps(sb, fs, own, b, n, j);
    hide FsOk, BlockMap, Word, SetWord;
    AttachedMaps(Alloced(sb, fs, b), own, n, k, b, m, j);
  }

  lemma ExtendedOwn(sb: Layout, fs: Fs, own: seq<Owner>, n: nat, k: nat, b: nat)
    requires CanExtend(sb, fs, own, n, k, b)
    ensures IndirectOf(fs, n) < |fs.disk| && MapsOk(sb, Extended(sb, fs, n, k, b), own[b := Data(n, k)])
  {
    ExtendedMaps(sb, fs, own, n, k, b, n, k);
    var fs', own' := Extended(sb, fs, n, k, b), own[b := Data(n, k)];
    assert OwnOk(sb, fs, own, b);
    assert Sizes(sb, fs', own');
    hide Extended, BlockMap, IndirectOf, Sizes;
    forall m: nat, j: nat
      ensures MapOk(fs', own', m, j)
    {
      ExtendedMaps(sb, fs, own, n, k, b, m, j);
      assert MapOk(fs, own, m, j);
    }
    forall m: nat
      ensures IndOk(fs', own', m)
    {
      ExtendedMaps(sb, fs, own, n, k, b, m, 0);
      assert IndOk(fs, own, m);
    }
    forall c: nat | c < |own'|
      ensures OwnOk(sb, fs', own', c)
    {
      assert OwnOk(sb, fs, own, c);
      if own'[c].Data? {
        ExtendedMaps(sb, fs, own, n, k, b, own'[c].n, own'[c].k);
      } else if own'[c].Ind? {
        ExtendedMaps(sb, fs, own, n, k, b, own'[c].n, 0);
      }
    }
  }

  /** Owned blocks lie behind the metadata, which holds the bitmap. */
  lemma Placed(sb: Layout, fs: Fs, own: seq<Owner>, b: nat)
    requires MapsOk(sb, fs, own) && b < sb.size
    ensures own[b] != Meta <==> b >= sb.nmeta
    ensures BitmapBlock(sb, b) < sb.nmeta && own[BitmapBlock(sb, b)] == Meta
  {
    BitPosition(sb, b, b);
    assert OwnOk(sb, fs, own, b) && OwnOk(sb, fs, own, BitmapBlock(sb, b));
  }

  lemma ExtendedBits(sb: Layout, fs: Fs, own: seq<Owner>, n: nat, k: nat, b: nat)
    requires CanExtend(sb, fs, own, n, k, b)
    ensures IndirectOf(fs, n) < |fs.disk| && BitsOk(sb, Extended(sb, fs, n, k, b).disk, own[b := Data(n, k)])
  {
    assert IndOk(fs, own, n);
    Placed(sb, fs, own, b);
    var d1, own' := PutBitAt(sb, fs.disk, b, true), own[b := Data(n, k)];
    BitsMove(sb, fs.disk, own, b, Data(n, k));
    BitsElsewhere(sb, d1, own', b, Zero());
    if k >= 12 {
      Placed(sb, fs, own, IndirectOf(fs, n));
      BitsElsewhere(sb, d1[b := Zero()], own', IndirectOf(fs, n),
        SetWord(d1[b := Zero()][IndirectOf(fs, n)], k - 12, b));
    }
    hide BitsOk, PutBit, SetWord;
  }

  /** A block of a file is not the new block, nor a bitmap block, nor anyone's indirect block. */
  lemma ExtendedByte(sb: Layout, fs: Fs, own: seq<Owner>, n: nat, k: nat, b: nat, m: nat, p: nat)
    requires CanExtend(sb, fs, own, n, k, b)
    ensures IndirectOf(fs, n) < |fs.disk| && SameByte(fs, Extended(sb, fs, n, k, b), m, p)
  {
    ExtendedMaps(sb, fs, own, n, k, b, m, p / 1024);
    assert MapOk(fs, own, m, p / 1024) && IndOk(fs, own, n) && OwnOk(sb, fs, own, b);
    Placed(sb, fs, own, b);
    hide FsOk, BlockMap, PutBit, SetWord;
  }

  /** Giving a file a fresh block keeps the invariant and no file reads differently. */
  lemma ExtendedOk(sb: Layout, fs: Fs, own: seq<Owner>, n: nat, k: nat, b: nat)
    requires CanExtend(sb, fs, own, n, k, b)
    ensures IndirectOf(fs, n) < |fs.disk|
    ensures FsOk(sb, Extended(sb, fs, n, k, b), own[b := Data(n, k)]) && SameFiles(fs, Extended(sb, fs, n, k, b))
  {
    ExtendedOwn(sb, fs, own, n, k, b);
    ExtendedBits(sb, fs, own, n, k, b);
    hide CanExtend, MapsOk, BitsOk, Extended, SameByte;
    forall m: nat, p: nat
      ensures SameByte(fs, Extended(sb, fs, n, k, b), m, p)
    {
      ExtendedByte(sb, fs, own, n, k, b, m, p);
    }
  }

  // ----- taking an indirect block -----

  function WithIndirect(fs: Fs, n: nat, b: nat): Fs
    requires n < |fs.inodes| && |fs.inodes[n].addrs| == 13
  {
    fs.(inodes := fs.inodes[n := fs.inodes[n].(addrs := fs.inodes[n].addrs[12 := b])])
  }

  function Indirected(sb: Layout, fs: Fs, n: nat, b: nat): Fs
    requires BitmapBlock(sb, b) < |fs.disk| && b < |fs.disk| && n < |fs.inodes| && |fs.inodes[n].addrs| == 13
  {
    WithIndirect(Alloced(sb, fs, b), n, b)
  }

  ghost predicate CanIndirect(sb: Layout, fs: Fs, own: seq<Owner>, n: nat, b: nat) {
    && FsOk(sb, fs, own) && n < |fs.inodes| && b < |own| && own[b] == Free && BitmapBlock(sb, b) < sb.nmeta
    && IndirectOf(fs, n) == 0
  }

  lemma IndirectedMaps(sb: Layout, fs: Fs, own: seq<Owner>, n: nat, b: nat, m: nat, j: nat)
    requires CanIndirect(sb, fs, own, n, b)
    ensures BlockMap(Indirected(sb, fs, n, b), m, j) == BlockMap(fs, m, j)
    ensures IndirectOf(Indirected(sb, fs, n, b), m) == if m == n then b else IndirectOf(fs, m)
  {
    AllocedMaps(sb, fs, own, b, m, j);
    if 12 <= j < 268 {
      ZeroWords(j - 12);
    }
    hide FsOk, Word, PutBit;
  }

  lemma IndirectedOwn(sb: Layout, fs: Fs, own: seq<Owner>, n: nat, b: nat)
    requires CanIndirect(sb, fs, own, n, b)
    ensures MapsOk(sb, Indirected(sb, fs, n, b), own[b := Ind(n)])
  {
    var fs', own' := Indirected(sb, fs, n, b), own[b := Ind(n)];
    assert OwnOk(sb, fs, own, b);
    assert Sizes(sb, fs', own');
    hide Indirected, BlockMap, IndirectOf, Sizes;
    forall m: nat, j: nat
      ensures MapOk(fs', own', m, j)
    {
      IndirectedMaps(sb, fs, own, n, b, m, j);
      assert MapOk(fs, own, m, j);
    }
    forall m: nat
      ensures IndOk(fs', own', m)
    {
      IndirectedMaps(sb, fs, own, n, b, m, 0);
      assert IndOk(fs, own, m);
    }
    forall c: nat | c < |own'|
      ensures OwnOk(sb, fs', own', c)
    {
      assert OwnOk(sb, fs, own, c);
      if own'[c].Data? {
        IndirectedMaps(sb, fs, own, n, b, own'[c].n, own'[c].k);
      } else if own'[c].Ind? {
        IndirectedMaps(sb, fs, own, n, b, own'[c].n, 0);
      }
    }
  }

  lemma IndirectedByte(sb: Layout, fs: Fs, own: seq<Owner>, n: nat, b: nat, m: nat, p: nat)
    requires CanIndirect(sb, fs, own, n, b)
    ensures SameByte(fs, Indirected(sb, fs, n, b), m, p)
  {
    IndirectedMaps(sb, fs, own, n, b, m, p / 1024);
    assert MapOk(fs, own, m, p / 1024) && OwnOk(sb, fs, own, b);
    Placed(sb, fs, own, b);
    hide FsOk, BlockMap, PutBit;
  }

  lemma IndirectedOk(sb: Layout, fs: Fs, own: seq<Owner>, n: nat, b: nat)
    requires CanIndirect(sb, fs, own, n, b)
    ensures FsOk(sb, Indirected(sb, fs, n, b), own[b := Ind(n)]) && SameFiles(fs, Indirected(sb, fs, n, b))
  {
    IndirectedOwn(sb, fs, own, n, b);
    Placed(sb, fs, own, b);
    BitsMove(sb, fs.disk, own, b, Ind(n));
    BitsElsewhere(sb, PutBitAt(sb, fs.disk, b, true), own[b := Ind(n)], b, Zero());
    hide CanIndirect, MapsOk, BitsOk, SameByte, PutBit;
    forall m: nat, p: nat
      ensures SameByte(fs, Indirected(sb, fs, n, b), m, p)
    {
      IndirectedByte(sb, fs, own, n, b, m, p);
    }
  }

  // ----- writing a block of a file -----

  /** New contents for logical block k of file n: that block reads as x and nothing else moves. */
  lemma StoredOk(sb: Layout, fs: Fs, own: seq<Owner>, n: nat, k: nat, x: Block)
    requires FsOk(sb, fs, own) && BlockMap(fs, n, k) != 0
    ensures BlockMap(fs, n, k) < |fs.disk|
    ensures var fs' := fs.(disk := fs.disk[BlockMap(fs, n, k) := x]);
            && FsOk(sb, fs', own) && (forall m: nat, j: nat :: BlockMap(fs', m, j) == BlockMap(fs, m, j))
            && (forall m: nat, p: nat ::
                ByteAt(fs', m, p) == if m == n && p / 1024 == k then x.bytes[p % 1024] else ByteAt(fs, m, p))
  {
    assert MapOk(fs, own, n, k);
    var a := BlockMap(fs, n, k);
    var fs' := fs.(disk := fs.disk[a := x]);
    Placed(sb, fs, own, a);
    BitsElsewhere(sb, fs.disk, own, a, x);
    StoredMaps(sb, fs, own, n, k, x);
    hide BlockMap, BitsOk;
    forall m: nat, p: nat
      ensures ByteAt(fs', m, p) == if m == n && p / 1024 == k then x.bytes[p % 1024] else ByteAt(fs, m, p)
    {
      assert BlockMap(fs', m, p / 1024) == BlockMap(fs, m, p / 1024);
      assert MapOk(fs, own, m, p / 1024);
    }
    hide ByteAt;
    StoredOwn(sb, fs, own, fs');
  }

  lemma StoredMaps(sb: Layout, fs: Fs, own: seq<Owner>, n: nat, k: nat, x: Block)
    requires MapsOk(sb, fs, own) && BlockMap(fs, n, k) != 0 && BlockMap(fs, n, k) < |fs.disk|
    ensures var fs' := fs.(disk := fs.disk[BlockMap(fs, n, k) := x]);
            && (forall m: nat, j: nat :: BlockMap(fs', m, j) == BlockMap(fs, m, j))
            && (forall m: nat :: IndirectOf(fs', m) == IndirectOf(fs, m))
  {
    assert MapOk(fs, own, n, k);
    var disk' := fs.disk[BlockMap(fs, n, k) := x];
    forall m: nat, j: nat
      ensures BlockMap(fs.(disk := disk'), m, j) == BlockMap(fs, m, j)
    {
      assert IndOk(fs, own, m);
      MapsStay(fs, disk', m, j);
    }
  }

  /** With the maps as they were, ownership is as it was. */
  lemma StoredOwn(sb: Layout, fs: Fs, own: seq<Owner>, fs': Fs)
    requires MapsOk(sb, fs, own) && Sizes(sb, fs', own)
    requires forall m: nat, j: nat :: BlockMap(fs', m, j) == BlockMap(fs, m, j)
    requires forall m: nat :: IndirectOf(fs', m) == IndirectOf(fs, m)
    ensures MapsOk(sb, fs', own)
  {
    hide BlockMap, IndirectOf;
    forall m: nat, j: nat
      ensures MapOk(fs', own, m, j)
    {
      assert MapOk(fs, own, m, j);
    }
    forall m: nat
      ensures IndOk(fs', own, m)
    {
      assert IndOk(fs, own, m);
    }
    forall c: nat | c < |own|
      ensures OwnOk(sb, fs', own, c)
    {
      assert OwnOk(sb, fs, own, c);
    }
  }

  // ----- giving blocks back -----

  /** Bytes of all files but n read the same. */
  ghost predicate OthersSame(fs: Fs, fs': Fs, n: nat) { forall m: nat, p: nat :: m != n ==> SameByte(fs, fs', m, p) }

  /** bfree of block b followed by clearing its entry in the map. */
  function Detached(sb: Layout, fs: Fs, n: nat, k: nat, b: nat): Fs
    requires BitmapBlock(sb, b) < |fs.disk|
    requires n < |fs.inodes| && |fs.inodes[n].addrs| == 13 && k < 268
    requires (k >= 12 ==> fs.inodes[n].addrs[12] < |fs.disk|)
  {
    Attached(fs.(disk := PutBitAt(sb, fs.disk, b, false)), n, k, 0)
  }

  ghost predicate CanDetach(sb: Layout, fs: Fs, own: seq<Owner>, n: nat, k: nat) {
    && FsOk(sb, fs, own) && n < |fs.inodes| && k < 268 && BlockMap(fs, n, k) != 0
    && BlockMap(fs, n, k) < sb.size && BitmapBlock(sb, BlockMap(fs, n, k)) < sb.nmeta && IndirectOf(fs, n) < sb.size
  }

  lemma DetachedMaps(sb: Layout, fs: Fs, own: seq<Owner>, n: nat, k: nat, m: nat, j: nat)
    requires CanDetach(sb, fs, own, n, k)
    ensures var fs' := Detached(sb, fs, n, k, BlockMap(fs, n, k));
            && BlockMap(fs', m, j) == (if m == n && j == k then 0 else BlockMap(fs, m, j))
            && IndirectOf(fs', m) == IndirectOf(fs, m)
  {
    var b := BlockMap(fs, n, k);
    assert IndOk(fs, own, n) && IndOk(fs, own, m);
    Placed(sb, fs, own, b);
    var d := PutBitAt(sb, fs.disk, b, false);
    MapsStay(fs, d, m, j);
    MapsStay(fs, d, n, j);
    assert k >= 12 ==> IndirectOf(fs, n) != 0;
    hide FsOk, BlockMap, Word, SetWord;
    AttachedMaps(fs.(disk := d), own, n, k, 0, m, j);
  }

  lemma DetachedOwn(sb: Layout, fs: Fs, own: seq<Owner>, n: nat, k: nat)
    requires CanDetach(sb, fs, own, n, k)
    ensures MapsOk(sb, Detached(sb, fs, n, k, BlockMap(fs, n, k)), own[BlockMap(fs, n, k) := Free])
  {
    var b := BlockMap(fs, n, k);
    var fs', own' := Detached(sb, fs, n, k, b), own[b := Free];
    assert MapOk(fs, own, n, k) && OwnOk(sb, fs, own, b);
    assert Sizes(sb, fs', own');
    hide Detached, BlockMap, IndirectOf, Sizes;
    forall m: nat, j: nat
      ensures MapOk(fs', own', m, j)
    {
      DetachedMaps(sb, fs, own, n, k, m, j);
      assert MapOk(fs, own, m, j);
    }
    forall m: nat
      ensures IndOk(fs', own', m)
    {
      DetachedMaps(sb, fs, own, n, k, m, 0);
      assert IndOk(fs, own, m);
    }
    forall c: nat | c < |own'|
      ensures OwnOk(sb, fs', own', c)
    {
      assert OwnOk(sb, fs, own, c);
      if own'[c].Data? {
        DetachedMaps(sb, fs, own, n, k, own'[c].n, own'[c].k);
      } else if own'[c].Ind? {
        DetachedMaps(sb, fs, own, n, k, own'[c].n, 0);
      }
    }
  }

  lemma DetachedBits(sb: Layout, fs: Fs, own: seq<Owner>, n: nat, k: nat)
    requires CanDetach(sb, fs, own, n, k)
    ensures BitAt(sb, fs.disk, BlockMap(fs, n, k))
    ensures BitsOk(sb, Detached(sb, fs, n, k, BlockMap(fs, n, k)).disk, own[BlockMap(fs, n, k) := Free])
  {
    var b := BlockMap(fs, n, k);
    assert MapOk(fs, own, n, k) && IndOk(fs, own, n);
    var d1 := PutBitAt(sb, fs.disk, b, false);
    BitsMove(sb, fs.disk, own, b, Free);
    if k >= 12 {
      Placed(sb, fs, own, IndirectOf(fs, n));
      BitsElsewhere(sb, d1, own[b := Free], IndirectOf(fs, n), SetWord(d1[IndirectOf(fs, n)], k - 12, 0));
    }
    hide BlockMap, PutBit, SetWord, MapsOk;
  }

  lemma DetachedByte(sb: Layout, fs: Fs, own: seq<Owner>, n: nat, k: nat, m: nat, p: nat)
    requires CanDetach(sb, fs, own, n, k) && m != n
    ensures SameByte(fs, Detached(sb, fs, n, k, BlockMap(fs, n, k)), m, p)
  {
    DetachedMaps(sb, fs, own, n, k, m, p / 1024);
    assert MapOk(fs, own, m, p / 1024) && IndOk(fs, own, n);
    Placed(sb, fs, own, BlockMap(fs, n, k));
    hide FsOk, BlockMap, PutBit, SetWord;
  }

  /** Freeing a file's block: its bit was set, and the rest of the disk and the other files stay. */
  lemma DetachedOk(sb: Layout, fs: Fs, own: seq<Owner>, n: nat, k: nat)
    requires FsOk(sb, fs, own) && n < |fs.inodes| && k < 268 && BlockMap(fs, n, k) != 0
    ensures CanDetach(sb, fs, own, n, k) && BitAt(sb, fs.disk, BlockMap(fs, n, k))
    ensures own[BlockMap(fs, n, k)] == Data(n, k)
    ensures var fs' := Detached(sb, fs, n, k, BlockMap(fs, n, k));
            FsOk(sb, fs', own[BlockMap(fs, n, k) := Free]) && OthersSame(fs, fs', n)
  {
    assert MapOk(fs, own, n, k) && IndOk(fs, own, n);
    Placed(sb, fs, own, BlockMap(fs, n, k));
    DetachedOwn(sb, fs, own, n, k);
    DetachedBits(sb, fs, own, n, k);
    hide MapsOk, BitsOk, Detached, SameByte, BlockMap;
    forall m: nat, p: nat | m != n
      ensures SameByte(fs, Detached(sb, fs, n, k, BlockMap(fs, n, k)), m, p)
    {
      DetachedByte(sb, fs, own, n, k, m, p);
    }
  }

  /** Freeing an indirect block that names nothing any more. */
  function IndFreed(sb: Layout, fs: Fs, n: nat): Fs
    requires n < |fs.inodes| && |fs.inodes[n].addrs| == 13 && BitmapBlock(sb, fs.inodes[n].addrs[12]) < |fs.disk|
  {
    WithIndirect(fs.(disk := PutBitAt(sb, fs.disk, fs.inodes[n].addrs[12], false)), n, 0)
  }

  ghost predicate CanIndFree(sb: Layout, fs: Fs, own: seq<Owner>, n: nat) {
    && FsOk(sb, fs, own) && n < |fs.inodes| && 0 != IndirectOf(fs, n) < sb.size
    && BitmapBlock(sb, IndirectOf(fs, n)) < sb.nmeta
    && forall k: nat :: 12 <= k < 268 ==> BlockMap(fs, n, k) == 0
  }

  lemma IndFreedMaps(sb: Layout, fs: Fs, own: seq<Owner>, n: nat, m: nat, j: nat)
    requires CanIndFree(sb, fs, own, n)
    ensures BlockMap(IndFreed(sb, fs, n), m, j) == BlockMap(fs, m, j)
    ensures IndirectOf(IndFreed(sb, fs, n), m) == if m == n then 0 else IndirectOf(fs, m)
  {
    assert IndOk(fs, own, m);
    Placed(sb, fs, own, IndirectOf(fs, n));
    MapsStay(fs, PutBitAt(sb, fs.disk, IndirectOf(fs, n), false), m, j);
    assert m == n && 12 <= j < 268 ==> BlockMap(fs, n, j) == 0;
    hide FsOk, Word, PutBit;
  }

  lemma IndFreedOwn(sb: Layout, fs: Fs, own: seq<Owner>, n: nat)
    requires CanIndFree(sb, fs, own, n)
    ensures MapsOk(sb, IndFreed(sb, fs, n), own[IndirectOf(fs, n) := Free])
  {
    var b := IndirectOf(fs, n);
    var fs', own' := IndFreed(sb, fs, n), own[b := Free];
    assert IndOk(fs, own, n) && OwnOk(sb, fs, own, b);
    assert Sizes(sb, fs', own');
    hide IndFreed, BlockMap, IndirectOf, Sizes;
    forall m: nat, j: nat
      ensures MapOk(fs', own', m, j)
    {
      IndFreedMaps(sb, fs, own, n, m, j);
      assert MapOk(fs, own, m, j);
    }
    forall m: nat
      ensures IndOk(fs', own', m)
    {
      IndFreedMaps(sb, fs, own, n, m, 0);
      assert IndOk(fs, own, m);
    }
    forall c: nat | c < |own'|
      ensures OwnOk(sb, fs', own', c)
    {
      assert OwnOk(sb, fs, own, c);
      if own'[c].Data? {
        IndFreedMaps(sb, fs, own, n, own'[c].n, own'[c].k);
      } else if own'[c].Ind? {
        IndFreedMaps(sb, fs, own, n, own'[c].n, 0);
      }
    }
  }

  lemma IndFreedOk(sb: Layout, fs: Fs, own: seq<Owner>, n: nat)
    requires FsOk(sb, fs, own) && n < |fs.inodes| && IndirectOf(fs, n) != 0
    requires forall k: nat :: 12 <= k < 268 ==> BlockMap(fs, n, k) == 0
    ensures CanIndFree(sb, fs, own, n) && BitAt(sb, fs.disk, IndirectOf(fs, n)) && own[IndirectOf(fs, n)] == Ind(n)
    ensures FsOk(sb, IndFreed(sb, fs, n), own[IndirectOf(fs, n) := Free]) && SameFiles(fs, IndFreed(sb, fs, n))
  {
    var b := IndirectOf(fs, n);
    assert IndOk(fs, own, n);
    Placed(sb, fs, own, b);
    IndFreedOwn(sb, fs, own, n);
    BitsMove(sb, fs.disk, own, b, Free);
    hide BitsOk, BlockMap, PutBit;
    forall m: nat, p: nat
      ensures SameByte(fs, IndFreed(sb, fs, n), m, p)
    {
      IndFreedMaps(sb, fs, own, n, m, p / 1024);
      assert MapOk(fs, own, m, p / 1024);
    }
  }

  /** What a free block holds does not matter. */
  lemma FreeContent(sb: Layout, fs: Fs, own: seq<Owner>, b: nat, x: Block)
    requires FsOk(sb, fs, own) && b < |own| && own[b] == Free
    ensures FsOk(sb, fs.(disk := fs.disk[b := x]), own) && SameFiles(fs, fs.(disk := fs.disk[b := x]))
  {
    var fs' := fs.(disk := fs.disk[b := x]);
    Placed(sb, fs, own, b);
    BitsElsewhere(sb, fs.disk, own, b, x);
    forall m: nat, j: nat
      ensures BlockMap(fs', m, j) == BlockMap(fs, m, j)
    {
      assert IndOk(fs, own, m);
      MapsStay(fs, fs'.disk, m, j);
    }
    forall m: nat
      ensures IndirectOf(fs', m) == IndirectOf(fs, m)
    {
    }
    hide BlockMap, IndirectOf, BitsOk;
    StoredOwn(sb, fs, own, fs');
    forall m: nat, p: nat
      ensures SameByte(fs, fs', m, p)
    {
      assert MapOk(fs, own, m, p / 1024);
    }
  }
}
