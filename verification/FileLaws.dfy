/** What the file operations mean to their callers, byte by byte, and where the bytes lie on the disk. */
module FileLaws {
  import opened Blocks
  import opened FileBlocks
  import opened FileSystem

  // ----- reads and writes -----

  /** Every block has an owner. */
  ghost predicate Full(own: seq<Owner>) { Free !in own }

  /** Some block of the file's first len bytes is missing. */
  ghost predicate Sparse(fs: Fs, n: nat, len: nat) { exists k: nat :: 1024 * k < len && BlockMap(fs, n, k) == 0 }

  lemma FullIs(own: seq<Owner>)
    ensures NoneFree(own) <==> Full(own)
  {
  }

  /** The bytes a read asks for: from off up to cnt of them or the end of the file. */
  function Wanted(file: seq<Byte>, off: nat, cnt: nat): seq<Byte> {
    if off > |file| || off + cnt >= 0x1_0000_0000 then []
    else if off + cnt <= |file| then file[off..off + cnt]
    else file[off..]
  }

  /** A read gives the bytes asked for and changes no file.  It stops short only at a hole, with no block free. */
  lemma ReadGets(st: (Fs, seq<Owner>), n: nat, off: Uint, cnt: Uint, trans: bool, r: int, data: seq<Byte>,
                 st': (Fs, seq<Owner>))
    requires n < |st.0.inodes| && Ran(st, Read(n, off, cnt, trans), r, data, st')
    ensures Contents(st'.0) == Contents(st.0) && |Contents(st.0)| == |st.0.inodes| && r == |data|
    ensures data <= Wanted(Contents(st.0)[n], off, cnt)
    ensures data < Wanted(Contents(st.0)[n], off, cnt) ==> Full(st'.1) && Sparse(st.0, n, off + |data| + 1)
  {
    hide BlockMap, NoneFree, Content;
    ContentsSize(st.0);
    FullIs(st'.1);
    var size, want := st.0.inodes[n].size, Wanted(Contents(st.0)[n], off, cnt);
    assert |want| == ReadLen(size, off, cnt);
    if r < |want| {
      assert BlockMap(st.0, n, (off + r) / 1024) == 0 && 1024 * ((off + r) / 1024) < off + r + 1;
    }
  }

  /** Byte p of a file, after s has been written at off. */
  function ByteAfter(file: seq<Byte>, off: nat, s: seq<Byte>, p: nat): int {
    if off <= p < off + |s| then s[p - off] else if p < |file| then file[p] else 0
  }

  /** A write replaces the bytes from off on, extends the file as far as it goes, and touches no other file.  It
      is refused beyond the end and beyond the largest file, and cut short only by a full disk. */
  lemma WriteSets(st: (Fs, seq<Owner>), n: nat, src: seq<Byte>, off: Uint, r: int, data: seq<Byte>,
                  st': (Fs, seq<Owner>), m: nat)
    requires n < |st.0.inodes| && m < |st.0.inodes| && Ran(st, Write(n, src, off), r, data, st')
    ensures |Contents(st.0)| == |Contents(st'.0)| == |st.0.inodes|
    ensures r == -1 <==> off > |Contents(st.0)[n]| || off + |src| > 268 * 1024
    ensures r == -1 || m != n ==> Contents(st'.0)[m] == Contents(st.0)[m]
    ensures r != -1 ==> 0 <= r <= |src| && (r < |src| ==> Full(st'.1))
    ensures r != -1 ==>
              var was, now := Contents(st.0)[n], Contents(st'.0)[n];
              && |now| == (if off + r > |was| then off + r else |was|)
              && forall p: nat :: p < |now| ==> now[p] == ByteAfter(was, off, src[..r], p)
  {
    hide BlockMap, NoneFree, Content;
    ContentsSize(st.0);
    FullIs(st'.1);
  }

  /** What a write put in place, a read of the same range gets back. */
  lemma ReadBack(st: (Fs, seq<Owner>), n: nat, src: seq<Byte>, off: Uint, r: int, st': (Fs, seq<Owner>),
                 trans: bool, data: seq<Byte>, st'': (Fs, seq<Owner>))
    requires n < |st.0.inodes| == |st'.0.inodes| && 0 <= r < UINT_LIMIT && Ran(st, Write(n, src, off), r, [], st')
    requires Ran(st', Read(n, off, r, trans), |data|, data, st'')
    ensures r <= |src| && data <= src[..r]
    ensures data < src[..r] ==> Full(st''.1) && Sparse(st'.0, n, off + r)
  {
    hide Ran, Contents, Full;
    WriteSets(st, n, src, off, r, [], st', n);
    ReadGets(st', n, off, r, trans, |data|, data, st'');
    assert Contents(st'.0)[n][off..off + r] == src[..r];
  }

  /** A read panics exactly when it is made outside a transaction, with some block free, and some block of what it
      would read missing. */
  lemma FatalIs(fs: Fs, own: seq<Owner>, n: nat, off: Uint, cnt: Uint, trans: bool)
    requires n < |fs.inodes|
    ensures Fatal(fs, own, Read(n, off, cnt, trans)) <==>
            && !trans && !Full(own)
            && exists k: nat :: BlockMap(fs, n, k) == 0 && MeetsRead(fs.inodes[n].size, off, cnt, k)
  {
    hide BlockMap, NoneFree;
    FullIs(own);
    var size := fs.inodes[n].size;
    var len := ReadLen(size, off, cnt);
    forall k: nat
      ensures MeetsRead(size, off, cnt, k) <==> len > 0 && off / 1024 <= k && 1024 * k < off + len
    {
      MeetsAt(size, off, cnt, k);
    }
  }

  lemma MeetsAt(size: nat, off: Uint, cnt: Uint, k: nat)
    ensures var len := ReadLen(size, off, cnt);
            MeetsRead(size, off, cnt, k) <==> len > 0 && off / 1024 <= k && 1024 * k < off + len
  {
    var len := ReadLen(size, off, cnt);
    if len > 0 && off / 1024 <= k && 1024 * k < off + len {
      var p := if off > 1024 * k then off else 1024 * k;
      assert off <= p < off + cnt && p < size && p / 1024 == k;
    }
  }

  /** Block k has a byte that a read of cnt bytes at off returns. */
  ghost predicate MeetsRead(size: nat, off: nat, cnt: nat, k: nat) {
    off + cnt < 0x1_0000_0000 && exists p: nat :: off <= p < off + cnt && p < size && p / 1024 == k
  }

  /** A truncated file is empty and the others are as they were. */
  lemma TruncateEmpties(st: (Fs, seq<Owner>), n: nat, r: int, data: seq<Byte>, st': (Fs, seq<Owner>), m: nat)
    requires n < |st.0.inodes| && m < |st.0.inodes| && Ran(st, Truncate(n), r, data, st')
    ensures |Contents(st.0)| == |Contents(st'.0)| == |st.0.inodes| && r == 0
    ensures Contents(st'.0)[m] == if m == n then [] else Contents(st.0)[m]
  {
    hide Content;
    ContentsSize(st.0);
  }

  /** filewrite's chunks are three blocks long. */
  lemma ChunkSize()
    ensures MAXCHUNK == 3 * 1024
  {
  }

  // ----- on the disk -----

  /** Byte i of disk block a, or 0 if there is no such block. */
  function DiskByte(disk: seq<Block>, a: int, i: nat): int {
    if 0 < a < |disk| && i < 1024 then disk[a].bytes[i] else 0
  }

  /** Byte p of a file lies in block p / 1024 of it: one of the twelve the inode names, or one of the 256 named in
      the block the inode names last. */
  lemma OnDisk(sb: Layout, fs: Fs, own: seq<Owner>, n: nat, p: nat)
    requires FsOk(sb, fs, own) && n < |fs.inodes| && p < fs.inodes[n].size
    ensures |fs.inodes[n].addrs| == 13 && p < 268 * 1024
    ensures var at, ib := fs.inodes[n].addrs, fs.inodes[n].addrs[12];
            Content(fs, n)[p] ==
              if p < 12 * 1024 then DiskByte(fs.disk, at[p / 1024], p % 1024)
              else if ib == 0 then 0
              else if ib >= |fs.disk| then 0
              else
                var i := 4 * (p / 1024 - 12);
                DiskByte(fs.disk, LittleEndian(fs.disk[ib].bytes[i..i + 4]), p % 1024)
  {
    SizesOf(sb, fs, own);
    var k, ib := p / 1024, fs.inodes[n].addrs[12];
    if k >= 12 && ib != 0 && ib < |fs.disk| {
      var i := 4 * (k - 12);
      var s := fs.disk[ib].bytes[i..i + 4];
      assert LittleEndian(s) == Word(fs.disk[ib], k - 12);
    }
  }

  const MASKS: seq<nat> := [1, 2, 4, 8, 16, 32, 64, 128]

  lemma {:induction false} BitIs(v: nat, k: nat)
    requires k < 8
    ensures NatBit(v, k) <==> v / MASKS[k] % 2 == 1
  {
    if k > 0 {
      BitIs(v / 2, k - 1);
      assert v / 2 / MASKS[k - 1] == v / MASKS[k];
    }
  }

  lemma BitPlace(b: nat)
    ensures b % 8192 / 8 < 1024 && b % 8192 % 8 == b % 8
  {
    var q, r := b / 8192, b % 8192;
    assert b == 8 * (1024 * q) + r;
  }

  /** A block is in use exactly when its bit, eight to a byte from the bitmap's first block on, is 1. */
  lemma FreeBits(sb: Layout, fs: Fs, own: seq<Owner>, b: nat)
    requires FsOk(sb, fs, own) && b < sb.size
    ensures |fs.disk| == |own| == sb.size && sb.bmapstart + b / 8192 < |fs.disk| && b % 8192 / 8 < 1024
    ensures own[b] == Free <==> fs.disk[sb.bmapstart + b / 8192].bytes[b % 8192 / 8] / MASKS[b % 8] % 2 == 0
  {
    hide FsOk, NatBit;
    BitPlace(b);
    BitTells(sb, fs, own, b);
    SizesOf(sb, fs, own);
    BitIs(fs.disk[sb.bmapstart + b / 8192].bytes[b % 8192 / 8], b % 8);
  }
}
