/** Files that survive a crash: kernel/fs.c on top of kernel/log.c.  Every change to a file is a transaction
    whose blocks, among them the block that holds the inode, go through the log, and a crash at any single
    block write leaves a disk from which the file system is mounted as it was before or after it. */
module Journal {
  import opened Blocks
  import opened FileBlocks
  import opened FileSystem
  import D = DiskLog
  import L = LogSystem
  import R = LogRuns
  import K = Mkfs

  // ----- inodes on disk -----

  /** The word of an inode block that holds the size of inode n; its addresses follow. */
  function Slot(n: nat): (i: nat)
    ensures i + 14 <= WORDS
  {
    16 * (n % 16) + 2
  }

  /** Inode n in the block that holds it, as ilock reads it. */
  function InodeIn(b: Block, n: nat): Inode {
    Inode(Word(b, Slot(n)), seq(13, k requires 0 <= k < 13 => AddrIn(b, n, k)))
  }

  function AddrIn(b: Block, n: nat, k: nat): nat
    requires k < 13
  {
    Word(b, Slot(n) + 1 + k)
  }

  function SetWords(b: Block, i: nat, ws: seq<Uint>): (r: Block)
    requires i + |ws| <= WORDS
    ensures forall j: nat :: j < |ws| ==> Word(r, i + j) == ws[j]
    ensures forall j: nat :: j < WORDS && !(i <= j < i + |ws|) ==> Word(r, j) == Word(b, j)
  {
    if ws == [] then b
    else
      var m := |ws| - 1;
      SetWord(SetWords(b, i, ws[..m]), i + m, ws[m])
  }

  ghost predicate Storable(ip: Inode) {
    |ip.addrs| == 13 && ip.size < UINT_LIMIT && forall k: nat :: k < 13 ==> ip.addrs[k] < UINT_LIMIT
  }

  /** iupdate on the block that holds inode n. */
  function SetInode(b: Block, n: nat, ip: Inode): Block
    requires Storable(ip)
  {
    SetWords(b, Slot(n), [ip.size] + ip.addrs)
  }

  /** The inode reads back, and its neighbours in the block are untouched. */
  lemma InodePut(b: Block, n: nat, ip: Inode, m: nat)
    requires Storable(ip)
    ensures InodeIn(SetInode(b, n, ip), m) == if m % 16 == n % 16 then ip else InodeIn(b, m)
  {
    hide Word, SetWords;
    var r := SetInode(b, n, ip);
    var ws: seq<Uint> := [ip.size] + ip.addrs;
    if m % 16 == n % 16 {
      assert Word(r, Slot(n) + 0) == ws[0];
      forall k: nat | k < 13
        ensures Word(r, Slot(n) + 1 + k) == ip.addrs[k]
      {
        assert Word(r, Slot(n) + (k + 1)) == ws[k + 1];
      }
      assert InodeIn(r, m).addrs == ip.addrs;
    } else {
      assert InodeIn(r, m).addrs == InodeIn(b, m).addrs;
    }
  }

  lemma InodesPlaced(sb: Layout, n: nat)
    requires LayoutOk(sb) && n < sb.ninodes
    ensures sb.inodestart <= InodeBlock(sb, n) < sb.bmapstart < sb.size
  {
  }

  /** The file system on a disk. */
  function Load(sb: Layout, d: D.Disk): Fs
    requires LayoutOk(sb) && |d| == sb.size
  {
    Fs(d, seq(sb.ninodes, n requires 0 <= n < sb.ninodes => InodesPlaced(sb, n); InodeIn(d[InodeBlock(sb, n)], n)))
  }

  /** Inode n on disk: 64 bytes, of which bytes 8 to 11 are its size and the thirteen words from byte 12 on its
      addresses. */
  lemma InodeBytes(sb: Layout, d: D.Disk, n: nat, k: nat)
    requires LayoutOk(sb) && |d| == sb.size && n < sb.ninodes && k < 13
    ensures sb.inodestart + n / 16 < |d|
    ensures var x, at, ip := d[sb.inodestart + n / 16].bytes, 64 * (n % 16), Load(sb, d).inodes[n];
            && ip.size == LittleEndian(x[at + 8..at + 12]) && |ip.addrs| == 13
            && ip.addrs[k] == LittleEndian(x[at + 12 + 4 * k..at + 16 + 4 * k])
  {
    InodesPlaced(sb, n);
  }

  /** The disk d holds what fs holds in memory: the bitmap, the blocks of the files and the inodes. */
  ghost predicate On(sb: Layout, fs: Fs, d: D.Disk) {
    && LayoutOk(sb) && |d| == |fs.disk| == sb.size && |fs.inodes| == sb.ninodes
    && (forall b: nat :: sb.bmapstart <= b < sb.size ==> d[b] == fs.disk[b])
    && (forall n: nat :: n < sb.ninodes ==> Load(sb, d).inodes[n] == fs.inodes[n])
  }

  /** Only the inodes and the blocks behind them matter. */
  lemma LoadOk(sb: Layout, fs: Fs, own: seq<Owner>, d: D.Disk)
    requires FsOk(sb, fs, own) && On(sb, fs, d)
    ensures FsOk(sb, Load(sb, d), own) && Contents(Load(sb, d)) == Contents(fs)
  {
    var fs' := fs.(disk := d);
    assert Load(sb, d).inodes == fs.inodes;
    SizesOf(sb, fs, own);
    hide Load, BlockMap, IndirectOf, Word;
    forall n: nat, k: nat
      ensures BlockMap(fs', n, k) == BlockMap(fs, n, k) && IndirectOf(fs', n) == IndirectOf(fs, n)
    {
      SameMap(sb, fs, own, d, n, k);
    }
    StoredOwn(sb, fs, own, fs');
    SameBits(sb, fs.disk, d, own);
    forall n: nat, p: nat
      ensures SameByte(fs, fs', n, p)
    {
      SameMap(sb, fs, own, d, n, p / 1024);
    }
    SameContents(fs, fs');
  }

  lemma SameMap(sb: Layout, fs: Fs, own: seq<Owner>, d: D.Disk, n: nat, k: nat)
    requires FsOk(sb, fs, own) && On(sb, fs, d)
    ensures BlockMap(fs.(disk := d), n, k) == BlockMap(fs, n, k)
    ensures IndirectOf(fs.(disk := d), n) == IndirectOf(fs, n)
    ensures var a := BlockMap(fs, n, k); a != 0 ==> a < |d| && d[a] == fs.disk[a]
  {
    assert MapOk(fs, own, n, k) && IndOk(fs, own, n);
    if IndirectOf(fs, n) != 0 {
      Placed(sb, fs, own, IndirectOf(fs, n));
    }
    if BlockMap(fs, n, k) != 0 {
      Placed(sb, fs, own, BlockMap(fs, n, k));
    }
    hide FsOk, Load, BlockMap;
    MapsStay(fs, d, n, k);
  }

  lemma SameBits(sb: Layout, disk: seq<Block>, d: seq<Block>, own: seq<Owner>)
    requires LayoutOk(sb) && |disk| == |d| == |own| == sb.size && BitsOk(sb, disk, own)
    requires forall b: nat :: sb.bmapstart <= b < sb.size ==> d[b] == disk[b]
    ensures BitsOk(sb, d, own)
  {
    hide Bit;
  }

  lemma LoadOn(sb: Layout, d: D.Disk)
    requires LayoutOk(sb) && |d| == sb.size
    ensures On(sb, Load(sb, d), d)
  {
  }

  /** The log may hold anything. */
  lemma OnSame(sb: Layout, start: nat, fs: Fs, d: D.Disk, e: D.Disk)
    requires On(sb, fs, d) && D.SameData(start, d, e) && start + D.LOGBLOCKS < sb.inodestart
    ensures On(sb, fs, e)
  {
    forall n: nat | n < sb.ninodes
      ensures Load(sb, e).inodes[n] == fs.inodes[n]
    {
      InodesPlaced(sb, n);
      assert d[InodeBlock(sb, n)] == e[InodeBlock(sb, n)];
      assert Load(sb, d).inodes[n] == fs.inodes[n];
    }
  }

  // ----- a transaction's blocks -----

  /** What the transaction on file n that ended in fs makes of block b of the disk d. */
  function Image(sb: Layout, fs: Fs, n: nat, d: D.Disk, b: nat): Block
    requires b < |d| == |fs.disk| && n < |fs.inodes| && Storable(fs.inodes[n])
  {
    if b == InodeBlock(sb, n) then SetInode(d[b], n, fs.inodes[n]) else fs.disk[b]
  }

  /** The disk d' is d with these blocks as the transaction leaves them. */
  ghost predicate Landed(sb: Layout, fs: Fs, n: nat, d: D.Disk, done: set<nat>, d': D.Disk) {
    && |d'| == |d| == |fs.disk| && n < |fs.inodes| && Storable(fs.inodes[n])
    && forall b: nat :: b < |d| ==> d'[b] == if b in done then Image(sb, fs, n, d, b) else d[b]
  }

  lemma LandedNone(sb: Layout, fs: Fs, n: nat, d: D.Disk)
    requires |d| == |fs.disk| && n < |fs.inodes| && Storable(fs.inodes[n])
    ensures Landed(sb, fs, n, d, {}, d)
  {
  }

  lemma LandedMore(sb: Layout, fs: Fs, n: nat, d: D.Disk, done: set<nat>, d': D.Disk, b: nat, x: Block)
    requires Landed(sb, fs, n, d, done, d') && b < |d| && x == Image(sb, fs, n, d, b)
    ensures Landed(sb, fs, n, d, done + {b}, D.Put(d', D.Write(b, x)))
  {
    hide Image;
  }

  lemma InodesStorable(sb: Layout, fs: Fs, own: seq<Owner>, n: nat)
    requires FsOk(sb, fs, own) && n < |fs.inodes|
    ensures Storable(fs.inodes[n])
  {
    forall k: nat | k < 13
      ensures fs.inodes[n].addrs[k] < UINT_LIMIT
    {
      assert MapOk(fs, own, n, k) && IndOk(fs, own, n);
    }
  }

  /** With all its blocks on disk, a transaction is. */
  lemma Flushed(sb: Layout, fs: Fs, fs': Fs, own': seq<Owner>, n: nat, writes: set<nat>, d: D.Disk, d': D.Disk)
    requires On(sb, fs, d) && FsOk(sb, fs', own') && n < |fs'.inodes| && Logs(sb, fs, fs', n, {}, writes)
    requires InodeBlock(sb, n) in writes && Landed(sb, fs', n, d, writes, d')
    ensures On(sb, fs', d')
  {
    InodesPlaced(sb, n);
    hide FsOk, InodeIn, SetInode;
    forall m: nat | m < sb.ninodes
      ensures Load(sb, d').inodes[m] == fs'.inodes[m]
    {
      InodesPlaced(sb, m);
      var ib := InodeBlock(sb, m);
      InodePut(d[ib], n, fs'.inodes[n], m);
      assert Load(sb, d).inodes[m] == fs.inodes[m];
      SameBlock(m, n);
    }
  }

  lemma SameBlock(m: nat, n: nat)
    ensures m / 16 == n / 16 && m % 16 == n % 16 ==> m == n
  {
  }

  // ----- reads inside a transaction -----

  /** Some volume is on the disk: its bitmap and its files agree. */
  ghost predicate Consistent(sb: Layout, d: D.Disk) {
    LayoutOk(sb) && |d| == sb.size && exists own: seq<Owner> :: FsOk(sb, Load(sb, d), own)
  }

  /** The inode in memory names b, so b has an owner and its bit is set. */
  lemma NamedBy(sb: Layout, fs: Fs, own: seq<Owner>, n: nat, k: nat)
    requires FsOk(sb, fs, own) && n < |fs.inodes| && k < 13 && |fs.inodes[n].addrs| == 13 && fs.inodes[n].addrs[k] != 0
    ensures var b := fs.inodes[n].addrs[k];
            && sb.nmeta <= b < sb.size == |own| && own[b] == (if k < 12 then Data(n, k) else Ind(n))
            && BitmapBlock(sb, b) < sb.nmeta <= |fs.disk| && BitAt(sb, fs.disk, b)
  {
    assert MapOk(fs, own, n, k) && IndOk(fs, own, n);
    Placed(sb, fs, own, fs.inodes[n].addrs[k]);
    BitTells(sb, fs, own, fs.inodes[n].addrs[k]);
  }

  /** On a disk with that bit set somebody else would have to name b. */
  lemma SomebodyNames(sb: Layout, l: Fs, own: seq<Owner>, b: nat)
    requires FsOk(sb, l, own) && sb.nmeta <= b < sb.size && BitmapBlock(sb, b) < |l.disk| && BitAt(sb, l.disk, b)
    ensures b < |own| && (own[b].Data? || own[b].Ind?)
    ensures own[b].Data? ==> own[b].n < |l.inodes| && own[b].k < 268 && BlockMap(l, own[b].n, own[b].k) == b
    ensures own[b].Ind? ==> own[b].n < |l.inodes| && IndirectOf(l, own[b].n) == b
  {
    BitTells(sb, l, own, b);
    Placed(sb, l, own, b);
    assert OwnOk(sb, l, own, b);
  }

  /** What a file's map names on the disk, it names in memory. */
  lemma StillNamed(sb: Layout, fs: Fs, fs': Fs, own': seq<Owner>, l: Fs, m: nat, j: nat)
    requires FsOk(sb, fs', own') && |l.disk| == |fs'.disk| && l.inodes == fs.inodes && m < |fs.inodes| && j < 268
    requires forall b: nat :: sb.bmapstart <= b < sb.size ==> b < |l.disk| && l.disk[b] == fs'.disk[b]
    requires Grew(fs, fs') && (IndirectOf(fs, m) != 0 ==> IndirectOf(fs', m) == IndirectOf(fs, m))
    requires BlockMap(l, m, j) != 0 && |fs'.inodes| == |fs.inodes|
    ensures BlockMap(fs', m, j) == BlockMap(l, m, j)
    ensures BlockMap(l, m, j) < |own'| && own'[BlockMap(l, m, j)] == Data(m, j)
    ensures j < 12 ==> |fs.inodes[m].addrs| == 13 && fs.inodes[m].addrs[j] == BlockMap(l, m, j)
  {
    SizesOf(sb, fs', own');
    if j < 12 {
      assert BlockMap(fs, m, j) == BlockMap(l, m, j);
    } else {
      assert IndirectOf(l, m) == IndirectOf(fs, m) != 0;
      IndirectBehind(sb, fs', own', m);
    }
    assert MapOk(fs', own', m, j);
  }

  /** A block that only the inode in memory names is nobody's on the disk, though its bit is set. */
  lemma Orphaned(sb: Layout, fs: Fs, fs': Fs, own': seq<Owner>, n: nat, l: Fs, own: seq<Owner>, k: nat)
    requires FsOk(sb, fs', own') && |l.disk| == |fs'.disk| == sb.size && l.inodes == fs.inodes && n < |fs.inodes|
    requires forall b: nat :: sb.bmapstart <= b < sb.size ==> l.disk[b] == fs'.disk[b]
    requires Grew(fs, fs') && |fs'.inodes| == |fs.inodes|
    requires forall m: nat :: IndirectOf(fs, m) != 0 ==> IndirectOf(fs', m) == IndirectOf(fs, m)
    requires |fs.inodes[n].addrs| == |fs'.inodes[n].addrs| == 13 && k < 13
    requires fs.inodes[n].addrs[k] == 0 != fs'.inodes[n].addrs[k]
    ensures !FsOk(sb, l, own)
  {
    if FsOk(sb, l, own) {
      var b := fs'.inodes[n].addrs[k];
      NamedBy(sb, fs', own', n, k);
      SizesOf(sb, l, own);
      BitPosition(sb, b, b);
      SomebodyNames(sb, l, own, b);
      var m := own[b].n;
      hide FsOk, Grew;
      if own[b].Data? {
        StillNamed(sb, fs, fs', own', l, m, own[b].k);
      } else {
        assert IndirectOf(fs, m) == b;
        NamedBy(sb, fs', own', m, 12);
      }
    }
  }

  /** bmap inside a read gave the file a block of its inode, and nobody writes the inode back: then, and only
      then, no volume is on the disk once the transaction is. */
  lemma ReadCommits(sb: Layout, fs: Fs, own: seq<Owner>, fs': Fs, own': seq<Owner>, n: nat, writes: set<nat>,
                    d: D.Disk, d': D.Disk)
    requires FsOk(sb, fs, own) && FsOk(sb, fs', own') && n < |fs'.inodes| && On(sb, fs, d)
    requires SameSizes(fs, fs') && Grew(fs, fs') && ReadLogs(sb, fs, fs', n, {}, writes)
    requires Landed(sb, fs', n, d, writes, d')
    ensures Consistent(sb, d') <==> fs'.inodes[n] == fs.inodes[n]
    ensures fs'.inodes[n] == fs.inodes[n] ==> On(sb, fs', d')
  {
    SizesOf(sb, fs, own);
    SizesOf(sb, fs', own');
    InodesUnread(sb, fs, fs', n, writes, d, d');
    if fs'.inodes[n] == fs.inodes[n] {
      LoadOk(sb, fs', own', d');
    } else {
      var k := Differing(fs.inodes[n].addrs, fs'.inodes[n].addrs);
      NewEntry(fs, fs', n, k);
      forall o: seq<Owner>
        ensures !FsOk(sb, Load(sb, d'), o)
      {
        Orphaned(sb, fs, fs', own', n, Load(sb, d'), o, k);
      }
    }
  }

  lemma NewEntry(fs: Fs, fs': Fs, n: nat, k: nat)
    requires n < |fs.inodes| == |fs'.inodes| && |fs.inodes[n].addrs| == |fs'.inodes[n].addrs| == 13 && k < 13
    requires Grew(fs, fs') && (IndirectOf(fs, n) != 0 ==> IndirectOf(fs', n) == IndirectOf(fs, n))
    requires fs.inodes[n].addrs[k] != fs'.inodes[n].addrs[k]
    ensures fs.inodes[n].addrs[k] == 0
  {
    if k < 12 {
      assert BlockMap(fs, n, k) == fs.inodes[n].addrs[k] && BlockMap(fs', n, k) == fs'.inodes[n].addrs[k];
    }
  }

  lemma Differing(a: seq<nat>, b: seq<nat>) returns (k: nat)
    requires |a| == |b| && a != b
    ensures k < |a| && a[k] != b[k]
  {
    k :| k < |a| && a[k] != b[k];
  }

  /** The transaction of a read leaves the inodes on disk alone. */
  lemma InodesUnread(sb: Layout, fs: Fs, fs': Fs, n: nat, writes: set<nat>, d: D.Disk, d': D.Disk)
    requires On(sb, fs, d) && ReadLogs(sb, fs, fs', n, {}, writes) && Landed(sb, fs', n, d, writes, d')
    ensures |d'| == sb.size && Load(sb, d').inodes == fs.inodes
    ensures forall b: nat :: sb.bmapstart <= b < sb.size ==> d'[b] == fs'.disk[b]
    ensures fs'.inodes[n] == fs.inodes[n] ==> On(sb, fs', d')
  {
    hide InodeIn, SetInode;
    InodesPlaced(sb, n);
    forall m: nat | m < sb.ninodes
      ensures Load(sb, d').inodes[m] == fs.inodes[m]
    {
      InodesPlaced(sb, m);
      assert Load(sb, d).inodes[m] == fs.inodes[m];
    }
  }

  // ----- what a crash leaves -----

  /** A disk from which the volume st is mounted. */
  ghost predicate Holds(sb: Layout, d: D.Disk, st: (Fs, seq<Owner>)) {
    LayoutOk(sb) && |d| == sb.size && FsOk(sb, Load(sb, d), st.1) && Contents(Load(sb, d)) == Contents(st.0)
  }

  lemma HoldsOn(sb: Layout, d: D.Disk, st: (Fs, seq<Owner>))
    requires FsOk(sb, st.0, st.1) && On(sb, st.0, d)
    ensures Holds(sb, d, st)
  {
    LoadOk(sb, st.0, st.1, d);
  }

  /** Where the log lies, and how much of it a transaction needs. */
  ghost predicate Fitting(sb: Layout, start: nat) {
    LayoutOk(sb) && start + D.LOGBLOCKS < sb.inodestart && FewBitmaps(sb)
  }

  /** Power lost after the first j steps of a run, and then during recovery: the volume is st or st'. */
  ghost predicate Recovers(sb: Layout, start: nat, s0: R.State, es: seq<R.Step>, j: nat, cuts: seq<nat>,
                           st: (Fs, seq<Owner>), st': (Fs, seq<Owner>)) {
    && j <= |es| && R.Legal(start, s0, es[..j])
    && var d := R.After(start, s0, es[..j]).disk;
       && D.Wf(start, d)
       && (Holds(sb, D.Reboot(start, d, cuts), st) || Holds(sb, D.Reboot(start, d, cuts), st'))
  }

  /** Power lost at any moment from step a to step b of a run. */
  ghost predicate Atomic(sb: Layout, start: nat, s0: R.State, es: seq<R.Step>, a: nat, b: nat,
                         st: (Fs, seq<Owner>), st': (Fs, seq<Owner>)) {
    forall j: nat, cuts: seq<nat> :: a <= j <= b ==> Recovers(sb, start, s0, es, j, cuts, st, st')
  }

  lemma AtomicLater(sb: Layout, start: nat, s0: R.State, es: seq<R.Step>, es': seq<R.Step>, a: nat, b: nat,
                    st: (Fs, seq<Owner>), st': (Fs, seq<Owner>))
    requires Atomic(sb, start, s0, es, a, b, st, st') && es <= es' && b <= |es|
    ensures Atomic(sb, start, s0, es', a, b, st, st')
  {
    hide R.Legal, R.After, Holds, D.Wf;
    forall j: nat, cuts: seq<nat> | a <= j <= b
      ensures Recovers(sb, start, s0, es', j, cuts, st, st')
    {
      assert Recovers(sb, start, s0, es, j, cuts, st, st');
      assert es'[..j] == es[..j];
    }
  }

  /** Power lost at any moment since step a of a run that passed through the volumes of trace, reaching each
      at its mark: the volume is one of the two between which the moment lies. */
  ghost predicate Survives(sb: Layout, start: nat, s0: R.State, es: seq<R.Step>, a: nat,
                           trace: seq<(Fs, seq<Owner>)>, marks: seq<nat>) {
    && |trace| == |marks| > 0 && marks[0] == a && marks[|marks| - 1] == |es|
    && (forall i: nat :: i < |marks| ==> marks[i] <= |es|)
    && forall i: nat :: i + 1 < |trace| ==>
         Atomic(sb, start, s0, es, marks[i], marks[i + 1], trace[i], trace[i + 1])
  }

  lemma SurvivesNone(sb: Layout, start: nat, s0: R.State, es: seq<R.Step>, st: (Fs, seq<Owner>))
    ensures Survives(sb, start, s0, es, |es|, [st], [|es|])
  {
  }

  lemma SurvivesMore(sb: Layout, start: nat, s0: R.State, es: seq<R.Step>, es': seq<R.Step>, a: nat,
                     trace: seq<(Fs, seq<Owner>)>, marks: seq<nat>, st: (Fs, seq<Owner>))
    requires Survives(sb, start, s0, es, a, trace, marks) && es <= es'
    requires Atomic(sb, start, s0, es', |es|, |es'|, trace[|trace| - 1], st)
    ensures Survives(sb, start, s0, es', a, trace + [st], marks + [|es'|])
  {
    hide Atomic;
    var t, m := trace + [st], marks + [|es'|];
    forall i: nat | i + 1 < |t|
      ensures Atomic(sb, start, s0, es', m[i], m[i + 1], t[i], t[i + 1])
    {
      if i + 1 < |trace| {
        AtomicLater(sb, start, s0, es, es', marks[i], marks[i + 1], trace[i], trace[i + 1]);
      }
    }
  }

  lemma {:induction false} DurableGrows(start: nat, s: R.State, es: seq<R.Step>)
    requires R.Legal(start, s, es)
    ensures s.durable <= R.After(start, s, es).durable
    decreases |es|
  {
    hide R.Can;
    if es != [] {
      DurableStep(start, s, es[0]);
      DurableGrows(start, R.Do(start, s, es[0]), es[1..]);
    }
  }

  lemma DurableStep(start: nat, s: R.State, e: R.Step)
    requires R.Can(start, s, e)
    ensures s.durable <= R.Do(start, s, e).durable
  {
  }

  lemma {:induction false} LegalPrefix(start: nat, s: R.State, es: seq<R.Step>, j: nat)
    requires R.Legal(start, s, es) && j <= |es|
    ensures R.Legal(start, s, es[..j])
    decreases j
  {
    hide R.Can, R.Do;
    if j > 0 {
      LegalPrefix(start, R.Do(start, s, es[0]), es[1..], j - 1);
      assert es[..j][1..] == es[1..][..j - 1];
    }
  }

  /** Between two moments of a run the durable groups are between those of the two. */
  lemma DurableBetween(start: nat, s: R.State, es: seq<R.Step>, a: nat, j: nat)
    requires R.Legal(start, s, es) && a <= j <= |es|
    ensures R.Legal(start, s, es[..a]) && R.Legal(start, s, es[..j])
    ensures R.After(start, s, es[..a]).durable <= R.After(start, s, es[..j]).durable <= R.After(start, s, es).durable
  {
    hide R.Legal, R.After;
    LegalPrefix(start, s, es, j);
    LegalPrefix(start, s, es, a);
    assert es[..a] + es[a..j] == es[..j] && es[..j] + es[j..] == es;
    L.Split(start, s, es[..a], es[a..j]);
    L.Split(start, s, es[..j], es[j..]);
    DurableGrows(start, R.After(start, s, es[..a]), es[a..j]);
    DurableGrows(start, R.After(start, s, es[..j]), es[j..]);
  }

  /** With the durable groups on, a crash leaves the volume they make. */
  lemma CrashHolds(sb: Layout, start: nat, s0: R.State, es: seq<R.Step>, cuts: seq<nat>, st: (Fs, seq<Owner>))
    requires R.Init(start, s0) && R.Legal(start, s0, es) && Fitting(sb, start)
    requires FsOk(sb, st.0, st.1) && On(sb, st.0, R.Replay(s0.init, R.After(start, s0, es).durable))
    ensures var d := R.After(start, s0, es).disk; D.Wf(start, d) && Holds(sb, D.Reboot(start, d, cuts), st)
  {
    hide R.Legal, R.After, R.Replay, FsOk, On, D.Reboot, R.OpWrites, D.Wf, D.SameData;
    R.OperationAtomicity(start, s0, es, cuts);
    var d := R.After(start, s0, es).disk;
    Symmetric(start, D.Reboot(start, d, cuts), R.Replay(s0.init, R.After(start, s0, es).durable));
    OnSame(sb, start, st.0, R.Replay(s0.init, R.After(start, s0, es).durable), D.Reboot(start, d, cuts));
    HoldsOn(sb, D.Reboot(start, d, cuts), st);
  }

  lemma Symmetric(start: nat, d: D.Disk, e: D.Disk)
    requires D.SameData(start, d, e)
    ensures D.SameData(start, e, d)
  {
  }

  /** The steps from a to the end added at most one durable group: a crash among them leaves the volume with
      it or without it. */
  lemma AtomicSteps(sb: Layout, start: nat, s0: R.State, es: seq<R.Step>, a: nat, st: (Fs, seq<Owner>),
                    st': (Fs, seq<Owner>))
    requires R.Init(start, s0) && R.Legal(start, s0, es) && Fitting(sb, start) && a <= |es|
    requires R.Legal(start, s0, es[..a])
    requires FsOk(sb, st.0, st.1) && On(sb, st.0, R.Replay(s0.init, R.After(start, s0, es[..a]).durable))
    requires FsOk(sb, st'.0, st'.1) && On(sb, st'.0, R.Replay(s0.init, R.After(start, s0, es).durable))
    requires |R.After(start, s0, es).durable| <= |R.After(start, s0, es[..a]).durable| + 1
    ensures Atomic(sb, start, s0, es, a, |es|, st, st')
  {
    hide R.Legal, R.After, R.Replay, FsOk, On, D.Reboot, Holds, D.Wf, R.Init;
    forall j: nat, cuts: seq<nat> | a <= j <= |es|
      ensures Recovers(sb, start, s0, es, j, cuts, st, st')
    {
      DurableBetween(start, s0, es, a, j);
      var t := R.After(start, s0, es[..j]);
      if |t.durable| == |R.After(start, s0, es[..a]).durable| {
        assert t.durable == R.After(start, s0, es[..a]).durable;
        CrashHolds(sb, start, s0, es[..j], cuts, st);
      } else {
        assert t.durable == R.After(start, s0, es).durable;
        CrashHolds(sb, start, s0, es[..j], cuts, st');
      }
    }
  }

  // ----- mounting -----

  lemma OnInodes(sb: Layout, fs: Fs, d: D.Disk)
    requires On(sb, fs, d)
    ensures Load(sb, d).inodes == fs.inodes
  {
  }

  /** What is on the disk after recovery is what the run starts with. */
  lemma Booted(sb: Layout, start: nat, d: D.Disk, own: seq<Owner>, s0: R.State, s: R.State)
    requires D.Wf(start, d) && Fitting(sb, start) && |d| == sb.size && FsOk(sb, Load(sb, D.Recovered(start, d)), own)
    requires R.Init(start, s0) && s0.disk == d && R.Inv(start, s) && s.phase.Running? && s.init == s0.init
    requires s.durable == []
    ensures |s.disk| == sb.size && FsOk(sb, Load(sb, s.disk), own)
    ensures Contents(Load(sb, s.disk)) == Contents(Load(sb, D.Recovered(start, d)))
    ensures Load(sb, s.disk).inodes == Load(sb, D.Recovered(start, d)).inodes
    ensures On(sb, Load(sb, s.disk), R.Replay(s0.init, []))
  {
    hide Load, On, FsOk, Contents, R.HistoryInv, R.SpaceInv, R.Pending;
    assert R.Replay(s0.init, []) == s0.init && D.SameData(start, s.disk, s0.init);
    Symmetric(start, s.disk, s0.init);
    LoadOn(sb, s0.init);
    OnSame(sb, start, Load(sb, s0.init), s0.init, s.disk);
    OnInodes(sb, Load(sb, s0.init), s.disk);
    LoadOk(sb, Load(sb, s0.init), own, s.disk);
    LoadOn(sb, s.disk);
    OnSame(sb, start, Load(sb, s.disk), s.disk, s0.init);
  }

  lemma BootAtomic(sb: Layout, start: nat, s0: R.State, es: seq<R.Step>, st: (Fs, seq<Owner>))
    requires R.Init(start, s0) && R.Legal(start, s0, es) && Fitting(sb, start) && R.After(start, s0, es).durable == []
    requires FsOk(sb, st.0, st.1) && On(sb, st.0, R.Replay(s0.init, []))
    ensures Atomic(sb, start, s0, es, 0, |es|, st, st)
  {
    hide FsOk, On, R.Replay, Atomic;
    assert es[..0] == [];
    AtomicSteps(sb, start, s0, es, 0, st, st);
  }

  // ----- a transaction in the log -----

  /** The log holds these blocks of the transaction on file n that ended in fs, and nothing else. */
  ghost predicate InFlight(sb: Layout, fs: Fs, n: nat, base: D.Disk, done: set<nat>, s: R.State) {
    && s.phase.Running? && |s.active| == 1 && s.active[0].spent == |done| == |s.lh|
    && (forall b :: b in s.lh ==> b in done) && (forall b :: b in s.cache ==> b in done)
    && Landed(sb, fs, n, base, done, D.Apply(base, R.Writes(s.cur)))
  }

  lemma TakeOff(sb: Layout, fs: Fs, n: nat, base: D.Disk, start: nat, s: R.State, op: nat)
    requires L.Blank(s) && R.Can(start, s, R.Begin(op)) && |base| == |fs.disk| && n < |fs.inodes|
    requires Storable(fs.inodes[n])
    ensures InFlight(sb, fs, n, base, {}, R.Do(start, s, R.Begin(op)))
  {
    LandedNone(sb, fs, n, base);
    assert R.Writes([]) == [];
  }

  lemma LogOne(sb: Layout, fs: Fs, n: nat, base: D.Disk, done: set<nat>, start: nat, s: R.State, b: Uint, x: Block)
    requires InFlight(sb, fs, n, base, done, s) && b !in done && b < |base| && x == Image(sb, fs, n, base, b)
    requires R.Can(start, s, R.LogWrite(0, b, x))
    ensures InFlight(sb, fs, n, base, done + {b}, R.Do(start, s, R.LogWrite(0, b, x)))
  {
    var r := R.Rec(s.active[0].op, D.Write(b, x));
    var ws := R.Writes(s.cur);
    R.WritesSnoc(s.cur, r);
    assert (ws + [r.w])[..|ws|] == ws;
    LandedMore(sb, fs, n, base, done, D.Apply(base, ws), b, x);
    hide Landed, Image;
  }

  lemma FlightFacts(sb: Layout, fs: Fs, n: nat, base: D.Disk, done: set<nat>, s: R.State)
    requires InFlight(sb, fs, n, base, done, s)
    ensures |s.active| == 1 && s.active[0].spent == |done| == |s.lh|
  {
  }

  lemma SameSize(start: nat, s: R.State)
    requires R.Inv(start, s) && s.phase.Running?
    ensures |R.Replay(s.init, s.durable)| == |s.disk|
  {
  }

  lemma BlockPlaced(sb: Layout, start: nat, n: nat, b: nat)
    requires Fitting(sb, start) && n < sb.ninodes && (b == InodeBlock(sb, n) || sb.bmapstart <= b < sb.size)
    ensures b < sb.size && b < UINT_LIMIT && !D.InLog(start, b)
  {
    InodesPlaced(sb, n);
  }

  lemma KeepsGroups(start: nat, s: R.State, b: Uint, x: Block)
    requires R.Can(start, s, R.LogWrite(0, b, x))
    ensures var t := R.Do(start, s, R.LogWrite(0, b, x)); t.durable == s.durable && t.init == s.init
  {
  }

  /** A block that this transaction has not logged is seen as it is in the durable groups. */
  lemma SeenBase(sb: Layout, fs: Fs, n: nat, base: D.Disk, done: set<nat>, start: nat, s: R.State, b: nat)
    requires R.Inv(start, s) && InFlight(sb, fs, n, base, done, s) && base == R.Replay(s.init, s.durable)
    requires b !in done && b < |base| && !D.InLog(start, b)
    ensures b < |s.disk| && L.Seen(s, b) == base[b]
  {
    hide R.HistoryInv, R.SpaceInv, R.Pending, Landed, R.Replay;
  }

  /** Its commit makes the volume durable. */
  lemma Ended(sb: Layout, fs: Fs, fs': Fs, own': seq<Owner>, n: nat, writes: set<nat>, init: D.Disk, s: R.State)
    requires On(sb, fs, R.Replay(init, s.durable)) && FsOk(sb, fs', own') && n < |fs'.inodes|
    requires Logs(sb, fs, fs', n, {}, writes) && (fs' != fs ==> InodeBlock(sb, n) in writes)
    requires writes != {} ==> InodeBlock(sb, n) in writes
    requires InFlight(sb, fs', n, R.Replay(init, s.durable), writes, s)
    ensures On(sb, fs', R.Replay(init, L.Durable(s))) && |L.Durable(s)| <= |s.durable| + 1
  {
    hide On, FsOk, Landed, Logs;
    if writes == {} {
      assert fs' == fs && s.lh == [];
    } else {
      assert s.lh != [];
      var base := R.Replay(init, s.durable);
      assert (s.durable + [s.cur])[..|s.durable|] == s.durable;
      Flushed(sb, fs, fs', own', n, writes, base, D.Apply(base, R.Writes(s.cur)));
    }
  }

  lemma BlankFacts(s: R.State)
    requires L.Blank(s)
    ensures s.lh == [] && s.active == []
  {
  }

  lemma Airborne(sb: Layout, fs: Fs, n: nat, base: D.Disk, start: nat, s: R.State, s': R.State)
    requires L.Blank(s) && |base| == |fs.disk| && n < |fs.inodes| && Storable(fs.inodes[n])
    requires exists op: nat :: R.Can(start, s, R.Begin(op)) && s' == R.Do(start, s, R.Begin(op))
    ensures InFlight(sb, fs, n, base, {}, s') && s'.durable == s.durable && s'.init == s.init
  {
    var op: nat :| R.Can(start, s, R.Begin(op)) && s' == R.Do(start, s, R.Begin(op));
    TakeOff(sb, fs, n, base, start, s, op);
  }

  lemma FittingFacts(sb: Layout, start: nat)
    requires Fitting(sb, start)
    ensures FewBitmaps(sb) && D.Fits(0, 0)
  {
  }

  lemma NeverFatal(fs: Fs, own: seq<Owner>, op: FileOp)
    requires !op.Read?
    ensures !Fatal(fs, own, op)
  {
  }

  lemma OnSize(sb: Layout, fs: Fs, d: D.Disk)
    requires On(sb, fs, d)
    ensures |d| == |fs.disk| == sb.size && |fs.inodes| == sb.ninodes
  {
  }

  lemma LogsPlaced(sb: Layout, fs: Fs, fs': Fs, n: nat, writes: set<nat>)
    requires Logs(sb, fs, fs', n, {}, writes)
    ensures |fs'.disk| == |fs.disk| && |fs'.inodes| == |fs.inodes|
    ensures forall b: nat :: b in writes ==> b == InodeBlock(sb, n) || sb.bmapstart <= b < sb.size
  {
  }

  /** What filewrite and fileread do: chunks that fit a transaction, and reads outside of one. */
  predicate Allowed(op: FileOp) { (op.Write? ==> |op.data| <= MAXCHUNK) && (op.Read? ==> !op.trans) }

  lemma NoSuchFile(st: (Fs, seq<Owner>), op: FileOp)
    requires op.n >= |st.0.inodes|
    ensures Ran(st, op, -1, [], st) && !Fatal(st.0, st.1, op)
  {
  }

  // ----- chunks -----

  /** The files with the first c bytes of src written at off of file n, if that is within or next to it. */
  function Prefix(files: seq<seq<Byte>>, n: nat, off: nat, src: seq<Byte>, c: nat): (r: seq<seq<Byte>>)
    requires n < |files| && c <= |src|
    ensures |r| == |files| && forall m: nat :: m < |files| && m != n ==> r[m] == files[m]
  {
    if off > |files[n]| then files else files[n := Splice(files[n], off, src[..c])]
  }

  /** How far tot bytes have come after i chunks. */
  function Chunks(i: nat, tot: nat): (c: nat)
    ensures c <= tot
  {
    if i * MAXCHUNK <= tot then i * MAXCHUNK else tot
  }

  /** The volumes a write of tot bytes passes through: one more chunk in each. */
  ghost predicate Stages(files: seq<seq<Byte>>, n: nat, off: nat, src: seq<Byte>, tot: nat,
                         trace: seq<(Fs, seq<Owner>)>) {
    && n < |files| && tot <= |src|
    && forall i: nat :: i < |trace| ==> Contents(trace[i].0) == Prefix(files, n, off, src, Chunks(i, tot))
  }

  lemma FirstStage(st: (Fs, seq<Owner>), n: nat, off: nat, src: seq<Byte>)
    requires n < |st.0.inodes|
    ensures n < |Contents(st.0)| && |Contents(st.0)[n]| == st.0.inodes[n].size
    ensures Prefix(Contents(st.0), n, off, src, 0) == Contents(st.0)
    ensures Stages(Contents(st.0), n, off, src, 0, [st]) && Chunks(0, |src|) == 0
  {
    ContentsSize(st.0);
    hide Contents;
    var c := Contents(st.0)[n];
    if off <= |c| {
      assert Splice(c, off, src[..0]) == c;
    }
  }

  lemma NextStage(files: seq<seq<Byte>>, n: nat, off: nat, src: seq<Byte>, i: nat, n1: nat, r: int,
                  trace: seq<(Fs, seq<Owner>)>, st: (Fs, seq<Owner>))
    requires Stages(files, n, off, src, i, trace) && trace != [] && i == Chunks(|trace| - 1, |src|) < |src|
    requires n1 == (if |src| - i > MAXCHUNK then MAXCHUNK else |src| - i) && -1 <= r <= n1
    requires Contents(st.0) == Prefix(files, n, off, src, i + Got(r))
    ensures Stages(files, n, off, src, i + Got(r), trace + [st])
    ensures r == n1 ==> i + r == Chunks(|trace|, |src|)
  {
    hide Contents, Prefix;
    var t := trace + [st];
    forall q: nat | q < |t|
      ensures Contents(t[q].0) == Prefix(files, n, off, src, Chunks(q, i + Got(r)))
    {
      Multiples(q, |trace|);
      if q < |trace| {
        assert Contents(trace[q].0) == Prefix(files, n, off, src, Chunks(q, i));
      }
    }
    Multiples(|trace|, |trace|);
  }

  lemma Multiples(q: nat, m: nat)
    requires q <= m && m > 0
    ensures q < m ==> q * MAXCHUNK <= (m - 1) * MAXCHUNK
    ensures m * MAXCHUNK == (m - 1) * MAXCHUNK + MAXCHUNK
  {
  }

  /** The bytes a write got done. */
  function Got(r: int): nat { if r > 0 then r else 0 }

  lemma SpliceOn(c: seq<Byte>, off: nat, src: seq<Byte>, i: nat, n1: nat, r: nat)
    requires off <= |c| && i + n1 <= |src| && r <= n1
    ensures off + i <= |Splice(c, off, src[..i])|
    ensures Splice(Splice(c, off, src[..i]), off + i, src[i..i + n1][..r]) == Splice(c, off, src[..i + r])
  {
    assert src[..i] + src[i..i + n1][..r] == src[..i + r];
  }

  /** A transaction adds its chunk, or as much of it as there are blocks for. */
  lemma OneChunk(files: seq<seq<Byte>>, st: (Fs, seq<Owner>), n: nat, off: nat, src: seq<Byte>, i: nat, n1: nat,
                 r: int, data: seq<Byte>, st': (Fs, seq<Owner>))
    requires n < |files| && i + n1 <= |src| && off + i < UINT_LIMIT && n < |st.0.inodes| && |src| < 0x8000_0000
    requires Contents(st.0) == Prefix(files, n, off, src, i) && (i > 0 ==> off <= |files[n]|)
    requires Ran(st, Write(n, src[i..i + n1], off + i), r, data, st')
    ensures -1 <= r <= n1 && Contents(st'.0) == Prefix(files, n, off, src, i + Got(r)) && n < |st'.0.inodes|
    ensures r > 0 ==> off <= |files[n]|
    ensures r < n1 ==> NoneFree(st'.1) || off > |files[n]| || off + |src| > MAXBYTES
  {
    ContentsSize(st.0);
    ContentsSize(st'.0);
    hide Contents, NoneFree, Splice;
    if off <= |files[n]| {
      SpliceOn(files[n], off, src, i, n1, Got(r));
    }
  }

  // ----- every moment, and again -----

  /** A crash leaves a disk that can be mounted again, as the same volume. */
  lemma Remounts(sb: Layout, start: nat, d: D.Disk, cuts: seq<nat>, st: (Fs, seq<Owner>))
    requires Fitting(sb, start) && D.Wf(start, d) && Holds(sb, D.Reboot(start, d, cuts), st)
    ensures |d| == sb.size && FsOk(sb, Load(sb, D.Recovered(start, d)), st.1)
    ensures Contents(Load(sb, D.Recovered(start, d))) == Contents(st.0)
  {
    hide FsOk, Load, Contents, D.Reboot, D.Recovered, On;
    D.RebootRecovers(start, d, cuts);
    var e := D.Reboot(start, d, cuts);
    LoadOn(sb, e);
    OnSame(sb, start, Load(sb, e), e, D.Recovered(start, d));
    LoadOk(sb, Load(sb, e), st.1, D.Recovered(start, d));
  }

  /** Every moment lies between two marks. */
  lemma {:induction false} Between(marks: seq<nat>, j: nat) returns (i: nat)
    requires |marks| > 1 && marks[0] <= j <= marks[|marks| - 1]
    ensures i + 1 < |marks| && marks[i] <= j <= marks[i + 1]
  {
    var m := |marks| - 1;
    if marks[m - 1] <= j {
      i := m - 1;
    } else {
      i := Between(marks[..m], j);
    }
  }

  /** The boot belongs to the run. */
  lemma SurvivesBoot(sb: Layout, start: nat, s0: R.State, es: seq<R.Step>, es': seq<R.Step>,
                     trace: seq<(Fs, seq<Owner>)>, marks: seq<nat>)
    requires Survives(sb, start, s0, es', |es|, trace, marks) && es <= es'
    requires Atomic(sb, start, s0, es, 0, |es|, trace[0], trace[0])
    ensures Survives(sb, start, s0, es', 0, [trace[0]] + trace, [0] + marks)
  {
    hide Atomic;
    var t, m := [trace[0]] + trace, [0] + marks;
    AtomicLater(sb, start, s0, es, es', 0, |es|, trace[0], trace[0]);
    forall i: nat | i + 1 < |t|
      ensures Atomic(sb, start, s0, es', m[i], m[i + 1], t[i], t[i + 1])
    {
      if i > 0 {
        assert Atomic(sb, start, s0, es', marks[i - 1], marks[i - 1 + 1], trace[i - 1], trace[i - 1 + 1]);
      }
    }
  }

  /** Some volume of the trace is on the disk when the power fails after j steps. */
  ghost predicate OneOf(sb: Layout, start: nat, s0: R.State, es: seq<R.Step>, j: nat, cuts: seq<nat>,
                        trace: seq<(Fs, seq<Owner>)>) {
    && j <= |es| && R.Legal(start, s0, es[..j]) && D.Wf(start, R.After(start, s0, es[..j]).disk)
    && exists i: nat :: i < |trace| && Holds(sb, D.Reboot(start, R.After(start, s0, es[..j]).disk, cuts), trace[i])
  }

  lemma EveryMoment(sb: Layout, start: nat, s0: R.State, es: seq<R.Step>, trace: seq<(Fs, seq<Owner>)>,
                    marks: seq<nat>, j: nat, cuts: seq<nat>)
    requires Survives(sb, start, s0, es, 0, trace, marks) && |trace| > 1 && j <= |es|
    ensures OneOf(sb, start, s0, es, j, cuts, trace)
  {
    hide R.Legal, R.After, Holds, D.Wf;
    var i := Between(marks, j);
    assert Recovers(sb, start, s0, es, j, cuts, trace[i], trace[i + 1]);
  }

  lemma OneOfTail(sb: Layout, start: nat, s0: R.State, es: seq<R.Step>, j: nat, cuts: seq<nat>,
                  trace: seq<(Fs, seq<Owner>)>)
    requires trace != [] && OneOf(sb, start, s0, es, j, cuts, [trace[0]] + trace)
    ensures OneOf(sb, start, s0, es, j, cuts, trace)
  {
    hide R.Legal, R.After, Holds, D.Wf;
    var d, t := R.After(start, s0, es[..j]).disk, [trace[0]] + trace;
    var i: nat :| i < |t| && Holds(sb, D.Reboot(start, d, cuts), t[i]);
    assert t[i] == trace[if i == 0 then 0 else i - 1];
  }

  lemma ReadFacts(sb: Layout, fs: Fs, fs': Fs, n: nat, writes: set<nat>)
    requires ReadLogs(sb, fs, fs', n, {}, writes)
    ensures Logs(sb, fs, fs', n, {}, writes) && |fs'.disk| == |fs.disk| && |fs'.inodes| == |fs.inodes|
    ensures forall b: nat :: b in writes ==> b == InodeBlock(sb, n) || sb.bmapstart <= b < sb.size
  {
  }

  /** What the commit of a read's transaction leaves. */
  lemma LandedAll(sb: Layout, fs: Fs, own: seq<Owner>, fs': Fs, own': seq<Owner>, n: nat, base: D.Disk,
                  writes: set<nat>, s: R.State)
    requires FsOk(sb, fs, own) && FsOk(sb, fs', own') && n < |fs'.inodes| && On(sb, fs, base)
    requires SameSizes(fs, fs') && Grew(fs, fs') && ReadLogs(sb, fs, fs', n, {}, writes)
    requires InFlight(sb, fs', n, base, writes, s) && base == R.Replay(s.init, s.durable)
    ensures var d' := R.Replay(s.init, L.Durable(s));
            && (Consistent(sb, d') <==> fs'.inodes[n] == fs.inodes[n])
            && (fs'.inodes[n] == fs.inodes[n] ==> On(sb, fs', d'))
  {
    hide FsOk, On, SameSizes, Grew, ReadLogs, Consistent;
    var d' := D.Apply(base, R.Writes(s.cur));
    ReadCommits(sb, fs, own, fs', own', n, writes, base, d');
    if s.lh == [] {
      assert writes == {};
      assert d' == base;
    } else {
      assert (s.durable + [s.cur])[..|s.durable|] == s.durable;
    }
  }

  // ----- the mounted file system -----

  class Mount {
    const sb: Layout
    const vol: Volume
    const sys: L.System

    ghost predicate Valid()
      reads this, vol, sys, sys.lg, sys.lg.bc
    {
      && Fitting(sb, sys.start) && vol.sb == sb && FsOk(sb, vol.fs, vol.own)
      && sys.Valid() && sys.spent == [] && L.Blank(sys.s)
      && On(sb, vol.fs, R.Replay(sys.s0.init, sys.s.durable))
    }

    /** The volume as a value. */
    ghost function Now(): (Fs, seq<Owner>)
      reads vol
    {
      (vol.fs, vol.own)
    }

    /** fsinit: the log is recovered, and the file system is the one on the disk then.  A crash meanwhile
        loses nothing. */
    constructor (d: D.Disk, sb: Layout, start: nat, ghost own: seq<Owner>)
      requires D.Wf(start, d) && Fitting(sb, start) && |d| == sb.size
      requires FsOk(sb, Load(sb, D.Recovered(start, d)), own)
      ensures Valid() && fresh(vol) && fresh(sys) && fresh(sys.lg) && fresh(sys.lg.bc)
      ensures this.sb == sb && sys.start == start && sys.s0.disk == d && vol.own == own
      ensures Contents(vol.fs) == Contents(Load(sb, D.Recovered(start, d)))
      ensures vol.fs.inodes == Load(sb, D.Recovered(start, d)).inodes
      ensures Atomic(sb, start, sys.s0, sys.es, 0, |sys.es|, Now(), Now())
    {
      hide FsOk, Load, Contents, Atomic, On, R.Legal, R.After, D.Wf, R.Init, R.Inv, L.System.Valid, L.Blank, R.Replay;
      var y := new L.System(d, start);
      y.Facts();
      Booted(sb, start, d, own, y.s0, y.s);
      var v := new Volume(sb, Load(sb, y.lg.bc.disk), own);
      this.sb, vol, sys := sb, v, y;
      new;
      BootAtomic(sb, start, y.s0, y.es, (v.fs, own));
    }

    /** The new contents of a block of the transaction; an inode goes into its block as that is. */
    method Fetch(n: nat, b: nat, ghost base: D.Disk, ghost done: set<nat>) returns (x: Block)
      requires FsOk(sb, vol.fs, vol.own) && n < |vol.fs.inodes| && b < sb.size && !D.InLog(sys.start, b)
      requires sys.Valid() && base == R.Replay(sys.s.init, sys.s.durable) && |base| == sb.size
      requires InFlight(sb, vol.fs, n, base, done, sys.s) && b !in done && |done| < MAXOPBLOCKS
      modifies sys.lg.bc
      ensures sys.Valid() && |vol.fs.disk| == sb.size && Storable(vol.fs.inodes[n])
      ensures x == Image(sb, vol.fs, n, base, b)
    {
      SizesOf(sb, vol.fs, vol.own);
      InodesStorable(sb, vol.fs, vol.own, n);
      hide FsOk, InFlight, R.Inv, R.Replay, L.System.Valid, R.Legal, R.After, R.Init, L.Seen, LayoutOk, SetInode;
      sys.Facts();
      FlightFacts(sb, vol.fs, n, base, done, sys.s);
      SeenBase(sb, vol.fs, n, base, done, sys.start, sys.s, b);
      if b != InodeBlock(sb, n) {
        return vol.fs.disk[b];
      }
      var ok, data := sys.Get(b);
      x := SetInode(data, n, vol.fs.inodes[n]);
    }

    /** A block of the transaction, and its log_write. */
    method LogBlock(n: nat, b: nat, ghost base: D.Disk, ghost done: set<nat>)
      requires FsOk(sb, vol.fs, vol.own) && n < |vol.fs.inodes| && b < sb.size && !D.InLog(sys.start, b)
      requires b < UINT_LIMIT
      requires sys.Valid() && base == R.Replay(sys.s.init, sys.s.durable) && |base| == sb.size
      requires InFlight(sb, vol.fs, n, base, done, sys.s) && b !in done && |done| < MAXOPBLOCKS
      modifies sys, sys.lg, sys.lg.bc
      ensures sys.Valid() && sys.lg == old(sys.lg) && sys.s0 == old(sys.s0) && old(sys.es) <= sys.es
      ensures InFlight(sb, vol.fs, n, base, done + {b}, sys.s) && sys.s.durable == old(sys.s).durable
      ensures sys.s.init == old(sys.s).init
    {
      hide FsOk, InFlight, R.Inv, R.Replay, L.System.Valid, R.Legal, R.After, R.Init, LayoutOk, Image, R.Do, R.Can,
           Storable;
      var x := Fetch(n, b, base, done);
      sys.Facts();
      FlightFacts(sb, vol.fs, n, base, done, sys.s);
      SameSize(sys.start, sys.s);
      ghost var s1 := sys.s;
      var ok := sys.Put(0, b, x);
      LogOne(sb, vol.fs, n, base, done, sys.start, s1, b, x);
      KeepsGroups(sys.start, s1, b, x);
    }

    /** log_write of every block of the transaction. */
    method LogAll(n: nat, ghost base: D.Disk)
      requires Fitting(sb, sys.start) && vol.sb == sb && FsOk(sb, vol.fs, vol.own) && n < |vol.fs.inodes|
      requires |vol.writes| <= MAXOPBLOCKS
      requires forall b: nat :: b in vol.writes ==> b == InodeBlock(sb, n) || sb.bmapstart <= b < sb.size
      requires sys.Valid() && base == R.Replay(sys.s.init, sys.s.durable) && |base| == sb.size
      requires InFlight(sb, vol.fs, n, base, {}, sys.s)
      modifies sys, sys.lg, sys.lg.bc
      ensures sys.Valid() && sys.lg == old(sys.lg) && sys.s0 == old(sys.s0) && old(sys.es) <= sys.es
      ensures InFlight(sb, vol.fs, n, base, vol.writes, sys.s) && sys.s.durable == old(sys.s).durable
      ensures sys.s.init == old(sys.s).init
    {
      hide FsOk, InFlight, R.Inv, R.Replay, L.System.Valid, R.Legal, R.After, R.Init, Image, Fitting;
      SizesOf(sb, vol.fs, vol.own);
      var todo := vol.writes;
      ghost var done: set<nat> := {};
      while todo != {}
        invariant todo + done == vol.writes && todo !! done
        invariant sys.Valid() && sys.lg == old(sys.lg) && sys.s0 == old(sys.s0) && old(sys.es) <= sys.es
        invariant InFlight(sb, vol.fs, n, base, done, sys.s) && sys.s.durable == old(sys.s).durable
        invariant sys.s.init == old(sys.s).init
        decreases |todo|
      {
        var b :| b in todo;
        BlockPlaced(sb, sys.start, n, b);
        LogBlock(n, b, base, done);
        todo, done := todo - {b}, done + {b};
      }
      assert done == vol.writes;
    }

    /** end_op of the only operation, whose log is not full. */
    method EndAll()
      requires sys.Valid() && |sys.s.active| == 1 && |sys.s.lh| < D.LOGBLOCKS
      modifies sys, sys.lg, sys.lg.bc
      ensures sys.Valid() && sys.lg == old(sys.lg) && sys.s0 == old(sys.s0) && old(sys.es) <= sys.es
      ensures sys.spent == [] && L.Blank(sys.s) && sys.s.durable == L.Durable(old(sys.s))
    {
      hide R.Inv, L.System.Valid, R.Legal, R.After, R.Init, L.Blank, L.Durable;
      sys.Facts();
      var ended := sys.EndOp(0);
    }

    /** The blocks of a transaction are logged, and end_op commits them. */
    method Finish(n: nat, ghost fs0: Fs, ghost base: D.Disk)
      requires Fitting(sb, sys.start) && vol.sb == sb && FsOk(sb, vol.fs, vol.own) && n < |vol.fs.inodes|
      requires |vol.writes| <= MAXOPBLOCKS && Logs(sb, fs0, vol.fs, n, {}, vol.writes)
      requires vol.fs != fs0 || vol.writes != {} ==> InodeBlock(sb, n) in vol.writes
      requires sys.Valid() && base == R.Replay(sys.s.init, sys.s.durable) && On(sb, fs0, base)
      requires InFlight(sb, vol.fs, n, base, {}, sys.s)
      modifies sys, sys.lg, sys.lg.bc
      ensures sys.Valid() && sys.lg == old(sys.lg) && sys.s0 == old(sys.s0) && old(sys.es) <= sys.es
      ensures sys.spent == [] && L.Blank(sys.s) && |sys.s.durable| <= |old(sys.s).durable| + 1
      ensures On(sb, vol.fs, R.Replay(old(sys.s).init, sys.s.durable))
    {
      hide FsOk, InFlight, R.Inv, R.Replay, L.System.Valid, R.Legal, R.After, R.Init, On, Logs, L.Blank, Fitting,
           L.Durable, InodeBlock;
      LogsPlaced(sb, fs0, vol.fs, n, vol.writes);
      OnSize(sb, fs0, base);
      LogAll(n, base);
      ghost var s2 := sys.s;
      FlightFacts(sb, vol.fs, n, base, vol.writes, s2);
      EndAll();
      Ended(sb, fs0, vol.fs, vol.own, n, vol.writes, s2.init, s2);
    }

    /** begin_op, a write or truncation, and end_op.  Whenever the power fails meanwhile, the volume is the
        one before or the one after. */
    method Transact(op: FileOp) returns (r: int, data: seq<Byte>)
      requires Valid() && !op.Read? && op.n < |vol.fs.inodes| && (op.Write? ==> |op.data| <= MAXCHUNK)
      modifies vol, sys, sys.lg, sys.lg.bc
      ensures Valid() && sys.lg == old(sys.lg) && sys.s0 == old(sys.s0) && old(sys.es) <= sys.es
      ensures Ran(old(Now()), op, r, data, Now())
      ensures Atomic(sb, sys.start, sys.s0, sys.es, |old(sys.es)|, |sys.es|, old(Now()), Now())
    {
      hide FsOk, InFlight, R.Inv, R.Replay, L.System.Valid, R.Legal, R.After, R.Init, On, Logs, R.Do, R.Can, L.Blank,
           Atomic, Answered, Complete, Fatal, Contents, FileStep, LayoutOk, Storable, HolesStay, NoHoles, Fitting;
      ghost var st, s1, es1, base := Now(), sys.s, sys.es, R.Replay(sys.s0.init, sys.s.durable);
      sys.Facts();
      BlankFacts(sys.s);
      FittingFacts(sb, sys.start);
      var _ := sys.BeginOp();
      vol.writes := {};
      var ok;
      ok, r, data := vol.Exec(op);
      NeverFatal(st.0, st.1, op);
      InodesStorable(sb, vol.fs, vol.own, op.n);
      LogsPlaced(sb, st.0, vol.fs, op.n, vol.writes);
      OnSize(sb, st.0, base);
      Airborne(sb, vol.fs, op.n, base, sys.start, s1, sys.s);
      Finish(op.n, st.0, base);
      sys.Facts();
      assert sys.es[..|es1|] == es1;
      AtomicSteps(sb, sys.start, sys.s0, sys.es, |es1|, st, Now());
    }

    /** A read of one block inside a transaction, as a directory lookup makes it.  Once that is committed, a
        volume is on the disk exactly when bmap had no address to store into the inode, which nobody writes
        back; and then it is this one. */
    method Lookup(n: nat, off: nat, want: nat) returns (chunk: seq<Byte>)
      requires Valid() && n < |vol.fs.inodes| && off < MAXBYTES && want > 0
      modifies vol, sys, sys.lg, sys.lg.bc
      ensures sys.Valid() && sys.lg == old(sys.lg) && sys.s0 == old(sys.s0) && old(sys.es) <= sys.es
      ensures sys.spent == [] && chunk == FileBytes(old(vol.fs), n, off, |chunk|)
      ensures Consistent(sb, R.Replay(sys.s0.init, sys.s.durable)) <==> !Grows(old(vol.fs), old(vol.own), n, off / 1024)
      ensures !Grows(old(vol.fs), old(vol.own), n, off / 1024) ==> Valid()
    {
      hide FsOk, InFlight, R.Inv, R.Replay, L.System.Valid, R.Legal, R.After, R.Init, On, Logs, R.Do, R.Can, L.Blank,
           LayoutOk, Storable, Fitting, ReadLogs, Grows, Grew, SameSizes, SameFiles, FileBytes, Consistent, L.Durable,
           NoneFree, BlockMap;
      ghost var fs0, own0, s1, base := vol.fs, vol.own, sys.s, R.Replay(sys.s0.init, sys.s.durable);
      sys.Facts();
      BlankFacts(sys.s);
      FittingFacts(sb, sys.start);
      var _ := sys.BeginOp();
      vol.writes := {};
      var ok;
      ok, chunk := vol.ReadOne(n, off, want, true);
      ReadFacts(sb, fs0, vol.fs, n, vol.writes);
      InodesStorable(sb, vol.fs, vol.own, n);
      OnSize(sb, fs0, base);
      Airborne(sb, vol.fs, n, base, sys.start, s1, sys.s);
      LogAll(n, base);
      ghost var s2 := sys.s;
      FlightFacts(sb, vol.fs, n, base, vol.writes, s2);
      LandedAll(sb, fs0, own0, vol.fs, vol.own, n, base, vol.writes, s2);
      EndAll();
    }

    /** What has returned is durable: power lost now leaves exactly this volume. */
    lemma Lasts()
      requires Valid()
      ensures Atomic(sb, sys.start, sys.s0, sys.es, |sys.es|, |sys.es|, Now(), Now())
    {
      hide FsOk, R.Replay, L.System.Valid, R.Legal, R.After, R.Init, On, L.Blank, Atomic, Fitting, R.Inv;
      sys.Facts();
      assert sys.es[..|sys.es|] == sys.es;
      AtomicSteps(sb, sys.start, sys.s0, sys.es, |sys.es|, Now(), Now());
    }

    /** One operation: a write or truncation is a transaction, and a read has none. */
    method Exec(op: FileOp) returns (ok: bool, r: int, data: seq<Byte>)
      requires Valid() && Allowed(op)
      modifies vol, sys, sys.lg, sys.lg.bc
      ensures Valid() && sys.lg == old(sys.lg) && sys.s0 == old(sys.s0) && old(sys.es) <= sys.es
      ensures (ok <==> !Fatal(old(vol.fs), old(vol.own), op)) && (ok ==> Ran(old(Now()), op, r, data, Now()))
      ensures !ok ==> Now() == old(Now()) && sys.es == old(sys.es)
      ensures Atomic(sb, sys.start, sys.s0, sys.es, |old(sys.es)|, |sys.es|, old(Now()), Now())
    {
      if op.n < |vol.fs.inodes| && !op.Read? {
        NeverFatal(vol.fs, vol.own, op);
        hide FsOk, L.System.Valid, On, Atomic, Fatal, Answered, Complete, R.Replay, L.Blank, Fitting, Contents,
             FileStep;
        r, data := Transact(op);
        ok := true;
        return;
      }
      hide FsOk, R.Replay, L.System.Valid, R.Legal, R.After, R.Init, On, L.Blank, Atomic, Contents, Fitting,
           Fatal, Answered, Complete, FileStep, R.Inv;
      Lasts();
      if op.n >= |vol.fs.inodes| {
        NoSuchFile(Now(), op);
        return true, -1, [];
      }
      ok, r, data := vol.Exec(op);
    }

    /** Any sequence of operations, up to its end or a fatal read, and a power failure at any moment of it:
        during operation i, the volume is the one before or the one after operation i. */
    method Run(ops: seq<FileOp>)
      returns (rs: seq<int>, ds: seq<seq<Byte>>, ghost trace: seq<(Fs, seq<Owner>)>, ghost marks: seq<nat>)
      requires Valid() && forall i: nat :: i < |ops| ==> Allowed(ops[i])
      modifies vol, sys, sys.lg, sys.lg.bc
      ensures Valid() && sys.lg == old(sys.lg) && sys.s0 == old(sys.s0) && old(sys.es) <= sys.es
      ensures |rs| == |ds| <= |ops| && (|rs| < |ops| ==> Fatal(vol.fs, vol.own, ops[|rs|]))
      ensures |trace| == |rs| + 1 && trace[0] == old(Now()) && trace[|rs|] == Now()
      ensures forall i: nat :: i < |rs| ==> Ran(trace[i], ops[i], rs[i], ds[i], trace[i + 1])
      ensures Survives(sb, sys.start, sys.s0, sys.es, |old(sys.es)|, trace, marks)
    {
      hide Fatal, Atomic, Ran, Survives, Mount.Valid, L.System.Valid;
      rs, ds, trace, marks := [], [], [Now()], [|sys.es|];
      SurvivesNone(sb, sys.start, sys.s0, sys.es, Now());
      while |rs| < |ops|
        invariant Valid() && sys.lg == old(sys.lg) && sys.s0 == old(sys.s0) && old(sys.es) <= sys.es
        invariant |rs| == |ds| <= |ops| && |trace| == |rs| + 1 && trace[0] == old(Now()) && trace[|rs|] == Now()
        invariant forall i: nat :: i < |rs| ==> Ran(trace[i], ops[i], rs[i], ds[i], trace[i + 1])
        invariant Survives(sb, sys.start, sys.s0, sys.es, |old(sys.es)|, trace, marks)
      {
        ghost var es1 := sys.es;
        var ok, r, data := Exec(ops[|rs|]);
        SurvivesMore(sb, sys.start, sys.s0, es1, sys.es, |old(sys.es)|, trace, marks, Now());
        if !ok {
          return;
        }
        rs, ds, trace, marks := rs + [r], ds + [data], trace + [Now()], marks + [|sys.es|];
      }
    }

    /** filewrite: a transaction for each chunk.  Whenever the power fails meanwhile, the file holds the chunks
        up to some point, and every other file is as it was. */
    method Filewrite(n: nat, src: seq<Byte>, offset: Uint)
      returns (ret: int, off: nat, ghost trace: seq<(Fs, seq<Owner>)>, ghost marks: seq<nat>)
      requires Valid() && n < |vol.fs.inodes| && |src| < 0x8000_0000
      modifies vol, sys, sys.lg, sys.lg.bc
      ensures Valid() && sys.lg == old(sys.lg) && sys.s0 == old(sys.s0) && old(sys.es) <= sys.es
      ensures offset <= off <= offset + |src| && ret == if off == offset + |src| then |src| else -1
      ensures trace != [] && trace[0] == old(Now()) && trace[|trace| - 1] == Now()
      ensures Survives(sb, sys.start, sys.s0, sys.es, |old(sys.es)|, trace, marks)
      ensures Stages(Contents(old(vol.fs)), n, offset, src, off - offset, trace)
      ensures Contents(vol.fs) == Prefix(Contents(old(vol.fs)), n, offset, src, off - offset)
      ensures off < offset + |src| ==>
                NoneFree(vol.own) || offset > old(vol.fs).inodes[n].size || offset + |src| > MAXBYTES
    {
      hide Atomic, Survives, Mount.Valid, L.System.Valid, Contents, NoneFree, Prefix, Ran, Stages, Chunks;
      ghost var files := Contents(vol.fs);
      FirstStage(Now(), n, offset, src);
      SurvivesNone(sb, sys.start, sys.s0, sys.es, Now());
      var i := 0;
      off, trace, marks := offset, [Now()], [|sys.es|];
      while i < |src|
        invariant Valid() && sys.lg == old(sys.lg) && sys.s0 == old(sys.s0) && old(sys.es) <= sys.es
        invariant trace != [] && trace[0] == old(Now()) && trace[|trace| - 1] == Now()
        invariant i <= |src| && off == offset + i && n < |vol.fs.inodes| && i == Chunks(|trace| - 1, |src|)
        invariant Survives(sb, sys.start, sys.s0, sys.es, |old(sys.es)|, trace, marks)
        invariant Stages(files, n, offset, src, i, trace) && Contents(vol.fs) == Prefix(files, n, offset, src, i)
        invariant i > 0 ==> offset <= |files[n]|
        decreases |src| - i
      {
        var n1 := if |src| - i > MAXCHUNK then MAXCHUNK else |src| - i;
        ghost var es1, st := sys.es, Now();
        Small(files, n, offset, src, i);
        var r, data := Transact(Write(n, src[i..i + n1], off));
        SurvivesMore(sb, sys.start, sys.s0, es1, sys.es, |old(sys.es)|, trace, marks, Now());
        OneChunk(files, st, n, offset, src, i, n1, r, data, Now());
        NextStage(files, n, offset, src, i, n1, r, trace, Now());
        trace, marks := trace + [Now()], marks + [|sys.es|];
        if r > 0 {
          off := off + r;
        }
        if r != n1 {
          break;
        }
        i := i + r;
      }
      ret := if i == |src| then |src| else -1;
    }

    /** Offsets stay within a uint. */
    lemma Small(files: seq<seq<Byte>>, n: nat, offset: Uint, src: seq<Byte>, i: nat)
      requires Valid() && n < |vol.fs.inodes| && n < |files| && i <= |src| && (i > 0 ==> offset <= |files[n]|)
      requires Contents(vol.fs) == Prefix(files, n, offset, src, i)
      ensures offset + i < UINT_LIMIT
    {
      hide L.System.Valid, FsOk, Contents, On;
      SizesOf(sb, vol.fs, vol.own);
      ContentsSize(vol.fs);
      if i > 0 {
        SpliceOn(files[n], offset, src, i, 0, 0);
        assert |Contents(vol.fs)[n]| == vol.fs.inodes[n].size <= MAXBYTES;
      }
    }
  }

  /** A disk is mounted and used, and the power fails at some moment, the boot included: what can be mounted
      then is one of the volumes between the operations, and each is what its operation made of the last. */
  method MountAndRun(d: D.Disk, sb: Layout, start: nat, ghost own: seq<Owner>, ops: seq<FileOp>)
    returns (m: Mount, rs: seq<int>, ds: seq<seq<Byte>>, ghost trace: seq<(Fs, seq<Owner>)>)
    requires D.Wf(start, d) && Fitting(sb, start) && |d| == sb.size && FsOk(sb, Load(sb, D.Recovered(start, d)), own)
    requires forall i: nat :: i < |ops| ==> Allowed(ops[i])
    ensures m.Valid() && m.sys.start == start && m.sys.s0.disk == d
    ensures |rs| == |ds| <= |ops| && (|rs| < |ops| ==> Fatal(m.vol.fs, m.vol.own, ops[|rs|]))
    ensures |trace| == |rs| + 1 && Contents(trace[0].0) == Contents(Load(sb, D.Recovered(start, d)))
    ensures forall i: nat :: i < |rs| ==> Ran(trace[i], ops[i], rs[i], ds[i], trace[i + 1])
    ensures forall j: nat, cuts: seq<nat> :: j <= |m.sys.es| ==>
              OneOf(sb, start, m.sys.s0, m.sys.es, j, cuts, trace)
  {
    hide FsOk, Load, Contents, Atomic, Fatal, Ran, Survives, L.System.Valid, D.Wf, OneOf, Mount.Valid, D.Recovered;
    m := new Mount(d, sb, start, own);
    ghost var es := m.sys.es;
    ghost var marks;
    rs, ds, trace, marks := m.Run(ops);
    SurvivesBoot(sb, start, m.sys.s0, es, m.sys.es, trace, marks);
    forall j: nat, cuts: seq<nat> | j <= |m.sys.es|
      ensures OneOf(sb, start, m.sys.s0, m.sys.es, j, cuts, trace)
    {
      EveryMoment(sb, start, m.sys.s0, m.sys.es, [trace[0]] + trace, [0] + marks, j, cuts);
      OneOfTail(sb, start, m.sys.s0, m.sys.es, j, cuts, trace);
    }
  }

  // ----- from mkfs -----

  ghost predicate AllStorable(fs: Fs) { forall n: nat :: n < |fs.inodes| ==> Storable(fs.inodes[n]) }

  /** The first k inodes of the inode block number blk, as winode stores them one after the other. */
  function InodesIn(fs: Fs, blk: nat, k: nat): Block
    requires AllStorable(fs)
  {
    if k == 0 then Zero()
    else
      var n := 16 * blk + k - 1;
      if n < |fs.inodes| then SetInode(InodesIn(fs, blk, k - 1), n, fs.inodes[n]) else InodesIn(fs, blk, k - 1)
  }

  lemma {:induction false} InodesAre(fs: Fs, blk: nat, k: nat, i: nat)
    requires AllStorable(fs) && i < k <= 16 && 16 * blk + i < |fs.inodes|
    ensures InodeIn(InodesIn(fs, blk, k), 16 * blk + i) == fs.inodes[16 * blk + i]
  {
    hide InodeIn, SetInode;
    var n := 16 * blk + k - 1;
    Remainder(blk, k - 1);
    Remainder(blk, i);
    if n < |fs.inodes| {
      InodePut(InodesIn(fs, blk, k - 1), n, fs.inodes[n], 16 * blk + i);
    }
    if i < k - 1 {
      InodesAre(fs, blk, k - 1, i);
    }
  }

  lemma Remainder(blk: nat, i: nat)
    requires i < 16
    ensures (16 * blk + i) % 16 == i && (16 * blk + i) / 16 == blk
  {
  }

  /** The image mkfs writes: the log empty, the inodes in their blocks, then the bitmap and the files. */
  function Written(sb: Layout, fs: Fs): D.Disk
    requires |fs.disk| == sb.size && AllStorable(fs)
  {
    seq(sb.size, b requires 0 <= b < sb.size =>
      if b >= sb.bmapstart then fs.disk[b]
      else if b >= sb.inodestart then InodesIn(fs, b - sb.inodestart, 16)
      else Zero())
  }

  lemma WrittenOn(sb: Layout, fs: Fs)
    requires LayoutOk(sb) && |fs.disk| == sb.size && |fs.inodes| == sb.ninodes && AllStorable(fs)
    ensures On(sb, fs, Written(sb, fs))
  {
    hide InodeIn, InodesIn;
    forall n: nat | n < sb.ninodes
      ensures Load(sb, Written(sb, fs)).inodes[n] == fs.inodes[n]
    {
      InodesPlaced(sb, n);
      assert n == 16 * (n / 16) + n % 16;
      InodesAre(fs, n / 16, 16, n % 16);
    }
  }

  lemma WrittenReadable(sb: Layout, fs: Fs, start: nat)
    requires Fitting(sb, start) && |fs.disk| == sb.size && AllStorable(fs)
    ensures D.Wf(start, Written(sb, fs)) && D.Recovered(start, Written(sb, fs)) == Written(sb, fs)
  {
    ZeroWords(0);
    hide InodesIn, Word;
    assert Written(sb, fs)[start] == Zero();
    R.NothingLogged(start, Written(sb, fs));
  }

  /** mkfs, then the kernel, then a power failure at any moment: the run starts with the files mkfs was given. */
  method MakeMountAndRun(fssize: nat, ninodes: nat, dots: seq<Byte>, names: seq<seq<Byte>>, files: seq<seq<Byte>>,
                         ops: seq<FileOp>)
    returns (m: Mount?, rs: seq<int>, ds: seq<seq<Byte>>, ghost image: Fs, ghost trace: seq<(Fs, seq<Owner>)>)
    requires K.MkLayout(fssize, ninodes).nmeta <= fssize < 0x8000_0000 && FewBitmaps(K.MkLayout(fssize, ninodes))
    requires |dots| == 32 && |names| == |files| && forall i: nat :: i < |names| ==> |names[i]| == 16
    requires forall i: nat :: i < |ops| ==> Allowed(ops[i])
    ensures m != null <==> K.Room(K.MkLayout(fssize, ninodes), K.MkLayout(fssize, ninodes).nmeta, files)
    ensures m != null ==> K.FilesOk(image, files) && K.RootOk(image, dots + K.Flatten(names)) && m.Valid()
    ensures m != null ==> |rs| == |ds| <= |ops| && (|rs| < |ops| ==> Fatal(m.vol.fs, m.vol.own, ops[|rs|]))
    ensures m != null ==> |trace| == |rs| + 1 && Contents(trace[0].0) == Contents(image)
    ensures m != null ==> forall i: nat :: i < |rs| ==> Ran(trace[i], ops[i], rs[i], ds[i], trace[i + 1])
    ensures m != null ==> forall j: nat, cuts: seq<nat> :: j <= |m.sys.es| ==>
              OneOf(K.MkLayout(fssize, ninodes), 2, m.sys.s0, m.sys.es, j, cuts, trace)
  {
    hide FsOk, Contents, Fatal, Ran, OneOf, Mount.Valid, K.Room, K.FilesOk, K.RootOk, K.Flatten, K.Built, K.Tight,
         Content, Load, D.Wf, D.Recovered, Written, AllStorable;
    m, rs, ds, trace := null, [], [], [];
    var b := new K.Builder(fssize, ninodes);
    var ok := b.Build(dots, names, files);
    image := b.fs;
    if ok {
      Imaged(b.sb, b.fs, b.own);
      m, rs, ds, trace := MountAndRun(Written(b.sb, b.fs), b.sb, 2, b.own, ops);
    }
  }

  lemma Imaged(sb: Layout, fs: Fs, own: seq<Owner>)
    requires FsOk(sb, fs, own) && Fitting(sb, 2)
    ensures |fs.disk| == sb.size && AllStorable(fs) && |Written(sb, fs)| == sb.size
    ensures D.Wf(2, Written(sb, fs)) && FsOk(sb, Load(sb, D.Recovered(2, Written(sb, fs))), own)
    ensures Contents(Load(sb, D.Recovered(2, Written(sb, fs)))) == Contents(fs)
    ensures Load(sb, D.Recovered(2, Written(sb, fs))).inodes == fs.inodes
  {
    SizesOf(sb, fs, own);
    forall n: nat | n < |fs.inodes|
      ensures Storable(fs.inodes[n])
    {
      InodesStorable(sb, fs, own, n);
    }
    hide FsOk, On, Storable, Contents, Load, InodesIn, D.Recovered, D.Wf;
    WrittenOn(sb, fs);
    WrittenReadable(sb, fs, 2);
    OnInodes(sb, fs, Written(sb, fs));
    LoadOk(sb, fs, own, Written(sb, fs));
  }

  /** 62 files on an image of the kernel's size, and a lookup that goes through the whole root directory: no
      volume is on the disk after its transaction. */
  method LookupLeaks() returns (m: Mount)
    ensures m.sys.Valid() && !Consistent(m.sb, R.Replay(m.sys.s0.init, m.sys.s.durable))
  {
    hide FsOk, Contents, Load, Mount.Valid, L.System.Valid, D.Wf, D.Recovered, Written, AllStorable, Consistent,
         R.Replay, Atomic, NoneFree, Grows;
    var vol := K.FullRootIsFatal();
    Imaged(vol.sb, vol.fs, vol.own);
    m := new Mount(Written(vol.sb, vol.fs), vol.sb, 2, vol.own);
    RootGrows(vol.fs, m.vol.fs, vol.own);
    var chunk := m.Lookup(1, 1024, 16);
  }

  lemma RootGrows(fs: Fs, fs': Fs, own: seq<Owner>)
    requires fs'.inodes == fs.inodes && 1 < |fs.inodes| && Fatal(fs, own, Read(1, 1024, 16, false))
    ensures Grows(fs', own, 1, 1024 / 1024)
  {
    var k: nat :| 1024 / 1024 <= k && 1024 * k < 1024 + 16 && BlockMap(fs, 1, k) == 0;
    assert k == 1 && BlockMap(fs', 1, 1) == BlockMap(fs, 1, 1);
  }
}
