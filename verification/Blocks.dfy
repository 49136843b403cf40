/** Disk blocks as the kernel sees them: BSIZE bytes, which the log header and the
    indirect blocks read as 32-bit little-endian words and the free map reads as bits. */
module Blocks {

  const MAXOPBLOCKS: nat := 10        // blocks an operation may log

  const BSIZE: nat := 1024
  const WORDS: nat := BSIZE / 4
  const BPB: nat := BSIZE * 8
  const UINT_LIMIT: nat := 0x1_0000_0000

  type Byte = x: int | 0 <= x < 256
  type Uint = x: int | 0 <= x < UINT_LIMIT
  type Bytes = s: seq<Byte> | |s| == BSIZE witness seq(BSIZE, _ => 0)
  datatype Block = Block(bytes: Bytes)

  function Zero(): Block { Block(seq(BSIZE, _ => 0)) }

  /** The i-th word of a block, `((uint*)data)[i]`. */
  function Word(b: Block, i: nat): Uint
    requires i < WORDS
  {
    b.bytes[4 * i] as int + 256 * (b.bytes[4 * i + 1] as int) + 65536 * (b.bytes[4 * i + 2] as int)
    + 16777216 * (b.bytes[4 * i + 3] as int)
  }

  /** A 32-bit number in four bytes, the least first. */
  function LittleEndian(s: seq<Byte>): int
    requires |s| == 4
  {
    s[0] as int + 0x100 * s[1] as int + 0x1_0000 * s[2] as int + 0x100_0000 * s[3] as int
  }

  /** `((uint*)data)[i] = w`: word i reads back as w and no other word moves. */
  function SetWord(b: Block, i: nat, w: Uint): (r: Block)
    requires i < WORDS
    ensures Word(r, i) == w
    ensures forall j: nat :: j < WORDS && j != i ==> Word(r, j) == Word(b, j)
  {
    WordBytes(w);
    var low := b.bytes[4 * i := w % 256][4 * i + 1 := w / 256 % 256];
    Block(low[4 * i + 2 := w / 65536 % 256][4 * i + 3 := w / 16777216])
  }

  lemma WordBytes(w: Uint)
    ensures w == w % 256 + 256 * (w / 256 % 256) + 65536 * (w / 65536 % 256) + 16777216 * (w / 16777216)
    ensures w / 16777216 < 256
  {
    var q := w / 256;
    var r := q / 256;
    assert w / 65536 == r && w / 16777216 == r / 256;
  }

  lemma ZeroWords(i: nat)
    requires i < WORDS
    ensures Word(Zero(), i) == 0
  {
  }

  /** `v & (1 << k)` is not zero. */
  predicate NatBit(v: nat, k: nat) {
    if k == 0 then v % 2 == 1 else NatBit(v / 2, k - 1)
  }

  /** `v | (1 << k)` when on, `v & ~(1 << k)` otherwise, in a field of the given width. */
  function PutNatBit(v: nat, k: nat, on: bool, width: nat): (r: nat)
    requires k < width && v < Pow2(width)
    ensures r < Pow2(width)
    ensures NatBit(r, k) == on
    ensures forall j: nat :: j != k ==> NatBit(r, j) == NatBit(v, j)
    decreases k
  {
    if k == 0 then v / 2 * 2 + (if on then 1 else 0)
    else v % 2 + 2 * PutNatBit(v / 2, k - 1, on, width - 1)
  }

  function Pow2(n: nat): (r: nat)
    ensures r >= 1
  {
    if n == 0 then 1 else 2 * Pow2(n - 1)
  }

  /** Bit i of a free-map block: `data[i/8] & (1 << (i % 8))`. */
  predicate Bit(b: Block, i: nat)
    requires i < BPB
  {
    NatBit(b.bytes[i / 8], i % 8)
  }

  /** Set or clear one bit of a free-map block, leaving every other bit alone. */
  function PutBit(b: Block, i: nat, on: bool): (r: Block)
    requires i < BPB
    ensures Bit(r, i) == on
    ensures forall j: nat :: j < BPB && j != i ==> Bit(r, j) == Bit(b, j)
  {
    assert Pow2(8) == 2 * Pow2(7) == 4 * Pow2(6) == 8 * Pow2(5) == 16 * Pow2(4) == 256;
    Block(b.bytes[i / 8 := PutNatBit(b.bytes[i / 8], i % 8, on, 8)])
  }
}
