/** Blocks, words and bits as fs.h and fs.c lay them out on disk. */
module FsLayout {
  import opened Common

  const BSIZE: nat := 512
  const NDIRECT: nat := 12
  const NINDIRECT: nat := 128
  const MAXFILE: nat := 140
  /** Bits per bitmap block, inodes per inode block and words per inode. */
  const BPB: nat := 4096
  const IPB: nat := 8
  const IWORDS: nat := 16
  /** One more than the largest value of a short, read as unsigned. */
  const SHORT: nat := 0x1_0000

  type Byte = bv8
  type Block = b: seq<Byte> | |b| == BSIZE witness seq(BSIZE, _ => 0)

  function ZeroBlock(): (b: Block)
    ensures forall i :: 0 <= i < BSIZE ==> b[i] == 0
  {
    seq(BSIZE, _ => 0)
  }

  /** The part of struct superblock that fs.c uses; datastart is where mkfs puts the first data block. */
  datatype Super = Super(size: nat, ninodes: nat, inodestart: nat, bmapstart: nat, datastart: nat)

  predicate LayoutOk(sb: Super) {
    && 0 < sb.inodestart
    && sb.inodestart + sb.ninodes / IPB < sb.bmapstart
    && sb.bmapstart + sb.size / BPB < sb.datastart <= sb.size < UINT
  }

  // ---------------------------------------------------------------- words of indirect and inode blocks

  function Val(b: Byte): (n: nat)
    ensures n < 0x100
  {
    b as nat
  }

  function Word(b: Block, i: nat): (w: nat)
    requires i < NINDIRECT
    ensures w < UINT
  {
    Val(b[4 * i]) + 0x100 * Val(b[4 * i + 1]) + 0x1_0000 * Val(b[4 * i + 2]) + 0x100_0000 * Val(b[4 * i + 3])
  }

  lemma ByteAfter(b: Byte)
    requires Val(b) < 255
    ensures Val(b + 1) == Val(b) + 1
  {}

  /** The byte with value x. */
  function ToByte(x: nat): (b: Byte)
    requires x < 0x100
    ensures Val(b) == x
  {
    if x == 0 then 0 else
    var p := ToByte(x - 1);
    ByteAfter(p);
    p + 1
  }

  function PutWord(b: Block, i: nat, v: nat): Block
    requires i < NINDIRECT && v < UINT
  {
    b[4 * i := ToByte(v % 0x100)][4 * i + 1 := ToByte(v / 0x100 % 0x100)]
     [4 * i + 2 := ToByte(v / 0x1_0000 % 0x100)][4 * i + 3 := ToByte(v / 0x100_0000)]
  }

  lemma Digits(v: nat)
    requires v < UINT
    ensures v ==
      v % 0x100 + 0x100 * (v / 0x100 % 0x100) + 0x1_0000 * (v / 0x1_0000 % 0x100) + 0x100_0000 * (v / 0x100_0000)
  {
  }

  /** An indirect entry reads back as written, lowest byte first, and no other entry changes. */
  lemma WordPut(b: Block, i: nat, v: nat, j: nat)
    requires i < NINDIRECT && v < UINT && j < NINDIRECT
    ensures Word(PutWord(b, i, v), j) == if i == j then v else Word(b, j)
    ensures var c := PutWord(b, i, v);
      && Val(c[4 * i]) == v % 0x100 && Val(c[4 * i + 1]) == v / 0x100 % 0x100
      && Val(c[4 * i + 2]) == v / 0x1_0000 % 0x100 && Val(c[4 * i + 3]) == v / 0x100_0000
  {
    hide Val, ToByte;
    var c := PutWord(b, i, v);
    if i == j {
      Digits(v);
    } else {
      assert c[4 * j] == b[4 * j] && c[4 * j + 1] == b[4 * j + 1];
      assert c[4 * j + 2] == b[4 * j + 2] && c[4 * j + 3] == b[4 * j + 3];
    }
  }

  // ---------------------------------------------------------------- bits of a bitmap block

  function Mask(k: nat): Byte { 1 << (k % 8) }

  predicate ByteBit(x: Byte, k: nat) { x & Mask(k) != 0 }

  lemma SetMask(x: Byte, k: nat, j: nat)
    ensures ByteBit(x | Mask(k), j) == (ByteBit(x, j) || j % 8 == k % 8)
  {
    assert Mask(k) == [1, 2, 4, 8, 16, 32, 64, 128][k % 8];
    assert Mask(j) == [1, 2, 4, 8, 16, 32, 64, 128][j % 8];
  }

  predicate BitAt(b: Block, k: nat)
    requires k < BPB
  {
    ByteBit(b[k / 8], k)
  }

  /** Block number and bit of b in the free map: BBLOCK(b, sb) and b % BPB. */
  function MapBlock(sb: Super, b: nat): nat { sb.bmapstart + b / BPB }

  predicate Bit(sb: Super, d: seq<Block>, b: nat)
    requires LayoutOk(sb) && |d| == sb.size && b < sb.size
  {
    BitAt(d[MapBlock(sb, b)], b % BPB)
  }

  /** Which bit that is. */
  lemma BitPlace(sb: Super, d: seq<Block>, b: nat)
    requires LayoutOk(sb) && |d| == sb.size && b < sb.size
    ensures Bit(sb, d, b) <==> (d[sb.bmapstart + b / 4096][b % 4096 / 8] >> (b % 8)) & 1 == 1
  {
    ShiftedBit(d[MapBlock(sb, b)][b % BPB / 8], b % BPB);
  }

  lemma ShiftedBit(x: Byte, k: nat)
    ensures ByteBit(x, k) <==> (x >> (k % 8)) & 1 == 1
  {
    assert Mask(k) == [1, 2, 4, 8, 16, 32, 64, 128][k % 8];
  }

  function MarkUsed(sb: Super, d: seq<Block>, b: nat): seq<Block>
    requires LayoutOk(sb) && |d| == sb.size && b < sb.size
  {
    var m := MapBlock(sb, b);
    d[m := d[m][b % BPB / 8 := d[m][b % BPB / 8] | Mask(b % BPB)]]
  }

  function MarkFree(sb: Super, d: seq<Block>, b: nat): seq<Block>
    requires LayoutOk(sb) && |d| == sb.size && b < sb.size
  {
    var m := MapBlock(sb, b);
    d[m := d[m][b % BPB / 8 := d[m][b % BPB / 8] & !Mask(b % BPB)]]
  }

  lemma BitMarkUsed(sb: Super, d: seq<Block>, b: nat, x: nat)
    requires LayoutOk(sb) && |d| == sb.size && b < sb.size && x < sb.size
    ensures Bit(sb, MarkUsed(sb, d, b), x) == (Bit(sb, d, x) || x == b)
  {
    var m, mx := MapBlock(sb, b), MapBlock(sb, x);
    SetMask(d[m][b % BPB / 8], b % BPB, x % BPB);
  }

  lemma BitMarkFree(sb: Super, d: seq<Block>, b: nat, x: nat)
    requires LayoutOk(sb) && |d| == sb.size && b < sb.size && x < sb.size
    ensures Bit(sb, MarkFree(sb, d, b), x) == (Bit(sb, d, x) && x != b)
  {}

  /** Writing a data block does not touch the free map. */
  lemma BitDataWrite(sb: Super, d: seq<Block>, a: nat, v: Block, x: nat)
    requires LayoutOk(sb) && |d| == sb.size && sb.datastart <= a < sb.size && x < sb.size
    ensures Bit(sb, d[a := v], x) == Bit(sb, d, x)
  {}
}
