/** Bytes of a block, and the free map that balloc() and bfree() of kernel/fs.c keep. */
module Bitmap {
  import opened Blocks

  const BSIZE := 1024
  /** Free-map bits in one block. */
  const BPB := 8192

  predicate IsByte(x: int) {
    0 <= x < 256
  }

  predicate IsPage(s: seq<int>) {
    |s| == BSIZE && forall i {:trigger s[i]} :: 0 <= i < BSIZE ==> IsByte(s[i])
  }

  /** Byte k of a little-endian word. */
  function WordByte(w: int, k: int): (x: int)
    ensures IsByte(x)
  {
    (if k == 0 then w else if k == 1 then w / 256 else if k == 2 then w / 65536 else w / 16777216) % 256
  }

  function Bytes(b: Block): (s: seq<int>)
    requires b.Full()
    ensures IsPage(s)
  {
    seq(BSIZE, i requires 0 <= i < BSIZE => WordByte(b.words[i / 4], i % 4))
  }

  function Pack(s: seq<int>): (b: Block)
    requires IsPage(s)
    ensures b.Full()
  {
    Block(seq(BWORDS, j requires 0 <= j < BWORDS =>
      s[4 * j] + 256 * s[4 * j + 1] + 65536 * s[4 * j + 2] + 16777216 * s[4 * j + 3]))
  }

  lemma WordBytes(a: int, b: int, c: int, d: int)
    requires IsByte(a) && IsByte(b) && IsByte(c) && IsByte(d)
    ensures var w := a + 256 * b + 65536 * c + 16777216 * d;
            WordByte(w, 0) == a && WordByte(w, 1) == b && WordByte(w, 2) == c && WordByte(w, 3) == d
  {
    var w := a + 256 * b + 65536 * c + 16777216 * d;
    assert w / 256 == b + 256 * c + 65536 * d;
    assert w / 65536 == c + 256 * d;
    assert w / 16777216 == d;
  }

  lemma BytesPack(s: seq<int>)
    requires IsPage(s)
    ensures Bytes(Pack(s)) == s
  {
    forall i | 0 <= i < BSIZE ensures Bytes(Pack(s))[i] == s[i] {
      var j := i / 4;
      WordBytes(s[4 * j], s[4 * j + 1], s[4 * j + 2], s[4 * j + 3]);
      assert i == 4 * j + i % 4;
    }
  }

  // ----- bits -----

  function Mask(k: int): (m: int)
    ensures m > 0
  {
    if k == 0 then 1 else if k == 1 then 2 else if k == 2 then 4 else if k == 3 then 8
    else if k == 4 then 16 else if k == 5 then 32 else if k == 6 then 64 else 128
  }

  predicate BitOf(x: int, k: int) {
    (x / Mask(k)) % 2 == 1
  }

  /** x with bit k set or cleared. */
  function WithBit(x: int, k: int, v: bool): int {
    if BitOf(x, k) == v then x else if v then x + Mask(k) else x - Mask(k)
  }

  predicate IsBit(b: int) {
    0 <= b <= 1
  }

  predicate AreBits(b: seq<int>) {
    |b| == 8 && IsBit(b[0]) && IsBit(b[1]) && IsBit(b[2]) && IsBit(b[3]) && IsBit(b[4]) && IsBit(b[5]) && IsBit(b[6])
        && IsBit(b[7])
  }

  function Sum(b: seq<int>): int
    requires |b| == 8
  {
    b[0] + 2 * b[1] + 4 * b[2] + 8 * b[3] + 16 * b[4] + 32 * b[5] + 64 * b[6] + 128 * b[7]
  }

  /** Dropping the low digits of a binary number. */
  lemma LowHalf(b: seq<int>)
    requires AreBits(b)
    ensures Sum(b) / 2 == b[1] + 2 * b[2] + 4 * b[3] + 8 * b[4] + 16 * b[5] + 32 * b[6] + 64 * b[7]
    ensures Sum(b) / 4 == b[2] + 2 * b[3] + 4 * b[4] + 8 * b[5] + 16 * b[6] + 32 * b[7]
    ensures Sum(b) / 8 == b[3] + 2 * b[4] + 4 * b[5] + 8 * b[6] + 16 * b[7]
  {
  }

  lemma HighHalf(b: seq<int>)
    requires AreBits(b)
    ensures Sum(b) / 16 == b[4] + 2 * b[5] + 4 * b[6] + 8 * b[7]
    ensures Sum(b) / 32 == b[5] + 2 * b[6] + 4 * b[7]
    ensures Sum(b) / 64 == b[6] + 2 * b[7] && Sum(b) / 128 == b[7]
  {
  }

  lemma LowBits(b: seq<int>, j: int)
    requires AreBits(b) && 0 <= j < 4
    ensures BitOf(Sum(b), j) <==> b[j] == 1
  {
    LowHalf(b);
  }

  lemma HighBits(b: seq<int>, j: int)
    requires AreBits(b) && 4 <= j < 8
    ensures BitOf(Sum(b), j) <==> b[j] == 1
  {
    HighHalf(b);
  }

  lemma SumBits(b: seq<int>, j: int)
    requires AreBits(b) && 0 <= j < 8
    ensures IsByte(Sum(b)) && (BitOf(Sum(b), j) <==> b[j] == 1)
  {
    if j < 4 {
      LowBits(b, j);
    } else {
      HighBits(b, j);
    }
  }

  function Bits(x: int): (b: seq<int>)
    ensures |b| == 8
  {
    [x % 2, x / 2 % 2, x / 2 / 2 % 2, x / 2 / 2 / 2 % 2, x / 2 / 2 / 2 / 2 % 2, x / 2 / 2 / 2 / 2 / 2 % 2,
     x / 2 / 2 / 2 / 2 / 2 / 2 % 2, x / 2 / 2 / 2 / 2 / 2 / 2 / 2 % 2]
  }

  lemma BitsSum(x: int)
    requires IsByte(x)
    ensures AreBits(Bits(x)) && Sum(Bits(x)) == x
  {
  }

  lemma MoveBit(b: seq<int>, k: int, v: int)
    requires AreBits(b) && 0 <= k < 8 && IsBit(v)
    ensures AreBits(b[k := v])
    ensures Sum(b[k := v]) == if v == b[k] then Sum(b) else if v == 1 then Sum(b) + Mask(k) else Sum(b) - Mask(k)
  {
  }

  lemma WithBitSum(b: seq<int>, k: int, v: bool)
    requires AreBits(b) && 0 <= k < 8
    ensures AreBits(b[k := if v then 1 else 0])
    ensures WithBit(Sum(b), k, v) == Sum(b[k := if v then 1 else 0])
  {
    SumBits(b, k);
    MoveBit(b, k, if v then 1 else 0);
  }

  lemma WithBitOk(x: int, k: int, v: bool, j: int)
    requires IsByte(x) && 0 <= k < 8 && 0 <= j < 8
    ensures IsByte(WithBit(x, k, v))
    ensures (BitOf(WithBit(x, k, v), j) <==> if j == k then v else BitOf(x, j))
  {
    BitsSum(x);
    WithBitSum(Bits(x), k, v);
    SumBits(Bits(x), j);
    SumBits(Bits(x)[k := if v then 1 else 0], j);
  }

  // ----- the free map -----

  /** The start of the free map and the number of blocks it has bits for. */
  datatype Map = Map(start: int, size: int)

  /** The free map and all blocks behind it are there. */
  ghost predicate MapFits(m: Map, blocks: Image) {
    && m.start >= 0 && m.size > 0 && m.start + (m.size - 1) / BPB < |blocks|
    && forall i {:trigger blocks[i]} :: m.start <= i < |blocks| ==> blocks[i].Full()
  }

  /** Block of the free map that holds the bit of block b. */
  function BitBlock(m: Map, b: int): int {
    b / BPB + m.start
  }

  /** Bit number bi of a free-map block. */
  predicate BlockBit(blk: Block, bi: int)
    requires blk.Full() && 0 <= bi < BPB
  {
    BitOf(Bytes(blk)[bi / 8], bi % 8)
  }

  predicate IsUsed(m: Map, blocks: Image, b: int)
    requires 0 <= BitBlock(m, b) < |blocks| && blocks[BitBlock(m, b)].Full()
  {
    BlockBit(blocks[BitBlock(m, b)], b % BPB)
  }

  /** A free-map block with bit number bi changed. */
  function Marked(blk: Block, bi: int, v: bool): Block
    requires blk.Full() && 0 <= bi < BPB
  {
    var data := Bytes(blk);
    WithBitOk(data[bi / 8], bi % 8, v, 0);
    Pack(data[bi / 8 := WithBit(data[bi / 8], bi % 8, v)])
  }

  lemma MarkedBit(blk: Block, bi: int, v: bool, ci: int)
    requires blk.Full() && 0 <= bi < BPB && 0 <= ci < BPB
    ensures BlockBit(Marked(blk, bi, v), ci) <==> if ci == bi then v else BlockBit(blk, ci)
  {
    var data, i, j, k, l := Bytes(blk), bi / 8, bi % 8, ci / 8, ci % 8;
    assert ci == bi <==> k == i && l == j;
    WithBitOk(data[i], j, v, l);
    var data' := data[i := WithBit(data[i], j, v)];
    BytesPack(data');
    assert Bytes(Marked(blk, bi, v)) == data';
  }

  /** The disk with the mark of block b changed. */
  function MarkIn(m: Map, blocks: Image, b: int, v: bool): Image
    requires MapFits(m, blocks) && 0 <= b < m.size
  {
    blocks[BitBlock(m, b) := Marked(blocks[BitBlock(m, b)], b % BPB, v)]
  }

  lemma Recombine(b: int, d: int)
    requires d > 0
    ensures b == d * (b / d) + b % d
  {
  }

  lemma SameBit(b: int, c: int)
    ensures b == c <==> b / BPB == c / BPB && b % BPB == c % BPB
  {
    Recombine(b, BPB);
    Recombine(c, BPB);
  }

  /** Marking one block leaves the marks of all others. */
  lemma MarkedOne(m: Map, blocks: Image, b: int, v: bool, c: int)
    requires MapFits(m, blocks) && 0 <= b < m.size && 0 <= c < m.size
    ensures MapFits(m, MarkIn(m, blocks, b, v))
    ensures IsUsed(m, MarkIn(m, blocks, b, v), c) <==> if c == b then v else IsUsed(m, blocks, c)
  {
    var bb := BitBlock(m, b);
    SameBit(b, c);
    MarkedBit(blocks[bb], b % BPB, v, c % BPB);
  }

  /** The first bits of a free-map block are all set. */
  ghost predicate UsedUpTo(m: Map, blocks: Image, n: int)
    requires MapFits(m, blocks)
  {
    forall c {:trigger IsUsed(m, blocks, c)} :: 0 <= c < n && c < m.size ==> IsUsed(m, blocks, c)
  }

  lemma BitPlace(b: int, k: int, bi: int)
    requires b == k * BPB && 0 <= bi < BPB
    ensures (b + bi) / BPB == k && (b + bi) % BPB == bi
  {
  }

  /** The inner scan: the bits of one free-map block, those of blocks from b. */
  method FindInBlock(m: Map, blocks: Image, b: int, ghost k: int) returns (r: int)
    requires MapFits(m, blocks) && b == k * BPB && 0 <= b < m.size && UsedUpTo(m, blocks, b)
    ensures r == -1 ==> UsedUpTo(m, blocks, b + BPB)
    ensures r != -1 ==> 0 <= r < m.size && !IsUsed(m, blocks, r) && UsedUpTo(m, blocks, r)
  {
    BitPlace(b, k, 0);
    var data := Bytes(blocks[BitBlock(m, b)]);
    var bi := 0;
    while bi < BPB && b + bi < m.size
      invariant 0 <= bi <= BPB && UsedUpTo(m, blocks, b + bi)
    {
      BitPlace(b, k, bi);
      if !BitOf(data[bi / 8], bi % 8) {
        return b + bi;
      }
      bi := bi + 1;
    }
    r := -1;
  }

  /** The scan of balloc(): the first clear bit, or -1. */
  method FindFree(m: Map, blocks: Image) returns (r: int)
    requires MapFits(m, blocks)
    ensures r == -1 ==> UsedUpTo(m, blocks, m.size)
    ensures r != -1 ==> 0 <= r < m.size && !IsUsed(m, blocks, r) && UsedUpTo(m, blocks, r)
  {
    var b := 0;
    ghost var k := 0;
    while b < m.size
      invariant b == k * BPB && k >= 0 && UsedUpTo(m, blocks, b)
    {
      r := FindInBlock(m, blocks, b, k);
      if r != -1 {
        return;
      }
      b := b + BPB;
      k := k + 1;
    }
    r := -1;
  }
}
