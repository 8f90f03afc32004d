/** Disk blocks as the kernel sees them: 512 bytes, read either as bytes, as 128
    little-endian 32-bit words (log header, indirect block, inode) or as 4096 bits
    (free bitmap). */
module Blocks {

  const BSIZE: nat := 512
  const WORDS: nat := 128
  const BPB: nat := 4096

  type Byte = x: int | 0 <= x < 256
  type Word = x: int | 0 <= x < 0x1_0000_0000
  type Block = b: seq<Byte> | |b| == 512 witness seq(512, _ => 0)

  function Zero(): Block {
    seq(512, _ => 0)
  }

  /** The 32-bit word at index i, least significant byte first. */
  function GetWord(b: Block, i: nat): Word
    requires i < WORDS
  {
    var b0: int, b1: int, b2: int, b3: int := b[4 * i], b[4 * i + 1], b[4 * i + 2], b[4 * i + 3];
    b0 + 0x100 * (b1 + 0x100 * (b2 + 0x100 * b3))
  }

  function SetWord(b: Block, i: nat, w: Word): Block
    requires i < WORDS
  {
    var w1 := w / 0x100;
    var w2 := w1 / 0x100;
    b[4 * i := w % 0x100][4 * i + 1 := w1 % 0x100][4 * i + 2 := w2 % 0x100][4 * i + 3 := w2 / 0x100]
  }

  /** A word store changes that word and no other. */
  lemma GetSetWord(b: Block, i: nat, w: Word, j: nat)
    requires i < WORDS && j < WORDS
    ensures GetWord(SetWord(b, i, w), j) == if i == j then w else GetWord(b, j)
  {
    var c := SetWord(b, i, w);
    if i != j {
      assert forall k :: 4 * j <= k < 4 * j + 4 ==> c[k] == b[k];
    }
  }

  lemma ZeroWord(i: nat)
    requires i < WORDS
    ensures GetWord(Zero(), i) == 0
  {
  }

  /** Bit k of x, that is `x & (1 << k)`. */
  predicate BitOf(x: nat, k: nat) {
    if k == 0 then x % 2 == 1 else BitOf(x / 2, k - 1)
  }

  /** `x | (1 << k)` */
  function OrBit(x: nat, k: nat): nat {
    if k == 0 then x / 2 * 2 + 1 else 2 * OrBit(x / 2, k - 1) + x % 2
  }

  /** `x & ~(1 << k)` */
  function MaskBit(x: nat, k: nat): nat {
    if k == 0 then x / 2 * 2 else 2 * MaskBit(x / 2, k - 1) + x % 2
  }

  function Pow2(m: nat): (p: nat)
    ensures p > 0
  {
    if m == 0 then 1 else 2 * Pow2(m - 1)
  }

  /** Setting or clearing a bit below m keeps an m-bit number an m-bit number. */
  lemma {:induction false} BitBound(x: nat, k: nat, m: nat)
    requires k < m && x < Pow2(m)
    ensures OrBit(x, k) < Pow2(m) && MaskBit(x, k) < Pow2(m)
  {
    var h := x / 2;
    assert x == 2 * h + x % 2 && Pow2(m) == 2 * Pow2(m - 1);
    if k > 0 {
      BitBound(h, k - 1, m - 1);
    }
  }

  lemma {:induction false} BitLaws(x: nat, k: nat, j: nat)
    ensures BitOf(OrBit(x, k), j) <==> (k == j || BitOf(x, j))
    ensures BitOf(MaskBit(x, k), j) <==> (k != j && BitOf(x, j))
  {
    if k > 0 && j > 0 {
      BitLaws(x / 2, k - 1, j - 1);
    }
  }

  predicate GetBit(b: Block, i: nat)
    requires i < BPB
  {
    BitOf(b[i / 8], i % 8)
  }

  function SetBit(b: Block, i: nat): Block
    requires i < BPB
  {
    BitBound(b[i / 8], i % 8, 8);
    b[i / 8 := OrBit(b[i / 8], i % 8)]
  }

  function ClearBit(b: Block, i: nat): Block
    requires i < BPB
  {
    BitBound(b[i / 8], i % 8, 8);
    b[i / 8 := MaskBit(b[i / 8], i % 8)]
  }

  /** Setting bit i sets that bit and leaves the other 4095 alone. */
  lemma GetSetBit(b: Block, i: nat, j: nat)
    requires i < BPB && j < BPB
    ensures GetBit(SetBit(b, i), j) <==> (i == j || GetBit(b, j))
  {
    BitLaws(b[i / 8], i % 8, j % 8);
  }

  lemma GetClearBit(b: Block, i: nat, j: nat)
    requires i < BPB && j < BPB
    ensures GetBit(ClearBit(b, i), j) <==> (i != j && GetBit(b, j))
  {
    BitLaws(b[i / 8], i % 8, j % 8);
  }
}
