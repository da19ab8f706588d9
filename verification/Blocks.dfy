/** Disk blocks: kernel/fs.h fixes the block size, and both the log header and
    an indirect block are read as arrays of little-endian 32-bit words. */
module Blocks {

  const BSIZE := 1024
  const WORDS := 256             // BSIZE / sizeof(uint)
  const TWO32 := 0x1_0000_0000

  type byte = x: nat | x < 256 witness 0
  type uint = x: nat | x < TWO32 witness 0
  type Block = b: seq<byte> | |b| == BSIZE witness seq(BSIZE, _ => 0)

  function ZeroBlock(): Block { seq(BSIZE, _ => 0) }

  /** Word i of a block, lowest byte first. */
  function GetWord(b: Block, i: nat): (w: uint)
    requires i < WORDS
  {
    var b0: nat, b1: nat, b2: nat, b3: nat := b[4*i], b[4*i+1], b[4*i+2], b[4*i+3];
    b0 + 0x100 * b1 + 0x1_0000 * b2 + 0x100_0000 * b3
  }

  /** Word i is stored, lowest byte first. */
  function PutWord(b: Block, i: nat, w: uint): (r: Block)
    requires i < WORDS
  {
    b[4*i := w % 0x100][4*i+1 := w / 0x100 % 0x100][4*i+2 := w / 0x1_0000 % 0x100][4*i+3 := w / 0x100_0000]
  }

  /** A stored word is read back, and no other word moves. */
  lemma GetPut(b: Block, i: nat, w: uint, j: nat)
    requires i < WORDS && j < WORDS
    ensures GetWord(PutWord(b, i, w), j) == if i == j then w else GetWord(b, j)
  {
    if i == j {
      WordBytes(w);
    } else {
      var r := PutWord(b, i, w);
      assert r[4*j] == b[4*j] && r[4*j+1] == b[4*j+1] && r[4*j+2] == b[4*j+2] && r[4*j+3] == b[4*j+3];
    }
  }

  lemma WordBytes(w: uint)
    ensures w % 0x100 + 0x100 * (w / 0x100 % 0x100) + 0x1_0000 * (w / 0x1_0000 % 0x100)
            + 0x100_0000 * (w / 0x100_0000) == w
  {
    assert w / 0x1_0000 == w / 0x100 / 0x100;
    assert w / 0x100_0000 == w / 0x1_0000 / 0x100;
  }

  lemma ZeroWord(i: nat)
    requires i < WORDS
    ensures GetWord(ZeroBlock(), i) == 0
  {
  }
}
