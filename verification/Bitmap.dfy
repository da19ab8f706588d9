/** The free map of kernel/fs.c: one bit per block, 8192 bits per bitmap block. */
module Bitmap {
  import opened Blocks

  const BPB := 8192                 // BSIZE * 8

  // ---------- the bits of a byte ----------

  function Pow2(k: nat): (p: nat)
    ensures p > 0
  {
    if k == 0 then 1 else 2 * Pow2(k - 1)
  }

  /** Bit k of x is set. */
  predicate BitOf(x: nat, k: nat)
    decreases k
  {
    if k == 0 then x % 2 == 1 else BitOf(x / 2, k - 1)
  }

  /** x with bit k set to v. */
  function PutBit(x: nat, k: nat, v: bool): nat
    decreases k
  {
    if k == 0 then x / 2 * 2 + (if v then 1 else 0) else PutBit(x / 2, k - 1, v) * 2 + x % 2
  }

  lemma {:induction false} PutBitAt(x: nat, k: nat, v: bool, j: nat)
    ensures BitOf(PutBit(x, k, v), j) == if j == k then v else BitOf(x, j)
    decreases k
  {
    if k == 0 {
      assert (x / 2 * 2 + (if v then 1 else 0)) / 2 == x / 2;
    } else {
      var y := PutBit(x / 2, k - 1, v);
      assert (y * 2 + x % 2) / 2 == y && (y * 2 + x % 2) % 2 == x % 2;
      if j > 0 {
        PutBitAt(x / 2, k - 1, v, j - 1);
      }
    }
  }

  /** Setting a clear bit adds its weight, and clearing a set one takes it away. */
  lemma {:induction false} PutBitIs(x: nat, k: nat, v: bool)
    ensures PutBit(x, k, v) == (if BitOf(x, k) == v then x else if v then x + Pow2(k) else x - Pow2(k))
    decreases k
  {
    if k > 0 {
      PutBitIs(x / 2, k - 1, v);
    }
  }

  lemma {:induction false} PutBitBound(x: nat, k: nat, v: bool, n: nat)
    requires x < Pow2(n) && k < n
    ensures PutBit(x, k, v) < Pow2(n)
    decreases k
  {
    if k > 0 {
      PutBitBound(x / 2, k - 1, v, n - 1);
    }
  }

  lemma PutBitByte(x: byte, k: nat, v: bool)
    requires k < 8
    ensures PutBit(x, k, v) < 256
  {
    assert Pow2(8) == 256 by {
      assert Pow2(1) == 2 && Pow2(2) == 4 && Pow2(3) == 8 && Pow2(4) == 16 && Pow2(5) == 32 && Pow2(6) == 64 &&
        Pow2(7) == 128;
    }
    PutBitBound(x, k, v, 8);
  }

  // ---------- the bits of a block ----------

  predicate BlockBit(x: Block, i: nat)
    requires i < BPB
  {
    BitOf(x[i / 8], i % 8)
  }

  function PutBlockBit(x: Block, i: nat, v: bool): Block
    requires i < BPB
  {
    PutBitByte(x[i / 8], i % 8, v);
    x[i / 8 := PutBit(x[i / 8], i % 8, v)]
  }

  lemma PutBlockBitAt(x: Block, i: nat, v: bool, j: nat)
    requires i < BPB && j < BPB
    ensures BlockBit(PutBlockBit(x, i, v), j) == if j == i then v else BlockBit(x, j)
  {
    PutBitAt(x[i / 8], i % 8, v, j % 8);
    assert j == i <==> j / 8 == i / 8 && j % 8 == i % 8;
  }

  // ---------- the bits of the disk ----------

  /** The bit of block b, in the bitmap that begins at block `start`. */
  predicate Bit(disk: seq<Block>, start: nat, b: nat)
    requires start + b / 8192 < |disk|
  {
    BlockBit(disk[start + b / 8192], b % 8192)
  }

  function PutDiskBit(disk: seq<Block>, start: nat, b: nat, v: bool): seq<Block>
    requires start + b / 8192 < |disk|
  {
    disk[start + b / 8192 := PutBlockBit(disk[start + b / 8192], b % 8192, v)]
  }

  /** Only the bit of b changes. */
  lemma PutDiskBitAt(disk: seq<Block>, start: nat, b: nat, v: bool, c: nat)
    requires start + b / 8192 < |disk| && start + c / 8192 < |disk|
    ensures Bit(PutDiskBit(disk, start, b, v), start, c) == if c == b then v else Bit(disk, start, c)
  {
    PutBlockBitAt(disk[start + b / 8192], b % 8192, v, c % 8192);
    assert c == b <==> c / 8192 == b / 8192 && c % 8192 == b % 8192;
  }

  /** The inner loop of balloc: the first of n bits of a bitmap block that is clear, or n. */
  method ScanBlock(x: Block, n: nat) returns (bi: nat)
    requires n <= BPB
    ensures bi <= n && (bi < n ==> !BlockBit(x, bi)) && forall c :: 0 <= c < bi ==> BlockBit(x, c)
  {
    bi := 0;
    while bi < n
      invariant 0 <= bi <= n && forall c :: 0 <= c < bi ==> BlockBit(x, c)
    {
      if !BlockBit(x, bi) {
        return;
      }
      bi := bi + 1;
    }
  }

  /** The search of balloc: the first block below size whose bit is clear, or size. */
  method FindFree(disk: seq<Block>, start: nat, size: nat) returns (f: nat)
    requires start + size / 8192 < |disk|
    ensures f <= size && (f < size ==> !Bit(disk, start, f))
    ensures forall c :: 0 <= c < f ==> Bit(disk, start, c)
  {
    var q := 0;                     // b / BPB
    while q * 8192 < size
      invariant 0 <= q && forall c :: 0 <= c < q * 8192 && c < size ==> Bit(disk, start, c)
      decreases size - q * 8192
    {
      var n := if size - q * 8192 < BPB then size - q * 8192 else BPB;
      var bi := ScanBlock(disk[start + q], n);
      forall c | q * 8192 <= c < q * 8192 + bi ensures Bit(disk, start, c) {
        assert c / 8192 == q && c % 8192 == c - q * 8192;
      }
      if bi < n {
        assert (q * 8192 + bi) / 8192 == q && (q * 8192 + bi) % 8192 == bi;
        return q * 8192 + bi;
      }
      q := q + 1;
    }
    return size;
  }

  lemma {:induction false} ZeroBit(k: nat)
    ensures !BitOf(0, k)
  {
    if k > 0 {
      ZeroBit(k - 1);
    }
  }

  /** The loop of mkfs that marks the first blocks as used. */
  method MarkUsed(used: nat) returns (x: Block)
    requires used < BPB
    ensures forall c :: 0 <= c < BPB ==> BlockBit(x, c) == (c < used)
  {
    x := ZeroBlock();
    forall c | 0 <= c < BPB ensures !BlockBit(x, c) {
      ZeroBit(c % 8);
    }
    var i := 0;
    while i < used
      invariant 0 <= i <= used && forall c :: 0 <= c < BPB ==> BlockBit(x, c) == (c < i)
    {
      ghost var y := x;
      x := PutBlockBit(x, i, true);
      forall c | 0 <= c < BPB ensures BlockBit(x, c) == (c < i + 1) {
        PutBlockBitAt(y, i, true, c);
      }
      i := i + 1;
    }
  }
}
