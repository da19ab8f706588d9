/** The inode and block layer of kernel/fs.c: which block belongs to which slot of which inode. A disk
    block is what bread returns for it. */
module Inodes {
  import opened Blocks
  import opened Bitmap

  const NDIRECT := 12
  const NINDIRECT := 256            // BSIZE / sizeof(uint)
  const MAXFILE := 268              // NDIRECT + NINDIRECT

  /** The parts of the superblock that matter here; data blocks begin at `data`. */
  datatype Super = Super(size: nat, bmapstart: nat, inodestart: nat, data: nat)

  datatype Inode = Inode(addrs: seq<uint>, size: nat)

  /** What a block is used for. Pending: handed out by balloc and not yet in any inode. Data: block k of
      the file of an inode. */
  datatype Owner = Free | Meta | Pending | Data(ino: nat, k: nat) | Indirect(ino: nat)

  datatype Fs = Fs(sb: Super, disk: seq<Block>, inodes: seq<Inode>, owner: seq<Owner>)

  predicate Shape(f: Fs) {
    && f.sb.size < TWO32 && |f.disk| == |f.owner| == f.sb.size && 0 < f.sb.data <= f.sb.size
    && f.sb.bmapstart + f.sb.size / 8192 < f.sb.data && 0 < f.sb.bmapstart
    && |f.inodes| <= 16 * (f.sb.bmapstart - f.sb.inodestart)
    && forall i :: 0 <= i < |f.inodes| ==> |f.inodes[i].addrs| == 13
  }

  /** Block k of a file: ip->addrs[k], or an entry of the indirect block; 0 when there is none. */
  function Slot(disk: seq<Block>, ip: Inode, k: nat): uint
    requires |ip.addrs| == 13 && k < MAXFILE
  {
    if k < NDIRECT then ip.addrs[k]
    else if 0 < ip.addrs[12] < |disk| then GetWord(disk[ip.addrs[12]], k - 12)
    else 0
  }

  predicate SlotOk(f: Fs, i: nat, k: nat)
    requires Shape(f) && i < |f.inodes| && k < MAXFILE
  {
    var b := Slot(f.disk, f.inodes[i], k);
    b != 0 ==> b < f.sb.size && f.owner[b] == Data(i, k)
  }

  predicate IndOk(f: Fs, i: nat)
    requires Shape(f) && i < |f.inodes|
  {
    var b := f.inodes[i].addrs[12];
    b != 0 ==> b < f.sb.size && f.owner[b] == Indirect(i)
  }

  /** The bit of a block is set exactly when the block is in use, and a block in use has its place. */
  predicate BlockOk(f: Fs, b: nat)
    requires Shape(f) && b < f.sb.size
  {
    && (Bit(f.disk, f.sb.bmapstart, b) <==> f.owner[b] != Free)
    && (f.owner[b] == Meta <==> b < f.sb.data)
    && match f.owner[b]
       case Data(i, k) => i < |f.inodes| && k < MAXFILE && Slot(f.disk, f.inodes[i], k) == b
       case Indirect(i) => i < |f.inodes| && f.inodes[i].addrs[12] == b
       case _ => true
  }

  predicate Inv(f: Fs) {
    && Shape(f)
    && (forall i :: 0 <= i < |f.inodes| ==> IndOk(f, i))
    && (forall i, k :: 0 <= i < |f.inodes| && 0 <= k < MAXFILE ==> SlotOk(f, i, k))
    && (forall b :: 0 <= b < f.sb.size ==> BlockOk(f, b))
  }

  /** Between calls nothing is handed out without being placed. */
  predicate Settled(f: Fs) {
    Pending !in f.owner
  }

  /** Block b is in some inode: as its indirect block, or in one of its slots. */
  predicate InUse(f: Fs, b: nat)
    requires Shape(f)
  {
    || (exists n :: 0 <= n < |f.inodes| && f.inodes[n].addrs[12] == b)
    || (exists n, m :: 0 <= n < |f.inodes| && 0 <= m < MAXFILE && Slot(f.disk, f.inodes[n], m) == b)
  }

  /** A bitmap bit is set exactly when the block is metadata or is in an inode. */
  lemma Ownership(f: Fs, b: nat)
    requires Inv(f) && Settled(f) && 0 < b < f.sb.size
    ensures Bit(f.disk, f.sb.bmapstart, b) <==> b < f.sb.data || InUse(f, b)
  {
    assert BlockOk(f, b) && f.owner[b] in f.owner;
    forall n | 0 <= n < |f.inodes| && f.inodes[n].addrs[12] == b ensures f.owner[b] != Free {
      assert IndOk(f, n);
    }
    forall n, m | 0 <= n < |f.inodes| && 0 <= m < MAXFILE && Slot(f.disk, f.inodes[n], m) == b
      ensures f.owner[b] != Free
    {
      assert SlotOk(f, n, m);
    }
  }

  /** And it is there only once: in one slot of one inode, or the indirect block of one inode. */
  lemma OwnedOnce(f: Fs, b: nat, i: nat, k: nat, j: nat, l: nat)
    requires Inv(f) && 0 < b < f.sb.size && i < |f.inodes| && j < |f.inodes| && k < MAXFILE && l < MAXFILE
    ensures Slot(f.disk, f.inodes[i], k) == b == Slot(f.disk, f.inodes[j], l) ==> i == j && k == l
    ensures Slot(f.disk, f.inodes[i], k) == b ==> f.inodes[j].addrs[12] != b
    ensures f.inodes[i].addrs[12] == b == f.inodes[j].addrs[12] ==> i == j
    ensures Slot(f.disk, f.inodes[i], k) == b || f.inodes[i].addrs[12] == b ==> f.sb.data <= b
  {
    assert BlockOk(f, b) && SlotOk(f, i, k) && SlotOk(f, j, l) && IndOk(f, i) && IndOk(f, j);
  }

  // ---------- blocks that are no indirect blocks ----------

  /** d differs from f.disk only in the bitmap and in blocks that belong to no indirect block. */
  predicate SameMaps(f: Fs, d: seq<Block>) {
    && |d| == |f.disk| == |f.owner|
    && forall b :: 0 <= b < |d| && f.owner[b].Indirect? ==> d[b] == f.disk[b]
  }

  lemma SlotKept(f: Fs, d: seq<Block>, i: nat, k: nat)
    requires Shape(f) && i < |f.inodes| && k < MAXFILE && IndOk(f, i) && SameMaps(f, d)
    ensures Slot(d, f.inodes[i], k) == Slot(f.disk, f.inodes[i], k)
  {
  }

  // ---------- balloc ----------

  /** balloc of block b, and bzero */
  function Alloc(f: Fs, b: nat): Fs
    requires Shape(f) && b < f.sb.size
  {
    Fs(f.sb, PutDiskBit(f.disk, f.sb.bmapstart, b, true)[b := ZeroBlock()], f.inodes, f.owner[b := Pending])
  }

  lemma AllocMaps(f: Fs, b: nat)
    requires Inv(f) && b < f.sb.size && f.owner[b] == Free
    ensures SameMaps(f, Alloc(f, b).disk)
  {
    var m := f.sb.bmapstart + b / 8192;
    assert BlockOk(f, m);
  }

  lemma AllocBlock(f: Fs, b: nat, c: nat)
    requires Inv(f) && b < f.sb.size && f.owner[b] == Free && c < f.sb.size
    ensures BlockOk(Alloc(f, b), c)
  {
    assert BlockOk(f, b) && BlockOk(f, c);
    var g := Alloc(f, b);
    var m := f.sb.bmapstart + c / 8192;
    assert BlockOk(f, m);
    PutDiskBitAt(f.disk, f.sb.bmapstart, b, true, c);
    assert g.disk[m] == PutDiskBit(f.disk, f.sb.bmapstart, b, true)[m];
    AllocMaps(f, b);
    if f.owner[c].Data? {
      assert IndOk(f, f.owner[c].ino);
      SlotKept(f, g.disk, f.owner[c].ino, f.owner[c].k);
    }
  }

  lemma AllocInv(f: Fs, b: nat)
    requires Inv(f) && b < f.sb.size && f.owner[b] == Free
    ensures Inv(Alloc(f, b))
  {
    var g := Alloc(f, b);
    AllocMaps(f, b);
    forall i | 0 <= i < |g.inodes| ensures IndOk(g, i) {
      assert IndOk(f, i);
    }
    forall i, k | 0 <= i < |g.inodes| && 0 <= k < MAXFILE ensures SlotOk(g, i, k) {
      assert IndOk(f, i) && SlotOk(f, i, k);
      SlotKept(f, g.disk, i, k);
    }
    forall c | 0 <= c < g.sb.size ensures BlockOk(g, c) {
      AllocBlock(f, b, c);
    }
  }

  // ---------- placing a block ----------

  function SetAddr(ip: Inode, k: nat, b: uint): Inode
    requires k < |ip.addrs|
  {
    Inode(ip.addrs[k := b], ip.size)
  }

  /** Block b becomes a direct block of inode i. */
  function PlaceDirect(f: Fs, i: nat, k: nat, b: uint): Fs
    requires Shape(f) && i < |f.inodes| && k < NDIRECT && b < f.sb.size
  {
    Fs(f.sb, f.disk, f.inodes[i := SetAddr(f.inodes[i], k, b)], f.owner[b := Data(i, k)])
  }

  /** Block b becomes the indirect block of inode i. */
  function PlaceIndirect(f: Fs, i: nat, b: uint): Fs
    requires Shape(f) && i < |f.inodes| && b < f.sb.size
  {
    Fs(f.sb, f.disk, f.inodes[i := SetAddr(f.inodes[i], 12, b)], f.owner[b := Indirect(i)])
  }

  /** Block b becomes an entry of the indirect block. */
  function PlaceEntry(f: Fs, i: nat, k: nat, b: uint): Fs
    requires Shape(f) && i < |f.inodes| && NDIRECT <= k < MAXFILE && b < f.sb.size &&
             0 < f.inodes[i].addrs[12] < f.sb.size
  {
    var d := f.inodes[i].addrs[12];
    Fs(f.sb, f.disk[d := PutWord(f.disk[d], k - 12, b)], f.inodes, f.owner[b := Data(i, k)])
  }

  /** A block that balloc has just handed out for an empty slot. */
  predicate Ready(f: Fs, i: nat, k: nat, b: uint) {
    && Inv(f) && i < |f.inodes| && k < MAXFILE && Slot(f.disk, f.inodes[i], k) == 0
    && 0 < b < f.sb.size && f.owner[b] == Pending && f.disk[b] == ZeroBlock()
  }

  lemma PlaceDirectInv(f: Fs, i: nat, k: nat, b: uint)
    requires Ready(f, i, k, b) && k < NDIRECT
    ensures Inv(PlaceDirect(f, i, k, b))
  {
    var g := PlaceDirect(f, i, k, b);
    forall j | 0 <= j < |g.inodes| ensures IndOk(g, j) {
      assert IndOk(f, j);
    }
    forall j, l | 0 <= j < |g.inodes| && 0 <= l < MAXFILE ensures SlotOk(g, j, l) {
      assert SlotOk(f, j, l) && IndOk(f, j);
    }
    forall c | 0 <= c < g.sb.size ensures BlockOk(g, c) {
      assert BlockOk(f, c);
    }
  }

  lemma ZeroSlot(disk: seq<Block>, ip: Inode, b: uint, k: nat)
    requires |ip.addrs| == 13 && ip.addrs[12] == b < |disk| && disk[b] == ZeroBlock() && NDIRECT <= k < MAXFILE
    ensures Slot(disk, ip, k) == 0
  {
    ZeroWord(k - 12);
  }

  lemma PlaceIndirectInv(f: Fs, i: nat, b: uint)
    requires Inv(f) && i < |f.inodes| && f.inodes[i].addrs[12] == 0 && 0 < b < f.sb.size && f.owner[b] == Pending &&
             f.disk[b] == ZeroBlock()
    ensures Inv(PlaceIndirect(f, i, b))
  {
    var g := PlaceIndirect(f, i, b);
    forall j | 0 <= j < |g.inodes| ensures IndOk(g, j) {
      assert IndOk(f, j);
    }
    forall j, l | 0 <= j < |g.inodes| && 0 <= l < MAXFILE ensures SlotOk(g, j, l) {
      assert SlotOk(f, j, l) && IndOk(f, j);
      if j == i && l >= NDIRECT {
        ZeroSlot(g.disk, g.inodes[i], b, l);
      }
    }
    forall c | 0 <= c < g.sb.size ensures BlockOk(g, c) {
      assert BlockOk(f, c);
    }
  }

  lemma EntrySlot(f: Fs, i: nat, k: nat, b: uint, j: nat, l: nat)
    requires Inv(f) && i < |f.inodes| && NDIRECT <= k < MAXFILE && b < f.sb.size &&
             0 < f.inodes[i].addrs[12] < f.sb.size && j < |f.inodes| && l < MAXFILE
    ensures Slot(PlaceEntry(f, i, k, b).disk, f.inodes[j], l) == if j == i && l == k then b
            else Slot(f.disk, f.inodes[j], l)
  {
    var d := f.inodes[i].addrs[12];
    assert IndOk(f, i) && IndOk(f, j);
    if l >= NDIRECT && f.inodes[j].addrs[12] == d {
      GetPut(f.disk[d], k - 12, b, l - 12);
    }
  }

  lemma EntryBit(f: Fs, i: nat, k: nat, b: uint, c: nat)
    requires Inv(f) && i < |f.inodes| && NDIRECT <= k < MAXFILE && b < f.sb.size &&
             0 < f.inodes[i].addrs[12] < f.sb.size && c < f.sb.size
    ensures Bit(PlaceEntry(f, i, k, b).disk, f.sb.bmapstart, c) == Bit(f.disk, f.sb.bmapstart, c)
  {
    assert IndOk(f, i);
    assert BlockOk(f, f.sb.bmapstart + c / 8192);
  }

  lemma PlaceEntryInv(f: Fs, i: nat, k: nat, b: uint)
    requires Ready(f, i, k, b) && NDIRECT <= k && 0 < f.inodes[i].addrs[12]
    ensures f.inodes[i].addrs[12] < f.sb.size && Inv(PlaceEntry(f, i, k, b))
  {
    assert IndOk(f, i);
    var g := PlaceEntry(f, i, k, b);
    forall j | 0 <= j < |g.inodes| ensures IndOk(g, j) {
      assert IndOk(f, j);
    }
    forall j, l | 0 <= j < |g.inodes| && 0 <= l < MAXFILE ensures SlotOk(g, j, l) {
      assert SlotOk(f, j, l);
      EntrySlot(f, i, k, b, j, l);
    }
    forall c | 0 <= c < g.sb.size ensures BlockOk(g, c) {
      assert BlockOk(f, c);
      EntryBit(f, i, k, b, c);
      if g.owner[c].Data? {
        EntrySlot(f, i, k, b, g.owner[c].ino, g.owner[c].k);
      }
    }
  }

  // ---------- bfree ----------

  /** bfree of block b */
  function Released(f: Fs, b: nat): Fs
    requires Shape(f) && b < f.sb.size
  {
    Fs(f.sb, PutDiskBit(f.disk, f.sb.bmapstart, b, false), f.inodes, f.owner[b := Free])
  }

  // ---------- the contents of files ----------

  /** What a read of byte p of file i gives; a block that is not there reads as zeros. */
  function ByteAt(f: Fs, i: nat, p: nat): byte
    requires Shape(f) && i < |f.inodes| && p < MAXFILE * 1024
  {
    var b := Slot(f.disk, f.inodes[i], p / 1024);
    if 0 < b < f.sb.size then f.disk[b][p % 1024] else 0
  }

  /** The data of a block is replaced. */
  function WriteData(f: Fs, b: nat, x: Block): Fs
    requires Shape(f) && b < f.sb.size
  {
    Fs(f.sb, f.disk[b := x], f.inodes, f.owner)
  }

  lemma WriteDataInv(f: Fs, b: nat, x: Block)
    requires Inv(f) && b < f.sb.size && (f.owner[b].Data? || f.owner[b] == Free)
    ensures Inv(WriteData(f, b, x))
  {
    var g := WriteData(f, b, x);
    assert SameMaps(f, g.disk);
    forall i | 0 <= i < |g.inodes| ensures IndOk(g, i) {
      assert IndOk(f, i);
    }
    forall i, k | 0 <= i < |g.inodes| && 0 <= k < MAXFILE ensures SlotOk(g, i, k) {
      assert SlotOk(f, i, k) && IndOk(f, i);
      SlotKept(f, g.disk, i, k);
    }
    forall c | 0 <= c < g.sb.size ensures BlockOk(g, c) {
      assert BlockOk(f, c) && BlockOk(f, b) && BlockOk(f, f.sb.bmapstart + c / 8192);
      if f.owner[c].Data? {
        assert IndOk(f, f.owner[c].ino);
        SlotKept(f, g.disk, f.owner[c].ino, f.owner[c].k);
      }
    }
  }

  /** Only the bytes of that block of that file change. */
  lemma WriteDataAt(f: Fs, i: nat, k: nat, b: nat, x: Block, j: nat, p: nat)
    requires Inv(f) && i < |f.inodes| && k < MAXFILE && Slot(f.disk, f.inodes[i], k) == b != 0 && j < |f.inodes| &&
             p < MAXFILE * 1024
    ensures b < f.sb.size && f.owner[b] == Data(i, k)
    ensures ByteAt(WriteData(f, b, x), j, p) == if j == i && p / 1024 == k then x[p % 1024] else ByteAt(f, j, p)
  {
    assert SlotOk(f, i, k) && SlotOk(f, j, p / 1024) && IndOk(f, j);
    SlotKept(f, WriteData(f, b, x).disk, j, p / 1024);
  }
}
