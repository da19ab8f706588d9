/** itrunc of kernel/fs.c: which blocks it gives back, and that nothing else changes. */
module Truncate {
  import opened Blocks
  import opened Bitmap
  import opened Inodes

  // ---------- freeing a list of blocks ----------

  /** bfree, skipped for block 0 */
  function Drop(f: Fs, b: nat): Fs {
    if 0 < b < f.sb.size && Shape(f) then Released(f, b) else f
  }

  /** The first n blocks of a list are freed. */
  function DropAll(f: Fs, bs: seq<uint>, n: nat): Fs
    requires n <= |bs|
  {
    if n == 0 then f else Drop(DropAll(f, bs, n - 1), bs[n - 1])
  }

  predicate InBitmap(sb: Super, b: nat) {
    sb.bmapstart <= b < sb.data
  }

  /** The list frees block c. */
  predicate Frees(bs: seq<uint>, c: nat) {
    c != 0 && c in bs
  }

  /** Block c in g, which is f after the blocks of the list were freed. */
  predicate FreedAt(f: Fs, g: Fs, bs: seq<uint>, c: nat) {
    && Shape(f) && Shape(g) && g.sb == f.sb && g.inodes == f.inodes && c < f.sb.size
    && g.owner[c] == (if Frees(bs, c) then Free else f.owner[c])
    && (Bit(g.disk, f.sb.bmapstart, c) <==> Bit(f.disk, f.sb.bmapstart, c) && !Frees(bs, c))
    && (!InBitmap(f.sb, c) ==> g.disk[c] == f.disk[c])
  }

  lemma DropAt(f: Fs, h: Fs, g: Fs, bs: seq<uint>, b: uint, c: nat)
    requires FreedAt(f, h, bs, c) && b < f.sb.size && g == Drop(h, b)
    ensures FreedAt(f, g, bs + [b], c)
  {
    if b != 0 {
      PutDiskBitAt(h.disk, f.sb.bmapstart, b, false, c);
    }
  }

  /** Freeing a list clears the bits of its blocks and changes no block outside the bitmap. */
  lemma {:induction false} DropAllAt(f: Fs, bs: seq<uint>, n: nat, c: nat)
    requires Shape(f) && n <= |bs| && c < f.sb.size && forall j :: 0 <= j < |bs| ==> bs[j] < f.sb.size
    ensures FreedAt(f, DropAll(f, bs, n), bs[..n], c)
  {
    if n > 0 {
      DropAllAt(f, bs, n - 1, c);
      DropAt(f, DropAll(f, bs, n - 1), DropAll(f, bs, n), bs[..n - 1], bs[n - 1], c);
      assert bs[..n] == bs[..n - 1] + [bs[n - 1]];
    }
  }

  // ---------- the blocks of an inode ----------

  /** What itrunc frees, in its order: the slots of the inode, and then its indirect block. */
  function FileBlocks(f: Fs, x: nat): (bs: seq<uint>)
    requires x < |f.inodes| && |f.inodes[x].addrs| == 13
    ensures |bs| == MAXFILE + 1 && bs[MAXFILE] == f.inodes[x].addrs[12]
    ensures forall k :: 0 <= k < MAXFILE ==> bs[k] == Slot(f.disk, f.inodes[x], k)
  {
    Slots(f.disk, f.inodes[x], MAXFILE) + [f.inodes[x].addrs[12]]
  }

  function Slots(disk: seq<Block>, ip: Inode, n: nat): (bs: seq<uint>)
    requires |ip.addrs| == 13 && n <= MAXFILE
    ensures |bs| == n && forall k :: 0 <= k < n ==> bs[k] == Slot(disk, ip, k)
  {
    if n == 0 then [] else Slots(disk, ip, n - 1) + [Slot(disk, ip, n - 1)]
  }

  /** A block of inode x: one of its slots, or its indirect block. */
  predicate Belongs(o: Owner, x: nat) {
    o == Indirect(x) || (o.Data? && o.ino == x)
  }

  /** A block is in the list of inode x exactly when it belongs to it. */
  lemma FreesIff(f: Fs, x: nat, c: nat)
    requires Inv(f) && x < |f.inodes| && c < f.sb.size
    ensures Frees(FileBlocks(f, x), c) <==> Belongs(f.owner[c], x)
  {
    var bs := FileBlocks(f, x);
    assert BlockOk(f, c) && BlockOk(f, 0);
    if Frees(bs, c) {
      var k :| 0 <= k < |bs| && bs[k] == c;
      assert if k < MAXFILE then SlotOk(f, x, k) else IndOk(f, x);
    }
    assert f.owner[c].Data? && f.owner[c].ino == x ==> bs[f.owner[c].k] in bs;
    assert bs[MAXFILE] in bs;
  }

  lemma InRange(f: Fs, x: nat)
    requires Inv(f) && x < |f.inodes|
    ensures forall j :: 0 <= j < MAXFILE + 1 ==> FileBlocks(f, x)[j] < f.sb.size
  {
    forall j | 0 <= j < MAXFILE + 1 ensures FileBlocks(f, x)[j] < f.sb.size {
      assert if j < MAXFILE then SlotOk(f, x, j) else IndOk(f, x);
    }
  }

  /** No block is twice in the list. */
  lemma FreedOnce(f: Fs, x: nat, j: nat, k: nat)
    requires Inv(f) && x < |f.inodes| && j < k <= MAXFILE && FileBlocks(f, x)[k] != 0
    ensures FileBlocks(f, x)[j] != FileBlocks(f, x)[k]
  {
    assert SlotOk(f, x, j) && if k < MAXFILE then SlotOk(f, x, k) else IndOk(f, x);
  }

  // ---------- the size ----------

  /** The size of inode x becomes n. */
  function SetSize(f: Fs, x: nat, n: nat): Fs
    requires x < |f.inodes|
  {
    Fs(f.sb, f.disk, f.inodes[x := Inode(f.inodes[x].addrs, n)], f.owner)
  }

  lemma SizeInv(f: Fs, x: nat, n: nat)
    requires Inv(f) && x < |f.inodes|
    ensures Inv(SetSize(f, x, n))
  {
    var g := SetSize(f, x, n);
    forall j | 0 <= j < |g.inodes| ensures IndOk(g, j) {
      assert IndOk(f, j);
    }
    forall j, l | 0 <= j < |g.inodes| && 0 <= l < MAXFILE ensures SlotOk(g, j, l) {
      assert SlotOk(f, j, l);
    }
    forall c | 0 <= c < g.sb.size ensures BlockOk(g, c) {
      assert BlockOk(f, c);
    }
  }

  // ---------- itrunc ----------

  function EmptyInode(): (ip: Inode)
    ensures |ip.addrs| == 13 && forall k :: 0 <= k < 13 ==> ip.addrs[k] == 0
  {
    Inode(Zeros(13), 0)
  }

  function Zeros(k: nat): seq<uint> {
    seq(k, _ => 0)
  }

  function Truncated(f: Fs, x: nat): Fs
    requires x < |f.inodes| && |f.inodes[x].addrs| == 13
  {
    var g := DropAll(f, FileBlocks(f, x), MAXFILE + 1);
    Fs(g.sb, g.disk, f.inodes[x := EmptyInode()], g.owner)
  }

  /** Block c afterwards: free if it belonged to x, as it was otherwise. */
  lemma TruncatedAt(f: Fs, x: nat, c: nat)
    requires Inv(f) && x < |f.inodes| && c < f.sb.size
    ensures var g := Truncated(f, x);
            && Shape(g) && g.sb == f.sb
            && g.owner[c] == (if Belongs(f.owner[c], x) then Free else f.owner[c])
            && (Bit(g.disk, f.sb.bmapstart, c) <==> Bit(f.disk, f.sb.bmapstart, c) && !Belongs(f.owner[c], x))
            && (!InBitmap(f.sb, c) ==> g.disk[c] == f.disk[c])
  {
    var bs := FileBlocks(f, x);
    InRange(f, x);
    DropAllAt(f, bs, MAXFILE + 1, c);
    assert bs[..MAXFILE + 1] == bs;
    FreesIff(f, x, c);
  }

  /** The slots of the other inodes stay. */
  lemma TruncatedSlot(f: Fs, x: nat, j: nat, k: nat)
    requires Inv(f) && x < |f.inodes| && j < |f.inodes| && k < MAXFILE
    ensures Slot(Truncated(f, x).disk, Truncated(f, x).inodes[j], k) == if j == x then 0
            else Slot(f.disk, f.inodes[j], k)
  {
    assert IndOk(f, j);
    TruncatedAt(f, x, f.inodes[j].addrs[12]);
    if f.inodes[j].addrs[12] != 0 {
      assert BlockOk(f, f.inodes[j].addrs[12]);
    }
  }

  lemma TruncatedBlock(f: Fs, x: nat, c: nat)
    requires Inv(f) && x < |f.inodes| && c < f.sb.size
    ensures Shape(Truncated(f, x)) && Truncated(f, x).sb == f.sb && BlockOk(Truncated(f, x), c)
  {
    assert BlockOk(f, c);
    TruncatedAt(f, x, c);
    if f.owner[c].Data? && f.owner[c].ino != x {
      TruncatedSlot(f, x, f.owner[c].ino, f.owner[c].k);
    }
  }

  /** What itrunc leaves: exactly the blocks of inode x are free, and nothing outside the bitmap and
      the inode changed. */
  ghost predicate GaveBackAll(f: Fs, g: Fs, x: nat) {
    && g.sb == f.sb && |g.owner| == |f.owner| && |g.disk| == |f.disk|
    && (forall b :: 0 <= b < |f.owner| ==> g.owner[b] == if Belongs(f.owner[b], x) then Free else f.owner[b])
    && (forall b :: 0 <= b < |f.disk| && !InBitmap(f.sb, b) ==> g.disk[b] == f.disk[b])
  }

  lemma TruncatedInv(f: Fs, x: nat)
    requires Inv(f) && x < |f.inodes|
    ensures Inv(Truncated(f, x))
  {
    var g := Truncated(f, x);
    TruncatedAt(f, x, 0);
    forall i | 0 <= i < |g.inodes| ensures IndOk(g, i) {
      assert IndOk(f, i);
      TruncatedAt(f, x, f.inodes[i].addrs[12]);
    }
    forall i, k | 0 <= i < |g.inodes| && 0 <= k < MAXFILE ensures SlotOk(g, i, k) {
      assert SlotOk(f, i, k);
      TruncatedSlot(f, x, i, k);
      TruncatedAt(f, x, Slot(f.disk, f.inodes[i], k));
    }
    forall c | 0 <= c < g.sb.size ensures BlockOk(g, c) {
      TruncatedBlock(f, x, c);
    }
  }

  /** itrunc frees exactly the blocks of inode x and changes nothing else. */
  lemma TruncatedIs(f: Fs, x: nat)
    requires Inv(f) && x < |f.inodes|
    ensures Inv(Truncated(f, x)) && GaveBackAll(f, Truncated(f, x), x)
  {
    TruncatedInv(f, x);
    TruncatedAt(f, x, 0);
    var g := Truncated(f, x);
    forall b | 0 <= b < f.sb.size
      ensures g.owner[b] == (if Belongs(f.owner[b], x) then Free else f.owner[b])
      ensures !InBitmap(f.sb, b) ==> g.disk[b] == f.disk[b]
    {
      TruncatedAt(f, x, b);
    }
  }

  // ---------- no panic on the way ----------

  /** The check of bfree fails: block b is in range, and its bit is clear. */
  predicate FreesFree(f: Fs, b: nat) {
    Shape(f) && 0 < b < f.sb.size && !Bit(f.disk, f.sb.bmapstart, b)
  }

  /** Every bfree of itrunc has a block of the file system, whose bit is set. */
  lemma NeverFreesFree(f: Fs, x: nat, k: nat)
    requires Inv(f) && x < |f.inodes| && k <= MAXFILE
    ensures var g := DropAll(f, FileBlocks(f, x), k); var b := FileBlocks(f, x)[k];
            Shape(g) && g.sb == f.sb && b < f.sb.size && !FreesFree(g, b)
  {
    var bs := FileBlocks(f, x);
    InRange(f, x);
    DropAllAt(f, bs, k, bs[k]);
    if bs[k] != 0 {
      assert BlockOk(f, bs[k]) && if k < MAXFILE then SlotOk(f, x, k) else IndOk(f, x);
      if bs[k] in bs[..k] {
        var j :| 0 <= j < k && bs[j] == bs[k];
        FreedOnce(f, x, j, k);
      }
    }
  }
}
