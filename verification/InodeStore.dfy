/** iupdate of kernel/fs.c: the copy of an inode in its inode block. */
module InodeStore {
  import opened Blocks
  import opened Inodes
  import opened Files
  import opened BlockMap

  const IPB := 16                   // BSIZE / sizeof(struct dinode): a dinode is 16 words

  // ---------- the words of a dinode ----------

  /** The size and the addresses of dinode n of an inode block. */
  function Dinode(x: Block, n: nat): (ip: Inode)
    requires n < IPB
    ensures ip.size == GetWord(x, 16 * n + 2) && |ip.addrs| == 13
    ensures forall k :: 0 <= k < 13 ==> ip.addrs[k] == GetWord(x, 16 * n + 3 + k)
  {
    Inode(Words(x, 16 * n + 3, 13), GetWord(x, 16 * n + 2))
  }

  /** c words from word w on */
  function Words(x: Block, w: nat, c: nat): (r: seq<uint>)
    requires w + c <= WORDS
    ensures |r| == c && forall k :: 0 <= k < c ==> r[k] == GetWord(x, w + k)
  {
    if c == 0 then [] else Words(x, w, c - 1) + [GetWord(x, w + c - 1)]
  }

  /** memmove of the first k words of a to word w on */
  function PutWords(x: Block, w: nat, a: seq<uint>, k: nat): Block
    requires k <= |a| && w + |a| <= WORDS
  {
    if k == 0 then x else PutWord(PutWords(x, w, a, k - 1), w + (k - 1), a[k - 1])
  }

  function PutDinode(x: Block, n: nat, ip: Inode): Block
    requires n < IPB && |ip.addrs| == 13 && ip.size < TWO32
  {
    PutWords(PutWord(x, 16 * n + 2, ip.size), 16 * n + 3, ip.addrs, 13)
  }

  lemma {:induction false} PutWordsAt(x: Block, w: nat, a: seq<uint>, k: nat, v: nat)
    requires k <= |a| && w + |a| <= WORDS && v < WORDS
    ensures GetWord(PutWords(x, w, a, k), v) == if w <= v < w + k then a[v - w] else GetWord(x, v)
  {
    if k > 0 {
      PutWordsAt(x, w, a, k - 1, v);
      GetPut(PutWords(x, w, a, k - 1), w + (k - 1), a[k - 1], v);
    }
  }

  lemma PutDinodeAt(x: Block, n: nat, ip: Inode, v: nat)
    requires n < IPB && |ip.addrs| == 13 && ip.size < TWO32 && v < WORDS
    ensures GetWord(PutDinode(x, n, ip), v) ==
            if v == 16 * n + 2 then ip.size else if 16 * n + 3 <= v < 16 * n + 16 then ip.addrs[v - (16 * n + 3)]
              else GetWord(x, v)
  {
    PutWordsAt(PutWord(x, 16 * n + 2, ip.size), 16 * n + 3, ip.addrs, 13, v);
    GetPut(x, 16 * n + 2, ip.size, v);
  }

  /** A stored inode is read back, and no other inode of the block changes. */
  lemma DinodeRoundTrip(x: Block, n: nat, ip: Inode, m: nat)
    requires n < IPB && m < IPB && |ip.addrs| == 13 && ip.size < TWO32
    ensures Dinode(PutDinode(x, n, ip), m) == if m == n then ip else Dinode(x, m)
  {
    var r, want := Dinode(PutDinode(x, n, ip), m), if m == n then ip else Dinode(x, m);
    PutDinodeAt(x, n, ip, 16 * m + 2);
    forall k | 0 <= k < 13 ensures r.addrs[k] == want.addrs[k] {
      PutDinodeAt(x, n, ip, 16 * m + 3 + k);
    }
    assert r.addrs == want.addrs;
  }

  // ---------- the inode blocks of the disk ----------

  function InodeBlock(sb: Super, i: nat): nat {
    sb.inodestart + i / 16
  }

  function Saved(f: Fs, i: nat): Inode
    requires Shape(f) && i < |f.inodes|
  {
    Dinode(f.disk[InodeBlock(f.sb, i)], i % 16)
  }

  /** Every inode but inode x is on disk as it is in memory; with x beyond the last inode, all are. */
  predicate SyncedBut(f: Fs, x: nat) {
    Shape(f) && forall i :: 0 <= i < |f.inodes| && i != x ==> Saved(f, i) == f.inodes[i]
  }

  predicate Synced(f: Fs) {
    SyncedBut(f, |f.inodes|)
  }

  /** The disk changed only from the bitmap on, and the inodes only at x. */
  predicate Apart(f: Fs, g: Fs, x: nat) {
    && g.sb == f.sb && |g.disk| == |f.disk| && |g.inodes| == |f.inodes|
    && (forall b :: 0 <= b < |f.disk| && b < f.sb.bmapstart ==> g.disk[b] == f.disk[b])
    && (forall j :: 0 <= j < |f.inodes| && j != x ==> g.inodes[j] == f.inodes[j])
  }

  lemma SyncedKept(f: Fs, g: Fs, x: nat, y: nat)
    requires SyncedBut(f, y) && (y == x || y == |f.inodes|) && Shape(g) && Apart(f, g, x)
    ensures SyncedBut(g, x)
  {
    forall i | 0 <= i < |g.inodes| && i != x ensures Saved(g, i) == g.inodes[i] {
      assert Saved(f, i) == f.inodes[i];
    }
  }

  lemma TakeApart(f: Fs, o: Owner, b: uint)
    requires Inv(f) && Vacant(f, o) && FirstFree(f, b)
    ensures Apart(f, Take(f, o, b), o.ino)
  {
    assert BlockOk(f, b);
    if o.Data? && o.k >= NDIRECT {
      assert IndOk(f, o.ino);
      assert BlockOk(f, f.inodes[o.ino].addrs[12]);
    }
  }

  /** bmap for inode i leaves the inode blocks alone: its caller has to call iupdate. */
  lemma BmapApart(f: Fs, i: nat, k: nat, d: uint, e: uint)
    requires Inv(f) && Settled(f) && Legal(f, Bmap(i, k, d, e))
    ensures Apart(f, After(f, Bmap(i, k, d, e)), i)
  {
    IndirectHalf(f, i, k, d);
    if d != 0 {
      TakeApart(f, Indirect(i), d);
    }
    if e != 0 {
      TakeApart(AfterIndirect(f, i, k, d), Data(i, k), e);
    }
  }

  // ---------- iupdate ----------

  function Updated(f: Fs, i: nat): Fs
    requires Shape(f) && i < |f.inodes| && f.inodes[i].size < TWO32
  {
    var b := InodeBlock(f.sb, i);
    Fs(f.sb, f.disk[b := PutDinode(f.disk[b], i % 16, f.inodes[i])], f.inodes, f.owner)
  }

  lemma UpdatedSynced(f: Fs, x: nat)
    requires SyncedBut(f, x) && x < |f.inodes| && f.inodes[x].size < TWO32
    ensures Synced(Updated(f, x))
  {
    var g := Updated(f, x);
    forall i | 0 <= i < |g.inodes| ensures Saved(g, i) == g.inodes[i] {
      DinodeRoundTrip(f.disk[InodeBlock(f.sb, x)], x % 16, f.inodes[x], i % 16);
      assert i == x <==> i / 16 == x / 16 && i % 16 == x % 16;
      if i != x {
        assert Saved(f, i) == f.inodes[i];
      }
    }
  }

  /** A change of a block in front of the bitmap: the blocks and the files stay as they are. */
  predicate Front(f: Fs, g: Fs) {
    && Shape(f) && g.sb == f.sb && |g.disk| == |f.disk| && g.inodes == f.inodes && g.owner == f.owner
    && forall b :: 0 <= b < |f.disk| && f.sb.bmapstart <= b ==> g.disk[b] == f.disk[b]
  }

  lemma FrontSlot(f: Fs, g: Fs, i: nat, k: nat)
    requires Front(f, g) && Inv(f) && i < |f.inodes| && k < MAXFILE
    ensures Slot(g.disk, g.inodes[i], k) == Slot(f.disk, f.inodes[i], k)
  {
    assert IndOk(f, i);
    if f.inodes[i].addrs[12] != 0 {
      assert BlockOk(f, f.inodes[i].addrs[12]);
    }
  }

  lemma FrontInv(f: Fs, g: Fs)
    requires Front(f, g) && Inv(f)
    ensures Inv(g)
  {
    forall i | 0 <= i < |g.inodes| ensures IndOk(g, i) {
      assert IndOk(f, i);
    }
    forall i, k | 0 <= i < |g.inodes| && 0 <= k < MAXFILE ensures SlotOk(g, i, k) {
      assert SlotOk(f, i, k);
      FrontSlot(f, g, i, k);
    }
    forall c | 0 <= c < g.sb.size ensures BlockOk(g, c) {
      assert BlockOk(f, c);
      if f.owner[c].Data? {
        FrontSlot(f, g, f.owner[c].ino, f.owner[c].k);
      }
    }
  }

  lemma FrontFiles(f: Fs, g: Fs)
    requires Front(f, g) && Inv(f)
    ensures Shape(g) && Extends(f, g) && Images(g) == Images(f)
  {
    forall i, k | 0 <= i < |f.inodes| && 0 <= k < MAXFILE
      ensures Slot(g.disk, g.inodes[i], k) == Slot(f.disk, f.inodes[i], k)
    {
      FrontSlot(f, g, i, k);
    }
    forall i, p | 0 <= i < |f.inodes| && 0 <= p < MAXBYTES ensures ByteAt(g, i, p) == ByteAt(f, i, p) {
      var b := Slot(f.disk, f.inodes[i], p / 1024);
      assert SlotOk(f, i, p / 1024);
      FrontSlot(f, g, i, p / 1024);
      if b != 0 {
        assert BlockOk(f, b);
      }
    }
    ImagesSame(f, g);
  }
}
