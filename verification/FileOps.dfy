/** The steps of kernel/fs.c on the blocks and bytes of files: what each keeps, and what it logs. */
module FileOps {
  import opened Sequences
  import opened Wrappers
  import opened Blocks
  import opened Bitmap
  import opened Inodes
  import opened Truncate
  import opened Files
  import opened BlockMap
  import opened InodeStore
  import opened Space
  import opened Changes

  // ---------- what holds between calls ----------

  /** File i has every block below its size, and holds what img says. */
  ghost predicate FileOk(f: Fs, img: seq<seq<byte>>, i: nat) {
    Shape(f) && i < |f.inodes| && i < |img| && Mapped(f, i) && img[i] == Image(f, i)
  }

  /** The blocks are in order, and so are the first n files. */
  ghost predicate Sound(f: Fs, img: seq<seq<byte>>, n: nat) {
    if n == 0 then Inv(f) && Settled(f) else FileOk(f, img, n - 1) && Sound(f, img, n - 1)
  }

  ghost predicate Ok(f: Fs, img: seq<seq<byte>>) {
    |img| == |f.inodes| && Sound(f, img, |f.inodes|)
  }

  lemma {:induction false} SoundIff(f: Fs, img: seq<seq<byte>>, n: nat)
    requires n <= |f.inodes| == |img|
    ensures Sound(f, img, n) <==> Inv(f) && Settled(f) && forall i :: 0 <= i < n ==> FileOk(f, img, i)
  {
    if n > 0 {
      SoundIff(f, img, n - 1);
    }
  }

  ghost predicate AllMapped(f: Fs) {
    Shape(f) && forall i :: 0 <= i < |f.inodes| ==> Mapped(f, i)
  }

  lemma OkIff(f: Fs, img: seq<seq<byte>>)
    ensures Ok(f, img) <==> Inv(f) && Settled(f) && AllMapped(f) && img == Images(f)
  {
    if |img| == |f.inodes| {
      SoundIff(f, img, |img|);
    }
    if Ok(f, img) {
      forall i | 0 <= i < |f.inodes| ensures Mapped(f, i) && img[i] == Image(f, i) {
        assert FileOk(f, img, i);
      }
    }
  }

  lemma ShapeOk(f: Fs, img: seq<seq<byte>>)
    requires Ok(f, img)
    ensures Shape(f) && |img| == |f.inodes|
  {
    OkIff(f, img);
  }

  lemma MetaTaken(f: Fs, img: seq<seq<byte>>)
    requires Ok(f, img) && Shape(f)
    ensures Bit(f.disk, f.sb.bmapstart, 0)
  {
    OkIff(f, img);
    assert BlockOk(f, 0);
  }

  /** The blocks of a file lie in the file system. */
  lemma SlotIs(f: Fs, img: seq<seq<byte>>, i: nat, k: nat)
    requires Ok(f, img) && i < |f.inodes| && k < MAXFILE
    ensures Shape(f) && Slot(f.disk, f.inodes[i], k) < f.sb.size && f.inodes[i].addrs[12] < f.sb.size
  {
    OkIff(f, img);
    assert SlotOk(f, i, k) && IndOk(f, i);
  }

  lemma Extended(f: Fs, g: Fs, img: seq<seq<byte>>)
    requires Ok(f, img) && Inv(g) && Settled(g) && Shape(f) && Extends(f, g) && Images(g) == Images(f)
    ensures Ok(g, img)
  {
    OkIff(f, img);
    forall i | 0 <= i < |g.inodes| ensures Mapped(g, i) {
      MappedKept(f, g, i);
    }
    OkIff(g, img);
  }

  lemma IndirectOk(f: Fs, img: seq<seq<byte>>, i: nat, k: nat, d: uint)
    requires Ok(f, img) && LegalIndirect(f, i, k, d)
    ensures Ok(AfterIndirect(f, i, k, d), img)
    ensures k >= NDIRECT ==> AfterIndirect(f, i, k, d).inodes[i].addrs[12] != 0 || Full(AfterIndirect(f, i, k, d))
  {
    OkIff(f, img);
    IndirectHalf(f, i, k, d);
    Extended(f, AfterIndirect(f, i, k, d), img);
  }

  lemma DataOk(f: Fs, img: seq<seq<byte>>, i: nat, k: nat, e: uint)
    requires Ok(f, img) && LegalData(f, i, k, e)
    ensures Ok(AfterData(f, i, k, e), img)
    ensures var g := AfterData(f, i, k, e);
            && Shape(g) && i < |g.inodes|
            && Slot(g.disk, g.inodes[i], k) == if e == 0 then Slot(f.disk, f.inodes[i], k) else e
  {
    OkIff(f, img);
    DataHalf(f, i, k, e);
    if e != 0 {
      TakenSlot(f, Data(i, k), e);
    }
    Extended(f, AfterData(f, i, k, e), img);
  }

  // ---------- bmap of a block that is there ----------

  /** A block that is there is found without any change. */
  lemma NothingToDo(f: Fs, i: nat, k: nat, d: uint, e: uint)
    requires Legal(f, Bmap(i, k, d, e)) && Slot(f.disk, f.inodes[i], k) != 0
    ensures After(f, Bmap(i, k, d, e)) == f && BmapLogs(f, i, k, d, e) == {}
  {
  }

  // ---------- truncation ----------

  lemma TruncateOk(f: Fs, img: seq<seq<byte>>, x: nat)
    requires Ok(f, img) && x < |f.inodes| && |f.inodes[x].addrs| == 13
    ensures Ok(Truncated(f, x), img[x := Blank()])
    ensures GaveBackAll(f, Truncated(f, x), x) && Truncated(f, x).inodes == f.inodes[x := EmptyInode()]
  {
    OkIff(f, img);
    ItruncIs(f, x);
    TruncatedIs(f, x);
    TruncFiles(f, x);
    var g := Truncated(f, x);
    forall j | 0 <= j < |g.inodes| ensures Mapped(g, j) {
      TruncMapped(f, x, j);
    }
    OkIff(g, img[x := Blank()]);
  }

  /** The first k addresses of an inode are cleared. */
  ghost function Emptied(ip: Inode, k: nat): (r: Inode)
    requires k <= |ip.addrs|
    ensures |r.addrs| == |ip.addrs| && forall j :: k <= j < |ip.addrs| ==> r.addrs[j] == ip.addrs[j]
    ensures r.size == ip.size && forall j :: 0 <= j < k ==> r.addrs[j] == 0
  {
    if k == 0 then ip else SetAddr(Emptied(ip, k - 1), k - 1, 0)
  }

  lemma EmptiedSame(ip: Inode, k: nat)
    requires k < |ip.addrs| && ip.addrs[k] == 0
    ensures Emptied(ip, k + 1) == Emptied(ip, k)
  {
    assert Emptied(ip, k + 1).addrs == Emptied(ip, k).addrs;
  }

  lemma EmptiedAll(ip: Inode)
    requires |ip.addrs| == 13
    ensures Inode(Emptied(ip, 13).addrs, 0) == EmptyInode()
  {
    assert Emptied(ip, 13).addrs == Zeros(13);
  }

  /** While itrunc is at work: the first k blocks of its list are free, and inode x is ip. */
  ghost function Freeing(f: Fs, x: nat, k: nat, ip: Inode): Fs
    requires x < |f.inodes| && |f.inodes[x].addrs| == 13 && k <= MAXFILE + 1
  {
    var g := DropAll(f, FileBlocks(f, x), k);
    Fs(g.sb, g.disk, f.inodes[x := ip], g.owner)
  }

  /** Its next block is 0, or has its bit set. */
  lemma StillSet(f: Fs, img: seq<seq<byte>>, x: nat, k: nat, ip: Inode, b: uint)
    requires Ok(f, img) && x < |f.inodes| && |f.inodes[x].addrs| == 13 && k <= MAXFILE && |ip.addrs| == 13
    requires b == FileBlocks(f, x)[k]
    ensures var g := Freeing(f, x, k, ip);
            && Shape(g) && g.sb == f.sb && b < f.sb.size
            && (b != 0 ==> Bit(g.disk, g.sb.bmapstart, b) && Freeing(f, x, k + 1, ip) == Released(g, b))
            && (b == 0 ==> Freeing(f, x, k + 1, ip) == g)
  {
    OkIff(f, img);
    NeverFreesFree(f, x, k);
    DropAllAt(f, FileBlocks(f, x), k, 0) by { InRange(f, x); }
  }

  /** One round of the first loop of itrunc, over the direct blocks. */
  lemma DirectRound(f: Fs, img: seq<seq<byte>>, x: nat, k: nat, g: Fs)
    requires Ok(f, img) && x < |f.inodes| && |f.inodes[x].addrs| == 13 && k < NDIRECT
    requires g == Freeing(f, x, k, Emptied(f.inodes[x], k))
    ensures |g.inodes| == |f.inodes| && |g.inodes[x].addrs| == 13
    ensures var b := g.inodes[x].addrs[k]; var h := Freeing(f, x, k + 1, Emptied(f.inodes[x], k + 1));
            && Shape(g) && g.sb == f.sb && b < f.sb.size
            && (b != 0 ==> Bit(g.disk, g.sb.bmapstart, b) && b / 8192 < NBitmap(f.sb))
            && (b != 0 ==> var r := Released(g, b);
                 h == Fs(r.sb, r.disk, r.inodes[x := SetAddr(r.inodes[x], k, 0)], r.owner))
            && (b == 0 ==> h == g)
  {
    var ip, b := Emptied(f.inodes[x], k), FileBlocks(f, x)[k];
    StillSet(f, img, x, k, ip, b);
    if b == 0 {
      EmptiedSame(f.inodes[x], k);
    } else {
      assert f.inodes[x := ip][x := SetAddr(ip, k, 0)] == f.inodes[x := SetAddr(ip, k, 0)];
    }
  }

  /** One round of the second loop, over the entries of the indirect block, which was read before. */
  lemma EntryRound(f: Fs, img: seq<seq<byte>>, x: nat, n: nat, a: Block, ip: Inode, g: Fs)
    requires Ok(f, img) && x < |f.inodes| && |f.inodes[x].addrs| == 13 && n < NINDIRECT && |ip.addrs| == 13
    requires 0 < f.inodes[x].addrs[12] < |f.disk| && a == f.disk[f.inodes[x].addrs[12]]
    requires g == Freeing(f, x, 12 + n, ip)
    ensures var b := GetWord(a, n);
            && Shape(g) && g.sb == f.sb && b < f.sb.size
            && (b != 0 ==> Bit(g.disk, g.sb.bmapstart, b) && b / 8192 < NBitmap(f.sb))
            && Freeing(f, x, 12 + n + 1, ip) == if b != 0 then Released(g, b) else g
  {
    assert FileBlocks(f, x)[12 + n] == GetWord(a, n);
    StillSet(f, img, x, 12 + n, ip, GetWord(a, n));
  }

  /** A file without an indirect block has nothing more to free. */
  lemma {:induction false} NothingBehind(f: Fs, x: nat, k: nat)
    requires x < |f.inodes| && |f.inodes[x].addrs| == 13 && f.inodes[x].addrs[12] == 0 && 12 <= k <= MAXFILE + 1
    ensures DropAll(f, FileBlocks(f, x), k) == DropAll(f, FileBlocks(f, x), 12)
  {
    if k > 12 {
      NothingBehind(f, x, k - 1);
      assert FileBlocks(f, x)[k - 1] == 0;
    }
  }

  lemma WithoutIndirect(f: Fs, x: nat)
    requires x < |f.inodes| && |f.inodes[x].addrs| == 13 && f.inodes[x].addrs[12] == 0
    ensures Freeing(f, x, MAXFILE + 1, Emptied(f.inodes[x], 13)) == Freeing(f, x, 12, Emptied(f.inodes[x], 12))
  {
    NothingBehind(f, x, MAXFILE + 1);
    EmptiedSame(f.inodes[x], 12);
  }

  /** The indirect block still is as it was when itrunc comes to it. */
  lemma IndirectKept(f: Fs, img: seq<seq<byte>>, x: nat, k: nat, ip: Inode)
    requires Ok(f, img) && x < |f.inodes| && |f.inodes[x].addrs| == 13 && f.inodes[x].addrs[12] != 0 && k <= MAXFILE
    ensures var d := f.inodes[x].addrs[12];
            d < |f.disk| == |Freeing(f, x, k, ip).disk| && Freeing(f, x, k, ip).disk[d] == f.disk[d]
  {
    OkIff(f, img);
    var d := f.inodes[x].addrs[12];
    assert IndOk(f, x);
    assert BlockOk(f, d);
    InRange(f, x);
    DropAllAt(f, FileBlocks(f, x), k, d);
  }

  /** bfree of the indirect block itself, the last of the list. */
  lemma LastRound(f: Fs, img: seq<seq<byte>>, x: nat, g: Fs)
    requires Ok(f, img) && x < |f.inodes| && |f.inodes[x].addrs| == 13 && f.inodes[x].addrs[12] != 0
    requires g == Freeing(f, x, MAXFILE, Emptied(f.inodes[x], 12))
    ensures |g.inodes| == |f.inodes| && |g.inodes[x].addrs| == 13
    ensures var b := g.inodes[x].addrs[12]; var h := Freeing(f, x, MAXFILE + 1, Emptied(f.inodes[x], 13));
            && Shape(g) && g.sb == f.sb && 0 < b < f.sb.size
            && Bit(g.disk, g.sb.bmapstart, b) && b / 8192 < NBitmap(f.sb)
            && var r := Released(g, b); h == Fs(r.sb, r.disk, r.inodes[x := SetAddr(r.inodes[x], 12, 0)], r.owner)
  {
    var ip, b := Emptied(f.inodes[x], 12), FileBlocks(f, x)[MAXFILE];
    StillSet(f, img, x, MAXFILE, ip, b);
    assert f.inodes[x := ip][x := SetAddr(ip, 12, 0)] == f.inodes[x := SetAddr(ip, 12, 0)];
  }

  /** With the size set to 0, all that itrunc does is done. */
  lemma AllFreed(f: Fs, x: nat, g: Fs)
    requires x < |f.inodes| && |f.inodes[x].addrs| == 13
    requires g == Freeing(f, x, MAXFILE + 1, Emptied(f.inodes[x], 13))
    ensures |g.inodes| == |f.inodes| && SetSize(g, x, 0) == Truncated(f, x)
  {
    EmptiedAll(f.inodes[x]);
    var ip := Emptied(f.inodes[x], 13);
    assert f.inodes[x := ip][x := EmptyInode()] == f.inodes[x := EmptyInode()];
  }

  lemma TruncateSynced(f: Fs, img: seq<seq<byte>>, x: nat)
    requires Ok(f, img) && x < |f.inodes| && SyncedBut(f, x)
    ensures SyncedBut(Truncated(f, x), x)
  {
    OkIff(f, img);
    TruncatedIs(f, x);
    SyncedKept(f, Truncated(f, x), x, x);
  }

  // ---------- iupdate ----------

  lemma UpdateOk(f: Fs, img: seq<seq<byte>>, i: nat)
    requires Ok(f, img) && i < |f.inodes|
    ensures Shape(f) && f.inodes[i].size < TWO32 && InodeBlock(f.sb, i) < |f.disk| && Ok(Updated(f, i), img)
  {
    OkIff(f, img);
    assert Mapped(f, i);
    var g := Updated(f, i);
    FrontInv(f, g);
    FrontFiles(f, g);
    Extended(f, g, img);
  }

  // ---------- reading ----------

  /** Byte p of a file, below its size, is in a block that is there. */
  lemma ReadBlock(f: Fs, img: seq<seq<byte>>, i: nat, p: nat)
    requires Ok(f, img) && i < |f.inodes| && p < f.inodes[i].size
    ensures Shape(f) && f.inodes[i].size <= MAXBYTES == |img[i]|
    ensures var b := Slot(f.disk, f.inodes[i], p / 1024);
            0 < b < |f.disk| && f.disk[b] == img[i][p / 1024 * 1024..p / 1024 * 1024 + 1024]
  {
    OkIff(f, img);
    assert Mapped(f, i);
    var k := p / 1024;
    assert SlotOk(f, i, k);
    forall q | 0 <= q < 1024 ensures f.disk[Slot(f.disk, f.inodes[i], k)][q] == img[i][k * 1024 + q] {
      assert img[i][k * 1024 + q] == ByteAt(f, i, k * 1024 + q);
    }
  }

  lemma SizeIs(f: Fs, img: seq<seq<byte>>, i: nat)
    requires Ok(f, img) && i < |f.inodes|
    ensures Shape(f) && f.inodes[i].size <= MAXBYTES == |img[i]|
  {
    OkIff(f, img);
    assert Mapped(f, i);
  }

  // ---------- writing ----------

  /** g is f with more blocks in inode i; no other inode and no inode block changed. */
  ghost predicate Grows(f: Fs, g: Fs, i: nat) {
    Shape(f) && Shape(g) && Extends(f, g) && Apart(f, g, i)
  }

  lemma GrowsTrans(f: Fs, g: Fs, h: Fs, i: nat)
    requires Grows(f, g, i) && Grows(g, h, i)
    ensures Grows(f, h, i)
  {
    ExtendsTrans(f, g, h);
  }

  lemma BmapGrows(f: Fs, img: seq<seq<byte>>, i: nat, k: nat, d: uint, e: uint)
    requires Ok(f, img) && Legal(f, Bmap(i, k, d, e))
    ensures Grows(f, After(f, Bmap(i, k, d, e)), i)
  {
    OkIff(f, img);
    BmapIs(f, i, k, d, e);
    BmapApart(f, i, k, d, e);
  }

  /** memmove of t into the block of byte p of the file */
  ghost function Put(f: Fs, i: nat, p: nat, t: seq<byte>): Fs
    requires Shape(f) && i < |f.inodes| && p < MAXBYTES && p % 1024 + |t| <= 1024
    requires Slot(f.disk, f.inodes[i], p / 1024) < f.sb.size
  {
    var b := Slot(f.disk, f.inodes[i], p / 1024);
    WriteData(f, b, Patch(f.disk[b], p % 1024, t))
  }

  lemma PutOk(f: Fs, img: seq<seq<byte>>, i: nat, p: nat, t: seq<byte>)
    requires Ok(f, img) && i < |f.inodes| && p < MAXBYTES && p % 1024 + |t| <= 1024
    requires Shape(f) && 0 < Slot(f.disk, f.inodes[i], p / 1024) < f.sb.size
    ensures |img[i]| == MAXBYTES && p + |t| <= MAXBYTES
    ensures Ok(Put(f, i, p, t), img[i := Patch(img[i], p, t)]) && Grows(f, Put(f, i, p, t), i)
  {
    OkIff(f, img);
    var k := p / 1024;
    var b := Slot(f.disk, f.inodes[i], k);
    WriteFiles(f, i, k, b, p % 1024, t);
    assert BlockOk(f, b);
    var g := Put(f, i, p, t);
    forall j | 0 <= j < |g.inodes| ensures Mapped(g, j) {
      MappedKept(f, g, j);
    }
    OkIff(g, img[i := Patch(img[i], p, t)]);
  }

  /** The file may end at n when all blocks below n are there. */
  lemma SizeOk(f: Fs, img: seq<seq<byte>>, i: nat, n: nat)
    requires Ok(f, img) && i < |f.inodes| && Shape(f) && MappedTo(f, i, n)
    ensures Ok(SetSize(f, i, n), img)
  {
    OkIff(f, img);
    var g := SetSize(f, i, n);
    SizeInv(f, i, n);
    forall j | 0 <= j < |g.inodes| ensures Mapped(g, j) {
      assert Mapped(f, j);
      forall k | 0 <= k < MAXFILE ensures Slot(g.disk, g.inodes[j], k) == Slot(f.disk, f.inodes[j], k) {
      }
    }
    forall j, p | 0 <= j < |f.inodes| && 0 <= p < MAXBYTES ensures ByteAt(g, j, p) == ByteAt(f, j, p) {
    }
    ImagesSame(f, g);
    OkIff(g, img);
  }

  lemma MappedFurther(f: Fs, g: Fs, i: nat, p: nat, m: nat)
    requires Grows(f, g, i) && i < |f.inodes| && MappedTo(f, i, p) && p % 1024 + m <= 1024 && p + m <= MAXBYTES &&
             p < MAXBYTES
    requires Slot(g.disk, g.inodes[i], p / 1024) != 0
    ensures MappedTo(g, i, p + m)
  {
    forall k | 0 <= k < MAXFILE && k * 1024 < p + m ensures Slot(g.disk, g.inodes[i], k) != 0 {
      assert k * 1024 < p || k == p / 1024;
    }
  }

  lemma MappedStart(f: Fs, img: seq<seq<byte>>, i: nat, n: nat)
    requires Ok(f, img) && i < |f.inodes| && n <= f.inodes[i].size
    ensures Shape(f) && MappedTo(f, i, n)
  {
    OkIff(f, img);
    assert Mapped(f, i);
  }

  // ---------- what a write logs ----------

  /** The blocks of slots lo up to hi that are there. */
  ghost function Touched(f: Fs, i: nat, lo: nat, hi: nat): set<nat>
    requires Shape(f) && i < |f.inodes| && hi <= MAXFILE
    decreases hi
  {
    if hi <= lo then {}
    else Touched(f, i, lo, hi - 1) +
         if Slot(f.disk, f.inodes[i], hi - 1) == 0 then {} else {Slot(f.disk, f.inodes[i], hi - 1) as nat}
  }

  lemma {:induction false} TouchedSize(f: Fs, i: nat, lo: nat, hi: nat)
    requires Shape(f) && i < |f.inodes| && lo <= hi <= MAXFILE
    ensures |Touched(f, i, lo, hi)| <= hi - lo
    decreases hi
  {
    if lo < hi {
      TouchedSize(f, i, lo, hi - 1);
    }
  }

  lemma {:induction false} TouchedKept(f: Fs, g: Fs, i: nat, lo: nat, hi: nat)
    requires Shape(f) && Shape(g) && Extends(f, g) && i < |f.inodes| && hi <= MAXFILE
    ensures Touched(f, i, lo, hi) <= Touched(g, i, lo, hi)
    decreases hi
  {
    if lo < hi {
      TouchedKept(f, g, i, lo, hi - 1);
    }
  }

  lemma {:induction false} TouchedMore(f: Fs, i: nat, lo: nat, mid: nat, hi: nat)
    requires Shape(f) && i < |f.inodes| && mid <= hi <= MAXFILE
    ensures Touched(f, i, lo, mid) <= Touched(f, i, lo, hi)
    decreases hi
  {
    if mid < hi {
      TouchedMore(f, i, lo, mid, hi - 1);
    }
  }

  /** n blocks from block lo on */
  function Interval(lo: nat, n: nat): (s: set<nat>)
    ensures |s| == n && forall x :: x in s <==> lo <= x < lo + n
  {
    if n == 0 then {} else Interval(lo, n - 1) + {lo + (n - 1)}
  }

  /** The blocks of the bitmap. */
  ghost function BitmapBlocks(sb: Super): set<nat> {
    Interval(sb.bmapstart, NBitmap(sb))
  }

  function NBitmap(sb: Super): nat {
    (sb.size + 8191) / 8192
  }

  ghost function IndirectSet(f: Fs, i: nat): set<nat>
    requires Shape(f) && i < |f.inodes|
  {
    if f.inodes[i].addrs[12] == 0 then {} else {f.inodes[i].addrs[12] as nat}
  }

  /** What a write of slots lo up to hi of a file may log, but for the inode block. */
  ghost function Allowance(f: Fs, i: nat, lo: nat, hi: nat): set<nat>
    requires Shape(f) && i < |f.inodes| && hi <= MAXFILE
  {
    BitmapBlocks(f.sb) + IndirectSet(f, i) + Touched(f, i, lo, hi)
  }

  /** The blocks of l are among them, slot by slot. */
  ghost predicate Allows(f: Fs, i: nat, lo: nat, hi: nat, l: set<nat>)
    requires Shape(f) && i < |f.inodes| && hi <= MAXFILE
    decreases hi
  {
    if hi <= lo then l <= BitmapBlocks(f.sb) + IndirectSet(f, i)
    else
      var b := Slot(f.disk, f.inodes[i], hi - 1);
      Allows(f, i, lo, hi - 1, if b == 0 then l else l - {b as nat})
  }

  lemma {:induction false} AllowsIff(f: Fs, i: nat, lo: nat, hi: nat, l: set<nat>)
    requires Shape(f) && i < |f.inodes| && hi <= MAXFILE
    ensures Allows(f, i, lo, hi, l) <==> l <= Allowance(f, i, lo, hi)
    decreases hi
  {
    if lo < hi {
      var b := Slot(f.disk, f.inodes[i], hi - 1);
      AllowsIff(f, i, lo, hi - 1, if b == 0 then l else l - {b as nat});
    }
  }

  lemma AllowanceSize(f: Fs, i: nat, lo: nat, hi: nat)
    requires Shape(f) && i < |f.inodes| && lo <= hi <= MAXFILE
    ensures |Allowance(f, i, lo, hi)| <= NBitmap(f.sb) + 1 + (hi - lo)
  {
    TouchedSize(f, i, lo, hi);
  }

  lemma AllowanceKept(f: Fs, g: Fs, i: nat, lo: nat, mid: nat, hi: nat)
    requires Grows(f, g, i) && i < |f.inodes| && mid <= hi <= MAXFILE
    ensures Allowance(f, i, lo, mid) <= Allowance(g, i, lo, hi)
  {
    TouchedKept(f, g, i, lo, mid);
    TouchedMore(g, i, lo, mid, hi);
  }

  /** The first half of bmap logs the bitmap and the indirect block, at most. */
  lemma IndirectLogsWithin(f: Fs, i: nat, k: nat, d: uint)
    requires Inv(f) && Settled(f) && LegalIndirect(f, i, k, d)
    ensures var g := AfterIndirect(f, i, k, d);
            Shape(g) && i < |g.inodes| && g.sb == f.sb && IndirectLogs(f, d) <= BitmapBlocks(g.sb) + IndirectSet(g, i)
  {
    IndirectHalf(f, i, k, d);
    if d != 0 {
      TakenSlot(f, Indirect(i), d);
      assert d / 8192 < NBitmap(f.sb);
    }
  }

  /** The second half logs the bitmap, the indirect block and the block it returns, at most. */
  lemma DataLogsWithin(f: Fs, i: nat, lo: nat, k: nat, e: uint)
    requires Inv(f) && Settled(f) && LegalData(f, i, k, e) && lo <= k
    ensures var g := AfterData(f, i, k, e);
            Shape(g) && i < |g.inodes| && DataLogs(f, i, k, e) <= Allowance(g, i, lo, k + 1)
  {
    DataHalf(f, i, k, e);
    if e != 0 {
      TakenSlot(f, Data(i, k), e);
      assert e / 8192 < NBitmap(f.sb);
    }
  }

  lemma BmapLogsWithin(f: Fs, img: seq<seq<byte>>, i: nat, lo: nat, k: nat, d: uint, e: uint)
    requires Ok(f, img) && Legal(f, Bmap(i, k, d, e)) && lo <= k
    ensures var g := After(f, Bmap(i, k, d, e));
            Shape(g) && i < |g.inodes| && BmapLogs(f, i, k, d, e) <= Allowance(g, i, lo, k + 1)
  {
    OkIff(f, img);
    IndirectHalf(f, i, k, d);
    IndirectLogsWithin(f, i, k, d);
    var h := AfterIndirect(f, i, k, d);
    DataLogsWithin(h, i, lo, k, e);
    DataHalf(h, i, k, e);
  }

  // ---------- mkfs ----------

  /** A disk of zeros but for the bitmap, and empty inodes. */
  ghost predicate Formatted(f: Fs, x: Block) {
    && Shape(f) && f.sb.data < 8192 && (forall i :: 0 <= i < |f.inodes| ==> f.inodes[i] == EmptyInode())
    && (forall b :: 0 <= b < |f.disk| ==> f.disk[b] == if b == f.sb.bmapstart then x else ZeroBlock())
    && (forall b :: 0 <= b < |f.owner| ==> f.owner[b] == if b < f.sb.data then Meta else Free)
    && forall c :: 0 <= c < 8192 ==> BlockBit(x, c) == (c < f.sb.data)
  }

  lemma FormattedBlock(f: Fs, x: Block, b: nat)
    requires Formatted(f, x) && b < f.sb.size
    ensures BlockOk(f, b)
  {
    if b >= 8192 {
      ZeroBit(b % 8192 % 8);
    }
  }

  lemma FormattedOk(f: Fs, x: Block, img: seq<seq<byte>>)
    requires Formatted(f, x) && |img| == |f.inodes| && forall i :: 0 <= i < |img| ==> img[i] == Blank()
    ensures Ok(f, img)
  {
    forall b | 0 <= b < f.sb.size ensures BlockOk(f, b) {
      FormattedBlock(f, x, b);
    }
    forall i | 0 <= i < |f.inodes| ensures Mapped(f, i) && Image(f, i) == Blank() {
    }
    OkIff(f, img);
  }

  lemma FormattedSynced(f: Fs, x: Block)
    requires Formatted(f, x)
    ensures Synced(f)
  {
    forall i | 0 <= i < |f.inodes| ensures Saved(f, i) == f.inodes[i] {
      var r := Dinode(ZeroBlock(), i % 16);
      ZeroWord(16 * (i % 16) + 2);
      forall k | 0 <= k < 13 ensures r.addrs[k] == 0 {
        ZeroWord(16 * (i % 16) + 3 + k);
      }
      assert r.addrs == Zeros(13);
    }
  }

  lemma {:induction false} FormattedFree(o: seq<Owner>, data: nat, n: nat)
    requires n <= |o| && forall b :: 0 <= b < |o| ==> o[b] == if b < data then Meta else Free
    ensures FreeBlocks(o[..n]) == (if n <= data then 0 else n - data) && o[..|o|] == o
  {
    assert o[..|o|] == o;
    if n > 0 {
      FormattedFree(o, data, n - 1);
      assert o[..n][..n - 1] == o[..n - 1];
    }
  }

  // ---------- recycling ----------

  /** What the files hold when block b reads as x. */
  ghost function Reread(f: Fs, img: seq<seq<byte>>, b: nat, x: Block): seq<seq<byte>>
    requires b < |f.owner|
  {
    var o := f.owner[b];
    if o.Data? && o.ino < |img| && o.k * 1024 + 1024 <= |img[o.ino]|
    then img[o.ino := Patch(img[o.ino], o.k * 1024, x)] else img
  }

  /** A stray block that reads as it does on disk changes the bytes of its file, and nothing else. */
  lemma RecycleOk(f: Fs, img: seq<seq<byte>>, b: nat, x: Block)
    requires Ok(f, img) && b < |f.owner| && (f.owner[b].Data? || f.owner[b] == Free)
    ensures Shape(f) && b < f.sb.size && Ok(WriteData(f, b, x), Reread(f, img, b, x))
  {
    OkIff(f, img);
    var g := WriteData(f, b, x);
    assert BlockOk(f, b);
    if f.owner[b] == Free {
      WriteFree(f, b, x);
    } else {
      var i, k := f.owner[b].ino, f.owner[b].k;
      assert BlockOk(f, 0);
      WriteFiles(f, i, k, b, 0, x);
      assert Patch(f.disk[b], 0, x) == x;
    }
    forall j | 0 <= j < |g.inodes| ensures Mapped(g, j) {
      MappedKept(f, g, j);
    }
    OkIff(g, Reread(f, img, b, x));
  }
}
