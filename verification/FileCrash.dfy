/** A crash while a transaction of kernel/file.c is committed by kernel/log.c: what the file system is after
    recovery. */
module FileCrash {
  import opened Blocks
  import opened Bitmap
  import opened Inodes
  import opened Files
  import opened InodeStore
  import opened Changes
  import opened FileOps
  import opened Writes
  import L = LogSpec

  // ---------- a file system on another disk ----------

  function On(f: Fs, d: seq<Block>): Fs {
    Fs(f.sb, d, f.inodes, f.owner)
  }

  /** The disk d differs from f.disk in front of the inode blocks, in the data of files and in free blocks only. */
  ghost predicate SameMeta(f: Fs, d: seq<Block>) {
    && |d| == |f.disk| == |f.owner|
    && forall b :: 0 <= b < |d| && f.sb.inodestart <= b && !f.owner[b].Data? && f.owner[b] != Free ==> d[b] == f.disk[b]
  }

  lemma MetaSlot(f: Fs, d: seq<Block>, i: nat, k: nat)
    requires Inv(f) && SameMeta(f, d) && i < |f.inodes| && k < MAXFILE
    ensures Slot(d, f.inodes[i], k) == Slot(f.disk, f.inodes[i], k)
  {
    assert IndOk(f, i);
    if f.inodes[i].addrs[12] != 0 {
      assert BlockOk(f, f.inodes[i].addrs[12]);
    }
  }

  lemma MetaBit(f: Fs, d: seq<Block>, b: nat)
    requires Inv(f) && SameMeta(f, d) && b < f.sb.size
    ensures Bit(d, f.sb.bmapstart, b) == Bit(f.disk, f.sb.bmapstart, b)
  {
    assert BlockOk(f, f.sb.bmapstart + b / 8192);
  }

  lemma MetaInv(f: Fs, d: seq<Block>)
    requires Inv(f) && SameMeta(f, d)
    ensures Inv(On(f, d))
  {
    var g := On(f, d);
    forall i | 0 <= i < |g.inodes| ensures IndOk(g, i) {
      assert IndOk(f, i);
    }
    forall i, k | 0 <= i < |g.inodes| && 0 <= k < MAXFILE ensures SlotOk(g, i, k) {
      assert SlotOk(f, i, k);
      MetaSlot(f, d, i, k);
    }
    forall b | 0 <= b < g.sb.size ensures BlockOk(g, b) {
      assert BlockOk(f, b);
      MetaBit(f, d, b);
      if f.owner[b].Data? {
        MetaSlot(f, d, f.owner[b].ino, f.owner[b].k);
      }
    }
  }

  lemma MetaMapped(f: Fs, d: seq<Block>)
    requires Inv(f) && AllMapped(f) && SameMeta(f, d)
    ensures Shape(On(f, d)) && AllMapped(On(f, d))
  {
    forall i | 0 <= i < |f.inodes| ensures Mapped(On(f, d), i) {
      assert Mapped(f, i);
      forall k | 0 <= k < MAXFILE && k * 1024 < f.inodes[i].size ensures Slot(d, f.inodes[i], k) != 0 {
        MetaSlot(f, d, i, k);
      }
    }
  }

  lemma MetaSynced(f: Fs, d: seq<Block>)
    requires Inv(f) && SameMeta(f, d) && Synced(f)
    ensures Synced(On(f, d))
  {
    forall i | 0 <= i < |f.inodes| ensures Saved(On(f, d), i) == f.inodes[i] {
      assert Saved(f, i) == f.inodes[i];
      assert BlockOk(f, InodeBlock(f.sb, i));
    }
  }

  // ---------- what a disk is after recovery ----------

  /** The volume s without the bytes that its operations left without log_write. */
  ghost function Kept(s: State): Fs {
    On(s.f, Firm(s.f.disk, s.jnl.strays))
  }

  /** The disk r is the volume s, but for the log region: all that relates blocks, inodes, bitmap and files holds,
      the inodes on it are those of s, and the files hold what those of s hold for good. */
  ghost predicate Holds(r: seq<Block>, s: State) {
    && Shape(Kept(s)) && Ok(On(s.f, r), Images(Kept(s))) && (Synced(s.f) ==> Synced(On(s.f, r)))
    && forall b :: 0 < b < s.f.sb.size ==> Owned(On(s.f, r), b)
  }

  /** The bit of block b is set exactly when it is metadata or in an inode. */
  ghost predicate Owned(f: Fs, b: nat) {
    Shape(f) && b < f.sb.size && (Bit(f.disk, f.sb.bmapstart, b) <==> b < f.sb.data || InUse(f, b))
  }

  lemma KeptMeta(s: State)
    requires Proper(s)
    ensures Inv(s.f) && SameMeta(s.f, Firm(s.f.disk, s.jnl.strays))
  {
    OkIff(s.f, s.img);
  }

  lemma HomeImages(s: State, r: seq<Block>, lay: L.Layout)
    requires Proper(s) && L.SameHome(r, Firm(s.f.disk, s.jnl.strays), lay) && lay.start + lay.size <= s.f.sb.inodestart
    ensures Inv(Kept(s)) && Inv(On(s.f, r)) && Images(On(s.f, r)) == Images(Kept(s))
  {
    KeptMeta(s);
    var f, g := Kept(s), On(s.f, r);
    MetaInv(s.f, f.disk);
    MetaInv(s.f, r);
    forall i, p | 0 <= i < |f.inodes| && 0 <= p < MAXBYTES ensures ByteAt(g, i, p) == ByteAt(f, i, p) {
      MetaSlot(s.f, f.disk, i, p / 1024);
      MetaSlot(s.f, r, i, p / 1024);
      var b := Slot(f.disk, f.inodes[i], p / 1024);
      assert SlotOk(f, i, p / 1024);
      if b != 0 {
        assert BlockOk(f, b);
      }
    }
    ImagesSame(f, g);
  }

  lemma HomeHolds(s: State, r: seq<Block>, lay: L.Layout)
    requires Proper(s) && L.SameHome(r, Firm(s.f.disk, s.jnl.strays), lay) && lay.start + lay.size <= s.f.sb.inodestart
    ensures Holds(r, s)
  {
    var g := On(s.f, r);
    KeptMeta(s);
    HomeImages(s, r, lay);
    OkIff(s.f, s.img);
    MetaMapped(s.f, r);
    OkIff(g, Images(Kept(s)));
    if Synced(s.f) {
      MetaSynced(s.f, r);
    }
    forall b | 0 < b < s.f.sb.size ensures Owned(g, b) {
      Ownership(g, b);
    }
  }

  // ---------- the commit of a transaction ----------

  /** What a commit of the blocks lh works on: the disk d is volume a, the log is empty, and the cache has the
      blocks of volume b in front of what d has in the log region. */
  ghost predicate Committing(a: State, b: State, tx: Tx, lay: L.Layout, d: L.Disk, mem: L.Disk, lh: seq<nat>) {
    && lay.start + lay.size <= a.f.sb.inodestart && L.HeadOk(d, lay) && L.Header(d, lay) == []
    && |lh| <= L.LOGSIZE && |lh| < lay.size && (forall q :: q in lh <==> q in tx.l)
    && L.SameHome(d, Firm(a.f.disk, a.jnl.strays), lay)
    && L.SameHome(mem, Firm(b.f.disk, b.jnl.strays), lay)
  }

  lemma Fits(a: State, b: State, tx: Tx, lay: L.Layout, d: L.Disk, mem: L.Disk, lh: seq<nat>)
    requires Transaction(a, b, tx) && Committing(a, b, tx, lay, d, mem, lh)
    ensures L.Loggable(d, lay, lh) && |mem| == |d|
  {
    ShapeOk(a.f, a.img);
    ShapeOk(b.f, b.img);
    forall t | 0 <= t < |lh| ensures lh[t] < |d| && !L.InLog(lay, lh[t]) {
      assert lh[t] in lh;
    }
  }

  /** The blocks of b, in terms of those of a and the logged ones. */
  lemma NewHome(a: State, b: State, tx: Tx, lay: L.Layout, d: L.Disk, mem: L.Disk, lh: seq<nat>, r: L.Disk)
    requires Transaction(a, b, tx) && Committing(a, b, tx, lay, d, mem, lh) && |mem| == |d|
    requires L.Updated(d, lh, mem, r, lay)
    ensures L.SameHome(r, Firm(b.f.disk, b.jnl.strays), lay)
  {
    forall k | 0 <= k < |r| && !L.InLog(lay, k) ensures r[k] == Firm(b.f.disk, b.jnl.strays)[k] {
      FirmChange(a.f, Begun(a.jnl), b.f, b.jnl, tx, k);
    }
  }

  /** Stop the commit of a transaction after k of its block writes, and any number of recoveries after any of
      theirs: the first recovery that completes leaves the volume as it was before the transaction or as it is
      after it, decided only by whether the header had been written. */
  lemma CrashInTransaction(a: State, b: State, tx: Tx, lay: L.Layout, d: L.Disk, mem: L.Disk, lh: seq<nat>, k: nat,
          crashes: seq<nat>)
    requires Transaction(a, b, tx) && Committing(a, b, tx, lay, d, mem, lh) && k <= 2 * |lh| + 2
    ensures L.Loggable(d, lay, lh) && |mem| == |d| && L.HeadOk(L.CommitDisk(d, lay, lh, mem, k), lay)
    ensures Holds(L.Recovered(L.CrashAgain(L.CommitDisk(d, lay, lh, mem, k), lay, crashes), lay),
                  if k <= |lh| then a else b)
  {
    Fits(a, b, tx, lay, d, mem, lh);
    L.CrashAtomicity(d, lay, lh, mem, k, crashes);
    var r := L.Recovered(L.CrashAgain(L.CommitDisk(d, lay, lh, mem, k), lay, crashes), lay);
    if k <= |lh| {
      HomeHolds(a, r, lay);
    } else {
      NewHome(a, b, tx, lay, d, mem, lh, r);
      HomeHolds(b, r, lay);
    }
  }

  /** So a crash at any block write of any transaction of a filewrite. */
  lemma CrashInFilewrite(trail: seq<State>, txs: seq<Tx>, cap: nat, j: nat, lay: L.Layout, d: L.Disk, mem: L.Disk,
          lh: seq<nat>, k: nat, crashes: seq<nat>)
    requires Chain(trail, txs, cap) && j < |txs| && k <= 2 * |lh| + 2
    requires Committing(trail[j], trail[j + 1], txs[j], lay, d, mem, lh)
    ensures L.Loggable(d, lay, lh) && |mem| == |d| && L.HeadOk(L.CommitDisk(d, lay, lh, mem, k), lay)
    ensures Holds(L.Recovered(L.CrashAgain(L.CommitDisk(d, lay, lh, mem, k), lay, crashes), lay),
                  if k <= |lh| then trail[j] else trail[j + 1])
  {
    ChainAt(trail, txs, cap, j);
    CrashInTransaction(trail[j], trail[j + 1], txs[j], lay, d, mem, lh, k, crashes);
  }
}
