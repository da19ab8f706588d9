/** balloc, bfree, bmap, itrunc, iupdate, readi and writei of kernel/fs.c, and filewrite of kernel/file.c. */
module FileSystem {
  import opened Sequences
  import opened Wrappers
  import opened Blocks
  import opened Bitmap
  import opened Inodes
  import opened Truncate
  import opened Files
  import opened BlockMap
  import opened InodeStore
  import opened Space
  import opened Changes
  import opened FileOps
  import opened Writes
  import LogSpec
  import R = LogReservation

  class Volume {
    const sb: Super
    var disk: seq<Block>            // what bread returns for each block
    var inodes: seq<Inode>
    ghost var owner: seq<Owner>
    ghost var img: seq<seq<byte>>   // what the files hold
    ghost var jnl: Journal          // what the current operation has stored to and logged

    ghost function View(): Fs
      reads this
    {
      Fs(sb, disk, inodes, owner)
    }

    ghost function Snap(): State
      reads this
    {
      State(View(), img, jnl)
    }

    /** What holds within an operation. */
    ghost predicate Sane()
      reads this
    {
      Ok(View(), img)
    }

    /** What holds between calls. */
    ghost predicate Valid()
      reads this
    {
      Proper(Snap())
    }

    /** mkfs: n empty files. The bitmap of the metadata has to fit in one block. */
    constructor (s: Super, n: nat)
      requires s.size < TWO32 && 0 < s.data <= s.size && s.data < 8192 && 0 < s.bmapstart
      requires s.bmapstart + s.size / 8192 < s.data && n <= 16 * (s.bmapstart - s.inodestart)
      ensures Valid() && Synced(View()) && sb == s && jnl == Journal({}, {}, map[]) && |inodes| == |img| == n
      ensures forall i :: 0 <= i < n ==> inodes[i] == EmptyInode() && img[i] == Blank()
      ensures FreeBlocks(owner) == s.size - s.data
    {
      var x := MarkUsed(s.data);
      sb := s;
      disk := seq<Block>(s.size, _ => ZeroBlock())[s.bmapstart := x];
      inodes := seq(n, _ => EmptyInode());
      owner := seq(s.size, b => if b < s.data then Meta else Free);
      img, jnl := seq(n, _ => Blank()), Journal({}, {}, map[]);
      new;
      FormattedOk(View(), x, img);
      FormattedSynced(View(), x);
      FormattedFree(owner, s.data, |owner|);
    }

    /** Block b becomes x in its buffer, and log_write. */
    method PutLogged(b: nat, x: Block)
      requires b < |disk|
      modifies `disk, `jnl
      ensures disk == old(disk)[b := x] && jnl == Noted(old(jnl), {b})
    {
      NotedOne(jnl, b, disk[b]);
      jnl := Stored(jnl, b, disk[b]);
      disk := disk[b := x];
      jnl := Logged(jnl, b);
    }

    /** balloc: the first block whose bit is clear, zeroed and marked, or 0. Its caller puts it in place. */
    method Balloc() returns (b: uint)
      requires Sane()
      modifies `disk, `owner, `jnl
      ensures b == 0 ==> View() == old(View()) && jnl == old(jnl) && Full(old(View()))
      ensures b != 0 ==> FirstFree(old(View()), b) && View() == Alloc(old(View()), b)
      ensures b != 0 ==> jnl == Noted(old(jnl), {BitmapBlock(sb, b), b})
    {
      ShapeOk(View(), img);
      MetaTaken(View(), img);
      b := 0;
      var c := FindFree(disk, sb.bmapstart, sb.size);
      if c < sb.size {
        var m := BitmapBlock(sb, c);
        PutLogged(m, PutBlockBit(disk[m], c % BPB, true));
        PutLogged(c, ZeroBlock());
        owner := owner[c := Pending];
        NotedTwice(old(jnl), {m}, {c});
        assert {m} + {c} == {m, c};
        b := c;
      }
    }

    /** The part of bmap that loads the indirect block, allocating it if necessary. */
    method MapIndirect(i: nat, bn: nat) returns (addr: uint, ghost d: uint)
      requires Sane() && i < |inodes| && NDIRECT <= bn < MAXFILE
      modifies `disk, `inodes, `owner, `jnl
      ensures Sane() && LegalIndirect(old(View()), i, bn, d) && View() == AfterIndirect(old(View()), i, bn, d)
      ensures i < |inodes| && |inodes[i].addrs| == 13 && addr == inodes[i].addrs[12]
      ensures addr == 0 ==> Full(View())
      ensures jnl == Noted(old(jnl), IndirectLogs(old(View()), d))
    {
      ShapeOk(View(), img);
      NotedNone(jnl);
      addr, d := inodes[i].addrs[12], 0;
      if addr == 0 {
        addr := Balloc();
        d := addr;
        if addr != 0 {
          inodes := inodes[i := SetAddr(inodes[i], 12, addr)];
          owner := owner[addr := Indirect(i)];
        }
      }
      IndirectOk(old(View()), img, i, bn, d);
    }

    /** bmap of a direct block. */
    method MapDirect(i: nat, bn: nat) returns (addr: uint, ghost e: uint)
      requires Sane() && i < |inodes| && bn < NDIRECT
      modifies `disk, `inodes, `owner, `jnl
      ensures Sane() && LegalData(old(View()), i, bn, e) && View() == AfterData(old(View()), i, bn, e)
      ensures i < |inodes| && |inodes[i].addrs| == 13 && addr == Slot(disk, inodes[i], bn)
      ensures addr == 0 ==> Full(View())
      ensures jnl == Noted(old(jnl), DataLogs(old(View()), i, bn, e))
    {
      ShapeOk(View(), img);
      NotedNone(jnl);
      e := 0;
      addr := inodes[i].addrs[bn];
      if addr == 0 {
        addr := Balloc();
        e := addr;
        if addr != 0 {
          inodes := inodes[i := SetAddr(inodes[i], bn, addr)];
          owner := owner[addr := Data(i, bn)];
          assert {BitmapBlock(sb, addr), addr as nat} + {} == {BitmapBlock(sb, addr), addr as nat};
        }
      }
      DataOk(old(View()), img, i, bn, e);
    }

    /** bmap of a block behind the indirect block, which is there. */
    method MapEntry(i: nat, bn: nat) returns (addr: uint, ghost e: uint)
      requires Sane() && i < |inodes| && NDIRECT <= bn < MAXFILE && |inodes[i].addrs| == 13 && inodes[i].addrs[12] != 0
      modifies `disk, `owner, `jnl
      ensures Sane() && LegalData(old(View()), i, bn, e) && View() == AfterData(old(View()), i, bn, e)
      ensures i < |inodes| && |inodes[i].addrs| == 13 && addr == Slot(disk, inodes[i], bn)
      ensures addr == 0 ==> Full(View())
      ensures jnl == Noted(old(jnl), DataLogs(old(View()), i, bn, e))
    {
      SlotIs(View(), img, i, bn);
      NotedNone(jnl);
      e := 0;
      var bp := inodes[i].addrs[12];
      addr := GetWord(disk[bp], bn - NDIRECT);
      if addr == 0 {
        addr := Balloc();
        e := addr;
        if addr != 0 {
          PutLogged(bp, PutWord(disk[bp], bn - NDIRECT, addr));
          owner := owner[addr := Data(i, bn)];
          NotedTwice(old(jnl), {BitmapBlock(sb, addr), addr}, {bp});
        }
      }
      DataOk(old(View()), img, i, bn, e);
    }

    /** bmap: the block of slot bn, allocated if there is none; 0 when the disk is full. */
    method Bmap(i: nat, bn: nat) returns (addr: uint, ghost d: uint, ghost e: uint)
      requires Sane() && i < |inodes| && bn < MAXFILE
      modifies `disk, `inodes, `owner, `jnl
      ensures Sane() && Legal(old(View()), BlockMap.Bmap(i, bn, d, e))
      ensures View() == After(old(View()), BlockMap.Bmap(i, bn, d, e))
      ensures i < |inodes| && |inodes[i].addrs| == 13 && addr == Slot(disk, inodes[i], bn)
      ensures addr == 0 ==> Full(View())
      ensures jnl == Noted(old(jnl), BmapLogs(old(View()), i, bn, d, e))
    {
      d, e := 0, 0;
      if bn < NDIRECT {
        addr, e := MapDirect(i, bn);
        assert {} + DataLogs(old(View()), i, bn, e) == DataLogs(old(View()), i, bn, e);
      } else {
        addr, d := MapIndirect(i, bn);
        ghost var g := View();
        if addr != 0 {
          addr, e := MapEntry(i, bn);
          NotedTwice(old(jnl), IndirectLogs(old(View()), d), DataLogs(g, i, bn, e));
        } else {
          assert IndirectLogs(old(View()), d) + {} == IndirectLogs(old(View()), d);
        }
      }
    }

    /** bfree; true means the panic, which stops the kernel. */
    method Bfree(b: nat) returns (panic: bool)
      requires Shape(View()) && b < sb.size
      modifies `disk, `owner, `jnl
      ensures panic == !old(Bit(disk, sb.bmapstart, b))
      ensures panic ==> View() == old(View()) && jnl == old(jnl)
      ensures !panic ==> View() == Released(old(View()), b) && jnl == Noted(old(jnl), {BitmapBlock(sb, b)})
    {
      if !Bit(disk, sb.bmapstart, b) {
        return true;
      }
      var m := BitmapBlock(sb, b);
      PutLogged(m, PutBlockBit(disk[m], b % BPB, false));
      owner := owner[b := Free];
      return false;
    }

    /** iupdate */
    method Iupdate(i: nat)
      requires Sane() && i < |inodes|
      modifies `disk, `jnl
      ensures Sane() && Shape(old(View())) && inodes[i].size < TWO32 && View() == Updated(old(View()), i)
      ensures jnl == Noted(old(jnl), {InodeBlock(sb, i)})
    {
      UpdateOk(View(), img, i);
      var b := InodeBlock(sb, i);
      PutLogged(b, PutDinode(disk[b], i % IPB, inodes[i]));
    }

    /** The first loop of itrunc, over the direct blocks. */
    method FreeDirects(i: nat, ghost f: Fs) returns (ghost l: set<nat>)
      requires Sane() && f == View() && i < |inodes| && |inodes[i].addrs| == 13
      modifies `disk, `inodes, `owner, `jnl
      ensures View() == Freeing(f, i, 12, Emptied(f.inodes[i], 12))
      ensures Traced(f, old(jnl), View(), jnl, Tx(l, None)) && l <= BitmapBlocks(sb)
    {
      var k := 0;
      l := {};
      ShapeOk(View(), img);
      TracedNone(f, jnl);
      while k < NDIRECT
        invariant 0 <= k <= NDIRECT && Traced(f, old(jnl), View(), jnl, Tx(l, None)) && l <= BitmapBlocks(sb)
        invariant View() == Freeing(f, i, k, Emptied(f.inodes[i], k))
      {
        DirectRound(f, img, i, k, View());
        if inodes[i].addrs[k] != 0 {
          l := FreeOne(inodes[i].addrs[k], f, old(jnl), l);
          ghost var g := View();
          inodes := inodes[i := SetAddr(inodes[i], k, 0)];
          TracedInodes(f, old(jnl), g, jnl, Tx(l, None), View());
        }
        k := k + 1;
      }
    }

    /** bfree of a block whose bit is set, in an operation that began in state f with journal j. */
    method FreeOne(b: nat, ghost f: Fs, ghost j: Journal, ghost l: set<nat>) returns (ghost more: set<nat>)
      requires Shape(View()) && b < sb.size && Bit(disk, sb.bmapstart, b) && b / 8192 < NBitmap(sb)
      requires Traced(f, j, View(), jnl, Tx(l, None)) && l <= BitmapBlocks(sb)
      modifies `disk, `owner, `jnl
      ensures View() == Released(old(View()), b)
      ensures Traced(f, j, View(), jnl, Tx(more, None)) && more <= BitmapBlocks(sb)
    {
      ghost var g, k := View(), jnl;
      var panic := Bfree(b);
      assert !panic;
      ReleasedTouch(g, b);
      TracedMore(f, j, g, k, l, View(), jnl, {BitmapBlock(sb, b)});
      more := l + {BitmapBlock(sb, b)};
    }

    /** The second loop of itrunc, over the entries of the indirect block in a. */
    method FreeEntries(i: nat, a: Block, ghost f: Fs, ghost ip: Inode, ghost j0: Journal, ghost l: set<nat>)
      returns (ghost more: set<nat>)
      requires Ok(f, img) && f.sb == sb && i < |f.inodes| && |f.inodes[i].addrs| == 13 && |ip.addrs| == 13
      requires View() == Freeing(f, i, 12, ip) && 0 < f.inodes[i].addrs[12] < |f.disk|
      requires a == f.disk[f.inodes[i].addrs[12]]
      requires Traced(f, j0, View(), jnl, Tx(l, None)) && l <= BitmapBlocks(sb)
      modifies `disk, `owner, `jnl
      ensures View() == Freeing(f, i, MAXFILE, ip)
      ensures Traced(f, j0, View(), jnl, Tx(more, None)) && more <= BitmapBlocks(sb)
    {
      var j := 0;
      more := l;
      while j < NINDIRECT
        invariant 0 <= j <= NINDIRECT && Traced(f, j0, View(), jnl, Tx(more, None)) && more <= BitmapBlocks(sb)
        invariant View() == Freeing(f, i, 12 + j, ip)
      {
        EntryRound(f, img, i, j, a, ip, View());
        if GetWord(a, j) != 0 {
          more := FreeOne(GetWord(a, j), f, j0, more);
        }
        j := j + 1;
      }
    }

    /** The part of itrunc that frees the indirect block and what is in it. */
    method FreeIndirects(i: nat, ghost f: Fs, ghost j0: Journal, ghost l: set<nat>) returns (ghost more: set<nat>)
      requires Ok(f, img) && f.sb == sb && i < |f.inodes| && |f.inodes[i].addrs| == 13
      requires View() == Freeing(f, i, 12, Emptied(f.inodes[i], 12))
      requires Traced(f, j0, View(), jnl, Tx(l, None)) && l <= BitmapBlocks(sb)
      modifies `disk, `inodes, `owner, `jnl
      ensures View() == Freeing(f, i, MAXFILE + 1, Emptied(f.inodes[i], 13))
      ensures Traced(f, j0, View(), jnl, Tx(more, None)) && more <= BitmapBlocks(sb)
    {
      more := l;
      if inodes[i].addrs[12] == 0 {
        WithoutIndirect(f, i);
      } else {
        IndirectKept(f, img, i, 12, inodes[i]);
        more := FreeEntries(i, disk[inodes[i].addrs[12]], f, inodes[i], j0, more);
        LastRound(f, img, i, View());
        more := FreeOne(inodes[i].addrs[12], f, j0, more);
        ghost var g := View();
        inodes := inodes[i := SetAddr(inodes[i], 12, 0)];
        TracedInodes(f, j0, g, jnl, Tx(more, None), View());
      }
    }

    /** What itrunc does before iupdate. */
    method FreeAll(i: nat) returns (ghost l: set<nat>)
      requires Sane() && i < |inodes|
      modifies this
      ensures Sane() && Shape(old(View())) && View() == Truncated(old(View()), i) && img == old(img)[i := Blank()]
      ensures Traced(old(View()), old(jnl), View(), jnl, Tx(l, None)) && l <= BitmapBlocks(sb)
    {
      ghost var f := View();
      ShapeOk(f, img);
      l := FreeDirects(i, f);
      l := FreeIndirects(i, f, old(jnl), l);
      ghost var g := View();
      AllFreed(f, i, g);
      inodes := inodes[i := Inode(inodes[i].addrs, 0)];
      TracedInodes(f, old(jnl), g, jnl, Tx(l, None), View());
      TruncateOk(f, img, i);
      img := img[i := Blank()];
    }

    /** itrunc: the file is empty, exactly its blocks are free, and its inode on disk says so; all blocks that it
        stores to are logged. */
    method Itrunc(i: nat) returns (ghost l: set<nat>)
      requires Valid() && i < |inodes|
      modifies this
      ensures Valid() && inodes == old(inodes)[i := EmptyInode()] && img == old(img)[i := Blank()]
      ensures FreedOnly(old(owner), owner, i)
      ensures SyncedBut(old(View()), i) ==> Synced(View())
      ensures Traced(old(View()), old(jnl), View(), jnl, Tx(l, None)) && l <= BitmapBlocks(sb) + {InodeBlock(sb, i)}
    {
      l := FreeAll(i);
      ghost var g, k := View(), jnl;
      Iupdate(i);
      TruncateEnds(old(View()), old(img), old(jnl), g, k, l, View(), jnl, i);
      l := l + {InodeBlock(sb, i)};
    }

    ghost function FileContents(i: nat): seq<byte>
      requires i < |inodes| && i < |img|
      reads this
    {
      Contents(img[i], inodes[i].size)
    }

    /** bmap of a block that is there. */
    method Lookup(i: nat, bn: nat) returns (addr: uint)
      requires Sane() && i < |inodes| && bn < MAXFILE && |inodes[i].addrs| == 13 && Slot(disk, inodes[i], bn) != 0
      modifies `disk, `inodes, `owner, `jnl
      ensures Snap() == old(Snap()) && addr == old(Slot(disk, inodes[i], bn))
    {
      ghost var d, e;
      addr, d, e := Bmap(i, bn);
      NothingToDo(old(View()), i, bn, d, e);
      NotedNone(old(jnl));
    }

    /** The loop of readi; room is how many bytes of the destination can be written. */
    method ReadLoop(i: nat, off: uint, n: nat, room: nat) returns (tot: int, out: seq<byte>)
      requires Sane() && i < |inodes| && off + n <= inodes[i].size && |img| == |inodes| && inodes[i].size <= |img[i]|
      modifies `disk, `inodes, `owner, `jnl
      ensures Snap() == old(Snap())
      ensures tot == if room < n then -1 else n
      ensures out == img[i][off..off + Min(room, n)]
    {
      var t := 0;
      out := [];
      while t < n
        invariant 0 <= t <= n && t <= room && Snap() == old(Snap())
        invariant out == img[i][off..off + t]
      {
        var p := off + t;
        ReadBlock(View(), img, i, p);
        var addr := Lookup(i, p / 1024);
        var m := Min(n - t, 1024 - p % 1024);
        var c := Min(m, room - t);
        BlockSlice(img[i], disk[addr], off, p, c);
        out := out + disk[addr][p % 1024..p % 1024 + c];
        if c < m {
          return -1, out;
        }
        t := t + m;
      }
      tot := t;
    }

    /** readi: the bytes of the file from off on, as far as it goes. It changes nothing, since every block
        below the size of a file is there. */
    method Readi(i: nat, off: uint, n: uint, room: nat) returns (tot: int, out: seq<byte>)
      requires Sane() && i < |inodes|
      modifies `disk, `inodes, `owner, `jnl
      ensures Snap() == old(Snap()) && |img| == |inodes|
      ensures var r := Readable(FileContents(i), off, n);
              tot == (if room < |r| then -1 else |r|) && out == r[..Min(room, |r|)]
    {
      SizeIs(View(), img, i);
      if off > inodes[i].size || (off + n) % TWO32 < off {
        return 0, [];
      }
      var m := if (off + n) % TWO32 > inodes[i].size then inodes[i].size - off else n;
      ReadablePart(img[i], inodes[i].size, off, n, m, Min(room, m));
      tot, out := ReadLoop(i, off, m, room);
    }

    /** The cache recycles the buffer of a stray block, which is x on disk: from then on it reads as x. This may
        happen at any time between calls. */
    method Recycle(b: nat, x: Block)
      requires Valid() && b in jnl.strays && x == jnl.strays[b]
      modifies `disk, `img, `jnl
      ensures Valid() && b < |old(owner)| && disk == old(disk)[b := x] && img == Reread(old(View()), old(img), b, x)
      ensures jnl == Journal(old(jnl).stored, old(jnl).logged, old(jnl).strays - {b})
    {
      RecycleOk(View(), img, b, x);
      img := Reread(View(), img, b, x);
      disk := disk[b := x];
      jnl := Journal(jnl.stored, jnl.logged, jnl.strays - {b});
    }

    /** bmap in a round of writei. */
    method Extend(i: nat, bn: nat) returns (addr: uint, ghost l: set<nat>)
      requires Sane() && i < |inodes| && bn < MAXFILE
      modifies `disk, `inodes, `owner, `jnl
      ensures Sane() && Mapped1(old(View()), View(), i, bn, l) && jnl == Noted(old(jnl), l)
      ensures i < |inodes| && addr == Slot(disk, inodes[i], bn) && addr < sb.size && (addr == 0 ==> Full(View()))
    {
      ghost var d, e;
      addr, d, e := Bmap(i, bn);
      BmapMapped(old(View()), img, i, bn, d, e);
      SlotIs(View(), img, i, bn);
      l := BmapLogs(old(View()), i, bn, d, e);
    }

    /** either_copyin of t into the block of byte p, and log_write unless the copy failed. */
    method CopyIn(i: nat, p: nat, t: seq<byte>, whole: bool, addr: uint)
      requires Sane() && i < |inodes| && p < MAXBYTES && p % 1024 + |t| <= 1024 && (whole ==> t != [])
      requires Shape(View()) && addr == Slot(disk, inodes[i], p / 1024) && 0 < addr < sb.size
      modifies `disk, `img, `jnl
      ensures Sane() && Grows(old(View()), View(), i) && View() == Put(old(View()), i, p, t)
      ensures |old(img)| == |inodes| && |old(img)[i]| == MAXBYTES && p + |t| <= MAXBYTES
      ensures img == old(img)[i := Patch(old(img)[i], p, t)]
      ensures Traced(old(View()), old(jnl), View(), jnl, CopyTx(addr, t, whole))
    {
      ShapeOk(View(), img);
      PutOk(View(), img, i, p, t);
      PutSlots(View(), img, i, p, t, 0);
      if t != [] {
        jnl := Stored(jnl, addr, disk[addr]);
      }
      disk := disk[addr := Patch(disk[addr], p % 1024, t)];
      img := img[i := Patch(img[i], p, t)];
      if whole {
        jnl := Logged(jnl, addr);
      }
      CopyTraced(old(View()), old(jnl), addr, t, whole, p % 1024, jnl, View());
    }

    /** One round of writei; false when there is no block left. */
    method WriteRound(i: nat, p: nat, t: seq<byte>, whole: bool) returns (ok: bool, ghost tx: Tx)
      requires Sane() && i < |inodes| && p < MAXBYTES && p % 1024 + |t| <= 1024 && (whole ==> t != [])
      modifies `disk, `inodes, `owner, `img, `jnl
      ensures Sane() && Rounded(old(View()), old(jnl), View(), jnl, i, p, t, whole, tx)
      ensures ok <==> Slot(disk, inodes[i], p / 1024) != 0
      ensures ok ==> |old(img)| == |inodes| && |old(img)[i]| == MAXBYTES && p + |t| <= MAXBYTES
      ensures ok ==> img == old(img)[i := Patch(old(img)[i], p, t)]
      ensures !ok ==> img == old(img) && Stuck(View(), i, p)
    {
      ghost var l;
      var addr;
      addr, l := Extend(i, p / 1024);
      ok := addr != 0;
      ghost var g, k := View(), jnl;
      if ok {
        CopyIn(i, p, t, whole, addr);
        GrowsTrans(old(View()), g, View(), i);
        RoundDone(old(View()), old(jnl), g, k, old(img), View(), jnl, i, p, t, whole, l, addr);
        tx := Tx(l + CopyTx(addr, t, whole).l, CopyTx(addr, t, whole).x);
      } else {
        RoundFails(old(View()), old(jnl), g, k, i, p, t, whole, l);
        tx := Tx(l, None);
      }
    }

    /** The body of the loop of writei, which began in state a; done when it leaves the loop. */
    method WriteOnce(i: nat, off: uint, n: nat, data: seq<byte>, tot: nat, ghost a: State, ghost tx: Tx)
      returns (next: nat, ghost moved: nat, done: bool, ghost more: Tx)
      requires Sane() && tot < n && InLoop(a, Snap(), i, off, n, data, tot, tx)
      modifies `disk, `inodes, `owner, `img, `jnl
      ensures Sane() && if done then Over(a, Snap(), i, off, n, data, next, moved, more)
                        else tot < next && InLoop(a, Snap(), i, off, n, data, next, more)
    {
      ghost var g := Snap();
      var m := Round(off, tot, n);
      var c := Min(m, |data| - tot);
      var t := data[tot..tot + c];
      var ok;
      ok, more := WriteRound(i, off + tot, t, c == m);
      done := !(ok && c == m);
      moved := if ok then tot + c else tot;
      next := if done then tot else tot + c;
      OneRound(a, g, Snap(), i, off, n, data, tot, c, m, t, ok, tx, more, next, moved);
      more := Tx(tx.l + more.l, more.x);
    }

    /** The loop of writei. Of the n bytes of the source, those in data can be read. */
    method WriteLoop(i: nat, off: uint, n: nat, data: seq<byte>) returns (tot: nat, ghost moved: nat, ghost tx: Tx)
      requires Sane() && i < |inodes| && off <= inodes[i].size && off + n <= MAXBYTES
      modifies `disk, `inodes, `owner, `img, `jnl
      ensures Sane() && Over(old(Snap()), Snap(), i, off, n, data, tot, moved, tx)
    {
      LoopStarts(Snap(), i, off, n, data);
      tot, moved, tx := 0, 0, Tx({}, None);
      var done := false;
      while tot < n && !done
        invariant tot <= n && Sane()
        invariant if done then Over(old(Snap()), Snap(), i, off, n, data, tot, moved, tx)
                  else InLoop(old(Snap()), Snap(), i, off, n, data, tot, tx)
        decreases !done, n - tot
      {
        tot, moved, done, tx := WriteOnce(i, off, n, data, tot, old(Snap()), tx);
      }
      if !done {
        LoopEnds(old(Snap()), Snap(), i, off, n, data, tx);
        moved := n;
      }
    }

    /** The end of writei: the size, if the file grew, and iupdate. */
    method Finish(i: nat, end: nat)
      requires Sane() && i < |inodes| && Shape(View()) && MappedTo(View(), i, end)
      modifies `disk, `inodes, `jnl
      ensures Sane() && Max(old(inodes)[i].size, end) < TWO32 && View() == Finished(old(View()), i, end)
      ensures jnl == Noted(old(jnl), {InodeBlock(sb, i)})
    {
      FinishedIs(View(), img, i, end);
      if end > inodes[i].size {
        inodes := inodes[i := Inode(inodes[i].addrs, end)];
      } else {
        assert inodes[i := Inode(inodes[i].addrs, inodes[i].size)] == inodes;
      }
      Iupdate(i);
    }

    /** writei of a range that the file can have. */
    method WriteRange(i: nat, off: uint, n: nat, data: seq<byte>) returns (tot: nat, ghost moved: nat, ghost tx: Tx)
      requires Sane() && i < |inodes| && off <= inodes[i].size && off + n <= MAXBYTES
      modifies this
      ensures Sane() && Wrote(old(Snap()), Snap(), i, off, n, data, tot, moved, tx)
    {
      tot, moved, tx := WriteLoop(i, off, n, data);
      ghost var g := Snap();
      Finish(i, off + tot);
      WriteEnds(old(Snap()), g, Snap(), i, off, n, data, tot, moved, tx);
      tx := Tx(tx.l + {InodeBlock(sb, i)}, tx.x);
    }

    /** writei: -1 for a hole or a file too large; otherwise the number of bytes written. What is there before the
        call decides how many of the n bytes count and how many are in the file afterwards, of a source of which
        those in data can be read. */
    method Writei(i: nat, off: uint, n: uint, data: seq<byte>) returns (r: int, ghost moved: nat, ghost tx: Tx)
      requires Valid() && i < |inodes|
      modifies this
      ensures Valid() && -1 <= r && (r == -1 <==> Refused(old(inodes)[i].size, off, n))
      ensures r == -1 ==> Snap() == old(Snap()) && tx == Tx({}, None)
      ensures r != -1 ==> Wrote(old(Snap()), Snap(), i, off, n, data, r, moved, tx)
    {
      SizeIs(View(), img, i);
      if off > inodes[i].size || (off + n) % TWO32 < off {
        return -1, 0, Tx({}, None);
      }
      if (off + n) % TWO32 > MAXFILE * BSIZE {
        return -1, 0, Tx({}, None);
      }
      var tot;
      tot, moved, tx := WriteRange(i, off, n, data);
      StraysKept(old(View()), old(jnl), View(), jnl, tx);
      r := tot;
    }

    /** One transaction of filewrite: begin_op, writei, end_op. It logs at most six blocks more than the bitmap
        has. */
    method WriteChunk(i: nat, off: uint, n: nat, data: seq<byte>) returns (r: int, ghost moved: nat, ghost tx: Tx)
      requires Valid() && i < |inodes| && n <= 3072
      modifies this
      ensures Valid() && -1 <= r && (r == -1 <==> Refused(old(inodes)[i].size, off, n))
      ensures r == -1 ==> View() == old(View()) && img == old(img)
      ensures r != -1 ==> Wrote(State(old(View()), old(img), Begun(old(jnl))), Snap(), i, off, n, data, r, moved, tx)
      ensures Transaction(old(Snap()), Snap(), tx) && |tx.l| <= NBitmap(sb) + 6
    {
      jnl := Begun(jnl);
      NothingTraced(old(Snap()), Snap());
      r, moved, tx := Writei(i, off, n, data);
      if r != -1 {
        ChunkTraced(old(Snap()), Snap(), i, off, n, data, r, moved, tx);
      }
    }

    /** The body of the loop of filewrite, after k bytes of a write that began in state f with files s. */
    method NextChunk(i: nat, off: uint, n: nat, data: seq<byte>, k: nat, ghost f: Fs, ghost s: seq<seq<byte>>)
      returns (r: nat, ghost moved: nat, ghost tx: Tx)
      requires Valid() && k < n && FileWriting(f, s, View(), img, i, off, data, k, k) && off + k < TWO32
      modifies this
      ensures Valid() && r <= Min(3072, n - k) && FileWriting(f, s, View(), img, i, off, data, k + r, moved)
      ensures r == Min(3072, n - k) ==> moved == k + r
      ensures r < Min(3072, n - k) && off <= f.inodes[i].size && off + n <= MAXBYTES && n <= |data| ==> Full(View())
      ensures Transaction(old(Snap()), Snap(), tx) && |tx.l| <= NBitmap(sb) + 6
    {
      ghost var m;
      var c;
      c, m, tx := WriteChunk(i, off + k, Min(3072, n - k), data[k..]);
      r, moved := if c == -1 then 0 else c, if c == -1 then k else k + m;
      ChunkNext(f, s, old(Snap()), Snap(), i, off, n, data, k, Min(3072, n - k), c, m, r, moved);
    }

    /** The same, for a write with transactions txs so far; over when the chunk falls short. */
    method AddChunk(i: nat, off: uint, n: nat, data: seq<byte>, k: nat, ghost a: State, ghost txs: seq<Tx>,
            ghost trail: seq<State>)
      returns (next: nat, over: bool, ghost moved: nat, ghost more: seq<Tx>, ghost on: seq<State>)
      requires Valid() && k < n && FileWriting(a.f, a.img, View(), img, i, off, data, k, k) && off + k < TWO32
      requires Chain(trail, txs, NBitmap(sb) + 6) && trail[|txs|] == Snap() && Counts(n, k, |txs|, false)
      modifies this
      ensures Valid() && k <= next && (over || k < next) &&
              FileWriting(a.f, a.img, View(), img, i, off, data, next, moved)
      ensures Counts(n, next, |more|, over) && (!over ==> moved == next)
      ensures over && off <= a.f.inodes[i].size && off + n <= MAXBYTES && n <= |data| ==> Full(View())
      ensures Chain(on, more, NBitmap(sb) + 6) && on[0] == trail[0] && on[|more|] == Snap()
    {
      ghost var tx;
      var r;
      r, moved, tx := NextChunk(i, off, n, data, k, a.f, a.img);
      ChainMore(trail, txs, NBitmap(sb) + 6, Snap(), tx);
      CountsNext(n, k, |txs|, r);
      more, on := txs + [tx], trail + [Snap()];
      next, over := k + r, r != Min(3072, n - k);
    }

    /** filewrite on an inode, n bytes at the offset off of the open file, of which those in data can be read: the
        whole is written in transactions of at most 3072 bytes, and a chunk that falls short is the last. The file
        has the bytes that count, and `moved` of the source; the new offset tells how many count. The trail has
        the state before the first transaction and after each of them. */
    method FileWrite(i: nat, off: uint, n: int, data: seq<byte>)
      returns (ret: int, end: nat, ghost moved: nat, ghost txs: seq<Tx>, ghost trail: seq<State>)
      requires Valid() && i < |inodes|
      modifies this
      ensures Valid() && off <= end && FileWriting(old(View()), old(img), View(), img, i, off, data, end - off, moved)
      ensures ret == (if n == end - off then n else -1) && (n >= 0 ==> end - off <= n)
      ensures 0 <= n <= |data| && off <= old(inodes)[i].size && off + n <= MAXBYTES ==> ret == n || Full(View())
      ensures Chain(trail, txs, NBitmap(sb) + 6) && trail[0] == old(Snap()) && trail[|txs|] == Snap()
      ensures |txs| == if n <= 0 || n == end - off then Chunks(n) else (end - off) / 3072 + 1
    {
      SizeIs(View(), img, i);
      var k: nat, done := 0, false;
      moved, txs, trail := 0, [], [Snap()];
      while k < n && !done
        invariant Valid() && FileWriting(old(View()), old(img), View(), img, i, off, data, k, moved)
        invariant Counts(n, k, |txs|, done) && (!done ==> moved == k)
        invariant done && off <= old(inodes)[i].size && off + n <= MAXBYTES && n <= |data| ==> Full(View())
        invariant Chain(trail, txs, NBitmap(sb) + 6) && trail[0] == old(Snap()) && trail[|txs|] == Snap()
        decreases !done, n - k
      {
        k, done, moved, txs, trail := AddChunk(i, off, n, data, k, old(Snap()), txs, trail);
      }
      CountsEnd(n, k, |txs|, done);
      end := off + k;
      ret := if k == n then n else -1;
    }
  }

  /** A file of one block of zeros, on a disk of 100 blocks. */
  method OneBlock() returns (v: Volume)
    ensures fresh(v) && v.Valid() && |v.inodes| == |v.img| == 1 && v.jnl.strays == map[]
    ensures v.inodes[0].size == 1024 && v.img[0] == Blank()
  {
    v := new Volume(Super(100, 40, 32, 50), 1);
    ghost var f, s := v.View(), v.img;
    ShapeOk(f, s);
    assert Need(f, 0, 0, 0) == 0 && Need(f, 0, 0, 1) == 1;
    var r;
    ghost var moved, tx;
    r, moved, tx := v.WriteChunk(0, 0, 1024, ZeroBlock());
    assert Reached(0, 1024) == 1;
    CompleteIff(f, 0, 0, 1024, 1024, r, moved);
    assert ZeroBlock()[..1024] == ZeroBlock();
    assert Patch(Blank(), 0, ZeroBlock()) == Blank();
  }

  /** The bytes that a write leaves without counting them: they are read until the buffer is recycled, and then
      no more. Between the two reads nobody writes. */
  method LostByte() returns (first: seq<byte>, second: seq<byte>)
    ensures first == [1] && second == [0]
  {
    var v := OneBlock();
    ghost var a := State(v.View(), v.img, Begun(v.jnl));
    ReadBlock(v.View(), v.img, 0, 0);
    assert v.img[0][0..1024] == ZeroBlock();
    var b := v.inodes[0].addrs[0];
    var r, n;
    ghost var moved, tx;
    r, moved, tx := v.WriteChunk(0, 0, 1024, [1]);
    StrayByte(a, v.Snap(), 0, [1], r, moved, tx);
    n, first := v.Readi(0, 0, 1, 1);
    v.Recycle(b, ZeroBlock());
    n, second := v.Readi(0, 0, 1, 1);
  }

  /** With a bitmap of up to three blocks, and only then, operations that log no more than a transaction of
      filewrite may are too small for the log to run out: the "too big a transaction" panic is unreachable. */
  lemma FilewriteFits(sb: Super)
    ensures R.NeverTooBig(NBitmap(sb) + 6, LogSpec.LOGSIZE) <==> NBitmap(sb) <= 3
    ensures 0 < sb.size <= 8192 ==> NBitmap(sb) + 6 == 7
  {
    R.PanicUnreachableIff(NBitmap(sb) + 6);
  }
}
