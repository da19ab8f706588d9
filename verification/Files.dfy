/** The bytes that the files of kernel/fs.c hold, and what the block operations do to them. */
module Files {
  import opened Sequences
  import opened Blocks
  import opened Inodes
  import opened Truncate

  const MAXBYTES := 274432          // MAXFILE * BSIZE

  /** All the bytes that file i can have; those behind its size do not count. */
  ghost function Image(f: Fs, i: nat): (s: seq<byte>)
    requires Shape(f) && i < |f.inodes|
    ensures |s| == MAXBYTES && forall p :: 0 <= p < MAXBYTES ==> s[p] == ByteAt(f, i, p)
  {
    seq(MAXBYTES, p requires 0 <= p < MAXBYTES => ByteAt(f, i, p))
  }

  ghost function Images(f: Fs): (s: seq<seq<byte>>)
    requires Shape(f)
    ensures |s| == |f.inodes| && forall i :: 0 <= i < |s| ==> s[i] == Image(f, i)
  {
    seq(|f.inodes|, i requires 0 <= i < |f.inodes| => Image(f, i))
  }

  /** Every block of the first n bytes of the file is there. */
  predicate MappedTo(f: Fs, i: nat, n: nat)
    requires Shape(f) && i < |f.inodes|
  {
    n <= MAXBYTES && forall k :: 0 <= k < MAXFILE && k * 1024 < n ==> Slot(f.disk, f.inodes[i], k) != 0
  }

  predicate Mapped(f: Fs, i: nat)
    requires Shape(f) && i < |f.inodes|
  {
    MappedTo(f, i, f.inodes[i].size)
  }

  /** Blocks that were there are still there, in the same slots. */
  predicate Extends(f: Fs, g: Fs)
    requires Shape(f) && Shape(g)
  {
    && g.sb == f.sb && |g.inodes| == |f.inodes|
    && (forall i :: 0 <= i < |f.inodes| ==>
           g.inodes[i].size == f.inodes[i].size &&
           (f.inodes[i].addrs[12] != 0 ==> g.inodes[i].addrs[12] == f.inodes[i].addrs[12]))
    && (forall i, k :: 0 <= i < |f.inodes| && 0 <= k < MAXFILE && Slot(f.disk, f.inodes[i], k) != 0 ==>
          Slot(g.disk, g.inodes[i], k) == Slot(f.disk, f.inodes[i], k))
  }

  lemma ImagesSame(f: Fs, g: Fs)
    requires Shape(f) && Shape(g) && |g.inodes| == |f.inodes|
    requires forall i, p :: 0 <= i < |f.inodes| && 0 <= p < MAXBYTES ==> ByteAt(g, i, p) == ByteAt(f, i, p)
    ensures Images(g) == Images(f)
  {
    forall i | 0 <= i < |f.inodes| ensures Image(g, i) == Image(f, i) {
    }
  }

  lemma MappedKept(f: Fs, g: Fs, i: nat)
    requires Shape(f) && Shape(g) && Extends(f, g) && i < |f.inodes| && Mapped(f, i)
    ensures Mapped(g, i)
  {
  }

  // ---------- balloc ----------

  lemma AllocAt(f: Fs, b: nat, i: nat, p: nat)
    requires Inv(f) && b < f.sb.size && f.owner[b] == Free && i < |f.inodes| && p < MAXBYTES
    ensures ByteAt(Alloc(f, b), i, p) == ByteAt(f, i, p)
  {
    AllocMaps(f, b);
    assert IndOk(f, i) && SlotOk(f, i, p / 1024);
    SlotKept(f, Alloc(f, b).disk, i, p / 1024);
    var c := Slot(f.disk, f.inodes[i], p / 1024);
    if c != 0 {
      assert BlockOk(f, c) && BlockOk(f, f.sb.bmapstart + b / 8192);
    }
  }

  lemma AllocFiles(f: Fs, b: nat)
    requires Inv(f) && b < f.sb.size && f.owner[b] == Free
    ensures Extends(f, Alloc(f, b)) && Images(Alloc(f, b)) == Images(f)
  {
    var g := Alloc(f, b);
    AllocMaps(f, b);
    forall i, k | 0 <= i < |f.inodes| && 0 <= k < MAXFILE
      ensures Slot(g.disk, g.inodes[i], k) == Slot(f.disk, f.inodes[i], k)
    {
      assert IndOk(f, i);
      SlotKept(f, g.disk, i, k);
    }
    forall i, p | 0 <= i < |f.inodes| && 0 <= p < MAXBYTES ensures ByteAt(g, i, p) == ByteAt(f, i, p) {
      AllocAt(f, b, i, p);
    }
    ImagesSame(f, g);
  }

  // ---------- placing ----------

  lemma DirectAt(f: Fs, i: nat, k: nat, b: uint, j: nat, p: nat)
    requires Ready(f, i, k, b) && k < NDIRECT && j < |f.inodes| && p < MAXBYTES
    ensures ByteAt(PlaceDirect(f, i, k, b), j, p) == ByteAt(f, j, p)
  {
    if j == i && p / 1024 == k {
      assert Slot(PlaceDirect(f, i, k, b).disk, PlaceDirect(f, i, k, b).inodes[i], k) == b;
    }
  }

  lemma DirectFiles(f: Fs, i: nat, k: nat, b: uint)
    requires Ready(f, i, k, b) && k < NDIRECT
    ensures Extends(f, PlaceDirect(f, i, k, b)) && Images(PlaceDirect(f, i, k, b)) == Images(f)
  {
    var g := PlaceDirect(f, i, k, b);
    forall j, p | 0 <= j < |f.inodes| && 0 <= p < MAXBYTES ensures ByteAt(g, j, p) == ByteAt(f, j, p) {
      DirectAt(f, i, k, b, j, p);
    }
    ImagesSame(f, g);
  }

  lemma IndirectFiles(f: Fs, i: nat, b: uint)
    requires Inv(f) && i < |f.inodes| && f.inodes[i].addrs[12] == 0 && 0 < b < f.sb.size && f.owner[b] == Pending &&
             f.disk[b] == ZeroBlock()
    ensures Extends(f, PlaceIndirect(f, i, b)) && Images(PlaceIndirect(f, i, b)) == Images(f)
  {
    var g := PlaceIndirect(f, i, b);
    forall j, k | 0 <= j < |f.inodes| && 0 <= k < MAXFILE
      ensures Slot(g.disk, g.inodes[j], k) == Slot(f.disk, f.inodes[j], k)
    {
      if j == i && k >= NDIRECT {
        ZeroSlot(g.disk, g.inodes[i], b, k);
      }
    }
    forall j, p | 0 <= j < |f.inodes| && 0 <= p < MAXBYTES ensures ByteAt(g, j, p) == ByteAt(f, j, p) {
      assert Slot(g.disk, g.inodes[j], p / 1024) == Slot(f.disk, f.inodes[j], p / 1024);
    }
    ImagesSame(f, g);
  }

  lemma EntryAt(f: Fs, i: nat, k: nat, b: uint, j: nat, p: nat)
    requires Ready(f, i, k, b) && NDIRECT <= k && 0 < f.inodes[i].addrs[12] < f.sb.size && j < |f.inodes| &&
             p < MAXBYTES
    ensures ByteAt(PlaceEntry(f, i, k, b), j, p) == ByteAt(f, j, p)
  {
    EntrySlot(f, i, k, b, j, p / 1024);
    assert IndOk(f, i) && SlotOk(f, j, p / 1024);
  }

  lemma EntryFiles(f: Fs, i: nat, k: nat, b: uint)
    requires Ready(f, i, k, b) && NDIRECT <= k && 0 < f.inodes[i].addrs[12] < f.sb.size
    ensures Extends(f, PlaceEntry(f, i, k, b)) && Images(PlaceEntry(f, i, k, b)) == Images(f)
  {
    var g := PlaceEntry(f, i, k, b);
    forall j, l | 0 <= j < |f.inodes| && 0 <= l < MAXFILE && Slot(f.disk, f.inodes[j], l) != 0
      ensures Slot(g.disk, g.inodes[j], l) == Slot(f.disk, f.inodes[j], l)
    {
      EntrySlot(f, i, k, b, j, l);
    }
    forall j, p | 0 <= j < |f.inodes| && 0 <= p < MAXBYTES ensures ByteAt(g, j, p) == ByteAt(f, j, p) {
      EntryAt(f, i, k, b, j, p);
    }
    ImagesSame(f, g);
  }

  // ---------- writing ----------

  /** memmove of t into block k of the file at offset o, and log_write */
  lemma WriteFiles(f: Fs, i: nat, k: nat, b: nat, o: nat, t: seq<byte>)
    requires Inv(f) && i < |f.inodes| && k < MAXFILE && Slot(f.disk, f.inodes[i], k) == b != 0 && o + |t| <= 1024
    ensures b < f.sb.size && f.owner[b] == Data(i, k)
    ensures var g := WriteData(f, b, Patch(f.disk[b], o, t));
            Inv(g) && Extends(f, g) && Images(g) == Images(f)[i := Patch(Image(f, i), k * 1024 + o, t)]
  {
    assert SlotOk(f, i, k);
    var x: Block := Patch(f.disk[b], o, t);
    var g := WriteData(f, b, x);
    WriteDataInv(f, b, x);
    forall j, l | 0 <= j < |f.inodes| && 0 <= l < MAXFILE
      ensures Slot(g.disk, g.inodes[j], l) == Slot(f.disk, f.inodes[j], l)
    {
      assert IndOk(f, j);
      SlotKept(f, g.disk, j, l);
    }
    forall j | 0 <= j < |f.inodes|
      ensures Image(g, j) == if j == i then Patch(Image(f, i), k * 1024 + o, t) else Image(f, j)
    {
      forall p | 0 <= p < MAXBYTES
        ensures ByteAt(g, j, p) == if j == i && k * 1024 + o <= p < k * 1024 + o + |t| then t[p - (k * 1024 + o)]
                else ByteAt(f, j, p)
      {
        WriteDataAt(f, i, k, b, x, j, p);
      }
    }
  }

  /** What a free block holds is in no file. */
  lemma WriteFree(f: Fs, b: nat, x: Block)
    requires Inv(f) && b < f.sb.size && f.owner[b] == Free
    ensures Inv(WriteData(f, b, x)) && Extends(f, WriteData(f, b, x)) && Images(WriteData(f, b, x)) == Images(f)
  {
    var g := WriteData(f, b, x);
    WriteDataInv(f, b, x);
    forall j, l | 0 <= j < |f.inodes| && 0 <= l < MAXFILE
      ensures Slot(g.disk, g.inodes[j], l) == Slot(f.disk, f.inodes[j], l)
    {
      assert IndOk(f, j);
      SlotKept(f, g.disk, j, l);
    }
    forall j, p | 0 <= j < |f.inodes| && 0 <= p < MAXBYTES ensures ByteAt(g, j, p) == ByteAt(f, j, p) {
      assert SlotOk(f, j, p / 1024);
    }
    ImagesSame(f, g);
  }

  // ---------- truncating ----------

  /** A file without blocks reads as zeros everywhere. */
  function Blank(): (s: seq<byte>)
    ensures |s| == MAXBYTES && forall p :: 0 <= p < |s| ==> s[p] == 0
  {
    seq(MAXBYTES, _ => 0)
  }

  lemma TruncAt(f: Fs, x: nat, j: nat, p: nat)
    requires Inv(f) && x < |f.inodes| && j < |f.inodes| && p < MAXBYTES
    ensures Shape(Truncated(f, x))
    ensures ByteAt(Truncated(f, x), j, p) == if j == x then 0 else ByteAt(f, j, p)
  {
    var b := Slot(f.disk, f.inodes[j], p / 1024);
    assert SlotOk(f, j, p / 1024);
    TruncatedSlot(f, x, j, p / 1024);
    TruncatedAt(f, x, b);
    if b != 0 { assert BlockOk(f, b); }
  }

  lemma TruncFiles(f: Fs, x: nat)
    requires Inv(f) && x < |f.inodes|
    ensures Shape(Truncated(f, x)) && Images(Truncated(f, x)) == Images(f)[x := Blank()]
  {
    TruncatedIs(f, x);
    var g := Truncated(f, x);
    forall j | 0 <= j < |f.inodes| ensures Image(g, j) == if j == x then Blank() else Image(f, j) {
      forall p | 0 <= p < MAXBYTES ensures ByteAt(g, j, p) == if j == x then 0 else ByteAt(f, j, p) {
        TruncAt(f, x, j, p);
      }
    }
  }

  lemma TruncMapped(f: Fs, x: nat, j: nat)
    requires Inv(f) && x < |f.inodes| && j < |f.inodes| && Mapped(f, j)
    ensures Shape(Truncated(f, x)) && j < |Truncated(f, x).inodes| && Mapped(Truncated(f, x), j)
  {
    TruncatedIs(f, x);
    if j != x {
      forall k | 0 <= k < MAXFILE && k * 1024 < f.inodes[j].size
        ensures Slot(Truncated(f, x).disk, f.inodes[j], k) != 0
      {
        TruncatedSlot(f, x, j, k);
      }
    }
  }

  // ---------- readi and writei on the contents ----------

  /** The contents of a file: its bytes up to its size. */
  function Contents(s: seq<byte>, size: nat): seq<byte> {
    if size <= |s| then s[..size] else s
  }

  /** What readi has to deliver from a file with contents c; the sum of offset and length may wrap. */
  function Readable(c: seq<byte>, off: uint, n: uint): seq<byte> {
    if off > |c| || (off + n) % TWO32 < off then [] else c[off..if off + n < |c| then off + n else |c|]
  }

  /** writei refuses to leave a hole, and a file that would be too large. */
  predicate Refused(size: nat, off: uint, n: uint) {
    off > size || (off + n) % TWO32 < off || (off + n) % TWO32 > MAXBYTES
  }

  /** The test for a wrapping sum makes this right for all offsets and lengths. */
  lemma RefusedIff(size: nat, off: uint, n: uint)
    ensures Refused(size, off, n) <==> off > size || off + n > MAXBYTES
  {
    if off + n >= TWO32 {
      assert (off + n) % TWO32 == off + n - TWO32;
    }
  }

  function Max(a: nat, b: nat): nat {
    if a < b then b else a
  }

  function Min(a: nat, b: nat): nat {
    if a < b then a else b
  }

  /** The part of a block behind offset o of it is the part of the file behind byte p. */
  lemma BlockSlice(s: seq<byte>, x: seq<byte>, off: nat, p: nat, c: nat)
    requires off <= p && p / 1024 * 1024 + 1024 <= |s| && x == s[p / 1024 * 1024..p / 1024 * 1024 + 1024] &&
             p % 1024 + c <= 1024
    ensures p + c <= |s| && s[off..p] + x[p % 1024..p % 1024 + c] == s[off..p + c]
  {
    assert p == p / 1024 * 1024 + p % 1024;
  }

  /** Two patches that touch are one. */
  lemma PatchPatch(s: seq<byte>, off: nat, t: seq<byte>, a: nat, b: nat)
    requires a <= b <= |t| && off + b <= |s|
    ensures Patch(Patch(s, off, t[..a]), off + a, t[a..b]) == Patch(s, off, t[..b])
  {
    assert t[..b] == t[..a] + t[a..b];
  }

  /** Reading the contents is reading the bytes up to the size. */
  lemma ReadablePart(s: seq<byte>, size: nat, off: uint, n: uint, m: nat, k: nat)
    requires off <= size <= |s| && (off + n) % TWO32 >= off && m == (if off + n > size then size - off else n) && k <= m
    ensures var r := Readable(Contents(s, size), off, n); |r| == m && r[..k] == s[off..off + k]
  {
    var l, r := s[..size][off..off + m][..k], s[off..off + k];
    assert |l| == |r| && forall q :: 0 <= q < k ==> l[q] == r[q];
  }

  lemma PatchNone(s: seq<byte>, off: nat, t: seq<byte>)
    requires off <= |s|
    ensures Patch(s, off, t[..0]) == s
  {
  }

  /** The contents after n bytes were written at an offset within the file: what was there before the
      offset, the bytes, and what was there behind them. */
  lemma WrittenContents(s: seq<byte>, size: nat, off: nat, t: seq<byte>)
    requires off <= size <= |s| && off + |t| <= |s|
    ensures var c := Contents(s, size);
            Contents(Patch(s, off, t), Max(size, off + |t|)) == c[..off] + t + c[Min(off + |t|, size)..]
  {
    var l, r := Contents(Patch(s, off, t), Max(size, off + |t|)),
      Contents(s, size)[..off] + t + Contents(s, size)[Min(off + |t|, size)..];
    assert |l| == |r|;
    assert forall q :: 0 <= q < |l| ==> l[q] == r[q];
  }

  /** So what was written can be read back. */
  lemma ReadBack(s: seq<byte>, size: nat, off: uint, t: seq<byte>)
    requires off <= size <= |s| && off + |t| <= |s| <= MAXBYTES
    ensures Readable(Contents(Patch(s, off, t), Max(size, off + |t|)), off, |t|) == t
  {
    WrittenContents(s, size, off, t);
    var c := Contents(s, size);
    assert (c[..off] + t + c[Min(off + |t|, size)..])[off..off + |t|] == t;
  }
}
