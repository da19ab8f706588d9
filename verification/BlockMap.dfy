/** bmap and itrunc of kernel/fs.c over every sequence of calls: which block is whose. */
module BlockMap {
  import opened Blocks
  import opened Bitmap
  import opened Inodes
  import opened Files
  import opened Truncate

  // ---------- one block is taken ----------

  /** The place o is in an inode, and nothing is there yet. */
  predicate Vacant(f: Fs, o: Owner) {
    && Shape(f)
    && match o
       case Data(i, k) =>
         && i < |f.inodes| && k < MAXFILE && Slot(f.disk, f.inodes[i], k) == 0
         && (k >= NDIRECT ==> 0 < f.inodes[i].addrs[12] < f.sb.size)
       case Indirect(i) => i < |f.inodes| && f.inodes[i].addrs[12] == 0
       case _ => false
  }

  /** The block that balloc finds: the first whose bit is clear. */
  predicate FirstFree(f: Fs, b: nat) {
    && Shape(f) && 0 < b < f.sb.size && !Bit(f.disk, f.sb.bmapstart, b)
    && forall c :: 0 <= c < b ==> Bit(f.disk, f.sb.bmapstart, c)
  }

  predicate Full(f: Fs) {
    Shape(f) && forall c :: 0 <= c < f.sb.size ==> Bit(f.disk, f.sb.bmapstart, c)
  }

  /** balloc of block b, which then goes to the place o */
  function Take(f: Fs, o: Owner, b: uint): Fs
    requires Vacant(f, o) && FirstFree(f, b)
  {
    var g := Alloc(f, b);
    if o.Indirect? then PlaceIndirect(g, o.ino, b)
    else if o.k < NDIRECT then PlaceDirect(g, o.ino, o.k, b)
    else PlaceEntry(g, o.ino, o.k, b)
  }

  /** Between balloc and the store, the block is zero and in no inode. */
  lemma Handed(f: Fs, o: Owner, b: uint)
    requires Inv(f) && Vacant(f, o) && FirstFree(f, b)
    ensures f.owner[b] == Free && Inv(Alloc(f, b)) && Vacant(Alloc(f, b), o)
    ensures Extends(f, Alloc(f, b)) && Images(Alloc(f, b)) == Images(f)
  {
    assert BlockOk(f, b);
    AllocInv(f, b);
    AllocFiles(f, b);
    AllocMaps(f, b);
    if o.Data? {
      assert IndOk(f, o.ino);
      SlotKept(f, Alloc(f, b).disk, o.ino, o.k);
    }
  }

  lemma PlacedInv(f: Fs, o: Owner, b: uint)
    requires Inv(f) && Vacant(f, o) && FirstFree(f, b)
    ensures Inv(Take(f, o, b))
  {
    Handed(f, o, b);
    var g := Alloc(f, b);
    if o.Indirect? {
      PlaceIndirectInv(g, o.ino, b);
    } else if o.k < NDIRECT {
      PlaceDirectInv(g, o.ino, o.k, b);
    } else {
      PlaceEntryInv(g, o.ino, o.k, b);
    }
  }

  lemma PlacedFiles(f: Fs, o: Owner, b: uint)
    requires Inv(f) && Vacant(f, o) && FirstFree(f, b)
    ensures Shape(Take(f, o, b)) && Extends(Alloc(f, b), Take(f, o, b)) && Images(Take(f, o, b)) == Images(f)
  {
    Handed(f, o, b);
    var g := Alloc(f, b);
    if o.Indirect? {
      IndirectFiles(g, o.ino, b);
    } else if o.k < NDIRECT {
      DirectFiles(g, o.ino, o.k, b);
    } else {
      EntryFiles(g, o.ino, o.k, b);
    }
  }

  lemma ExtendsTrans(f: Fs, g: Fs, h: Fs)
    requires Shape(f) && Shape(g) && Shape(h) && Extends(f, g) && Extends(g, h)
    ensures Extends(f, h)
  {
    forall i, k | 0 <= i < |f.inodes| && 0 <= k < MAXFILE && Slot(f.disk, f.inodes[i], k) != 0
      ensures Slot(h.disk, h.inodes[i], k) == Slot(f.disk, f.inodes[i], k)
    {
      assert Slot(g.disk, g.inodes[i], k) == Slot(f.disk, f.inodes[i], k);
    }
  }

  /** The place has the block, the block belongs to the place, and no other block changed hands. */
  lemma TakeIs(f: Fs, o: Owner, b: uint)
    requires Inv(f) && Settled(f) && Vacant(f, o) && FirstFree(f, b)
    ensures var g := Take(f, o, b);
            && Inv(g) && Settled(g) && f.owner[b] == Free && g.owner == f.owner[b := o]
            && Extends(f, g) && Images(g) == Images(f)
  {
    PlacedInv(f, o, b);
    Handed(f, o, b);
    PlacedFiles(f, o, b);
    ExtendsTrans(f, Alloc(f, b), Take(f, o, b));
    assert f.owner[b := Pending][b := o] == f.owner[b := o];
  }

  lemma TakenSlot(f: Fs, o: Owner, b: uint)
    requires Inv(f) && Settled(f) && Vacant(f, o) && FirstFree(f, b)
    ensures var g := Take(f, o, b);
            && (o.Data? ==> Slot(g.disk, g.inodes[o.ino], o.k) == b)
            && (o.Indirect? ==> g.inodes[o.ino].addrs[12] == b)
            && forall j :: 0 <= j < |f.inodes| && j != o.ino ==> g.inodes[j] == f.inodes[j]
  {
    TakeIs(f, o, b);
    assert BlockOk(Take(f, o, b), b);
  }

  // ---------- calls ----------

  /** A call of bmap for block k of inode i, which takes block d for the indirect block and block e for
      the file (0 for a block it does not take), or a call of itrunc. */
  datatype Call = Bmap(i: nat, k: nat, d: uint, e: uint) | Itrunc(i: nat)

  /** After the first half of bmap, which sees to the indirect block. */
  predicate LegalIndirect(f: Fs, i: nat, k: nat, d: uint) {
    && Shape(f) && i < |f.inodes| && k < MAXFILE
    && if k < NDIRECT || f.inodes[i].addrs[12] != 0 then d == 0
       else if d == 0 then Full(f) else FirstFree(f, d)
  }

  function AfterIndirect(f: Fs, i: nat, k: nat, d: uint): Fs
    requires LegalIndirect(f, i, k, d)
  {
    if d == 0 then f else Take(f, Indirect(i), d)
  }

  /** The second half: block k itself. Without an indirect block there is nothing to do. */
  predicate LegalData(f: Fs, i: nat, k: nat, e: uint) {
    && Shape(f) && i < |f.inodes| && k < MAXFILE
    && if Slot(f.disk, f.inodes[i], k) != 0 then e == 0
       else if !Vacant(f, Data(i, k)) then e == 0 && Full(f)
       else if e == 0 then Full(f) else FirstFree(f, e)
  }

  function AfterData(f: Fs, i: nat, k: nat, e: uint): Fs
    requires LegalData(f, i, k, e)
  {
    if e == 0 then f else Take(f, Data(i, k), e)
  }

  predicate Legal(f: Fs, c: Call) {
    match c
    case Bmap(i, k, d, e) => LegalIndirect(f, i, k, d) && LegalData(AfterIndirect(f, i, k, d), i, k, e)
    case Itrunc(i) => Shape(f) && i < |f.inodes|
  }

  function After(f: Fs, c: Call): Fs
    requires Legal(f, c)
  {
    match c
    case Bmap(i, k, d, e) => AfterData(AfterIndirect(f, i, k, d), i, k, e)
    case Itrunc(i) => Truncated(f, i)
  }

  lemma IndirectHalf(f: Fs, i: nat, k: nat, d: uint)
    requires Inv(f) && Settled(f) && LegalIndirect(f, i, k, d)
    ensures var g := AfterIndirect(f, i, k, d);
            && Inv(g) && Settled(g) && Extends(f, g) && Images(g) == Images(f)
            && g.owner == (if d == 0 then f.owner else f.owner[d := Indirect(i)])
            && (k >= NDIRECT ==> g.inodes[i].addrs[12] != 0 || Full(g))
  {
    if d != 0 {
      TakeIs(f, Indirect(i), d);
      TakenSlot(f, Indirect(i), d);
    }
  }

  lemma DataHalf(f: Fs, i: nat, k: nat, e: uint)
    requires Inv(f) && Settled(f) && LegalData(f, i, k, e)
    ensures var g := AfterData(f, i, k, e);
            && Inv(g) && Settled(g) && Extends(f, g) && Images(g) == Images(f)
            && g.owner == (if e == 0 then f.owner else f.owner[e := Data(i, k)])
            && (Slot(g.disk, g.inodes[i], k) == 0 ==> Full(g))
  {
    if e != 0 {
      TakeIs(f, Data(i, k), e);
      TakenSlot(f, Data(i, k), e);
    }
  }

  /** bmap gives the file a block or leaves the disk full; what was mapped stays, no file changes, and
      at most the two blocks it says change hands. */
  lemma BmapIs(f: Fs, i: nat, k: nat, d: uint, e: uint)
    requires Inv(f) && Settled(f) && Legal(f, Bmap(i, k, d, e))
    ensures var g := After(f, Bmap(i, k, d, e));
            && Inv(g) && Settled(g) && Extends(f, g) && Images(g) == Images(f)
            && (Slot(g.disk, g.inodes[i], k) == 0 ==> Full(g))
  {
    IndirectHalf(f, i, k, d);
    var h := AfterIndirect(f, i, k, d);
    DataHalf(h, i, k, e);
    ExtendsTrans(f, h, AfterData(h, i, k, e));
  }

  lemma ItruncIs(f: Fs, x: nat)
    requires Inv(f) && Settled(f) && x < |f.inodes|
    ensures Inv(Truncated(f, x)) && Settled(Truncated(f, x)) && GaveBackAll(f, Truncated(f, x), x)
  {
    TruncatedIs(f, x);
    var g := Truncated(f, x);
    forall b | 0 <= b < |g.owner| ensures g.owner[b] != Pending {
      assert f.owner[b] in f.owner;
    }
  }

  // ---------- runs ----------

  predicate LegalRun(f: Fs, calls: seq<Call>)
    decreases |calls|
  {
    calls == [] || (Legal(f, calls[0]) && LegalRun(After(f, calls[0]), calls[1..]))
  }

  function Run(f: Fs, calls: seq<Call>): Fs
    requires LegalRun(f, calls)
    decreases |calls|
  {
    if calls == [] then f else Run(After(f, calls[0]), calls[1..])
  }

  /** After any sequence of calls of bmap and itrunc every block is where the bitmap and the inodes say,
      and none is handed out without being placed. */
  lemma {:induction false} EveryRun(f: Fs, calls: seq<Call>)
    requires Inv(f) && Settled(f) && LegalRun(f, calls)
    ensures Inv(Run(f, calls)) && Settled(Run(f, calls))
    decreases |calls|
  {
    if calls != [] {
      match calls[0] {
        case Bmap(i, k, d, e) => BmapIs(f, i, k, d, e);
        case Itrunc(i) => ItruncIs(f, i);
      }
      EveryRun(After(f, calls[0]), calls[1..]);
    }
  }

  /** So after any such sequence a bit is set exactly for metadata and for blocks of inodes. */
  lemma OwnershipInRuns(f: Fs, calls: seq<Call>, b: nat)
    requires Inv(f) && Settled(f) && LegalRun(f, calls) && 0 < b < Run(f, calls).sb.size
    ensures var g := Run(f, calls);
            Shape(g) && (Bit(g.disk, g.sb.bmapstart, b) <==> b < g.sb.data || InUse(g, b))
  {
    EveryRun(f, calls);
    Ownership(Run(f, calls), b);
  }

  /** And an itrunc that follows never reaches the "freeing free block" panic: at the k-th block that it
      may free, the bit is set. */
  lemma NoPanicInRuns(f: Fs, calls: seq<Call>, x: nat, k: nat)
    requires Inv(f) && Settled(f) && LegalRun(f, calls) && x < |Run(f, calls).inodes| && k <= MAXFILE
    ensures var g := Run(f, calls);
            Shape(g) && !FreesFree(DropAll(g, FileBlocks(g, x), k), FileBlocks(g, x)[k])
  {
    EveryRun(f, calls);
    NeverFreesFree(Run(f, calls), x, k);
  }
}
