/** How many blocks a write needs, and how many there are: when bmap and writei of kernel/fs.c run out. */
module Space {
  import opened Blocks
  import opened Bitmap
  import opened Inodes
  import opened Files
  import opened BlockMap

  // ---------- free blocks ----------

  function FreeBlocks(o: seq<Owner>): nat {
    if o == [] then 0 else FreeBlocks(o[..|o| - 1]) + if o[|o| - 1] == Free then 1 else 0
  }

  lemma {:induction false} FreeTaken(o: seq<Owner>, b: nat, x: Owner)
    requires b < |o| && o[b] == Free && x != Free
    ensures FreeBlocks(o[b := x]) + 1 == FreeBlocks(o)
  {
    var n := |o| - 1;
    if b < n {
      FreeTaken(o[..n], b, x);
      assert o[b := x][..n] == o[..n][b := x];
    } else {
      assert o[b := x][..n] == o[..n];
    }
  }

  lemma {:induction false} FreeNone(o: seq<Owner>)
    ensures FreeBlocks(o) == 0 <==> Free !in o
  {
    if o != [] {
      FreeNone(o[..|o| - 1]);
      assert o == o[..|o| - 1] + [o[|o| - 1]];
    }
  }

  /** All bits are set exactly when no block is free. */
  lemma FullIff(f: Fs)
    requires Inv(f)
    ensures Full(f) <==> FreeBlocks(f.owner) == 0
  {
    FreeNone(f.owner);
    if Full(f) {
      forall c | 0 <= c < |f.owner| ensures f.owner[c] != Free {
        assert BlockOk(f, c) && Bit(f.disk, f.sb.bmapstart, c);
      }
    } else {
      var c :| 0 <= c < f.sb.size && !Bit(f.disk, f.sb.bmapstart, c);
      assert BlockOk(f, c) && f.owner[c] in f.owner;
    }
  }

  // ---------- bmap ----------

  /** How many blocks bmap needs for slot k: the block itself, and maybe the indirect block. */
  function Cost(f: Fs, i: nat, k: nat): nat
    requires Shape(f) && i < |f.inodes| && k < MAXFILE
  {
    (if Slot(f.disk, f.inodes[i], k) == 0 then 1 else 0) + if k >= 12 && f.inodes[i].addrs[12] == 0 then 1 else 0
  }

  /** No slot but k changes. */
  lemma OtherSlots(f: Fs, g: Fs, i: nat, k: nat, j: nat)
    requires Inv(f) && Inv(g) && Extends(f, g) && i < |f.inodes| && j < MAXFILE && j != k
    requires forall b :: 0 <= b < f.sb.size && g.owner[b] == Data(i, j) ==> f.owner[b] == Data(i, j)
    ensures Slot(g.disk, g.inodes[i], j) == Slot(f.disk, f.inodes[i], j)
  {
    var b := Slot(g.disk, g.inodes[i], j);
    assert SlotOk(g, i, j);
    if b != 0 {
      assert BlockOk(f, b);
    }
  }

  lemma HalfSpace(f: Fs, g: Fs, o: Owner, b: uint)
    requires Inv(f) && Inv(g) && b < |f.owner| && f.owner[b] == Free && g.owner == f.owner[b := o] && o != Free
    ensures FreeBlocks(g.owner) + 1 == FreeBlocks(f.owner)
  {
    FreeTaken(f.owner, b, o);
  }

  lemma IndirectSpace(f: Fs, i: nat, k: nat, d: uint)
    requires Inv(f) && Settled(f) && LegalIndirect(f, i, k, d)
    ensures var g := AfterIndirect(f, i, k, d);
            && Inv(g) && Settled(g) && |g.inodes| == |f.inodes|
            && FreeBlocks(g.owner) + (if d == 0 then 0 else 1) == FreeBlocks(f.owner)
            && (g.inodes[i].addrs[12] == 0 <==> f.inodes[i].addrs[12] == 0 && d == 0)
            && (k >= 12 && f.inodes[i].addrs[12] == 0 ==> (d == 0 <==> FreeBlocks(f.owner) == 0))
            && forall j :: 0 <= j < MAXFILE ==> Slot(g.disk, g.inodes[i], j) == Slot(f.disk, f.inodes[i], j)
  {
    IndirectHalf(f, i, k, d);
    FullIff(f);
    var g := AfterIndirect(f, i, k, d);
    if d != 0 {
      TakeIs(f, Indirect(i), d);
      TakenSlot(f, Indirect(i), d);
      HalfSpace(f, g, Indirect(i), d);
      forall j | 0 <= j < MAXFILE ensures Slot(g.disk, g.inodes[i], j) == Slot(f.disk, f.inodes[i], j) {
        OtherSlots(f, g, i, MAXFILE, j);
      }
    }
  }

  lemma DataSpace(f: Fs, i: nat, k: nat, e: uint)
    requires Inv(f) && Settled(f) && LegalData(f, i, k, e)
    ensures var g := AfterData(f, i, k, e);
            && Inv(g) && Settled(g) && |g.inodes| == |f.inodes|
            && FreeBlocks(g.owner) + (if e == 0 then 0 else 1) == FreeBlocks(f.owner)
            && (g.inodes[i].addrs[12] == 0 <==> f.inodes[i].addrs[12] == 0)
            && Slot(g.disk, g.inodes[i], k) == (if e == 0 then Slot(f.disk, f.inodes[i], k) else e)
            && (Slot(f.disk, f.inodes[i], k) == 0 && Vacant(f, Data(i, k)) ==> (e == 0 <==> FreeBlocks(f.owner) == 0))
            && (!Vacant(f, Data(i, k)) ==> e == 0)
            && forall j :: 0 <= j < MAXFILE && j != k ==> Slot(g.disk, g.inodes[i], j) == Slot(f.disk, f.inodes[i], j)
  {
    DataHalf(f, i, k, e);
    FullIff(f);
    var g := AfterData(f, i, k, e);
    if e != 0 {
      TakeIs(f, Data(i, k), e);
      TakenSlot(f, Data(i, k), e);
      HalfSpace(f, g, Data(i, k), e);
      forall j | 0 <= j < MAXFILE && j != k ensures Slot(g.disk, g.inodes[i], j) == Slot(f.disk, f.inodes[i], j) {
        OtherSlots(f, g, i, k, j);
      }
    }
  }

  /** g is f after bmap found its block for slot k of inode i: it took what that costs, and no other slot
      changed. */
  ghost predicate Spent(f: Fs, g: Fs, i: nat, k: nat) {
    && Shape(f) && Shape(g) && i < |f.inodes| == |g.inodes| && k < MAXFILE
    && FreeBlocks(g.owner) + Cost(f, i, k) == FreeBlocks(f.owner)
    && (g.inodes[i].addrs[12] == 0 <==> f.inodes[i].addrs[12] == 0 && k < 12)
    && forall j :: 0 <= j < MAXFILE && j != k ==> Slot(g.disk, g.inodes[i], j) == Slot(f.disk, f.inodes[i], j)
  }

  /** bmap finds a block exactly when it needs no more than are free. */
  lemma BmapSpace(f: Fs, i: nat, k: nat, d: uint, e: uint)
    requires Inv(f) && Settled(f) && Legal(f, Bmap(i, k, d, e))
    ensures var g := After(f, Bmap(i, k, d, e));
            && Shape(g) && i < |g.inodes|
            && (Slot(g.disk, g.inodes[i], k) != 0 <==> Cost(f, i, k) <= FreeBlocks(f.owner))
            && (Slot(g.disk, g.inodes[i], k) != 0 ==> Spent(f, g, i, k))
  {
    var h := AfterIndirect(f, i, k, d);
    IndirectSpace(f, i, k, d);
    DataSpace(h, i, k, e);
    assert SlotOk(h, i, k) && IndOk(h, i);
  }

  // ---------- a run of slots ----------

  /** How many blocks the slots from lo up to hi need, one after the other. */
  function Need(f: Fs, i: nat, lo: nat, hi: nat): nat
    requires Shape(f) && i < |f.inodes| && hi <= MAXFILE
    decreases hi
  {
    if hi <= lo then 0
    else
      Need(f, i, lo, hi - 1) + (if Slot(f.disk, f.inodes[i], hi - 1) == 0 then 1 else 0) +
      if hi - 1 == Max(lo, 12) && f.inodes[i].addrs[12] == 0 then 1 else 0
  }

  lemma {:induction false} NeedMore(f: Fs, i: nat, lo: nat, mid: nat, hi: nat)
    requires Shape(f) && i < |f.inodes| && mid <= hi <= MAXFILE
    ensures Need(f, i, lo, mid) <= Need(f, i, lo, hi)
    decreases hi
  {
    if mid < hi {
      NeedMore(f, i, lo, mid, hi - 1);
    }
  }

  /** There are enough blocks for the slots from lo up to hi. */
  predicate Fits(f: Fs, i: nat, lo: nat, hi: nat)
    requires Shape(f) && i < |f.inodes| && hi <= MAXFILE
  {
    Need(f, i, lo, hi) <= FreeBlocks(f.owner)
  }

  /** From f to g the slots from lo up to k got their blocks. */
  ghost predicate Filled(f: Fs, g: Fs, i: nat, lo: nat, k: nat) {
    && Shape(f) && Shape(g) && i < |f.inodes| == |g.inodes| && lo <= k <= MAXFILE
    && FreeBlocks(g.owner) + Need(f, i, lo, k) == FreeBlocks(f.owner)
    && (g.inodes[i].addrs[12] == 0 <==> f.inodes[i].addrs[12] == 0 && (k <= lo || k <= 12))
    && forall j :: k <= j < MAXFILE ==> Slot(g.disk, g.inodes[i], j) == Slot(f.disk, f.inodes[i], j)
  }

  lemma FilledNone(f: Fs, i: nat, lo: nat)
    requires Shape(f) && i < |f.inodes| && lo <= MAXFILE
    ensures Filled(f, f, i, lo, lo)
  {
  }

  /** The next slot gets its block exactly when there are enough for all up to it. */
  lemma NextFits(f: Fs, g: Fs, i: nat, lo: nat, k: nat)
    requires Filled(f, g, i, lo, k) && k < MAXFILE
    ensures Cost(g, i, k) <= FreeBlocks(g.owner) <==> Fits(f, i, lo, k + 1)
    ensures Slot(g.disk, g.inodes[i], k) == Slot(f.disk, f.inodes[i], k)
  {
  }

  lemma FilledMore(f: Fs, g: Fs, h: Fs, i: nat, lo: nat, k: nat)
    requires Filled(f, g, i, lo, k) && Spent(g, h, i, k)
    ensures Filled(f, h, i, lo, k + 1)
  {
  }

  // ---------- writei ----------

  /** A write of n bytes that wrote tot of them stopped at the end of a block, if not at once. */
  predicate Whole(off: nat, tot: nat, n: nat) {
    tot == 0 || tot == n || (off + tot) % 1024 == 0
  }

  /** What a round moves: up to the end of the write, or of the block. */
  function Round(off: nat, tot: nat, n: nat): (m: nat)
    requires tot < n
    ensures 0 < m <= n - tot && (off + tot) % 1024 + m <= 1024 && Whole(off, tot + m, n)
  {
    Min(n - tot, 1024 - (off + tot) % 1024)
  }

  /** The slots that n bytes at offset off touch end here. */
  function LastSlot(off: nat, n: nat): nat {
    (off + n + 1023) / 1024
  }

  /** The slots that the rounds for the first tot bytes have dealt with end here. */
  function Reached(off: nat, tot: nat): nat {
    if tot == 0 then off / 1024 else LastSlot(off, tot)
  }

  lemma ReachedIs(off: nat, tot: nat, n: nat)
    requires Whole(off, tot, n) && tot < n
    ensures Reached(off, tot) == (off + tot) / 1024 && Reached(off, tot + Round(off, tot, n)) == (off + tot) / 1024 + 1
    ensures (off + tot) / 1024 + 1 <= LastSlot(off, n)
  {
  }

  lemma SlotsBelow(off: nat, tot: nat)
    requires off + tot <= MAXBYTES
    ensures Reached(off, tot) <= MAXFILE && LastSlot(off, tot) <= MAXFILE &&
            (tot > 0 ==> (off + tot - 1) / 1024 < MAXFILE)
  {
  }

  /** What becomes of a write of n bytes, of which the first `avail` of the source can be read: r bytes count,
      and moved bytes are in the file. The rounds go on while there are blocks and bytes; a round for which
      there is no block moves nothing, and one that meets the end of the source moves what there is. */
  predicate Outcome(f: Fs, i: nat, off: nat, n: nat, avail: nat, r: nat, moved: nat) {
    && Shape(f) && i < |f.inodes| && off + n <= MAXBYTES && r <= n && r <= moved <= avail && Whole(off, r, n)
    && Reached(off, r) <= MAXFILE && Fits(f, i, off / 1024, Reached(off, r))
    && (r == n ==> moved == n)
    && (r < n ==>
          && (off + r) / 1024 < MAXFILE
          && if Fits(f, i, off / 1024, (off + r) / 1024 + 1) then moved == avail < r + Round(off, r, n) else moved == r)
  }

  /** Everything counts exactly when the source can be read to its end and there are enough blocks. */
  lemma CompleteIff(f: Fs, i: nat, off: nat, n: nat, avail: nat, r: nat, moved: nat)
    requires Outcome(f, i, off, n, avail, r, moved)
    ensures Reached(off, n) <= MAXFILE
    ensures r == n <==> n <= avail && Fits(f, i, off / 1024, Reached(off, n))
  {
    SlotsBelow(off, n);
    if r < n {
      ReachedIs(off, r, n);
      NeedMore(f, i, off / 1024, (off + r) / 1024 + 1, Reached(off, n));
    }
  }

  /** The source ends where a round ends. */
  predicate EndsARound(off: nat, avail: nat) {
    avail == 0 || (off + avail) % 1024 == 0
  }

  /** After r bytes in whole rounds: does the source end within the next round, and where? */
  lemma EndsWithin(off: nat, r: nat, n: nat, avail: nat)
    requires Whole(off, r, n) && r <= avail < n
    ensures (off + r) / 1024 <= (off + avail) / 1024
    ensures avail < r + Round(off, r, n) ==> (off + avail) / 1024 == (off + r) / 1024
    ensures avail < r + Round(off, r, n) ==> (EndsARound(off, avail) <==> avail == r)
  {
  }

  /** A write leaves no bytes that do not count exactly when the source can be read to its end, or ends where
      a round ends, or there are not enough blocks up to where it ends. */
  lemma NoneStrayIff(f: Fs, i: nat, off: nat, n: nat, avail: nat, r: nat, moved: nat)
    requires Outcome(f, i, off, n, avail, r, moved)
    ensures avail < n ==> (off + avail) / 1024 < MAXFILE
    ensures moved == r <==>
            n <= avail || EndsARound(off, avail) || !Fits(f, i, off / 1024, (off + avail) / 1024 + 1)
  {
    SlotsBelow(off, n);
    if r < n && avail < n {
      ReachedIs(off, r, n);
      EndsWithin(off, r, n, avail);
      NeedMore(f, i, off / 1024, (off + r) / 1024 + 1, (off + avail) / 1024 + 1);
    }
  }

  /** So what is there before the call decides what becomes of it. */
  lemma OutcomeUnique(f: Fs, i: nat, off: nat, n: nat, avail: nat, r: nat, moved: nat, r': nat, moved': nat)
    requires Outcome(f, i, off, n, avail, r, moved) && Outcome(f, i, off, n, avail, r', moved')
    ensures r == r' && moved == moved'
  {
    if r < r' {
      NotBefore(f, i, off, n, avail, r, moved, r');
    } else if r' < r {
      NotBefore(f, i, off, n, avail, r', moved', r);
    }
  }

  /** Between two whole numbers of rounds there is at least one round. */
  lemma RoundsApart(off: nat, r: nat, q: nat, n: nat)
    requires Whole(off, r, n) && Whole(off, q, n) && r < q <= n
    ensures r + Round(off, r, n) <= q && (off + r) / 1024 + 1 <= Reached(off, q)
  {
  }

  lemma NotBefore(f: Fs, i: nat, off: nat, n: nat, avail: nat, r: nat, moved: nat, q: nat)
    requires Outcome(f, i, off, n, avail, r, moved) && q <= n && q <= avail && Whole(off, q, n)
    requires Reached(off, q) <= MAXFILE && Fits(f, i, off / 1024, Reached(off, q))
    ensures q <= r
  {
    if r < q {
      RoundsApart(off, r, q, n);
      NeedMore(f, i, off / 1024, (off + r) / 1024 + 1, Reached(off, q));
    }
  }
}
