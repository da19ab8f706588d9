/** writei of kernel/fs.c and filewrite of kernel/file.c: what the rounds of a write do to the bytes of the file,
    to the blocks, and to the log. */
module Writes {
  import opened Sequences
  import opened Wrappers
  import opened Blocks
  import opened Bitmap
  import opened Inodes
  import opened Truncate
  import opened Files
  import opened BlockMap
  import opened InodeStore
  import opened Space
  import opened Changes
  import opened FileOps

  // ---------- the loop of writei ----------

  /** The blocks, what the files hold, and what the operation did so far. */
  datatype State = State(f: Fs, img: seq<seq<byte>>, jnl: Journal)

  /** From state f with files s, writei has come to state g with files t: tot bytes are written for good,
      and moved bytes are in the file. */
  ghost predicate Writing(f: Fs, s: seq<seq<byte>>, g: Fs, t: seq<seq<byte>>, i: nat, off: nat, data: seq<byte>,
          tot: nat, moved: nat)
  {
    && Shape(g) && Apart(f, g, i) && i < |f.inodes| == |g.inodes| == |s| && |s[i]| == MAXBYTES
    && g.inodes[i].size == f.inodes[i].size
    && tot <= moved <= |data| && off + moved <= MAXBYTES && MappedTo(g, i, off + tot)
    && t == s[i := Patch(s[i], off, data[..moved])]
  }

  lemma WriteStarts(f: Fs, s: seq<seq<byte>>, i: nat, off: nat, data: seq<byte>)
    requires Ok(f, s) && i < |f.inodes| && off <= f.inodes[i].size
    ensures Writing(f, s, f, s, i, off, data, 0, 0)
  {
    SizeIs(f, s, i);
    MappedStart(f, s, i, off);
    PatchNone(s[i], off, data);
  }

  /** A round that put c of the m bytes it wanted: h with files u comes after g with files t. */
  lemma WriteGoesOn(f: Fs, s: seq<seq<byte>>, g: Fs, t: seq<seq<byte>>, h: Fs, u: seq<seq<byte>>,
                    i: nat, off: nat, data: seq<byte>, tot: nat, c: nat, m: nat)
    requires Writing(f, s, g, t, i, off, data, tot, tot) && Grows(g, h, i) && c <= m && tot + c <= |data|
    requires off + tot < MAXBYTES && (off + tot) % 1024 + m <= 1024 && off + tot + m <= MAXBYTES
    requires u == t[i := Patch(t[i], off + tot, data[tot..tot + c])]
    requires Slot(h.disk, h.inodes[i], (off + tot) / 1024) != 0
    ensures Writing(f, s, h, u, i, off, data, if c < m then tot else tot + m, tot + c)
  {
    MappedFurther(g, h, i, off + tot, if c < m then 0 else m);
    PatchPatch(s[i], off, data, tot, tot + c);
  }

  /** A round without a block. */
  lemma WriteStops(f: Fs, s: seq<seq<byte>>, g: Fs, t: seq<seq<byte>>, h: Fs, i: nat, off: nat, data: seq<byte>,
          tot: nat)
    requires Writing(f, s, g, t, i, off, data, tot, tot) && Grows(g, h, i)
    ensures Writing(f, s, h, t, i, off, data, tot, tot)
  {
    forall k | 0 <= k < MAXFILE && k * 1024 < off + tot ensures Slot(h.disk, h.inodes[i], k) != 0 {
    }
  }

  /** There is no block for byte p of the file, and none to be had. */
  ghost predicate Stuck(f: Fs, i: nat, p: nat) {
    Shape(f) && Full(f) && i < |f.inodes| && p < MAXBYTES && Slot(f.disk, f.inodes[i], p / 1024) == 0
  }

  /** The rounds stopped before the last one: for want of a block, or at the end of the source. */
  ghost predicate Ended(f: Fs, g: Fs, i: nat, off: nat, n: nat, avail: nat, tot: nat, moved: nat) {
    && Shape(f) && Shape(g) && i < |f.inodes| == |g.inodes| && tot < n && (off + tot) / 1024 < MAXFILE
    && (Slot(f.disk, f.inodes[i], (off + tot) / 1024) != 0 ==>
          Slot(g.disk, g.inodes[i], (off + tot) / 1024) == Slot(f.disk, f.inodes[i], (off + tot) / 1024))
    && if Fits(f, i, off / 1024, (off + tot) / 1024 + 1) then moved == avail < tot + Round(off, tot, n)
       else moved == tot && Stuck(g, i, off + tot)
  }

  // ---------- what one round does ----------

  /** bmap for slot k, in state f, which led to g: what it logged, and whether it found a block. */
  ghost predicate Mapped1(f: Fs, g: Fs, i: nat, k: nat, l: set<nat>) {
    && Grows(f, g, i) && i < |f.inodes| && k < MAXFILE && Touch(f, g, l) && Allows(g, i, k, k + 1, l)
    && (Slot(g.disk, g.inodes[i], k) != 0 <==> Cost(f, i, k) <= FreeBlocks(f.owner))
    && (Slot(g.disk, g.inodes[i], k) != 0 ==> Spent(f, g, i, k))
    && (Slot(f.disk, f.inodes[i], k) != 0 ==> l == {})
    && (Slot(f.disk, f.inodes[i], k) == 0 != Slot(g.disk, g.inodes[i], k) ==> Slot(g.disk, g.inodes[i], k) as nat in l)
  }

  lemma BmapMapped(f: Fs, img: seq<seq<byte>>, i: nat, k: nat, d: uint, e: uint)
    requires Ok(f, img) && Legal(f, Bmap(i, k, d, e))
    ensures Mapped1(f, After(f, Bmap(i, k, d, e)), i, k, BmapLogs(f, i, k, d, e))
  {
    BmapGrows(f, img, i, k, d, e);
    BmapLogsWithin(f, img, i, k, k, d, e);
    OkIff(f, img);
    BmapTouch(f, i, k, d, e);
    BmapSpace(f, i, k, d, e);
    AllowsIff(After(f, Bmap(i, k, d, e)), i, k, k + 1, BmapLogs(f, i, k, d, e));
    if Slot(f.disk, f.inodes[i], k) != 0 {
      NothingToDo(f, i, k, d, e);
    } else {
      IndirectSpace(f, i, k, d);
      DataSpace(AfterIndirect(f, i, k, d), i, k, e);
    }
  }

  /** What a copy of t into block b does to the journal: the block is logged unless the copy failed. */
  function CopyTx(b: nat, t: seq<byte>, whole: bool): Tx {
    if whole then Tx({b}, None) else if t == [] then Tx({}, None) else Tx({}, Some(b))
  }

  lemma CopyTraced(f: Fs, j: Journal, b: nat, t: seq<byte>, whole: bool, o: nat, k: Journal, g: Fs)
    requires Shape(f) && b < f.sb.size && f.owner[b].Data? && o + |t| <= 1024 && (whole ==> t != [])
    requires g == WriteData(f, b, Patch(f.disk[b], o, t))
    requires k == (if whole then Logged(Stored(j, b, f.disk[b]), b) else if t == [] then j else Stored(j, b, f.disk[b]))
    ensures Traced(f, j, g, k, CopyTx(b, t, whole))
  {
    NotedOne(j, b, f.disk[b]);
    NotedNone(j);
    WriteDataTouch(f, b, Patch(f.disk[b], o, t));
    if t == [] {
      assert Patch(f.disk[b], o, t) == f.disk[b];
      assert g == f;
      TracedNone(f, j);
    } else {
      assert All(CopyTx(b, t, whole)) == {b};
    }
  }

  /** A round of writei, for the byte p of the file: what it did to the blocks. */
  ghost predicate Rounded(f: Fs, j: Journal, g: Fs, k: Journal, i: nat, p: nat, t: seq<byte>, whole: bool, tx: Tx) {
    && Grows(f, g, i) && i < |f.inodes| && p < MAXBYTES && Traced(f, j, g, k, tx)
    && Allows(g, i, p / 1024, p / 1024 + 1, tx.l)
    && (Slot(g.disk, g.inodes[i], p / 1024) != 0 <==> Cost(f, i, p / 1024) <= FreeBlocks(f.owner))
    && (Slot(g.disk, g.inodes[i], p / 1024) != 0 ==> Spent(f, g, i, p / 1024))
    && (Slot(f.disk, f.inodes[i], p / 1024) != 0 && !whole ==> tx.l == {})
    && (Slot(f.disk, f.inodes[i], p / 1024) == 0 != Slot(g.disk, g.inodes[i], p / 1024) ==>
          Slot(g.disk, g.inodes[i], p / 1024) as nat in tx.l)
    && (tx.x.Some? <==> Slot(g.disk, g.inodes[i], p / 1024) != 0 && !whole && t != [])
    && (tx.x.Some? ==> tx.x.value == Slot(g.disk, g.inodes[i], p / 1024))
  }

  /** A copy into the block keeps all slots. */
  lemma PutSlots(f: Fs, img: seq<seq<byte>>, i: nat, p: nat, t: seq<byte>, j: nat)
    requires Ok(f, img) && i < |f.inodes| && p < MAXBYTES && p % 1024 + |t| <= 1024 && j < MAXFILE
    requires Shape(f) && 0 < Slot(f.disk, f.inodes[i], p / 1024) < f.sb.size
    ensures Slot(Put(f, i, p, t).disk, f.inodes[i], j) == Slot(f.disk, f.inodes[i], j)
    ensures f.owner[Slot(f.disk, f.inodes[i], p / 1024)] == Data(i, p / 1024)
  {
    OkIff(f, img);
    assert SlotOk(f, i, p / 1024) && IndOk(f, i);
    SlotKept(f, Put(f, i, p, t).disk, i, j);
  }

  lemma PutSpent(f: Fs, g: Fs, img: seq<seq<byte>>, i: nat, p: nat, t: seq<byte>, h: Fs)
    requires Ok(g, img) && i < |g.inodes| && p < MAXBYTES && p % 1024 + |t| <= 1024
    requires Shape(g) && 0 < Slot(g.disk, g.inodes[i], p / 1024) < g.sb.size
    requires Spent(f, g, i, p / 1024) && h == Put(g, i, p, t)
    ensures Spent(f, h, i, p / 1024)
  {
    forall j | 0 <= j < MAXFILE ensures Slot(h.disk, h.inodes[i], j) == Slot(g.disk, g.inodes[i], j) {
      PutSlots(g, img, i, p, t, j);
    }
  }

  lemma RoundFails(f: Fs, j: Journal, g: Fs, k: Journal, i: nat, p: nat, t: seq<byte>, whole: bool, l: set<nat>)
    requires p < MAXBYTES && Mapped1(f, g, i, p / 1024, l) && k == Noted(j, l) &&
             Slot(g.disk, g.inodes[i], p / 1024) == 0
    ensures Rounded(f, j, g, k, i, p, t, whole, Tx(l, None))
  {
    assert l + {} == l;
  }

  /** bmap from f to g, and the copy from g to h. */
  lemma RoundDone(f: Fs, j: Journal, g: Fs, k: Journal, img: seq<seq<byte>>, h: Fs, m: Journal,
                  i: nat, p: nat, t: seq<byte>, whole: bool, l: set<nat>, b: nat)
    requires Ok(g, img) && p < MAXBYTES && p % 1024 + |t| <= 1024 && Mapped1(f, g, i, p / 1024, l) && k == Noted(j, l)
    requires Shape(g) && 0 < b < g.sb.size && b == Slot(g.disk, g.inodes[i], p / 1024) && h == Put(g, i, p, t)
    requires Traced(g, k, h, m, CopyTx(b, t, whole)) && Grows(f, h, i) && (whole ==> t != [])
    ensures Rounded(f, j, h, m, i, p, t, whole, Tx(l + CopyTx(b, t, whole).l, CopyTx(b, t, whole).x))
  {
    var tx := CopyTx(b, t, whole);
    PutSlots(g, img, i, p, t, p / 1024);
    PutSpent(f, g, img, i, p, t, h);
    assert l + {} == l;
    TracedThen(f, j, g, k, l, h, m, tx);
    RoundAllowed(g, h, img, i, p, t, l, b);
  }

  lemma RoundAllowed(g: Fs, h: Fs, img: seq<seq<byte>>, i: nat, p: nat, t: seq<byte>, l: set<nat>, b: nat)
    requires Ok(g, img) && i < |g.inodes| && p < MAXBYTES && p % 1024 + |t| <= 1024
    requires Shape(g) && 0 < b < g.sb.size && b == Slot(g.disk, g.inodes[i], p / 1024) && h == Put(g, i, p, t)
    requires Allows(g, i, p / 1024, p / 1024 + 1, l)
    ensures Shape(h) && Allows(h, i, p / 1024, p / 1024 + 1, l) && Allows(h, i, p / 1024, p / 1024 + 1, l + {b})
  {
    AllowsIff(g, i, p / 1024, p / 1024 + 1, l);
    AllowsIff(h, i, p / 1024, p / 1024 + 1, l);
    AllowsIff(h, i, p / 1024, p / 1024 + 1, l + {b});
    PutSlots(g, img, i, p, t, p / 1024);
    assert Touched(g, i, p / 1024, p / 1024) == {} == Touched(h, i, p / 1024, p / 1024);
    assert Touched(h, i, p / 1024, p / 1024 + 1) == Touched(g, i, p / 1024, p / 1024 + 1) == {b};
  }

  // ---------- what all rounds together do ----------

  /** The slots whose blocks may have been logged when tot bytes count: those of the rounds so far, and the
      next one if it had no block. */
  function Upto(f: Fs, i: nat, off: nat, n: nat, tot: nat): nat
    requires Shape(f) && i < |f.inodes| && off + n <= MAXBYTES && tot <= n
  {
    Reached(off, tot) + if tot < n && Slot(f.disk, f.inodes[i], (off + tot) / 1024) == 0 then 1 else 0
  }

  /** What rounds did to the blocks: they logged those of slots lo up to hi at most, and maybe the last one left
      the block of slot q without log_write. */
  ghost predicate Tracing(f: Fs, j: Journal, g: Fs, k: Journal, i: nat, lo: nat, hi: nat, q: nat, tx: Tx) {
    && Shape(f) && Shape(g) && i < |f.inodes| == |g.inodes| && hi <= MAXFILE
    && Traced(f, j, g, k, tx) && Allows(g, i, lo, hi, tx.l)
    && (tx.x.Some? ==> q < MAXFILE && tx.x.value == Slot(g.disk, g.inodes[i], q) != 0)
    && (tx.x.Some? && Slot(f.disk, f.inodes[i], q) == 0 ==> tx.x.value in tx.l)
  }

  lemma TracingStarts(f: Fs, j: Journal, img: seq<seq<byte>>, i: nat, off: nat, n: nat, q: nat)
    requires Ok(f, img) && i < |f.inodes| && off + n <= MAXBYTES
    ensures Shape(f) && Upto(f, i, off, n, 0) <= MAXFILE
    ensures Tracing(f, j, f, j, i, off / 1024, Upto(f, i, off, n, 0), q, Tx({}, None))
    ensures Filled(f, f, i, off / 1024, Reached(off, 0))
  {
    ShapeOk(f, img);
    TracedNone(f, j);
    FilledNone(f, i, off / 1024);
  }

  /** A round after those for tot bytes finds a block exactly when there are enough. */
  lemma FoundIff(f: Fs, g: Fs, k: Journal, h: Fs, m: Journal, i: nat, off: nat, n: nat, tot: nat,
          t: seq<byte>, whole: bool, tx: Tx)
    requires tot < n && off + n <= MAXBYTES && Whole(off, tot, n) && Filled(f, g, i, off / 1024, Reached(off, tot))
    requires Rounded(g, k, h, m, i, off + tot, t, whole, tx)
    ensures (off + tot) / 1024 < MAXFILE && Reached(off, tot) == (off + tot) / 1024
    ensures Slot(h.disk, h.inodes[i], (off + tot) / 1024) != 0 <==> Fits(f, i, off / 1024, (off + tot) / 1024 + 1)
    ensures Slot(g.disk, g.inodes[i], (off + tot) / 1024) == Slot(f.disk, f.inodes[i], (off + tot) / 1024)
  {
    ReachedIs(off, tot, n);
    NextFits(f, g, i, off / 1024, (off + tot) / 1024);
  }

  /** If it does, and moves all it wanted, the next round may follow. */
  lemma FilledNext(f: Fs, g: Fs, k: Journal, h: Fs, m: Journal, i: nat, off: nat, n: nat, tot: nat,
          t: seq<byte>, whole: bool, tx: Tx)
    requires tot < n && off + n <= MAXBYTES && Whole(off, tot, n) && Filled(f, g, i, off / 1024, Reached(off, tot))
    requires Rounded(g, k, h, m, i, off + tot, t, whole, tx) && Slot(h.disk, h.inodes[i], (off + tot) / 1024) != 0
    ensures Filled(f, h, i, off / 1024, Reached(off, tot + Round(off, tot, n)))
  {
    ReachedIs(off, tot, n);
    FilledMore(f, g, h, i, off / 1024, (off + tot) / 1024);
  }

  /** What counts after a round that found a block or did not, and what is in the file. */
  predicate Counted(found: bool, whole: bool, t: seq<byte>, tot: nat, next: nat, moved: nat) {
    if found then moved == tot + |t| && next == (if whole then moved else tot) else next == moved == tot
  }

  lemma RoundLogs(f: Fs, g: Fs, k: Journal, h: Fs, m: Journal, i: nat, off: nat, n: nat, tot: nat,
                  t: seq<byte>, whole: bool, l: set<nat>, more: Tx, next: nat, moved: nat)
    requires Shape(f) && i < |f.inodes| == |g.inodes| && off + n <= MAXBYTES && tot < n && Whole(off, tot, n)
    requires Shape(g) && Upto(f, i, off, n, tot) <= MAXFILE && Allows(g, i, off / 1024, Upto(f, i, off, n, tot), l)
    requires (off + tot) / 1024 < MAXFILE && whole == (|t| == Round(off, tot, n))
    requires Slot(g.disk, g.inodes[i], (off + tot) / 1024) == Slot(f.disk, f.inodes[i], (off + tot) / 1024)
    requires Rounded(g, k, h, m, i, off + tot, t, whole, more)
    requires Counted(Slot(h.disk, h.inodes[i], (off + tot) / 1024) != 0, whole, t, tot, next, moved)
    ensures Upto(f, i, off, n, next) <= MAXFILE
    ensures Allows(h, i, off / 1024, Upto(f, i, off, n, next), l + more.l)
  {
    MoreAllowed(f, g, h, i, off, n, tot, next, l, more.l);
  }

  /** So together, when the round for slot q found a block or when it did not. */
  lemma TracingGoesOn(f: Fs, j: Journal, g: Fs, k: Journal, h: Fs, m: Journal, i: nat, lo: nat, hi: nat, q: nat,
                      tx: Tx, more: Tx, next: nat)
    requires Tracing(f, j, g, k, i, lo, hi, q, tx) && tx.x.None? && q < MAXFILE && next <= MAXFILE
    requires Traced(g, k, h, m, more) && Shape(h) && |h.inodes| == |g.inodes|
    requires Slot(g.disk, g.inodes[i], q) == Slot(f.disk, f.inodes[i], q)
    requires Allows(h, i, lo, next, tx.l + more.l)
    requires more.x.Some? ==> more.x.value == Slot(h.disk, h.inodes[i], q) != 0
    requires Slot(g.disk, g.inodes[i], q) == 0 != Slot(h.disk, h.inodes[i], q) ==>
             Slot(h.disk, h.inodes[i], q) as nat in more.l
    ensures Tracing(f, j, h, m, i, lo, next, q, Tx(tx.l + more.l, more.x))
  {
    TracedThen(f, j, g, k, tx.l, h, m, more);
  }

  lemma {:induction false} TouchedLow(f: Fs, i: nat, lo: nat, mid: nat, hi: nat)
    requires Shape(f) && i < |f.inodes| && lo <= mid && hi <= MAXFILE
    ensures Touched(f, i, mid, hi) <= Touched(f, i, lo, hi)
    decreases hi
  {
    if mid < hi {
      TouchedLow(f, i, lo, mid, hi - 1);
    }
  }

  lemma {:induction false} FewerAllowed(h: Fs, i: nat, lo: nat, v: nat, l: set<nat>, fewer: set<nat>)
    requires Shape(h) && i < |h.inodes| && v <= MAXFILE && Allows(h, i, lo, v, l) && fewer <= l
    ensures Allows(h, i, lo, v, fewer)
    decreases v
  {
    if lo < v {
      var b := Slot(h.disk, h.inodes[i], v - 1);
      if b == 0 {
        FewerAllowed(h, i, lo, v - 1, l, fewer);
      } else {
        FewerAllowed(h, i, lo, v - 1, l - {b as nat}, fewer - {b as nat});
      }
    }
  }

  /** What is allowed for slot k alone is allowed for all slots from lo up to v. */
  lemma {:induction false} SlotAllowed(h: Fs, i: nat, lo: nat, k: nat, v: nat, l: set<nat>)
    requires Shape(h) && i < |h.inodes| && lo <= k < MAXFILE && v <= MAXFILE
    requires if k < v then Allows(h, i, k, k + 1, l) else l <= BitmapBlocks(h.sb) + IndirectSet(h, i)
    ensures Allows(h, i, lo, v, l)
    decreases v
  {
    if lo < v {
      var b := Slot(h.disk, h.inodes[i], v - 1);
      var rest := if b == 0 then l else l - {b as nat};
      if k + 1 < v {
        FewerAllowed(h, i, k, k + 1, l, rest);
      }
      SlotAllowed(h, i, lo, k, v - 1, rest);
    }
  }

  /** What was logged for the slots up to u is allowed up to v, later on. */
  lemma LaterAllowed(g: Fs, h: Fs, i: nat, lo: nat, u: nat, v: nat, l: set<nat>)
    requires Grows(g, h, i) && i < |g.inodes| && u <= v <= MAXFILE && Allows(g, i, lo, u, l)
    ensures Allows(h, i, lo, v, l)
  {
    AllowsIff(g, i, lo, u, l);
    AllowsIff(h, i, lo, v, l);
    AllowanceKept(g, h, i, lo, u, v);
  }

  lemma {:induction false} UnionAllowed(h: Fs, i: nat, lo: nat, v: nat, l: set<nat>, more: set<nat>)
    requires Shape(h) && i < |h.inodes| && v <= MAXFILE && Allows(h, i, lo, v, l) && Allows(h, i, lo, v, more)
    ensures Allows(h, i, lo, v, l + more)
    decreases v
  {
    if lo < v {
      var b := Slot(h.disk, h.inodes[i], v - 1);
      if b == 0 {
        UnionAllowed(h, i, lo, v - 1, l, more);
      } else {
        UnionAllowed(h, i, lo, v - 1, l - {b as nat}, more - {b as nat});
        assert (l - {b as nat}) + (more - {b as nat}) == (l + more) - {b as nat};
      }
    }
  }

  /** What was logged for the slots up to u, and what was logged for slot k. */
  lemma BothAllowed(g: Fs, h: Fs, i: nat, lo: nat, k: nat, u: nat, v: nat, l: set<nat>, more: set<nat>)
    requires Grows(g, h, i) && i < |g.inodes| && lo <= k && u <= v <= MAXFILE && (more == {} || k + 1 <= v) &&
             k < MAXFILE
    requires Allows(g, i, lo, u, l) && Allows(h, i, k, k + 1, more)
    ensures Allows(h, i, lo, v, l + more)
  {
    LaterAllowed(g, h, i, lo, u, v, l);
    if more == {} {
      assert l + more == l;
    } else {
      SlotAllowed(h, i, lo, k, v, more);
      UnionAllowed(h, i, lo, v, l, more);
    }
  }

  lemma MoreAllowed(f: Fs, g: Fs, h: Fs, i: nat, off: nat, n: nat, tot: nat, next: nat, l: set<nat>, more: set<nat>)
    requires Shape(f) && Grows(g, h, i) && i < |f.inodes| == |g.inodes| && off + n <= MAXBYTES && tot < n
    requires Whole(off, tot, n) && Upto(f, i, off, n, tot) <= MAXFILE
    requires Allows(g, i, off / 1024, Upto(f, i, off, n, tot), l)
    requires (off + tot) / 1024 < MAXFILE && Allows(h, i, (off + tot) / 1024, (off + tot) / 1024 + 1, more)
    requires next == tot + Round(off, tot, n) ||
             (next == tot && (Slot(f.disk, f.inodes[i], (off + tot) / 1024) == 0 || more == {}))
    ensures Upto(f, i, off, n, next) <= MAXFILE
    ensures Allows(h, i, off / 1024, Upto(f, i, off, n, next), l + more)
  {
    ReachedIs(off, tot, n);
    assert next < n ==> (off + next) / 1024 < MAXFILE;
    assert next > tot ==> Reached(off, next) == (off + tot) / 1024 + 1 <= MAXFILE;
    if next > tot && next < n {
      ReachedIs(off, next, n);
    }
    BothAllowed(g, h, i, off / 1024, (off + tot) / 1024, Upto(f, i, off, n, tot), Upto(f, i, off, n, next), l, more);
  }

  // ---------- the loop as a whole ----------

  /** From a the rounds have come to b, with tot bytes moved, and go on. */
  ghost predicate InLoop(a: State, b: State, i: nat, off: nat, n: nat, data: seq<byte>, tot: nat, tx: Tx) {
    && Shape(a.f) && i < |a.f.inodes| && off + n <= MAXBYTES && tot <= n && Whole(off, tot, n) && tx.x.None?
    && Writing(a.f, a.img, b.f, b.img, i, off, data, tot, tot)
    && Tracing(a.f, a.jnl, b.f, b.jnl, i, off / 1024, Upto(a.f, i, off, n, tot), (off + tot) / 1024, tx)
    && Filled(a.f, b.f, i, off / 1024, Reached(off, tot))
  }

  /** From a the rounds have come to b and are over. */
  ghost predicate Over(a: State, b: State, i: nat, off: nat, n: nat, data: seq<byte>, tot: nat, moved: nat, tx: Tx) {
    && Outcome(a.f, i, off, n, |data|, tot, moved) && (tx.x.Some? <==> tot < moved)
    && Writing(a.f, a.img, b.f, b.img, i, off, data, tot, moved)
    && Tracing(a.f, a.jnl, b.f, b.jnl, i, off / 1024, Upto(a.f, i, off, n, tot), (off + tot) / 1024, tx)
    && (tot < n ==> Ended(a.f, b.f, i, off, n, |data|, tot, moved))
  }

  lemma LoopStarts(a: State, i: nat, off: nat, n: nat, data: seq<byte>)
    requires Ok(a.f, a.img) && i < |a.f.inodes| && off <= a.f.inodes[i].size && off + n <= MAXBYTES
    ensures InLoop(a, a, i, off, n, data, 0, Tx({}, None))
  {
    WriteStarts(a.f, a.img, i, off, data);
    TracingStarts(a.f, a.jnl, a.img, i, off, n, off / 1024);
  }

  lemma LoopEnds(a: State, b: State, i: nat, off: nat, n: nat, data: seq<byte>, tx: Tx)
    requires InLoop(a, b, i, off, n, data, n, tx)
    ensures Over(a, b, i, off, n, data, n, n, tx)
  {
  }

  /** What a round with a block leads to. */
  lemma RoundWrites(a: State, g: State, h: State, i: nat, off: nat, n: nat, data: seq<byte>, tot: nat, c: nat, m: nat,
                    t: seq<byte>)
    requires tot < n && off + n <= MAXBYTES && Writing(a.f, a.img, g.f, g.img, i, off, data, tot, tot)
    requires m == Round(off, tot, n) && c <= m && tot + c <= |data| && Grows(g.f, h.f, i) && t == data[tot..tot + c]
    requires h.img == g.img[i := Patch(g.img[i], off + tot, t)]
    requires Slot(h.f.disk, h.f.inodes[i], (off + tot) / 1024) != 0
    ensures Writing(a.f, a.img, h.f, h.img, i, off, data, if c < m then tot else tot + m, tot + c)
  {
    WriteGoesOn(a.f, a.img, g.f, g.img, h.f, h.img, i, off, data, tot, c, m);
  }

  lemma RoundTraces(a: State, g: State, h: State, i: nat, off: nat, n: nat, tot: nat, t: seq<byte>, whole: bool,
                    tx: Tx, more: Tx, next: nat, moved: nat)
    requires Shape(a.f) && i < |a.f.inodes| && off + n <= MAXBYTES && tot < n && Whole(off, tot, n) && tx.x.None?
    requires Tracing(a.f, a.jnl, g.f, g.jnl, i, off / 1024, Upto(a.f, i, off, n, tot), (off + tot) / 1024, tx)
    requires (off + tot) / 1024 < MAXFILE && whole == (|t| == Round(off, tot, n))
    requires Slot(g.f.disk, g.f.inodes[i], (off + tot) / 1024) == Slot(a.f.disk, a.f.inodes[i], (off + tot) / 1024)
    requires Rounded(g.f, g.jnl, h.f, h.jnl, i, off + tot, t, whole, more)
    requires Counted(Slot(h.f.disk, h.f.inodes[i], (off + tot) / 1024) != 0, whole, t, tot, next, moved)
    ensures Upto(a.f, i, off, n, next) <= MAXFILE
    ensures Tracing(a.f, a.jnl, h.f, h.jnl, i, off / 1024, Upto(a.f, i, off, n, next), (off + tot) / 1024,
                    Tx(tx.l + more.l, more.x))
  {
    RoundLogs(a.f, g.f, g.jnl, h.f, h.jnl, i, off, n, tot, t, whole, tx.l, more, next, moved);
    TracingGoesOn(a.f, a.jnl, g.f, g.jnl, h.f, h.jnl, i, off / 1024, Upto(a.f, i, off, n, tot), (off + tot) / 1024,
                  tx, more, Upto(a.f, i, off, n, next));
  }

  /** The slot does not matter when no block was left. */
  lemma AnySlot(f: Fs, j: Journal, g: Fs, k: Journal, i: nat, lo: nat, hi: nat, q: nat, to: nat, tx: Tx)
    requires Tracing(f, j, g, k, i, lo, hi, q, tx) && tx.x.None?
    ensures Tracing(f, j, g, k, i, lo, hi, to, tx)
  {
  }

  /** A round that finds a block and moves all it wants goes on. */
  lemma RoundGoesOn(a: State, g: State, h: State, i: nat, off: nat, n: nat, data: seq<byte>, tot: nat, next: nat,
                    t: seq<byte>, tx: Tx, more: Tx)
    requires InLoop(a, g, i, off, n, data, tot, tx) && tot < n && next == tot + Round(off, tot, n) <= |data|
    requires t == data[tot..next] && Rounded(g.f, g.jnl, h.f, h.jnl, i, off + tot, t, true, more)
    requires Slot(h.f.disk, h.f.inodes[i], (off + tot) / 1024) != 0
    requires h.img == g.img[i := Patch(g.img[i], off + tot, t)]
    ensures InLoop(a, h, i, off, n, data, next, Tx(tx.l + more.l, None))
  {
    FoundIff(a.f, g.f, g.jnl, h.f, h.jnl, i, off, n, tot, t, true, more);
    FilledNext(a.f, g.f, g.jnl, h.f, h.jnl, i, off, n, tot, t, true, more);
    RoundWrites(a, g, h, i, off, n, data, tot, next - tot, next - tot, t);
    WholeTraces(a, g, h, i, off, n, tot, next, t, tx, more);
  }

  lemma WholeTraces(a: State, g: State, h: State, i: nat, off: nat, n: nat, tot: nat, next: nat, t: seq<byte>,
                    tx: Tx, more: Tx)
    requires Shape(a.f) && i < |a.f.inodes| && off + n <= MAXBYTES && tot < n && Whole(off, tot, n) && tx.x.None?
    requires Tracing(a.f, a.jnl, g.f, g.jnl, i, off / 1024, Upto(a.f, i, off, n, tot), (off + tot) / 1024, tx)
    requires (off + tot) / 1024 < MAXFILE && |t| == Round(off, tot, n) && next == tot + |t|
    requires Slot(g.f.disk, g.f.inodes[i], (off + tot) / 1024) == Slot(a.f.disk, a.f.inodes[i], (off + tot) / 1024)
    requires Rounded(g.f, g.jnl, h.f, h.jnl, i, off + tot, t, true, more)
    requires Slot(h.f.disk, h.f.inodes[i], (off + tot) / 1024) != 0
    ensures Upto(a.f, i, off, n, next) <= MAXFILE && more.x.None?
    ensures Tracing(a.f, a.jnl, h.f, h.jnl, i, off / 1024, Upto(a.f, i, off, n, next), (off + next) / 1024,
                    Tx(tx.l + more.l, None))
  {
    RoundTraces(a, g, h, i, off, n, tot, t, true, tx, more, next, next);
    AnySlot(a.f, a.jnl, h.f, h.jnl, i, off / 1024, Upto(a.f, i, off, n, next), (off + tot) / 1024,
            (off + next) / 1024, Tx(tx.l + more.l, None));
  }

  /** A round that finds a block and then the end of the source is the last. */
  lemma RoundBreaks(a: State, g: State, h: State, i: nat, off: nat, n: nat, data: seq<byte>, tot: nat, c: nat,
                    tx: Tx, more: Tx)
    requires InLoop(a, g, i, off, n, data, tot, tx) && tot < n && c < Round(off, tot, n) && tot + c == |data|
    requires Rounded(g.f, g.jnl, h.f, h.jnl, i, off + tot, data[tot..tot + c], false, more)
    requires Slot(h.f.disk, h.f.inodes[i], (off + tot) / 1024) != 0
    requires h.img == g.img[i := Patch(g.img[i], off + tot, data[tot..tot + c])]
    ensures Over(a, h, i, off, n, data, tot, tot + c, Tx(tx.l + more.l, more.x))
  {
    var t := data[tot..tot + c];
    FoundIff(a.f, g.f, g.jnl, h.f, h.jnl, i, off, n, tot, t, false, more);
    RoundWrites(a, g, h, i, off, n, data, tot, c, Round(off, tot, n), t);
    RoundTraces(a, g, h, i, off, n, tot, t, false, tx, more, tot, tot + c);
  }

  /** A round that finds no block is the last. */
  lemma RoundStops(a: State, g: State, h: State, i: nat, off: nat, n: nat, data: seq<byte>, tot: nat, t: seq<byte>,
                   whole: bool, tx: Tx, more: Tx)
    requires InLoop(a, g, i, off, n, data, tot, tx) && tot < n && whole == (|t| == Round(off, tot, n))
    requires Rounded(g.f, g.jnl, h.f, h.jnl, i, off + tot, t, whole, more)
    requires Slot(h.f.disk, h.f.inodes[i], (off + tot) / 1024) == 0 && h.img == g.img && Stuck(h.f, i, off + tot)
    ensures Over(a, h, i, off, n, data, tot, tot, Tx(tx.l + more.l, more.x))
  {
    FoundIff(a.f, g.f, g.jnl, h.f, h.jnl, i, off, n, tot, t, whole, more);
    WriteStops(a.f, a.img, g.f, g.img, h.f, i, off, data, tot);
    RoundTraces(a, g, h, i, off, n, tot, t, whole, tx, more, tot, tot);
  }

  /** In any case. */
  lemma OneRound(a: State, g: State, h: State, i: nat, off: nat, n: nat, data: seq<byte>, tot: nat, c: nat, m: nat,
                 t: seq<byte>, ok: bool, tx: Tx, more: Tx, next: nat, moved: nat)
    requires InLoop(a, g, i, off, n, data, tot, tx) && tot < n && m == Round(off, tot, n) && c == Min(m, |data| - tot)
    requires t == data[tot..tot + c] && Rounded(g.f, g.jnl, h.f, h.jnl, i, off + tot, t, c == m, more)
    requires ok <==> Slot(h.f.disk, h.f.inodes[i], (off + tot) / 1024) != 0
    requires ok ==> h.img == g.img[i := Patch(g.img[i], off + tot, t)]
    requires !ok ==> h.img == g.img && Stuck(h.f, i, off + tot)
    requires moved == (if ok then tot + c else tot) && next == if ok && c == m then moved else tot
    ensures if ok && c == m then InLoop(a, h, i, off, n, data, next, Tx(tx.l + more.l, more.x))
            else Over(a, h, i, off, n, data, next, moved, Tx(tx.l + more.l, more.x))
  {
    if !ok {
      RoundStops(a, g, h, i, off, n, data, tot, t, c == m, tx, more);
    } else if c < m {
      RoundBreaks(a, g, h, i, off, n, data, tot, c, tx, more);
    } else {
      RoundGoesOn(a, g, h, i, off, n, data, tot, next, t, tx, more);
    }
  }

  // ---------- the end of writei ----------

  /** The blocks are where they were: only a size, or a block in front of the bitmap, changed. */
  ghost predicate SameBlocks(f: Fs, g: Fs) {
    && Shape(f) && Shape(g) && g.sb == f.sb && |g.disk| == |f.disk| && |g.inodes| == |f.inodes|
    && (forall i :: 0 <= i < |f.inodes| ==> g.inodes[i].addrs == f.inodes[i].addrs)
    && forall b :: 0 <= b < |f.disk| && f.sb.bmapstart <= b ==> g.disk[b] == f.disk[b]
  }

  lemma SameFull(f: Fs, g: Fs)
    requires SameBlocks(f, g) && Full(f)
    ensures Full(g)
  {
    forall c | 0 <= c < g.sb.size ensures Bit(g.disk, g.sb.bmapstart, c) {
      assert Bit(f.disk, f.sb.bmapstart, c);
    }
  }

  lemma SameSlots(f: Fs, img: seq<seq<byte>>, g: Fs, i: nat, k: nat)
    requires Ok(f, img) && SameBlocks(f, g) && i < |f.inodes| && k < MAXFILE
    ensures Slot(g.disk, g.inodes[i], k) == Slot(f.disk, f.inodes[i], k)
  {
    OkIff(f, img);
    assert IndOk(f, i);
    if f.inodes[i].addrs[12] != 0 {
      assert BlockOk(f, f.inodes[i].addrs[12]);
    }
  }

  lemma {:induction false} SameTouched(f: Fs, img: seq<seq<byte>>, g: Fs, i: nat, lo: nat, hi: nat)
    requires Ok(f, img) && SameBlocks(f, g) && i < |f.inodes| && hi <= MAXFILE
    ensures Touched(g, i, lo, hi) == Touched(f, i, lo, hi)
    decreases hi
  {
    if lo < hi {
      SameTouched(f, img, g, i, lo, hi - 1);
      SameSlots(f, img, g, i, hi - 1);
    }
  }

  lemma SameAllowance(f: Fs, img: seq<seq<byte>>, g: Fs, i: nat, lo: nat, hi: nat)
    requires Ok(f, img) && SameBlocks(f, g) && i < |f.inodes| && hi <= MAXFILE
    ensures Allowance(g, i, lo, hi) == Allowance(f, i, lo, hi)
  {
    SameTouched(f, img, g, i, lo, hi);
  }

  /** The size and then the inode on disk. */
  ghost function Finished(f: Fs, i: nat, end: nat): Fs
    requires Shape(f) && i < |f.inodes| && Max(f.inodes[i].size, end) < TWO32
  {
    Updated(SetSize(f, i, Max(f.inodes[i].size, end)), i)
  }

  lemma FinishedIs(f: Fs, img: seq<seq<byte>>, i: nat, end: nat)
    requires Ok(f, img) && i < |f.inodes| && Shape(f) && MappedTo(f, i, end)
    ensures Max(f.inodes[i].size, end) < TWO32 && InodeBlock(f.sb, i) < |f.disk|
    ensures Ok(SetSize(f, i, Max(f.inodes[i].size, end)), img)
    ensures SameBlocks(f, Finished(f, i, end)) && (SyncedBut(f, i) ==> Synced(Finished(f, i, end)))
  {
    var n := Max(f.inodes[i].size, end);
    SizeIs(f, img, i);
    MappedStart(f, img, i, f.inodes[i].size);
    SizeOk(f, img, i, n);
    UpdateOk(SetSize(f, i, n), img, i);
    if SyncedBut(f, i) {
      SyncedKept(f, SetSize(f, i, n), i, i);
      UpdatedSynced(SetSize(f, i, n), i);
    }
  }

  /** What writei does: r of n bytes count, and the first `moved` bytes of the source are in the file; a
      block that was stored to without log_write is that of byte off + r. */
  ghost predicate Wrote(a: State, b: State, i: nat, off: nat, n: nat, data: seq<byte>, r: nat, moved: nat, tx: Tx) {
    && Contained(a.f, a.img, b.f, b.img, i, off, n, data, r, moved)
    && Recorded(a.f, a.jnl, b.f, b.jnl, i, off, n, r, moved, tx)
  }

  /** The part about the files. */
  ghost predicate Contained(f: Fs, s: seq<seq<byte>>, g: Fs, t: seq<seq<byte>>, i: nat, off: nat, n: nat,
          data: seq<byte>, r: nat, moved: nat)
  {
    && Shape(g) && |f.inodes| == |g.inodes| == |s| && i < |s| && |s[i]| == MAXBYTES
    && Outcome(f, i, off, n, |data|, r, moved) && off + moved <= MAXBYTES
    && t == s[i := Patch(s[i], off, data[..moved])]
    && g.inodes[i].size == Max(f.inodes[i].size, off + r)
    && (forall j :: 0 <= j < |f.inodes| && j != i ==> g.inodes[j] == f.inodes[j])
    && (r < n && !Fits(f, i, off / 1024, (off + r) / 1024 + 1) ==> Stuck(g, i, off + r))
    && (SyncedBut(f, i) ==> Synced(g))
  }

  /** The part about the blocks. */
  ghost predicate Recorded(f: Fs, j: Journal, g: Fs, k: Journal, i: nat, off: nat, n: nat, r: nat, moved: nat, tx: Tx) {
    Logs(f, j, g, k, i, off / 1024, LastSlot(off, n), (off + r) / 1024, tx) && (tx.x.Some? <==> r < moved)
  }

  lemma WriteSynced(f: Fs, g: Fs, i: nat)
    requires Shape(g) && Apart(f, g, i) && SyncedBut(f, i)
    ensures SyncedBut(g, i)
  {
    SyncedKept(f, g, i, i);
  }

  lemma WriteDone(f: Fs, s: seq<seq<byte>>, g: Fs, t: seq<seq<byte>>, h: Fs,
                  i: nat, off: nat, n: nat, data: seq<byte>, tot: nat, moved: nat)
    requires Writing(f, s, g, t, i, off, data, tot, moved) && Ok(g, t)
    requires Outcome(f, i, off, n, |data|, tot, moved)
    requires tot < n && !Fits(f, i, off / 1024, (off + tot) / 1024 + 1) ==> Stuck(g, i, off + tot)
    requires SameBlocks(g, h) && (SyncedBut(g, i) ==> Synced(h))
    requires h.inodes == g.inodes[i := Inode(g.inodes[i].addrs, Max(g.inodes[i].size, off + tot))]
    ensures Contained(f, s, h, t, i, off, n, data, tot, moved)
  {
    assert SyncedBut(f, i) ==> Synced(h) by {
      if SyncedBut(f, i) {
        WriteSynced(f, g, i);
      }
    }
    if Stuck(g, i, off + tot) {
      SameFull(g, h);
      SameSlots(g, t, h, i, (off + tot) / 1024);
    }
  }

  /** The block of slot k is none of those that were logged for the slots before it. */
  lemma NotAllowed(f: Fs, img: seq<seq<byte>>, i: nat, lo: nat, k: nat)
    requires Ok(f, img) && i < |f.inodes| && k < MAXFILE && Shape(f) && Slot(f.disk, f.inodes[i], k) != 0
    ensures Slot(f.disk, f.inodes[i], k) as nat !in Allowance(f, i, lo, k)
    ensures Slot(f.disk, f.inodes[i], k) as nat != InodeBlock(f.sb, i)
  {
    OkIff(f, img);
    var b := Slot(f.disk, f.inodes[i], k);
    assert SlotOk(f, i, k) && IndOk(f, i) && BlockOk(f, b);
    NotTouched(f, i, lo, k, k);
  }

  lemma {:induction false} NotTouched(f: Fs, i: nat, lo: nat, k: nat, hi: nat)
    requires Inv(f) && i < |f.inodes| && hi <= k < MAXFILE && Slot(f.disk, f.inodes[i], k) != 0
    ensures Slot(f.disk, f.inodes[i], k) as nat !in Touched(f, i, lo, hi)
    decreases hi
  {
    if lo < hi {
      NotTouched(f, i, lo, k, hi - 1);
      assert SlotOk(f, i, k) && SlotOk(f, i, hi - 1);
    }
  }

  lemma RecordDone(f: Fs, j: Journal, g: Fs, k: Journal, t: seq<seq<byte>>, h: Fs, m: Journal,
                   i: nat, lo: nat, hi: nat, q: nat, tx: Tx, c: nat)
    requires Ok(g, t) && Tracing(f, j, g, k, i, lo, hi, q, tx) && c == InodeBlock(g.sb, i)
    requires tx.x.Some? && Slot(f.disk, f.inodes[i], q) != 0 ==>
               hi == q && Slot(g.disk, g.inodes[i], q) == Slot(f.disk, f.inodes[i], q)
    requires SameBlocks(g, h) && h.owner == g.owner && Touch(g, h, {c}) && m == Noted(k, {c})
    ensures Logs(f, j, h, m, i, lo, hi, q, Tx(tx.l + {c}, tx.x))
  {
    if tx.x.Some? {
      NotAllowed(g, t, i, lo, q);
      SameSlots(g, t, h, i, q);
      AllowsIff(g, i, lo, hi, tx.l);
    }
    TracedEnd(f, j, g, k, tx, h, m, c);
    StillAllowed(g, t, h, i, lo, hi, tx.l, c);
  }

  lemma StillAllowed(g: Fs, t: seq<seq<byte>>, h: Fs, i: nat, lo: nat, hi: nat, l: set<nat>, c: nat)
    requires Ok(g, t) && SameBlocks(g, h) && i < |g.inodes| && hi <= MAXFILE && Allows(g, i, lo, hi, l)
    ensures Allows(h, i, lo, hi, l + {c} - {c})
  {
    SameAllowance(g, t, h, i, lo, hi);
    AllowsIff(g, i, lo, hi, l);
    AllowsIff(h, i, lo, hi, l + {c} - {c});
  }

  /** What a write from slot lo up to hi did to the blocks: it logged their blocks at most, those for their
      allocation and that of the inode; and maybe it left the block of slot q, which it then logged only if it
      was new. */
  ghost predicate Logs(f: Fs, j: Journal, g: Fs, k: Journal, i: nat, lo: nat, hi: nat, q: nat, tx: Tx) {
    && Shape(f) && Shape(g) && i < |f.inodes| == |g.inodes| && hi <= MAXFILE && Traced(f, j, g, k, tx)
    && Allows(g, i, lo, hi, tx.l - {InodeBlock(g.sb, i)})
    && (tx.x.Some? ==>
          && q < MAXFILE && tx.x.value == Slot(g.disk, g.inodes[i], q) != 0
          && (tx.x.value in tx.l <==> Slot(f.disk, f.inodes[i], q) == 0)
          && (Slot(f.disk, f.inodes[i], q) != 0 ==> tx.x.value == Slot(f.disk, f.inodes[i], q)))
  }

  lemma LogsUpTo(f: Fs, j: Journal, g: Fs, k: Journal, i: nat, lo: nat, hi: nat, to: nat, q: nat, tx: Tx)
    requires Logs(f, j, g, k, i, lo, hi, q, tx) && hi <= to <= MAXFILE
    ensures Logs(f, j, g, k, i, lo, to, q, tx)
  {
    TouchedMore(g, i, lo, hi, to);
    AllowsIff(g, i, lo, hi, tx.l - {InodeBlock(g.sb, i)});
    AllowsIff(g, i, lo, to, tx.l - {InodeBlock(g.sb, i)});
  }

  lemma UptoLast(f: Fs, i: nat, off: nat, n: nat, tot: nat)
    requires Shape(f) && i < |f.inodes| && off + n <= MAXBYTES && tot <= n && Whole(off, tot, n)
    ensures Upto(f, i, off, n, tot) <= LastSlot(off, n) <= MAXFILE
  {
    if tot < n {
      ReachedIs(off, tot, n);
    }
  }

  /** The inode block is all that the end of writei stores to. */
  lemma FinishedTouch(f: Fs, i: nat, end: nat)
    requires Shape(f) && i < |f.inodes| && Max(f.inodes[i].size, end) < TWO32
    ensures Touch(f, Finished(f, i, end), {InodeBlock(f.sb, i)})
  {
    MakeTouch(f, Finished(f, i, end), {InodeBlock(f.sb, i)});
  }

  /** The end of writei: the size, and the inode on disk. */
  ghost predicate Closed(g: State, h: State, i: nat, end: nat) {
    && SameBlocks(g.f, h.f) && i < |g.f.inodes| && h.f.owner == g.f.owner && h.img == g.img
    && Touch(g.f, h.f, {InodeBlock(g.f.sb, i)}) && h.jnl == Noted(g.jnl, {InodeBlock(g.f.sb, i)})
    && (SyncedBut(g.f, i) ==> Synced(h.f))
    && h.f.inodes == g.f.inodes[i := Inode(g.f.inodes[i].addrs, Max(g.f.inodes[i].size, end))]
  }

  lemma RecordEnds(a: State, g: State, h: State, i: nat, off: nat, n: nat, tot: nat, moved: nat, avail: nat, tx: Tx)
    requires Ok(g.f, g.img) && Closed(g, h, i, off + tot) && Outcome(a.f, i, off, n, avail, tot, moved)
    requires (tx.x.Some? <==> tot < moved) && (tot < n ==> Ended(a.f, g.f, i, off, n, avail, tot, moved))
    requires Tracing(a.f, a.jnl, g.f, g.jnl, i, off / 1024, Upto(a.f, i, off, n, tot), (off + tot) / 1024, tx)
    ensures Recorded(a.f, a.jnl, h.f, h.jnl, i, off, n, tot, moved, Tx(tx.l + {InodeBlock(g.f.sb, i)}, tx.x))
  {
    var hi, q := Upto(a.f, i, off, n, tot), (off + tot) / 1024;
    if tot < n {
      ReachedIs(off, tot, n);
    }
    RecordDone(a.f, a.jnl, g.f, g.jnl, g.img, h.f, h.jnl, i, off / 1024, hi, q, tx, InodeBlock(g.f.sb, i));
    UptoLast(a.f, i, off, n, tot);
    LogsUpTo(a.f, a.jnl, h.f, h.jnl, i, off / 1024, hi, LastSlot(off, n), q, Tx(tx.l + {InodeBlock(g.f.sb, i)}, tx.x));
  }

  lemma FinishedCloses(g: State, h: State, i: nat, end: nat)
    requires Ok(g.f, g.img) && i < |g.f.inodes| && Shape(g.f) && MappedTo(g.f, i, end)
    requires Max(g.f.inodes[i].size, end) < TWO32 && h.f == Finished(g.f, i, end) && h.img == g.img
    requires h.jnl == Noted(g.jnl, {InodeBlock(g.f.sb, i)})
    ensures Closed(g, h, i, end)
  {
    FinishedIs(g.f, g.img, i, end);
    FinishedTouch(g.f, i, end);
  }

  /** The state after the size and the inode on disk. */
  ghost predicate Finishes(g: State, h: State, i: nat, end: nat) {
    && Ok(g.f, g.img) && Shape(g.f) && i < |g.f.inodes| && Max(g.f.inodes[i].size, end) < TWO32
    && h.f == Finished(g.f, i, end) && h.img == g.img && h.jnl == Noted(g.jnl, {InodeBlock(g.f.sb, i)})
  }

  lemma WriteEnds(a: State, g: State, h: State, i: nat, off: nat, n: nat, data: seq<byte>, tot: nat, moved: nat, tx: Tx)
    requires Over(a, g, i, off, n, data, tot, moved, tx) && Finishes(g, h, i, off + tot)
    ensures Wrote(a, h, i, off, n, data, tot, moved, Tx(tx.l + {InodeBlock(g.f.sb, i)}, tx.x))
  {
    FinishedCloses(g, h, i, off + tot);
    RecordEnds(a, g, h, i, off, n, tot, moved, |data|, tx);
    ContentEnds(a, g, h, i, off, n, data, tot, moved);
  }

  lemma ContentEnds(a: State, g: State, h: State, i: nat, off: nat, n: nat, data: seq<byte>, tot: nat, moved: nat)
    requires Ok(g.f, g.img) && Closed(g, h, i, off + tot) && Outcome(a.f, i, off, n, |data|, tot, moved)
    requires tot < n ==> Ended(a.f, g.f, i, off, n, |data|, tot, moved)
    requires Writing(a.f, a.img, g.f, g.img, i, off, data, tot, moved)
    ensures Contained(a.f, a.img, h.f, h.img, i, off, n, data, tot, moved)
  {
    WriteDone(a.f, a.img, g.f, g.img, h.f, i, off, n, data, tot, moved);
  }

  // ---------- what a write leaves without a log_write ----------

  /** All blocks that a write stores to are logged exactly when it left none, or only a new one, or one that
      had been logged before. */
  lemma LeftIff(f: Fs, j: Journal, g: Fs, k: Journal, i: nat, lo: nat, hi: nat, q: nat, tx: Tx)
    requires Logs(f, j, g, k, i, lo, hi, q, tx) && j.stored <= j.logged && q < MAXFILE
    ensures k.stored <= k.logged <==>
            || tx.x.None? || Slot(f.disk, f.inodes[i], q) == 0 || Slot(f.disk, f.inodes[i], q) as nat in j.logged
  {
    AllLoggedIff(f, j, g, k, tx);
  }

  /** In terms of what is there before a write that begins an operation: the source can be read to its end, or
      ends where a round ends, or there are not enough blocks, or the block where it ends is new. */
  lemma LoggedIff(f: Fs, j: Journal, g: Fs, k: Journal, i: nat, off: nat, n: nat, avail: nat, r: nat, moved: nat,
          tx: Tx)
    requires Outcome(f, i, off, n, avail, r, moved) && Recorded(f, j, g, k, i, off, n, r, moved, tx)
    requires j.stored == j.logged == {}
    ensures avail < n ==> (off + avail) / 1024 < MAXFILE
    ensures k.stored <= k.logged <==>
            || n <= avail || EndsARound(off, avail) || !Fits(f, i, off / 1024, (off + avail) / 1024 + 1)
            || Slot(f.disk, f.inodes[i], (off + avail) / 1024) == 0
  {
    var q := (off + r) / 1024;
    OldBlockIff(f, i, off, n, avail, r, moved);
    if r < n {
      LeftIff(f, j, g, k, i, off / 1024, LastSlot(off, n), q, tx);
    } else {
      AllLoggedIff(f, j, g, k, tx);
    }
  }

  /** The bytes that do not count are in a block that was there before. */
  lemma OldBlockIff(f: Fs, i: nat, off: nat, n: nat, avail: nat, r: nat, moved: nat)
    requires Outcome(f, i, off, n, avail, r, moved)
    ensures avail < n ==> (off + avail) / 1024 < MAXFILE
    ensures r < n ==> (off + r) / 1024 < MAXFILE
    ensures moved == r || Slot(f.disk, f.inodes[i], (off + r) / 1024) == 0 <==>
            || n <= avail || EndsARound(off, avail) || !Fits(f, i, off / 1024, (off + avail) / 1024 + 1)
            || Slot(f.disk, f.inodes[i], (off + avail) / 1024) == 0
  {
    NoneStrayIff(f, i, off, n, avail, r, moved);
    if moved > r {
      SameSlotEnds(f, i, off, n, avail, r, moved);
    }
  }

  lemma SameSlotEnds(f: Fs, i: nat, off: nat, n: nat, avail: nat, r: nat, moved: nat)
    requires Outcome(f, i, off, n, avail, r, moved) && moved > r
    ensures (off + r) / 1024 == (off + avail) / 1024
  {
  }

  /** So it is not for a write of 1024 bytes to a file of one block, from a source with one readable byte: the
      byte is in the block, does not count, and is not logged. */
  lemma StrayByte(a: State, b: State, i: nat, data: seq<byte>, r: nat, moved: nat, tx: Tx)
    requires Wrote(a, b, i, 0, 1024, data, r, moved, tx) && a.jnl.stored == a.jnl.logged == {}
    requires |data| == 1 && Slot(a.f.disk, a.f.inodes[i], 0) != 0
    ensures r == 0 && moved == 1 && b.img[i][0] == data[0]
    ensures !(b.jnl.stored <= b.jnl.logged)
    ensures var x := Slot(a.f.disk, a.f.inodes[i], 0);
            && x == Slot(b.f.disk, b.f.inodes[i], 0) && x < |a.f.disk| && x as nat in b.jnl.strays
            && (x as nat !in a.jnl.strays ==> b.jnl.strays[x as nat] == a.f.disk[x])
  {
    LoggedIff(a.f, a.jnl, b.f, b.jnl, i, 0, 1024, |data|, r, moved, tx);
    assert Need(a.f, i, 0, 1) == 0;
  }

  // ---------- filewrite ----------

  /** A write of at most three blocks' worth of bytes touches at most four slots, so with the inode block,
      the indirect block and the bitmap it logs at most six blocks more than the bitmap has. */
  lemma ChunkLogs(g: Fs, i: nat, off: nat, n: nat, l: set<nat>)
    requires Shape(g) && i < |g.inodes| && n <= 3072 && off + n <= MAXBYTES
    requires Allows(g, i, off / 1024, LastSlot(off, n), l - {InodeBlock(g.sb, i)})
    ensures |l| <= NBitmap(g.sb) + 6
  {
    var a := Allowance(g, i, off / 1024, LastSlot(off, n));
    AllowanceSize(g, i, off / 1024, LastSlot(off, n));
    AllowsIff(g, i, off / 1024, LastSlot(off, n), l - {InodeBlock(g.sb, i)});
    Subset(l, a + {InodeBlock(g.sb, i)});
  }

  lemma {:induction false} Subset(a: set<nat>, b: set<nat>)
    requires a <= b
    ensures |a| <= |b|
  {
    if a != {} {
      var x :| x in a;
      Subset(a - {x}, b - {x});
    }
  }

  /** After chunks of k bytes in all: k bytes count, and the first `moved` bytes of the source are in the
      file. */
  ghost predicate FileWriting(f: Fs, s: seq<seq<byte>>, g: Fs, t: seq<seq<byte>>, i: nat, off: nat, data: seq<byte>,
          k: nat, moved: nat)
  {
    && |f.inodes| == |g.inodes| == |s| == |t| && i < |s| && |s[i]| == MAXBYTES && k <= moved <= |data|
    && (moved == 0 ==> t == s)
    && (moved > 0 ==>
           off <= f.inodes[i].size && off + moved <= MAXBYTES && t == s[i := Patch(s[i], off, data[..moved])])
    && g.inodes[i].size == (if k == 0 then f.inodes[i].size else Max(f.inodes[i].size, off + k))
    && (forall j :: 0 <= j < |f.inodes| && j != i ==> g.inodes[j].size == f.inodes[j].size)
  }

  lemma ChunkDone(f: Fs, s: seq<seq<byte>>, g: Fs, t: seq<seq<byte>>, h: Fs, u: seq<seq<byte>>,
                  i: nat, off: nat, data: seq<byte>, k: nat, n: nat, r: nat, m: nat)
    requires FileWriting(f, s, g, t, i, off, data, k, k) && off + k <= g.inodes[i].size
    requires Contained(g, t, h, u, i, off + k, n, data[k..], r, m)
    ensures FileWriting(f, s, h, u, i, off, data, k + r, k + m)
  {
    if k == 0 {
      assert data[0..][..m] == data[..m];
      if m == 0 {
        PatchNone(s[i], off, data);
      }
    } else {
      assert data[k..][..m] == data[k..k + m];
      PatchPatch(s[i], off, data, k, k + m);
    }
  }

  /** The next chunk of a write that stays within a file of the largest size is not refused. */
  lemma NotRefused(f: Fs, s: seq<seq<byte>>, g: Fs, t: seq<seq<byte>>, i: nat, off: uint, data: seq<byte>, k: nat,
          n: nat)
    requires FileWriting(f, s, g, t, i, off, data, k, k) && off <= f.inodes[i].size && off + k + n <= MAXBYTES
    ensures !Refused(g.inodes[i].size, off + k, n)
  {
  }

  /** A write within the file always finds its blocks. */
  lemma NeverStuck(f: Fs, s: seq<seq<byte>>, g: Fs, t: seq<seq<byte>>, i: nat, off: nat, n: nat, data: seq<byte>,
          r: nat, moved: nat)
    requires Contained(f, s, g, t, i, off, n, data, r, moved) && Ok(g, t) && off + n <= f.inodes[i].size && n <= |data|
    ensures r == n == moved
  {
    OkIff(g, t);
    assert Mapped(g, i);
    assert (off + r) / 1024 * 1024 <= off + r;
  }

  // ---------- the end of itrunc ----------

  /** Exactly the blocks of inode x are free in addition. */
  ghost predicate FreedOnly(o: seq<Owner>, p: seq<Owner>, x: nat) {
    |p| == |o| && forall b :: 0 <= b < |o| ==> p[b] == if Belongs(o[b], x) then Free else o[b]
  }

  lemma TruncateEnds(f: Fs, img: seq<seq<byte>>, j: Journal, g: Fs, k: Journal, l: set<nat>, h: Fs, m: Journal, x: nat)
    requires Ok(f, img) && x < |f.inodes| && Shape(f) && g == Truncated(f, x) && Traced(f, j, g, k, Tx(l, None))
    requires StraysOk(f, j.strays)
    requires Shape(g) && g.inodes[x].size < TWO32 && h == Updated(g, x) && m == Noted(k, {InodeBlock(g.sb, x)})
    ensures Traced(f, j, h, m, Tx(l + {InodeBlock(g.sb, x)}, None)) && StraysOk(h, m.strays)
    ensures h.inodes == f.inodes[x := EmptyInode()] && FreedOnly(f.owner, h.owner, x)
    ensures SyncedBut(f, x) ==> Synced(h)
  {
    UpdatedTouch(g, x);
    TracedMore(f, j, g, k, l, h, m, {InodeBlock(g.sb, x)});
    StraysKept(f, j, h, m, Tx(l + {InodeBlock(g.sb, x)}, None));
    TruncateOk(f, img, x);
    if SyncedBut(f, x) {
      TruncateSynced(f, img, x);
      UpdatedSynced(g, x);
    }
  }

  // ---------- transactions ----------

  /** A volume in order. */
  ghost predicate Proper(a: State) {
    Ok(a.f, a.img) && StraysOk(a.f, a.jnl.strays)
  }

  /** From a to b an operation did what tx says, from begin_op to end_op. */
  ghost predicate Transaction(a: State, b: State, tx: Tx) {
    && Proper(a) && Proper(b) && b.f.sb == a.f.sb && |b.f.inodes| == |a.f.inodes|
    && Traced(a.f, Begun(a.jnl), b.f, b.jnl, tx) && AtHome(a.f.sb, tx.l)
  }

  /** Blocks of the file system behind the log. */
  ghost predicate AtHome(sb: Super, l: set<nat>) {
    forall b :: b in l ==> sb.inodestart <= b < sb.size
  }

  lemma MetaAtHome(f: Fs, i: nat, b: nat)
    requires Inv(f) && i < |f.inodes| && b in BitmapBlocks(f.sb) + IndirectSet(f, i) + {InodeBlock(f.sb, i)}
    ensures f.sb.inodestart <= b < f.sb.size
  {
    assert IndOk(f, i);
    if f.inodes[i].addrs[12] != 0 {
      assert BlockOk(f, f.inodes[i].addrs[12]);
    }
  }

  lemma {:induction false} AllowedAtHome(f: Fs, i: nat, lo: nat, hi: nat, l: set<nat>, b: nat)
    requires Inv(f) && i < |f.inodes| && hi <= MAXFILE && Allows(f, i, lo, hi, l) && b in l
    ensures f.sb.inodestart <= b < f.sb.size
    decreases hi
  {
    if hi <= lo {
      MetaAtHome(f, i, b);
    } else {
      var s := Slot(f.disk, f.inodes[i], hi - 1);
      if s == b && s != 0 {
        assert SlotOk(f, i, hi - 1) && BlockOk(f, s);
      } else {
        AllowedAtHome(f, i, lo, hi - 1, if s == 0 then l else l - {s as nat}, b);
      }
    }
  }

  lemma AllAtHome(f: Fs, img: seq<seq<byte>>, i: nat, lo: nat, hi: nat, l: set<nat>)
    requires Ok(f, img) && Shape(f) && i < |f.inodes| && hi <= MAXFILE &&
             Allows(f, i, lo, hi, l - {InodeBlock(f.sb, i)})
    ensures AtHome(f.sb, l)
  {
    OkIff(f, img);
    forall b | b in l ensures f.sb.inodestart <= b < f.sb.size {
      if b == InodeBlock(f.sb, i) {
        MetaAtHome(f, i, b);
      } else {
        AllowedAtHome(f, i, lo, hi, l - {InodeBlock(f.sb, i)}, b);
      }
    }
  }

  /** A series of transactions, each of which logs at most cap blocks. */
  ghost predicate Chain(trail: seq<State>, txs: seq<Tx>, cap: nat) {
    && |trail| == |txs| + 1
    && (txs != [] ==>
          var n := |txs| - 1;
          Chain(trail[..n + 1], txs[..n], cap) && Transaction(trail[n], trail[n + 1], txs[n]) && |txs[n].l| <= cap)
  }

  lemma ChunkTraced(a: State, b: State, i: nat, off: nat, n: nat, data: seq<byte>, r: nat, moved: nat, tx: Tx)
    requires Proper(a) && Proper(b) && n <= 3072
    requires Wrote(State(a.f, a.img, Begun(a.jnl)), b, i, off, n, data, r, moved, tx) && b.f.sb == a.f.sb
    ensures Transaction(a, b, tx) && |tx.l| <= NBitmap(a.f.sb) + 6
  {
    ChunkLogs(b.f, i, off, n, tx.l);
    AllAtHome(b.f, b.img, i, off / 1024, LastSlot(off, n), tx.l);
  }

  lemma NothingTraced(a: State, b: State)
    requires Proper(a) && b == State(a.f, a.img, Begun(a.jnl))
    ensures Transaction(a, b, Tx({}, None)) && Proper(b)
  {
    ShapeOk(a.f, a.img);
    TracedNone(a.f, Begun(a.jnl));
  }

  /** A chunk that falls short although its source can be read leaves the disk full. */
  lemma ShortIsFull(f: Fs, s: seq<seq<byte>>, g: Fs, t: seq<seq<byte>>, i: nat, off: nat, n: nat, data: seq<byte>,
          r: nat, moved: nat)
    requires Contained(f, s, g, t, i, off, n, data, r, moved) && r < n <= |data|
    ensures Full(g)
  {
  }

  lemma ChainMore(trail: seq<State>, txs: seq<Tx>, cap: nat, b: State, tx: Tx)
    requires Chain(trail, txs, cap) && Transaction(trail[|txs|], b, tx) && |tx.l| <= cap
    ensures Chain(trail + [b], txs + [tx], cap)
  {
    assert (trail + [b])[..|txs| + 1] == trail && (txs + [tx])[..|txs|] == txs;
  }

  lemma {:induction false} ChainAt(trail: seq<State>, txs: seq<Tx>, cap: nat, j: nat)
    requires Chain(trail, txs, cap) && j < |txs|
    ensures Transaction(trail[j], trail[j + 1], txs[j]) && |txs[j].l| <= cap
  {
    if j < |txs| - 1 {
      ChainAt(trail[..|txs|], txs[..|txs| - 1], cap, j);
    }
  }

  /** How many transactions a filewrite of n bytes takes. */
  function Chunks(n: int): nat {
    if n <= 0 then 0 else (n + 3071) / 3072
  }

  /** What one chunk adds to a write that began in state f with files s; c is what writei returned for it. */
  lemma ChunkNext(f: Fs, s: seq<seq<byte>>, a: State, b: State, i: nat, off: uint, n: nat, data: seq<byte>,
          k: nat, n1: nat, c: int, m: nat, r: nat, moved: nat)
    requires k < n && n1 == Min(3072, n - k) && FileWriting(f, s, a.f, a.img, i, off, data, k, k)
    requires off + k < TWO32 && (c == -1 <==> Refused(a.f.inodes[i].size, off + k, n1)) && -1 <= c
    requires c == -1 ==> b.f == a.f && b.img == a.img
    requires c != -1 ==> Contained(a.f, a.img, b.f, b.img, i, off + k, n1, data[k..], c, m)
    requires if c == -1 then r == 0 && moved == k else r == c && moved == k + m
    ensures r <= n1 && FileWriting(f, s, b.f, b.img, i, off, data, k + r, moved) && (r == n1 ==> moved == k + r)
    ensures r < n1 && off <= f.inodes[i].size && off + n <= MAXBYTES && n <= |data| ==> Full(b.f)
  {
    if c == -1 {
      if off <= f.inodes[i].size && off + n <= MAXBYTES {
        NotRefused(f, s, a.f, a.img, i, off, data, k, n1);
      }
    } else {
      ChunkDone(f, s, a.f, a.img, b.f, b.img, i, off, data, k, n1, c, m);
      if c < n1 && n <= |data| {
        ShortIsFull(a.f, a.img, b.f, b.img, i, off + k, n1, data[k..], c, m);
      }
    }
  }

  /** After c transactions of filewrite, k bytes count; it is over when a chunk fell short. */
  predicate Counts(n: int, k: nat, c: nat, over: bool) {
    if over then k < n && c == k / 3072 + 1
    else (k == 3072 * c && (k <= n || k == 0)) || (k == n > 0 && c == Chunks(n))
  }

  lemma CountsNext(n: int, k: nat, c: nat, r: nat)
    requires Counts(n, k, c, false) && k < n && r <= Min(3072, n - k)
    ensures Counts(n, k + r, c + 1, r != Min(3072, n - k))
  {
  }

  lemma CountsEnd(n: int, k: nat, c: nat, over: bool)
    requires Counts(n, k, c, over) && (k >= n || over)
    ensures c == if n <= 0 || n == k then Chunks(n) else k / 3072 + 1
    ensures n >= 0 ==> k <= n
  {
  }
}
