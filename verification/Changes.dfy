/** What an operation of kernel/fs.c does to the blocks, as the log sees it: which it stores to, which it calls
    log_write for, and what becomes of a block that it stored to and released without log_write. */
module Changes {
  import opened Wrappers
  import opened Blocks
  import opened Inodes
  import opened BlockMap
  import opened InodeStore

  /** The blocks that the current operation has stored to, and those that it has called log_write for. A stray
      block was stored to and released without log_write: nothing keeps its buffer, and once that is recycled
      the block reads as it does on disk, which is what `strays` says. */
  datatype Journal = Journal(stored: set<nat>, logged: set<nat>, strays: map<nat, Block>)

  /** A store to block b, which was x. The buffer of a logged block is pinned: commit writes what it then has. */
  function Stored(j: Journal, b: nat, x: Block): Journal {
    Journal(j.stored + {b}, j.logged, if b in j.logged || b in j.strays then j.strays else j.strays[b := x])
  }

  /** log_write of block b */
  function Logged(j: Journal, b: nat): Journal {
    Journal(j.stored, j.logged + {b}, j.strays - {b})
  }

  /** begin_op */
  function Begun(j: Journal): Journal {
    Journal({}, {}, j.strays)
  }

  /** The blocks of l were stored to and logged. */
  function Noted(j: Journal, l: set<nat>): Journal {
    Journal(j.stored + l, j.logged + l, j.strays - l)
  }

  lemma NotedOne(j: Journal, b: nat, x: Block)
    ensures Logged(Stored(j, b, x), b) == Noted(j, {b})
  {
    assert (j.strays[b := x]) - {b} == j.strays - {b};
  }

  lemma NotedNone(j: Journal)
    ensures Noted(j, {}) == j
  {
    assert j.strays - {} == j.strays;
  }

  lemma NotedTwice(j: Journal, l: set<nat>, m: set<nat>)
    ensures Noted(Noted(j, l), m) == Noted(j, l + m)
  {
    assert j.stored + l + m == j.stored + (l + m) && j.logged + l + m == j.logged + (l + m);
    assert j.strays - l - m == j.strays - (l + m);
  }

  /** A log_write of another block after the store to b makes no difference to b. */
  lemma NotedAfter(j: Journal, l: set<nat>, b: nat, x: Block, c: nat)
    requires b != c
    ensures Noted(Stored(Noted(j, l), b, x), {c}) == Stored(Noted(j, l + {c}), b, x)
  {
    var u, v := Noted(Stored(Noted(j, l), b, x), {c}), Stored(Noted(j, l + {c}), b, x);
    assert u.stored == v.stored && u.logged == v.logged;
    assert u.strays == v.strays;
  }

  // ---------- what a call logs ----------

  function BitmapBlock(sb: Super, b: nat): nat {
    sb.bmapstart + b / 8192
  }

  function IndirectLogs(f: Fs, d: uint): set<nat> {
    if d == 0 then {} else {BitmapBlock(f.sb, d), d}
  }

  function DataLogs(f: Fs, i: nat, k: nat, e: uint): set<nat>
    requires i < |f.inodes| && |f.inodes[i].addrs| == 13
  {
    if e == 0 then {} else {BitmapBlock(f.sb, e), e} + if k < NDIRECT then {} else {f.inodes[i].addrs[12]}
  }

  /** What one call of bmap logs. */
  function BmapLogs(f: Fs, i: nat, k: nat, d: uint, e: uint): set<nat>
    requires LegalIndirect(f, i, k, d)
  {
    var g := AfterIndirect(f, i, k, d);
    IndirectLogs(f, d) + (if i < |g.inodes| && |g.inodes[i].addrs| == 13 then DataLogs(g, i, k, e) else {})
  }

  // ---------- which blocks change ----------

  /** Of the first n blocks, those outside l are as they were; at most they became free. */
  ghost predicate SameTo(f: Fs, g: Fs, l: set<nat>, n: nat) {
    n == 0 || (
      && n <= |f.disk| == |g.disk| == |f.owner| == |g.owner| && SameTo(f, g, l, n - 1)
      && (n - 1 in l || SameAt(f, g, n - 1)))
  }

  ghost predicate SameAt(f: Fs, g: Fs, b: nat)
    requires b < |f.disk| == |g.disk| == |f.owner| == |g.owner|
  {
    g.disk[b] == f.disk[b] && (g.owner[b] == f.owner[b] || g.owner[b] == Free)
  }

  ghost predicate Touch(f: Fs, g: Fs, l: set<nat>) {
    |f.disk| == |g.disk| == |f.owner| == |g.owner| && SameTo(f, g, l, |f.disk|)
  }

  lemma {:induction false} SameToIff(f: Fs, g: Fs, l: set<nat>, n: nat)
    requires n <= |f.disk| == |g.disk| == |f.owner| == |g.owner|
    ensures SameTo(f, g, l, n) <==> forall b :: 0 <= b < n && b !in l ==> SameAt(f, g, b)
  {
    if n > 0 {
      SameToIff(f, g, l, n - 1);
    }
  }

  lemma TouchAt(f: Fs, g: Fs, l: set<nat>, b: nat)
    requires Touch(f, g, l) && b < |f.disk| && b !in l
    ensures SameAt(f, g, b)
  {
    SameToIff(f, g, l, |f.disk|);
  }

  lemma MakeTouch(f: Fs, g: Fs, l: set<nat>)
    requires |f.disk| == |g.disk| == |f.owner| == |g.owner|
    requires forall b :: 0 <= b < |f.disk| && b !in l ==> SameAt(f, g, b)
    ensures Touch(f, g, l)
  {
    SameToIff(f, g, l, |f.disk|);
  }

  lemma TouchTrans(f: Fs, g: Fs, h: Fs, l: set<nat>, m: set<nat>)
    requires Touch(f, g, l) && Touch(g, h, m)
    ensures Touch(f, h, l + m)
  {
    forall b | 0 <= b < |f.disk| && b !in l + m ensures SameAt(f, h, b) {
      TouchAt(f, g, l, b);
      TouchAt(g, h, m, b);
    }
    MakeTouch(f, h, l + m);
  }

  lemma TouchSelf(f: Fs)
    requires |f.disk| == |f.owner|
    ensures Touch(f, f, {})
  {
    MakeTouch(f, f, {});
  }

  lemma TakeTouch(f: Fs, o: Owner, b: uint, l: set<nat>)
    requires Inv(f) && Vacant(f, o) && FirstFree(f, b)
    requires BitmapBlock(f.sb, b) in l && b in l &&
             (o.Data? && o.k >= NDIRECT ==> f.inodes[o.ino].addrs[12] as nat in l)
    ensures Touch(f, Take(f, o, b), l)
  {
    MakeTouch(f, Take(f, o, b), l);
  }

  /** A block that bmap does not log stays as it is. */
  lemma BmapTouch(f: Fs, i: nat, k: nat, d: uint, e: uint)
    requires Inv(f) && Settled(f) && Legal(f, Bmap(i, k, d, e))
    ensures Touch(f, After(f, Bmap(i, k, d, e)), BmapLogs(f, i, k, d, e))
  {
    IndirectHalf(f, i, k, d);
    var h := AfterIndirect(f, i, k, d);
    if d == 0 {
      TouchSelf(f);
    } else {
      TakeTouch(f, Indirect(i), d, IndirectLogs(f, d));
    }
    if e == 0 {
      TouchSelf(h);
    } else {
      TakeTouch(h, Data(i, k), e, DataLogs(h, i, k, e));
    }
    TouchTrans(f, h, AfterData(h, i, k, e), IndirectLogs(f, d), DataLogs(h, i, k, e));
  }

  lemma ReleasedTouch(f: Fs, b: nat)
    requires Shape(f) && b < f.sb.size
    ensures Touch(f, Released(f, b), {BitmapBlock(f.sb, b)})
  {
    MakeTouch(f, Released(f, b), {BitmapBlock(f.sb, b)});
  }

  lemma UpdatedTouch(f: Fs, i: nat)
    requires Shape(f) && i < |f.inodes| && f.inodes[i].size < TWO32
    ensures Touch(f, Updated(f, i), {InodeBlock(f.sb, i)})
  {
    MakeTouch(f, Updated(f, i), {InodeBlock(f.sb, i)});
  }

  lemma WriteDataTouch(f: Fs, b: nat, x: Block)
    requires Shape(f) && b < f.sb.size
    ensures Touch(f, WriteData(f, b, x), {b})
  {
    MakeTouch(f, WriteData(f, b, x), {b});
  }

  /** The inodes do not matter. */
  lemma TouchInodes(f: Fs, g: Fs, l: set<nat>, h: Fs)
    requires Touch(f, g, l) && h.disk == g.disk && h.owner == g.owner
    ensures Touch(f, h, l)
  {
    forall b | 0 <= b < |f.disk| && b !in l ensures SameAt(f, h, b) {
      TouchAt(f, g, l, b);
    }
    MakeTouch(f, h, l);
  }

  // ---------- what an operation leaves ----------

  /** The blocks that it stored to and logged, and maybe one that it stored to and did not. */
  datatype Tx = Tx(l: set<nat>, x: Option<nat>)

  function All(tx: Tx): set<nat> {
    tx.l + if tx.x.Some? then {tx.x.value} else {}
  }

  function AfterTx(f: Fs, j: Journal, tx: Tx): Journal
    requires tx.x.Some? ==> tx.x.value < |f.disk|
  {
    if tx.x.None? then Noted(j, tx.l) else Stored(Noted(j, tx.l), tx.x.value, f.disk[tx.x.value])
  }

  /** From f with journal j to g with journal k an operation did what tx says, and no block outside changed. */
  ghost predicate Traced(f: Fs, j: Journal, g: Fs, k: Journal, tx: Tx) {
    && Touch(f, g, All(tx)) && (tx.x.Some? ==> tx.x.value < |f.disk| && g.owner[tx.x.value].Data?)
    && k == AfterTx(f, j, tx)
  }

  lemma TracedMore(f: Fs, j: Journal, g: Fs, k: Journal, l: set<nat>, h: Fs, m: Journal, more: set<nat>)
    requires Traced(f, j, g, k, Tx(l, None)) && Touch(g, h, more) && m == Noted(k, more)
    ensures Traced(f, j, h, m, Tx(l + more, None))
  {
    TouchTrans(f, g, h, l + {}, more);
    assert l + {} + more == l + more + {};
    NotedTwice(j, l, more);
  }

  lemma TracedNone(f: Fs, j: Journal)
    requires |f.disk| == |f.owner|
    ensures Traced(f, j, f, j, Tx({}, None))
  {
    TouchSelf(f);
    assert All(Tx({}, None)) == {};
    NotedNone(j);
  }

  /** One operation after another, of which the first left no block behind. */
  lemma TracedThen(f: Fs, j: Journal, g: Fs, k: Journal, l: set<nat>, h: Fs, m: Journal, tx: Tx)
    requires Traced(f, j, g, k, Tx(l, None)) && Traced(g, k, h, m, tx)
    ensures Traced(f, j, h, m, Tx(l + tx.l, tx.x))
  {
    var both := Tx(l + tx.l, tx.x);
    TouchTrans(f, g, h, l + {}, All(tx));
    assert l + {} + All(tx) == All(both);
    NotedTwice(j, l, tx.l);
    if tx.x.Some? && tx.x.value !in l {
      TouchAt(f, g, l + {}, tx.x.value);
    }
  }

  /** A block that is logged at the end, other than the one that was left. */
  lemma TracedEnd(f: Fs, j: Journal, g: Fs, k: Journal, tx: Tx, h: Fs, m: Journal, c: nat)
    requires Traced(f, j, g, k, tx) && Touch(g, h, {c}) && m == Noted(k, {c}) && tx.x != Some(c)
    requires tx.x.Some? ==> h.owner == g.owner
    ensures Traced(f, j, h, m, Tx(tx.l + {c}, tx.x))
  {
    var both := Tx(tx.l + {c}, tx.x);
    TouchTrans(f, g, h, All(tx), {c});
    assert All(tx) + {c} == All(both);
    if tx.x.None? {
      NotedTwice(j, tx.l, {c});
    } else {
      NotedAfter(j, tx.l, tx.x.value, f.disk[tx.x.value], c);
    }
  }

  /** All that was stored to was logged, unless there is such a block, and nothing else logged it. */
  lemma AllLoggedIff(f: Fs, j: Journal, g: Fs, k: Journal, tx: Tx)
    requires Traced(f, j, g, k, tx) && j.stored <= j.logged
    ensures k.stored <= k.logged <==> tx.x.None? || tx.x.value in tx.l || tx.x.value in j.logged
  {
  }

  // ---------- stray blocks ----------

  /** Only the data of files can be stray, or of blocks that have been freed since. */
  ghost predicate StraysOk(f: Fs, strays: map<nat, Block>) {
    forall b :: b in strays ==> b < |f.owner| && (f.owner[b].Data? || f.owner[b] == Free)
  }

  lemma StraysKept(f: Fs, j: Journal, g: Fs, k: Journal, tx: Tx)
    requires Traced(f, j, g, k, tx) && StraysOk(f, j.strays)
    ensures StraysOk(g, k.strays)
  {
    forall b | b in k.strays ensures b < |g.owner| && (g.owner[b].Data? || g.owner[b] == Free) {
      if tx.x != Some(b) {
        TouchAt(f, g, All(tx), b);
      }
    }
  }

  /** The blocks as a commit and a recycled buffer leave them: stray blocks as they are on disk. */
  ghost function Firm(disk: seq<Block>, strays: map<nat, Block>): (d: seq<Block>)
    ensures |d| == |disk| && forall b :: 0 <= b < |d| ==> d[b] == if b in strays then strays[b] else disk[b]
  {
    seq<Block>(|disk|, b requires 0 <= b < |disk| => if b in strays then strays[b] else disk[b])
  }

  /** An operation changes, for good, only the blocks that it logged. */
  lemma FirmChange(f: Fs, j: Journal, g: Fs, k: Journal, tx: Tx, b: nat)
    requires Traced(f, j, g, k, tx) && j.logged == {} && b < |f.disk|
    ensures b < |g.disk| && Firm(g.disk, k.strays)[b] == if b in tx.l then g.disk[b] else Firm(f.disk, j.strays)[b]
  {
    if b !in All(tx) {
      TouchAt(f, g, All(tx), b);
    }
  }

  lemma TracedInodes(f: Fs, j: Journal, g: Fs, k: Journal, tx: Tx, h: Fs)
    requires Traced(f, j, g, k, tx) && h.disk == g.disk && h.owner == g.owner
    ensures Traced(f, j, h, k, tx)
  {
    TouchInodes(f, g, All(tx), h);
  }
}
