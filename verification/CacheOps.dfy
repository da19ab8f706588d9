/** Sequences of cache steps that kernel/log.c performs: bread ... brelse brackets around a
    copy between two buffers or a header update. */
module CacheOps {
  import opened Blocks
  import opened CacheSpec

  /** bread(k) that ends in buffer b. */
  function Bread(c: Cache, k: nat, b: nat): (r: Cache)
    requires b < |c.buf| == |c.held| && k < |c.disk| && (k in c.slot ==> c.buf[b].blockno == k)
  {
    Fill(Lock(if k in c.slot then Hit(c, b) else Recycle(c, b, k), b), b)
  }

  /** b is the buffer bget would pick for k: the one holding it, or some unreferenced one. */
  ghost predicate Picks(c: Cache, k: nat, b: nat) {
    && b < |c.buf| == |c.held| && k < |c.disk|
    && (k in c.slot ==> c.buf[b].blockno == k)
    && (if k in c.slot then b == c.slot[k] && !c.buf[b].locked else c.buf[b].refcnt == 0)
  }

  /** From c to r block k was read into buffer b. */
  ghost predicate ReadOne(c: Cache, r: Cache, k: nat, b: nat) {
    && b < |c.buf| == |c.held| && k < |c.latest|
    && r.buf == c.buf[b := Buf(ROOTDEV, k, true, c.buf[b].refcnt + 1, true, c.latest[k])]
    && r.held == Claim(c.held, b)
    && r.disk == c.disk && r.latest == (if k in c.slot then c.latest else Forgotten(c, b))
    && |r.latest| == |c.latest| && r.latest[k] == c.latest[k]
    && k in r.slot && r.slot[k] == b && (c.held[b].pinned ==> c.buf[b].blockno == k) && !c.buf[b].locked
    && (forall q :: q in c.slot && c.slot[q] != b ==> q in r.slot && r.slot[q] == c.slot[q])
  }

  /** After bread the caller owns a buffer with the latest contents of its block, and no other
      buffer has changed; a recycled buffer gives up the block it had. */
  lemma BreadOk(c: Cache, k: nat, b: nat)
    requires Ok(c) && Picks(c, k, b)
    ensures k in c.slot ==> c.buf[b].blockno == k
    ensures var r := Bread(c, k, b); Ok(r) && Owned(r, b) && ReadOne(c, r, k, b)
  {
    if k in c.slot {
      SlotAt(c, k);
      HitOk(c, b);
      LockOk(Hit(c, b), b);
      FillOk(Lock(Hit(c, b), b), b);
    } else {
      BufAt(c, b);
      RecycleOk(c, b, k);
      LockOk(Recycle(c, b, k), b);
      FillOk(Lock(Recycle(c, b, k), b), b);
    }
  }

  /** Buffer i is locked or pinned, or is as its block on disk. */
  ghost predicate Tidy(c: Cache, i: nat)
    requires i < |c.buf| == |c.held|
  {
    c.buf[i].valid && !c.buf[i].locked && !c.held[i].pinned ==> OnDisk(c, i)
  }

  /** Nobody holds the buffer of a block of ks, among the first n buffers; others may be locked. And all of them
      are tidy. */
  ghost predicate CalmTo(c: Cache, ks: iset<nat>, n: nat) {
    n == 0 || (
      && n <= |c.buf| == |c.held| && (c.buf[n - 1].locked ==> c.buf[n - 1].blockno !in ks) && Tidy(c, n - 1)
      && CalmTo(c, ks, n - 1))
  }

  ghost predicate Calm(c: Cache, ks: iset<nat>) {
    Ok(c) && CalmTo(c, ks, |c.buf|)
  }

  lemma {:induction false} CalmIff(c: Cache, ks: iset<nat>, n: nat)
    requires n <= |c.buf| == |c.held|
    ensures CalmTo(c, ks, n) <==>
            forall i :: 0 <= i < n ==> (c.buf[i].locked ==> c.buf[i].blockno !in ks) && Tidy(c, i)
  {
    if n > 0 {
      CalmIff(c, ks, n - 1);
    }
  }

  /** When all is tidy, bread loses nothing. */
  lemma CalmBread(c: Cache, k: nat, b: nat, ks: iset<nat>)
    requires Calm(c, ks) && Picks(c, k, b)
    ensures k in c.slot ==> c.buf[b].blockno == k
    ensures Bread(c, k, b).latest == c.latest
  {
    BreadOk(c, k, b);
    BufAt(c, b);
    CalmIff(c, ks, |c.buf|);
  }

  /** Who holds one of the first n buffers finds it as it was, and still holds it. */
  ghost predicate UndisturbedTo(c: Cache, d: Cache, n: nat) {
    n == 0 || (
      && n <= |c.buf| == |d.buf| && UndisturbedTo(c, d, n - 1)
      && (c.buf[n - 1].locked ==> d.buf[n - 1] == c.buf[n - 1]) && (d.buf[n - 1].locked ==> c.buf[n - 1].locked))
  }

  ghost predicate Undisturbed(c: Cache, d: Cache) {
    |c.buf| == |d.buf| && UndisturbedTo(c, d, |c.buf|)
  }

  lemma {:induction false} UndisturbedIff(c: Cache, d: Cache, n: nat)
    requires n <= |c.buf| == |d.buf|
    ensures UndisturbedTo(c, d, n) <==>
            forall i :: 0 <= i < n ==>
                (c.buf[i].locked ==> d.buf[i] == c.buf[i]) && (d.buf[i].locked ==> c.buf[i].locked)
  {
    if n > 0 {
      UndisturbedIff(c, d, n - 1);
    }
  }

  /** From c to d nothing has been pinned, what is still pinned has not moved, and no locked buffer has
      changed. */
  ghost predicate Steady(c: Cache, d: Cache) {
    && |c.buf| == |d.buf| == |c.held| == |d.held| && |d.disk| == |c.disk| && Undisturbed(c, d)
    && (forall i :: 0 <= i < |c.held| && d.held[i].pinned ==> c.held[i].pinned && d.buf[i].blockno == c.buf[i].blockno)
    && (forall q :: q in c.slot && c.slot[q] < |c.held| && d.held[c.slot[q]].pinned ==>
           q in d.slot && d.slot[q] == c.slot[q])
  }

  /** bread(k) into a, then bread(l) into b. */
  ghost predicate PicksTwo(c: Cache, k: nat, a: nat, l: nat, b: nat) {
    Picks(c, k, a) && Picks(Bread(c, k, a), l, b)
  }

  function BreadTwo(c: Cache, k: nat, a: nat, l: nat, b: nat): Cache
    requires PicksTwo(c, k, a, l, b)
  {
    Bread(Bread(c, k, a), l, b)
  }

  lemma SecondBread(c: Cache, k: nat, a: nat, l: nat, b: nat, ks: iset<nat>)
    requires Calm(c, ks) && k != l && PicksTwo(c, k, a, l, b)
    ensures BreadTwo(c, k, a, l, b).latest == c.latest
  {
    BreadOk(c, k, a);
    CalmBread(c, k, a, ks);
    BreadOk(Bread(c, k, a), l, b);
    if l !in Bread(c, k, a).slot {
      BufAt(c, b);
      CalmIff(c, ks, |c.buf|);
    }
  }

  /** From c to r two blocks were read. */
  ghost predicate ReadTwo(c: Cache, r: Cache, k: nat, a: nat, l: nat, b: nat) {
    && a != b && a < |c.buf| == |c.held| && b < |c.buf| && k < |c.latest| && l < |c.latest|
    && r.buf == c.buf[a := Buf(ROOTDEV, k, true, c.buf[a].refcnt + 1, true, c.latest[k])]
                     [b := Buf(ROOTDEV, l, true, c.buf[b].refcnt + 1, true, c.latest[l])]
    && r.held == Claim(Claim(c.held, a), b)
    && r.disk == c.disk && r.latest == c.latest
    && (forall q :: q in c.slot && c.slot[q] != a && c.slot[q] != b ==> q in r.slot && r.slot[q] == c.slot[q])
    && k in r.slot && l in r.slot && r.slot[k] == a && r.slot[l] == b
    && (c.held[a].pinned ==> c.buf[a].blockno == k) && (c.held[b].pinned ==> c.buf[b].blockno == l)
    && !c.buf[a].locked && !c.buf[b].locked
  }

  lemma BreadTwoOk(c: Cache, k: nat, a: nat, l: nat, b: nat, ks: iset<nat>)
    requires Calm(c, ks) && k != l && PicksTwo(c, k, a, l, b)
    ensures var r := BreadTwo(c, k, a, l, b); Ok(r) && Owned(r, a) && Owned(r, b) && ReadTwo(c, r, k, a, l, b)
  {
    BreadOk(c, k, a);
    BreadOk(Bread(c, k, a), l, b);
    SecondBread(c, k, a, l, b, ks);
    BothRead(c, Bread(c, k, a), BreadTwo(c, k, a, l, b), k, a, l, b);
  }

  lemma BothRead(c: Cache, d: Cache, r: Cache, k: nat, a: nat, l: nat, b: nat)
    requires ReadOne(c, d, k, a) && ReadOne(d, r, l, b) && Ok(c) && Ok(d) && Ok(r) && k != l && r.latest == c.latest
    ensures Owned(r, a) && Owned(r, b) && ReadTwo(c, r, k, a, l, b)
  {
  }

  /** The second bread finds a pinned block where it was. */
  lemma PinnedIsPicked(c: Cache, k: nat, a: nat, l: nat, b: nat)
    requires Ok(c) && k != l && PicksTwo(c, k, a, l, b)
    requires l in c.slot && c.slot[l] < |c.held| && c.held[c.slot[l]].pinned
    ensures b == c.slot[l]
  {
    SlotAt(c, l);
    BreadOk(c, k, a);
  }

  /** The contents of buffer y are copied to buffer x, which is written. */
  function CopyWrite(c: Cache, x: nat, y: nat): Cache
    requires x < |c.buf| && y < |c.buf| && c.buf[x].blockno < |c.disk| == |c.latest|
  {
    Write(Modify(c, x, c.buf[y].data), x)
  }

  lemma CopyWriteOk(c: Cache, x: nat, y: nat)
    requires Ok(c) && Owned(c, x) && Owned(c, y) && x != y
    ensures c.buf[x].blockno < |c.disk| && c.buf[y].blockno < |c.disk|
    ensures var r, d := CopyWrite(c, x, y), c.latest[c.buf[y].blockno];
            && Ok(r) && Owned(r, x) && Owned(r, y) && OnDisk(r, x)
            && r.buf == c.buf[x := c.buf[x].(data := d)] && r.held == c.held && r.slot == c.slot
            && r.disk == c.disk[c.buf[x].blockno := d] && r.latest == c.latest[c.buf[x].blockno := d]
  {
    BufAt(c, x);
    BufAt(c, y);
    ModifyOk(c, x, c.buf[y].data);
    WriteOk(Modify(c, x, c.buf[y].data), x);
  }

  /** The holder of a buffer has logged or written what it modified. */
  ghost predicate CanRelease(c: Cache, x: nat) {
    Owned(c, x) && |c.buf| == |c.held| && (c.held[x].pinned || OnDisk(c, x)) && c.buf[x].refcnt > 0 &&
      c.held[x].users > 0
  }

  /** Both buffers are released. */
  function ReleaseTwo(c: Cache, x: nat, y: nat): Cache
    requires CanRelease(c, x) && CanRelease(c, y) && x != y
  {
    Release(Release(c, x), y)
  }

  lemma ReleaseTwoOk(c: Cache, x: nat, y: nat)
    requires Ok(c) && CanRelease(c, x) && CanRelease(c, y) && x != y
    ensures var r := ReleaseTwo(c, x, y);
            && Ok(r) && r.slot == c.slot && r.disk == c.disk && r.latest == c.latest
            && r.buf == c.buf[x := c.buf[x].(locked := false, refcnt := c.buf[x].refcnt - 1)]
                             [y := c.buf[y].(locked := false, refcnt := c.buf[y].refcnt - 1)]
            && r.held == Disclaim(Disclaim(c.held, x), y)
  {
    ReleaseOk(c, x);
    ReleaseOk(Release(c, x), y);
  }

  /** What holds of a cache d after balanced brackets around buffers a and b, starting from a
      quiet c in which they were picked for blocks k and l. */
  ghost predicate Bracketed(c: Cache, d: Cache, k: nat, a: nat, l: nat, b: nat) {
    && a < |c.buf| == |c.held| && b < |c.buf| && !c.buf[a].locked && !c.buf[b].locked
    && (c.held[a].pinned ==> c.buf[a].blockno == k) && (c.held[b].pinned ==> c.buf[b].blockno == l)
    && |d.buf| == |c.buf| && |d.held| == |c.held| && |d.disk| == |c.disk|
    && (forall q :: 0 <= q < |c.disk| && q != k && q != l ==> d.disk[q] == c.disk[q]) && Tidy(d, a) && Tidy(d, b)
    && d.buf[a].blockno == k && d.buf[b].blockno == l && !d.buf[a].locked && !d.buf[b].locked
    && (forall i :: 0 <= i < |c.buf| && i != a && i != b ==> d.buf[i] == c.buf[i])
    && k in d.slot && l in d.slot && d.slot[k] == a && d.slot[l] == b
    && (forall q :: q in c.slot && c.slot[q] != a && c.slot[q] != b ==> q in d.slot && d.slot[q] == c.slot[q])
  }

  lemma BracketedCalm(c: Cache, d: Cache, k: nat, a: nat, l: nat, b: nat, ks: iset<nat>)
    requires Calm(c, ks) && Ok(d) && Bracketed(c, d, k, a, l, b)
    requires forall i :: 0 <= i < |c.held| && d.held[i].pinned ==> c.held[i].pinned
    requires forall i :: 0 <= i < |c.held| && i != a && i != b ==> d.held[i] == c.held[i]
    ensures Calm(d, ks)
  {
    BufAt(c, a);
    BufAt(c, b);
    CoherentIff(d, |c.buf|);
    CoherentIff(c, |c.buf|);
    CalmIff(c, ks, |c.buf|);
    CalmIff(d, ks, |c.buf|);
  }

  lemma BracketedSteady(c: Cache, d: Cache, k: nat, a: nat, l: nat, b: nat, ks: iset<nat>)
    requires Calm(c, ks) && Ok(d) && Bracketed(c, d, k, a, l, b)
    requires forall i :: 0 <= i < |c.held| && d.held[i].pinned ==> c.held[i].pinned
    requires forall i :: 0 <= i < |c.held| && i != a && i != b ==> d.held[i] == c.held[i]
    ensures Calm(d, ks) && Steady(c, d)
  {
    BracketedCalm(c, d, k, a, l, b, ks);
    BufAt(c, a);
    BufAt(c, b);
    CoherentIff(d, |c.buf|);
    CoherentIff(c, |c.buf|);
    CalmIff(c, ks, |c.buf|);
    UndisturbedIff(c, d, |c.buf|);
  }

  function Claim(h: seq<Holders>, a: nat): seq<Holders>
    requires a < |h|
  {
    h[a := Holders(h[a].users + 1, h[a].pinned)]
  }

  function Disclaim(h: seq<Holders>, a: nat): seq<Holders>
    requires a < |h| && h[a].users > 0
  {
    h[a := h[a].(users := h[a].users - 1)]
  }

  /** Two claims and two disclaims cancel, with b unpinned in between or not. */
  lemma Balanced(h: seq<Holders>, a: nat, b: nat, keep: bool)
    requires a < |h| && b < |h| && a != b
    ensures Claim(Claim(h, a), b) == Claim(Claim(h, b), a)
    ensures var h1 := Claim(Claim(h, a), b);
            var h2 := if keep then h1 else h1[b := h1[b].(pinned := false)];
            Disclaim(Disclaim(h2, a), b) == if keep then h else h[b := Holders(h[b].users, false)]
  {
  }

  // ---------- enough buffers ----------

  /** Some buffer can be recycled. */
  ghost predicate Spare(held: seq<Holders>) {
    exists i :: 0 <= i < |held| && held[i] == Holders(0, false)
  }

  ghost predicate AllSpare(held: seq<Holders>) {
    forall i :: 0 <= i < |held| ==> held[i] == Holders(0, false)
  }

  /** bread(k) neither waits for the buffer nor runs out of buffers. */
  ghost predicate CanBread(c: Cache, k: nat) {
    k < |c.disk| && if k in c.slot then c.slot[k] < |c.buf| && !c.buf[c.slot[k]].locked
                    else exists i :: 0 <= i < |c.buf| && c.buf[i].refcnt == 0
  }

  ghost predicate CanBreadTwo(c: Cache, k: nat, l: nat) {
    CanBread(c, k) && forall a :: Picks(c, k, a) ==> CanBread(Bread(c, k, a), l)
  }

  lemma SpareBread(c: Cache, k: nat, ks: iset<nat>)
    requires Calm(c, ks) && k in ks && k < |c.disk| && Spare(c.held)
    ensures CanBread(c, k)
  {
    var i :| 0 <= i < |c.held| && c.held[i] == Holders(0, false);
    BufAt(c, i);
    CalmIff(c, ks, |c.buf|);
    if k in c.slot { SlotAt(c, k); }
  }

  /** One spare buffer is enough for two breads when the second block is pinned, */
  lemma SpareBreadPinned(c: Cache, k: nat, l: nat, ks: iset<nat>)
    requires Calm(c, ks) && k in ks && l in ks && k < |c.disk| && k != l && Spare(c.held)
    requires l in c.slot && c.slot[l] < |c.held| && c.held[c.slot[l]].pinned
    ensures CanBreadTwo(c, k, l)
  {
    SpareBread(c, k, ks);
    CalmIff(c, ks, |c.buf|);
    SlotAt(c, l);
    forall a | Picks(c, k, a) ensures CanBread(Bread(c, k, a), l) {
      BreadOk(c, k, a);
    }
  }

  /** and two are always enough. */
  lemma AllSpareBreadTwo(c: Cache, k: nat, l: nat, ks: iset<nat>)
    requires Calm(c, ks) && k in ks && l in ks && k < |c.disk| && l < |c.disk| && k != l && AllSpare(c.held)
    ensures CanBreadTwo(c, k, l)
  {
    assert c.held[0] == Holders(0, false);
    SpareBread(c, k, ks);
    CalmIff(c, ks, |c.buf|);
    forall a | Picks(c, k, a) ensures CanBread(Bread(c, k, a), l) {
      BreadOk(c, k, a);
      var r, i := Bread(c, k, a), if a == 0 then 1 else 0;
      BufAt(c, i);
      assert r.buf[i].refcnt == 0;
      if l in r.slot { SlotAt(r, l); }
    }
  }

  // ---------- one round of write_log ----------

  /** to = bread(k), from = bread(l), copy and bwrite(to): both buffers may then be released. */
  lemma LogRoundBody(c: Cache, k: nat, to: nat, l: nat, from: nat, ks: iset<nat>)
    requires Calm(c, ks) && k != l && PicksTwo(c, k, to, l, from) && l in c.slot && c.held[c.slot[l]].pinned
    ensures to != from
    ensures var c1 := BreadTwo(c, k, to, l, from);
            && Ok(c1) && Owned(c1, to) && Owned(c1, from)
            && c1.buf[to].blockno == k < |c1.disk| == |c1.latest|
            && var c2 := CopyWrite(c1, to, from);
            && Ok(c2) && CanRelease(c2, from) && CanRelease(c2, to)
  {
    BreadTwoOk(c, k, to, l, from, ks);
    var c1 := BreadTwo(c, k, to, l, from);
    CopyWriteOk(c1, to, from);
    BufAt(CopyWrite(c1, to, from), to);
    BufAt(CopyWrite(c1, to, from), from);
  }

  /** brelse(from), brelse(to): the copy is on disk and every reference is back where it was. */
  lemma LogRoundDone(c: Cache, k: nat, to: nat, l: nat, from: nat, d: Cache, ks: iset<nat>)
    requires Calm(c, ks) && k != l && PicksTwo(c, k, to, l, from) && l in c.slot && c.held[c.slot[l]].pinned
    requires to != from && BreadTwo(c, k, to, l, from).buf[to].blockno == k < |c.latest|
    requires var c2 := CopyWrite(BreadTwo(c, k, to, l, from), to, from);
             CanRelease(c2, from) && CanRelease(c2, to) && d == ReleaseTwo(c2, from, to)
    ensures Calm(d, ks) && Steady(c, d) && d.held == c.held
    ensures d.disk == c.disk[k := c.latest[l]] && d.latest == c.latest[k := c.latest[l]]
  {
    BreadTwoOk(c, k, to, l, from, ks);
    var c1 := BreadTwo(c, k, to, l, from);
    CopyWriteOk(c1, to, from);
    ReleaseTwoOk(CopyWrite(c1, to, from), from, to);
    Balanced(c.held, from, to, true);
    BracketedSteady(c, d, k, to, l, from, ks);
  }

  // ---------- one round of install_trans ----------

  /** dst is pinned for the transaction being committed; in recovery nothing is pinned. */
  ghost predicate Installable(c: Cache, l: nat, recovering: bool) {
    if recovering then forall i :: 0 <= i < |c.held| ==> !c.held[i].pinned
    else l in c.slot && c.slot[l] < |c.held| && c.held[c.slot[l]].pinned
  }

  function Unpinned(c: Cache, b: nat, recovering: bool): Cache
    requires b < |c.buf| == |c.held| && c.buf[b].refcnt > 0
  {
    if recovering then c else Unpin(c, b)
  }

  /** lbuf = bread(k), dbuf = bread(l), copy, bwrite(dbuf), and bunpin(dbuf) unless recovering. */
  lemma InstallRoundBody(c: Cache, k: nat, lbuf: nat, l: nat, dbuf: nat, recovering: bool, ks: iset<nat>)
    requires Calm(c, ks) && k != l && PicksTwo(c, k, lbuf, l, dbuf) && Installable(c, l, recovering) &&
             c.latest[k] == c.disk[k]
    ensures lbuf != dbuf
    ensures var c1 := BreadTwo(c, k, lbuf, l, dbuf);
            && Ok(c1) && Owned(c1, lbuf) && Owned(c1, dbuf)
            && c1.buf[dbuf].blockno == l < |c1.disk| == |c1.latest|
            && var c2 := CopyWrite(c1, dbuf, lbuf);
            && Ok(c2) && Owned(c2, dbuf) && c2.buf[dbuf].refcnt > 0 && (!recovering ==> c2.held[dbuf].pinned)
            && var c3 := Unpinned(c2, dbuf, recovering);
            && Ok(c3) && CanRelease(c3, lbuf) && CanRelease(c3, dbuf)
  {
    BreadTwoOk(c, k, lbuf, l, dbuf, ks);
    if !recovering { PinnedIsPicked(c, k, lbuf, l, dbuf); }
    var c1 := BreadTwo(c, k, lbuf, l, dbuf);
    CopyWriteOk(c1, dbuf, lbuf);
    UnpinRound(CopyWrite(c1, dbuf, lbuf), lbuf, dbuf, recovering);
  }

  lemma UnpinRound(c: Cache, lbuf: nat, dbuf: nat, recovering: bool)
    requires Ok(c) && Owned(c, dbuf) && Owned(c, lbuf) && OnDisk(c, dbuf) && (!recovering ==> c.held[dbuf].pinned)
    requires OnDisk(c, lbuf) || c.held[lbuf].pinned
    requires lbuf != dbuf
    ensures c.buf[dbuf].refcnt > 0
    ensures var c3 := Unpinned(c, dbuf, recovering); Ok(c3) && CanRelease(c3, lbuf) && CanRelease(c3, dbuf)
  {
    BufAt(c, dbuf);
    if !recovering { UnpinOk(c, dbuf); }
    BufAt(Unpinned(c, dbuf, recovering), lbuf);
    BufAt(Unpinned(c, dbuf, recovering), dbuf);
  }

  /** What brelse(lbuf), brelse(dbuf) leave. */
  lemma InstallRoundLeaves(c: Cache, c1: Cache, k: nat, lbuf: nat, l: nat, dbuf: nat, recovering: bool, d: Cache)
    requires Ok(c1) && Owned(c1, lbuf) && Owned(c1, dbuf) && ReadTwo(c, c1, k, lbuf, l, dbuf) && k != l
    requires c1.buf[dbuf].blockno == l < |c1.disk| == |c1.latest| && CopyWrite(c1, dbuf, lbuf).buf[dbuf].refcnt > 0
    requires var c3 := Unpinned(CopyWrite(c1, dbuf, lbuf), dbuf, recovering);
             Ok(c3) && CanRelease(c3, lbuf) && CanRelease(c3, dbuf) && d == ReleaseTwo(c3, lbuf, dbuf)
    ensures Ok(d) && Bracketed(c, d, k, lbuf, l, dbuf)
    ensures d.held == if recovering then c.held else c.held[dbuf := Holders(c.held[dbuf].users, false)]
    ensures d.disk == c.disk[l := c.latest[k]] && d.latest == c.latest[l := c.latest[k]]
  {
    CopyWriteOk(c1, dbuf, lbuf);
    ReleaseTwoOk(Unpinned(CopyWrite(c1, dbuf, lbuf), dbuf, recovering), lbuf, dbuf);
    Balanced(c.held, lbuf, dbuf, recovering);
  }

  /** The block is home, and no longer pinned. */
  lemma InstallRoundDone(c: Cache, k: nat, lbuf: nat, l: nat, dbuf: nat, recovering: bool, d: Cache, ks: iset<nat>)
    requires Calm(c, ks) && k != l && PicksTwo(c, k, lbuf, l, dbuf) && lbuf != dbuf
    requires BreadTwo(c, k, lbuf, l, dbuf).buf[dbuf].blockno == l < |c.latest|
    requires CopyWrite(BreadTwo(c, k, lbuf, l, dbuf), dbuf, lbuf).buf[dbuf].refcnt > 0
    requires var c3 := Unpinned(CopyWrite(BreadTwo(c, k, lbuf, l, dbuf), dbuf, lbuf), dbuf, recovering);
             Ok(c3) && CanRelease(c3, lbuf) && CanRelease(c3, dbuf) && d == ReleaseTwo(c3, lbuf, dbuf)
    ensures Calm(d, ks) && Steady(c, d)
    ensures d.held == if recovering then c.held else c.held[dbuf := Holders(c.held[dbuf].users, false)]
    ensures d.disk == c.disk[l := c.latest[k]] && d.latest == c.latest[l := c.latest[k]]
  {
    BreadTwoOk(c, k, lbuf, l, dbuf, ks);
    InstallRoundLeaves(c, BreadTwo(c, k, lbuf, l, dbuf), k, lbuf, l, dbuf, recovering, d);
    BracketedSteady(c, d, k, lbuf, l, dbuf, ks);
  }

  // ---------- write_head and read_head ----------

  /** b = bread(k), store d in it, bwrite(b), brelse(b) */
  lemma HeadRound(c: Cache, k: nat, b: nat, d: Block, ks: iset<nat>)
    requires Calm(c, ks) && Picks(c, k, b)
    ensures var c1 := Bread(c, k, b);
            && Ok(c1) && Owned(c1, b) && c1.buf[b].blockno == k < |c1.disk| == |c1.latest| &&
               c1.buf[b].data == c.latest[k]
            && var c2 := Write(Modify(c1, b, d), b);
            && Ok(Modify(c1, b, d)) && Owned(Modify(c1, b, d), b) && Ok(c2) && CanRelease(c2, b)
            && var c3 := Release(c2, b);
            && Calm(c3, ks) && Steady(c, c3) && c3.held == c.held
            && c3.disk == c.disk[k := d] && c3.latest == c.latest[k := d]
  {
    BreadOk(c, k, b);
    var c1 := Bread(c, k, b);
    ModifyOk(c1, b, d);
    WriteOk(Modify(c1, b, d), b);
    var c2 := Write(Modify(c1, b, d), b);
    CalmBread(c, k, b, ks);
    BufAt(c2, b);
    ReleaseOk(c2, b);
    SingleSteady(c, Release(c2, b), k, b, ks);
  }

  /** b = bread(k), brelse(b) */
  lemma ReadRound(c: Cache, k: nat, b: nat, ks: iset<nat>)
    requires Calm(c, ks) && Picks(c, k, b) && c.latest[k] == c.disk[k]
    ensures var c1 := Bread(c, k, b);
            && Ok(c1) && Owned(c1, b) && c1.buf[b].data == c.latest[k] && CanRelease(c1, b)
            && var c3 := Release(c1, b);
            && Calm(c3, ks) && Steady(c, c3) && c3.held == c.held && c3.disk == c.disk && c3.latest == c.latest
  {
    BreadOk(c, k, b);
    var c1 := Bread(c, k, b);
    CalmBread(c, k, b, ks);
    BufAt(c1, b);
    ReleaseOk(c1, b);
    SingleSteady(c, Release(c1, b), k, b, ks);
  }

  lemma SingleCalm(c: Cache, d: Cache, k: nat, b: nat, ks: iset<nat>)
    requires Calm(c, ks) && Ok(d) && b < |c.buf| && |d.disk| == |c.disk|
    requires c.held[b].pinned ==> c.buf[b].blockno == k
    requires d.buf[b].blockno == k && !d.buf[b].locked && d.held == Disclaim(Claim(c.held, b), b)
    requires !c.buf[b].locked && forall i :: 0 <= i < |c.buf| && i != b ==> d.buf[i] == c.buf[i]
    requires (forall q :: 0 <= q < |c.disk| && q != k ==> d.disk[q] == c.disk[q]) && Tidy(d, b)
    requires k in d.slot && d.slot[k] == b
    requires forall q :: q in c.slot && c.slot[q] != b ==> q in d.slot && d.slot[q] == c.slot[q]
    ensures Calm(d, ks) && d.held == c.held
  {
    BufAt(c, b);
    CoherentIff(c, |c.buf|);
    CoherentIff(d, |c.buf|);
    CalmIff(c, ks, |c.buf|);
    CalmIff(d, ks, |c.buf|);
  }

  lemma SingleSteady(c: Cache, d: Cache, k: nat, b: nat, ks: iset<nat>)
    requires Calm(c, ks) && Ok(d) && b < |c.buf| && |d.disk| == |c.disk|
    requires c.held[b].pinned ==> c.buf[b].blockno == k
    requires d.buf[b].blockno == k && !d.buf[b].locked && d.held == Disclaim(Claim(c.held, b), b)
    requires !c.buf[b].locked && forall i :: 0 <= i < |c.buf| && i != b ==> d.buf[i] == c.buf[i]
    requires (forall q :: 0 <= q < |c.disk| && q != k ==> d.disk[q] == c.disk[q]) && Tidy(d, b)
    requires k in d.slot && d.slot[k] == b
    requires forall q :: q in c.slot && c.slot[q] != b ==> q in d.slot && d.slot[q] == c.slot[q]
    ensures Calm(d, ks) && Steady(c, d) && d.held == c.held
  {
    SingleCalm(c, d, k, b, ks);
    BufAt(c, b);
    CoherentIff(c, |c.buf|);
    CoherentIff(d, |c.buf|);
    CalmIff(c, ks, |c.buf|);
    UndisturbedIff(c, d, |c.buf|);
  }
}
