/** What one step of kernel/bio.c does to the contents of the cache, and the invariant that
    ties the cache to the disk behind it. */
module CacheSpec {
  import opened Blocks

  const NBUF := 30
  const ROOTDEV := 1

  /** struct buf, without its list pointers */
  datatype Buf = Buf(dev: nat, blockno: nat, valid: bool, refcnt: nat, locked: bool, data: Block)

  /** Who keeps a buffer referenced: processes between bget and brelse, and the log. */
  datatype Holders = Holders(users: nat, pinned: bool)

  /** The buffers with their holders, the buffer that holds each cached block, the disk, and
      what the last modification of each block stored. */
  datatype Cache = Cache(buf: seq<Buf>, held: seq<Holders>, slot: map<nat, nat>, disk: seq<Block>, latest: seq<Block>)

  /** A valid buffer holds the latest contents of its block. */
  ghost predicate BufOk(b: Buf, h: Holders, disk: seq<Block>, latest: seq<Block>) {
    && |disk| == |latest|
    && b.refcnt == h.users + (if h.pinned then 1 else 0)
    && (b.locked ==> h.users > 0)
    && (h.pinned ==> b.valid)
    && (b.dev == 0 ==> !b.valid && b.refcnt == 0)
    && (b.dev != 0 ==> b.dev == ROOTDEV && b.blockno < |disk|)
    && (b.valid ==> b.data == latest[b.blockno])
  }

  /** Every block held by a buffer has one slot, so no two buffers hold the same block, and
      a block that no valid buffer holds is up to date on the disk. */
  ghost predicate Indexed(c: Cache) {
    && |c.buf| == |c.held| && |c.disk| == |c.latest|
    && (forall i :: 0 <= i < |c.buf| && c.buf[i].dev != 0 ==>
           c.buf[i].blockno in c.slot && c.slot[c.buf[i].blockno] == i)
    && (forall k :: k in c.slot ==> c.slot[k] < |c.buf| && c.buf[c.slot[k]].dev != 0 && c.buf[c.slot[k]].blockno == k)
    && (forall k :: 0 <= k < |c.disk| && (k in c.slot ==> !c.buf[c.slot[k]].valid) ==> c.latest[k] == c.disk[k])
  }

  /** The first m buffers are in order, and so is the index. */
  ghost predicate Coherent(c: Cache, m: nat) {
    if m == 0 then Indexed(c)
    else m <= |c.buf| == |c.held| && BufOk(c.buf[m-1], c.held[m-1], c.disk, c.latest) && Coherent(c, m - 1)
  }

  ghost predicate Ok(c: Cache) {
    |c.buf| == |c.held| == NBUF && |c.disk| == |c.latest| && Coherent(c, |c.buf|)
  }

  lemma {:induction false} CoherentIff(c: Cache, m: nat)
    requires m <= |c.buf|
    ensures Coherent(c, m) <==> Indexed(c) && forall i :: 0 <= i < m ==> BufOk(c.buf[i], c.held[i], c.disk, c.latest)
  {
    if m > 0 {
      CoherentIff(c, m - 1);
    }
  }

  lemma BufAt(c: Cache, i: nat)
    requires Ok(c) && i < NBUF
    ensures BufOk(c.buf[i], c.held[i], c.disk, c.latest)
    ensures c.buf[i].dev != 0 ==> c.buf[i].blockno in c.slot && c.slot[c.buf[i].blockno] == i
  {
    CoherentIff(c, |c.buf|);
  }

  lemma SlotAt(c: Cache, k: nat)
    requires Ok(c) && k in c.slot
    ensures c.slot[k] < NBUF && k < |c.disk| && c.buf[c.slot[k]].dev == ROOTDEV && c.buf[c.slot[k]].blockno == k
    ensures BufOk(c.buf[c.slot[k]], c.held[c.slot[k]], c.disk, c.latest)
  {
    CoherentIff(c, |c.buf|);
  }

  // ---------- the steps ----------

  /** bget on a cached block */
  function Hit(c: Cache, b: nat): Cache
    requires b < |c.buf| == |c.held|
  {
    c.(buf := c.buf[b := c.buf[b].(refcnt := c.buf[b].refcnt + 1)],
       held := c.held[b := c.held[b].(users := c.held[b].users + 1)])
  }

  /** The latest contents, once buffer b no longer has its block: a modification that was neither logged nor
      written is lost. */
  function Forgotten(c: Cache, b: nat): seq<Block>
    requires b < |c.buf|
  {
    var k := c.buf[b].blockno;
    if c.buf[b].valid && k < |c.disk| && k < |c.latest| then c.latest[k := c.disk[k]] else c.latest
  }

  /** bget recycling buffer b for block k */
  function Recycle(c: Cache, b: nat, k: nat): Cache
    requires b < |c.buf| == |c.held|
  {
    c.(buf := c.buf[b := c.buf[b].(dev := ROOTDEV, blockno := k, valid := false, refcnt := 1)],
       held := c.held[b := c.held[b].(users := c.held[b].users + 1)],
       slot := (map q | q in c.slot && c.slot[q] != b :: c.slot[q])[k := b],
       latest := Forgotten(c, b))
  }

  /** acquiresleep(&b->lock) */
  function Lock(c: Cache, b: nat): Cache
    requires b < |c.buf|
  {
    c.(buf := c.buf[b := c.buf[b].(locked := true)])
  }

  /** the disk read of bread */
  function Fill(c: Cache, b: nat): Cache
    requires b < |c.buf| && c.buf[b].blockno < |c.disk|
  {
    if c.buf[b].valid then c
    else c.(buf := c.buf[b := c.buf[b].(valid := true, data := c.disk[c.buf[b].blockno])])
  }

  /** the holder of the lock changes the buffer in memory */
  function Modify(c: Cache, b: nat, d: Block): Cache
    requires b < |c.buf| && c.buf[b].blockno < |c.latest|
  {
    c.(buf := c.buf[b := c.buf[b].(data := d)], latest := c.latest[c.buf[b].blockno := d])
  }

  /** bwrite */
  function Write(c: Cache, b: nat): Cache
    requires b < |c.buf| && c.buf[b].blockno < |c.disk|
  {
    c.(disk := c.disk[c.buf[b].blockno := c.buf[b].data])
  }

  /** releasesleep(&b->lock) and the decrement of brelse */
  function Release(c: Cache, b: nat): Cache
    requires b < |c.buf| == |c.held| && c.buf[b].refcnt > 0 && c.held[b].users > 0
  {
    c.(buf := c.buf[b := c.buf[b].(locked := false, refcnt := c.buf[b].refcnt - 1)],
       held := c.held[b := c.held[b].(users := c.held[b].users - 1)])
  }

  /** bpin */
  function Pin(c: Cache, b: nat): Cache
    requires b < |c.buf| == |c.held|
  {
    c.(buf := c.buf[b := c.buf[b].(refcnt := c.buf[b].refcnt + 1)], held := c.held[b := c.held[b].(pinned := true)])
  }

  /** bunpin */
  function Unpin(c: Cache, b: nat): Cache
    requires b < |c.buf| == |c.held| && c.buf[b].refcnt > 0
  {
    c.(buf := c.buf[b := c.buf[b].(refcnt := c.buf[b].refcnt - 1)], held := c.held[b := c.held[b].(pinned := false)])
  }

  /** The caller owns the lock of a buffer that holds its block. */
  ghost predicate Owned(c: Cache, b: nat) {
    b < |c.buf| && c.buf[b].locked && c.buf[b].valid
  }

  ghost predicate OnDisk(c: Cache, b: nat)
    requires b < |c.buf|
  {
    c.buf[b].blockno < |c.disk| && c.buf[b].data == c.disk[c.buf[b].blockno]
  }

  // ---------- every step keeps the cache coherent ----------

  lemma HitOk(c: Cache, b: nat)
    requires Ok(c) && b < NBUF && c.buf[b].dev != 0
    ensures Ok(Hit(c, b))
  {
    CoherentIff(c, |c.buf|);
    CoherentIff(Hit(c, b), |c.buf|);
  }

  lemma RecycleOk(c: Cache, b: nat, k: nat)
    requires Ok(c) && b < NBUF && c.buf[b].refcnt == 0 && k < |c.disk| && k !in c.slot
    ensures Ok(Recycle(c, b, k))
  {
    CoherentIff(c, |c.buf|);
    RecycleIndexed(c, b, k);
    CoherentIff(Recycle(c, b, k), |c.buf|);
  }

  lemma RecycleIndexed(c: Cache, b: nat, k: nat)
    requires Indexed(c) && b < |c.buf| && k < |c.disk| && k !in c.slot && (c.buf[b].valid ==> c.buf[b].dev != 0)
    ensures Indexed(Recycle(c, b, k))
  {
    var r := Recycle(c, b, k);
    forall q | 0 <= q < |r.disk| && (q in r.slot ==> !r.buf[r.slot[q]].valid) ensures r.latest[q] == r.disk[q] {
      assert q in c.slot && c.slot[q] != b ==> r.slot[q] == c.slot[q];
    }
  }

  /** Recycling loses nothing exactly when the buffer is as its block on disk. */
  lemma RecycleLosesNothingIff(c: Cache, b: nat, k: nat)
    requires Ok(c) && b < NBUF && c.buf[b].valid
    ensures Recycle(c, b, k).latest == c.latest <==> OnDisk(c, b)
  {
    BufAt(c, b);
    if Recycle(c, b, k).latest == c.latest {
      assert Recycle(c, b, k).latest[c.buf[b].blockno] == c.disk[c.buf[b].blockno];
    }
  }

  lemma LockOk(c: Cache, b: nat)
    requires Ok(c) && b < NBUF && c.held[b].users > 0
    ensures Ok(Lock(c, b))
  {
    CoherentIff(c, |c.buf|);
    CoherentIff(Lock(c, b), |c.buf|);
  }

  /** bread leaves the latest contents of its block in the buffer. */
  lemma FillOk(c: Cache, b: nat)
    requires Ok(c) && b < NBUF && c.buf[b].locked
    ensures c.buf[b].blockno < |c.disk|
    ensures Ok(Fill(c, b)) && Fill(c, b).buf[b].valid && Fill(c, b).buf[b].data == c.latest[c.buf[b].blockno]
  {
    CoherentIff(c, |c.buf|);
    CoherentIff(Fill(c, b), |c.buf|);
  }

  lemma ModifyOk(c: Cache, b: nat, d: Block)
    requires Ok(c) && b < NBUF && Owned(c, b)
    ensures c.buf[b].blockno < |c.disk| && Ok(Modify(c, b, d))
  {
    CoherentIff(c, |c.buf|);
    CoherentIff(Modify(c, b, d), |c.buf|);
  }

  lemma WriteOk(c: Cache, b: nat)
    requires Ok(c) && b < NBUF && Owned(c, b)
    ensures c.buf[b].blockno < |c.disk| && Ok(Write(c, b))
  {
    CoherentIff(c, |c.buf|);
    CoherentIff(Write(c, b), |c.buf|);
  }

  lemma ReleaseOk(c: Cache, b: nat)
    requires Ok(c) && b < NBUF && Owned(c, b)
    ensures c.buf[b].refcnt > 0 && c.held[b].users > 0 && Ok(Release(c, b))
  {
    CoherentIff(c, |c.buf|);
    CoherentIff(Release(c, b), |c.buf|);
  }

  lemma PinOk(c: Cache, b: nat)
    requires Ok(c) && b < NBUF && Owned(c, b) && !c.held[b].pinned
    ensures Ok(Pin(c, b))
  {
    CoherentIff(c, |c.buf|);
    CoherentIff(Pin(c, b), |c.buf|);
  }

  lemma UnpinOk(c: Cache, b: nat)
    requires Ok(c) && b < NBUF && Owned(c, b) && c.held[b].pinned
    ensures c.buf[b].refcnt > 0 && Ok(Unpin(c, b))
  {
    CoherentIff(c, |c.buf|);
    CoherentIff(Unpin(c, b), |c.buf|);
  }
}
