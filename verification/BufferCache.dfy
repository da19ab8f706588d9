/** kernel/bio.c: the LRU buffer cache in front of the disk.

    Every method is one step that a process performs while holding bcache.lock or
    the buffer's sleep-lock, so a run of the cache under any interleaving of
    processes is a sequence of calls. `Valid` is what all of them keep. */
module BufferCache {
  import opened Sequences
  import opened Blocks
  import opened Wrappers
  import opened CacheSpec
  import O = CacheOps
  import L = BufferList

  const HEAD := NBUF

  class Bcache {
    var buf: seq<Buf>
    var next: seq<nat>
    var prev: seq<nat>
    var disk: seq<Block>

    ghost var held: seq<Holders>
    ghost var slot: map<nat, nat>
    ghost var latest: seq<Block>
    ghost var order: seq<nat>
    ghost var stamp: seq<nat>
    ghost var clock: nat
    ghost var history: seq<seq<Block>>  // the disk after each block write so far

    ghost function View(): Cache
      reads this
    {
      Cache(buf, held, slot, disk, latest)
    }

    ghost function List(): L.Lru
      reads this
    {
      L.Lru(next, prev, order, stamp, clock)
    }

    ghost predicate Valid()
      reads this
    {
      Ok(View()) && |next| == |prev| == NBUF + 1 && |stamp| == NBUF && L.Holds(List(), |buf|, |buf|)
    }

    /** binit, over a disk with the given contents. */
    constructor (contents: seq<Block>)
      ensures Valid()
      ensures disk == latest == contents && history == [] && slot == map[]
      ensures held == seq(NBUF, _ => Holders(0, false))
      ensures buf == seq(NBUF, _ => Buf(0, 0, false, 0, false, ZeroBlock()))
    {
      buf := seq(NBUF, _ => Buf(0, 0, false, 0, false, ZeroBlock()));
      next := seq(NBUF + 1, _ => HEAD);
      prev := seq(NBUF + 1, _ => HEAD);
      disk := contents;
      order, stamp, clock, slot := [], seq(NBUF, _ => 0), 0, map[];
      held := seq(NBUF, _ => Holders(0, false));
      latest, history := contents, [];
      new;
      LinkAll();
      CoherentIff(View(), |buf|);
    }

    /** The loop of binit: push every buffer onto the empty list. */
    method LinkAll()
      requires |buf| == NBUF && next == prev == seq(NBUF + 1, _ => HEAD)
      requires order == [] && stamp == seq(NBUF, _ => 0) && clock == 0
      modifies `next, `prev, `order, `stamp, `clock
      ensures |next| == |prev| == NBUF + 1 && |stamp| == NBUF && L.Holds(List(), |buf|, |buf|)
    {
      var b := 0;
      while b < NBUF
        invariant 0 <= b <= NBUF
        invariant L.Linked(next, prev, order, NBUF) && |stamp| == NBUF
        invariant |order| == clock == b
        invariant forall k :: 0 <= k < |order| ==> order[k] == b - 1 - k && stamp[order[k]] == order[k] + 1
      {
        L.PushFront(next, prev, order, NBUF, b);
        next := next[b := next[HEAD]];
        prev := prev[b := HEAD];
        prev := prev[next[HEAD] := b];
        next := next[HEAD := b];
        order := [b] + order;
        clock := clock + 1;
        stamp := stamp[b := clock];
        b := b + 1;
      }
      forall i | 0 <= i < NBUF ensures i in order {
        assert order[NBUF - 1 - i] == i;
      }
      L.HoldsIff(List(), |buf|, |buf|);
    }

    /** The first loop of bget. */
    method Find(k: nat) returns (r: Option<nat>)
      requires Valid()
      ensures r == if k in slot then Some(slot[k]) else None
    {
      L.HoldsIff(List(), |buf|, |buf|);
      var b := next[HEAD];
      ghost var i := 0;
      while b != HEAD
        invariant 0 <= i <= |order|
        invariant b == if i < |order| then order[i] else HEAD
        invariant forall j :: 0 <= j < i ==> !(buf[order[j]].dev == ROOTDEV && buf[order[j]].blockno == k)
        decreases |order| - i
      {
        if buf[b].dev == ROOTDEV && buf[b].blockno == k {
          BufAt(View(), b);
          return Some(b);
        }
        b := next[b];
        i := i + 1;
      }
      if k in slot {
        SlotAt(View(), k);
        ghost var p := L.Position(List(), |buf|, slot[k]);
        assert false;
      }
      return None;
    }

    /** The second loop of bget: the unreferenced buffer that was moved to the list head
        longest ago. */
    method FindUnused() returns (r: Option<nat>)
      requires Valid()
      ensures r.None? <==> forall j :: 0 <= j < NBUF ==> buf[j].refcnt > 0
      ensures r.Some? ==> r.value < NBUF && buf[r.value].refcnt == 0
      ensures r.Some? ==> forall j :: 0 <= j < NBUF && buf[j].refcnt == 0 ==> stamp[r.value] <= stamp[j]
    {
      L.HoldsIff(List(), |buf|, |buf|);
      var b := prev[HEAD];
      ghost var i := |order|;
      while b != HEAD
        invariant 0 <= i <= |order|
        invariant b == if i > 0 then order[i-1] else HEAD
        invariant forall j :: i <= j < |order| ==> buf[order[j]].refcnt != 0
        decreases i
      {
        if buf[b].refcnt == 0 {
          L.LeastStamp(List(), |buf|, (set j | 0 <= j < NBUF && buf[j].refcnt == 0), i - 1);
          return Some(b);
        }
        b := prev[b];
        i := i - 1;
      }
      forall j | 0 <= j < NBUF ensures buf[j].refcnt > 0 {
        assert j in order;
      }
      return None;
    }

    /** bget up to the release of bcache.lock: the buffer holding block k, or the least
        recently used unreferenced buffer recycled for k. None is the "no buffers" panic. */
    method Bget(k: nat) returns (r: Option<nat>)
      requires Valid() && k < |disk|
      modifies `buf, `slot, `held, `latest
      ensures Valid()
      ensures r.None? <==> k !in old(slot) && forall j :: 0 <= j < NBUF ==> old(buf)[j].refcnt > 0
      ensures r.None? ==> View() == old(View())
      ensures k in old(slot) ==>
                r == Some(old(slot)[k]) && old(slot)[k] < NBUF && View() == Hit(old(View()), old(slot)[k])
      ensures r.Some? && k !in old(slot) ==>
                && r.value < NBUF && old(buf)[r.value].refcnt == 0 && View() == Recycle(old(View()), r.value, k)
                && forall j :: 0 <= j < NBUF && old(buf)[j].refcnt == 0 ==> stamp[r.value] <= stamp[j]
    {
      r := Find(k);
      if r.Some? {
        var b := r.value;
        SlotAt(View(), k);
        HitOk(View(), b);
        buf := buf[b := buf[b].(refcnt := buf[b].refcnt + 1)];
        held := held[b := held[b].(users := held[b].users + 1)];
        return;
      }
      r := FindUnused();
      if r.Some? {
        var b := r.value;
        RecycleOk(View(), b, k);
        latest, slot := Forgotten(View(), b), Recycle(View(), b, k).slot;
        buf := buf[b := buf[b].(dev := ROOTDEV, blockno := k, valid := false, refcnt := 1)];
        held := held[b := held[b].(users := held[b].users + 1)];
      }
    }

    /** acquiresleep(&b->lock), once the lock is free. */
    method Acquire(b: nat)
      requires Valid() && b < NBUF && !buf[b].locked && held[b].users > 0
      modifies `buf
      ensures Valid() && View() == Lock(old(View()), b)
    {
      LockOk(View(), b);
      buf := buf[b := buf[b].(locked := true)];
    }

    /** The rest of bread: the locked buffer ends with the latest contents of its block. */
    method ReadIn(b: nat)
      requires Valid() && b < NBUF && buf[b].locked
      modifies `buf
      ensures Valid() && old(buf)[b].blockno < |disk| && View() == Fill(old(View()), b)
      ensures buf[b].valid && buf[b].data == latest[buf[b].blockno]
    {
      FillOk(View(), b);
      if !buf[b].valid {
        buf := buf[b := buf[b].(valid := true, data := disk[buf[b].blockno])];
      }
    }

    /** The holder of the lock changes the buffer in memory. */
    method Store(b: nat, d: Block)
      requires Valid() && Owned(View(), b)
      modifies `buf, `latest
      ensures Valid() && old(buf)[b].blockno < |disk| && View() == Modify(old(View()), b, d)
    {
      ModifyOk(View(), b, d);
      buf := buf[b := buf[b].(data := d)];
      latest := latest[buf[b].blockno := d];
    }

    /** bwrite */
    method Bwrite(b: nat)
      requires Valid() && Owned(View(), b)
      modifies `disk, `history
      ensures Valid() && buf[b].blockno < |disk| && View() == Write(old(View()), b)
      ensures history == old(history) + [disk]
    {
      WriteOk(View(), b);
      disk := disk[buf[b].blockno := buf[b].data];
      history := history + [disk];
    }

    /** brelse: drop the reference; at zero, move the buffer to the list head. */
    method Brelse(b: nat)
      requires Valid() && Owned(View(), b)
      modifies `buf, `held, `next, `prev, `order, `stamp, `clock
      ensures Valid() && old(buf)[b].refcnt > 0 && old(held)[b].users > 0 && View() == Release(old(View()), b)
      ensures buf[b].refcnt > 0 ==> List() == old(List())
      ensures buf[b].refcnt == 0 ==> next[HEAD] == b && clock == old(clock) + 1 && stamp == old(stamp)[b := clock]
    {
      ReleaseOk(View(), b);
      buf := buf[b := buf[b].(locked := false)];
      buf := buf[b := buf[b].(refcnt := buf[b].refcnt - 1)];
      held := held[b := held[b].(users := held[b].users - 1)];
      assert View() == Release(old(View()), b);
      if buf[b].refcnt == 0 {
        MoveToHead(b);
      }
    }

    method MoveToHead(b: nat)
      requires b < |buf| == NBUF && |next| == |prev| == NBUF + 1 && |stamp| == NBUF && L.Holds(List(), |buf|, |buf|)
      modifies `next, `prev, `order, `stamp, `clock
      ensures |next| == |prev| == NBUF + 1 && |stamp| == NBUF && L.Holds(List(), |buf|, |buf|)
      ensures next[HEAD] == b && clock == old(clock) + 1 && stamp == old(stamp)[b := clock]
    {
      ghost var k := L.Position(List(), |buf|, b);
      L.MovedHolds(List(), |buf|, k);
      var nx, pv := next[b], prev[b];
      prev := prev[nx := pv];
      next := next[pv := nx];
      next := next[b := next[HEAD]];
      prev := prev[b := HEAD];
      prev := prev[next[HEAD] := b];
      next := next[HEAD := b];
      order := [b] + Without(order, k);
      clock := clock + 1;
      stamp := stamp[b := clock];
      assert List() == L.Moved(old(List()), |buf|, b, k);
    }

    /** bpin: the log keeps the buffer cached until it is installed. */
    method Bpin(b: nat)
      requires Valid() && Owned(View(), b) && !held[b].pinned
      modifies `buf, `held
      ensures Valid() && View() == Pin(old(View()), b)
    {
      PinOk(View(), b);
      buf := buf[b := buf[b].(refcnt := buf[b].refcnt + 1)];
      held := held[b := held[b].(pinned := true)];
    }

    /** bunpin */
    method Bunpin(b: nat)
      requires Valid() && Owned(View(), b) && held[b].pinned
      modifies `buf, `held
      ensures Valid() && old(buf)[b].refcnt > 0 && View() == Unpin(old(View()), b)
    {
      UnpinOk(View(), b);
      buf := buf[b := buf[b].(refcnt := buf[b].refcnt - 1)];
      held := held[b := held[b].(pinned := false)];
    }

    /** bread, once nobody else holds the buffer: the caller owns a buffer with the latest
        contents of block k. */
    method Bread(k: nat) returns (b: nat)
      requires Valid() && O.CanBread(View(), k)
      modifies `buf, `slot, `held, `latest
      ensures Valid() && O.Picks(old(View()), k, b) && View() == O.Bread(old(View()), k, b)
    {
      var r := Bget(k);
      b := r.value;
      if k in old(slot) { SlotAt(old(View()), k); }
      BufAt(old(View()), b);
      Acquire(b);
      ReadIn(b);
    }

    method BreadTwo(k: nat, l: nat) returns (a: nat, b: nat)
      requires Valid() && O.CanBreadTwo(View(), k, l)
      modifies `buf, `slot, `held, `latest
      ensures Valid() && O.PicksTwo(old(View()), k, a, l, b) && View() == O.BreadTwo(old(View()), k, a, l, b)
    {
      a := Bread(k);
      b := Bread(l);
    }

    /** The contents of buffer y are copied to buffer x, which is written. */
    method CopyWrite(x: nat, y: nat)
      requires Valid() && Owned(View(), x) && Owned(View(), y) && x != y
      modifies `buf, `latest, `disk, `history
      ensures Valid() && old(buf)[x].blockno < |old(disk)| && View() == O.CopyWrite(old(View()), x, y)
      ensures history == old(history) + [disk]
    {
      Store(x, buf[y].data);
      Bwrite(x);
    }

    method BrelseTwo(x: nat, y: nat)
      requires Valid() && O.CanRelease(View(), x) && O.CanRelease(View(), y) && x != y
      modifies `buf, `held, `next, `prev, `order, `stamp, `clock
      ensures Valid() && View() == O.ReleaseTwo(old(View()), x, y)
    {
      Brelse(x);
      Brelse(y);
    }
  }
}
