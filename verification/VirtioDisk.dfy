/** The driver of kernel/virtio_disk.c: every method is what runs under vdisk_lock without sleeping. */
module VirtioDisk {
  import opened Wrappers
  import opened Virtqueue

  // ---------- the invariant, one descriptor at a time ----------

  /** The requests and the rings are in order, and so are the first k descriptors. */
  predicate Sound(v: Vq, k: nat) {
    if k == 0 then
      && Shape(v) && (forall h :: h in v.reqs ==> ChainOk(v, h))
      && Phases(v) && Rings(v) && CountFree(v.free) + 3 * |v.reqs| == NUM
    else Shape(v) && k <= NUM && DescOk(v, k - 1) && Sound(v, k - 1)
  }

  predicate Ok(v: Vq) {
    |v.free| == NUM && Sound(v, |v.free|)
  }

  lemma {:induction false} SoundIff(v: Vq, k: nat)
    requires k <= NUM
    ensures Sound(v, k) <==> Sound(v, 0) && forall i :: 0 <= i < k ==> DescOk(v, i)
  {
    if k > 0 {
      SoundIff(v, k - 1);
    }
  }

  lemma OkIff(v: Vq)
    ensures Ok(v) <==> Inv(v)
  {
    if |v.free| == NUM {
      SoundIff(v, |v.free|);
    }
  }

  lemma SubmitOk(v: Vq, h: nat, r: Request)
    requires Ok(v) && Chosen(v, h, r) && forall g :: g in v.reqs ==> v.reqs[g].buf != r.buf
    ensures Ok(Submit(v, h, r)) && h !in v.reqs
  {
    OkIff(v);
    SubmitInv(v, h, r);
    OkIff(Submit(v, h, r));
  }

  lemma FetchOk(v: Vq)
    requires Ok(v) && v.waiting != []
    ensures |v.avail| == NUM && v.waiting[0] in v.reqs && Ok(Fetch(v)) && v.waiting[0] == v.avail[v.fetched % 8]
  {
    OkIff(v);
    FetchInv(v);
    OkIff(Fetch(v));
  }

  lemma CompleteOk(v: Vq, h: nat)
    requires Ok(v) && h in v.reqs && v.reqs[h].phase == Device
    ensures Shape(v) && h < NUM && Carries(v.st, v.reqs[h]) && Ok(Completed(v, h, Transferred(v.st, v.reqs[h]), h))
  {
    OkIff(v);
    CompleteInv(v, h);
    ServeIs(v, h);
    assert ChainOk(v, h);
    OkIff(Complete(v, h));
  }

  lemma ServeOk(v: Vq, h: nat)
    requires Ok(v) && h in v.reqs
    ensures Servable(v, h) && Carries(v.st, v.reqs[h]) && Serve(v, h) == Transferred(v.st, v.reqs[h])
    ensures v.desc[v.desc[v.desc[h].next].next].addr == Status(h)
  {
    OkIff(v);
    ServeIs(v, h);
    assert ChainOk(v, h);
  }

  lemma HandleOk(v: Vq)
    requires Ok(v) && v.finished != []
    ensures Shape(v) && v.finished[0] in v.reqs && v.finished[0] < NUM && Ok(Handle(v))
    ensures var h := v.finished[0]; v.used[v.seenIdx % 8] == h && v.info[h] == Info(Some(v.reqs[h].buf), 0)
  {
    OkIff(v);
    HandleInv(v);
    OkIff(Handle(v));
  }

  lemma CaughtOk(v: Vq)
    requires Ok(v)
    ensures v.seenIdx == v.usedIdx <==> v.finished == []
  {
    OkIff(v);
    Caught(v);
  }

  lemma FinishOk(v: Vq, h: nat)
    requires Ok(v) && h in v.reqs && v.reqs[h].buf !in v.busy
    ensures Shape(v) && ChainOk(v, h) && !v.free[h] && !v.free[v.reqs[h].mid] && !v.free[v.reqs[h].tail] &&
            Ok(Finish(v, h))
  {
    OkIff(v);
    DoneIsSeen(v, h);
    FinishInv(v, h);
    OkIff(Finish(v, h));
    assert DescOk(v, h) && DescOk(v, v.reqs[h].mid) && DescOk(v, v.reqs[h].tail);
  }

  lemma FreeOk(v: Vq)
    requires Ok(v)
    ensures Shape(v) && (forall i :: 0 <= i < NUM && v.free[i] ==> v.desc[i] == NODESC) &&
            CountFree(v.free) + 3 * |v.reqs| == NUM
  {
    OkIff(v);
    forall i | 0 <= i < NUM && v.free[i] ensures v.desc[i] == NODESC {
      assert DescOk(v, i);
    }
  }

  /** A buffer that is not busy any more has had its interrupt. */
  lemma DoneIsSeen(v: Vq, h: nat)
    requires Inv(v) && h in v.reqs && v.reqs[h].buf !in v.busy
    ensures v.reqs[h].phase == Seen
  {
    assert PhaseOk(v, h);
  }

  // ---------- descriptors ----------

  /** alloc_desc: the first free descriptor, or NUM. */
  method AllocDesc(free: seq<bool>) returns (i: nat, f: seq<bool>)
    requires |free| == NUM
    ensures i <= NUM && forall j :: 0 <= j < i ==> !free[j]
    ensures if i < NUM then free[i] && f == free[i := false] else f == free
  {
    i := 0;
    while i < NUM
      invariant 0 <= i <= NUM && forall j :: 0 <= j < i ==> !free[j]
    {
      if free[i] {
        return i, free[i := false];
      }
      i := i + 1;
    }
    return NUM, free;
  }

  /** free_desc; its panics are what it requires. */
  method FreeDesc(free: seq<bool>, desc: seq<Desc>, i: nat) returns (f: seq<bool>, d: seq<Desc>)
    requires |free| == NUM && |desc| == NUM && i < NUM && !free[i]
    ensures f == free[i := true] && d == desc[i := NODESC]
  {
    f, d := free[i := true], desc[i := NODESC];
  }

  lemma {:induction false} NoneFree(free: seq<bool>)
    requires forall i :: 0 <= i < |free| ==> !free[i]
    ensures CountFree(free) == 0
  {
    if free != [] {
      NoneFree(free[1..]);
    }
  }

  /** alloc3_desc: three descriptors, or none when fewer than three are free. */
  method Alloc3Desc(free: seq<bool>, desc: seq<Desc>) returns (ok: bool, idx: seq<nat>, f: seq<bool>, d: seq<Desc>)
    requires |free| == NUM && |desc| == NUM && forall i :: 0 <= i < NUM && free[i] ==> desc[i] == NODESC
    ensures ok <==> CountFree(free) >= 3
    ensures ok ==>
              |idx| == 3 && (forall j :: 0 <= j < 3 ==> idx[j] < NUM && free[idx[j]]) && idx[0] != idx[1] &&
              idx[0] != idx[2] && idx[1] != idx[2]
    ensures ok ==> f == free[idx[0] := false][idx[1] := false][idx[2] := false] && d == desc
    ensures !ok ==> f == free && d == desc
  {
    idx, f, d := [], free, desc;
    var a, b, c;
    a, f := AllocDesc(f);
    if a == NUM {
      NoneFree(free);
      return false, [], free, desc;
    }
    CountSet(free, a, false);
    ghost var f1 := f;
    b, f := AllocDesc(f);
    if b == NUM {
      NoneFree(f1);
      f, d := FreeDesc(f, d, a);
      assert f == free && d == desc;
      return false, [], f, d;
    }
    CountSet(f1, b, false);
    ghost var f2 := f;
    c, f := AllocDesc(f);
    if c == NUM {
      NoneFree(f2);
      f, d := FreeDesc(f, d, a);
      f, d := FreeDesc(f, d, b);
      assert f == free && d == desc;
      return false, [], f, d;
    }
    CountSet(f2, c, false);
    return true, [a, b, c], f, d;
  }

  /** free_chain of the chain h, m, t: no descriptor is freed twice. */
  method FreeChain(free: seq<bool>, desc: seq<Desc>, h: nat, ghost m: nat, ghost t: nat)
    returns (f: seq<bool>, d: seq<Desc>)
    requires |free| == NUM && |desc| == NUM && h < NUM && m < NUM && t < NUM && h != m && h != t && m != t
    requires !free[h] && !free[m] && !free[t]
    requires desc[h].more && desc[h].next == m && desc[m].more && desc[m].next == t && !desc[t].more
    ensures f == free[h := true][m := true][t := true] &&
            d == desc[h := NODESC][m := NODESC][t := NODESC]
  {
    f, d := free, desc;
    var i := h;
    ghost var k := 0;
    while true
      invariant 0 <= k <= 2 && |f| == NUM && |d| == NUM && i == if k == 0 then h else if k == 1 then m else t
      invariant f == if k == 0 then free else if k == 1 then free[h := true] else free[h := true][m := true]
      invariant d == if k == 0 then desc else if k == 1 then desc[h := NODESC]
                else desc[h := NODESC][m := NODESC]
      decreases 2 - k
    {
      if i >= NUM || f[i] {
        assert false;               // free_desc would panic
      }
      var more, next := d[i].more, d[i].next;
      f, d := FreeDesc(f, d, i);
      if !more {
        break;
      }
      i := next;
      k := k + 1;
    }
  }

  class Disk {
    var free: seq<bool>
    var desc: seq<Desc>
    var ops: seq<Op>
    var info: seq<Info>
    var busy: set<nat>              // the buffers whose disk field is 1
    var avail: seq<nat>
    var availIdx: nat
    var used: seq<nat>
    var usedIdx: nat
    var seenIdx: nat
    var fetchIdx: nat               // the device has looked this far in the avail ring
    var disk: seq<nat>              // the sectors of the device
    var data: map<nat, Halves>      // the data of each buffer
    ghost var v: Vq                 // all this, and the requests

    ghost predicate Valid()
      reads this
    {
      && Ok(v) && free == v.free && desc == v.desc && ops == v.ops && info == v.info && busy == v.busy
      && avail == v.avail && availIdx == v.availIdx && used == v.used && usedIdx == v.usedIdx && seenIdx == v.seenIdx
      && fetchIdx == v.fetched % 0x1_0000 && disk == v.st.disk && data == v.st.data
    }

    /** The queue part of virtio_disk_init */
    constructor (sectors: seq<nat>, bufs: map<nat, Halves>)
      ensures Valid() && v == Init(Store(sectors, bufs))
    {
      v := Init(Store(sectors, bufs));
      free, desc, ops := seq(NUM, _ => true), seq(NUM, _ => NODESC), seq(NUM, _ => Op(false, 0));
      info, busy, disk, data := seq(NUM, _ => Info(None, 0)), {}, sectors, bufs;
      avail, availIdx, used, usedIdx, seenIdx, fetchIdx := seq(NUM, _ => 0), 0, seq(NUM, _ => 0), 0, 0, 0;
      new;
      InitInv(Store(sectors, bufs));
      OkIff(v);
    }

    /** virtio_disk_rw(b, write), for a buffer with block number blockno, up to the first wait: it submits the request
        unless it has to wait for descriptors first. */
    method Start(b: nat, write: bool, blockno: nat) returns (ok: bool, h: nat)
      requires Valid() && (forall g :: g in v.reqs ==> v.reqs[g].buf != b) && b in data && blockno * 2 + 1 < |disk|
      modifies `free, `desc, `ops, `info, `busy, `avail, `availIdx, `v
      ensures Valid()
      ensures ok <==> |old(v).reqs| <= 1
      ensures !ok ==> v == old(v)
      ensures ok ==>
                && h !in old(v).reqs && h in v.reqs && Chosen(old(v), h, v.reqs[h])
                && v.reqs[h].buf == b && v.reqs[h].write == write && v.reqs[h].block == blockno
                && v == Submit(old(v), h, v.reqs[h])
    {
      FreeOk(v);
      var idx, f, d;
      ok, idx, f, d := Alloc3Desc(free, desc);
      h := 0;
      if ok {
        h := idx[0];
        Issue(f, idx[0], idx[1], idx[2], b, write, blockno, Request(idx[1], idx[2], b, write, blockno, Queued));
      }
    }

    /** The request is made, with the descriptors that alloc3_desc found. */
    method Issue(f: seq<bool>, h: nat, m: nat, t: nat, b: nat, write: bool, blockno: nat, ghost r: Request)
      requires Valid() && r == Request(m, t, b, write, blockno, Queued) && Chosen(v, h, r)
      requires f == free[h := false][m := false][t := false] && forall g :: g in v.reqs ==> v.reqs[g].buf != b
      modifies `free, `desc, `ops, `info, `busy, `avail, `availIdx, `v
      ensures Valid() && h !in old(v).reqs && v == Submit(old(v), h, r) && v.reqs == old(v).reqs[h := r]
    {
      SubmitOk(v, h, r);
      free := f;
      Format(h, m, t, b, write, blockno, r);
      v := Submit(v, h, r);
    }

    /** Fill in the header and the three descriptors and make the chain available. */
    method Format(h: nat, m: nat, t: nat, b: nat, write: bool, blockno: nat, ghost r: Request)
      requires |desc| == NUM && |ops| == NUM && |info| == NUM && |avail| == NUM
      requires h < NUM && m < NUM && t < NUM && r == Request(m, t, b, write, blockno, Queued)
      modifies `desc, `ops, `info, `busy, `avail, `availIdx
      ensures desc == old(desc)[h := HeadDesc(h, r)][m := DataDesc(r)][t := StatusDesc(h)]
      ensures ops == old(ops)[h := Op(write, blockno * 2)] && info == old(info)[h := Info(Some(b), 0xff)]
      ensures busy == old(busy) + {b} && avail == old(avail)[old(availIdx) % 8 := h] &&
              availIdx == (old(availIdx) + 1) % 0x1_0000
    {
      var sector := blockno * (BSIZE / 512);
      ops := ops[h := if write then Op(true, sector) else Op(false, sector)];
      desc := desc[h := Desc(Header(h), 16, false, true, m)];
      var deviceWrites := if write then false else true;
      desc := desc[m := Desc(Data(b), BSIZE, deviceWrites, true, t)];
      info := info[h := Info(info[h].b, 0xff)];
      desc := desc[t := Desc(Status(h), 1, true, false, 0)];
      busy := busy + {b};
      info := info[h := Info(Some(b), info[h].status)];
      avail := avail[availIdx % 8 := h];
      availIdx := (availIdx + 1) % 0x1_0000;
    }

    /** The device takes the next chain from the avail ring. */
    method DeviceFetch() returns (h: nat)
      requires Valid() && v.waiting != []
      modifies `fetchIdx, `v
      ensures Valid() && h == old(v).waiting[0] && h in old(v).reqs && v == Fetch(old(v))
    {
      FetchOk(v);
      Wrap16(v.fetched);
      Next16(v.fetched);
      h := avail[fetchIdx % 8];
      fetchIdx := (fetchIdx + 1) % 0x1_0000;
      v := Fetch(v);
    }

    /** The device does as the chain with head h says, and finds out where the status goes. */
    method DeviceMove(h: nat) returns (status: nat)
      requires Valid() && h in v.reqs
      modifies `disk, `data
      ensures Carries(v.st, v.reqs[h]) && Store(disk, data) == Transferred(v.st, v.reqs[h]) && status == h < NUM
    {
      ServeOk(v, h);
      var second := desc[h].next;
      var op, b := ops[desc[h].addr.i], desc[second].addr.b;
      if op.out {
        disk := PutSectors(disk, op.sector, data[b]);
      } else {
        data := data[b := Sectors(disk, op.sector)];
      }
      status := desc[desc[second].next].addr.i;
    }

    /** The device does what the chain with head h asks for. */
    method DeviceComplete(h: nat)
      requires Valid() && h in v.reqs && v.reqs[h].phase == Device
      modifies `disk, `data, `info, `used, `usedIdx, `v
      ensures Valid() && Shape(old(v)) && h < NUM && Carries(old(v).st, old(v).reqs[h])
      ensures v == Completed(old(v), h, Transferred(old(v).st, old(v).reqs[h]), h)
    {
      CompleteOk(v, h);
      var status := DeviceMove(h);
      info := info[status := info[status].(status := 0)];
      used := used[usedIdx % 8 := h];
      usedIdx := (usedIdx + 1) % 0x1_0000;
      v := Completed(v, h, Store(disk, data), status);
    }

    /** virtio_disk_intr: every finished request is taken note of, and its buffer released. */
    method Interrupt()
      requires Valid()
      modifies `busy, `seenIdx, `v
      ensures Valid() && v == HandleAll(old(v)) && v.finished == []
    {
      CaughtOk(v);
      while seenIdx != usedIdx
        invariant Valid() && HandleAll(v) == HandleAll(old(v)) && (seenIdx == usedIdx <==> v.finished == [])
        decreases |v.finished|
      {
        HandleOk(v);
        Note();
        CaughtOk(v);
      }
    }

    /** One round of its loop: the buffer is no longer with the disk, and the entry is counted as seen. */
    method Note()
      requires Valid() && v.finished != [] && v.finished[0] in v.reqs
      modifies `busy, `seenIdx, `v
      ensures Valid() && v == Handle(old(v))
    {
      HandleOk(v);
      var id := used[seenIdx % 8];
      if info[id].status != 0 {
        assert false;             // the device reports no errors
      }
      busy := busy - {info[id].b.value};
      seenIdx := (seenIdx + 1) % 0x1_0000;
      v := Handle(v);
    }

    /** virtio_disk_rw after the wait for b: the caller finds its buffer done and frees its chain. */
    method End(b: nat, h: nat)
      requires Valid() && h in v.reqs && v.reqs[h].buf == b && b !in busy
      modifies `free, `desc, `info, `v
      ensures Valid() && Shape(old(v)) && ChainOk(old(v), h) && v == Finish(old(v), h)
    {
      FinishOk(v, h);
      info := info[h := info[h].(b := None)];
      free, desc := FreeChain(free, desc, h, v.reqs[h].mid, v.reqs[h].tail);
      v := Finish(v, h);
    }
  }

  /** What one interrupt does. */
  ghost function HandleAll(v: Vq): (w: Vq)
    requires Ok(v)
    ensures w.finished == [] && Ok(w)
    decreases |v.finished|
  {
    if v.finished == [] then v else HandleOk(v); HandleAll(Handle(v))
  }

  /** It releases the buffers of the finished requests and no others. */
  lemma {:induction false} HandledBufs(v: Vq, h: nat)
    requires Ok(v) && h in v.reqs
    ensures h in HandleAll(v).reqs &&
            HandleAll(v).reqs[h] == v.reqs[h].(phase := if v.reqs[h].phase == Used then Seen else v.reqs[h].phase)
    ensures v.reqs[h].buf in HandleAll(v).busy <==> v.reqs[h].phase != Used && v.reqs[h].phase != Seen
    decreases |v.finished|
  {
    RequestOk(v, h);
    if v.finished != [] {
      HandleOk(v);
      HandledBufs(Handle(v), h);
    }
  }

  lemma RequestOk(v: Vq, h: nat)
    requires Ok(v) && h in v.reqs
    ensures (h in v.finished <==> v.reqs[h].phase == Used) && (v.reqs[h].buf in v.busy <==> v.reqs[h].phase != Seen)
  {
    OkIff(v);
    assert PhaseOk(v, h);
  }
}
