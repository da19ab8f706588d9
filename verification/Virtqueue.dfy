/** The virtqueue of kernel/virtio_disk.c: descriptors, the two rings and their 16-bit indices, and
    the requests that are on their way (sections 2.6 and 5.2 of VIRTIO 1.1). */
module Virtqueue {
  import opened Sequences
  import opened Wrappers

  const NUM := 8
  const BSIZE := 1024

  /** What a descriptor points to: a command header, the data of a buffer, or the status of a request. */
  datatype Addr = Null | Header(i: nat) | Data(b: nat) | Status(i: nat)

  /** A descriptor: where its memory is and how long, whether the device writes it (VRING_DESC_F_WRITE), whether the
      chain goes on (VRING_DESC_F_NEXT), and where. */
  datatype Desc = Desc(addr: Addr, len: nat, write: bool, more: bool, next: nat)

  const NODESC := Desc(Null, 0, false, false, 0)

  /** disk.ops: the type of a command, VIRTIO_BLK_T_OUT or VIRTIO_BLK_T_IN, and the sector it is for. */
  datatype Op = Op(out: bool, sector: nat)

  /** disk.info: the buffer of a request and the status that the device writes. */
  datatype Info = Info(b: Option<nat>, status: nat)

  /** Queued: in the avail ring, not yet fetched. Device: being worked on. Used: in the used ring.
      Seen: its interrupt has been handled, its descriptors not yet freed. */
  datatype Phase = Queued | Device | Used | Seen

  /** A request for a block, whose chain begins at some head and goes on with mid and tail. */
  datatype Request = Request(mid: nat, tail: nat, buf: nat, write: bool, block: nat, phase: Phase)

  /** The BSIZE bytes of a buffer as two sectors of 512 bytes; what a sector holds is a number here. */
  datatype Halves = Halves(first: nat, second: nat)

  /** The sectors of the disk, and the data of the buffers. */
  datatype Store = Store(disk: seq<nat>, data: map<nat, Halves>)

  /** The driver's and the device's side. avail.idx is fetched + |waiting|, and used.idx is
      seen + |finished|, both modulo 2^16; disk.used_idx is seen modulo 2^16. `owner` says which chain
      a descriptor belongs to. */
  datatype Vq = Vq(
    free: seq<bool>, desc: seq<Desc>, ops: seq<Op>, info: seq<Info>, busy: set<nat>,
    avail: seq<nat>, availIdx: nat, used: seq<nat>, usedIdx: nat, seenIdx: nat,
    owner: seq<Option<nat>>, reqs: map<nat, Request>, st: Store,
    fetched: nat, waiting: seq<nat>, seen: nat, finished: seq<nat>)

  predicate Shape(v: Vq) {
    && |v.free| == NUM && |v.desc| == NUM && |v.ops| == NUM && |v.info| == NUM
    && |v.avail| == NUM && |v.used| == NUM && |v.owner| == NUM
  }

  /** The request can be carried out. */
  predicate Carries(st: Store, r: Request) {
    r.buf in st.data && r.block * 2 + 1 < |st.disk|
  }

  /** The header: the device reads it. */
  function HeadDesc(h: nat, r: Request): Desc { Desc(Header(h), 16, false, true, r.mid) }

  /** The data: the device reads them for a write and writes them for a read. */
  function DataDesc(r: Request): Desc { Desc(Data(r.buf), BSIZE, !r.write, true, r.tail) }

  /** The status: the device writes it. */
  function StatusDesc(h: nat): Desc { Desc(Status(h), 1, true, false, 0) }

  /** The chain of the request with head h. */
  predicate ChainOk(v: Vq, h: nat)
    requires Shape(v) && h in v.reqs
  {
    var r := v.reqs[h];
    && h < NUM && r.mid < NUM && r.tail < NUM && h != r.mid && h != r.tail && r.mid != r.tail
    && v.owner[h] == v.owner[r.mid] == v.owner[r.tail] == Some(h)
    && v.desc[h] == HeadDesc(h, r) && v.desc[r.mid] == DataDesc(r) && v.desc[r.tail] == StatusDesc(h)
    && v.ops[h] == Op(r.write, r.block * 2) && Carries(v.st, r)
  }

  /** A descriptor is free or belongs to the chain of a request. */
  predicate DescOk(v: Vq, i: nat)
    requires Shape(v) && i < NUM
  {
    && (v.free[i] <==> v.owner[i].None?) && (v.free[i] ==> v.desc[i] == NODESC)
    && (v.owner[i].Some? ==> var h := v.owner[i].value;
         h in v.reqs && (i == h || i == v.reqs[h].mid || i == v.reqs[h].tail))
  }

  predicate Chains(v: Vq) {
    && Shape(v)
    && (forall h :: h in v.reqs ==> ChainOk(v, h))
    && (forall i :: 0 <= i < NUM ==> DescOk(v, i))
  }

  /** The buffer and the phase of the request with head h. */
  predicate PhaseOk(v: Vq, h: nat)
    requires h in v.reqs
  {
    var r := v.reqs[h];
    && h < |v.info| && v.info[h].b == Some(r.buf)
    && (r.phase == Queued || r.phase == Device ==> v.info[h].status == 0xff)
    && (r.phase == Used || r.phase == Seen ==> v.info[h].status == 0)
    && (r.buf in v.busy <==> r.phase != Seen)
    && (h in v.waiting <==> r.phase == Queued) && (h in v.finished <==> r.phase == Used)
  }

  /** No two requests are for the same buffer: its caller has the buffer locked. */
  predicate Phases(v: Vq) {
    && Distinct(v.waiting) && Distinct(v.finished)
    && (forall h :: h in v.waiting ==> h in v.reqs) && (forall h :: h in v.finished ==> h in v.reqs)
    && (forall h :: h in v.reqs ==> PhaseOk(v, h))
    && (forall h, g :: h in v.reqs && g in v.reqs && h != g ==> v.reqs[h].buf != v.reqs[g].buf)
  }

  /** l stands in the ring from slot k % NUM on. */
  predicate Window(ring: seq<nat>, k: nat, l: seq<nat>)
    requires |ring| == NUM
  {
    forall i :: 0 <= i < |l| ==> ring[Slot(k, i)] == l[i]
  }

  function Slot(k: nat, i: nat): (j: nat)
    ensures j < NUM
  {
    (k + i) % 8
  }

  predicate Rings(v: Vq) {
    && |v.avail| == NUM && |v.used| == NUM
    && Window(v.avail, v.fetched, v.waiting) && Window(v.used, v.seen, v.finished)
    && v.availIdx == (v.fetched + |v.waiting|) % 0x1_0000 && v.usedIdx == (v.seen + |v.finished|) % 0x1_0000 &&
       v.seenIdx == v.seen % 0x1_0000
  }

  function CountFree(free: seq<bool>): nat {
    if free == [] then 0 else (if free[0] then 1 else 0) + CountFree(free[1..])
  }

  predicate Inv(v: Vq) {
    Chains(v) && Phases(v) && Rings(v) && CountFree(v.free) + 3 * |v.reqs| == NUM
  }

  lemma {:induction false} CountSet(free: seq<bool>, i: nat, b: bool)
    requires i < |free| && free[i] != b
    ensures CountFree(free[i := b]) == CountFree(free) + (if b then 1 else -1)
  {
    if i > 0 {
      CountSet(free[1..], i - 1, b);
      assert free[i := b][1..] == free[1..][i-1 := b];
    } else {
      assert free[i := b][1..] == free[1..];
    }
  }

  lemma {:induction false} Fewer(l: seq<nat>, s: set<nat>)
    requires Distinct(l) && forall h :: h in l ==> h in s
    ensures |l| <= |s|
  {
    if l != [] {
      assert l[0] in l;
      forall h | h in l[1..] ensures h in s - {l[0]} {
      }
      Fewer(l[1..], s - {l[0]});
    }
  }

  /** At most two requests are on their way, so the rings never overflow. */
  lemma Windows(v: Vq)
    requires Phases(v) && CountFree(v.free) + 3 * |v.reqs| == NUM
    ensures |v.reqs| <= 2 && |v.waiting| <= 2 && |v.finished| <= 2
  {
    Fewer(v.waiting, v.reqs.Keys);
    Fewer(v.finished, v.reqs.Keys);
  }

  // ---------- the rings ----------

  /** A 16-bit index wraps at a multiple of the ring size. */
  lemma Wrap16(k: nat)
    ensures k % 0x1_0000 % 8 == k % 8
  {
    var q, r := k / 0x1_0000, k % 0x1_0000;
    assert k == 8 * (q * 0x2000) + r;
    Multiple(q * 0x2000, r);
  }

  lemma Multiple(a: nat, r: nat)
    ensures (8 * a + r) % 8 == r % 8
  {
  }

  lemma Next16(k: nat)
    ensures (k % 0x1_0000 + 1) % 0x1_0000 == (k + 1) % 0x1_0000
  {
  }

  lemma Close16(k: nat, d: nat)
    requires d < 0x1_0000
    ensures k % 0x1_0000 == (k + d) % 0x1_0000 <==> d == 0
  {
  }

  lemma SlotsDiffer(k: nat, i: nat, j: nat)
    requires i < j < i + 8
    ensures Slot(k, i) != Slot(k, j)
  {
  }

  /** One more entry. */
  lemma Append(ring: seq<nat>, k: nat, l: seq<nat>, idx: nat, h: nat)
    requires |ring| == NUM && Window(ring, k, l) && |l| < NUM && idx == (k + |l|) % 0x1_0000
    ensures Window(ring[idx % 8 := h], k, l + [h]) && (idx + 1) % 0x1_0000 == (k + |l + [h]|) % 0x1_0000
  {
    Wrap16(k + |l|);
    Next16(k + |l|);
    forall i | 0 <= i < |l + [h]| ensures ring[idx % 8 := h][Slot(k, i)] == (l + [h])[i] {
      if i < |l| {
        SlotsDiffer(k, i, |l|);
      }
    }
  }

  /** The first entry is consumed. */
  lemma Consume(ring: seq<nat>, k: nat, l: seq<nat>)
    requires |ring| == NUM && Window(ring, k, l) && l != []
    ensures Window(ring, k + 1, l[1..]) && ring[k % 8] == l[0] && k + |l| == k + 1 + |l[1..]|
  {
    assert ring[Slot(k, 0)] == l[0];
    forall i | 0 <= i < |l[1..]| ensures ring[Slot(k + 1, i)] == l[1..][i] {
      assert Slot(k + 1, i) == Slot(k, i + 1);
    }
  }

  // ---------- submitting ----------

  /** virtio_disk_rw, with the descriptors h, r.mid and r.tail, up to the notification of the device */
  function Submit(v: Vq, h: nat, r: Request): Vq
    requires Shape(v) && h < NUM && r.mid < NUM && r.tail < NUM
  {
    v.(free := v.free[h := false][r.mid := false][r.tail := false],
       desc := v.desc[h := HeadDesc(h, r)][r.mid := DataDesc(r)][r.tail := StatusDesc(h)],
       ops := v.ops[h := Op(r.write, r.block * 2)],
       info := v.info[h := Info(Some(r.buf), 0xff)],
       busy := v.busy + {r.buf},
       avail := v.avail[v.availIdx % 8 := h],
       availIdx := (v.availIdx + 1) % 0x1_0000,
       owner := v.owner[h := Some(h)][r.mid := Some(h)][r.tail := Some(h)],
       reqs := v.reqs[h := r],
       waiting := v.waiting + [h])
  }

  /** A new request, with three free descriptors. */
  predicate Chosen(v: Vq, h: nat, r: Request) {
    && Shape(v) && r.phase == Queued && Carries(v.st, r)
    && h < NUM && r.mid < NUM && r.tail < NUM && h != r.mid && h != r.tail && r.mid != r.tail
    && v.free[h] && v.free[r.mid] && v.free[r.tail]
  }

  lemma HeadTaken(v: Vq, h: nat)
    requires Chains(v) && h in v.reqs
    ensures h < NUM && !v.free[h]
  {
    assert ChainOk(v, h) && DescOk(v, h);
  }

  lemma SubmitChain(v: Vq, h: nat, r: Request, g: nat)
    requires Chains(v) && Chosen(v, h, r) && g in v.reqs && g != h
    ensures ChainOk(Submit(v, h, r), g)
  {
    assert DescOk(v, h) && DescOk(v, r.mid) && DescOk(v, r.tail) && ChainOk(v, g);
  }

  lemma SubmitDesc(v: Vq, h: nat, r: Request, i: nat)
    requires Chains(v) && Chosen(v, h, r) && i < NUM && h !in v.reqs
    ensures DescOk(Submit(v, h, r), i)
  {
    assert DescOk(v, i) && DescOk(v, h);
  }

  lemma SubmitChains(v: Vq, h: nat, r: Request)
    requires Chains(v) && Chosen(v, h, r) && h !in v.reqs
    ensures Chains(Submit(v, h, r))
  {
    var w := Submit(v, h, r);
    forall g | g in w.reqs ensures ChainOk(w, g) {
      if g != h {
        SubmitChain(v, h, r, g);
      }
    }
    forall i | 0 <= i < NUM ensures DescOk(w, i) {
      SubmitDesc(v, h, r, i);
    }
  }

  lemma SubmitPhases(v: Vq, h: nat, r: Request)
    requires Phases(v) && Chosen(v, h, r) && h !in v.reqs && forall g :: g in v.reqs ==> v.reqs[g].buf != r.buf
    ensures Phases(Submit(v, h, r))
  {
    var w := Submit(v, h, r);
    forall g | g in w.reqs ensures PhaseOk(w, g) {
      if g != h {
        assert PhaseOk(v, g);
      }
    }
  }

  lemma SubmitCount(v: Vq, h: nat, r: Request)
    requires Chosen(v, h, r) && h !in v.reqs
    ensures CountFree(Submit(v, h, r).free) + 3 == CountFree(v.free) &&
            |Submit(v, h, r).reqs| == |v.reqs| + 1
  {
    CountSet(v.free, h, false);
    CountSet(v.free[h := false], r.mid, false);
    CountSet(v.free[h := false][r.mid := false], r.tail, false);
  }

  lemma SubmitRings(v: Vq, h: nat, r: Request)
    requires Rings(v) && Chosen(v, h, r) && |v.waiting| <= 2
    ensures Rings(Submit(v, h, r))
  {
    Append(v.avail, v.fetched, v.waiting, v.availIdx, h);
  }

  lemma SubmitInv(v: Vq, h: nat, r: Request)
    requires Inv(v) && Chosen(v, h, r) && forall g :: g in v.reqs ==> v.reqs[g].buf != r.buf
    ensures Inv(Submit(v, h, r)) && h !in v.reqs
  {
    assert h !in v.reqs by {
      if h in v.reqs {
        HeadTaken(v, h);
      }
    }
    SubmitChains(v, h, r);
    SubmitPhases(v, h, r);
    SubmitCount(v, h, r);
    assert Rings(Submit(v, h, r)) by {
      Windows(v);
      SubmitRings(v, h, r);
    }
  }

  // ---------- the device ----------

  function SetPhase(reqs: map<nat, Request>, h: nat, phase: Phase): map<nat, Request>
    requires h in reqs
  {
    reqs[h := reqs[h].(phase := phase)]
  }

  /** The device fetches the next head from the avail ring. */
  function Fetch(v: Vq): Vq
    requires v.waiting != [] && v.waiting[0] in v.reqs
  {
    v.(reqs := SetPhase(v.reqs, v.waiting[0], Device), fetched := v.fetched + 1, waiting := v.waiting[1..])
  }

  /** Two sectors from s on. */
  function Sectors(disk: seq<nat>, s: nat): Halves
    requires s + 1 < |disk|
  {
    Halves(disk[s], disk[s + 1])
  }

  function PutSectors(disk: seq<nat>, s: nat, x: Halves): seq<nat>
    requires s + 1 < |disk|
  {
    disk[s := x.first][s + 1 := x.second]
  }

  /** The chain from head h on is a command that the device can carry out: a header that it reads, data that it
      reads or writes as the header says, and a status that it writes (section 5.2.6 of VIRTIO 1.1). */
  predicate Servable(v: Vq, h: nat) {
    && Shape(v) && h < NUM
    && var c := v.desc[h];
       && c.addr.Header? && c.addr.i < NUM && c.len == 16 && !c.write && c.more && c.next < NUM
       && var d := v.desc[c.next];
          && d.addr.Data? && d.addr.b in v.st.data && d.len == BSIZE && d.more && d.next < NUM
          && d.write == !v.ops[c.addr.i].out && v.ops[c.addr.i].sector + 1 < |v.st.disk|
          && var e := v.desc[d.next];
             e.addr.Status? && e.addr.i < NUM && e.len == 1 && e.write && !e.more
  }

  /** What the device does to disk and buffers. */
  function Serve(v: Vq, h: nat): Store
    requires Servable(v, h)
  {
    var op := v.ops[v.desc[h].addr.i];
    var b := v.desc[v.desc[h].next].addr.b;
    if op.out then v.st.(disk := PutSectors(v.st.disk, op.sector, v.st.data[b]))
    else v.st.(data := v.st.data[b := Sectors(v.st.disk, op.sector)])
  }

  /** The device is done with the chain with head h: it has made the store st, and writes the status to place i and
      an entry to the used ring. */
  function Completed(v: Vq, h: nat, st: Store, i: nat): Vq
    requires Shape(v) && h in v.reqs && i < NUM
  {
    v.(st := st,
       info := v.info[i := v.info[i].(status := 0)],
       used := v.used[v.usedIdx % 8 := h],
       usedIdx := (v.usedIdx + 1) % 0x1_0000,
       reqs := SetPhase(v.reqs, h, Used),
       finished := v.finished + [h])
  }

  /** The device carries out the command with head h. */
  function Complete(v: Vq, h: nat): Vq
    requires Servable(v, h) && h in v.reqs
  {
    Completed(v, h, Serve(v, h), v.desc[v.desc[v.desc[h].next].next].addr.i)
  }

  // ---------- blocks ----------

  function BlockAt(st: Store, k: nat): Halves
    requires k * 2 + 1 < |st.disk|
  {
    Sectors(st.disk, k * 2)
  }

  /** What a request asks for: the block on disk becomes the data of the buffer, or the other way round. */
  function Transferred(st: Store, r: Request): Store
    requires Carries(st, r)
  {
    if r.write then st.(disk := PutSectors(st.disk, r.block * 2, st.data[r.buf]))
    else st.(data := st.data[r.buf := BlockAt(st, r.block)])
  }

  /** The device does what the request asks for. */
  lemma ServeIs(v: Vq, h: nat)
    requires Chains(v) && h in v.reqs
    ensures Servable(v, h) && Serve(v, h) == Transferred(v.st, v.reqs[h])
    ensures v.desc[v.desc[v.desc[h].next].next].addr == Status(h)
  {
    assert ChainOk(v, h);
  }

  /** A block that is written is read back, and no other block moves. */
  lemma BlockWritten(st: Store, r: Request, k: nat)
    requires Carries(st, r) && k * 2 + 1 < |st.disk|
    ensures |Transferred(st, r).disk| == |st.disk| && Transferred(st, r).data.Keys == st.data.Keys
    ensures BlockAt(Transferred(st, r), k) ==
            if r.write && k == r.block then st.data[r.buf] else BlockAt(st, k)
  {
  }

  /** The phase of a request is no matter of its chain. */
  predicate SameButPhase(v: Vq, w: Vq, h: nat, phase: Phase) {
    && h in v.reqs && w.reqs == SetPhase(v.reqs, h, phase) && w.free == v.free
    && w.desc == v.desc && w.ops == v.ops && w.owner == v.owner
    && w.st.data.Keys == v.st.data.Keys && |w.st.disk| == |v.st.disk|
  }

  lemma SameChain(v: Vq, w: Vq, h: nat, phase: Phase, g: nat)
    requires Shape(v) && Shape(w) && SameButPhase(v, w, h, phase) && g in v.reqs && ChainOk(v, g)
    ensures ChainOk(w, g)
  {
  }

  lemma SameDesc(v: Vq, w: Vq, h: nat, phase: Phase, i: nat)
    requires Shape(v) && Shape(w) && SameButPhase(v, w, h, phase) && i < NUM && DescOk(v, i)
    ensures DescOk(w, i)
  {
  }

  lemma SameChains(v: Vq, w: Vq, h: nat, phase: Phase)
    requires Chains(v) && Shape(w) && SameButPhase(v, w, h, phase)
    ensures Chains(w) && |w.reqs| == |v.reqs|
  {
    forall g | g in w.reqs ensures ChainOk(w, g) {
      SameChain(v, w, h, phase, g);
    }
    forall i | 0 <= i < NUM ensures DescOk(w, i) {
      SameDesc(v, w, h, phase, i);
    }
    assert w.reqs.Keys == v.reqs.Keys;
    assert |w.reqs| == |w.reqs.Keys| && |v.reqs| == |v.reqs.Keys|;
  }

  lemma TailHas(l: seq<nat>, h: nat)
    requires l != [] && Distinct(l)
    ensures h in l[1..] <==> h in l && h != l[0]
    ensures Distinct(l[1..])
  {
    if h in l && h != l[0] {
      var i :| 0 <= i < |l| && l[i] == h;
      assert l[1..][i-1] == h;
    }
  }

  lemma FetchPhases(v: Vq)
    requires Phases(v) && v.waiting != [] && v.waiting[0] in v.reqs
    ensures Phases(Fetch(v))
  {
    var w := Fetch(v);
    TailHas(v.waiting, v.waiting[0]);
    forall g | g in w.reqs ensures PhaseOk(w, g) {
      assert PhaseOk(v, g);
      TailHas(v.waiting, g);
    }
  }

  lemma FetchRings(v: Vq)
    requires Rings(v) && v.waiting != [] && v.waiting[0] in v.reqs
    ensures Rings(Fetch(v)) && v.waiting[0] == v.avail[v.fetched % 8]
  {
    Consume(v.avail, v.fetched, v.waiting);
  }

  lemma FetchInv(v: Vq)
    requires Inv(v) && v.waiting != []
    ensures v.waiting[0] in v.reqs && Inv(Fetch(v)) && v.waiting[0] == v.avail[v.fetched % 8]
  {
    assert v.waiting[0] in v.waiting;
    FetchRings(v);
    FetchPhases(v);
    SameChains(v, Fetch(v), v.waiting[0], Device);
  }

  lemma CompletePhases(v: Vq, h: nat)
    requires Phases(v) && Servable(v, h) && h in v.reqs && v.reqs[h].phase == Device
    requires v.desc[v.desc[v.desc[h].next].next].addr == Status(h)
    ensures Phases(Complete(v, h))
  {
    assert PhaseOk(v, h);
    var w := Complete(v, h);
    forall g | g in w.reqs ensures PhaseOk(w, g) {
      assert PhaseOk(v, g);
    }
  }

  lemma CompleteRings(v: Vq, h: nat)
    requires Rings(v) && Servable(v, h) && h in v.reqs && |v.finished| <= 2
    ensures Rings(Complete(v, h))
  {
    Append(v.used, v.seen, v.finished, v.usedIdx, h);
  }

  lemma CompleteInv(v: Vq, h: nat)
    requires Inv(v) && h in v.reqs && v.reqs[h].phase == Device
    ensures Servable(v, h) && Inv(Complete(v, h)) && Complete(v, h).st == Transferred(v.st, v.reqs[h])
  {
    ServeIs(v, h);
    CompletePhases(v, h);
    assert ChainOk(v, h);
    BlockWritten(v.st, v.reqs[h], v.reqs[h].block);
    assert Rings(Complete(v, h)) by {
      Windows(v);
      CompleteRings(v, h);
    }
    SameChains(v, Complete(v, h), h, Used);
  }

  // ---------- the interrupt handler and the end of a request ----------

  /** One round of virtio_disk_intr's loop */
  function Handle(v: Vq): Vq
    requires v.finished != [] && v.finished[0] in v.reqs
  {
    var h := v.finished[0];
    v.(busy := v.busy - {v.reqs[h].buf}, seenIdx := (v.seenIdx + 1) % 0x1_0000, seen := v.seen + 1,
      finished := v.finished[1..],
       reqs := SetPhase(v.reqs, h, Seen))
  }

  lemma HandlePhases(v: Vq)
    requires Phases(v) && v.finished != [] && v.finished[0] in v.reqs
    ensures Phases(Handle(v)) && v.finished[0] < |v.info| &&
            v.info[v.finished[0]] == Info(Some(v.reqs[v.finished[0]].buf), 0)
  {
    var w := Handle(v);
    TailHas(v.finished, v.finished[0]);
    assert v.finished[0] in v.finished && PhaseOk(v, v.finished[0]);
    forall g | g in w.reqs ensures PhaseOk(w, g) {
      assert PhaseOk(v, g);
      TailHas(v.finished, g);
    }
  }

  lemma HandleRings(v: Vq)
    requires Rings(v) && v.finished != [] && v.finished[0] in v.reqs
    ensures Rings(Handle(v)) && v.used[v.seenIdx % 8] == v.finished[0]
  {
    Wrap16(v.seen);
    Next16(v.seen);
    Consume(v.used, v.seen, v.finished);
  }

  /** The handler finds the head of a finished request in the ring, and with it its buffer. */
  lemma HandleInv(v: Vq)
    requires Inv(v) && v.finished != []
    ensures v.finished[0] in v.reqs && v.finished[0] < NUM && Inv(Handle(v))
    ensures var h := v.finished[0]; v.used[v.seenIdx % 8] == h && v.info[h] == Info(Some(v.reqs[h].buf), 0)
  {
    assert v.finished[0] in v.finished;
    HandleRings(v);
    HandlePhases(v);
    SameChains(v, Handle(v), v.finished[0], Seen);
  }

  /** The handler's loop ends exactly when nothing is left. */
  lemma Caught(v: Vq)
    requires Inv(v)
    ensures v.seenIdx == v.usedIdx <==> v.finished == []
  {
    Windows(v);
    Close16(v.seen, |v.finished|);
  }

  /** virtio_disk_rw after the buffer is done: the three descriptors are free again. */
  function Finish(v: Vq, h: nat): Vq
    requires Shape(v) && h in v.reqs && ChainOk(v, h)
  {
    var m, t := v.reqs[h].mid, v.reqs[h].tail;
    v.(free := v.free[h := true][m := true][t := true],
       desc := v.desc[h := NODESC][m := NODESC][t := NODESC],
       info := v.info[h := v.info[h].(b := None)],
       owner := v.owner[h := None][m := None][t := None],
       reqs := v.reqs - {h})
  }

  lemma FinishChain(v: Vq, h: nat, g: nat)
    requires Chains(v) && h in v.reqs && ChainOk(v, h) && g in v.reqs && g != h
    ensures ChainOk(Finish(v, h), g)
  {
    assert ChainOk(v, g);
  }

  lemma FinishDesc(v: Vq, h: nat, i: nat)
    requires Chains(v) && h in v.reqs && ChainOk(v, h) && i < NUM
    ensures DescOk(Finish(v, h), i)
  {
    assert DescOk(v, i);
  }

  lemma FinishPhases(v: Vq, h: nat)
    requires Phases(v) && Shape(v) && h in v.reqs && ChainOk(v, h) && v.reqs[h].phase == Seen
    ensures Phases(Finish(v, h))
  {
    var w := Finish(v, h);
    assert PhaseOk(v, h);
    forall g | g in w.reqs ensures PhaseOk(w, g) {
      assert PhaseOk(v, g);
    }
  }

  lemma FinishCount(v: Vq, h: nat)
    requires Chains(v) && h in v.reqs && ChainOk(v, h)
    ensures CountFree(Finish(v, h).free) == CountFree(v.free) + 3 && |Finish(v, h).reqs| + 1 == |v.reqs|
  {
    var m, t := v.reqs[h].mid, v.reqs[h].tail;
    assert DescOk(v, h) && DescOk(v, m) && DescOk(v, t);
    CountSet(v.free, h, true);
    CountSet(v.free[h := true], m, true);
    CountSet(v.free[h := true][m := true], t, true);
    var w := Finish(v, h);
    assert w.reqs.Keys == v.reqs.Keys - {h};
    assert |w.reqs| == |w.reqs.Keys| && |v.reqs| == |v.reqs.Keys|;
  }

  lemma FinishChains(v: Vq, h: nat)
    requires Chains(v) && h in v.reqs
    ensures ChainOk(v, h) && Chains(Finish(v, h))
  {
    assert ChainOk(v, h);
    var w := Finish(v, h);
    forall g | g in w.reqs ensures ChainOk(w, g) {
      FinishChain(v, h, g);
    }
    forall i | 0 <= i < NUM ensures DescOk(w, i) {
      FinishDesc(v, h, i);
    }
  }

  lemma FinishInv(v: Vq, h: nat)
    requires Inv(v) && h in v.reqs && v.reqs[h].phase == Seen
    ensures ChainOk(v, h) && Inv(Finish(v, h))
  {
    FinishChains(v, h);
    FinishPhases(v, h);
    FinishCount(v, h);
    assert Rings(Finish(v, h)) by { SameRings(v, Finish(v, h)); }
  }

  lemma SameRings(v: Vq, w: Vq)
    requires Rings(v) && w.avail == v.avail && w.used == v.used && w.fetched == v.fetched && w.seen == v.seen &&
             w.waiting == v.waiting
    requires w.finished == v.finished && w.availIdx == v.availIdx && w.usedIdx == v.usedIdx && w.seenIdx == v.seenIdx
    ensures Rings(w)
  {
  }

  // ---------- runs ----------

  /** A step of the driver or the device, or of a client that changes a buffer which the disk does not have. */
  datatype Step =
    | Submits(h: nat, r: Request)
    | Fetches
    | Completes(h: nat)
    | Handles
    | Finishes(h: nat)
    | Changes(b: nat, x: Halves)

  predicate Possible(v: Vq, e: Step) {
    match e
    case Submits(h, r) => Chosen(v, h, r) && forall g :: g in v.reqs ==> v.reqs[g].buf != r.buf
    case Fetches => v.waiting != []
    case Completes(h) => h in v.reqs && v.reqs[h].phase == Device
    case Handles => v.finished != []
    case Finishes(h) => h in v.reqs && v.reqs[h].phase == Seen
    case Changes(b, _) => b in v.st.data && forall g :: g in v.reqs ==> v.reqs[g].buf != b
  }

  function Change(v: Vq, b: nat, x: Halves): Vq {
    v.(st := v.st.(data := v.st.data[b := x]))
  }

  lemma ChangeInv(v: Vq, b: nat, x: Halves)
    requires Inv(v) && b in v.st.data
    ensures Inv(Change(v, b, x))
  {
    var w := Change(v, b, x);
    forall g | g in w.reqs ensures ChainOk(w, g) && PhaseOk(w, g) {
      assert ChainOk(v, g) && PhaseOk(v, g);
    }
    forall i | 0 <= i < NUM ensures DescOk(w, i) {
      assert DescOk(v, i);
    }
    SameRings(v, w);
  }

  function Next(v: Vq, e: Step): (w: Vq)
    requires Inv(v) && Possible(v, e)
    ensures Inv(w)
  {
    match e
    case Submits(h, r) => SubmitInv(v, h, r); Submit(v, h, r)
    case Fetches => FetchInv(v); Fetch(v)
    case Completes(h) => CompleteInv(v, h); Complete(v, h)
    case Handles => HandleInv(v); Handle(v)
    case Finishes(h) => FinishInv(v, h); Finish(v, h)
    case Changes(b, x) => ChangeInv(v, b, x); Change(v, b, x)
  }

  predicate Legal(v: Vq, es: seq<Step>)
    requires Inv(v)
    decreases |es|
  {
    es == [] || (Possible(v, es[0]) && Legal(Next(v, es[0]), es[1..]))
  }

  function After(v: Vq, es: seq<Step>): (w: Vq)
    requires Inv(v) && Legal(v, es)
    ensures Inv(w)
    decreases |es|
  {
    if es == [] then v else After(Next(v, es[0]), es[1..])
  }

  function Init(st: Store): Vq {
    Vq(seq(NUM, _ => true), seq(NUM, _ => NODESC), seq(NUM, _ => Op(false, 0)), seq(NUM, _ => Info(None, 0)), {},
       seq(NUM, _ => 0), 0, seq(NUM, _ => 0), 0, 0, seq(NUM, _ => None), map[], st, 0, [], 0, [])
  }

  lemma {:induction false} AllFree(free: seq<bool>)
    requires forall i :: 0 <= i < |free| ==> free[i]
    ensures CountFree(free) == |free|
  {
    if free != [] {
      AllFree(free[1..]);
    }
  }

  lemma InitInv(st: Store)
    ensures Inv(Init(st))
  {
    AllFree(Init(st).free);
  }

  lemma ChainsApart(v: Vq, h: nat, g: nat)
    requires Chains(v) && h in v.reqs && g in v.reqs && h != g
    ensures {h, v.reqs[h].mid, v.reqs[h].tail} !! {g, v.reqs[g].mid, v.reqs[g].tail}
  {
    assert ChainOk(v, h) && ChainOk(v, g);
  }

  /** The free descriptors and three for each request make up all of them, two chains have no descriptor
      in common, and no ring holds more entries than it has slots. */
  ghost predicate Healthy(v: Vq) {
    && CountFree(v.free) + 3 * |v.reqs| == NUM && |v.waiting| <= NUM && |v.finished| <= NUM
    && forall h, g :: h in v.reqs && g in v.reqs && h != g ==>
       {h, v.reqs[h].mid, v.reqs[h].tail} !! {g, v.reqs[g].mid, v.reqs[g].tail}
  }

  lemma InvHealthy(v: Vq)
    requires Inv(v)
    ensures Healthy(v)
  {
    Windows(v);
    forall h, g | h in v.reqs && g in v.reqs && h != g
      ensures {h, v.reqs[h].mid, v.reqs[h].tail} !! {g, v.reqs[g].mid, v.reqs[g].tail}
    {
      ChainsApart(v, h, g);
    }
  }

  /** So it is in every run of the driver with a device that completes what it fetched, in any order. */
  lemma EveryRun(st: Store, es: seq<Step>)
    requires (InitInv(st); Legal(Init(st), es))
    ensures Healthy((InitInv(st); After(Init(st), es)))
  {
    InitInv(st);
    InvHealthy(After(Init(st), es));
  }

  // ---------- what is transferred ----------

  /** Disk and buffers change only when the device carries out a request, as the request says, and when a client
      changes a buffer of its own. */
  lemma NextStore(v: Vq, e: Step)
    requires Inv(v) && Possible(v, e)
    ensures e.Completes? ==> Carries(v.st, v.reqs[e.h]) && Next(v, e).st == Transferred(v.st, v.reqs[e.h])
    ensures e.Changes? ==> Next(v, e).st == v.st.(data := v.st.data[e.b := e.x])
    ensures !e.Completes? && !e.Changes? ==> Next(v, e).st == v.st
  {
    if e.Completes? {
      CompleteInv(v, e.h);
      assert ChainOk(v, e.h);
    }
  }

  predicate Pending(r: Request) {
    r.phase == Queued || r.phase == Device
  }

  /** Request r, which began with st0 and now is q, is not yet carried out, and its buffer and its block are as they
      were; or it has been carried out: what was to be read is in the buffer, what was to be written is on the disk. */
  predicate Progress(st0: Store, st: Store, r: Request, q: Request) {
    && q == r.(phase := q.phase) && Carries(st0, r) && Carries(st, r)
    && st.data[r.buf] == (if !Pending(q) && !r.write then BlockAt(st0, r.block) else st0.data[r.buf])
    && BlockAt(st, r.block) == (if !Pending(q) && r.write then st0.data[r.buf] else BlockAt(st0, r.block))
  }

  lemma ProgressOwn(st0: Store, st: Store, r: Request, q: Request)
    requires Progress(st0, st, r, q) && Pending(q)
    ensures Progress(st0, Transferred(st, r), r, q.(phase := Used))
  {
    BlockWritten(st, r, r.block);
  }

  lemma ProgressOther(st0: Store, st: Store, r: Request, q: Request, o: Request)
    requires Progress(st0, st, r, q) && Carries(st, o) && o.block != r.block && o.buf != r.buf
    ensures Progress(st0, Transferred(st, o), r, q)
  {
    BlockWritten(st, o, r.block);
  }

  /** The step leaves request h in the queue, and carries out no other request for its block. */
  predicate Leaves(v: Vq, e: Step, h: nat)
    requires h in v.reqs
  {
    && e != Finishes(h)
    && (e.Completes? && e.h != h && e.h in v.reqs ==> v.reqs[e.h].block != v.reqs[h].block)
  }

  /** What a step does to the requests. */
  predicate Moves(v: Vq, e: Step, w: map<nat, Request>) {
    match e
    case Submits(h, r) => h !in v.reqs && w == v.reqs[h := r]
    case Fetches =>
      v.waiting != [] && var h := v.waiting[0];
      h in v.reqs && v.reqs[h].phase == Queued && w == SetPhase(v.reqs, h, Device)
    case Completes(h) => h in v.reqs && v.reqs[h].phase == Device && w == SetPhase(v.reqs, h, Used)
    case Handles =>
      v.finished != [] && var h := v.finished[0];
      h in v.reqs && v.reqs[h].phase == Used && w == SetPhase(v.reqs, h, Seen)
    case Finishes(h) => w == v.reqs - {h}
    case Changes(_, _) => w == v.reqs
  }

  lemma HeadsAre(v: Vq)
    requires Phases(v)
    ensures v.waiting != [] ==> v.waiting[0] in v.reqs && v.reqs[v.waiting[0]].phase == Queued
    ensures v.finished != [] ==> v.finished[0] in v.reqs && v.reqs[v.finished[0]].phase == Used
  {
    if v.waiting != [] {
      assert v.waiting[0] in v.waiting && PhaseOk(v, v.waiting[0]);
    }
    if v.finished != [] {
      assert v.finished[0] in v.finished && PhaseOk(v, v.finished[0]);
    }
  }

  lemma NextSubmits(v: Vq, h: nat, r: Request)
    requires Inv(v) && Possible(v, Submits(h, r))
    ensures h !in v.reqs && Next(v, Submits(h, r)).reqs == v.reqs[h := r]
  {
    SubmitInv(v, h, r);
  }

  lemma NextFetches(v: Vq)
    requires Inv(v) && v.waiting != [] && v.waiting[0] in v.reqs
    ensures Next(v, Fetches).reqs == SetPhase(v.reqs, v.waiting[0], Device)
  {
    assert Next(v, Fetches) == Fetch(v);
  }

  lemma NextCompletes(v: Vq, h: nat)
    requires Inv(v) && h in v.reqs && v.reqs[h].phase == Device
    ensures Next(v, Completes(h)).reqs == SetPhase(v.reqs, h, Used)
  {
    CompleteInv(v, h);
    assert Next(v, Completes(h)) == Complete(v, h);
  }

  lemma NextHandles(v: Vq)
    requires Inv(v) && v.finished != [] && v.finished[0] in v.reqs
    ensures Next(v, Handles).reqs == SetPhase(v.reqs, v.finished[0], Seen)
  {
    assert Next(v, Handles) == Handle(v);
  }

  lemma NextFinishes(v: Vq, h: nat)
    requires Inv(v) && h in v.reqs && v.reqs[h].phase == Seen
    ensures Next(v, Finishes(h)).reqs == v.reqs - {h}
  {
    FinishInv(v, h);
    assert Next(v, Finishes(h)) == Finish(v, h);
  }

  lemma NextMoves(v: Vq, e: Step)
    requires Inv(v) && Possible(v, e)
    ensures Moves(v, e, Next(v, e).reqs)
  {
    HeadsAre(v);
    match e
    case Submits(h, r) => NextSubmits(v, h, r);
    case Fetches => NextFetches(v);
    case Completes(h) => NextCompletes(v, h);
    case Handles => NextHandles(v);
    case Finishes(h) => NextFinishes(v, h);
    case Changes(b, x) =>
  }

  lemma PhaseMoves(v: Vq, e: Step, w: map<nat, Request>, h: nat)
    requires Moves(v, e, w) && h in v.reqs && Leaves(v, e, h)
    ensures h in w && w[h] == v.reqs[h].(phase := w[h].phase)
    ensures Pending(w[h]) <==> Pending(v.reqs[h]) && e != Completes(h)
    ensures e == Completes(h) ==> Pending(v.reqs[h]) && w[h] == v.reqs[h].(phase := Used)
  {
  }

  lemma BufsDiffer(v: Vq, e: Step, h: nat)
    requires Inv(v) && Possible(v, e) && h in v.reqs
    ensures e.Completes? && e.h != h ==> v.reqs[e.h].buf != v.reqs[h].buf
    ensures e.Changes? ==> e.b != v.reqs[h].buf
  {
  }

  lemma ProgressStep(st0: Store, v: Vq, e: Step, h: nat, r: Request)
    requires Inv(v) && Possible(v, e) && h in v.reqs && Leaves(v, e, h) && Progress(st0, v.st, r, v.reqs[h])
    ensures h in Next(v, e).reqs && Progress(st0, Next(v, e).st, r, Next(v, e).reqs[h])
  {
    NextMoves(v, e);
    PhaseMoves(v, e, Next(v, e).reqs, h);
    NextStore(v, e);
    BufsDiffer(v, e, h);
    StoreMoves(st0, v.st, Next(v, e).st, e, v.reqs, h, r, Next(v, e).reqs[h]);
  }

  /** The same on values. */
  lemma StoreMoves(st0: Store, st: Store, t: Store, e: Step, reqs: map<nat, Request>, h: nat, r: Request, q: Request)
    requires h in reqs && Progress(st0, st, r, reqs[h]) && (e.Completes? ==> e.h in reqs)
    requires q == reqs[h].(phase := q.phase) && (Pending(q) <==> Pending(reqs[h]) && e != Completes(h))
    requires e == Completes(h) ==> Pending(reqs[h]) && q == reqs[h].(phase := Used)
    requires e.Completes? && e.h != h ==> reqs[e.h].block != r.block && reqs[e.h].buf != r.buf
    requires e.Completes? ==> Carries(st, reqs[e.h]) && t == Transferred(st, reqs[e.h])
    requires e.Changes? ==> e.b != r.buf && t == st.(data := st.data[e.b := e.x])
    requires !e.Completes? && !e.Changes? ==> t == st
    ensures Progress(st0, t, r, q)
  {
    if e == Completes(h) {
      ProgressOwn(st0, st, r, reqs[h]);
      assert Transferred(st, reqs[h]) == Transferred(st, r);
    } else if e.Completes? {
      ProgressOther(st0, st, r, reqs[h], reqs[e.h]);
    }
  }

  predicate LeavesAll(v: Vq, es: seq<Step>, h: nat)
    requires Inv(v) && Legal(v, es)
    decreases |es|
  {
    es == [] || (h in v.reqs && Leaves(v, es[0], h) && LeavesAll(Next(v, es[0]), es[1..], h))
  }

  lemma {:induction false} ProgressRun(st0: Store, v: Vq, es: seq<Step>, h: nat, r: Request)
    requires Inv(v) && Legal(v, es) && LeavesAll(v, es, h) && h in v.reqs && Progress(st0, v.st, r, v.reqs[h])
    ensures h in After(v, es).reqs && Progress(st0, After(v, es).st, r, After(v, es).reqs[h])
    decreases |es|
  {
    if es != [] {
      ProgressStep(st0, v, es[0], h, r);
      ProgressRun(st0, Next(v, es[0]), es[1..], h, r);
    }
  }

  /** Whatever the driver, the device and other requests do in the meantime, in any order, as long as no other request
      for the same block is carried out: when the interrupt of a request has been handled, its status is 0; a read
      has left the block of the disk in the buffer, and a write the buffer on the disk. */
  lemma RequestDone(v: Vq, h: nat, r: Request, es: seq<Step>)
    requires Inv(v) && Chosen(v, h, r) && (forall g :: g in v.reqs ==> v.reqs[g].buf != r.buf)
    requires (SubmitInv(v, h, r); Legal(Submit(v, h, r), es) && LeavesAll(Submit(v, h, r), es, h))
    ensures var w := (SubmitInv(v, h, r); After(Submit(v, h, r), es));
            && h in w.reqs && Carries(v.st, r) && Carries(w.st, r)
            && (r.buf !in w.busy ==> h < NUM && w.info[h].status == 0)
            && (r.buf !in w.busy && !r.write ==> w.st.data[r.buf] == BlockAt(v.st, r.block))
            && (r.buf !in w.busy && r.write ==> BlockAt(w.st, r.block) == v.st.data[r.buf])
  {
    SubmitInv(v, h, r);
    ProgressRun(v.st, Submit(v, h, r), es, h, r);
    var w := After(Submit(v, h, r), es);
    assert PhaseOk(w, h) && ChainOk(w, h);
  }
}
