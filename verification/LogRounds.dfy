/** The rounds of write_log and install_trans of kernel/log.c over the buffer cache, and what holds of the
    cache between them. Buffers that a commit does not need may be held by others meanwhile. */
module LogRounds {
  import opened Sequences
  import opened Blocks
  import opened CacheSpec
  import opened LogSpec
  import O = CacheOps
  import B = BufferCache

  ghost predicate PinnedAt(c: Cache, k: nat) {
    k in c.slot && c.slot[k] < |c.held| && c.held[c.slot[k]].pinned
  }

  /** All logged blocks are pinned, and of the first n buffers only theirs are. */
  ghost predicate PinsTo(c: Cache, lh: seq<nat>, n: nat) {
    if n == 0 then |c.buf| == |c.held| && forall q :: q in lh ==> PinnedAt(c, q)
    else n <= |c.buf| == |c.held| && (c.held[n - 1].pinned ==> c.buf[n - 1].blockno in lh) && PinsTo(c, lh, n - 1)
  }

  /** The pinned buffers are those of the logged blocks. */
  ghost predicate Pins(c: Cache, lh: seq<nat>) {
    PinsTo(c, lh, |c.held|)
  }

  lemma {:induction false} PinsIff(c: Cache, lh: seq<nat>, n: nat)
    requires n <= |c.held|
    ensures PinsTo(c, lh, n) <==>
            && |c.buf| == |c.held| && (forall q :: q in lh ==> PinnedAt(c, q))
            && forall i :: 0 <= i < n && c.held[i].pinned ==> c.buf[i].blockno in lh
  {
    if n > 0 {
      PinsIff(c, lh, n - 1);
    }
  }

  lemma PinnedEntry(c: Cache, lh: seq<nat>, t: nat)
    requires Pins(c, lh) && t < |lh|
    ensures PinnedAt(c, lh[t])
  {
    PinsIff(c, lh, |c.held|);
    assert lh[t] in lh;
  }

  lemma PinsKept(c: Cache, d: Cache, lh: seq<nat>)
    requires Pins(c, lh) && O.Steady(c, d) && d.held == c.held
    ensures Pins(d, lh)
  {
    PinsIff(c, lh, |c.held|);
    PinsIff(d, lh, |c.held|);
  }

  /** No block of the log region is waiting to be written. */
  ghost predicate LogClean(c: Cache, lay: Layout) {
    forall k :: 0 <= k < |c.disk| && InLog(lay, k) && k < |c.latest| ==> c.latest[k] == c.disk[k]
  }

  /** Copy cached block l to block k of the log and write it. */
  method LogRound(bc: B.Bcache, k: nat, l: nat, ghost ks: iset<nat>)
    requires bc.Valid() && O.Calm(bc.View(), ks) && O.CanBreadTwo(bc.View(), k, l) && k != l
    requires l in bc.slot && bc.slot[l] < NBUF && bc.held[bc.slot[l]].pinned && l < |bc.disk|
    modifies bc
    ensures bc.Valid() && O.Calm(bc.View(), ks) && O.Steady(old(bc.View()), bc.View()) && bc.held == old(bc.held)
    ensures bc.disk == old(bc.disk)[k := old(bc.latest)[l]] && bc.latest == old(bc.latest)[k := old(bc.latest)[l]]
    ensures bc.history == old(bc.history) + [bc.disk]
  {
    ghost var c := bc.View();
    var to, from := bc.BreadTwo(k, l);
    O.LogRoundBody(c, k, to, l, from, ks);
    bc.CopyWrite(to, from);
    bc.BrelseTwo(from, to);
    O.LogRoundDone(c, k, to, l, from, bc.View(), ks);
  }

  /** Copy block k of the log to its home l and write it. */
  method InstallRound(bc: B.Bcache, k: nat, l: nat, recovering: bool, ghost ks: iset<nat>)
    requires bc.Valid() && O.Calm(bc.View(), ks) && O.CanBreadTwo(bc.View(), k, l) && k != l
    requires k < |bc.disk| && l < |bc.disk| && bc.latest[k] == bc.disk[k] && O.Installable(bc.View(), l, recovering)
    modifies bc
    ensures bc.Valid() && O.Calm(bc.View(), ks) && O.Steady(old(bc.View()), bc.View())
    ensures recovering ==> bc.held == old(bc.held)
    ensures !recovering ==>
            bc.held == old(bc.held)[old(bc.slot)[l] := Holders(old(bc.held)[old(bc.slot)[l]].users, false)]
    ensures bc.disk == old(bc.disk)[l := old(bc.latest)[k]] && bc.latest == old(bc.latest)[l := old(bc.latest)[k]]
    ensures bc.history == old(bc.history) + [bc.disk]
  {
    ghost var c := bc.View();
    var lbuf, dbuf := bc.BreadTwo(k, l);
    O.InstallRoundBody(c, k, lbuf, l, dbuf, recovering, ks);
    bc.CopyWrite(dbuf, lbuf);
    if !recovering {
      bc.Bunpin(dbuf);
    }
    bc.BrelseTwo(lbuf, dbuf);
    O.InstallRoundDone(c, k, lbuf, l, dbuf, recovering, bc.View(), ks);
    if !recovering { O.PinnedIsPicked(c, k, lbuf, l, dbuf); }
  }

  /** The blocks that a commit of lh reads and writes: those of the log, and the logged ones. */
  ghost function Zone(lay: Layout, lh: seq<nat>): iset<nat> {
    iset k: nat | InLog(lay, k) || k in lh
  }

  /** Unpinning the first of the remaining logged blocks leaves the rest pinned. */
  lemma PinsDrop(c: Cache, d: Cache, lh: seq<nat>, tail: nat)
    requires Ok(c) && tail < |lh| && Distinct(lh) && Pins(c, lh[tail..]) && O.Steady(c, d)
    requires lh[tail] in c.slot && c.slot[lh[tail]] < |c.held|
    requires d.held == c.held[c.slot[lh[tail]] := Holders(c.held[c.slot[lh[tail]]].users, false)]
    ensures Pins(d, lh[tail+1..])
  {
    PinsIff(c, lh[tail..], |c.held|);
    PinsIff(d, lh[tail+1..], |c.held|);
    SlotAt(c, lh[tail]);
    assert lh[tail..] == [lh[tail]] + lh[tail+1..];
    forall q | q in lh[tail+1..] ensures PinnedAt(d, q) {
      assert q in lh[tail..] && q != lh[tail];
      SlotAt(c, q);
    }
    forall i | 0 <= i < |d.held| && d.held[i].pinned ensures d.buf[i].blockno in lh[tail+1..] {
      assert c.buf[i].blockno in lh[tail..];
      BufAt(c, i);
    }
  }

  /** The blocks from lh[tail] on wait to be installed. In a commit they are the pinned ones
      and a buffer is spare; in recovery every buffer is. */
  ghost predicate ToInstall(c: Cache, lh: seq<nat>, tail: nat, recovering: bool)
    requires tail <= |lh|
  {
    if recovering then O.AllSpare(c.held) else O.Spare(c.held) && Distinct(lh) && Pins(c, lh[tail..])
  }

  lemma InstallStarts(c: Cache, lh: seq<nat>, tail: nat, k: nat, recovering: bool, ks: iset<nat>)
    requires O.Calm(c, ks) && tail < |lh| && k in ks && lh[tail] in ks && ToInstall(c, lh, tail, recovering)
    requires k < |c.disk| && lh[tail] < |c.disk| && k != lh[tail]
    ensures O.CanBreadTwo(c, k, lh[tail]) && O.Installable(c, lh[tail], recovering)
  {
    if recovering {
      O.AllSpareBreadTwo(c, k, lh[tail], ks);
    } else {
      PinsIff(c, lh[tail..], |c.held|);
      assert lh[tail] in lh[tail..];
      O.SpareBreadPinned(c, k, lh[tail], ks);
    }
  }

  lemma InstallEnds(c: Cache, d: Cache, lh: seq<nat>, tail: nat, recovering: bool)
    requires Ok(c) && tail < |lh| && ToInstall(c, lh, tail, recovering) && O.Steady(c, d)
    requires O.Installable(c, lh[tail], recovering)
    requires d.held == if recovering then c.held
                       else c.held[c.slot[lh[tail]] := Holders(c.held[c.slot[lh[tail]]].users, false)]
    ensures ToInstall(d, lh, tail + 1, recovering)
  {
    if !recovering {
      PinsDrop(c, d, lh, tail);
      StillSpare(c.held, c.slot[lh[tail]]);
    }
  }

  /** One round of write_log: cached block lh[tail] goes to block k of the log. */
  method CopyOne(bc: B.Bcache, lh: seq<nat>, tail: nat, k: nat, ghost ks: iset<nat>)
    requires bc.Valid() && O.Calm(bc.View(), ks) && O.Spare(bc.held) && Pins(bc.View(), lh)
    requires tail < |lh| && k < |bc.disk| && lh[tail] < |bc.disk| && k != lh[tail] && k in ks && lh[tail] in ks
    modifies bc
    ensures bc.Valid() && O.Calm(bc.View(), ks) && Pins(bc.View(), lh) && bc.held == old(bc.held)
    ensures O.Undisturbed(old(bc.View()), bc.View())
    ensures bc.disk == old(bc.disk)[k := old(bc.latest)[lh[tail]]]
    ensures bc.latest == old(bc.latest)[k := old(bc.latest)[lh[tail]]]
    ensures bc.history == old(bc.history) + [bc.disk]
  {
    ghost var c := bc.View();
    PinnedEntry(c, lh, tail);
    O.SpareBreadPinned(c, k, lh[tail], ks);
    LogRound(bc, k, lh[tail], ks);
    PinsKept(c, bc.View(), lh);
  }

  /** One round of install_trans: block k of the log goes to its home lh[tail]. */
  method InstallOne(bc: B.Bcache, lh: seq<nat>, tail: nat, k: nat, recovering: bool, ghost ks: iset<nat>)
    requires bc.Valid() && O.Calm(bc.View(), ks) && tail < |lh| && ToInstall(bc.View(), lh, tail, recovering)
    requires k < |bc.disk| && lh[tail] < |bc.disk| && k != lh[tail] && bc.latest[k] == bc.disk[k]
    requires k in ks && lh[tail] in ks
    modifies bc
    ensures bc.Valid() && O.Calm(bc.View(), ks) && ToInstall(bc.View(), lh, tail + 1, recovering)
    ensures O.Undisturbed(old(bc.View()), bc.View())
    ensures bc.disk == old(bc.disk)[lh[tail] := old(bc.disk)[k]]
    ensures bc.latest == old(bc.latest)[lh[tail] := old(bc.latest)[k]]
    ensures bc.history == old(bc.history) + [bc.disk]
  {
    ghost var c := bc.View();
    InstallStarts(c, lh, tail, k, recovering, ks);
    InstallRound(bc, k, lh[tail], recovering, ks);
    InstallEnds(c, bc.View(), lh, tail, recovering);
  }

  lemma InZone(d: Disk, lay: Layout, lh: seq<nat>, tail: nat, k: nat, ks: iset<nat>)
    requires Loggable(d, lay, lh) && tail < |lh| && k == lay.start + tail + 1 && ks == Zone(lay, lh)
    ensures k < |d| && lh[tail] < |d| && k != lh[tail] && k in ks && lh[tail] in ks
  {
  }

  lemma Append(h: seq<Disk>, t: seq<Disk>, d: Disk, g: seq<Disk>)
    requires g == h + t
    ensures g + [d] == h + (t + [d])
  {
  }

  lemma CopyStep(c: Cache, e: Cache, lay: Layout, lh: seq<nat>, tail: nat, d: Disk, mem: Disk)
    requires Loggable(d, lay, lh) && |mem| == |d| && tail < |lh| && |c.latest| == |c.disk| && LogClean(c, lay)
    requires c.disk == LogCopy(d, lay, lh, mem, tail) && SameHome(c.latest, mem, lay)
    requires lay.start + tail + 1 < |c.disk| && lh[tail] < |c.disk|
    requires e.disk == c.disk[lay.start + tail + 1 := c.latest[lh[tail]]]
    requires e.latest == c.latest[lay.start + tail + 1 := c.latest[lh[tail]]]
    ensures LogClean(e, lay) && Loggable(e.disk, lay, lh) && SameHome(e.latest, mem, lay)
    ensures e.disk == LogCopy(d, lay, lh, mem, tail + 1)
  {
  }

  /** The body of the loop of write_log. */
  method WriteNext(bc: B.Bcache, lay: Layout, lh: seq<nat>, tail: nat, ghost d: Disk, ghost mem: Disk,
          ghost ks: iset<nat>)
    requires bc.Valid() && O.Calm(bc.View(), ks) && O.Spare(bc.held) && Pins(bc.View(), lh) && ks == Zone(lay, lh)
    requires tail < |lh| && Loggable(d, lay, lh) && |mem| == |d| && LogClean(bc.View(), lay)
    requires bc.disk == LogCopy(d, lay, lh, mem, tail) && SameHome(bc.latest, mem, lay)
    modifies bc
    ensures bc.Valid() && O.Calm(bc.View(), ks) && Pins(bc.View(), lh) && bc.held == old(bc.held)
    ensures LogClean(bc.View(), lay) && O.Undisturbed(old(bc.View()), bc.View())
    ensures bc.disk == LogCopy(d, lay, lh, mem, tail + 1) && SameHome(bc.latest, mem, lay)
    ensures bc.history == old(bc.history) + [bc.disk]
  {
    ghost var c := bc.View();
    var k := lay.start + tail + 1;
    InZone(d, lay, lh, tail, k, ks);
    CopyOne(bc, lh, tail, k, ks);
    CopyStep(c, bc.View(), lay, lh, tail, d, mem);
  }

  /** The loop of write_log. */
  method WriteAll(bc: B.Bcache, lay: Layout, lh: seq<nat>, ghost ks: iset<nat>)
    requires bc.Valid() && O.Calm(bc.View(), ks) && O.Spare(bc.held) && Pins(bc.View(), lh)
    requires Loggable(bc.disk, lay, lh) && LogClean(bc.View(), lay) && ks == Zone(lay, lh)
    modifies bc
    ensures bc.Valid() && O.Calm(bc.View(), ks) && Pins(bc.View(), lh) && bc.held == old(bc.held)
    ensures Loggable(bc.disk, lay, lh) && LogClean(bc.View(), lay) && O.Undisturbed(old(bc.View()), bc.View())
    ensures |old(bc.latest)| == |old(bc.disk)| && bc.disk == LogCopy(old(bc.disk), lay, lh, old(bc.latest), |lh|)
    ensures SameHome(bc.latest, old(bc.latest), lay)
    ensures bc.history == old(bc.history) + CommitTrace(old(bc.disk), lay, lh, old(bc.latest), |lh|)
  {
    ghost var d, mem := bc.disk, bc.latest;
    UndisturbedSelf(bc.View());
    var tail := 0;
    while tail < |lh|
      invariant 0 <= tail <= |lh| && bc.Valid() && O.Calm(bc.View(), ks) && Pins(bc.View(), lh) &&
                bc.held == old(bc.held)
      invariant LogClean(bc.View(), lay) && O.Undisturbed(old(bc.View()), bc.View())
      invariant bc.disk == LogCopy(d, lay, lh, mem, tail) && SameHome(bc.latest, mem, lay)
      invariant bc.history == old(bc.history) + CommitTrace(d, lay, lh, mem, tail)
    {
      ghost var c, h := bc.View(), bc.history;
      WriteNext(bc, lay, lh, tail, d, mem, ks);
      UndisturbedTrans(old(bc.View()), c, bc.View());
      Append(old(bc.history), CommitTrace(d, lay, lh, mem, tail), bc.disk, h);
      tail := tail + 1;
    }
  }

  /** The body of the loop of install_trans. */
  method InstallNext(bc: B.Bcache, lay: Layout, lh: seq<nat>, tail: nat, recovering: bool, ghost d: Disk,
          ghost mem: Disk, ghost ks: iset<nat>)
    requires bc.Valid() && O.Calm(bc.View(), ks) && tail < |lh| && ToInstall(bc.View(), lh, tail, recovering) &&
             ks == Zone(lay, lh)
    requires Loggable(d, lay, lh) && |mem| == |d| && forall k :: 0 <= k < |d| && InLog(lay, k) ==> mem[k] == d[k]
    requires bc.disk == Install(d, lay, lh, tail) && bc.latest == Install(mem, lay, lh, tail)
    modifies bc
    ensures bc.Valid() && O.Calm(bc.View(), ks) && ToInstall(bc.View(), lh, tail + 1, recovering)
    ensures O.Undisturbed(old(bc.View()), bc.View())
    ensures bc.disk == Install(d, lay, lh, tail + 1) && bc.latest == Install(mem, lay, lh, tail + 1)
    ensures bc.history == old(bc.history) + [bc.disk]
  {
    var k := lay.start + tail + 1;
    InZone(d, lay, lh, tail, k, ks);
    InstallAt(d, lay, lh, tail, k);
    InstallAt(mem, lay, lh, tail, k);
    InstallOne(bc, lh, tail, k, recovering, ks);
  }

  /** The loop of install_trans. */
  method InstallAll(bc: B.Bcache, lay: Layout, lh: seq<nat>, recovering: bool, ghost ks: iset<nat>)
    requires bc.Valid() && O.Calm(bc.View(), ks) && ToInstall(bc.View(), lh, 0, recovering) && ks == Zone(lay, lh)
    requires Loggable(bc.disk, lay, lh) && LogClean(bc.View(), lay)
    modifies bc
    ensures bc.Valid() && O.Calm(bc.View(), ks) && ToInstall(bc.View(), lh, |lh|, recovering)
    ensures O.Undisturbed(old(bc.View()), bc.View())
    ensures bc.disk == Install(old(bc.disk), lay, lh, |lh|)
    ensures |old(bc.latest)| == |old(bc.disk)| && bc.latest == Install(old(bc.latest), lay, lh, |lh|)
    ensures bc.history == old(bc.history) + RedoTrace(old(bc.disk), lay, lh, |lh|)
  {
    ghost var d, mem := bc.disk, bc.latest;
    UndisturbedSelf(bc.View());
    var tail := 0;
    while tail < |lh|
      invariant 0 <= tail <= |lh| && bc.Valid() && O.Calm(bc.View(), ks)
      invariant ToInstall(bc.View(), lh, tail, recovering) && O.Undisturbed(old(bc.View()), bc.View())
      invariant bc.disk == Install(d, lay, lh, tail) && bc.latest == Install(mem, lay, lh, tail)
      invariant bc.history == old(bc.history) + RedoTrace(d, lay, lh, tail)
    {
      ghost var c, h := bc.View(), bc.history;
      InstallNext(bc, lay, lh, tail, recovering, d, mem, ks);
      UndisturbedTrans(old(bc.View()), c, bc.View());
      Append(old(bc.history), RedoTrace(d, lay, lh, tail), bc.disk, h);
      tail := tail + 1;
    }
  }

  lemma UndisturbedSelf(c: Cache)
    ensures O.Undisturbed(c, c)
  {
    O.UndisturbedIff(c, c, |c.buf|);
  }

  lemma CalmLess(c: Cache, ks: iset<nat>, fewer: iset<nat>)
    requires O.Calm(c, ks) && fewer <= ks
    ensures O.Calm(c, fewer)
  {
    O.CalmIff(c, ks, |c.buf|);
    O.CalmIff(c, fewer, |c.buf|);
  }

  lemma UndisturbedTrans(c: Cache, d: Cache, e: Cache)
    requires O.Undisturbed(c, d) && O.Undisturbed(d, e)
    ensures O.Undisturbed(c, e)
  {
    O.UndisturbedIff(c, d, |c.buf|);
    O.UndisturbedIff(d, e, |c.buf|);
    O.UndisturbedIff(c, e, |c.buf|);
  }

  lemma InstallKeepsClean(d: Disk, mem: Disk, c: Cache, lay: Layout, lh: seq<nat>)
    requires Loggable(d, lay, lh) && |mem| == |d| && forall k :: 0 <= k < |d| && InLog(lay, k) ==> mem[k] == d[k]
    requires c.disk == Install(d, lay, lh, |lh|) && c.latest == Install(mem, lay, lh, |lh|)
    ensures LogClean(c, lay)
  {
    forall k | 0 <= k < |d| && InLog(lay, k) ensures c.latest[k] == c.disk[k] {
      InstallAt(d, lay, lh, |lh|, k);
      InstallAt(mem, lay, lh, |lh|, k);
    }
  }

  lemma NothingLeft(c: Cache, lh: seq<nat>, recovering: bool)
    requires Ok(c) && ToInstall(c, lh, |lh|, recovering)
    ensures ToInstall(c, [], 0, recovering) && O.Spare(c.held)
  {
    assert lh[|lh|..] == [];
    assert recovering ==> c.held[0] == Holders(0, false);
  }

  lemma StillNothing(c: Cache, d: Cache, recovering: bool)
    requires ToInstall(c, [], 0, recovering) && O.Steady(c, d) && d.held == c.held
    ensures ToInstall(d, [], 0, recovering)
  {
    if !recovering {
      PinsKept(c, d, [][0..]);
    }
  }

  ghost predicate Cleared(d: Disk, lay: Layout) {
    HeadOk(d, lay) && Header(d, lay) == []
  }

  /** While no commit is in progress: the header on disk is empty, the logged blocks are
      distinct home blocks, and the log region of the disk is up to date. */
  ghost predicate Idle(c: Cache, lay: Layout, lh: seq<nat>) {
    && Loggable(c.disk, lay, lh) && lay.size <= LOGSIZE && LogClean(c, lay) && Cleared(c.disk, lay)
    && Distinct(lh) && |c.buf| == |c.held|
    && (forall i :: 0 <= i < |c.held| && c.held[i].pinned ==> c.buf[i].blockno in lh)
  }

  /** And the first m logged blocks are pinned in the cache. */
  ghost predicate Consistent(c: Cache, lay: Layout, lh: seq<nat>, m: nat) {
    if m == 0 then Idle(c, lay, lh) else m <= |lh| && PinnedAt(c, lh[m-1]) && Consistent(c, lay, lh, m - 1)
  }

  lemma {:induction false} ConsistentMeans(c: Cache, lay: Layout, lh: seq<nat>, m: nat)
    requires Consistent(c, lay, lh, m)
    ensures m <= |lh| && Idle(c, lay, lh) && forall t :: 0 <= t < m ==> PinnedAt(c, lh[t])
  {
    if m > 0 {
      ConsistentMeans(c, lay, lh, m - 1);
    }
  }

  lemma MakeConsistent(c: Cache, lay: Layout, lh: seq<nat>, m: nat)
    requires Consistent(c, lay, lh, 0) && m <= |lh| && forall t :: 0 <= t < m ==> PinnedAt(c, lh[t])
    ensures Consistent(c, lay, lh, m)
  {
  }

  /** log_write of a block that was not logged: append it and pin its buffer. */
  lemma PinConsistent(c: Cache, lay: Layout, lh: seq<nat>, b: nat)
    requires Ok(c) && Consistent(c, lay, lh, |lh|) && Owned(c, b) && c.buf[b].blockno !in lh
    requires |lh| < LOGSIZE && |lh| < lay.size - 1 && c.buf[b].blockno < |c.disk| && !InLog(lay, c.buf[b].blockno)
    ensures !c.held[b].pinned && Consistent(Pin(c, b), lay, lh + [c.buf[b].blockno], |lh| + 1)
  {
    var l := lh + [c.buf[b].blockno];
    ConsistentMeans(c, lay, lh, |lh|);
    BufAt(c, b);
    MakeConsistent(Pin(c, b), lay, l, |l|);
  }

  /** log_write of a logged block leaves the log as it was. */
  lemma AbsorbedIsPinned(c: Cache, lay: Layout, lh: seq<nat>, b: nat, i: nat)
    requires Ok(c) && Consistent(c, lay, lh, |lh|) && Owned(c, b) && i < |lh| && c.buf[b].blockno == lh[i]
    ensures c.held[b].pinned && lh[i := c.buf[b].blockno] == lh
  {
    ConsistentMeans(c, lay, lh, |lh|);
    BufAt(c, b);
  }

  /** What a commit of the logged blocks appends to the history of the disk. */
  ghost function CommitWrites(d: Disk, lay: Layout, lh: seq<nat>, mem: Disk): seq<Disk>
    requires Loggable(d, lay, lh) && |mem| == |d|
  {
    if lh == [] then [] else CommitTrace(d, lay, lh, mem, 2 * |lh| + 2)
  }

  /** Whatever was modified has been logged: a valid buffer that is not pinned is as its block on disk. */
  ghost predicate NoneUnlogged(c: Cache) {
    && |c.buf| == |c.held|
    && forall i :: 0 <= i < |c.buf| && c.buf[i].valid && !c.held[i].pinned ==>
         c.buf[i].blockno < |c.disk| && c.buf[i].data == c.disk[c.buf[i].blockno]
  }

  /** Then a block that differs from the disk is in the log. */
  lemma DirtyIsLogged(c: Cache, lay: Layout, lh: seq<nat>)
    requires Ok(c) && NoneUnlogged(c) && Idle(c, lay, lh)
    ensures forall k :: 0 <= k < |c.disk| && k !in lh ==> c.latest[k] == c.disk[k]
  {
    forall k | 0 <= k < |c.disk| && k !in lh ensures c.latest[k] == c.disk[k] {
      CoherentIff(c, |c.buf|);
      if k in c.slot {
        SlotAt(c, k);
      }
    }
  }

  /** Every disk that a commit leaves behind, from its first write to its last, recovers to the
      home blocks as they were on disk or as the cache has them; none of them to a mixture. Buffers
      may be locked at the time, as long as what was modified has been logged. */
  lemma EveryWriteIsAtomic(c: Cache, lay: Layout, lh: seq<nat>, i: nat)
    requires Ok(c) && NoneUnlogged(c) && Consistent(c, lay, lh, |lh|)
    ensures Loggable(c.disk, lay, lh) && |c.latest| == |c.disk|
    ensures var t := CommitWrites(c.disk, lay, lh, c.latest);
            i < |t| ==> Atomic(t[i], c.disk, c.latest, lay)
  {
    ConsistentMeans(c, lay, lh, |lh|);
    DirtyIsLogged(c, lay, lh);
    AtomicWrites(c.disk, lay, lh, c.latest, i);
  }

  lemma AtomicWrites(d: Disk, lay: Layout, lh: seq<nat>, mem: Disk, i: nat)
    requires Loggable(d, lay, lh) && |mem| == |d| && forall k :: 0 <= k < |d| && k !in lh ==> mem[k] == d[k]
    requires Cleared(d, lay)
    ensures var t := CommitWrites(d, lay, lh, mem);
            i < |t| ==> Atomic(t[i], d, mem, lay)
  {
    if lh != [] && i < 2 * |lh| + 2 {
      CommitIsAtomic(d, lay, lh, mem, i + 1);
    }
  }

  lemma {:induction false} Pigeonhole(s: seq<nat>, t: seq<nat>)
    requires Distinct(s) && forall i :: 0 <= i < |s| ==> s[i] in t
    ensures |s| <= |t|
  {
    if s != [] {
      var x, s' := s[|s|-1], s[..|s|-1];
      var j :| 0 <= j < |t| && t[j] == x;
      var t' := t[..j] + t[j+1..];
      forall i | 0 <= i < |s'| ensures s'[i] in t' {
        var l :| 0 <= l < |t| && t[l] == s[i];
        assert t'[if l < j then l else l - 1] == s[i];
      }
      Pigeonhole(s', t');
    }
  }

  // ---------- when commit finds a buffer ----------

  /** How many of the first n buffers the log has pinned. */
  ghost function PinnedCount(held: seq<Holders>, n: nat): nat
    requires n <= |held|
  {
    if n == 0 then 0 else PinnedCount(held, n - 1) + if held[n - 1].pinned then 1 else 0
  }

  /** How many of the others somebody uses. */
  ghost function UserCount(held: seq<Holders>, n: nat): nat
    requires n <= |held|
  {
    if n == 0 then 0 else UserCount(held, n - 1) + if !held[n - 1].pinned && held[n - 1].users > 0 then 1 else 0
  }

  lemma {:induction false} SpareIffCount(held: seq<Holders>, n: nat)
    requires n <= |held|
    ensures PinnedCount(held, n) + UserCount(held, n) <= n
    ensures PinnedCount(held, n) + UserCount(held, n) < n <==> exists i :: 0 <= i < n && held[i] == Holders(0, false)
  {
    if n > 0 {
      SpareIffCount(held, n - 1);
    }
  }

  /** The blocks of the pinned ones among the first n buffers. */
  ghost function PinnedBlocks(c: Cache, n: nat): (s: seq<nat>)
    requires n <= |c.held| == |c.buf|
    ensures |s| == PinnedCount(c.held, n)
    ensures forall k :: k in s <==> exists i :: 0 <= i < n && c.held[i].pinned && c.buf[i].blockno == k
  {
    if n == 0 then [] else PinnedBlocks(c, n - 1) + if c.held[n - 1].pinned then [c.buf[n - 1].blockno] else []
  }

  lemma {:induction false} PinnedDistinct(c: Cache, n: nat)
    requires Ok(c) && n <= NBUF
    ensures Distinct(PinnedBlocks(c, n))
  {
    if n > 0 {
      PinnedDistinct(c, n - 1);
      var x := c.buf[n - 1].blockno;
      if c.held[n - 1].pinned && x in PinnedBlocks(c, n - 1) {
        var i :| 0 <= i < n - 1 && c.held[i].pinned && c.buf[i].blockno == x;
        BufAt(c, i);
        BufAt(c, n - 1);
        assert false;
      }
    }
  }

  /** The log has pinned exactly as many buffers as there are blocks to be pinned. */
  lemma PinnedIsLogged(c: Cache, lh: seq<nat>)
    requires Ok(c) && Pins(c, lh) && Distinct(lh)
    ensures PinnedCount(c.held, NBUF) == |lh|
  {
    PinsIff(c, lh, |c.held|);
    var s := PinnedBlocks(c, NBUF);
    PinnedDistinct(c, NBUF);
    forall i | 0 <= i < |s| ensures s[i] in lh {
      assert s[i] in s;
    }
    Pigeonhole(s, lh);
    forall t | 0 <= t < |lh| ensures lh[t] in s {
      assert lh[t] in lh && PinnedAt(c, lh[t]);
      SlotAt(c, lh[t]);
    }
    Pigeonhole(lh, s);
  }

  /** bread finds a buffer for a block that is not cached exactly when the pinned blocks and the other
      buffers in use are fewer than NBUF together. */
  lemma SpareIff(c: Cache, lh: seq<nat>)
    requires Ok(c) && Pins(c, lh) && Distinct(lh)
    ensures O.Spare(c.held) <==> |lh| + UserCount(c.held, NBUF) < NBUF
  {
    PinnedIsLogged(c, lh);
    SpareIffCount(c.held, NBUF);
  }

  lemma {:induction false} NobodyCounts(held: seq<Holders>, n: nat)
    requires n <= |held| && forall i :: 0 <= i < |held| ==> held[i].users == 0
    ensures UserCount(held, n) == 0
  {
    if n > 0 {
      NobodyCounts(held, n - 1);
    }
  }

  /** So with nobody inside a bread ... brelse bracket commit always finds one. */
  lemma SpareAtCommit(c: Cache, lay: Layout, lh: seq<nat>)
    requires Ok(c) && Consistent(c, lay, lh, |lh|) && forall i :: 0 <= i < |c.held| ==> c.held[i].users == 0
    ensures O.Spare(c.held)
  {
    CommitStarts(c, lay, lh);
    NobodyCounts(c.held, NBUF);
    SpareIff(c, lh);
  }

  // ---------- commit ----------

  lemma CommitStarts(c: Cache, lay: Layout, lh: seq<nat>)
    requires Ok(c) && Consistent(c, lay, lh, |lh|)
    ensures Pins(c, lh) && Idle(c, lay, lh)
  {
    ConsistentMeans(c, lay, lh, |lh|);
    forall q | q in lh ensures PinnedAt(c, q) {
      var t :| 0 <= t < |lh| && lh[t] == q;
    }
    PinsIff(c, lh, |c.held|);
  }

  /** After a commit nothing is logged. */
  lemma CommitEnds(d: Cache, lay: Layout)
    requires Ok(d) && Loggable(d.disk, lay, []) && LogClean(d, lay) && Pins(d, []) && Cleared(d.disk, lay) &&
             lay.size <= LOGSIZE
    ensures Consistent(d, lay, [], 0)
  {
    PinsIff(d, [], |d.held|);
  }

  lemma CommitClears(d: Disk, lay: Layout, lh: seq<nat>, mem: Disk)
    requires Loggable(d, lay, lh) && |mem| == |d|
    ensures Cleared(CommitDisk(d, lay, lh, mem, 2 * |lh| + 2), lay)
  {
    var c := PutHeader(LogCopy(d, lay, lh, mem, |lh|), lay, lh);
    HeaderWritten(Install(c, lay, lh, |lh|), lay, []);
  }

  /** A disk without a transaction recovers to itself. */
  lemma ClearedIsRecovered(d: Disk, lay: Layout)
    requires Cleared(d, lay)
    ensures SameHome(Recovered(d, lay), d, lay)
  {
  }

  /** The last disk of a commit has the blocks as the cache has them. */
  lemma CommitIsHome(c: Cache, lay: Layout, lh: seq<nat>)
    requires Ok(c) && NoneUnlogged(c) && Idle(c, lay, lh)
    ensures |c.latest| == |c.disk| && SameHome(CommitDisk(c.disk, lay, lh, c.latest, 2 * |lh| + 2), c.latest, lay)
  {
    var e := CommitDisk(c.disk, lay, lh, c.latest, 2 * |lh| + 2);
    DirtyIsLogged(c, lay, lh);
    AfterCommitPoint(c.disk, lay, lh, c.latest, 2 * |lh| + 2);
    CommitClears(c.disk, lay, lh, c.latest);
    ClearedIsRecovered(e, lay);
  }

  /** Right after the header write, the cached copies of the log blocks are the logged contents. */
  lemma HeadWritten(c: Cache, d: Disk, lay: Layout, lh: seq<nat>, mem: Disk)
    requires Loggable(d, lay, lh) && |mem| == |d| && |c.latest| == |c.disk| && LogClean(c, lay)
    requires c.disk == PutHeader(LogCopy(d, lay, lh, mem, |lh|), lay, lh) && SameHome(c.latest, mem, lay)
    ensures Loggable(c.latest, lay, lh) && SameHome(Install(c.latest, lay, lh, |lh|), mem, lay)
  {
    forall i | 0 <= i < |lh| ensures c.latest[lay.start + 1 + i] == mem[lh[i]] {
      LogCopyAt(d, lay, lh, mem, |lh|, i);
    }
    InstallOwnCopy(c.latest, lay, lh, mem);
  }

  method StoreWriteRelease(bc: B.Bcache, b: nat, d: Block)
    requires bc.Valid() && Owned(bc.View(), b) && bc.buf[b].blockno < |bc.disk|
    requires Owned(Write(Modify(bc.View(), b, d), b), b) && O.CanRelease(Write(Modify(bc.View(), b, d), b), b)
    modifies bc
    ensures bc.Valid() && bc.View() == Release(Write(Modify(old(bc.View()), b, d), b), b)
    ensures bc.history == old(bc.history) + [bc.disk]
  {
    bc.Store(b, d);
    bc.Bwrite(b);
    bc.Brelse(b);
  }

  lemma StillSpare(h: seq<Holders>, s: nat)
    requires O.Spare(h) && s < |h|
    ensures h[s].pinned ==> O.Spare(h[s := Holders(h[s].users, false)])
  {
    var i :| 0 <= i < |h| && h[i] == Holders(0, false);
    assert h[s].pinned ==> h[s := Holders(h[s].users, false)][i] == Holders(0, false);
  }
}
