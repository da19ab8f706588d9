/** kernel/log.c over the buffer cache: what each routine writes to the disk, and when; and that operations
    may use the cache at the same time. */
module Log {
  import opened Sequences
  import opened Blocks
  import opened CacheSpec
  import opened LogSpec
  import opened LogRounds
  import O = CacheOps
  import B = BufferCache
  import R = LogReservation

  // ---------- the log and the other users of the cache ----------

  /** A step that changes neither the disk nor the blocks of the log, and unpins nothing, keeps the log
      consistent with the cache. */
  lemma ConsistentKept(c: Cache, d: Cache, lay: Layout, lh: seq<nat>)
    requires Consistent(c, lay, lh, |lh|) && d.disk == c.disk && |d.latest| == |c.latest| && |d.buf| == |d.held|
    requires forall k :: 0 <= k < |d.latest| && InLog(lay, k) && k < |d.disk| ==>
               d.latest[k] == c.latest[k] || d.latest[k] == d.disk[k]
    requires forall i :: 0 <= i < |d.held| && d.held[i].pinned ==>
               i < |c.held| && c.held[i].pinned && i < |c.buf| && d.buf[i].blockno == c.buf[i].blockno
    requires forall t :: 0 <= t < |lh| && PinnedAt(c, lh[t]) ==> PinnedAt(d, lh[t])
    ensures Consistent(d, lay, lh, |lh|)
  {
    ConsistentMeans(c, lay, lh, |lh|);
    IdleKept(c, d, lay, lh);
    MakeConsistent(d, lay, lh, |lh|);
  }

  lemma IdleKept(c: Cache, d: Cache, lay: Layout, lh: seq<nat>)
    requires Idle(c, lay, lh) && d.disk == c.disk && |d.latest| == |c.latest| && |d.buf| == |d.held|
    requires forall k :: 0 <= k < |d.latest| && InLog(lay, k) && k < |d.disk| ==>
               d.latest[k] == c.latest[k] || d.latest[k] == d.disk[k]
    requires forall i :: 0 <= i < |d.held| && d.held[i].pinned ==>
               i < |c.held| && c.held[i].pinned && i < |c.buf| && d.buf[i].blockno == c.buf[i].blockno
    ensures Idle(d, lay, lh)
  {
  }

  lemma BreadKeeps(c: Cache, lay: Layout, lh: seq<nat>, k: nat, b: nat)
    requires Ok(c) && Consistent(c, lay, lh, |lh|) && O.Picks(c, k, b)
    ensures Consistent(O.Bread(c, k, b), lay, lh, |lh|)
    ensures var r := O.Bread(c, k, b); Owned(r, b) && r.buf[b].blockno == k < |r.latest| && r.buf[b].data == r.latest[k]
  {
    O.BreadOk(c, k, b);
    var d := O.Bread(c, k, b);
    forall t | 0 <= t < |lh| && PinnedAt(c, lh[t]) ensures PinnedAt(d, lh[t]) {
      SlotAt(c, lh[t]);
    }
    ConsistentKept(c, d, lay, lh);
  }

  lemma ModifyKeeps(c: Cache, lay: Layout, lh: seq<nat>, b: nat, d: Block)
    requires Ok(c) && Consistent(c, lay, lh, |lh|) && Owned(c, b) && !InLog(lay, c.buf[b].blockno)
    ensures c.buf[b].blockno < |c.latest| && Consistent(CacheSpec.Modify(c, b, d), lay, lh, |lh|)
  {
    ModifyOk(c, b, d);
    ConsistentKept(c, CacheSpec.Modify(c, b, d), lay, lh);
  }

  lemma ReleaseKeeps(c: Cache, lay: Layout, lh: seq<nat>, b: nat)
    requires Ok(c) && Consistent(c, lay, lh, |lh|) && Owned(c, b)
    ensures c.buf[b].refcnt > 0 && c.held[b].users > 0 && Consistent(Release(c, b), lay, lh, |lh|)
  {
    ReleaseOk(c, b);
    ConsistentKept(c, Release(c, b), lay, lh);
  }

  lemma AllSpareCalm(c: Cache, ks: iset<nat>)
    requires Ok(c) && O.AllSpare(c.held) && c.latest == c.disk
    ensures O.Calm(c, ks) && O.Spare(c.held)
  {
    CoherentIff(c, |c.buf|);
    O.CalmIff(c, ks, |c.buf|);
    assert c.held[0] == Holders(0, false);
  }

  /** What a commit does to the cache: nothing is logged any more, the disk has the latest contents of all
      blocks, and who holds a buffer finds it unchanged. */
  ghost predicate Committed(c: Cache, d: Cache, lay: Layout, lh: seq<nat>) {
    && Ok(d) && Consistent(d, lay, [], 0) && O.Undisturbed(c, d) && Pins(d, [])
    && SameHome(d.latest, c.latest, lay) && SameHome(d.disk, c.latest, lay)
  }

  lemma NothingToCommit(c: Cache, lay: Layout)
    requires Ok(c) && Idle(c, lay, []) && NoneUnlogged(c)
    ensures Committed(c, c, lay, [])
  {
    UndisturbedSelf(c);
    PinsIff(c, [], |c.held|);
    DirtyIsLogged(c, lay, []);
  }

  class Log {
    const bc: B.Bcache
    const lay: Layout          // log.start, log.size
    var lh: seq<nat>           // lh.block[0 .. lh.n]
    var outstanding: nat
    var committing: bool
    ghost var ops: seq<set<nat>>   // the blocks each outstanding operation has logged

    /** What holds whenever no commit is in progress. */
    ghost predicate Valid()
      reads this, bc
    {
      && bc.Valid() && Consistent(bc.View(), lay, lh, |lh|)
      && !committing && outstanding == |ops| && (ops == [] ==> lh == [])
    }

    /** initlog: recover from whatever a crash left on the disk, behind a cold cache. */
    constructor (b: B.Bcache, l: Layout)
      requires b.Valid() && O.AllSpare(b.held) && b.latest == b.disk
      requires HeadOk(b.disk, l) && l.size <= LOGSIZE
      modifies b
      ensures bc == b && lay == l && Valid() && Res() == R.EMPTY && O.AllSpare(bc.held)
      ensures bc.disk == Recovered(old(b.disk), lay) && bc.latest == bc.disk
      ensures bc.history ==
              old(b.history) + RedoTrace(old(b.disk), lay, Header(old(b.disk), lay), |Header(old(b.disk), lay)| + 1)
    {
      bc, lay, lh := b, l, [];
      outstanding, committing, ops := 0, false, [];
      new;
      RecoverFromLog();
    }

    ghost function Res(): R.State
      reads this
    {
      R.State(lh, ops)
    }

    ghost predicate Ready()
      reads this, bc
    {
      bc.Valid() && O.Calm(bc.View(), Zone(lay, lh)) && Loggable(bc.disk, lay, lh) && LogClean(bc.View(), lay)
    }

    /** write_log: the cached contents of the logged blocks go to the blocks of the log. */
    method WriteLog()
      requires Ready() && O.Spare(bc.held) && Pins(bc.View(), lh)
      modifies bc
      ensures Ready() && Pins(bc.View(), lh) && bc.held == old(bc.held) && O.Undisturbed(old(bc.View()), bc.View())
      ensures bc.disk == LogCopy(old(bc.disk), lay, lh, old(bc.latest), |lh|) &&
              SameHome(bc.latest, old(bc.latest), lay)
      ensures bc.history == old(bc.history) + CommitTrace(old(bc.disk), lay, lh, old(bc.latest), |lh|)
    {
      WriteAll(bc, lay, lh, Zone(lay, lh));
    }

    /** The loop of write_head, on the contents of the header block. */
    method FillHead(b: Block) returns (d: Block)
      requires |lh| <= LOGSIZE && forall i :: 0 <= i < |lh| ==> lh[i] < TWO32
      ensures d == EncodeHead(b, lh)
    {
      d := PutWord(b, 0, |lh|);
      var i := 0;
      while i < |lh|
        invariant 0 <= i <= |lh| && d == PutBlocks(PutWord(b, 0, |lh|), lh, i)
      {
        d := PutWord(d, i + 1, lh[i]);
        i := i + 1;
      }
    }

    /** write_head: with a list of blocks, this write commits the transaction. */
    method WriteHead()
      requires Ready() && O.Spare(bc.held)
      modifies bc
      ensures Ready() && bc.held == old(bc.held) && O.Steady(old(bc.View()), bc.View())
      ensures bc.disk == PutHeader(old(bc.disk), lay, lh) && SameHome(bc.latest, old(bc.latest), lay)
      ensures bc.history == old(bc.history) + [bc.disk]
    {
      ghost var c := bc.View();
      O.SpareBread(c, lay.start, Zone(lay, lh));
      var b := bc.Bread(lay.start);
      O.HeadRound(c, lay.start, b, bc.buf[b].data, Zone(lay, lh));
      var d := FillHead(bc.buf[b].data);
      O.HeadRound(c, lay.start, b, d, Zone(lay, lh));
      StoreWriteRelease(bc, b, d);
    }

    /** read_head: the transaction a crash may have left on the disk. */
    method ReadHead()
      requires bc.Valid() && O.AllSpare(bc.held) && HeadOk(bc.disk, lay) && bc.latest == bc.disk
      modifies `lh, bc
      ensures Ready() && bc.held == old(bc.held) && lh == Header(old(bc.disk), lay)
      ensures bc.disk == old(bc.disk) && bc.latest == old(bc.latest) && bc.history == old(bc.history)
    {
      ghost var c := bc.View();
      ghost var ks := Zone(lay, []);
      AllSpareCalm(c, ks);
      O.SpareBread(c, lay.start, ks);
      var b := bc.Bread(lay.start);
      O.ReadRound(c, lay.start, b, ks);
      lh := LoadHead(bc.buf[b].data);
      bc.Brelse(b);
      AllSpareCalm(bc.View(), Zone(lay, lh));
    }

    /** The loop of read_head. */
    method LoadHead(b: Block) returns (blocks: seq<nat>)
      requires HeadCount(b) <= LOGSIZE
      ensures blocks == DecodeHead(b)
    {
      var n, i := GetWord(b, 0), 0;
      blocks := [];
      while i < n
        invariant 0 <= i <= n && |blocks| == i
        invariant forall j :: 0 <= j < i ==> blocks[j] == GetWord(b, 1 + j)
      {
        blocks := blocks + [GetWord(b, 1 + i)];
        i := i + 1;
      }
    }

    /** install_trans: the contents of the log blocks go to the blocks they are logged for. */
    method InstallTrans(recovering: bool)
      requires Ready() && ToInstall(bc.View(), lh, 0, recovering)
      modifies bc
      ensures Ready() && ToInstall(bc.View(), lh, |lh|, recovering) && O.Undisturbed(old(bc.View()), bc.View())
      ensures bc.disk == Install(old(bc.disk), lay, lh, |lh|)
      ensures |bc.latest| == |old(bc.disk)| && bc.latest == Install(old(bc.latest), lay, lh, |lh|)
      ensures bc.history == old(bc.history) + RedoTrace(old(bc.disk), lay, lh, |lh|)
    {
      InstallAll(bc, lay, lh, recovering, Zone(lay, lh));
      InstallKeepsClean(old(bc.disk), old(bc.latest), bc.View(), lay, lh);
    }

    /** install_trans, log.lh.n = 0, write_head: the common tail of commit and recovery. */
    method InstallAndClear(recovering: bool)
      requires Ready() && ToInstall(bc.View(), lh, 0, recovering)
      modifies `lh, bc
      ensures Ready() && lh == [] && ToInstall(bc.View(), [], 0, recovering) && O.Undisturbed(old(bc.View()), bc.View())
      ensures bc.disk == Redo(old(bc.disk), lay, old(lh), |old(lh)| + 1)
      ensures |bc.latest| == |old(bc.disk)| &&
              SameHome(bc.latest, Install(old(bc.latest), lay, old(lh), |old(lh)|), lay)
      ensures bc.history == old(bc.history) + RedoTrace(old(bc.disk), lay, old(lh), |old(lh)| + 1)
    {
      InstallTrans(recovering);
      NothingLeft(bc.View(), lh, recovering);
      ghost var c := bc.View();
      CalmLess(c, Zone(lay, lh), Zone(lay, []));
      lh := [];
      WriteHead();
      StillNothing(c, bc.View(), recovering);
      UndisturbedTrans(old(bc.View()), c, bc.View());
    }

    /** recover_from_log */
    method RecoverFromLog()
      requires bc.Valid() && O.AllSpare(bc.held) && bc.latest == bc.disk && HeadOk(bc.disk, lay)
      modifies `lh, bc
      ensures Ready() && lh == [] && O.AllSpare(bc.held) && Cleared(bc.disk, lay)
      ensures bc.disk == Recovered(old(bc.disk), lay) && SameHome(bc.latest, bc.disk, lay)
      ensures bc.history ==
              old(bc.history) + RedoTrace(old(bc.disk), lay, Header(old(bc.disk), lay), |Header(old(bc.disk), lay)| + 1)
    {
      ReadHead();
      InstallAndClear(true);
      RecoveryClears(old(bc.disk), lay);
    }

    /** commit, for a transaction that is not empty */
    method CommitTransaction()
      requires Ready() && O.Spare(bc.held) && Distinct(lh) && Pins(bc.View(), lh)
      modifies `lh, bc
      ensures Ready() && lh == [] && Pins(bc.View(), []) && SameHome(bc.latest, old(bc.latest), lay)
      ensures O.Undisturbed(old(bc.View()), bc.View())
      ensures Cleared(bc.disk, lay)
      ensures bc.disk == CommitDisk(old(bc.disk), lay, old(lh), old(bc.latest), 2 * |old(lh)| + 2)
      ensures bc.history == old(bc.history) + CommitTrace(old(bc.disk), lay, old(lh), old(bc.latest), 2 * |old(lh)| + 2)
    {
      WriteTransaction();
      CommitHistory(old(bc.history), old(bc.disk), lay, lh, old(bc.latest));
      CommitClears(old(bc.disk), lay, lh, old(bc.latest));
      ghost var c := bc.View();
      InstallAndClear(false);
      UndisturbedTrans(old(bc.View()), c, bc.View());
      assert lh[0..] == [];
    }

    /** One attempt of begin_op: false means the operation goes to sleep and tries again. */
    method BeginOp() returns (granted: bool)
      requires Valid()
      modifies `outstanding, `ops
      ensures Valid() && granted == R.Granted(old(Res()))
      ensures Res() == if granted then R.AfterBegin(old(Res())) else old(Res())
    {
      if committing {
        granted := false;
      } else if |lh| + (outstanding + 1) * MAXOPBLOCKS > LOGSIZE {
        granted := false;
      } else {
        outstanding := outstanding + 1;
        ops := ops + [{}];
        granted := true;
      }
    }

    /** log_write by operation op, which owns buffer b; true means a panic. Afterwards the
        buffer is pinned, so its owner may release it. */
    method LogWrite(ghost op: nat, b: nat) returns (panic: bool)
      requires Valid() && Owned(bc.View(), b) && (outstanding > 0 ==> op < |ops|)
      requires bc.buf[b].blockno < |bc.disk| && !InLog(lay, bc.buf[b].blockno)
      modifies `lh, `ops, bc`buf, bc`held
      ensures panic == (R.TooBig(old(Res()), lay.size) || outstanding < 1)
      ensures panic ==> Res() == old(Res()) && bc.View() == old(bc.View())
      ensures !panic ==> Valid() && Res() == R.AfterLogWrite(old(Res()), op, bc.buf[b].blockno)
      ensures !panic ==> Owned(bc.View(), b) && bc.held[b].pinned && |old(bc.buf)| == |old(bc.held)|
      ensures !panic ==> bc.View() == if old(bc.buf)[b].blockno in old(lh) then old(bc.View())
              else Pin(old(bc.View()), b)
    {
      if |lh| >= LOGSIZE || |lh| >= lay.size - 1 || outstanding < 1 {
        return true;
      }
      var i := Lookup(bc.buf[b].blockno);
      ops := ops[op := ops[op] + {bc.buf[b].blockno}];
      if i == |lh| {
        PinConsistent(bc.View(), lay, lh, b);
        lh := lh + [bc.buf[b].blockno];
        bc.Bpin(b);
      } else {
        AbsorbedIsPinned(bc.View(), lay, lh, b, i);
        lh := lh[i := bc.buf[b].blockno];
      }
      return false;
    }

    /** The absorption loop of log_write. */
    method Lookup(k: nat) returns (i: nat)
      ensures i <= |lh| && (i < |lh| ==> lh[i] == k) && (i == |lh| ==> k !in lh)
    {
      i := 0;
      while i < |lh| && lh[i] != k
        invariant 0 <= i <= |lh| && k !in lh[..i]
      {
        i := i + 1;
      }
    }

    /** The last end_op can commit: the log's own blocks and the logged ones are not held by anyone, a
        buffer is spare, and all that was modified has been logged. */
    ghost predicate CanCommit()
      reads this, bc
    {
      O.Calm(bc.View(), Zone(lay, lh)) && O.Spare(bc.held) && NoneUnlogged(bc.View())
    }

    /** end_op by operation op. The last one commits: every disk it leaves behind recovers to the
        blocks as they were or as the cache has them, and it ends with the latter on the disk. Who
        holds another buffer meanwhile finds it unchanged. */
    method EndOp(ghost op: nat)
      requires Valid() && op < |ops| && (outstanding == 1 ==> CanCommit())
      modifies this, bc
      ensures Valid() && Res() == R.AfterEnd(old(Res()), op)
      ensures old(outstanding) > 1 ==> bc.View() == old(bc.View()) && bc.history == old(bc.history)
      ensures old(outstanding) == 1 ==> Committed(old(bc.View()), bc.View(), lay, old(lh))
      ensures old(outstanding) == 1 ==>
                && Loggable(old(bc.disk), lay, old(lh)) && |old(bc.latest)| == |old(bc.disk)|
                && bc.history == old(bc.history) + CommitWrites(old(bc.disk), lay, old(lh), old(bc.latest))
    {
      outstanding := outstanding - 1;
      ops := ops[..op] + ops[op+1..];
      if outstanding == 0 {
        committing := true;
        Commit();
        committing := false;
      }
    }

    /** commit */
    method Commit()
      requires bc.Valid() && Consistent(bc.View(), lay, lh, |lh|) && CanCommit()
      modifies `lh, bc
      ensures bc.Valid() && lh == [] && Committed(old(bc.View()), bc.View(), lay, old(lh))
      ensures Loggable(old(bc.disk), lay, old(lh)) && |old(bc.latest)| == |old(bc.disk)|
      ensures bc.history == old(bc.history) + CommitWrites(old(bc.disk), lay, old(lh), old(bc.latest))
    {
      CommitStarts(bc.View(), lay, lh);
      if |lh| > 0 {
        CommitAll();
      } else {
        NothingToCommit(bc.View(), lay);
        assert bc.history + [] == bc.history;
      }
    }

    method CommitAll()
      requires bc.Valid() && Idle(bc.View(), lay, lh) && Pins(bc.View(), lh) && lh != [] && CanCommit()
      modifies `lh, bc
      ensures bc.Valid() && lh == [] && Committed(old(bc.View()), bc.View(), lay, old(lh))
      ensures Loggable(old(bc.disk), lay, old(lh)) && |old(bc.latest)| == |old(bc.disk)|
      ensures bc.history == old(bc.history) + CommitTrace(old(bc.disk), lay, old(lh), old(bc.latest), 2 * |old(lh)| + 2)
    {
      CommitIsHome(bc.View(), lay, lh);
      CommitTransaction();
      CommitEnds(bc.View(), lay);
    }

    /** write_log, write_head: after this the transaction is durable. */
    method WriteTransaction()
      requires Ready() && O.Spare(bc.held) && Distinct(lh) && Pins(bc.View(), lh)
      modifies bc
      ensures Ready() && ToInstall(bc.View(), lh, 0, false) && O.Undisturbed(old(bc.View()), bc.View())
      ensures bc.disk == CommitDisk(old(bc.disk), lay, lh, old(bc.latest), |lh| + 1)
      ensures bc.history == old(bc.history) + CommitTrace(old(bc.disk), lay, lh, old(bc.latest), |lh| + 1)
      ensures Loggable(bc.latest, lay, lh) && SameHome(Install(bc.latest, lay, lh, |lh|), old(bc.latest), lay)
    {
      WriteLog();
      ghost var c := bc.View();
      WriteHead();
      PinsKept(c, bc.View(), lh);
      UndisturbedTrans(old(bc.View()), c, bc.View());
      assert lh[0..] == lh;
      HeadWritten(bc.View(), old(bc.disk), lay, lh, old(bc.latest));
    }

    // ---------- what clients do with buffers ----------

    /** bread, inside or outside an operation: the caller owns a buffer with the latest contents of the
        block, and every logged block stays pinned where it is. */
    method Bread(k: nat) returns (b: nat)
      requires Valid() && O.CanBread(bc.View(), k)
      modifies bc`buf, bc`slot, bc`held, bc`latest
      ensures Valid() && O.Picks(old(bc.View()), k, b) && bc.View() == O.Bread(old(bc.View()), k, b)
      ensures Owned(bc.View(), b) && bc.buf[b].blockno == k < |bc.latest| && bc.buf[b].data == bc.latest[k]
    {
      b := bc.Bread(k);
      BreadKeeps(old(bc.View()), lay, lh, k, b);
    }

    /** The owner of a buffer changes it. */
    method Modify(b: nat, d: Block)
      requires Valid() && Owned(bc.View(), b) && !InLog(lay, bc.buf[b].blockno)
      modifies bc`buf, bc`latest
      ensures Valid() && old(bc.buf)[b].blockno < |bc.disk| && bc.View() == CacheSpec.Modify(old(bc.View()), b, d)
    {
      ModifyKeeps(bc.View(), lay, lh, b, d);
      bc.Store(b, d);
    }

    /** brelse, by an owner that may have logged what it modified or not. */
    method Brelse(b: nat)
      requires Valid() && Owned(bc.View(), b)
      modifies bc
      ensures Valid() && old(bc.buf)[b].refcnt > 0 && old(bc.held)[b].users > 0
      ensures bc.View() == Release(old(bc.View()), b)
    {
      ReleaseKeeps(bc.View(), lay, lh, b);
      bc.Brelse(b);
    }
  }
}
